/** The record types of the character catalog: a character as the remote API returns
    it, the same character with its resolved episodes attached, an episode, and the
    page envelope of a list request. */
module CharacterModel {

  datatype Option<+T> = None | Some(value: T)

  /** Life status: 'Alive' | 'Dead' | 'unknown'. */
  datatype Status = Alive | Dead | UnknownStatus

  /** Gender: 'Female' | 'Male' | 'Genderless' | 'unknown'. */
  datatype Gender = Female | Male | Genderless | UnknownGender

  /** A named reference to a location (origin or current location). */
  datatype Place = Place(name: string, url: string)

  datatype Episode = Episode(
    id: int,
    name: string,
    airDate: string,
    code: string,
    characters: seq<string>,
    url: string,
    created: string)

  /** A character as the API returns it, without resolved episodes. */
  datatype CharacterData = CharacterData(
    id: int,
    name: string,
    status: Status,
    species: string,
    kind: string,          // the API's `type` field
    gender: Gender,
    origin: Place,
    location: Place,
    image: string,
    episode: seq<string>,  // episode locators
    url: string,
    created: string)

  /** A character together with the episodes resolved from its locators
      (the `extends` of the source type is the `data` component). */
  datatype Character = Character(data: CharacterData, episodesData: seq<Episode>)
  {
    function Id(): int { data.id }
  }

  /** The page envelope's `info`. `next` is the next-page cursor; the empty string means
      there is none. */
  datatype Info = Info(count: int, next: string, pages: int, prev: Option<int>)

  /** One page of a list request. */
  datatype Page<T> = Page(info: Info, results: seq<T>)

  /** The three fields the add dialog returns. */
  datatype NewCharacter = NewCharacter(name: string, status: Status, image: string)
}
