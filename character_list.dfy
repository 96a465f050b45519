/** The character list controller: the loaded characters, the page cursor, the loading
    and has-more flags, the favourites view, and the user events that change them.

    A list call is split in two events, as it is in the running program: issuing it
    (a fresh search or a load-more, which return the `PageRequest` they send) and its
    end (`OnSearchResult` / `OnLoadMoreResult`, given the call's `FetchOutcome`).
    The pagination part of the state is specified by pure transition functions over
    `ListState`; the class's methods are proved to follow them, and the lemmas about
    the controller's behaviour are stated over those functions. */
module CharacterList {
  import opened CharacterModel
  import opened ById
  import opened Catalog
  import opened Favorites

  /** The pagination state. */
  datatype ListState = ListState(characters: seq<Character>, currentPage: nat, isLoading: bool, hasMore: bool)

  /** Remaining scroll distance, in pixels, under which the next page is loaded. */
  const ScrollThreshold := 300

  /** What a failed list call is replaced by: no results and no next cursor. */
  const EmptyPage: Page<Character> := Page(Info(0, "", 0, None), [])

  /** The name sent with a list call: the search box's value, or '' when it is null. */
  function SearchName(value: Option<string>): (name: string)
    ensures value.None? ==> name == ""
    ensures value.Some? ==> name == value.value
    ensures name != "" ==> value == Some(name)
  {
    match value
    case None => ""
    case Some(s) => s
  }

  /** `fetchCharacters`: sends the current page with the given name, marks the
      controller loading and advances the cursor. */
  function Fetch(s: ListState, name: string): (ListState, PageRequest)
  {
    (s.(isLoading := true, currentPage := s.currentPage + 1), PageRequest(s.currentPage, name))
  }

  /** The reset step on an accepted search term, then the fetch of page 1. */
  function Search(name: string): (ListState, PageRequest)
  {
    Fetch(ListState([], 1, true, true), name)
  }

  /** `handleCharacterResponse`: append or replace, and take `hasMore` from the
      next-page cursor. */
  function Handle(s: ListState, res: Page<Character>, append: bool): (r: ListState)
    ensures append ==> |r.characters| == |s.characters| + |res.results|
    ensures append ==> r.characters[..|s.characters|] == s.characters && r.characters[|s.characters|..] == res.results
    ensures !append ==> r.characters == res.results
    ensures r.hasMore <==> |res.info.next| > 0
    ensures r.currentPage == s.currentPage && r.isLoading == s.isLoading
  {
    var characters := if append then s.characters + res.results else res.results;
    s.(characters := characters, hasMore := res.info.next != "")
  }

  /** The end of a list call: a page is handled; a failure clears `hasMore` and is
      handled as the empty page; a call that completes with no value handles nothing.
      In every case loading ends. */
  function Settle(s: ListState, outcome: FetchOutcome, append: bool): (r: ListState)
    ensures !r.isLoading && r.currentPage == s.currentPage
    ensures outcome.Emitted? ==> (r.hasMore <==> outcome.page.info.next != "")
    ensures outcome.Emitted? ==>
      r.characters == (if append then s.characters + outcome.page.results else outcome.page.results)
    ensures outcome.Failed? ==> !r.hasMore && r.characters == (if append then s.characters else [])
    ensures outcome.NoValue? ==> r.characters == s.characters && r.hasMore == s.hasMore
  {
    match outcome
    case Emitted(res) => Handle(s, res, append).(isLoading := false)
    case Failed => Handle(s.(hasMore := false), EmptyPage, append).(isLoading := false)
    case NoValue => s.(isLoading := false)
  }

  /** `loadMoreCharacters`: nothing while loading or when no page is left; otherwise
      the fetch of the next page. */
  function LoadMore(s: ListState, name: string): (ListState, Option<PageRequest>)
  {
    if s.isLoading || !s.hasMore then (s, None)
    else
      var (t, request) := Fetch(s.(isLoading := true), name);
      (t, Some(request))
  }

  /** The scroll test: the distance left to the bottom is under the threshold. */
  predicate NearBottom(innerHeight: int, scrollY: int, offsetHeight: int)
  {
    offsetHeight - (innerHeight + scrollY) < ScrollThreshold
  }

  /** An accepted search sends page 1 with the term and leaves the controller loading,
      with no characters, more pages expected and the cursor at page 2. */
  lemma SearchStartsAtPageOne(name: string)
    ensures Search(name).1 == PageRequest(1, name)
    ensures Search(name).0 == ListState([], 2, true, true)
  {
  }

  /** Load-more while loading, or with no page left, sends nothing and changes nothing;
      otherwise it sends the cursor's page and advances the cursor by one. */
  lemma LoadMoreGuard(s: ListState, name: string)
    ensures s.isLoading || !s.hasMore ==> LoadMore(s, name) == (s, None)
    ensures !s.isLoading && s.hasMore ==>
      LoadMore(s, name).1 == Some(PageRequest(s.currentPage, name)) &&
      LoadMore(s, name).0 == s.(currentPage := s.currentPage + 1, isLoading := true)
  {
  }

  /** A failed fresh search leaves no characters; a failed load-more keeps them. Either
      way no further page is expected and loading ends. */
  lemma FailureIsEmptyPage(s: ListState, name: string)
    ensures Settle(Search(name).0, Failed, false) == ListState([], 2, false, false)
    ensures Settle(s, Failed, true) == s.(hasMore := false, isLoading := false)
  {
    assert s.characters + EmptyPage.results == s.characters;
  }

  /** A page without a next cursor ends pagination: the following load-more sends nothing. */
  lemma LastPageStopsLoading(s: ListState, res: Page<Character>, append: bool, name: string)
    requires res.info.next == ""
    ensures LoadMore(Settle(s, Emitted(res), append), name).1 == None
  {
  }

  /** All results of the pages, in order. */
  function Concat(pages: seq<Page<Character>>): seq<Character>
  {
    if |pages| == 0 then [] else pages[0].results + Concat(pages[1..])
  }

  /** A scroll session: one load-more per page, each answered by the next page. Gives
      the final state and the requests sent. */
  function ScrollThrough(s: ListState, name: string, pages: seq<Page<Character>>): (ListState, seq<PageRequest>)
    decreases |pages|
  {
    if |pages| == 0 then (s, [])
    else
      var (t, request) := LoadMore(s, name);
      var (last, requests) := ScrollThrough(Settle(t, Emitted(pages[0]), true), name, pages[1..]);
      (last, (if request.Some? then [request.value] else []) + requests)
  }

  /** While every page announces a next one, load-more requests the consecutive pages
      with the same name and appends their results in arrival order. */
  lemma {:induction false} ScrollRequestsConsecutivePages(s: ListState, name: string, pages: seq<Page<Character>>)
    requires !s.isLoading && s.hasMore
    requires forall k :: 0 <= k < |pages| ==> pages[k].info.next != ""
    ensures |ScrollThrough(s, name, pages).1| == |pages|
    ensures forall k :: 0 <= k < |pages| ==> ScrollThrough(s, name, pages).1[k] == PageRequest(s.currentPage + k, name)
    ensures ScrollThrough(s, name, pages).0 ==
      ListState(s.characters + Concat(pages), s.currentPage + |pages|, false, true)
    decreases |pages|
  {
    if |pages| > 0 {
      var (t, request) := LoadMore(s, name);
      var u := Settle(t, Emitted(pages[0]), true);
      assert u == ListState(s.characters + pages[0].results, s.currentPage + 1, false, true);
      var later := pages[1..];
      assert forall k :: 0 <= k < |later| ==> later[k] == pages[k + 1];
      ScrollRequestsConsecutivePages(u, name, later);
      var requests := ScrollThrough(u, name, later).1;
      assert ScrollThrough(s, name, pages).1 == [PageRequest(s.currentPage, name)] + requests;
      assert Concat(pages) == pages[0].results + Concat(later);
      assert s.characters + pages[0].results + Concat(later) == s.characters + Concat(pages);
    }
  }

  /** A search whose first page announces a next one, then one load-more: pages 1 and 2
      of the same term are requested and the second page's results follow the first's. */
  lemma SearchThenLoadMore(name: string, first: Page<Character>, second: Page<Character>)
    requires first.info.next != ""
    ensures var (s, r1) := Search(name);
      var s1 := Settle(s, Emitted(first), false);
      var (s2, r2) := LoadMore(s1, name);
      r1 == PageRequest(1, name) && r2 == Some(PageRequest(2, name)) &&
      Settle(s2, Emitted(second), true).characters == first.results + second.results
  {
  }

  // ---------------------------------------------------------------------------
  // Editing the loaded list

  /** `{ ...prior, ...edited }`: the edit carries every field of the API record, so only
      the resolved episodes survive from the old entry. */
  function Merge(prior: Character, edited: CharacterData): Character
  {
    Character(edited, prior.episodesData)
  }

  /** `editCharacter`: the first entry with the edited id becomes the merge. */
  function EditById(cs: seq<Character>, edited: CharacterData): (r: seq<Character>)
    ensures |r| == |cs|
    ensures forall i :: 0 <= i < |cs| ==> r[i].Id() == cs[i].Id()
    ensures !HasId(cs, edited.id) ==> r == cs
  {
    match IndexOfId(cs, edited.id)
    case None => cs
    case Some(k) => cs[k := Merge(cs[k], edited)]
  }

  /** Exactly the first entry carrying the edited id is merged; every other entry,
      including later ones with the same id, is kept as it was. */
  lemma EditMergesFirstMatch(cs: seq<Character>, edited: CharacterData, i: nat)
    requires i < |cs|
    ensures EditById(cs, edited)[i] ==
      if cs[i].Id() == edited.id && !HasId(cs[..i], edited.id) then Merge(cs[i], edited) else cs[i]
  {
    match IndexOfId(cs, edited.id)
    case None =>
    case Some(k) =>
      if i < k {
        assert !(cs[i].Id() == edited.id);
      } else if i == k {
        assert !HasId(cs[..i], edited.id);
      } else {
        assert cs[..i][k] == cs[k];
      }
  }

  /** Editing keeps the ids unique. */
  lemma EditKeepsUniqueIds(cs: seq<Character>, edited: CharacterData)
    requires UniqueIds(cs)
    ensures UniqueIds(EditById(cs, edited))
  {
  }

  /** The record `onAddCharacter` builds from a draft: the draft's name, status and image,
      the given id and timestamp, and placeholders for everything else. */
  function Synthesize(draft: NewCharacter, id: int, created: string): Character
  {
    Character(
      CharacterData(id, draft.name, draft.status, "Unknown", "Unknown", UnknownGender,
                    Place("Unknown", ""), Place("Unknown", ""), draft.image, [], "", created),
      [])
  }

  /** The list after adding a draft: one more entry, at the end. */
  function AddDraft(cs: seq<Character>, draft: NewCharacter, id: int, created: string): (r: seq<Character>)
    ensures |r| == |cs| + 1 && r[..|cs|] == cs
    ensures r[|cs|].Id() == id && r[|cs|].data.name == draft.name
    ensures r[|cs|].data.status == draft.status && r[|cs|].data.image == draft.image
    ensures r[|cs|].data.species == "Unknown" && r[|cs|].data.kind == "Unknown"
    ensures r[|cs|].data.gender == UnknownGender
    ensures r[|cs|].data.origin == Place("Unknown", "") && r[|cs|].data.location == Place("Unknown", "")
    ensures r[|cs|].data.episode == [] && r[|cs|].episodesData == []
    ensures r[|cs|].data.url == "" && r[|cs|].data.created == created
  {
    cs + [Synthesize(draft, id, created)]
  }

  /** What a favourite toggle leaves in the store when the view matched it. */
  function Toggled(favorites: seq<Character>, c: Character): seq<Character>
  {
    if HasId(favorites, c.Id()) then WithoutId(favorites, c.Id()) else Added(favorites, c)
  }

  /** Toggling flips whether the character is a favourite, and toggling twice from a
      non-favourite restores the favourites exactly. */
  lemma ToggleFlips(favorites: seq<Character>, c: Character)
    ensures HasId(Toggled(favorites, c), c.Id()) <==> !HasId(favorites, c.Id())
    ensures !HasId(favorites, c.Id()) ==> Toggled(Toggled(favorites, c), c) == favorites
  {
    if !HasId(favorites, c.Id()) {
      AddThenRemove(favorites, c);
    }
  }

  // ---------------------------------------------------------------------------
  // The controller

  class CharacterListComponent {
    var characters: seq<Character>
    var favoriteCharacters: seq<Character>
    var currentPage: nat
    var isLoading: bool
    var hasMore: bool
    /** The search box's value (null before initialisation). */
    var searchValue: Option<string>
    /** The last term that passed the duplicate filter of the search stream. */
    var lastAccepted: Option<Option<string>>
    const favoritesStore: FavoriteCharactersStore

    function State(): ListState
      reads this
    {
      ListState(characters, currentPage, isLoading, hasMore)
    }

    constructor (store: FavoriteCharactersStore)
      ensures State() == ListState([], 1, false, true)
      ensures favoriteCharacters == [] && searchValue == None && lastAccepted == None
      ensures favoritesStore == store
    {
      characters := [];
      favoriteCharacters := [];
      currentPage := 1;
      isLoading := false;
      hasMore := true;
      searchValue := None;
      lastAccepted := None;
      favoritesStore := store;
    }

    /** `ngOnInit`: load the favourites view and put '' in the search box. */
    method NgOnInit()
      modifies this
      ensures favoriteCharacters == favoritesStore.Favorites()
      ensures searchValue == Some("")
      ensures State() == old(State()) && lastAccepted == old(lastAccepted)
    {
      favoriteCharacters := favoritesStore.GetFavorites();
      searchValue := Some("");
    }

    /** The user edits the search box; nothing is fetched until the term is accepted. */
    method SetSearchValue(value: Option<string>)
      modifies this
      ensures searchValue == value
      ensures State() == old(State()) && lastAccepted == old(lastAccepted)
      ensures favoriteCharacters == old(favoriteCharacters)
    {
      searchValue := value;
    }

    /** The search box's current value comes out of the debounce. A value equal to the
        last accepted one is dropped; any other resets the list and fetches page 1. */
    method OnSearchTerm() returns (request: Option<PageRequest>)
      modifies this
      ensures lastAccepted == Some(searchValue) && searchValue == old(searchValue)
      ensures old(lastAccepted) == Some(old(searchValue)) ==> request == None && State() == old(State())
      ensures old(lastAccepted) != Some(old(searchValue)) ==>
        request.Some? && (State(), request.value) == Search(SearchName(searchValue))
      ensures favoriteCharacters == old(favoriteCharacters)
    {
      if lastAccepted == Some(searchValue) {
        return None;
      }
      lastAccepted := Some(searchValue);
      currentPage := 1;
      hasMore := true;
      characters := [];
      isLoading := true;
      var sent := FetchCharacters();
      request := Some(sent);
    }

    /** `fetchCharacters`. */
    method FetchCharacters() returns (request: PageRequest)
      modifies this
      ensures (State(), request) == Fetch(old(State()), SearchName(searchValue))
      ensures searchValue == old(searchValue) && lastAccepted == old(lastAccepted)
      ensures favoriteCharacters == old(favoriteCharacters)
    {
      var page := currentPage;
      var name := SearchName(searchValue);
      isLoading := true;
      currentPage := currentPage + 1;
      request := PageRequest(page, name);
    }

    /** `handleCharacterResponse`. */
    method HandleCharacterResponse(res: Page<Character>, append: bool)
      modifies this
      ensures State() == Handle(old(State()), res, append)
      ensures searchValue == old(searchValue) && lastAccepted == old(lastAccepted)
      ensures favoriteCharacters == old(favoriteCharacters)
    {
      if append {
        characters := characters + res.results;
      } else {
        characters := res.results;
      }
      hasMore := res.info.next != "";
    }

    /** The end of a list call: the error handler, the response handler and the
        finalizer together. */
    method CompleteFetch(outcome: FetchOutcome, append: bool)
      modifies this
      ensures State() == Settle(old(State()), outcome, append)
      ensures searchValue == old(searchValue) && lastAccepted == old(lastAccepted)
      ensures favoriteCharacters == old(favoriteCharacters)
    {
      match outcome {
        case Emitted(res) =>
          HandleCharacterResponse(res, append);
        case Failed =>
          hasMore := false;
          HandleCharacterResponse(EmptyPage, append);
        case NoValue =>
      }
      isLoading := false;
    }

    /** The search stream's subscriber: a page replaces the list. */
    method OnSearchResult(outcome: FetchOutcome)
      modifies this
      ensures State() == Settle(old(State()), outcome, false)
      ensures searchValue == old(searchValue) && lastAccepted == old(lastAccepted)
      ensures favoriteCharacters == old(favoriteCharacters)
    {
      CompleteFetch(outcome, false);
    }

    /** The load-more subscriber: a page is appended. */
    method OnLoadMoreResult(outcome: FetchOutcome)
      modifies this
      ensures State() == Settle(old(State()), outcome, true)
      ensures searchValue == old(searchValue) && lastAccepted == old(lastAccepted)
      ensures favoriteCharacters == old(favoriteCharacters)
    {
      CompleteFetch(outcome, true);
    }

    /** `loadMoreCharacters`. */
    method LoadMoreCharacters() returns (request: Option<PageRequest>)
      modifies this
      ensures (State(), request) == LoadMore(old(State()), SearchName(searchValue))
      ensures searchValue == old(searchValue) && lastAccepted == old(lastAccepted)
      ensures favoriteCharacters == old(favoriteCharacters)
    {
      if isLoading || !hasMore {
        return None;
      }
      isLoading := true;
      var sent := FetchCharacters();
      request := Some(sent);
    }

    /** `onScroll`, with the window's geometry as integer inputs. */
    method OnScroll(innerHeight: int, scrollY: int, offsetHeight: int) returns (request: Option<PageRequest>)
      modifies this
      ensures NearBottom(innerHeight, scrollY, offsetHeight) ==>
        (State(), request) == LoadMore(old(State()), SearchName(searchValue))
      ensures !NearBottom(innerHeight, scrollY, offsetHeight) ==> request == None && State() == old(State())
      ensures searchValue == old(searchValue) && lastAccepted == old(lastAccepted)
      ensures favoriteCharacters == old(favoriteCharacters)
    {
      request := None;
      var position := innerHeight + scrollY;
      if offsetHeight - position < ScrollThreshold {
        request := LoadMoreCharacters();
      }
    }

    /** The add dialog closed: with a draft, append the synthesized record; without one,
        nothing. The id and timestamp are the random draw (0 to 9999) and the clock. */
    method OnAddCharacter(draft: Option<NewCharacter>, id: int, created: string)
      requires 0 <= id < 10000
      modifies this
      ensures draft.None? ==> characters == old(characters)
      ensures draft.Some? ==> characters == AddDraft(old(characters), draft.value, id, created)
      ensures currentPage == old(currentPage) && isLoading == old(isLoading) && hasMore == old(hasMore)
      ensures searchValue == old(searchValue) && lastAccepted == old(lastAccepted)
      ensures favoriteCharacters == old(favoriteCharacters)
    {
      if draft.Some? {
        characters := characters + [Synthesize(draft.value, id, created)];
      }
    }

    /** `editCharacter`. */
    method EditCharacter(edited: CharacterData)
      modifies this
      ensures characters == EditById(old(characters), edited)
      ensures currentPage == old(currentPage) && isLoading == old(isLoading) && hasMore == old(hasMore)
      ensures searchValue == old(searchValue) && lastAccepted == old(lastAccepted)
      ensures favoriteCharacters == old(favoriteCharacters)
    {
      var index := IndexOfId(characters, edited.id);
      if index.Some? {
        characters := characters[index.value := Merge(characters[index.value], edited)];
      }
    }

    /** The edit dialog closed: with a result (which carries the edited character's id),
        apply it; without one, nothing. */
    method OnEditCharacter(original: CharacterData, result: Option<CharacterData>)
      requires result.Some? ==> result.value.id == original.id
      modifies this
      ensures result.None? ==> characters == old(characters)
      ensures result.Some? ==> characters == EditById(old(characters), result.value)
      ensures currentPage == old(currentPage) && isLoading == old(isLoading) && hasMore == old(hasMore)
      ensures searchValue == old(searchValue) && lastAccepted == old(lastAccepted)
      ensures favoriteCharacters == old(favoriteCharacters)
    {
      if result.Some? {
        EditCharacter(result.value);
      }
    }

    /** `deleteCharacter`: drop every entry with the character's id. */
    method DeleteCharacter(c: CharacterData)
      modifies this
      ensures characters == WithoutId(old(characters), c.id)
      ensures currentPage == old(currentPage) && isLoading == old(isLoading) && hasMore == old(hasMore)
      ensures searchValue == old(searchValue) && lastAccepted == old(lastAccepted)
      ensures favoriteCharacters == old(favoriteCharacters)
    {
      characters := WithoutId(characters, c.id);
    }

    /** The confirmation answered: accepted deletes, rejected changes nothing. */
    method OnDeleteCharacter(c: CharacterData, accepted: bool)
      modifies this
      ensures accepted ==> characters == WithoutId(old(characters), c.id)
      ensures !accepted ==> characters == old(characters)
      ensures currentPage == old(currentPage) && isLoading == old(isLoading) && hasMore == old(hasMore)
      ensures searchValue == old(searchValue) && lastAccepted == old(lastAccepted)
      ensures favoriteCharacters == old(favoriteCharacters)
    {
      if accepted {
        DeleteCharacter(c);
      }
    }

    /** `isFavorite`: some entry of the favourites view has the character's id. */
    function IsFavorite(c: Character): (b: bool)
      reads this
      ensures b <==> exists i :: 0 <= i < |favoriteCharacters| && favoriteCharacters[i].Id() == c.Id()
    {
      HasId(favoriteCharacters, c.Id())
    }

    /** `onToggleFavorite`: remove by id when the view has it, else add the snapshot;
        then reload the view from the store. */
    method OnToggleFavorite(c: Character)
      modifies this, favoritesStore
      ensures old(IsFavorite(c)) ==>
        favoritesStore.entry == Stored(WithoutId(old(favoritesStore.Favorites()), c.Id()))
      ensures !old(IsFavorite(c)) ==>
        favoritesStore.Favorites() == Added(old(favoritesStore.Favorites()), c)
      ensures !old(IsFavorite(c)) && HasId(old(favoritesStore.Favorites()), c.Id()) ==>
        favoritesStore.entry == old(favoritesStore.entry)
      ensures old(favoriteCharacters) == old(favoritesStore.Favorites()) ==>
        favoritesStore.Favorites() == Toggled(old(favoritesStore.Favorites()), c)
      ensures favoriteCharacters == favoritesStore.Favorites()
      ensures old(favoritesStore.Valid()) ==> favoritesStore.Valid()
      ensures State() == old(State())
      ensures searchValue == old(searchValue) && lastAccepted == old(lastAccepted)
    {
      if IsFavorite(c) {
        favoritesStore.RemoveFromFavorites(c.Id());
      } else {
        favoritesStore.AddToFavorites(c);
      }
      favoriteCharacters := favoritesStore.GetFavorites();
    }
  }
}
