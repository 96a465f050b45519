# Rick and Morty character catalog: a Dafny model of its client logic

The application is a browser front-end for the public Rick and Morty character API.
It lists, searches and paginates characters, keeps favourites in browser storage, and
adds, edits and deletes characters in the loaded list. This project models its three
pieces of logic and proves what they promise:

- **Favourites store** (`favorites.dfy`, module `Favorites`). A class whose single
  field is the storage entry under the favourites key. The entry is missing, holds an
  empty (falsy) value, or holds a saved sequence of character snapshots.
  `AddToFavorites` appends only when no favourite has the id. `RemoveFromFavorites`
  filters the id out and saves. `GetFavorites` reads the entry without changing it.
  The proofs show that ids stay unique, that order is kept, and that nothing else
  changes. Adding and then removing a new character restores the earlier contents.
- **List controller** (`character_list.dfy`, module `CharacterList`). A class with
  the component's fields: `characters`, `favoriteCharacters`, `currentPage`,
  `isLoading`, `hasMore`, the search box value, and the last term the search stream
  let through. A list call has two events. Issuing it (an accepted search term, a
  load-more or a scroll) returns the `PageRequest` it sends. Its end
  (`OnSearchResult`, `OnLoadMoreResult`) receives a `FetchOutcome`. The pagination
  state follows pure transition functions (`Fetch`, `Search`, `Handle`, `Settle`,
  `LoadMore`), and the lemmas are stated over those functions. One lemma covers a
  whole scroll session: it requests consecutive pages with the same name and appends
  the results in order. Edit, delete, add and favourite-toggle are modelled too.
- **Catalog requests** (`catalog.dfy`, module `Catalog`). The five service calls as
  HTTP method plus URL. The list and item URL builders each have a parser, and
  round-trip lemmas show that the URL gives back its page, name or id exactly.
  `CreateCharacterRequest` shows that the collection URL it posts to is neither kind.
  The name goes in verbatim and is omitted when empty. This holds for the model's own
  parser, which takes everything after `&name=` as the name. The program does not
  encode the name, so a server that reads the query would cut it at `&` or `#` and
  decode `%` and `+`. Page enrichment is modelled with the episode lookup as a
  function parameter. Every character gets `episodesData` aligned one-to-one, in
  order, with its `episode` locators. `info`, the number and order of results, and
  every other field stay unchanged. The whole `getCharacters` pipeline is a function
  from the list response and the lookup to a `FetchOutcome`: a page, a failure, or
  completion with no value.

`character_model.dfy` holds the record types (module `CharacterModel`). `by_id.dfy`
(module `ById`) holds the id-keyed `some`, `findIndex` and `filter`, with their
lemmas. The favourites store and the list controller both use them.

For a locally added character the code sets species and type to 'Unknown', gender to
'unknown', and origin and location to the name 'Unknown' with an empty url
(character-list.component.ts, lines 91-99). `AddDraft` states those values.

Inputs from the environment are parameters:
- the API base address `base`;
- the list response (or its failure);
- the episode lookup;
- the window geometry in `OnScroll`;
- the random id and the clock reading in `OnAddCharacter`;
- the initial storage entry.

## Model

| member | source | states |
|---|---|---|
| `ById.HasId` | src/app/characters/services/favorite-characters.service.ts:13 | `some` by id holds exactly when some entry has that id |
| `ById.IndexOfId` | src/app/characters/components/character-list/character-list.component.ts:133 | `findIndex` by id: None exactly when no entry has the id; otherwise the index of an entry with the id, and no earlier entry has it |
| `ById.WithoutId` | src/app/characters/services/favorite-characters.service.ts:21 | `filter` by id: an element survives exactly when it was present and has another id; no survivor has the id; the result is no longer than the input |
| `ById.WithoutIdAppend` | src/app/characters/services/favorite-characters.service.ts:21 | filtering distributes over concatenation, so survivors keep their relative order |
| `ById.WithoutIdAbsent` | src/app/characters/services/favorite-characters.service.ts:19-22 | removing an id that no entry has leaves the sequence unchanged |
| `ById.WithoutIdCount` | src/app/characters/services/favorite-characters.service.ts:21 | every entry with another id keeps its multiplicity; entries with the id drop to zero |
| `ById.WithoutIdUnique` | src/app/characters/services/favorite-characters.service.ts:21 | filtering preserves id-uniqueness |
| `Favorites.Added` | src/app/characters/services/favorite-characters.service.ts:11-17 | after add the id is present. An already-present id leaves the sequence as it was, so the old snapshot wins. A new id adds one entry, `c`, at the end, with earlier entries unchanged. Uniqueness is preserved |
| `Favorites.AddedTwice` | src/app/characters/services/favorite-characters.service.spec.ts:112-115 | adding the same character twice equals adding it once, for every sequence; for a new character that is exactly one new entry |
| `Favorites.AddThenRemove` | src/app/characters/services/favorite-characters.service.ts:11-23 | removing the id of a character just added restores the earlier favourites exactly |
| `Favorites.FavoriteCharactersStore.constructor` | src/app/characters/services/favorite-characters.service.ts:7-9 | the store starts over whatever storage already holds; it satisfies the id-uniqueness invariant when that holds nothing or a sequence with unique ids |
| `Favorites.FavoriteCharactersStore.GetFavorites` | src/app/characters/services/favorite-characters.service.ts:25-28 | returns what was last saved, or the empty sequence when nothing or an empty value is stored; changes nothing |
| `Favorites.FavoriteCharactersStore.SaveFavorites` | src/app/characters/services/favorite-characters.service.ts:30-32 | the entry becomes the given sequence, and reading it back gives that sequence |
| `Favorites.FavoriteCharactersStore.AddToFavorites` | src/app/characters/services/favorite-characters.service.ts:11-17 | a present id leaves the entry untouched and saves nothing. A new id saves the old favourites plus `c` at the end. Id-uniqueness is preserved |
| `Favorites.FavoriteCharactersStore.RemoveFromFavorites` | src/app/characters/services/favorite-characters.service.ts:19-23 | saves the favourites filtered by id. Afterwards no favourite has the id. An absent id keeps the contents. Id-uniqueness is preserved |
| `Catalog.Decimal` | src/app/characters/services/character.service.ts:31 | a page number renders as a non-empty run of decimal digits without a leading zero |
| `Catalog.DecimalRoundTrip` | src/app/characters/services/character.service.ts:31 | the digits a number renders to denote that number |
| `Catalog.IntText` | src/app/characters/services/character.service.ts:56 | an id renders as non-empty text that starts with a minus sign exactly when the id is negative |
| `Catalog.CharactersUrl` | src/app/characters/services/character.service.ts:16 | defines the collection URL `{base}character`, the prefix of every request URL; `CreateCharacterRequest` states that a POST to it is neither an item nor a list URL |
| `Catalog.ListUrl` | src/app/characters/services/character.service.ts:31 | defines the list URL `{base}character/?page={page}` followed by `&name={name}` only for a non-empty name; `ListUrlRoundTrip` and `ListUrlInjective` state its properties |
| `Catalog.ListUrlRoundTrip` | src/app/characters/services/character.service.ts:31 | the list URL for `{base}character/?page=…[&name=…]` parses back to exactly its page and name; the name is carried verbatim |
| `Catalog.ListQueryRoundTrip` | src/app/characters/services/character.service.ts:31 | the text after `?page=` is a digit run reading back as the page, followed by nothing for an empty name or by `&name=` and the name itself |
| `Catalog.ListUrlInjective` | src/app/characters/services/character.service.ts:31 | two list calls with the same URL have the same page and the same name |
| `Catalog.ItemUrlRoundTrip` | src/app/characters/services/character.service.ts:55-57 | the item URL `{base}character/{id}` parses back to exactly its id |
| `Catalog.IntTextRoundTrip` | src/app/characters/services/character.service.ts:55-57 | an id's text is `-` and digits for a negative id and digits alone otherwise, and reads back as the id |
| `Catalog.ItemUrl` | src/app/characters/services/character.service.ts:56 | defines the item URL `{base}character/{id}` that get, update and delete share; `ItemUrlRoundTrip` states its properties |
| `Catalog.GetCharactersRequest` | src/app/characters/services/character.service.ts:31-33 | `getCharacters` sends a GET whose URL is the list URL of its page and name, and that URL parses back to exactly that page and name |
| `Catalog.GetCharacterRequest` | src/app/characters/services/character.service.ts:55-57 | `getCharacter` sends a GET to the item URL of its id, and that URL parses back to exactly that id |
| `Catalog.CreateCharacterRequest` | src/app/characters/services/character.service.ts:59-61 | `createCharacter` POSTs to `{base}character`, with no trailing slash; that URL is neither an item URL nor a list URL |
| `Catalog.UpdateCharacterRequest` | src/app/characters/services/character.service.ts:63-65 | `updateCharacter` PUTs to the item URL of its id, the same URL `getCharacter` reads |
| `Catalog.DeleteCharacterRequest` | src/app/characters/services/character.service.ts:67-69 | `deleteCharacter` sends a DELETE to the item URL of its id, the same URL `getCharacter` reads |
| `Catalog.FetchEpisodes` | src/app/characters/services/character.service.ts:39-41 | the join over one character's episode requests succeeds exactly when every locator resolves. It then returns one episode per locator, in locator order |
| `Catalog.WithEpisodes` | src/app/characters/services/character.service.ts:39-43 | a character is enriched exactly when all its locators resolve. The result is the same record plus `episodesData` aligned with `episode` |
| `Catalog.EnrichResults` | src/app/characters/services/character.service.ts:37-44 | the join over a page's characters succeeds exactly when every character resolves, and then enriches them one for one, in order |
| `Catalog.EnrichPage` | src/app/characters/services/character.service.ts:35-50 | the enriched page keeps `info` and the number and order of results; each result is its input enriched |
| `Catalog.GetCharacters` | src/app/characters/services/character.service.ts:28-53 | a failed list request fails. An empty page, or a character with no episode locators, completes with no value. A failure with a page means some locator did not resolve. An emitted page is the enrichment of the response |
| `CharacterList.Handle` | src/app/characters/components/character-list/character-list.component.ts:228-239 | append mode gives the old list followed by the results; replace mode gives just the results. `hasMore` holds exactly when `next` is non-empty. The cursor and the loading flag are unchanged |
| `CharacterList.SearchName` | src/app/characters/components/character-list/character-list.component.ts:198 | the name sent is the box's value when it holds one and '' when it is null; so a non-empty name is exactly the box's value |
| `CharacterList.Fetch` | src/app/characters/components/character-list/character-list.component.ts:196-200 | defines `fetchCharacters`: sends the cursor's page with the name, sets loading and advances the cursor; `SearchStartsAtPageOne`, `LoadMoreGuard` and `ScrollRequestsConsecutivePages` state its effect |
| `CharacterList.Search` | src/app/characters/components/character-list/character-list.component.ts:182-188 | defines the reset on an accepted term followed by the fetch; `SearchStartsAtPageOne` states its result |
| `CharacterList.Settle` | src/app/characters/components/character-list/character-list.component.ts:201-209 | loading always ends and the cursor is kept. A page is appended to the list or replaces it, and sets `hasMore` from its `next` cursor. A failure ends pagination and leaves the old list when appending and an empty one when replacing. A completion with no value changes neither the list nor `hasMore` |
| `CharacterList.LoadMore` | src/app/characters/components/character-list/character-list.component.ts:213-217 | defines `loadMoreCharacters`; `LoadMoreGuard` and `LastPageStopsLoading` state when it sends and what |
| `CharacterList.NearBottom` | src/app/characters/components/character-list/character-list.component.ts:242-246 | defines the scroll test, remaining distance under 300; `CharacterListComponent.OnScroll` states what it triggers |
| `CharacterList.SearchStartsAtPageOne` | src/app/characters/components/character-list/character-list.component.ts:182-200 | an accepted term requests page 1 with the term, leaving no characters, `hasMore` and `isLoading` true, and the cursor at 2 |
| `CharacterList.LoadMoreGuard` | src/app/characters/components/character-list/character-list.component.ts:213-217 | while loading or with no page left, load-more sends nothing and changes nothing. Otherwise it sends the cursor's page with the current name and advances the cursor by one |
| `CharacterList.FailureIsEmptyPage` | src/app/characters/components/character-list/character-list.component.ts:202-209 | a failed fresh search leaves an empty list, `hasMore` false and loading ended. A failed load-more keeps the list unchanged, with `hasMore` false and loading ended |
| `CharacterList.LastPageStopsLoading` | src/app/characters/components/character-list/character-list.component.ts:238 | after a page with no next cursor, load-more sends nothing |
| `CharacterList.ScrollRequestsConsecutivePages` | src/app/characters/components/character-list/character-list.component.ts:196-233 | while pages announce a next one, successive load-mores request pages n, n+1, … with the same name. The list grows by the pages' results in order |
| `CharacterList.SearchThenLoadMore` | src/app/characters/components/character-list/character-list.component.ts:182-217 | a search then one load-more request pages 1 and 2 of the same term. The second page's results follow the first's |
| `CharacterList.EditById` | src/app/characters/components/character-list/character-list.component.ts:132-144 | editing keeps the length and every entry's id; an id not in the list leaves it unchanged |
| `CharacterList.Merge` | src/app/characters/components/character-list/character-list.component.ts:137-140 | defines `{ ...prior, ...edited }` for a full payload: every field from the edit, `episodesData` from the old entry; `EditMergesFirstMatch` states where it applies |
| `CharacterList.EditMergesFirstMatch` | src/app/characters/components/character-list/character-list.component.ts:133-141 | exactly the first entry with the edited id becomes the merge (edited fields over the old entry); every other entry is kept |
| `CharacterList.EditKeepsUniqueIds` | src/app/characters/components/character-list/character-list.component.ts:137-140 | editing preserves id-uniqueness of the list |
| `CharacterList.AddDraft` | src/app/characters/components/character-list/character-list.component.ts:87-105 | adding a draft appends exactly one entry and keeps the existing ones. The new entry has the draft's name, status and image, plus the given id and timestamp. Every other field is a placeholder: 'Unknown' species and type, 'unknown' gender, `{Unknown, ''}` origin and location, and empty episodes, `episodesData` and url |
| `CharacterList.Synthesize` | src/app/characters/components/character-list/character-list.component.ts:87-101 | defines the record built from a draft; `AddDraft` states its fields |
| `CharacterList.ToggleFlips` | src/app/characters/components/character-list/character-list.component.ts:259-266 | toggling flips whether the character is a favourite; toggling twice from a non-favourite restores the favourites exactly |
| `CharacterList.Toggled` | src/app/characters/components/character-list/character-list.component.ts:259-265 | defines the store after a toggle when the view matches it; `ToggleFlips` and `CharacterListComponent.OnToggleFavorite` state its properties |
| `CharacterList.CharacterListComponent.constructor` | src/app/characters/components/character-list/character-list.component.ts:65-70 | starts with no characters or favourites, page 1, not loading, `hasMore` true |
| `CharacterList.CharacterListComponent.NgOnInit` | src/app/characters/components/character-list/character-list.component.ts:73-76 | the favourites view becomes the store's contents and the search box holds '' |
| `CharacterList.CharacterListComponent.SetSearchValue` | src/app/characters/components/character-list/character-list.component.ts:58 | typing changes only the search box value |
| `CharacterList.CharacterListComponent.OnSearchTerm` | src/app/characters/components/character-list/character-list.component.ts:177-188 | a term equal to the last accepted one is dropped. Any other resets the state and fetches page 1 with the term, recording it as the last accepted |
| `CharacterList.CharacterListComponent.FetchCharacters` | src/app/characters/components/character-list/character-list.component.ts:196-200 | sends the current page with the box's value (null as ''), sets loading and advances the cursor by one |
| `CharacterList.CharacterListComponent.HandleCharacterResponse` | src/app/characters/components/character-list/character-list.component.ts:228-239 | the state becomes `Handle` of the old state |
| `CharacterList.CharacterListComponent.CompleteFetch` | src/app/characters/components/character-list/character-list.component.ts:201-210 | a page is handled. A failure clears `hasMore` and is handled as the empty page. No value handles nothing. Loading ends in every case |
| `CharacterList.CharacterListComponent.OnSearchResult` | src/app/characters/components/character-list/character-list.component.ts:191-193 | the search subscriber settles the call in replace mode |
| `CharacterList.CharacterListComponent.OnLoadMoreResult` | src/app/characters/components/character-list/character-list.component.ts:217-225 | the load-more subscriber settles the call in append mode |
| `CharacterList.CharacterListComponent.LoadMoreCharacters` | src/app/characters/components/character-list/character-list.component.ts:213-217 | the state and the request follow `LoadMore`: no request while loading or with no page left |
| `CharacterList.CharacterListComponent.OnScroll` | src/app/characters/components/character-list/character-list.component.ts:241-249 | within 300 of the bottom, scrolling is a load-more; otherwise nothing is sent or changed |
| `CharacterList.CharacterListComponent.OnAddCharacter` | src/app/characters/components/character-list/character-list.component.ts:85-105 | a closed dialog without a draft changes nothing; with one, the synthesized record is appended |
| `CharacterList.CharacterListComponent.EditCharacter` | src/app/characters/components/character-list/character-list.component.ts:132-144 | the list becomes `EditById` of the old list; nothing else changes |
| `CharacterList.CharacterListComponent.OnEditCharacter` | src/app/characters/components/character-list/character-list.component.ts:121-123 | given an edit result, which carries the original id, the edit is applied; without one, nothing changes |
| `CharacterList.CharacterListComponent.DeleteCharacter` | src/app/characters/components/character-list/character-list.component.ts:168-169 | every entry with the character's id is removed; the rest keep their order |
| `CharacterList.CharacterListComponent.OnDeleteCharacter` | src/app/characters/components/character-list/character-list.component.ts:161-164 | an accepted confirmation deletes; a rejected one leaves the list unchanged |
| `CharacterList.CharacterListComponent.IsFavorite` | src/app/characters/components/character-list/character-list.component.ts:268-270 | holds exactly when some favourite in the view has the character's id |
| `CharacterList.CharacterListComponent.OnToggleFavorite` | src/app/characters/components/character-list/character-list.component.ts:259-266 | a favourite is removed by id; otherwise the snapshot is added. The view is then reloaded from the store. With view and store in sync, the store ends as `Toggled`. Id-uniqueness is preserved |

## Left out

- Debounce timing, `switchMap` supersession of in-flight searches, and
  `takeUntilDestroyed`. These are timer and stream semantics. Search is modelled as
  the event `OnSearchTerm`, with `distinctUntilChanged` as a comparison against the
  last accepted term. A response that the program would discard because a newer term
  superseded it is not distinguished: the model applies every response it is given.
- The HTTP client and the parallel fan-out are not modelled. The list response and
  the episode lookup are inputs, and a failed episode request is a None from the
  lookup. Timing is not modelled, so a character without episode locators ends the
  call with no value before any episode request can fail.
- Browser storage and JSON serialisation. Storage is one `StorageEntry`, and
  serialisation is the identity. Malformed stored data is not modelled.
- `Math.random` and `new Date()` in `onAddCharacter` are parameters. The model does
  not claim the generated ids are unique.
- Window geometry in `onScroll` is taken as integers; the browser's values may be
  fractional. Registering and removing the scroll listener is not modelled.
- Dialogs, the confirmation service and toasts: only their results (a draft or none,
  an edit result or none, accept or reject) enter the model.
- The add and edit form components and `initFormControl`. Their one contribution is
  the precondition of `OnEditCharacter`: the edit result carries the original id.
- Image upload to object storage is a foreign library call.
- The request bodies of `createCharacter` and `updateCharacter` are not modelled. The
  service passes the given object through unchanged, and `HttpRequest` carries only
  the method and the URL.
- Application configuration, routes and the root component.
- `environment.apiBaseUrl` is the parameter `base`; the environment file is not part
  of this model.
- Catalog.Decimal: renders every page number in plain decimal. The program's
  number-to-text conversion uses exponent notation at 10^21 and above, which pages
  never reach.
- Catalog.ItemUrlRoundTrip: ids are whole numbers rendered in plain decimal with a
  leading minus sign for negatives. Fractional ids and exponent notation are not
  modelled.
- Info.next: the API sends `null` when there is no next page. The record type
  declares a string, so the model treats a missing cursor as the empty string. Both
  make `hasMore` false.
- CharacterList.EditById: the edit payload carries every field of the API record.
  The edit form returns all of them together with the original id. So the merge
  takes every field from the edit and keeps only `episodesData` from the old entry.
  A partial payload, where the old entry's missing fields would survive, is not
  modelled.
