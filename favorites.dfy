/** The favourites store: one browser-storage entry holding the ordered sequence of
    favourite character snapshots, read and rewritten whole on every operation. */
module Favorites {
  import opened CharacterModel
  import opened ById

  /** What storage holds under the favourites key: nothing, a falsy (empty) value, or a
      saved sequence. Serialisation is taken to be the identity. */
  datatype StorageEntry = Missing | Blank | Stored(items: seq<Character>)

  /** The sequence `addToFavorites` ends with: the stored one when the id is already
      present (the old snapshot wins), otherwise the stored one with `c` at the end. */
  function Added(s: seq<Character>, c: Character): (r: seq<Character>)
    ensures HasId(r, c.Id())
    ensures HasId(s, c.Id()) ==> r == s
    ensures !HasId(s, c.Id()) ==> |r| == |s| + 1 && r[..|s|] == s && r[|s|] == c
    ensures UniqueIds(s) ==> UniqueIds(r)
  {
    if HasId(s, c.Id()) then s
    else
      assert (s + [c])[|s|] == c;
      s + [c]
  }

  /** Adding is idempotent; adding a new character twice leaves exactly one new entry. */
  lemma AddedTwice(s: seq<Character>, c: Character)
    ensures Added(Added(s, c), c) == Added(s, c)
    ensures !HasId(s, c.Id()) ==> |Added(Added(s, c), c)| == |s| + 1
  {
  }

  /** Removing what was just added restores the earlier sequence. */
  lemma AddThenRemove(s: seq<Character>, c: Character)
    requires !HasId(s, c.Id())
    ensures WithoutId(Added(s, c), c.Id()) == s
  {
    WithoutIdAppend(s, [c], c.Id());
    WithoutIdAbsent(s, c.Id());
    assert WithoutId([c], c.Id()) == [];
  }

  class FavoriteCharactersStore {
    var entry: StorageEntry

    /** The store over whatever storage already holds. */
    constructor (initial: StorageEntry)
      ensures entry == initial
      ensures (!initial.Stored? || UniqueIds(initial.items)) ==> Valid()
    {
      entry := initial;
    }

    /** The sequence `getFavorites` yields for the current entry. */
    function Favorites(): seq<Character>
      reads this
    {
      match entry
      case Stored(items) => items
      case _ => []
    }

    /** The store's invariant: no two favourites share an id. */
    ghost predicate Valid()
      reads this
    {
      UniqueIds(Favorites())
    }

    /** Reads the entry: what was last saved, or the empty sequence when nothing (or an
        empty value) is stored. Changes nothing. */
    method GetFavorites() returns (favorites: seq<Character>)
      ensures entry.Stored? ==> favorites == entry.items
      ensures !entry.Stored? ==> favorites == []
    {
      if entry.Stored? {
        favorites := entry.items;
      } else {
        favorites := [];
      }
    }

    /** Overwrites the entry with the given sequence. */
    method SaveFavorites(favorites: seq<Character>)
      modifies this
      ensures entry == Stored(favorites)
      ensures Favorites() == favorites
    {
      entry := Stored(favorites);
    }

    /** Appends `c` unless a favourite with its id exists; in that case nothing is saved. */
    method AddToFavorites(c: Character)
      modifies this
      ensures HasId(old(Favorites()), c.Id()) ==> entry == old(entry)
      ensures !HasId(old(Favorites()), c.Id()) ==> entry == Stored(old(Favorites()) + [c])
      ensures Favorites() == Added(old(Favorites()), c)
      ensures old(Valid()) ==> Valid()
    {
      var favorites := GetFavorites();
      if !HasId(favorites, c.Id()) {
        favorites := favorites + [c];
        SaveFavorites(favorites);
      }
    }

    /** Saves the sequence with every favourite of that id filtered out; an absent id
        saves the same contents. */
    method RemoveFromFavorites(id: int)
      modifies this
      ensures entry == Stored(WithoutId(old(Favorites()), id))
      ensures !HasId(Favorites(), id)
      ensures !HasId(old(Favorites()), id) ==> Favorites() == old(Favorites())
      ensures old(Valid()) ==> Valid()
    {
      var favorites := GetFavorites();
      var updated := WithoutId(favorites, id);
      if UniqueIds(favorites) {
        WithoutIdUnique(favorites, id);
      }
      if !HasId(favorites, id) {
        WithoutIdAbsent(favorites, id);
      }
      SaveFavorites(updated);
    }
  }
}
