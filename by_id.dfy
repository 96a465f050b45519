/** The id-keyed sequence operations the favourites store and the list controller both
    use: `some` by id, `findIndex` by id and `filter` out by id, each specified against
    a quantified definition, with the lemmas that say how filtering keeps order, counts
    and id-uniqueness. */
module ById {
  import opened CharacterModel

  /** `s.some(c => c.id === id)`. */
  function HasId(s: seq<Character>, id: int): (b: bool)
    ensures b <==> exists i :: 0 <= i < |s| && s[i].Id() == id
  {
    if |s| == 0 then false
    else if s[0].Id() == id then true
    else
      var rest := HasId(s[1..], id);
      assert rest ==> s[1..][0].Id() == id || exists i :: 1 <= i < |s| && s[i].Id() == id;
      rest
  }

  /** `s.findIndex(c => c.id === id)`, with None for the source's -1. */
  function IndexOfId(s: seq<Character>, id: int): (r: Option<nat>)
    ensures r.None? <==> !HasId(s, id)
    ensures r.Some? ==> r.value < |s| && s[r.value].Id() == id
    ensures r.Some? ==> forall j :: 0 <= j < r.value ==> s[j].Id() != id
  {
    if |s| == 0 then None
    else if s[0].Id() == id then Some(0)
    else
      match IndexOfId(s[1..], id)
      case None => None
      case Some(k) => Some(k + 1)
  }

  /** `s.filter(c => c.id !== id)`. */
  function WithoutId(s: seq<Character>, id: int): (r: seq<Character>)
    ensures |r| <= |s|
    ensures forall c :: c in r <==> c in s && c.Id() != id
    ensures !HasId(r, id)
  {
    if |s| == 0 then []
    else if s[0].Id() == id then WithoutId(s[1..], id)
    else [s[0]] + WithoutId(s[1..], id)
  }

  /** No two entries share an id. */
  predicate UniqueIds(s: seq<Character>)
  {
    forall i, j :: 0 <= i < j < |s| ==> s[i].Id() != s[j].Id()
  }

  /** Filtering distributes over concatenation: the survivors keep their relative order. */
  lemma {:induction false} WithoutIdAppend(a: seq<Character>, b: seq<Character>, id: int)
    ensures WithoutId(a + b, id) == WithoutId(a, id) + WithoutId(b, id)
  {
    if |a| == 0 {
      assert a + b == b;
    } else {
      assert (a + b)[0] == a[0];
      assert (a + b)[1..] == a[1..] + b;
      WithoutIdAppend(a[1..], b, id);
    }
  }

  /** Filtering out an id nobody has changes nothing. */
  lemma {:induction false} WithoutIdAbsent(s: seq<Character>, id: int)
    requires !HasId(s, id)
    ensures WithoutId(s, id) == s
  {
    if |s| > 0 {
      assert s[0].Id() != id;
      assert !HasId(s[1..], id) by {
        forall i | 0 <= i < |s[1..]| ensures s[1..][i].Id() != id {
          assert s[1..][i] == s[i + 1];
        }
      }
      WithoutIdAbsent(s[1..], id);
      assert [s[0]] + s[1..] == s;
    }
  }

  /** Every entry with another id keeps its multiplicity; entries with the id are gone. */
  lemma {:induction false} WithoutIdCount(s: seq<Character>, id: int, x: Character)
    ensures multiset(WithoutId(s, id))[x] == if x.Id() == id then 0 else multiset(s)[x]
  {
    if |s| > 0 {
      WithoutIdCount(s[1..], id, x);
      CountUncons(s, x);
      WithoutIdUnconsCount(s, id, x);
    }
  }

  /** The count of `x` in `s` is its count in the head plus its count in the tail. */
  lemma CountUncons(s: seq<Character>, x: Character)
    requires |s| > 0
    ensures multiset(s)[x] == (if s[0] == x then 1 else 0) + multiset(s[1..])[x]
  {
    assert s == [s[0]] + s[1..];
    assert multiset(s) == multiset([s[0]]) + multiset(s[1..]);
  }

  /** One filtering step, counted: the head survives exactly when its id differs. */
  lemma WithoutIdUnconsCount(s: seq<Character>, id: int, x: Character)
    requires |s| > 0
    ensures multiset(WithoutId(s, id))[x]
         == (if s[0].Id() != id && s[0] == x then 1 else 0) + multiset(WithoutId(s[1..], id))[x]
  {
    var rest := WithoutId(s[1..], id);
    if s[0].Id() != id {
      assert multiset([s[0]] + rest) == multiset([s[0]]) + multiset(rest);
    }
  }

  /** Filtering keeps ids unique. */
  lemma {:induction false} WithoutIdUnique(s: seq<Character>, id: int)
    requires UniqueIds(s)
    ensures UniqueIds(WithoutId(s, id))
  {
    if |s| > 0 {
      var head, tail := s[0], s[1..];
      assert UniqueIds(tail) by {
        forall i, j | 0 <= i < j < |tail| ensures tail[i].Id() != tail[j].Id() {
          assert tail[i] == s[i + 1] && tail[j] == s[j + 1];
        }
      }
      WithoutIdUnique(tail, id);
      if head.Id() != id {
        var rest := WithoutId(tail, id);
        assert !HasId(tail, head.Id()) by {
          forall k | 0 <= k < |tail| ensures tail[k].Id() != head.Id() {
            assert tail[k] == s[k + 1];
          }
        }
        assert !HasId(rest, head.Id()) by {
          forall j | 0 <= j < |rest| ensures rest[j].Id() != head.Id() {
            assert rest[j] in tail;
          }
        }
        assert WithoutId(s, id) == [head] + rest;
        ConsUnique(head, rest);
      }
    }
  }

  lemma ConsUnique(head: Character, rest: seq<Character>)
    requires UniqueIds(rest) && !HasId(rest, head.Id())
    ensures UniqueIds([head] + rest)
  {
    var r := [head] + rest;
    forall i, j | 0 <= i < j < |r| ensures r[i].Id() != r[j].Id() {
      assert r[j] == rest[j - 1];
      if i > 0 {
        assert r[i] == rest[i - 1];
      }
    }
  }
}
