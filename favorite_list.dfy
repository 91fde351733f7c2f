/**
 * The favorites toggle rule that both the search view and the favorites view apply
 * (src/pages/SearchPage.jsx:91-93, src/pages/FavoritesPage.jsx:44-48): when the id is
 * in the list, every occurrence is filtered out; otherwise it is appended at the end.
 * Favorites are a list, not a set: order is kept and a stored list may hold duplicates.
 */
module FavoriteList {
  import opened Domain
  import opened Seqs

  /** `s.filter(x => x !== id)`: every occurrence of `id` dropped, the rest kept in order. */
  function RemoveAll(s: seq<DogId>, id: DogId): (r: seq<DogId>)
    ensures IsSubseq(r, s)
    ensures multiset(r) == multiset(s)[id := 0]
    ensures id !in r
  {
    if s == [] then []
    else if s[0] == id then
      assert s == [s[0]] + s[1..];
      RemoveAll(s[1..], id)
    else
      assert s == [s[0]] + s[1..];
      [s[0]] + RemoveAll(s[1..], id)
  }

  /** The toggle rule: remove every occurrence if present, else append at the end. */
  function Toggle(s: seq<DogId>, id: DogId): (r: seq<DogId>)
    ensures id !in s ==> |r| == |s| + 1 && r[..|s|] == s && r[|s|] == id
    ensures id in s ==> id !in r && IsSubseq(r, s) && multiset(r) == multiset(s)[id := 0]
    ensures forall x :: x != id ==> (x in r <==> x in s)
    ensures id in r <==> id !in s
  {
    if id in s then
      var r := RemoveAll(s, id);
      assert forall x :: x in r <==> multiset(r)[x] > 0;
      assert forall x :: x in s <==> multiset(s)[x] > 0;
      r
    else s + [id]
  }

  /** Filtering out an id that is not there gives the list back unchanged. */
  lemma {:induction false} RemoveAllAbsent(s: seq<DogId>, id: DogId)
    requires id !in s
    ensures RemoveAll(s, id) == s
  {
    if s != [] {
      RemoveAllAbsent(s[1..], id);
      assert s == [s[0]] + s[1..];
    }
  }

  /** Filtering distributes over appending one more element. */
  lemma {:induction false} RemoveAllSnoc(s: seq<DogId>, x: DogId, id: DogId)
    ensures RemoveAll(s + [x], id) == RemoveAll(s, id) + (if x == id then [] else [x])
  {
    if s == [] {
      assert s + [x] == [x];
    } else {
      assert (s + [x])[1..] == s[1..] + [x];
      RemoveAllSnoc(s[1..], x, id);
    }
  }

  /** Toggling an id that is absent twice in a row gives back the original list. */
  lemma ToggleTwiceRestores(s: seq<DogId>, id: DogId)
    requires id !in s
    ensures Toggle(Toggle(s, id), id) == s
  {
    RemoveAllSnoc(s, id, id);
    RemoveAllAbsent(s, id);
  }

  /** A list in which no id occurs twice. */
  ghost predicate Distinct(s: seq<DogId>) {
    forall x :: multiset(s)[x] <= 1
  }

  /** Starting from a list without duplicates, toggling never creates one. */
  lemma ToggleKeepsDistinct(s: seq<DogId>, id: DogId)
    requires Distinct(s)
    ensures Distinct(Toggle(s, id))
  {
  }

  /** The list after toggling each id of `ids` in turn. */
  function ToggleAll(s: seq<DogId>, ids: seq<DogId>): seq<DogId>
    decreases |ids|
  {
    if ids == [] then s else ToggleAll(Toggle(s, ids[0]), ids[1..])
  }

  /** Toggling flips the membership of the toggled id and of no other. */
  lemma ToggleFlips(s: seq<DogId>, id: DogId, x: DogId)
    ensures (x in Toggle(s, id)) == ((x in s) != (x == id))
  {
  }

  /** One more toggle turns an even count odd and an odd count even. */
  lemma ParityStep(k: nat)
    ensures ((k + 1) % 2 == 1) == (k % 2 != 1)
  {
  }

  /** How often `x` occurs in a non-empty list, from its head and its tail. */
  lemma CountFromHead(ids: seq<DogId>, x: DogId)
    requires ids != []
    ensures multiset(ids)[x] == multiset(ids[1..])[x] + (if x == ids[0] then 1 else 0)
  {
    assert ids == [ids[0]] + ids[1..];
    assert multiset(ids) == multiset{ids[0]} + multiset(ids[1..]);
  }

  /**
   * Seen as a set, the list behaves as the symmetric difference: after any run of
   * toggles an id is present exactly when it was present before and was toggled an
   * even number of times, or was absent and was toggled an odd number of times.
   */
  lemma {:induction false} ToggleAllMembership(s: seq<DogId>, ids: seq<DogId>, x: DogId)
    ensures x in ToggleAll(s, ids) <==> ((x in s) != (multiset(ids)[x] % 2 == 1))
    decreases |ids|
  {
    if ids != [] {
      var t := Toggle(s, ids[0]);
      ToggleAllMembership(t, ids[1..], x);
      ToggleFlips(s, ids[0], x);
      CountFromHead(ids, x);
      ParityStep(multiset(ids[1..])[x]);
    }
  }
}
