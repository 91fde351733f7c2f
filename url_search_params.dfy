/**
 * URLSearchParams as a list of name/value pairs, with `get` and `set` as defined in
 * section 6.2 of the WHATWG URL Standard. Parsing and serialisation are not modelled.
 */
module UrlSearchParams {
  import opened Wrappers

  /** A (name, value) pair. */
  type Param = (string, string)

  /** The names of the pairs, in list order. */
  function Names(ps: seq<Param>): (r: seq<string>)
    ensures |r| == |ps|
    ensures forall i :: 0 <= i < |ps| ==> r[i] == ps[i].0
  {
    if ps == [] then [] else [ps[0].0] + Names(ps[1..])
  }

  /** How many pairs carry `name`. */
  function Occurrences(ps: seq<Param>, name: string): nat {
    multiset(Names(ps))[name]
  }

  /** `get(name)`: the value of the first pair with that name, if any. */
  function Get(ps: seq<Param>, name: string): (r: Option<string>)
    ensures r.None? <==> name !in Names(ps)
  {
    if ps == [] then None
    else if ps[0].0 == name then Some(ps[0].1)
    else Get(ps[1..], name)
  }

  /** The list with every pair named `name` removed. */
  function Without(ps: seq<Param>, name: string): (r: seq<Param>)
    ensures name !in Names(r)
    ensures Occurrences(r, name) == 0
  {
    if ps == [] then []
    else if ps[0].0 == name then Without(ps[1..], name)
    else [ps[0]] + Without(ps[1..], name)
  }

  /** The first pair named `name` gets `value`; every later pair of that name is removed. */
  function ReplaceFirst(ps: seq<Param>, name: string, value: string): (r: seq<Param>)
    requires name in Names(ps)
  {
    if ps[0].0 == name then [(name, value)] + Without(ps[1..], name)
    else [ps[0]] + ReplaceFirst(ps[1..], name, value)
  }

  /**
   * `set(name, value)`: replace the first pair of that name and drop the others, or
   * append a new pair when there is none.
   */
  function Set(ps: seq<Param>, name: string, value: string): (r: seq<Param>)
    ensures Get(r, name) == Some(value)
  {
    if name in Names(ps) then
      ReplaceFirstSpec(ps, name, value);
      ReplaceFirst(ps, name, value)
    else
      AppendSpec(ps, name, value);
      ps + [(name, value)]
  }

  /**
   * After `set(name, value)` the name occurs exactly once, with that value; the pairs
   * with other names are the ones before, in the same order; and a name that was
   * missing is appended at the end.
   */
  lemma SetSpec(ps: seq<Param>, name: string, value: string)
    ensures Get(Set(ps, name, value), name) == Some(value)
    ensures Occurrences(Set(ps, name, value), name) == 1
    ensures Without(Set(ps, name, value), name) == Without(ps, name)
    ensures name !in Names(ps) ==> Set(ps, name, value) == ps + [(name, value)]
  {
    if name in Names(ps) {
      ReplaceFirstSpec(ps, name, value);
    } else {
      AppendSpec(ps, name, value);
    }
  }

  lemma {:induction false} ReplaceFirstSpec(ps: seq<Param>, name: string, value: string)
    requires name in Names(ps)
    ensures Get(ReplaceFirst(ps, name, value), name) == Some(value)
    ensures Occurrences(ReplaceFirst(ps, name, value), name) == 1
    ensures Without(ReplaceFirst(ps, name, value), name) == Without(ps, name)
  {
    var r := ReplaceFirst(ps, name, value);
    if ps[0].0 == name {
      var w := Without(ps[1..], name);
      assert r == [(name, value)] + w;
      assert r[1..] == w;
      WithoutIdempotent(ps[1..], name);
      assert Names(r) == [name] + Names(w);
      assert multiset(Names(r)) == multiset{name} + multiset(Names(w));
    } else {
      assert Names(ps) == [ps[0].0] + Names(ps[1..]);
      assert name in Names(ps[1..]);
      ReplaceFirstSpec(ps[1..], name, value);
      var t := ReplaceFirst(ps[1..], name, value);
      assert r == [ps[0]] + t;
      assert r[1..] == t;
      assert Names(r) == [ps[0].0] + Names(t);
      assert multiset(Names(r)) == multiset{ps[0].0} + multiset(Names(t));
    }
  }

  lemma {:induction false} WithoutIdempotent(ps: seq<Param>, name: string)
    ensures Without(Without(ps, name), name) == Without(ps, name)
  {
    if ps != [] {
      WithoutIdempotent(ps[1..], name);
      if ps[0].0 != name {
        assert ([ps[0]] + Without(ps[1..], name))[1..] == Without(ps[1..], name);
      }
    }
  }

  lemma {:induction false} AppendSpec(ps: seq<Param>, name: string, value: string)
    requires name !in Names(ps)
    ensures Get(ps + [(name, value)], name) == Some(value)
    ensures Occurrences(ps + [(name, value)], name) == 1
    ensures Without(ps + [(name, value)], name) == Without(ps, name)
  {
    var r := ps + [(name, value)];
    assert Names(r) == Names(ps) + [name];
    assert multiset(Names(r)) == multiset(Names(ps)) + multiset{name};
    if ps == [] {
      assert r == [(name, value)];
    } else {
      assert r[1..] == ps[1..] + [(name, value)];
      assert Names(ps) == [ps[0].0] + Names(ps[1..]);
      AppendSpec(ps[1..], name, value);
    }
  }

  /** Removing one name does not change what `get` answers for another. */
  lemma {:induction false} GetWithout(ps: seq<Param>, name: string, other: string)
    requires name != other
    ensures Get(Without(ps, name), other) == Get(ps, other)
  {
    if ps != [] {
      GetWithout(ps[1..], name, other);
    }
  }

  /** Removing one name does not change how often another occurs. */
  lemma {:induction false} OccurrencesWithout(ps: seq<Param>, name: string, other: string)
    requires name != other
    ensures Occurrences(Without(ps, name), other) == Occurrences(ps, other)
  {
    if ps != [] {
      OccurrencesWithout(ps[1..], name, other);
      var w := Without(ps[1..], name);
      assert Names(ps) == [ps[0].0] + Names(ps[1..]);
      if ps[0].0 != name {
        assert Names([ps[0]] + w) == [ps[0].0] + Names(w);
      }
    }
  }

  /** Removing two names can be done in either order. */
  lemma {:induction false} WithoutCommutes(ps: seq<Param>, a: string, b: string)
    ensures Without(Without(ps, a), b) == Without(Without(ps, b), a)
  {
    if ps != [] {
      WithoutCommutes(ps[1..], a, b);
    }
  }

  /** `set` on one name leaves `get` and the count of every other name as they were. */
  lemma SetOther(ps: seq<Param>, name: string, value: string, other: string)
    requires name != other
    ensures Get(Set(ps, name, value), other) == Get(ps, other)
    ensures Occurrences(Set(ps, name, value), other) == Occurrences(ps, other)
  {
    var r := Set(ps, name, value);
    SetSpec(ps, name, value);
    GetWithout(r, name, other);
    GetWithout(ps, name, other);
    OccurrencesWithout(r, name, other);
    OccurrencesWithout(ps, name, other);
  }
}
