/**
  An insertion-ordered dictionary of lists: the shape of `route_cities`, filled
  by `setdefault(route, []).append(city)` on the backend and by
  `map[route] ||= []; map[route].push(city)` on the frontend. Keys keep the
  order in which they were first seen, and each list keeps its values in
  arrival order, duplicates included.
*/
module Grouping {

  type Groups<K, V> = seq<(K, seq<V>)>

  /** The first components of `ps`, in order; for a grouping, its keys in insertion order. */
  function Firsts<K(==), V>(ps: seq<(K, V)>): (ks: seq<K>)
    ensures |ks| == |ps|
  {
    seq(|ps|, i requires 0 <= i < |ps| => ps[i].0)
  }

  /** A JavaScript object or Python dict never holds a key twice. */
  predicate DistinctKeys<K(==), V>(g: Groups<K, V>) {
    forall i, j :: 0 <= i < j < |g| ==> g[i].0 != g[j].0
  }

  predicate NoEmptyGroup<K(==), V>(g: Groups<K, V>) {
    forall i :: 0 <= i < |g| ==> g[i].1 != []
  }

  /** The list stored under `k`, or the empty list when there is none. */
  function Lookup<K(==), V>(g: Groups<K, V>, k: K): seq<V> {
    if g == [] then []
    else if g[0].0 == k then g[0].1
    else Lookup(g[1..], k)
  }

  /** Append `v` to the list under `k`, creating that list at the end when `k` is new. */
  function Add<K(==), V>(g: Groups<K, V>, k: K, v: V): Groups<K, V> {
    if g == [] then [(k, [v])]
    else if g[0].0 == k then [(k, g[0].1 + [v])] + g[1..]
    else [g[0]] + Add(g[1..], k, v)
  }

  /** Feed the pairs `ps`, in order, into `g`. */
  function GroupInto<K(==), V>(g: Groups<K, V>, ps: seq<(K, V)>): Groups<K, V> {
    if ps == [] then g
    else
      var last := ps[|ps| - 1];
      Add(GroupInto(g, ps[..|ps| - 1]), last.0, last.1)
  }

  /** Group the pairs `ps` by their first component. */
  function Group<K(==), V>(ps: seq<(K, V)>): Groups<K, V> {
    GroupInto([], ps)
  }

  /** The reference definition of one group: the values paired with `k`, in order. */
  function Select<K(==), V>(ps: seq<(K, V)>, k: K): seq<V> {
    if ps == [] then []
    else
      var last := ps[|ps| - 1];
      Select(ps[..|ps| - 1], k) + (if last.0 == k then [last.1] else [])
  }

  /** The distinct elements of `s`, in the order of their first occurrence. */
  function FirstSeen<T(==)>(s: seq<T>): seq<T> {
    if s == [] then []
    else
      var d := FirstSeen(s[..|s| - 1]);
      if s[|s| - 1] in d then d else d + [s[|s| - 1]]
  }

  predicate Distinct<T(==)>(s: seq<T>) {
    forall i, j :: 0 <= i < j < |s| ==> s[i] != s[j]
  }

  /** One (key, value) pair per value of the group under `k`. */
  function Pairs<K(==), V>(k: K, vs: seq<V>): (ps: seq<(K, V)>)
    ensures |ps| == |vs|
  {
    seq(|vs|, i requires 0 <= i < |vs| => (k, vs[i]))
  }

  /** The ungrouped form: every group spelt out as pairs, groups in key order. */
  function Flatten<K(==), V>(g: Groups<K, V>): seq<(K, V)> {
    if g == [] then []
    else Flatten(g[..|g| - 1]) + Pairs(g[|g| - 1].0, g[|g| - 1].1)
  }

  // ---------------------------------------------------------------------------
  // One append

  lemma {:induction false} AddLookup<K, V>(g: Groups<K, V>, k: K, v: V, k': K)
    ensures Lookup(Add(g, k, v), k') == Lookup(g, k') + (if k' == k then [v] else [])
  {
    if g != [] && g[0].0 != k {
      AddLookup(g[1..], k, v, k');
      assert ([g[0]] + Add(g[1..], k, v))[1..] == Add(g[1..], k, v);
    }
  }

  lemma {:induction false} AddKeys<K, V>(g: Groups<K, V>, k: K, v: V)
    ensures Firsts(Add(g, k, v)) == if k in Firsts(g) then Firsts(g) else Firsts(g) + [k]
  {
    if g == [] {
    } else if g[0].0 == k {
      assert Firsts(g)[0] == k;
      assert Firsts(Add(g, k, v)) == Firsts(g);
    } else {
      AddKeys(g[1..], k, v);
      assert Firsts(g) == [g[0].0] + Firsts(g[1..]);
      assert Firsts(Add(g, k, v)) == [g[0].0] + Firsts(Add(g[1..], k, v));
    }
  }

  lemma {:induction false} AddNoEmptyGroup<K, V>(g: Groups<K, V>, k: K, v: V)
    requires NoEmptyGroup(g)
    ensures NoEmptyGroup(Add(g, k, v))
  {
    if g != [] && g[0].0 != k {
      AddNoEmptyGroup(g[1..], k, v);
    }
  }

  lemma {:induction false} AddNew<K, V>(g: Groups<K, V>, k: K, v: V)
    requires k !in Firsts(g)
    ensures Add(g, k, v) == g + [(k, [v])]
  {
    if g != [] {
      assert g[0].0 == Firsts(g)[0];
      assert Firsts(g[1..]) == Firsts(g)[1..];
      AddNew(g[1..], k, v);
      assert g == [g[0]] + g[1..];
    }
  }

  lemma {:induction false} AddToLast<K, V>(g: Groups<K, V>, k: K, vs: seq<V>, v: V)
    requires k !in Firsts(g)
    ensures Add(g + [(k, vs)], k, v) == g + [(k, vs + [v])]
  {
    if g != [] {
      assert g[0].0 == Firsts(g)[0];
      assert Firsts(g[1..]) == Firsts(g)[1..];
      assert (g + [(k, vs)])[1..] == g[1..] + [(k, vs)];
      AddToLast(g[1..], k, vs, v);
      assert g == [g[0]] + g[1..];
    }
  }

  // ---------------------------------------------------------------------------
  // What grouping computes

  /** Each group holds exactly the values paired with its key, in input order, duplicates kept. */
  lemma {:induction false} GroupLookup<K, V>(ps: seq<(K, V)>, k: K)
    ensures Lookup(Group(ps), k) == Select(ps, k)
  {
    if ps != [] {
      var last := ps[|ps| - 1];
      GroupLookup(ps[..|ps| - 1], k);
      AddLookup(Group(ps[..|ps| - 1]), last.0, last.1, k);
    }
  }

  /** The keys of the grouping are the distinct first components, in first-seen order. */
  lemma {:induction false} GroupKeys<K, V>(ps: seq<(K, V)>)
    ensures Firsts(Group(ps)) == FirstSeen(Firsts(ps))
  {
    if ps != [] {
      var last := ps[|ps| - 1];
      GroupKeys(ps[..|ps| - 1]);
      AddKeys(Group(ps[..|ps| - 1]), last.0, last.1);
      assert Firsts(ps)[..|ps| - 1] == Firsts(ps[..|ps| - 1]);
    }
  }

  lemma {:induction false} FirstSeenMembers<T>(s: seq<T>)
    ensures Distinct(FirstSeen(s))
    ensures forall x :: x in FirstSeen(s) <==> x in s
  {
    if s != [] {
      FirstSeenMembers(s[..|s| - 1]);
      assert s == s[..|s| - 1] + [s[|s| - 1]];
    }
  }

  lemma GroupShape<K, V>(ps: seq<(K, V)>)
    ensures DistinctKeys(Group(ps)) && NoEmptyGroup(Group(ps))
    ensures forall k :: k in Firsts(Group(ps)) <==> k in Firsts(ps)
  {
    GroupKeys(ps);
    FirstSeenMembers(Firsts(ps));
    var g := Group(ps);
    forall i, j | 0 <= i < j < |g| ensures g[i].0 != g[j].0 {
      assert Firsts(g)[i] == g[i].0 && Firsts(g)[j] == g[j].0;
    }
    GroupNoEmptyGroup(ps);
  }

  lemma {:induction false} GroupNoEmptyGroup<K, V>(ps: seq<(K, V)>)
    ensures NoEmptyGroup(Group(ps))
  {
    if ps != [] {
      GroupNoEmptyGroup(ps[..|ps| - 1]);
      AddNoEmptyGroup(Group(ps[..|ps| - 1]), ps[|ps| - 1].0, ps[|ps| - 1].1);
    }
  }

  // ---------------------------------------------------------------------------
  // Grouping undoes flattening

  lemma {:induction false} GroupIntoAppend<K, V>(g: Groups<K, V>, a: seq<(K, V)>, b: seq<(K, V)>)
    ensures GroupInto(g, a + b) == GroupInto(GroupInto(g, a), b)
  {
    if b == [] {
      assert a + b == a;
    } else {
      GroupIntoAppend(g, a, b[..|b| - 1]);
      assert (a + b)[..|a + b| - 1] == a + b[..|b| - 1];
    }
  }

  lemma {:induction false} GroupIntoPairs<K, V>(g: Groups<K, V>, k: K, vs: seq<V>)
    requires k !in Firsts(g) && vs != []
    ensures GroupInto(g, Pairs(k, vs)) == g + [(k, vs)]
  {
    var ps := Pairs(k, vs);
    var n := |vs| - 1;
    assert ps[..n] == Pairs(k, vs[..n]);
    if n == 0 {
      assert ps[..n] == [] && vs == [vs[0]];
      AddNew(g, k, vs[0]);
    } else {
      GroupIntoPairs(g, k, vs[..n]);
      AddToLast(g, k, vs[..n], vs[n]);
      assert vs[..n] + [vs[n]] == vs;
    }
  }

  /**
    Regrouping the flattened rows gives back the dictionary, provided it has
    no empty group (an empty list leaves no row behind).
  */
  lemma {:induction false} GroupFlatten<K, V>(g: Groups<K, V>)
    requires DistinctKeys(g) && NoEmptyGroup(g)
    ensures Group(Flatten(g)) == g
  {
    if g != [] {
      var n := |g| - 1;
      var init := g[..n];
      SplitLastGroup(g);
      GroupFlatten(init);
      GroupFlattenStep(init, g[n].0, g[n].1);
      assert init + [(g[n].0, g[n].1)] == g;
    }
  }

  /** A well-formed grouping is a well-formed grouping followed by one more group under a new key. */
  lemma SplitLastGroup<K, V>(g: Groups<K, V>)
    requires g != [] && DistinctKeys(g) && NoEmptyGroup(g)
    ensures var n := |g| - 1;
      && DistinctKeys(g[..n]) && NoEmptyGroup(g[..n])
      && g[n].0 !in Firsts(g[..n]) && g[n].1 != []
      && Flatten(g) == Flatten(g[..n]) + Pairs(g[n].0, g[n].1)
  {
    var n := |g| - 1;
    var init := g[..n];
    forall i, j | 0 <= i < j < n ensures init[i].0 != init[j].0 {
      assert init[i] == g[i] && init[j] == g[j];
    }
    forall i | 0 <= i < n ensures init[i].1 != [] {
      assert init[i] == g[i];
    }
    LastKeyNew(g);
  }

  /** With distinct keys, the last key does not occur earlier. */
  lemma LastKeyNew<K, V>(g: Groups<K, V>)
    requires g != [] && DistinctKeys(g)
    ensures g[|g| - 1].0 !in Firsts(g[..|g| - 1])
  {
    var n := |g| - 1;
    var ks := Firsts(g[..n]);
    forall i | 0 <= i < n ensures ks[i] != g[n].0 {
      assert ks[i] == g[..n][i].0 == g[i].0;
    }
  }

  /** Regrouping the rows of one more group, under a new key, appends that group. */
  lemma GroupFlattenStep<K, V>(init: Groups<K, V>, k: K, vs: seq<V>)
    requires Group(Flatten(init)) == init && k !in Firsts(init) && vs != []
    ensures Group(Flatten(init) + Pairs(k, vs)) == init + [(k, vs)]
  {
    GroupIntoAppend([], Flatten(init), Pairs(k, vs));
    GroupIntoPairs(init, k, vs);
  }
}
