/** One shape per map: what the pruning invariant buys. Two tries that stand for the same map are
    equal node by node, however they came about, and every way to list one lists the same values. */
module Canonical {
  import opened Paths
  import opened Tries
  import opened TrieIteration
  import opened Nkv

  /** Removing a fresh key takes back exactly its insertion. */
  lemma FreshKeyTakenBack<T>(m: map<Path, T>, p: Path, value: T)
    requires p !in m && WildcardFree(p)
    ensures Pruned(m[p := value], p) == m
  {
    forall q | q in m[p := value] ensures Matches(p, q) <==> q == p { MatchesLiteral(p, q); }
  }

  /** Inserting a fresh key and removing it leaves a trie that equals its untouched twin. */
  method InsertThenRemove<T(==)>(t: Trie<T>, twin: Trie<T>, key: string, value: T) returns (removed: bool, eq: bool)
    requires t.Valid() && twin.Valid() && t.contents == twin.contents && t.Repr() !! twin.Repr()
    requires !HasWildcard(key) && Split(key) !in t.contents
    modifies t, t.footprint
    ensures t.Valid() && t.contents == old(t.contents)
    ensures removed && eq
  {
    hide Trie.Valid;
    SplitWildcard(key);
    FreshKeyTakenBack(t.contents, Split(key), value);
    var _ := t.Insert(key, value);
    removed := t.Remove(key);
    eq := t.Equals(twin);
  }

  /** The index does not depend on the order in which the engine lists its keys. */
  method AnyOrder(a: seq<string>, b: seq<string>) returns (eq: bool)
    requires multiset(a) == multiset(b) && forall k :: k in a ==> !HasWildcard(k)
    ensures eq
  {
    hide Trie.Valid;
    forall k ensures k in a <==> k in b { assert k in multiset(a) <==> k in multiset(b); }
    assert Members(a) == Members(b);
    var s := NkvCore.IndexAll(a);
    var t := NkvCore.IndexAll(b);
    eq := s.value.Equals(t.value);
  }

  lemma Without<A>(xs: seq<A>, j: nat)
    requires j < |xs|
    ensures multiset(xs) == multiset(Drop(xs, j)) + multiset{xs[j]}
    ensures |Drop(xs, j)| == |xs| - 1
    ensures xs[j] in multiset(xs)
  {
    assert xs == xs[..j] + [xs[j]] + xs[j + 1..];
  }

  function Drop<A>(xs: seq<A>, j: nat): seq<A>
    requires j < |xs|
  {
    xs[..j] + xs[j + 1..]
  }

  /** `r` holds what `m` holds at the paths `ps`. */
  ghost predicate Picks<T>(m: map<Path, T>, r: seq<T>, ps: seq<Path>)
  {
    |r| == |ps| && forall i :: 0 <= i < |ps| ==> ps[i] in m && r[i] == m[ps[i]]
  }

  lemma DropPicks<T>(m: map<Path, T>, r: seq<T>, ps: seq<Path>, j: nat)
    requires Picks(m, r, ps) && j < |ps|
    ensures Picks(m, Drop(r, j), Drop(ps, j)) && r[j] == m[ps[j]]
  {
  }

  lemma OneEach<A>(a: multiset<A>, b: multiset<A>, x: A)
    requires a + multiset{x} == b + multiset{x}
    ensures a == b
  {
    assert a == (a + multiset{x}) - multiset{x};
  }

  /** Listings of the same paths list the same values, as often each. */
  lemma {:induction false} SameValues<T>(m: map<Path, T>, r: seq<T>, ps: seq<Path>, u: seq<T>, qs: seq<Path>)
    requires Picks(m, r, ps) && Picks(m, u, qs) && multiset(ps) == multiset(qs)
    ensures multiset(r) == multiset(u)
    decreases |ps|
  {
    if ps == [] {
      assert |multiset(qs)| == 0;
      assert qs == [];
    } else {
      Without(ps, 0);
      var j :| 0 <= j < |qs| && qs[j] == ps[0];
      Without(qs, j);
      DropPicks(m, r, ps, 0);
      DropPicks(m, u, qs, j);
      hide Drop;
      hide Picks;
      OneEach(multiset(Drop(ps, 0)), multiset(Drop(qs, j)), ps[0]);
      SameValues(m, Drop(r, 0), Drop(ps, 0), Drop(u, j), Drop(qs, j));
      Without(r, 0);
      Without(u, j);
    }
  }

  /** `get` and `get_mut`, or two runs of either, return the same values. */
  lemma SameLookup<T>(m: map<Path, T>, s: set<Path>, r: seq<T>, ps: seq<Path>, u: seq<T>, qs: seq<Path>)
    requires Lists(r, ps, m, s) && Lists(u, qs, m, s)
    ensures multiset(r) == multiset(u)
  {
    SameValues(m, r, ps, u, qs);
  }

  ghost function Values<T>(r: seq<(string, T)>): seq<T>
  {
    seq(|r|, i requires 0 <= i < |r| => r[i].1)
  }

  /** The iterator yields the values that the recursive collection from the root yields, each under
      its full dotted key unless that key starts with a dot. */
  lemma DrainIsCollect<T>(m: map<Path, T>, r: seq<(string, T)>, ps: seq<Path>, u: seq<T>, qs: seq<Path>)
    requires Pairs(r, ps, m) && multiset(ps) == multiset(m.Keys) && Lists(u, qs, m, Under(m.Keys, []))
    ensures multiset(Values(r)) == multiset(u)
    ensures forall i :: 0 <= i < |r| ==> (r[i].0 == Dotted(ps[i]) <==> |ps[i]| <= 1 || ps[i][0] != "")
  {
    assert Under(m.Keys, []) == m.Keys;
    SameValues(m, Values(r), ps, u, qs);
    forall i | 0 <= i < |r| ensures r[i].0 == Dotted(ps[i]) <==> |ps[i]| <= 1 || ps[i][0] != "" {
      IterPathExact(ps[i]);
    }
  }
}
