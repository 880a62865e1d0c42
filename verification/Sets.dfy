/** Small facts about finite sets that loops over hash maps and directories lean on. */
module Sets {

  lemma Subset<A>(a: set<A>, b: set<A>)
    requires a <= b
    ensures |a| <= |b|
  {
    if a != {} {
      var x :| x in a;
      Subset(a - {x}, b - {x});
    }
  }

  lemma Singleton<A>(a: set<A>, x: A)
    requires |a| == 1 && x in a
    ensures a == {x}
  {
    assert |a - {x}| == 0;
  }

  /** One more element of `all` has been taken off `todo`. */
  lemma TakeOne<A>(all: set<A>, todo: set<A>, x: A)
    requires x in todo && todo <= all
    ensures (all - todo) + {x} == all - (todo - {x}) && x !in all - todo
    ensures todo - {x} <= all && |todo - {x}| < |todo|
    ensures multiset(all - (todo - {x})) == multiset(all - todo) + multiset{x}
  {
    assert (all - todo) + {x} == all - (todo - {x});
  }

  lemma NoneLeft<A>(s: set<A>)
    requires multiset(s) == multiset{}
    ensures s == {}
  {
    assert forall x :: x in s ==> x in multiset(s);
  }

  /** A listing of a set without its last element lists the set without that element. */
  lemma OneLess<A>(xs: seq<A>, s: set<A>)
    requires xs != [] && multiset(xs) == multiset(s)
    ensures var x, rest := xs[|xs| - 1], xs[..|xs| - 1];
            x in s && multiset(rest) == multiset(s - {x})
  {
    var x, rest := xs[|xs| - 1], xs[..|xs| - 1];
    assert xs == rest + [x];
    assert x in multiset(xs);
    assert multiset(s) == multiset(s - {x}) + multiset{x};
    assert multiset(rest) == multiset(xs) - multiset{x};
  }

  /** Walking along a listing, the next element is a new one. */
  lemma NextIsNew<A>(xs: seq<A>, s: set<A>, i: nat, done: set<A>)
    requires multiset(xs) == multiset(s) && i < |xs| && multiset(xs[..i]) == multiset(done)
    ensures xs[i] in s && xs[i] !in done
    ensures multiset(xs[..i + 1]) == multiset(done + {xs[i]})
  {
    var x, rest := xs[i], xs[i + 1..];
    assert xs[..i + 1] == xs[..i] + [x];
    assert xs == xs[..i] + [x] + rest;
    assert multiset(xs) == multiset(xs[..i]) + multiset{x} + multiset(rest);
    assert multiset(s)[x] <= 1;
    assert x in multiset(xs);
  }

  /** A listing of a set repeats nothing. */
  lemma Distinct<A>(xs: seq<A>, s: set<A>, i: nat, j: nat)
    requires multiset(xs) == multiset(s) && i < j < |xs|
    ensures xs[i] != xs[j]
  {
    assert xs == xs[..i + 1] + xs[i + 1..];
    assert multiset(xs) == multiset(xs[..i + 1]) + multiset(xs[i + 1..]);
    assert xs[..i + 1][i] in multiset(xs[..i + 1]) && xs[i + 1..][j - i - 1] in multiset(xs[i + 1..]);
    assert multiset(s)[xs[i]] <= 1;
  }

  lemma SameListing<A>(a: set<A>, b: set<A>)
    requires multiset(a) == multiset(b)
    ensures a == b
  {
    forall x ensures x in a <==> x in b { assert x in multiset(a) <==> x in multiset(b); }
  }

  lemma SameKeys<A, B, C>(a: map<A, B>, b: map<A, C>)
    requires a.Keys <= b.Keys && |a| == |b|
    ensures a.Keys == b.Keys
  {
    var d := b.Keys - a.Keys;
    assert b.Keys == a.Keys + d;
    assert |a| == |a.Keys| && |b| == |b.Keys|;
  }
}
