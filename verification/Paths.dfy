/** Dotted keys as segment paths, and the two ways the source reads a `*` in one. */
module Paths {
  import opened Text

  type Path = seq<string>

  const WILDCARD := "*"

  function Split(key: string): (p: Path)
    ensures p != []
  {
    SplitOn(key, '.')
  }

  function Dotted(p: Path): string
  {
    JoinWith(p, '.')
  }

  predicate HasWildcard(key: string)
  {
    '*' in key
  }

  /** What the trie stores: no segment holds a `*`. */
  predicate WildcardFree(p: Path)
  {
    forall i :: 0 <= i < |p| ==> '*' !in p[i]
  }

  function Child(p: Path, s: string): Path
  {
    p + [s]
  }

  function Parent(p: Path): Path
    requires p != []
  {
    p[..|p| - 1]
  }

  function Last(p: Path): string
    requires p != []
  {
    p[|p| - 1]
  }

  lemma ChildOfParent(p: Path)
    requires p != []
    ensures Child(Parent(p), Last(p)) == p
  {
  }

  lemma ChildInjective(p: Path, s: string, q: Path, t: string)
    requires Child(p, s) == Child(q, t)
    ensures p == q && s == t
  {
    assert Parent(Child(p, s)) == p && Parent(Child(q, t)) == q;
    assert Last(Child(p, s)) == s && Last(Child(q, t)) == t;
  }

  lemma ChildWildcardFree(p: Path, s: string)
    requires WildcardFree(p) && '*' !in s
    ensures WildcardFree(Child(p, s))
  {
  }

  lemma AboveChild(a: Path, p: Path, s: string)
    ensures a < Child(p, s) <==> a <= p
  {
    if a < Child(p, s) { assert p == Child(p, s)[..|p|] && a == Child(p, s)[..|a|]; }
  }

  lemma PrefixesCompare(a: Path, b: Path, q: Path)
    ensures a <= q && b <= q ==> a <= b || b <= a
  {
    if a <= q && b <= q {
      if |a| <= |b| { assert a == b[..|a|]; } else { assert b == a[..|b|]; }
    }
  }

  /** Index of the first whole-segment `*`; the length when there is none. */
  function FirstStar(parts: Path): (n: nat)
    ensures n <= |parts|
    ensures forall i :: 0 <= i < n ==> parts[i] != WILDCARD
    ensures n < |parts| ==> parts[n] == WILDCARD
  {
    if parts == [] then 0
    else if parts[0] == WILDCARD then 0
    else
      var n := FirstStar(parts[1..]);
      assert forall i :: 1 <= i < n + 1 ==> parts[i] == parts[1..][i - 1];
      n + 1
  }

  /** Lookup reading: everything at or below the part before the first `*`, else that one path. */
  predicate Reaches(parts: Path, p: Path)
  {
    var n := FirstStar(parts);
    if n < |parts| then parts[..n] <= p else p == parts
  }

  /** Removal reading: a final `*` is the node and all below it, any other `*` is one segment. */
  predicate Matches(parts: Path, p: Path)
  {
    if parts == [] then p == []
    else if parts == [WILDCARD] then true
    else p != [] && (parts[0] == WILDCARD || parts[0] == p[0]) && Matches(parts[1..], p[1..])
  }

  lemma SplitDotted(key: string)
    ensures Dotted(Split(key)) == key
    ensures Free(Split(key), '.')
  {
    JoinSplit(key, '.');
  }

  lemma DottedSplit(p: Path)
    requires p != [] && Free(p, '.')
    ensures Split(Dotted(p)) == p
  {
    SplitJoin(p, '.');
  }

  lemma {:induction false} DottedSnoc(p: Path, s: string)
    requires p != []
    ensures Dotted(Child(p, s)) == Dotted(p) + "." + s
  {
    if |p| == 1 {
      assert Child(p, s)[0] == p[0] && Child(p, s)[1..] == [s];
      assert Dotted(Child(p, s)) == p[0] + ['.'] + Dotted([s]);
    } else {
      DottedSnoc(p[1..], s);
      assert Child(p, s)[1..] == Child(p[1..], s);
      assert p[0] + ['.'] + (Dotted(p[1..]) + "." + s) == p[0] + ['.'] + Dotted(p[1..]) + "." + s;
    }
  }

  lemma SplitInjective(a: string, b: string)
    ensures Split(a) == Split(b) ==> a == b
  {
    SplitDotted(a);
    SplitDotted(b);
  }

  lemma SplitWildcard(key: string)
    ensures HasWildcard(key) <==> !WildcardFree(Split(key))
  {
    SplitMembers(key, '.', '*');
    var p := SplitOn(key, '.');
    assert p == Split(key);
    if HasWildcard(key) {
      var i :| 0 <= i < |p| && '*' in p[i];
      assert '*' in Split(key)[i];
    }
    if !WildcardFree(p) {
      var i :| 0 <= i < |p| && '*' in p[i];
      assert '*' in SplitOn(key, '.')[i];
    }
  }

  /** Without a `*` both readings name the one path. */
  lemma {:induction false} MatchesLiteral(parts: Path, p: Path)
    requires WildcardFree(parts)
    ensures Matches(parts, p) <==> p == parts
    ensures Reaches(parts, p) <==> p == parts
  {
    if parts != [] {
      assert '*' !in parts[0];
      assert forall i :: 0 <= i < |parts[1..]| ==> parts[1..][i] == parts[i + 1];
      if p != [] {
        MatchesLiteral(parts[1..], p[1..]);
        assert p == [p[0]] + p[1..] && parts == [parts[0]] + parts[1..];
      }
    }
  }

  /** The first `*` is where the scan meets it. */
  lemma {:induction false} FirstStarAt(parts: Path, n: nat)
    requires n <= |parts| && forall i :: 0 <= i < n ==> parts[i] != WILDCARD
    requires n < |parts| ==> parts[n] == WILDCARD
    ensures FirstStar(parts) == n
  {
  }

  /** The lookup reading never leaves the part before the first `*`. */
  lemma ReachesExtends(parts: Path, p: Path, n: nat)
    requires Reaches(parts, p) && n <= FirstStar(parts)
    ensures parts[..n] <= p
  {
    var k := FirstStar(parts);
    if k < |parts| { assert parts[..n] == parts[..k][..n]; }
  }

  /** Paths of `ks` that a lookup of `parts` returns. */
  ghost function Reached(ks: set<Path>, parts: Path): set<Path>
  {
    set q | q in ks && Reaches(parts, q)
  }

  /** Paths of `ks` at or above `parts`: the node a put lands on and those on its way. */
  ghost function Above(ks: set<Path>, parts: Path): set<Path>
  {
    set p | p in ks && p <= parts
  }

  /** Paths of `ks` strictly above `parts`: the nodes on the way. */
  ghost function OnTheWay(ks: set<Path>, parts: Path): set<Path>
  {
    set p | p in ks && p < parts
  }

  /** `m` less the paths that the pattern matches. */
  ghost function Pruned<T>(m: map<Path, T>, pattern: Path): map<Path, T>
  {
    map p | p in m && !Matches(pattern, p) :: m[p]
  }

  /** The two readings agree on every stored path: no `*` before the last segment, or the pattern
      `*.*`, or a segment before the first `*` that mixes `*` with other characters. */
  predicate Agreeing(parts: Path)
  {
    var n := FirstStar(parts);
    n + 1 >= |parts| || parts == [WILDCARD, WILDCARD] || !WildcardFree(parts[..n])
  }

  /** `parts` up to the end, or up to its final `*`, matched segment by segment. */
  lemma {:induction false} MatchesPlain(parts: Path, p: Path)
    requires FirstStar(parts) + 1 >= |parts|
    ensures Matches(parts, p) <==> Reaches(parts, p)
  {
    if |parts| > 1 || (|parts| == 1 && parts[0] != WILDCARD) {
      var tail := parts[1..];
      if p != [] {
        MatchesPlain(tail, p[1..]);
        ReachesCons(parts, p);
      } else {
        assert parts[..FirstStar(parts)] != [];
      }
    }
  }

  /** Past a literal first segment the lookup reading moves on to the tails. */
  lemma ReachesCons(parts: Path, p: Path)
    requires parts != [] && parts[0] != WILDCARD && p != []
    ensures Reaches(parts, p) <==> parts[0] == p[0] && Reaches(parts[1..], p[1..])
  {
    var n := FirstStar(parts);
    assert parts == [parts[0]] + parts[1..] && p == [p[0]] + p[1..];
    if n < |parts| {
      var head := parts[..n];
      assert head[1..] == parts[1..][..n - 1];
      assert head <= p <==> head[0] == p[0] && head[1..] <= p[1..];
    }
  }

  /** A literal segment that holds a `*` keeps both readings off every stored path. */
  lemma {:induction false} MixedSegment(parts: Path, p: Path)
    requires !WildcardFree(parts[..FirstStar(parts)]) && WildcardFree(p)
    ensures !Matches(parts, p) && !Reaches(parts, p)
  {
    var n := FirstStar(parts);
    assert parts[0] != WILDCARD;
    if p != [] {
      assert forall i :: 0 <= i < |p[1..]| ==> p[1..][i] == p[i + 1];
      ReachesCons(parts, p);
      if parts[0] == p[0] {
        assert '*' !in p[0];
        assert parts[1..][..n - 1] == parts[..n][1..];
        var i :| 0 <= i < n && '*' in parts[..n][i];
        assert i > 0 && parts[1..][..n - 1][i - 1] == parts[..n][i];
        MixedSegment(parts[1..], p[1..]);
      }
    } else if n < |parts| {
      assert parts[..n] != [];
    }
  }

  /** Removal never goes beyond lookup: what a pattern matches, it reaches. */
  lemma {:induction false} MatchedIsReached(parts: Path, p: Path)
    requires Matches(parts, p)
    ensures Reaches(parts, p)
  {
    if parts != [] && parts[0] != WILDCARD {
      MatchedIsReached(parts[1..], p[1..]);
      ReachesCons(parts, p);
    }
  }

  lemma AgreeingReadings(parts: Path, p: Path)
    requires Agreeing(parts) && p != [] && WildcardFree(p)
    ensures Matches(parts, p) <==> Reaches(parts, p)
  {
    if FirstStar(parts) + 1 >= |parts| {
      MatchesPlain(parts, p);
    } else if parts == [WILDCARD, WILDCARD] {
      assert parts[1..] == [WILDCARD];
    } else {
      MixedSegment(parts, p);
    }
  }

  /** A literal prefix followed by something that cannot end there does not match that prefix. */
  lemma {:induction false} PrefixUnmatched(parts: Path, n: nat)
    requires n + 1 < |parts|
    requires forall i :: 0 <= i < n ==> parts[i] != WILDCARD
    ensures !Matches(parts, parts[..n])
  {
    if n > 0 {
      assert parts[..n][1..] == parts[1..][..n - 1];
      PrefixUnmatched(parts[1..], n - 1);
    }
  }

  /** Whoever watches from `p` sees a lookup that lands at or below `p`, or is reached by it. */
  lemma ReachedBelow(parts: Path, p: Path, q: Path)
    requires Reaches(parts, q) && p <= q
    ensures Reaches(parts, p) || p < parts
  {
    var n := FirstStar(parts);
    if n < |parts| {
      PrefixesCompare(parts[..n], p, q);
      if p <= parts[..n] && p != parts[..n] { assert p == parts[..|p|]; }
    }
  }
}
