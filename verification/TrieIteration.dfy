/** The explicit-stack iterator over a trie. */
module TrieIteration {
  import opened Wrappers
  import opened Sets
  import opened Paths
  import opened Tries

  /** `path == ""` gets no dot in front of the next segment. */
  function Extend(path: string, s: string): string
  {
    (if path == "" then path else path + ".") + s
  }

  /** The text the iterator carries along for a path. */
  function IterPath(p: Path): string
  {
    if p == [] then "" else Extend(IterPath(Parent(p)), Last(p))
  }

  /** Some pending subtree holds `q`. */
  ghost predicate Covers(pend: seq<Path>, q: Path)
  {
    exists i :: 0 <= i < |pend| && pend[i] <= q
  }

  ghost function Covered(ks: set<Path>, pend: seq<Path>): set<Path>
  {
    set q | q in ks && Covers(pend, q)
  }

  /** No pending subtree inside another. */
  ghost predicate Apart(pend: seq<Path>)
  {
    forall i, j :: 0 <= i < |pend| && 0 <= j < |pend| && i != j ==> !(pend[i] <= pend[j])
  }

  lemma CoversPush(pend: seq<Path>, c: Path, q: Path)
    ensures Covers(pend + [c], q) <==> Covers(pend, q) || c <= q
  {
    var more := pend + [c];
    if i :| 0 <= i < |pend| && pend[i] <= q { assert more[i] <= q; }
    if c <= q { assert more[|pend|] <= q; }
  }

  lemma PopApart(pend: seq<Path>, q: Path)
    requires pend != [] && Apart(pend)
    ensures var p := pend[|pend| - 1];
            var rest := pend[..|pend| - 1];
            && (Covers(pend, q) <==> Covers(rest, q) || p <= q)
            && !(Covers(rest, q) && p <= q)
            && Apart(rest)
  {
    var p, rest := pend[|pend| - 1], pend[..|pend| - 1];
    assert pend == rest + [p];
    CoversPush(rest, p, q);
    forall i | 0 <= i < |rest| ensures !(rest[i] <= q && p <= q) {
      assert pend[i] == rest[i] && pend[|rest|] == p;
      PrefixesCompare(rest[i], p, q);
    }
  }

  /** The pending list while the children of the popped `p` are pushed. */
  ghost predicate Pushing(rest: seq<Path>, pend: seq<Path>, p: Path, done: set<string>)
  {
    && Apart(pend)
    && (forall i :: 0 <= i < |rest| ==> !(rest[i] <= p) && !(p <= rest[i]))
    && forall i :: 0 <= i < |pend| ==>
         pend[i] in rest || (pend[i] != [] && Parent(pend[i]) == p && Last(pend[i]) in done)
  }

  lemma PushApart(rest: seq<Path>, pend: seq<Path>, p: Path, done: set<string>, s: string)
    requires Pushing(rest, pend, p, done) && s !in done
    ensures Pushing(rest, pend + [Child(p, s)], p, done + {s})
  {
    var c := Child(p, s);
    forall i | 0 <= i < |pend| ensures !(c <= pend[i]) && !(pend[i] <= c) {
      if pend[i] in rest {
        BelowChild(p, s, pend[i]);
        AboveChild(pend[i], p, s);
      } else {
        var t := Last(pend[i]);
        ChildOfParent(pend[i]);
        ChildPrefix(p, t, s);
        ChildPrefix(p, s, t);
      }
    }
  }

  lemma PushCovers(ks: set<Path>, rest: seq<Path>, pend: seq<Path>, p: Path, done: set<string>, s: string)
    requires forall q :: q in ks ==> (Covers(pend, q) <==> Covers(rest, q) || (p < q && q[|p|] in done))
    ensures forall q :: q in ks ==>
      (Covers(pend + [Child(p, s)], q) <==> Covers(rest, q) || (p < q && q[|p|] in done + {s}))
  {
    var c := Child(p, s);
    forall q | q in ks
      ensures Covers(pend + [c], q) <==> Covers(rest, q) || (p < q && q[|p|] in done + {s})
    {
      CoversPush(pend, c, q);
      if p < q && q[|p|] == s { assert c == q[..|c|]; }
    }
  }

  lemma BelowChild(p: Path, s: string, q: Path)
    ensures Child(p, s) <= q ==> p <= q
  {
  }

  lemma ChildPrefix(p: Path, s: string, t: string)
    ensures Child(p, s) <= Child(p, t) <==> s == t
  {
    assert Child(p, s)[|p|] == s && Child(p, t)[|p|] == t;
  }

  lemma CoveredPop(ks: set<Path>, was: seq<Path>, pend: seq<Path>, p: Path)
    requires forall q :: q in ks ==> (Covers(pend, q) <==> Covers(was, q) && q != p)
    ensures Covered(ks, pend) == Covered(ks, was) - {p}
  {
  }

  /** `r` pairs each of `ps` with its text and its value. */
  ghost predicate Pairs<T>(r: seq<(string, T)>, ps: seq<Path>, m: map<Path, T>)
  {
    && |r| == |ps|
    && forall i :: 0 <= i < |ps| ==> ps[i] in m && r[i] == (IterPath(ps[i]), m[ps[i]])
  }

  lemma DrainRound<T>(r: seq<(string, T)>, ps: seq<Path>, m: map<Path, T>, all: set<Path>, left: set<Path>, p: Path)
    requires Pairs(r, ps, m) && p in m && p in left && left <= all && multiset(ps) == multiset(all - left)
    ensures Pairs(r + [(IterPath(p), m[p])], ps + [p], m)
    ensures left - {p} <= all && |left - {p}| < |left|
    ensures multiset(ps + [p]) == multiset(all - (left - {p}))
  {
    TakeOne(all, left, p);
  }

  class TrieIter<T(==)> {
    var stack: seq<(TrieNode<T>, string)>
    ghost const trie: Trie<T>
    ghost var pend: seq<Path>

    /** Each stack entry is the node at its pending path, with the text of that path. */
    ghost predicate Tracks()
      reads this, trie
    {
      && |stack| == |pend|
      && forall i :: 0 <= i < |pend| ==>
           pend[i] in trie.nodes && stack[i] == (trie.nodes[pend[i]], IterPath(pend[i]))
    }

    ghost predicate Valid()
      reads this, trie, trie.footprint
    {
      trie.Valid() && Tracks() && Apart(pend)
    }

    /** Stored paths not yet yielded. */
    ghost function Left(): set<Path>
      reads this, trie
    {
      Covered(trie.contents.Keys, pend)
    }

    constructor (trie: Trie<T>)
      requires trie.Valid()
      ensures this.trie == trie && Valid() && Left() == trie.contents.Keys
    {
      stack := [(trie.root, "")];
      this.trie := trie;
      pend := [[]];
      new;
      forall q | q in trie.contents ensures Covers(pend, q) {
        assert pend[0] <= q;
      }
    }

    /** Yields one stored pair and takes it off the remaining ones; `None` only when none remains. */
    method Next() returns (r: Option<(string, T)>, ghost p: Path)
      requires Valid()
      modifies this
      ensures Valid()
      ensures r.None? ==> old(Left()) == {} && Left() == {}
      ensures r.Some? ==> p in old(Left()) && Left() == old(Left()) - {p}
      ensures r.Some? ==> p in trie.contents && r.value == (IterPath(p), trie.contents[p])
    {
      p := [];
      while stack != []
        invariant Valid() && Left() == old(Left())
        decreases |Covered(trie.nodes.Keys, pend)|
      {
        var (node, path) := stack[|stack| - 1];
        p := pend[|pend| - 1];
        ghost var was := pend;
        Expand(node, path, p);
        CoveredPop(trie.contents.Keys, was, pend, p);
        CoveredPop(trie.nodes.Keys, was, pend, p);
        Subset(Covered(trie.nodes.Keys, was) - {p}, Covered(trie.nodes.Keys, was));
        if node.value.Some? {
          return Some((path, node.value.value)), p;
        }
      }
      r := None;
    }

    /** Pops a node and pushes its children, in whatever order the hash map lists them. */
    method Expand(node: TrieNode<T>, path: string, ghost p: Path)
      requires Valid() && stack != [] && stack[|stack| - 1] == (node, path) && p == pend[|pend| - 1]
      modifies this
      ensures Valid()
      ensures forall q :: q in trie.nodes ==> (Covers(pend, q) <==> Covers(old(pend), q) && q != p)
      ensures p in Covered(trie.nodes.Keys, old(pend))
    {
      ghost var was, rest := pend, pend[..|pend| - 1];
      assert was[|was| - 1] <= p;
      PopApart(was, p);
      forall i | 0 <= i < |rest| ensures !(rest[i] <= p) && !(p <= rest[i]) {
        assert was[i] == rest[i];
      }
      stack, pend := stack[..|stack| - 1], rest;
      PushChildren(node, path, p);
      forall q | q in trie.nodes
        ensures Covers(pend, q) <==> Covers(was, q) && q != p
      {
        PopApart(was, q);
        if p < q { trie.StepDown(p, q); }
      }
    }

    method PushChildren(node: TrieNode<T>, path: string, ghost p: Path)
      requires Valid() && p in trie.nodes && trie.nodes[p] == node && path == IterPath(p)
      requires forall i :: 0 <= i < |pend| ==> !(pend[i] <= p) && !(p <= pend[i])
      modifies this
      ensures Valid()
      ensures forall q :: q in trie.nodes ==>
        (Covers(pend, q) <==> Covers(old(pend), q) || (p < q && q[|p|] in node.children))
    {
      hide Trie.Linked;
      ghost var rest := pend;
      var todo := node.children.Keys;
      ghost var done: set<string> := {};
      while todo != {}
        invariant todo !! done && todo + done == node.children.Keys
        invariant Tracks() && Pushing(rest, pend, p, done)
        invariant forall q :: q in trie.nodes ==> (Covers(pend, q) <==> Covers(rest, q) || (p < q && q[|p|] in done))
      {
        var s :| s in todo;
        trie.ChildAt(p, s);
        PushApart(rest, pend, p, done, s);
        PushCovers(trie.nodes.Keys, rest, pend, p, done, s);
        assert Parent(Child(p, s)) == p && Last(Child(p, s)) == s;
        stack, pend := stack + [(node.children[s], Extend(path, s))], pend + [Child(p, s)];
        todo, done := todo - {s}, done + {s};
      }
      assert done == node.children.Keys;
    }

    /** Draining the iterator, as a `for` loop over it does. */
    method Drain() returns (r: seq<(string, T)>, ghost ps: seq<Path>)
      requires Valid()
      modifies this
      ensures multiset(ps) == multiset(old(Left())) && Pairs(r, ps, trie.contents)
    {
      hide Trie.Valid;
      hide TrieIter.Valid;
      hide Covered;
      r, ps := [], [];
      ghost var all, m := Left(), trie.contents;
      while true
        invariant Valid() && Left() <= all && trie.contents == m
        invariant multiset(ps) == multiset(all - Left()) && Pairs(r, ps, m)
        decreases |Left()|
      {
        ghost var left := Left();
        var e, p := Next();
        if e.None? {
          assert all - {} == all;
          return;
        }
        DrainRound(r, ps, m, all, left, p);
        r, ps := r + [e.value], ps + [p];
      }
    }
  }

  /** The carried text is the dotted key, except below an empty first segment, where the
      iterator drops the dots that follow it. */
  lemma {:induction false} IterPathExact(p: Path)
    ensures IterPath(p) == Dotted(p) <==> |p| <= 1 || p[0] != ""
    ensures |p| > 1 && p[0] == "" ==> |IterPath(p)| < |Dotted(p)|
    ensures p != [] && p[0] != "" ==> Dotted(p) != ""
  {
    if |p| > 1 {
      IterPathExact(Parent(p));
      DottedSnoc(Parent(p), Last(p));
      ChildOfParent(p);
      assert p[0] == Parent(p)[0];
      assert IterPath(p) == Extend(IterPath(Parent(p)), Last(p));
    } else if |p| == 1 {
      assert Parent(p) == [] && "" + Last(p) == p[0];
    }
  }
}
