/** The in-place trie: nodes own their children through a hash map, keys are dotted paths.
    The ghost map `nodes` names every node by its path and `contents` is the map the trie
    stands for; everything proved about the heap goes through these two. */
module Tries {
  import opened Wrappers
  import opened Sets
  import opened Paths

  datatype TrieError = KeyContainsWildcard

  class TrieNode<T> {
    var children: map<string, TrieNode<T>>
    var value: Option<T>
    ghost const path: Path  // where the node sits

    constructor (ghost path: Path)
      ensures children == map[] && value == None && this.path == path
    {
      children := map[];
      value := None;
      this.path := path;
    }

    predicate IsEmpty()
      reads this
    {
      children == map[] && value.None?
    }
  }

  /** `r` lists the values that `m` holds at the paths `ps`, and `ps` is `s` without repetition. */
  ghost predicate Lists<T>(r: seq<T>, ps: seq<Path>, m: map<Path, T>, s: set<Path>)
  {
    && |r| == |ps|
    && multiset(ps) == multiset(s)
    && forall i :: 0 <= i < |ps| ==> ps[i] in m && r[i] == m[ps[i]]
  }

  lemma ListsConcat<T>(r: seq<T>, ps: seq<Path>, a: set<Path>, u: seq<T>, qs: seq<Path>, b: set<Path>, m: map<Path, T>)
    requires Lists(r, ps, m, a) && Lists(u, qs, m, b) && a !! b
    ensures Lists(r + u, ps + qs, m, a + b)
  {
    assert multiset(a + b) == multiset(a) + multiset(b);
  }

  /** Paths of `ks` on the way to `parts`, less than `n` segments long. */
  ghost function CapturedBefore(ks: set<Path>, parts: Path, n: nat): set<Path>
  {
    set q | q in ks && q < parts && |q| < n
  }

  lemma CapturedNext(ks: set<Path>, parts: Path, n: nat)
    requires n < |parts|
    ensures CapturedBefore(ks, parts, n + 1) ==
            CapturedBefore(ks, parts, n) + if parts[..n] in ks then {parts[..n]} else {}
    ensures parts[..n] !in CapturedBefore(ks, parts, n)
  {
    forall q | q in ks && q < parts && |q| == n ensures q == parts[..n] { }
    assert parts[..n] < parts;
  }

  lemma ListsSnoc<T>(r: seq<T>, ps: seq<Path>, m: map<Path, T>, a: set<Path>, p: Path)
    requires Lists(r, ps, m, a) && p in m && p !in a
    ensures Lists(r + [m[p]], ps + [p], m, a + {p})
  {
    ListsConcat(r, ps, a, [m[p]], [p], {p}, m);
  }

  /** One more child's values have been collected. */
  lemma CollectRound<T>(r: seq<T>, ps: seq<Path>, m: map<Path, T>, pre: Path,
                        kids: set<string>, todo: set<string>, s: string, sub: seq<T>, qs: seq<Path>)
    requires s in todo && todo <= kids
    requires Lists(r, ps, m, Via(m.Keys, pre, kids - todo)) && Lists(sub, qs, m, Under(m.Keys, Child(pre, s)))
    ensures Lists(r + sub, ps + qs, m, Via(m.Keys, pre, kids - (todo - {s})))
  {
    ViaStep(m.Keys, pre, kids - todo, s);
    TakeOne(kids, todo, s);
    ListsConcat(r, ps, Via(m.Keys, pre, kids - todo), sub, qs, Under(m.Keys, Child(pre, s)), m);
  }

  /** `m` without the bindings below `pre` whose remaining path matches the pattern. */
  ghost function Erase<T>(m: map<Path, T>, pre: Path, pattern: Path): map<Path, T>
  {
    map p | p in m && !(pre <= p && Matches(pattern, p[|pre|..])) :: m[p]
  }

  /** Some binding sits at or below `p`. */
  ghost predicate Fruitful<T>(m: map<Path, T>, p: Path)
  {
    exists q :: q in m && p <= q
  }

  /** Paths of `ks` at or below `pre`. */
  ghost function Under(ks: set<Path>, pre: Path): set<Path>
  {
    set q | q in ks && pre <= q
  }

  /** Paths of `ks` at `pre` or below one of its children named in `done`. */
  ghost function Via(ks: set<Path>, pre: Path, done: set<string>): set<Path>
  {
    set q | q in ks && pre <= q && (q == pre || q[|pre|] in done)
  }

  lemma ViaStep(ks: set<Path>, pre: Path, done: set<string>, s: string)
    requires s !in done
    ensures Via(ks, pre, done + {s}) == Via(ks, pre, done) + Under(ks, Child(pre, s))
    ensures Via(ks, pre, done) !! Under(ks, Child(pre, s))
  {
    forall q | q in ks
      ensures Child(pre, s) <= q <==> pre < q && q[|pre|] == s
    {
      if pre < q && q[|pre|] == s { assert Child(pre, s) == q[..|pre| + 1]; }
    }
  }

  lemma SubtreeShrinks(ks: set<Path>, pre: Path, s: string)
    requires pre in ks
    ensures |Under(ks, Child(pre, s))| < |Under(ks, pre)|
  {
    Subset(Under(ks, Child(pre, s)), Under(ks, pre) - {pre});
  }

  /** Every node strictly below `pre`, bar the listed children of `pre`, is fruitful. */
  ghost predicate PrunedBelow<T>(ks: set<Path>, m: map<Path, T>, pre: Path, bar: set<string>)
  {
    forall p {:trigger Fruitful(m, p)} :: p in ks && pre < p && !(Parent(p) == pre && Last(p) in bar) ==> Fruitful(m, p)
  }

  /** No value and no child at the listed children of `pre`: the source's `is_empty`. */
  ghost predicate Vacant<T>(ks: set<Path>, m: map<Path, T>, pre: Path, bar: set<string>)
  {
    forall s :: s in bar ==> EmptyAt(ks, m, Child(pre, s))
  }

  ghost predicate EmptyAt<T>(ks: set<Path>, m: map<Path, T>, p: Path)
  {
    p !in m && forall t :: Child(p, t) !in ks
  }

  lemma VacantStays<T>(ks: set<Path>, m: map<Path, T>, ks': set<Path>, m': map<Path, T>, pre: Path, bar: set<string>)
    requires Vacant(ks, m, pre, bar) && ks' <= ks && m'.Keys <= m.Keys
    ensures Vacant(ks', m', pre, bar)
  {
    forall s | s in bar ensures EmptyAt(ks', m', Child(pre, s)) {
      assert EmptyAt(ks, m, Child(pre, s));
    }
  }

  /** One round of the loop over the children: `s` may have become empty, no other child un-empties. */
  lemma VacantRound<T>(ks: set<Path>, m: map<Path, T>, ks': set<Path>, m': map<Path, T>, pre: Path,
                       bar: set<string>, bar': set<string>, kids: set<string>, todo: set<string>, s: string)
    requires Vacant(ks, m, pre, bar) && ks' <= ks && m'.Keys <= m.Keys
    requires bar <= kids - todo && s in todo && todo <= kids
    requires bar' == bar || (bar' == bar + {s} && EmptyAt(ks', m', Child(pre, s)))
    ensures Vacant(ks', m', pre, bar') && bar' <= kids - (todo - {s})
  {
    VacantStays(ks, m, ks', m', pre, bar);
  }

  /** `now` is `was` with some nodes strictly below `pre` dropped. */
  ghost predicate Trimmed<N>(was: map<Path, N>, now: map<Path, N>, pre: Path)
  {
    && (forall p :: p in now ==> p in was && now[p] == was[p])
    && (forall p :: p in was && !(pre < p) ==> p in now)
  }

  lemma TrimmedMore<N>(a: map<Path, N>, b: map<Path, N>, c: map<Path, N>, pre: Path, s: string)
    requires Trimmed(a, b, pre) && Trimmed(b, c, Child(pre, s))
    ensures Trimmed(a, c, pre)
  {
    forall p | p in a && !(pre < p) ensures !(Child(pre, s) < p) { }
  }

  /** `m` without the bindings below the `done` children of `pre` whose remaining path matches. */
  ghost function EraseVia<T>(m: map<Path, T>, pre: Path, done: set<string>, pattern: Path): map<Path, T>
  {
    map p | p in m && !(pre < p && p[|pre|] in done && Matches(pattern, p[|pre| + 1..])) :: m[p]
  }

  lemma EraseViaStep<T>(m: map<Path, T>, pre: Path, done: set<string>, s: string, pattern: Path)
    ensures Erase(EraseVia(m, pre, done, pattern), Child(pre, s), pattern) == EraseVia(m, pre, done + {s}, pattern)
  {
    forall p | p in m
      ensures Child(pre, s) <= p <==> pre < p && p[|pre|] == s
      ensures Child(pre, s) <= p ==> p[|pre| + 1..] == p[|Child(pre, s)|..]
    {
      if pre < p && p[|pre|] == s { assert Child(pre, s) == p[..|pre| + 1]; }
    }
  }

  /** One round of the loop over the children: `s` moves from the open to the erased ones. */
  lemma EraseRound<T>(was: map<Path, T>, m: map<Path, T>, m': map<Path, T>, pre: Path,
                      kids: set<string>, todo: set<string>, s: string, pattern: Path)
    requires s in todo && todo <= kids
    requires m == EraseVia(was, pre, kids - todo, pattern) && m' == Erase(m, Child(pre, s), pattern)
    ensures m' == EraseVia(was, pre, kids - (todo - {s}), pattern)
    ensures m' != m ==> m' != was
  {
    EraseViaStep(was, pre, kids - todo, s, pattern);
    assert (kids - todo) + {s} == kids - (todo - {s});
    if m' != m {
      var p :| p in m && p !in m';
    }
  }

  lemma ErasedFromRoot<T>(m: map<Path, T>, pattern: Path)
    ensures Erase(m, [], pattern) == Pruned(m, pattern)
  {
    forall p | p in m ensures [] <= p && p[0..] == p { }
  }

  /** A non-final `*` consumes exactly one segment. */
  lemma EraseStar<T>(m: map<Path, T>, pre: Path, done: set<string>, pattern: Path)
    requires |pattern| > 1 && pattern[0] == WILDCARD
    requires forall p :: p in m && pre < p ==> p[|pre|] in done
    ensures EraseVia(m, pre, done, pattern[1..]) == Erase(m, pre, pattern)
  {
    forall p | p in m && pre <= p
      ensures Matches(pattern, p[|pre|..]) <==> pre < p && Matches(pattern[1..], p[|pre| + 1..])
    {
      if pre < p { assert p[|pre|..][1..] == p[|pre| + 1..]; }
    }
  }

  lemma EraseLiteral<T>(m: map<Path, T>, pre: Path, pattern: Path)
    requires pattern != [] && pattern[0] != WILDCARD
    ensures Erase(m, Child(pre, pattern[0]), pattern[1..]) == Erase(m, pre, pattern)
  {
    var c := Child(pre, pattern[0]);
    forall p | p in m && pre <= p
      ensures Matches(pattern, p[|pre|..]) <==> c <= p && Matches(pattern[1..], p[|c|..])
    {
      if pre < p {
        assert p[|pre|..][1..] == p[|c|..];
        assert c <= p <==> p[|pre|] == pattern[0] by {
          if p[|pre|] == pattern[0] { assert c == p[..|pre| + 1]; }
        }
      }
    }
  }

  ghost function WithoutBelow<A>(m: map<Path, A>, pre: Path): map<Path, A>
  {
    map p | p in m && !(pre < p) :: m[p]
  }

  lemma EraseSubtree<T>(m: map<Path, T>, pre: Path)
    ensures Erase(m, pre, [WILDCARD]) == WithoutBelow(m, pre) - {pre}
    ensures Erase(m, pre, [WILDCARD]) == m <==> forall p :: p in m ==> !(pre <= p)
  {
    forall p | p in m ensures pre <= p <==> p == pre || pre < p { }
    assert forall p: Path :: Matches([WILDCARD], p);
  }

  /** Erasing below one child leaves the rest of the subtree as fruitful as it was. */
  lemma PrunedAside<T>(ks: set<Path>, m: map<Path, T>, ks': set<Path>, m': map<Path, T>, pre: Path,
                       bar: set<string>, s: string, pattern: Path)
    requires PrunedBelow(ks, m, pre, bar) && ks' <= ks
    requires m' == Erase(m, Child(pre, s), pattern) && PrunedBelow(ks', m', Child(pre, s), {})
    ensures PrunedBelow(ks', m', pre, bar + {s})
  {
    var c := Child(pre, s);
    forall p | p in ks' && pre < p && !(Parent(p) == pre && Last(p) in bar + {s})
      ensures Fruitful(m', p)
    {
      if c < p {
      } else {
        assert Parent(c) == pre && Last(c) == s;
        assert !(c <= p);
        assert Fruitful(m, p);
        var q :| q in m && p <= q;
        if c <= q { PrefixesCompare(c, p, q); }
        assert q in m';
      }
    }
  }

  class Trie<T(==)> {
    const root: TrieNode<T>
    ghost var nodes: map<Path, TrieNode<T>>
    ghost var contents: map<Path, T>
    ghost var footprint: set<TrieNode<T>>  // every node there is or was

    /** One node per path; a child's path extends its parent's. */
    ghost predicate Wired()
      reads this, footprint
    {
      && (forall p :: p in nodes ==> nodes[p] in footprint)
      && [] in nodes && nodes[[]] == root
      && (forall p :: p in nodes ==> nodes[p].path == p)
      && (forall p, s {:trigger Child(p, s)} :: Child(p, s) in nodes ==> p in nodes && s in nodes[p].children)
      && (forall p, s :: p in nodes && s in nodes[p].children ==>
            Child(p, s) in nodes && nodes[p].children[s] == nodes[Child(p, s)])
    }

    /** Links, values and the two ghost maps agree. */
    ghost predicate Linked()
      reads this, footprint
    {
      && Wired()
      && (forall p {:trigger WildcardFree(p)} :: p in nodes ==> WildcardFree(p))
      && (forall p :: p in contents ==> p in nodes && p != [])
      && (forall p :: p in nodes ==> nodes[p].value == if p in contents then Some(contents[p]) else None)
    }

    /** Pruning invariant: no dead branches. */
    ghost predicate Valid()
      reads this, footprint
    {
      Linked() && forall p {:trigger Fruitful(contents, p)} :: p in nodes && p != [] ==> Fruitful(contents, p)
    }

    ghost function Repr(): set<object>
      reads this
    {
      {this} + footprint
    }

    constructor ()
      ensures Valid() && contents == map[]
      ensures fresh(Repr())
    {
      var r := new TrieNode<T>([]);
      root := r;
      nodes := map[[] := r];
      contents := map[];
      footprint := {r};
    }

    lemma PrefixClosed(p: Path, q: Path)
      requires Linked() && q in nodes && p <= q
      ensures p in nodes
      decreases |q|
    {
      if p != q {
        ChildOfParent(q);
        assert p <= Parent(q);
        PrefixClosed(p, Parent(q));
      }
    }

    /** A node strictly below `pre` lies below one of its children. */
    lemma StepDown(pre: Path, q: Path)
      requires Linked() && q in nodes && pre < q
      ensures pre in nodes && q[|pre|] in nodes[pre].children
      ensures Child(pre, q[|pre|]) in nodes && Child(pre, q[|pre|]) <= q
    {
      PrefixClosed(Child(pre, q[|pre|]), q);
    }

    /** Every node off the way to `parts` leads to a value. */
    ghost predicate PrunedAsideFrom(parts: Path)
      reads this
    {
      forall p {:trigger Fruitful(contents, p)} :: p in nodes && p != [] ==> Fruitful(contents, p) || p <= parts
    }

    method Insert(key: string, value: T) returns (e: Option<TrieError>)
      requires Valid()
      modifies this, footprint
      ensures Valid() && fresh(Repr() - old(Repr()))
      ensures HasWildcard(key) ==> e == Some(KeyContainsWildcard) && contents == old(contents)
      ensures !HasWildcard(key) ==> e == None && contents == old(contents)[Split(key) := value]
    {
      if HasWildcard(key) {
        return Some(KeyContainsWildcard);
      }
      var parts := Split(key);
      SplitWildcard(key);
      var node := MakeWay(parts);
      SetValue(node, parts, value);
      e := None;
      ghost var was := old(contents);
      forall p | p in nodes && p != [] ensures Fruitful(contents, p) {
        if p <= parts {
          assert parts in contents;
        } else {
          assert Fruitful(was, p);
          var q :| q in was && p <= q;
          assert q in contents;
        }
      }
    }

    /** The loop that walks down from the root and makes what is missing. */
    method MakeWay(parts: Path) returns (node: TrieNode<T>)
      requires Valid() && WildcardFree(parts)
      modifies this`nodes, this`footprint, footprint
      ensures Linked() && parts in nodes && node == nodes[parts] && PrunedAsideFrom(parts)
      ensures contents == old(contents)
      ensures fresh(footprint - old(footprint)) && old(footprint) <= footprint
    {
      node := root;
      var i := 0;
      while i < |parts|
        invariant 0 <= i <= |parts|
        invariant Linked() && parts[..i] in nodes && node == nodes[parts[..i]]
        invariant contents == old(contents) && PrunedAsideFrom(parts)
        invariant fresh(footprint - old(footprint)) && old(footprint) <= footprint
      {
        assert Child(parts[..i], parts[i]) == parts[..i + 1];
        label M:
        node := EntryOrInsert(node, parts[..i], parts[i]);
        forall p | p in nodes && p != [] ensures Fruitful(contents, p) || p <= parts {
          if p in old@M(nodes) { assert Fruitful(old@M(contents), p) || p <= parts; }
        }
        i := i + 1;
      }
      assert parts[..i] == parts;
    }

    /** `node.value = Some(value)` */
    method SetValue(node: TrieNode<T>, ghost p: Path, value: T)
      requires Linked() && p in nodes && nodes[p] == node && p != []
      modifies this`contents, node`value
      ensures Linked() && contents == old(contents)[p := value]
    {
      node.value := Some(value);
      contents := contents[p := value];
    }

    /** `children.entry(part).or_insert_with(TrieNode::new)` */
    method EntryOrInsert(node: TrieNode<T>, ghost pre: Path, part: string) returns (child: TrieNode<T>)
      requires Linked() && pre in nodes && nodes[pre] == node && '*' !in part
      modifies this`nodes, this`footprint, node`children
      ensures Linked()
      ensures Child(pre, part) in nodes && child == nodes[Child(pre, part)]
      ensures nodes == old(nodes)[Child(pre, part) := child]
      ensures fresh(footprint - old(footprint)) && old(footprint) <= footprint
    {
      if part in node.children {
        child := node.children[part];
        assert nodes == nodes[Child(pre, part) := child];
      } else {
        child := new TrieNode<T>(Child(pre, part));
        AddChild(node, pre, part, child);
      }
    }

    method AddChild(node: TrieNode<T>, ghost pre: Path, part: string, child: TrieNode<T>)
      requires Linked() && pre in nodes && nodes[pre] == node && '*' !in part
      requires part !in node.children && child !in footprint && child.path == Child(pre, part) && child.IsEmpty()
      modifies this`nodes, this`footprint, node`children
      ensures Linked() && footprint == old(footprint) + {child}
      ensures nodes == old(nodes)[Child(pre, part) := child]
    {
      ghost var c := Child(pre, part);
      assert c !in nodes;
      footprint := footprint + {child};
      node.children := node.children[part := child];
      nodes := nodes[c := child];
      forall p, s | Child(p, s) in nodes
        ensures p in nodes && s in nodes[p].children
      {
        if Child(p, s) == c { ChildInjective(p, s, pre, part); }
      }
      forall p, s | p in nodes && s in nodes[p].children
        ensures Child(p, s) in nodes && nodes[p].children[s] == nodes[Child(p, s)]
      {
        if p != c && !(p == pre && s == part) {
          assert s in old(nodes[p].children);
        }
      }
      assert WildcardFree(pre);
      ChildWildcardFree(pre, part);
    }

    lemma ViaAll(pre: Path)
      requires Linked() && pre in nodes
      ensures Via(contents.Keys, pre, nodes[pre].children.Keys) == Under(contents.Keys, pre)
    {
      forall q | q in contents && pre < q ensures q[|pre|] in nodes[pre].children {
        StepDown(pre, q);
      }
    }

    lemma NodeAt(pre: Path)
      requires Linked() && pre in nodes
      ensures nodes[pre].value == if pre in contents then Some(contents[pre]) else None
      ensures pre in contents ==> Via(contents.Keys, pre, {}) == {pre}
      ensures pre !in contents ==> Via(contents.Keys, pre, {}) == {}
    {
    }

    lemma ChildAt(pre: Path, s: string)
      requires Linked() && pre in nodes && s in nodes[pre].children
      ensures Child(pre, s) in nodes && nodes[Child(pre, s)] == nodes[pre].children[s]
      ensures |Under(nodes.Keys, Child(pre, s))| < |Under(nodes.Keys, pre)|
    {
      SubtreeShrinks(nodes.Keys, pre, s);
    }

    /** All values at or below a node, children in the hash map's unspecified order. */
    method CollectValues(node: TrieNode<T>, ghost pre: Path) returns (r: seq<T>, ghost ps: seq<Path>)
      requires Linked() && pre in nodes && nodes[pre] == node
      ensures Lists(r, ps, contents, Under(contents.Keys, pre))
      decreases |Under(nodes.Keys, pre)|
    {
      NodeAt(pre);
      ViaAll(pre);
      hide Linked;
      hide Wired;
      ghost var m := contents;
      r, ps := [], [];
      if node.value.Some? {
        r, ps := [node.value.value], [pre];
      }
      var kids := node.children.Keys;
      var todo := kids;
      assert kids - todo == {};
      while todo != {}
        invariant todo <= kids
        invariant Lists(r, ps, m, Via(m.Keys, pre, kids - todo))
      {
        var s :| s in todo;
        ChildAt(pre, s);
        var sub, qs := CollectValues(node.children[s], Child(pre, s));
        CollectRound(r, ps, m, pre, kids, todo, s, sub, qs);
        r, ps := r + sub, ps + qs;
        todo := todo - {s};
      }
      assert kids - todo == kids;
    }

    /** A missing node on the way to the first `*` means that nothing is reached. */
    lemma NothingReached(parts: Path, n: nat)
      requires Linked() && n <= FirstStar(parts) && parts[..n] !in nodes
      ensures Reached(contents.Keys, parts) == {}
    {
      forall q | q in contents ensures !Reaches(parts, q) {
        if Reaches(parts, q) {
          ReachesExtends(parts, q, n);
          PrefixClosed(parts[..n], q);
        }
      }
    }

    lemma ReachedLiteral(parts: Path)
      requires Linked() && FirstStar(parts) == |parts|
      ensures Reached(contents.Keys, parts) == if parts in contents then {parts} else {}
    {
    }

    lemma ReachedStar(parts: Path)
      requires FirstStar(parts) < |parts|
      ensures Reached(contents.Keys, parts) == Under(contents.Keys, parts[..FirstStar(parts)])
    {
    }

    method Get(prefix: string) returns (r: seq<T>, ghost ps: seq<Path>)
      requires Valid()
      ensures Lists(r, ps, contents, Reached(contents.Keys, Split(prefix)))
    {
      var parts := Split(prefix);
      var node := root;
      var i := 0;
      while i < |parts|
        invariant 0 <= i <= |parts| && parts[..i] in nodes && node == nodes[parts[..i]]
        invariant forall j :: 0 <= j < i ==> parts[j] != WILDCARD
      {
        if parts[i] == WILDCARD {
          FirstStarAt(parts, i);
          r, ps := CollectValues(node, parts[..i]);
          ReachedStar(parts);
          return;
        }
        assert Child(parts[..i], parts[i]) == parts[..i + 1];
        if parts[i] !in node.children {
          NothingReached(parts, i + 1);
          return [], [];
        }
        node := node.children[parts[i]];
        i := i + 1;
      }
      assert parts[..i] == parts;
      assert WildcardFree(parts);
      SplitWildcard(prefix);
      if HasWildcard(prefix) {
        assert false;  // the scan has met every segment, and no stored segment holds a `*`
      }
      FirstStarAt(parts, i);
      ReachedLiteral(parts);
      if node.value.Some? {
        r, ps := [node.value.value], [parts];
      } else {
        r, ps := [], [];
      }
    }

    /** `get_mut`: the same values, and `seen` lists the nodes its callback is run on. */
    method GetMut(key: string) returns (r: seq<T>, seen: seq<TrieNode<T>>, ghost ps: seq<Path>)
      requires Valid()
      ensures Lists(r, ps, contents, Reached(contents.Keys, Split(key)))
      ensures SeenOnTheWay(seen, Split(key))
    {
      hide Fruitful;
      var parts := Split(key);
      var node := root;
      seen := [];
      var i := 0;
      while i < |parts|
        invariant 0 <= i <= |parts| && |seen| == i && parts[..i] in nodes && node == nodes[parts[..i]]
        invariant forall j :: 0 <= j < i ==> parts[j] != WILDCARD
        invariant forall j :: 0 <= j < i ==> parts[..j] in nodes && seen[j] == nodes[parts[..j]]
      {
        seen := seen + [node];
        if parts[i] == WILDCARD {
          FirstStarAt(parts, i);
          r, ps := CollectValues(node, parts[..i]);
          ReachedStar(parts);
          return;
        }
        assert Child(parts[..i], parts[i]) == parts[..i + 1];
        if parts[i] !in node.children {
          NothingReached(parts, i + 1);
          return [], seen, [];
        }
        node := node.children[parts[i]];
        i := i + 1;
      }
      assert parts[..i] == parts;
      FirstStarAt(parts, i);
      ReachedLiteral(parts);
      if node.value.Some? {
        r, ps := [node.value.value], [parts];
      } else {
        r, ps := [], [];
      }
    }

    /** Root first, one existing node per path segment, up to the first `*` or missing node. */
    ghost predicate SeenOnTheWay(seen: seq<TrieNode<T>>, parts: Path)
      reads this
    {
      && 1 <= |seen| <= |parts|
      && (forall j :: 0 <= j < |seen| ==> parts[..j] in nodes && seen[j] == nodes[parts[..j]])
      && (forall j :: 0 <= j < |seen| - 1 ==> parts[j] != WILDCARD)
      && (|seen| < |parts| ==> parts[|seen| - 1] == WILDCARD || parts[..|seen|] !in nodes)
    }

    /** Every bound path on the way to `parts` is among the seen nodes. */
    lemma SeenAll(seen: seq<TrieNode<T>>, parts: Path, q: Path)
      requires Linked() && SeenOnTheWay(seen, parts) && q in contents && q < parts
      ensures |q| < |seen|
    {
      assert WildcardFree(q) && q == parts[..|q|];
      if |seen| <= |q| {
        var n := |seen|;
        assert parts[n - 1] == q[n - 1] && '*' !in q[n - 1];
        PrefixClosed(parts[..n], q);
      }
    }

    /** What the callback of the core gathers: the values of the nodes it is run on. */
    method Capture(seen: seq<TrieNode<T>>, ghost parts: Path) returns (r: seq<T>, ghost ps: seq<Path>)
      requires Valid() && SeenOnTheWay(seen, parts)
      ensures Lists(r, ps, contents, OnTheWay(contents.Keys, parts))
    {
      hide Fruitful;
      r, ps := [], [];
      ghost var m := contents;
      var i := 0;
      assert CapturedBefore(m.Keys, parts, 0) == {};
      while i < |seen|
        invariant 0 <= i <= |seen|
        invariant Lists(r, ps, m, CapturedBefore(m.Keys, parts, i))
      {
        CapturedNext(m.Keys, parts, i);
        if seen[i].value.Some? {
          ListsSnoc(r, ps, m, CapturedBefore(m.Keys, parts, i), parts[..i]);
          r, ps := r + [seen[i].value.value], ps + [parts[..i]];
        }
        i := i + 1;
      }
      CapturedAll(seen, parts);
    }

    lemma CapturedAll(seen: seq<TrieNode<T>>, parts: Path)
      requires Linked() && SeenOnTheWay(seen, parts)
      ensures CapturedBefore(contents.Keys, parts, |seen|) == OnTheWay(contents.Keys, parts)
    {
      forall q | q in contents && q < parts ensures |q| < |seen| { SeenAll(seen, parts, q); }
    }

    lemma EmptyNode(p: Path)
      requires Linked() && p in nodes
      ensures nodes[p].IsEmpty() <==> EmptyAt(nodes.Keys, contents, p)
    {
      if nodes[p].IsEmpty() {
      } else if nodes[p].children != map[] {
        var t :| t in nodes[p].children;
        assert Child(p, t) in nodes;
      }
    }

    /** A kept node is fruitful when everything below it is and it is not empty. */
    lemma KeptIsFruitful(p: Path)
      requires Linked() && p in nodes && !EmptyAt(nodes.Keys, contents, p) && PrunedBelow(nodes.Keys, contents, p, {})
      ensures Fruitful(contents, p)
    {
      if p !in contents {
        var t :| Child(p, t) in nodes;
        assert Fruitful(contents, Child(p, t));
      }
    }

    method RemoveChild(node: TrieNode<T>, ghost pre: Path, part: string)
      requires Linked() && pre in nodes && nodes[pre] == node && part in node.children
      requires EmptyAt(nodes.Keys, contents, Child(pre, part))
      modifies this`nodes, node`children
      ensures Linked() && node.children == old(node.children) - {part}
      ensures nodes == old(nodes) - {Child(pre, part)}
    {
      ghost var c := Child(pre, part);
      node.children := node.children - {part};
      nodes := nodes - {c};
      forall p, s | Child(p, s) in nodes
        ensures p in nodes && s in nodes[p].children
      {
        if p == pre && s == part { assert false; }
      }
      forall p, s | p in nodes && s in nodes[p].children
        ensures Child(p, s) in nodes && nodes[p].children[s] == nodes[Child(p, s)]
      {
        assert s in old(nodes[p].children);
        if Child(p, s) == c { ChildInjective(p, s, pre, part); }
      }
    }

    method ClearValue(node: TrieNode<T>, ghost pre: Path) returns (removed: bool)
      requires Linked() && pre in nodes && nodes[pre] == node
      modifies this`contents, node`value
      ensures Linked() && contents == old(contents) - {pre}
      ensures removed <==> pre in old(contents)
    {
      removed := node.value.Some?;
      node.value := None;
      contents := contents - {pre};
    }

    method ClearChildren(node: TrieNode<T>, ghost pre: Path)
      requires Linked() && pre in nodes && nodes[pre] == node
      modifies this`nodes, this`contents, node`children
      ensures Linked()
      ensures nodes == WithoutBelow(old(nodes), pre)
      ensures contents == WithoutBelow(old(contents), pre)
    {
      node.children := map[];
      nodes, contents := WithoutBelow(nodes, pre), WithoutBelow(contents, pre);
      forall p, s | Child(p, s) in nodes
        ensures p in nodes && s in nodes[p].children
      {
        assert p < Child(p, s);
      }
      forall p, s | p in nodes && s in nodes[p].children
        ensures Child(p, s) in nodes && nodes[p].children[s] == nodes[Child(p, s)]
      {
        assert p != pre;
        assert s in old(nodes[p].children);
        AboveChild(pre, p, s);
      }
    }

    /** What a removal below `pre` does: it erases exactly the matching bindings, drops exactly the
        nodes that nothing needs any more, and says whether there was anything to erase. */
    twostate predicate Deleted(pre: Path, pattern: Path, removed: bool)
      reads this, footprint
    {
      && Linked()
      && Trimmed(old(nodes), nodes, pre)
      && contents == Erase(old(contents), pre, pattern)
      && PrunedBelow(nodes.Keys, contents, pre, {})
      && (removed <==> contents != old(contents))
      && (!removed ==> nodes == old(nodes))
    }

    method Remove(key: string) returns (removed: bool)
      requires Valid()
      modifies this`nodes, this`contents, footprint
      ensures Valid() && footprint == old(footprint)
      ensures contents == Pruned(old(contents), Split(key))
      ensures removed <==> contents != old(contents)
    {
      var parts := Split(key);
      assert parts[0..] == parts;
      ghost var was := contents;
      removed := DeleteRecursive(root, [], parts, 0);
      ErasedFromRoot(was, parts);
      forall p | p in nodes && p != [] ensures Fruitful(contents, p) {
        assert [] < p;
      }
    }

    method DeleteRecursive(node: TrieNode<T>, ghost pre: Path, parts: Path, idx: nat) returns (removed: bool)
      requires idx <= |parts| && Linked() && pre in nodes && nodes[pre] == node
      requires PrunedBelow(nodes.Keys, contents, pre, {})
      modifies this`nodes, this`contents, footprint
      ensures Deleted(pre, parts[idx..], removed)
      decreases |parts| - idx, 3
    {
      if idx == |parts| {
        removed := DeleteHere(node, pre);
      } else if parts[idx] == WILDCARD {
        if idx + 1 == |parts| {
          assert parts[idx..] == [WILDCARD];
          removed := DeleteSubtree(node, pre);
        } else {
          removed := DeleteInChildren(node, pre, parts, idx);
        }
      } else {
        removed := DeleteInChild(node, pre, parts, idx);
      }
    }

    /** The end of the path: only the value goes. */
    method DeleteHere(node: TrieNode<T>, ghost pre: Path) returns (removed: bool)
      requires Linked() && pre in nodes && nodes[pre] == node
      requires PrunedBelow(nodes.Keys, contents, pre, {})
      modifies this`nodes, this`contents, node
      ensures Deleted(pre, [], removed)
    {
      ghost var was := contents;
      removed := ClearValue(node, pre);
      assert contents == Erase(was, pre, []) by {
        forall p | p in was ensures pre <= p && p[|pre|..] == [] <==> p == pre { }
      }
      forall p | p in nodes && pre < p ensures Fruitful(contents, p) {
        assert Fruitful(was, p);
        var q :| q in was && p <= q;
        assert q in contents;
      }
    }

    /** `if !children.is_empty() { children.clear() }` */
    method ClearAnyChildren(node: TrieNode<T>, ghost pre: Path) returns (had: bool)
      requires Linked() && pre in nodes && nodes[pre] == node
      requires PrunedBelow(nodes.Keys, contents, pre, {})
      modifies this`nodes, this`contents, node`children
      ensures Linked()
      ensures nodes == WithoutBelow(old(nodes), pre) && (!had ==> nodes == old(nodes))
      ensures contents == WithoutBelow(old(contents), pre)
      ensures had <==> exists q :: q in old(contents) && pre < q
    {
      had := node.children != map[];
      if had {
        ghost var s :| s in node.children;
        assert Fruitful(contents, Child(pre, s)) by { assert Parent(Child(pre, s)) == pre; }
        ghost var q :| q in contents && Child(pre, s) <= q;
        assert pre < q;
        ClearChildren(node, pre);
      } else {
        forall q | q in nodes ensures !(pre < q) {
          if pre < q { StepDown(pre, q); }
        }
      }
    }

    /** A final `*`: children and value go. */
    method DeleteSubtree(node: TrieNode<T>, ghost pre: Path) returns (removed: bool)
      requires Linked() && pre in nodes && nodes[pre] == node
      requires PrunedBelow(nodes.Keys, contents, pre, {})
      modifies this`nodes, this`contents, node
      ensures Deleted(pre, [WILDCARD], removed)
    {
      hide Wired;
      EraseSubtree(contents, pre);
      removed := ClearAnyChildren(node, pre);
      if node.value.Some? {
        var _ := ClearValue(node, pre);
        removed := true;
      }
    }

    /** `if child.is_empty() { node.children.remove(part) }` */
    method RemoveIfEmpty(node: TrieNode<T>, ghost pre: Path, part: string, child: TrieNode<T>)
      requires Linked() && pre in nodes && nodes[pre] == node
      requires part in node.children && node.children[part] == child
      requires PrunedBelow(nodes.Keys, contents, pre, {part}) && PrunedBelow(nodes.Keys, contents, Child(pre, part), {})
      modifies this`nodes, node`children
      ensures Linked() && Trimmed(old(nodes), nodes, pre)
      ensures PrunedBelow(nodes.Keys, contents, pre, {})
    {
      ghost var c := Child(pre, part);
      EmptyNode(c);
      if child.IsEmpty() {
        RemoveChild(node, pre, part);
      } else {
        KeptIsFruitful(c);
      }
      forall p | p in nodes && pre < p ensures Fruitful(contents, p) {
        ChildOfParent(p);
      }
    }

    /** A segment that is not a `*`. */
    method DeleteInChild(node: TrieNode<T>, ghost pre: Path, parts: Path, idx: nat) returns (removed: bool)
      requires idx < |parts| && parts[idx] != WILDCARD && Linked() && pre in nodes && nodes[pre] == node
      requires PrunedBelow(nodes.Keys, contents, pre, {})
      modifies this`nodes, this`contents, footprint
      ensures Deleted(pre, parts[idx..], removed)
      decreases |parts| - idx, 0
    {
      removed := false;
      var part := parts[idx];
      ghost var c := Child(pre, part);
      ghost var was, ks := contents, nodes.Keys;
      EraseLiteral(was, pre, parts[idx..]);
      assert parts[idx..][1..] == parts[idx + 1..];
      if part in node.children {
        var child := node.children[part];
        var hit := DeleteRecursive(child, c, parts, idx + 1);
        if hit {
          removed := true;
          PrunedAside(ks, was, nodes.Keys, contents, pre, {}, part, parts[idx + 1..]);
          RemoveIfEmpty(node, pre, part, child);
        }
      } else {
        assert Erase(was, c, parts[idx + 1..]) == was by {
          forall p | p in was ensures !(c <= p) {
            if c <= p { PrefixClosed(c, p); }
          }
        }
      }
    }

    /** A `*` in the middle: the rest of the pattern is deleted below every child. */
    method DeleteInChildren(node: TrieNode<T>, ghost pre: Path, parts: Path, idx: nat) returns (removed: bool)
      requires idx + 1 < |parts| && parts[idx] == WILDCARD && Linked() && pre in nodes && nodes[pre] == node
      requires PrunedBelow(nodes.Keys, contents, pre, {})
      modifies this`nodes, this`contents, footprint
      ensures Deleted(pre, parts[idx..], removed)
      decreases |parts| - idx, 2
    {
      ghost var was, kids := contents, node.children.Keys;
      forall p | p in was && pre < p ensures p[|pre|] in kids { StepDown(pre, p); }
      var emptied;
      removed, emptied := DeleteFromEach(node, pre, parts, idx);
      assert contents == Erase(was, pre, parts[idx..]) by {
        assert parts[idx..][1..] == parts[idx + 1..];
        EraseStar(was, pre, kids, parts[idx..]);
      }
      RemoveEmptied(node, pre, emptied);
    }

    /** The loop over the children; `emptied` is the source's `children_to_remove`. */
    method DeleteFromEach(node: TrieNode<T>, ghost pre: Path, parts: Path, idx: nat)
      returns (removed: bool, emptied: set<string>)
      requires idx + 1 < |parts| && Linked() && pre in nodes && nodes[pre] == node
      requires PrunedBelow(nodes.Keys, contents, pre, {})
      modifies this`nodes, this`contents, footprint
      ensures Linked() && Trimmed(old(nodes), nodes, pre) && nodes[pre] == node
      ensures node.children.Keys == old(node.children.Keys)
      ensures contents == EraseVia(old(contents), pre, node.children.Keys, parts[idx + 1..])
      ensures PrunedBelow(nodes.Keys, contents, pre, emptied)
      ensures emptied <= node.children.Keys && Vacant(nodes.Keys, contents, pre, emptied)
      ensures (removed <==> contents != old(contents)) && (!removed ==> nodes == old(nodes) && emptied == {})
      decreases |parts| - idx, 1
    {
      removed, emptied := false, {};
      ghost var was, rest := contents, parts[idx + 1..];
      var todo := node.children.Keys;
      ghost var kids := todo;
      assert kids - todo == {};
      while todo != {}
        invariant Linked() && Trimmed(old(nodes), nodes, pre) && nodes[pre] == node
        invariant todo <= kids == node.children.Keys
        invariant contents == EraseVia(was, pre, kids - todo, rest)
        invariant PrunedBelow(nodes.Keys, contents, pre, emptied)
        invariant emptied <= kids - todo && Vacant(nodes.Keys, contents, pre, emptied)
        invariant (removed <==> contents != was) && (!removed ==> nodes == old(nodes) && emptied == {})
      {
        var s :| s in todo;
        ghost var ns, m, bar := nodes, contents, emptied;
        var hit, isEmpty := DeleteFromOne(node, pre, parts, idx, s, emptied);
        TrimmedMore(old(nodes), ns, nodes, pre, s);
        EraseRound(was, m, contents, pre, kids, todo, s, rest);
        if hit {
          removed := true;
          if isEmpty { emptied := emptied + {s}; }
        }
        VacantRound(ns.Keys, m, nodes.Keys, contents, pre, bar, emptied, kids, todo, s);
        todo := todo - {s};
      }
      assert kids - todo == node.children.Keys;
    }

    /** The loop body for one child; its node goes only after the loop. */
    method DeleteFromOne(node: TrieNode<T>, ghost pre: Path, parts: Path, idx: nat, s: string,
                         ghost emptied: set<string>)
      returns (hit: bool, isEmpty: bool)
      requires idx + 1 < |parts| && Linked() && pre in nodes && nodes[pre] == node
      requires s in node.children && s !in emptied
      requires PrunedBelow(nodes.Keys, contents, pre, emptied)
      modifies this`nodes, this`contents, footprint
      ensures Linked() && Trimmed(old(nodes), nodes, Child(pre, s))
      ensures node.children.Keys == old(node.children.Keys)
      ensures contents == Erase(old(contents), Child(pre, s), parts[idx + 1..])
      ensures PrunedBelow(nodes.Keys, contents, pre, emptied + if isEmpty then {s} else {})
      ensures isEmpty ==> hit && EmptyAt(nodes.Keys, contents, Child(pre, s))
      ensures (hit <==> contents != old(contents)) && (!hit ==> nodes == old(nodes))
      decreases |parts| - idx, 0
    {
      ghost var c := Child(pre, s);
      assert forall p :: p in nodes && c < p ==> pre < p && Parent(p) != pre;
      var child := node.children[s];
      hit := DeleteRecursive(child, c, parts, idx + 1);
      isEmpty := false;
      forall t ensures t in node.children <==> t in old(node.children) {
        assert Child(pre, t) in nodes <==> Child(pre, t) in old(nodes);
      }
      if hit {
        PrunedAside(old(nodes).Keys, old(contents), nodes.Keys, contents, pre, emptied, s, parts[idx + 1..]);
        EmptyNode(c);
        isEmpty := child.IsEmpty();
        if !isEmpty {
          KeptIsFruitful(c);
          forall p | p in nodes && pre < p && !(Parent(p) == pre && Last(p) in emptied) ensures Fruitful(contents, p) {
            ChildOfParent(p);
          }
        }
      }
    }

    method RemoveEmptied(node: TrieNode<T>, ghost pre: Path, emptied: set<string>)
      requires Linked() && pre in nodes && nodes[pre] == node
      requires emptied <= node.children.Keys && Vacant(nodes.Keys, contents, pre, emptied)
      requires PrunedBelow(nodes.Keys, contents, pre, emptied)
      modifies this`nodes, node`children
      ensures Linked() && Trimmed(old(nodes), nodes, pre)
      ensures PrunedBelow(nodes.Keys, contents, pre, {})
      ensures emptied == {} ==> nodes == old(nodes)
    {
      hide Linked;
      var todo := emptied;
      while todo != {}
        invariant todo <= node.children.Keys && Vacant(nodes.Keys, contents, pre, todo)
        invariant Linked() && Trimmed(old(nodes), nodes, pre) && nodes[pre] == node
        invariant PrunedBelow(nodes.Keys, contents, pre, todo)
        invariant emptied == {} ==> nodes == old(nodes)
      {
        var s :| s in todo;
        ghost var ks := nodes.Keys;
        RemoveOne(node, pre, s, todo);
        VacantStays(ks, contents, nodes.Keys, contents, pre, todo);
        todo := todo - {s};
      }
    }

    method RemoveOne(node: TrieNode<T>, ghost pre: Path, s: string, ghost todo: set<string>)
      requires Linked() && pre in nodes && nodes[pre] == node
      requires s in todo && s in node.children && EmptyAt(nodes.Keys, contents, Child(pre, s))
      requires PrunedBelow(nodes.Keys, contents, pre, todo)
      modifies this`nodes, node`children
      ensures Linked() && node.children == old(node.children) - {s}
      ensures nodes == old(nodes) - {Child(pre, s)}
      ensures PrunedBelow(nodes.Keys, contents, pre, todo - {s})
    {
      RemoveChild(node, pre, s);
      forall p | p in nodes && pre < p && !(Parent(p) == pre && Last(p) in todo - {s}) ensures Fruitful(contents, p) {
        ChildOfParent(p);
      }
    }

    lemma ChildrenAgree(other: Trie<T>, pre: Path)
      requires Valid() && other.Valid() && pre in nodes && pre in other.nodes
      requires Agree(contents, other.contents, pre)
      ensures nodes[pre].children.Keys <= other.nodes[pre].children.Keys
    {
      forall s | s in nodes[pre].children ensures s in other.nodes[pre].children {
        var c := Child(pre, s);
        assert Fruitful(contents, c);
        var q :| q in contents && c <= q;
        assert pre <= q && q in other.contents;
        other.PrefixClosed(c, q);
      }
    }

    lemma AgreeingShape(other: Trie<T>, pre: Path)
      requires Valid() && other.Valid() && pre in nodes && pre in other.nodes
      requires Agree(contents, other.contents, pre)
      ensures nodes[pre].children.Keys == other.nodes[pre].children.Keys
      ensures |nodes[pre].children| == |other.nodes[pre].children|
      ensures nodes[pre].value == other.nodes[pre].value
      ensures forall s :: s in nodes[pre].children ==> Agree(contents, other.contents, Child(pre, s))
    {
      ChildrenAgree(other, pre);
      other.ChildrenAgree(this, pre);
      assert |nodes[pre].children| == |nodes[pre].children.Keys|;
      assert |other.nodes[pre].children| == |other.nodes[pre].children.Keys|;
      forall s | s in nodes[pre].children ensures Agree(contents, other.contents, Child(pre, s)) {
        AgreeBelow(contents, other.contents, pre, s);
      }
    }

    /** Derived `==` on nodes: values, then the two hash maps child by child. */
    method NodeEquals(node: TrieNode<T>, other: Trie<T>, theirs: TrieNode<T>, ghost pre: Path) returns (eq: bool)
      requires Valid() && pre in nodes && nodes[pre] == node
      requires other.Valid() && pre in other.nodes && other.nodes[pre] == theirs
      ensures eq <==> Agree(contents, other.contents, pre)
      decreases |Under(nodes.Keys, pre)|, 1
    {
      if Agree(contents, other.contents, pre) { AgreeingShape(other, pre); }
      hide Trie.Valid;
      hide Agree;
      if node.value != theirs.value || |node.children| != |theirs.children| {
        return false;
      }
      eq := ChildrenEqual(node, other, theirs, pre);
      if eq {
        SameKeys(node.children, theirs.children);
        ChildrenCover(other, pre);
      }
    }

    /** The loop over the children of both nodes. */
    method ChildrenEqual(node: TrieNode<T>, other: Trie<T>, theirs: TrieNode<T>, ghost pre: Path) returns (eq: bool)
      requires Valid() && pre in nodes && nodes[pre] == node
      requires other.Valid() && pre in other.nodes && other.nodes[pre] == theirs
      ensures eq <==> forall s :: s in node.children ==>
        s in theirs.children && Agree(contents, other.contents, Child(pre, s))
      decreases |Under(nodes.Keys, pre)|, 0
    {
      hide Linked;
      var todo := node.children.Keys;
      while todo != {}
        invariant todo <= node.children.Keys
        invariant forall s :: s in node.children && s !in todo ==>
          s in theirs.children && Agree(contents, other.contents, Child(pre, s))
      {
        var s :| s in todo;
        if s !in theirs.children {
          return false;
        }
        ChildAt(pre, s);
        other.ChildAt(pre, s);
        var sub := NodeEquals(node.children[s], other, theirs.children[s], Child(pre, s));
        if !sub {
          return false;
        }
        todo := todo - {s};
      }
      eq := true;
    }

    lemma ChildrenCover(other: Trie<T>, pre: Path)
      requires Valid() && other.Valid() && pre in nodes && pre in other.nodes
      requires nodes[pre].value == other.nodes[pre].value
      requires nodes[pre].children.Keys == other.nodes[pre].children.Keys
      requires forall s :: s in nodes[pre].children ==> Agree(contents, other.contents, Child(pre, s))
      ensures Agree(contents, other.contents, pre)
    {
      forall q | q in contents && pre <= q ensures q in other.contents && other.contents[q] == contents[q] {
        if q != pre { StepDown(pre, q); }
      }
      forall q | q in other.contents && pre <= q ensures q in contents {
        if q != pre { other.StepDown(pre, q); }
      }
    }

    /** `==` on tries compares shapes, yet decides equality of the maps they stand for:
        a pruned trie has one shape per map. */
    method Equals(other: Trie<T>) returns (eq: bool)
      requires Valid() && other.Valid()
      ensures eq <==> contents == other.contents
    {
      eq := NodeEquals(root, other, other.root, []);
      if eq { assert contents.Keys == other.contents.Keys; }
    }
  }

  /** The two maps hold the same at and below `pre`. */
  ghost predicate Agree<T>(a: map<Path, T>, b: map<Path, T>, pre: Path)
  {
    && (forall q :: q in a && pre <= q ==> q in b && b[q] == a[q])
    && (forall q :: q in b && pre <= q ==> q in a)
  }

  lemma AgreeBelow<T>(a: map<Path, T>, b: map<Path, T>, pre: Path, s: string)
    requires Agree(a, b, pre)
    ensures Agree(a, b, Child(pre, s))
  {
    forall q | (q in a || q in b) && Child(pre, s) <= q ensures pre <= q { }
  }
}
