/** Safety and refinement over whole runs of the core. */
module Runs {
  import opened Paths
  import opened Messages
  import opened Core

  // ---- the invariant holds in every reachable state ----

  lemma PutKeepsInv(s: State, key: string, value: Bytes)
    requires Inv(s)
    ensures Inv(PutStep(s, key, value))
  {
    var t := PutStep(s, key, value);
    SplitWildcard(key);
    forall k | k in t.store ensures Split(k) in t.index && t.index[Split(k)] == k { SplitInjective(k, key); }
  }

  lemma DeleteKeepsTidy(s: State, key: string)
    requires Tidy(s)
    ensures Tidy(DeleteStep(s, key))
  {
    var t := DeleteStep(s, key);
    forall p, u | Open(t, p, u) ensures Open(s, p, u) && t.live[p][u] == s.live[p][u] { }
  }

  /** Index and store stay together exactly as long as both readings pick the same stored keys. */
  lemma DeleteSync(s: State, key: string)
    requires Inv(s)
    ensures InSync(DeleteStep(s, key)) <==>
            forall p :: p in s.index ==> (Matches(Split(key), p) <==> Reaches(Split(key), p))
  {
    var t, parts := DeleteStep(s, key), Split(key);
    var gone := set p | p in Reached(s.index.Keys, parts) :: s.index[p];
    forall p | p in s.index ensures s.index[p] in gone <==> Reaches(parts, p) {
      if s.index[p] in gone {
        var q :| q in Reached(s.index.Keys, parts) && s.index[q] == s.index[p];
        assert Split(s.index[q]) == q;
      }
    }
    if forall p :: p in s.index ==> (Matches(parts, p) <==> Reaches(parts, p)) {
      forall k | k in t.store ensures Split(k) in t.index && t.index[Split(k)] == k { }
      forall p | p in t.index ensures t.index[p] in t.store { }
    } else {
      var p :| p in s.index && Matches(parts, p) != Reaches(parts, p);
      assert s.index[p] in t.store <==> !Reaches(parts, p);
      assert p in t.index <==> !Matches(parts, p);
    }
  }

  lemma PutKeepsTidy(s: State, key: string, value: Bytes)
    requires Tidy(s)
    ensures Tidy(PutStep(s, key, value))
  {
    SplitWildcard(key);
  }

  /** The next number is free. */
  lemma NextNumber(live: Live, p: Path, uuid: string, n: nat)
    requires Owned(live) && Below(live, n)
    ensures var j := Joined(live, p, uuid, n);
            Owned(j) && Below(j, n + 1) && j.Keys == live.Keys + {p}
  {
    var j := Joined(live, p, uuid, n);
    forall q, v | q in j && v in j[q]
      ensures (q == p && v == uuid && j[q][v] == n) || (q in live && v in live[q] && j[q][v] == live[q][v])
    { }
  }

  lemma SubscribeKeepsTidy(s: State, key: string, uuid: string)
    requires Tidy(s) && !HasWildcard(key)
    ensures Tidy(SubscribeStep(s, key, uuid))
  {
    SplitWildcard(key);
    hide Joined;
    hide Owned;
    hide Below;
    hide FirstMessages;
    NextNumber(s.live, Split(key), uuid, |s.logs|);
  }

  lemma UnsubscribeKeepsTidy(s: State, key: string, uuid: string)
    requires Tidy(s)
    ensures Tidy(UnsubscribeStep(s, key, uuid))
  {
    var t := UnsubscribeStep(s, key, uuid);
    forall p, u | Open(t, p, u) ensures Open(s, p, u) && t.live[p][u] == s.live[p][u] { }
  }

  lemma StepKeepsTidy(s: State, op: Op)
    requires Tidy(s) && Plain(op)
    ensures Tidy(Step(s, op))
  {
    match op {
      case Put(key, value) => PutKeepsTidy(s, key, value);
      case Delete(key) => DeleteKeepsTidy(s, key);
      case Subscribe(key, uuid) => SubscribeKeepsTidy(s, key, uuid);
      case Unsubscribe(key, uuid) => UnsubscribeKeepsTidy(s, key, uuid);
    }
  }

  lemma {:induction false} ExecKeepsTidy(s: State, ops: seq<Op>)
    requires Tidy(s) && AllPlain(ops)
    ensures Tidy(Exec(s, ops))
  {
    if ops != [] {
      ExecKeepsTidy(s, ops[..|ops| - 1]);
      StepKeepsTidy(Exec(s, ops[..|ops| - 1]), ops[|ops| - 1]);
    }
  }

  lemma StepKeepsInv(s: State, op: Op)
    requires Inv(s) && Supported(op)
    ensures Inv(Step(s, op))
  {
    match op {
      case Put(key, value) => PutKeepsInv(s, key, value);
      case Delete(key) =>
        DeleteKeepsTidy(s, key);
        forall p | p in s.index ensures Matches(Split(key), p) <==> Reaches(Split(key), p) {
          AgreeingReadings(Split(key), p);
        }
        DeleteSync(s, key);
      case Subscribe(key, uuid) => SubscribeKeepsTidy(s, key, uuid);
      case Unsubscribe(key, uuid) => UnsubscribeKeepsTidy(s, key, uuid);
    }
  }

  lemma {:induction false} ExecKeepsInv(s: State, ops: seq<Op>)
    requires Inv(s) && AllSupported(ops)
    ensures Inv(Exec(s, ops))
  {
    if ops != [] {
      ExecKeepsInv(s, ops[..|ops| - 1]);
      StepKeepsInv(Exec(s, ops[..|ops| - 1]), ops[|ops| - 1]);
    }
  }

  /** Keys whose deletion never parts index and store: the two readings of the pattern agree, or no
      key that a put accepts tells them apart. */
  predicate DeleteSafe(key: string)
  {
    var parts := Split(key);
    Agreeing(parts) || '\n' in Dotted(parts[..FirstStar(parts)]) || key == ".*.*"
  }

  /** Only safe deletes, and subscriptions without a `*`. */
  predicate AllSafe(ops: seq<Op>)
  {
    forall i :: 0 <= i < |ops| ==> Plain(ops[i]) && (ops[i].Delete? ==> DeleteSafe(ops[i].key))
  }

  /** Runs of safe operations from the empty state keep the invariant, and store only keys that a put
      accepts. */
  lemma {:induction false} SafeRun(ops: seq<Op>)
    requires AllSafe(ops)
    ensures Inv(Exec(Empty(), ops))
    ensures forall k :: k in Exec(Empty(), ops).store ==> Puttable(k)
  {
    if ops != [] {
      var before, op := ops[..|ops| - 1], ops[|ops| - 1];
      SafeRun(before);
      if op.Delete? {
        SafeInSync(Exec(Empty(), before), op.key);
        DeleteKeepsTidy(Exec(Empty(), before), op.key);
      } else {
        StepKeepsInv(Exec(Empty(), before), op);
      }
    }
  }

  /** A delete keeps index and store together after every run of safe operations exactly when it is
      safe itself: a `*` before the last segment breaks it, but for the exceptions that `DeleteSafe`
      lists. */
  lemma DeleteSyncExactly(key: string)
    ensures (forall ops :: AllSafe(ops) ==> InSync(DeleteStep(Exec(Empty(), ops), key))) <==> DeleteSafe(key)
  {
    if DeleteSafe(key) {
      forall ops | AllSafe(ops) ensures InSync(DeleteStep(Exec(Empty(), ops), key)) {
        SafeRun(ops);
        SafeInSync(Exec(Empty(), ops), key);
      }
    } else {
      var k := TellingKey(key);
      OnePut(k, []);
      BrokenByOneKey(k, key);
      assert AllSafe([Put(k, [])]);
      assert !InSync(DeleteStep(Exec(Empty(), [Put(k, [])]), key));
    }
  }

  lemma SafeInSync(s: State, key: string)
    requires Inv(s) && DeleteSafe(key) && forall k :: k in s.store ==> Puttable(k)
    ensures InSync(DeleteStep(s, key))
  {
    forall p | p in s.index ensures Matches(Split(key), p) <==> Reaches(Split(key), p) {
      SafeReadings(s.index[p], key);
    }
    DeleteSync(s, key);
  }

  lemma SafeReadings(k: string, key: string)
    requires DeleteSafe(key) && Puttable(k)
    ensures Matches(Split(key), Split(k)) <==> Reaches(Split(key), Split(k))
  {
    var parts, p := Split(key), Split(k);
    SplitWildcard(k);
    SplitDotted(k);
    if Agreeing(parts) {
      AgreeingReadings(parts, p);
    } else {
      if Matches(parts, p) { MatchedIsReached(parts, p); }
      var n := FirstStar(parts);
      if Reaches(parts, p) {
        if '\n' in Dotted(parts[..n]) {
          DottedPrefix(parts[..n], p, '\n');
        } else {
          DotStarStar(p);
        }
      }
    }
  }

  lemma DotStarStarText()
    ensures Dotted(["", "*", "*"]) == ".*.*"
  {
    ThreeDotted("", "*", "*");
    assert "" + "." + "*" + "." + "*" == ".*.*";
  }

  /** `.*.*` reads alike both ways except for the empty key. */
  lemma DotStarStar(p: Path)
    requires Reaches(Split(".*.*"), p) && Dotted(p) != ""
    ensures Matches(Split(".*.*"), p)
  {
    DotStarStarText();
    DottedSplit(["", "*", "*"]);
    FirstStarAt(["", "*", "*"], 1);
    assert ["", "*", "*"][..1] == [""];
    assert p == [""] + p[1..];
    assert ["", "*", "*"][1..] == ["*", "*"] && ["*", "*"][1..] == ["*"];
  }

  /** What the text of a prefix holds, the text of the whole path holds. */
  lemma {:induction false} DottedPrefix(a: Path, p: Path, c: char)
    requires a <= p && c in Dotted(a)
    ensures c in Dotted(p)
  {
    if |p| > 1 {
      if |a| == 1 {
        assert Dotted(p)[..|p[0]|] == p[0];
      } else {
        assert a[1..] <= p[1..] && a[0] == p[0];
        if c !in p[0] && c != '.' { DottedPrefix(a[1..], p[1..], c); }
      }
    }
  }

  /** For an unsafe key, a key that puts accept and that the two readings treat differently. */
  lemma TellingKey(key: string) returns (k: string)
    requires !DeleteSafe(key)
    ensures Puttable(k) && Reaches(Split(key), Split(k)) && !Matches(Split(key), Split(k))
  {
    var parts := Split(key);
    var n := FirstStar(parts);
    SplitDotted(key);
    var p := parts[..n];
    if n == 0 {
      p := ["x"];
      assert parts == [parts[0]] + parts[1..] && p[1..] == [];
      assert Dotted(p) == "x";
    } else if p == [""] {
      p := ["", "x"];
      assert p[1..] == ["x"] && Dotted(p) == ".x";
      TellingBelowDot(parts);
    } else {
      PrefixUnmatched(parts, n);
      if Dotted(p) == "" { DottedSplit(p); }
    }
    k := Dotted(p);
    DottedSplit(p);
    SplitWildcard(k);
  }

  lemma TellingBelowDot(parts: Path)
    requires FirstStar(parts) == 1 && |parts| > 2 && parts[0] == "" && Dotted(parts) != ".*.*"
    ensures Reaches(parts, ["", "x"]) && !Matches(parts, ["", "x"])
  {
    assert ["", "x"][1..] == ["x"] && ["x"][1..] == [];
    assert parts[1..][1..] == parts[2..];
    DotStarStarText();
    assert parts[2..] == [WILDCARD] ==> parts == ["", "*", "*"];
    assert Matches(parts, ["", "x"]) == Matches(parts[1..], ["x"]) == Matches(parts[2..], []);
  }

  lemma OnePut(k: string, value: Bytes)
    requires Puttable(k)
    ensures Exec(Empty(), [Put(k, value)]) == State(map[k := value], map[Split(k) := k], map[], [])
    ensures AllSupported([Put(k, value)])
  {
    var ops := [Put(k, value)];
    assert ops[..0] == [] && Exec(Empty(), ops) == PutStep(Empty(), k, value);
  }

  lemma BrokenByOneKey(k: string, key: string)
    requires Puttable(k) && Reaches(Split(key), Split(k)) && !Matches(Split(key), Split(k))
    ensures !InSync(DeleteStep(State(map[k := []], map[Split(k) := k], map[], []), key))
  {
    var s := State(map[k := []], map[Split(k) := k], map[], []);
    SplitWildcard(k);
    assert Inv(s);
    DeleteSync(s, key);
  }

  /** The shortest run that goes wrong: after `put a`, `delete a.*.b` takes `a` off the store but not
      off the index, and a lookup goes on answering it, with no bytes. */
  lemma MiddleStarLosesTheParent(value: Bytes)
    ensures var s := Exec(Empty(), [Put("a", value), Delete("a.*.b")]);
            && s.store == map[] && s.index == map[["a"] := "a"]
            && Get(s, "a") == map["a" := []]
  {
    var ops := [Put("a", value), Delete("a.*.b")];
    assert ops[..1] == [Put("a", value)];
    SmallSplits();
    OnePut("a", value);
    var one := State(map["a" := value], map[["a"] := "a"], map[], []);
    var s := DeleteStep(one, "a.*.b");
    assert Exec(Empty(), ops) == s;
    ParentIsLost(value);
  }

  lemma ParentIsLost(value: Bytes)
    ensures var s := DeleteStep(State(map["a" := value], map[["a"] := "a"], map[], []), "a.*.b");
            && s.store == map[] && s.index == map[["a"] := "a"]
            && Get(s, "a") == map["a" := []]
  {
    SmallSplits();
    var one := State(map["a" := value], map[["a"] := "a"], map[], []);
    var s := DeleteStep(one, "a.*.b");
    var parts := ["a", "*", "b"];
    FirstStarAt(parts, 1);
    assert parts[..1] == ["a"] && parts[1..] == ["*", "b"] && ["a"][1..] == [];
    assert Reached(one.index.Keys, parts) == {["a"]};
    assert (set p | p in Reached(one.index.Keys, parts) :: one.index[p]) == {"a"};
    FirstStarAt(["a"], 1);
    assert Reached(s.index.Keys, ["a"]) == {["a"]};
    assert (set p | p in Reached(s.index.Keys, ["a"]) :: s.index[p]) == {"a"};
  }

  lemma SmallSplits()
    ensures Split("a") == ["a"] && Split("a.*.b") == ["a", "*", "b"]
  {
    DottedSplit(["a"]);
    ThreeDotted("a", "*", "b");
    assert "a" + "." + "*" + "." + "b" == "a.*.b";
    DottedSplit(["a", "*", "b"]);
  }

  lemma ThreeDotted(a: string, b: string, c: string)
    ensures Dotted([a, b, c]) == a + "." + b + "." + c
  {
    assert [a, b, c][1..] == [b, c] && [b, c][1..] == [c];
    assert Dotted([c]) == c;
    assert Dotted([b, c]) == b + ['.'] + Dotted([c]);
    assert a + "." + (b + "." + c) == a + "." + b + "." + c;
  }

  // ---- what runs may hold ----

  /** No more is asked of callers than this: subscriptions without a `*`, and deletes of a key without
      one, of a whole subtree, or of everything. */
  lemma SupportedCovers(key: string, value: Bytes, uuid: string)
    ensures Supported(Put(key, value)) && Supported(Unsubscribe(key, uuid))
    ensures '*' !in key ==> Supported(Subscribe(key, uuid)) && Supported(Delete(key)) && Supported(Delete(key + ".*"))
    ensures Supported(Delete("*"))
    ensures Plain(Put(key, value)) && Plain(Unsubscribe(key, uuid)) && Plain(Delete(key))
    ensures '*' !in key ==> Plain(Subscribe(key, uuid))
  {
    DottedSplit(["*"]);
    FirstStarAt(["*"], 0);
    SplitWildcard(key);
    if '*' !in key {
      FirstStarAt(Split(key), |Split(key)|);
      StarSplit(key);
      FirstStarAt(Split(key + ".*"), |Split(key)|);
    }
  }

  lemma StarSplit(key: string)
    ensures Split(key + ".*") == Child(Split(key), WILDCARD)
  {
    var p := Child(Split(key), WILDCARD);
    SplitDotted(key);
    DottedSnoc(Split(key), WILDCARD);
    assert key + "." + "*" == key + ".*";
    DottedSplit(p);
  }

  // ---- refinement of a flat map ----

  /** The specification: a plain map, changed by whole-key puts and pattern deletes. */
  function FlatStep(m: map<string, Bytes>, op: Op): map<string, Bytes>
  {
    match op
    case Put(key, value) => if Puttable(key) then m[key := value] else m
    case Delete(key) => map k | k in m && !Matches(Split(key), Split(k)) :: m[k]
    case _ => m
  }

  function FlatExec(m: map<string, Bytes>, ops: seq<Op>): map<string, Bytes>
  {
    if ops == [] then m else FlatStep(FlatExec(m, ops[..|ops| - 1]), ops[|ops| - 1])
  }

  function FlatGet(m: map<string, Bytes>, pattern: string): map<string, Bytes>
  {
    map k | k in m && Reaches(Split(pattern), Split(k)) :: m[k]
  }

  lemma GetIsFlat(s: State, pattern: string)
    requires Inv(s)
    ensures Get(s, pattern) == FlatGet(s.store, pattern)
  {
    var parts := Split(pattern);
    var found := set p | p in Reached(s.index.Keys, parts) :: s.index[p];
    forall k ensures k in found <==> k in s.store && Reaches(parts, Split(k)) {
      if k in s.store && Reaches(parts, Split(k)) {
        assert Split(k) in Reached(s.index.Keys, parts);
      }
    }
  }

  lemma StepIsFlat(s: State, op: Op)
    requires Inv(s) && Supported(op)
    ensures Step(s, op).store == FlatStep(s.store, op)
  {
    match op {
      case Delete(key) =>
        var parts := Split(key);
        var gone := set p | p in Reached(s.index.Keys, parts) :: s.index[p];
        forall k | k in s.store ensures k in gone <==> Matches(parts, Split(k)) {
          AgreeingReadings(parts, Split(k));
          if Reaches(parts, Split(k)) { assert Split(k) in Reached(s.index.Keys, parts); }
        }
      case _ =>
    }
  }

  /** Every run refines the flat map, and every lookup answers what the flat map answers. */
  lemma {:induction false} RunRefinesFlatMap(s: State, ops: seq<Op>)
    requires Inv(s) && AllSupported(ops)
    ensures Exec(s, ops).store == FlatExec(s.store, ops)
    ensures forall pattern :: Get(Exec(s, ops), pattern) == FlatGet(FlatExec(s.store, ops), pattern)
  {
    ExecKeepsInv(s, ops);
    if ops != [] {
      var before := ops[..|ops| - 1];
      RunRefinesFlatMap(s, before);
      ExecKeepsInv(s, before);
      StepIsFlat(Exec(s, before), ops[|ops| - 1]);
    }
    forall pattern ensures Get(Exec(s, ops), pattern) == FlatGet(FlatExec(s.store, ops), pattern) {
      GetIsFlat(Exec(s, ops), pattern);
    }
  }
}
