/** What a subscriber may rely on: the shape of its log and what replaying it gives. */
module Subscriptions {
  import opened Text
  import opened Paths
  import opened Messages
  import opened Core
  import opened Runs

  // ---- the grammar of a log ----

  /** A message that leaves the subscription at `p` open: an update at or below `p`, or a close
      that names something strictly lower. */
  predicate Middle(p: Path, m: Message)
  {
    match m
    case Update(k, _) => p <= Split(k)
    case Close(k) => p < Split(k) && !Reaches(Split(k), p)
    case _ => false
  }

  /** The last message of a closed subscription at `p`: a close whose key reaches `p`. */
  predicate Final(p: Path, m: Message)
  {
    m.Close? && Reaches(Split(m.key), p)
  }

  predicate AllMiddle(p: Path, ms: seq<Message>)
  {
    forall i :: 0 <= i < |ms| ==> Middle(p, ms[i])
  }

  ghost predicate WellFormedTail(p: Path, tail: seq<Message>, isOpen: bool)
  {
    if isOpen then AllMiddle(p, tail)
    else tail != [] && AllMiddle(p, tail[..|tail| - 1]) && Final(p, tail[|tail| - 1])
  }

  /** Subscription `id`, opened at `p` for `u` with the messages `head`: it is either still there
      or nowhere, and its log has grown by a well-formed tail. */
  ghost predicate Story(s: State, p: Path, u: string, id: nat, head: seq<Message>)
  {
    && id < |s.logs| && head <= s.logs[id]
    && (Gone(s, id) || (Open(s, p, u) && s.live[p][u] == id))
    && WellFormedTail(p, s.logs[id][|head|..], !Gone(s, id))
  }

  lemma SentIsWellFormed(s: State, op: Op, p: Path, u: string)
    requires Tidy(s) && Open(s, p, u)
    ensures if Stays(s, op, p, u) then AllMiddle(p, Sent(s, op, p, u))
            else |Sent(s, op, p, u)| == 1 && Final(p, Sent(s, op, p, u)[0])
  {
    if op.Unsubscribe? && Reached(s.live.Keys, Split(op.key)) == {p} {
      assert p in Reached(s.live.Keys, Split(op.key));
    }
  }

  lemma StoryGoesOn(s: State, op: Op, p: Path, u: string, id: nat, head: seq<Message>)
    requires Tidy(s) && Story(s, p, u, id, head)
    ensures Story(Step(s, op), p, u, id, head)
  {
    var t := Step(s, op);
    if Gone(s, id) {
      StepForgets(s, op, id);
    } else {
      StepDelivers(s, op, p, u);
      SentIsWellFormed(s, op, p, u);
      var sent := Sent(s, op, p, u);
      assert t.logs[id][|head|..] == s.logs[id][|head|..] + sent;
      if !Stays(s, op, p, u) {
        var tail := t.logs[id][|head|..];
        assert tail[..|tail| - 1] == s.logs[id][|head|..];
      } else {
        assert !Gone(t, id);
      }
    }
  }

  /** A successful subscription opens a new log: Hello, then the stored value if there is one. */
  lemma Opening(s: State, key: string, uuid: string)
    requires Inv(s) && !HasWildcard(key) && !Open(s, Split(key), uuid)
    ensures var t := SubscribeStep(s, key, uuid);
            && Inv(t) && Open(t, Split(key), uuid) && t.live[Split(key)][uuid] == |s.logs|
            && t.logs[|s.logs|] == [Hello] + (if key in s.store then [Update(key, s.store[key])] else [])
  {
    SubscribeKeepsTidy(s, key, uuid);
    GetIsFlat(s, key);
    SplitWildcard(key);
    MatchesLiteral(Split(key), Split(key));
  }

  lemma StoryBegins(s: State, key: string, uuid: string)
    requires Tidy(s) && !HasWildcard(key) && !Open(s, Split(key), uuid)
    ensures var t := SubscribeStep(s, key, uuid);
            Tidy(t) && |s.logs| < |t.logs| && Story(t, Split(key), uuid, |s.logs|, t.logs[|s.logs|])
  {
    var t := SubscribeStep(s, key, uuid);
    SubscribeKeepsTidy(s, key, uuid);
    assert Open(t, Split(key), uuid);
    assert t.logs[|s.logs|][|t.logs[|s.logs|]|..] == [];
  }

  /** Whole runs, with deletes of any pattern: from the moment it is opened, a subscription's log is
      its opening messages, then updates at or below its key and closes strictly below it, then at
      most one final close, after which it is open nowhere and nothing is ever appended. */
  lemma {:induction false} LogGrammar(s: State, key: string, uuid: string, ops: seq<Op>)
    requires Tidy(s) && !HasWildcard(key) && !Open(s, Split(key), uuid) && AllPlain(ops)
    ensures var t := SubscribeStep(s, key, uuid);
            |s.logs| < |t.logs| && Story(Exec(t, ops), Split(key), uuid, |s.logs|, t.logs[|s.logs|])
  {
    var t := SubscribeStep(s, key, uuid);
    StoryBegins(s, key, uuid);
    if ops != [] {
      var before := ops[..|ops| - 1];
      LogGrammar(s, key, uuid, before);
      ExecKeepsTidy(t, before);
      StoryGoesOn(Exec(t, before), ops[|ops| - 1], Split(key), uuid, |s.logs|, t.logs[|s.logs|]);
    }
  }

  // ---- deletes, as subscribers see them ----

  /** Deleting a key without a `*` closes the subscriptions at the key, tells those above it, and
      says nothing to those below it. */
  lemma ExactDelete(s: State, key: string, p: Path, u: string)
    requires Tidy(s) && !HasWildcard(key) && Open(s, p, u)
    ensures var t, id := DeleteStep(s, key), s.live[p][u];
            && id < |t.logs| && t.logs[id] == s.logs[id] + (if p <= Split(key) then [Close(key)] else [])
            && if p == Split(key) then Gone(t, id) else Open(t, p, u) && t.live[p][u] == id
  {
    SplitWildcard(key);
    MatchesLiteral(Split(key), p);
    StepDelivers(s, Delete(key), p, u);
  }

  /** Deleting a subtree closes the subscriptions at its root and below, and tells those above it:
      one message each, although its root is both on the way and in the subtree. */
  lemma SubtreeDelete(s: State, key: string, p: Path, u: string)
    requires Tidy(s) && !HasWildcard(key) && Open(s, p, u)
    ensures var star := key + ".*";
            var t, id := DeleteStep(s, star), s.live[p][u];
            && id < |t.logs|
            && t.logs[id] == s.logs[id] + (if p <= Split(key) || Split(key) <= p then [Close(star)] else [])
            && if Split(key) <= p then Gone(t, id) else Open(t, p, u) && t.live[p][u] == id
  {
    var star := key + ".*";
    StarSplit(key);
    SplitWildcard(key);
    FirstStarAt(Split(star), |Split(key)|);
    assert Split(star)[..|Split(key)|] == Split(key);
    AboveChild(p, Split(key), WILDCARD);
    StepDelivers(s, Delete(star), p, u);
  }

  // ---- replaying a log ----

  /** A subscriber's copy of the store after one more message. */
  function ReplayOne(m: map<string, Bytes>, msg: Message): map<string, Bytes>
  {
    match msg
    case Update(k, v) => m[k := v]
    case Close(k) => map x | x in m && !Matches(Split(k), Split(x)) :: m[x]
    case _ => m
  }

  function Replay(log: seq<Message>): map<string, Bytes>
  {
    if log == [] then map[] else ReplayOne(Replay(log[..|log| - 1]), log[|log| - 1])
  }

  lemma ReplaySnoc(log: seq<Message>, m: Message)
    ensures Replay(log + [m]) == ReplayOne(Replay(log), m)
  {
    assert (log + [m])[..|log|] == log;
  }

  /** The replayed copy is true of the store at and below `p`, complete at `p` itself and on `puts`. */
  ghost predicate Mirrors(copy: map<string, Bytes>, store: map<string, Bytes>, p: Path, puts: set<string>)
  {
    && (forall k :: k in copy ==> p <= Split(k) && k in store && store[k] == copy[k])
    && (Dotted(p) in store ==> Dotted(p) in copy)
    && (forall k :: k in puts && k in store && p <= Split(k) ==> k in copy)
  }

  ghost function PutKeys(ops: seq<Op>): set<string>
  {
    set i | 0 <= i < |ops| && ops[i].Put? && Puttable(ops[i].key) :: ops[i].key
  }

  /** The keys put so far, one operation later. */
  ghost function MorePuts(puts: set<string>, op: Op): set<string>
  {
    if op.Put? && Puttable(op.key) then puts + {op.key} else puts
  }

  lemma PutKeysSnoc(ops: seq<Op>)
    requires ops != []
    ensures PutKeys(ops) == MorePuts(PutKeys(ops[..|ops| - 1]), ops[|ops| - 1])
  {
    var before, op := ops[..|ops| - 1], ops[|ops| - 1];
    forall k ensures k in PutKeys(ops) <==> k in MorePuts(PutKeys(before), op) {
      if k in PutKeys(before) {
        var i :| 0 <= i < |before| && before[i].Put? && Puttable(before[i].key) && before[i].key == k;
        assert ops[i] == before[i];
      }
      if k in PutKeys(ops) {
        var i :| 0 <= i < |ops| && ops[i].Put? && Puttable(ops[i].key) && ops[i].key == k;
        assert i < |before| ==> before[i] == ops[i];
      }
    }
  }

  lemma MirrorsPut(copy: map<string, Bytes>, store: map<string, Bytes>, p: Path, puts: set<string>,
                   key: string, value: Bytes)
    requires Mirrors(copy, store, p, puts) && p != [] && Free(p, '.')
    ensures Mirrors(if p <= Split(key) then copy[key := value] else copy, store[key := value], p, puts + {key})
  {
    DottedSplit(p);
  }

  lemma MirrorsDelete(copy: map<string, Bytes>, store: map<string, Bytes>, p: Path, puts: set<string>, key: string)
    requires Mirrors(copy, store, p, puts) && p != [] && Free(p, '.') && Agreeing(Split(key))
    requires WildcardFree(p) && (forall k :: k in store ==> WildcardFree(Split(k))) && !Reaches(Split(key), p)
    ensures Mirrors(if p < Split(key) then ReplayOne(copy, Close(key)) else copy, FlatStep(store, Delete(key)), p, puts)
  {
    DottedSplit(p);
    var parts := Split(key);
    AgreeingReadings(parts, p);
    forall k | k in store && p <= Split(k) && Matches(parts, Split(k)) ensures p < parts {
      AgreeingReadings(parts, Split(k));
      ReachedBelow(parts, p, Split(k));
    }
  }

  /** What an operation sends to a subscription at `p` that stays open. */
  ghost function SentBelow(op: Op, p: Path): seq<Message>
  {
    match op
    case Put(key, value) => if Puttable(key) && p <= Split(key) then [Update(key, value)] else []
    case Delete(key) => if p < Split(key) then [Close(key)] else []
    case _ => []
  }

  /** Replaying what was sent keeps the copy true of the flat store. */
  lemma OpMirrors(log: seq<Message>, store: map<string, Bytes>, p: Path, puts: set<string>, op: Op)
    requires Mirrors(Replay(log), store, p, puts) && Supported(op) && p != [] && Free(p, '.') && WildcardFree(p)
    requires op.Delete? ==> (forall k :: k in store ==> WildcardFree(Split(k))) && !Reaches(Split(op.key), p)
    ensures Mirrors(Replay(log + SentBelow(op, p)), FlatStep(store, op), p, MorePuts(puts, op))
  {
    var copy, sent := Replay(log), SentBelow(op, p);
    if sent == [] {
      assert log + sent == log;
    } else {
      ReplaySnoc(log, sent[0]);
      assert sent == [sent[0]];
    }
    hide Replay;
    hide Mirrors;
    match op {
      case Put(key, value) => if Puttable(key) { MirrorsPut(copy, store, p, puts, key, value); }
      case Delete(key) => MirrorsDelete(copy, store, p, puts, key);
      case _ =>
    }
  }

  lemma StepMirrors(s: State, op: Op, p: Path, u: string, puts: set<string>)
    requires Inv(s) && Supported(op) && Open(s, p, u) && Free(p, '.') && Stays(s, op, p, u)
    requires Mirrors(Replay(s.logs[s.live[p][u]]), s.store, p, puts)
    ensures var t := Step(s, op);
            Mirrors(Replay(t.logs[s.live[p][u]]), t.store, p, MorePuts(puts, op))
  {
    StepDelivers(s, op, p, u);
    StepIsFlat(s, op);
    assert Sent(s, op, p, u) == SentBelow(op, p);
    forall k | k in s.store ensures WildcardFree(Split(k)) { assert Split(k) in s.index; }
    hide Mirrors;
    hide Replay;
    hide Step;
    hide FlatStep;
    OpMirrors(s.logs[s.live[p][u]], s.store, p, puts, op);
  }

  /** Replay: over any run, replaying an open subscription's log gives only stored pairs at or below
      the subscribed key, the right answer for that key itself, and every key below it that was put
      since subscribing and is still stored. */
  lemma {:induction false} ReplayMirrorsStore(s: State, key: string, uuid: string, ops: seq<Op>)
    requires Inv(s) && !HasWildcard(key) && !Open(s, Split(key), uuid) && AllSupported(ops)
    ensures var end := Exec(SubscribeStep(s, key, uuid), ops);
            !Gone(end, |s.logs|) ==>
              |s.logs| < |end.logs| && Mirrors(Replay(end.logs[|s.logs|]), end.store, Split(key), PutKeys(ops))
  {
    var t, p, id := SubscribeStep(s, key, uuid), Split(key), |s.logs|;
    LogGrammar(s, key, uuid, ops);
    SplitDotted(key);
    if ops == [] {
      Opening(s, key, uuid);
      var copy := Replay(t.logs[id]);
      ReplaySnoc([], Hello);
      assert [] + [Hello] == [Hello];
      if key in s.store { ReplaySnoc([Hello], Update(key, s.store[key])); }
      assert copy == if key in s.store then map[key := s.store[key]] else map[];
    } else {
      var before, op := ops[..|ops| - 1], ops[|ops| - 1];
      var mid := Exec(t, before);
      ReplayMirrorsStore(s, key, uuid, before);
      LogGrammar(s, key, uuid, before);
      Opening(s, key, uuid);
      ExecKeepsInv(t, before);
      PutKeysSnoc(ops);
      if Gone(mid, id) {
        StepForgets(mid, op, id);
      } else {
        StepDelivers(mid, op, p, uuid);
        if Stays(mid, op, p, uuid) { StepMirrors(mid, op, p, uuid, PutKeys(before)); }
      }
    }
  }

  // ---- tracing ----

  /** Open subscriptions at the paths `ps`. */
  ghost function SubsAt(live: Live, ps: set<Path>): set<(Path, string)>
  {
    set p, u | p in ps && p in live && u in live[p] :: (p, u)
  }

  /** Trace visits the target and the nodes on the way to it: together exactly the subscriptions
      whose logs the next put of that key extends, each by one message. */
  lemma TraceTellsTheTruth(s: State, key: string, value: Bytes, p: Path, u: string)
    requires Inv(s) && Puttable(key) && Open(s, p, u)
    ensures var t := PutStep(s, key, value);
            var target := SubsAt(s.live, Reached(s.live.Keys, Split(key)));
            var way := SubsAt(s.live, OnTheWay(s.live.Keys, Split(key)));
            && target !! way
            && s.live[p][u] < |t.logs|
            && t.logs[s.live[p][u]] ==
               s.logs[s.live[p][u]] + (if (p, u) in target + way then [Update(key, value)] else [])
  {
    StepDelivers(s, Put(key, value), p, u);
    SplitWildcard(key);
    forall q | q in s.live ensures Reaches(Split(key), q) <==> q == Split(key) { MatchesLiteral(Split(key), q); }
  }
}
