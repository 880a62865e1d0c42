/** The core as a state machine over values: the flat store, the index that mirrors it, the live
    subscriptions and every subscription's message log. `NkvCore` is proved to take these steps. */
module Core {
  import opened Sets
  import opened Paths
  import opened Messages

  /** Subscribed paths, and under each the number of every client's subscription. */
  type Live = map<Path, map<string, nat>>

  type Logs = seq<seq<Message>>

  /** `logs[i]` is everything ever sent to subscription number `i`; `live` maps a subscribed path
      and a client to the number of the subscription that is open there. */
  datatype State = State(
    store: map<string, Bytes>,
    index: map<Path, string>,
    live: Live,
    logs: Logs)

  datatype Op =
    | Put(key: string, value: Bytes)
    | Delete(key: string)
    | Subscribe(key: string, uuid: string)
    | Unsubscribe(key: string, uuid: string)

  /** The language of the key pattern: some text without a newline. */
  predicate KeyCorrect(key: string)
  {
    key != "" && '\n' !in key
  }

  predicate Puttable(key: string)
  {
    !HasWildcard(key) && KeyCorrect(key)
  }

  ghost predicate Open(s: State, p: Path, u: string)
  {
    p in s.live && u in s.live[p]
  }

  /** Numbers of the subscriptions open at the paths `ps`. */
  ghost function Ids(live: Live, ps: set<Path>): set<nat>
  {
    set p, u | p in ps && p in live && u in live[p] :: live[p][u]
  }

  ghost function Send(logs: Logs, ids: set<nat>, m: Message): (r: Logs)
    ensures |r| == |logs|
  {
    seq(|logs|, i requires 0 <= i < |logs| => if i in ids then logs[i] + [m] else logs[i])
  }

  /** Sending the same message to two separate groups, one group after the other. */
  lemma SendInTwo(logs: Logs, a: set<nat>, b: set<nat>, m: Message)
    requires a !! b
    ensures Send(Send(logs, a, m), b, m) == Send(logs, a + b, m)
  {
  }

  lemma SendToNone(logs: Logs, m: Message)
    ensures Send(logs, {}, m) == logs
  {
  }

  /** Each open subscription has a number of its own. */
  ghost predicate Owned(live: Live)
  {
    forall p, u, q, v ::
      p in live && u in live[p] && q in live && v in live[q] && live[p][u] == live[q][v] ==> p == q && u == v
  }

  /** Every subscription is numbered below `n`. */
  ghost predicate Below(live: Live, n: nat)
  {
    forall p, u :: p in live && u in live[p] ==> live[p][u] < n
  }

  lemma IdsInTwo(live: Live, a: set<Path>, b: set<Path>)
    requires Owned(live) && a !! b
    ensures Ids(live, a + b) == Ids(live, a) + Ids(live, b)
    ensures Ids(live, a) !! Ids(live, b)
  {
  }

  // ---- the five operations ----

  ghost function PutStep(s: State, key: string, value: Bytes): State
  {
    if !Puttable(key) then s else
    s.(store := s.store[key := value],
       index := s.index[Split(key) := key],
       logs := Send(s.logs, Ids(s.live, Above(s.live.Keys, Split(key))), Update(key, value)))
  }

  ghost function Get(s: State, key: string): map<string, Bytes>
  {
    map k | k in (set p | p in Reached(s.index.Keys, Split(key)) :: s.index[p]) ::
      if k in s.store then s.store[k] else []
  }

  /** `live` less the clients of the paths `ps`. */
  ghost function Drained(live: Live, ps: set<Path>): Live
  {
    map p | p in live :: if p in ps then map[] else live[p]
  }

  /** Lookup collects with one reading of the pattern, removal prunes with the other. */
  ghost function DeleteStep(s: State, key: string): State
  {
    var parts := Split(key);
    var closed := Reached(s.live.Keys, parts);
    State(
      s.store - (set p | p in Reached(s.index.Keys, parts) :: s.index[p]),
      Pruned(s.index, parts),
      Pruned(Drained(s.live, closed), parts),
      Send(s.logs, Ids(s.live, closed + OnTheWay(s.live.Keys, parts)), Close(key)))
  }

  ghost function FirstMessages(s: State, key: string): seq<Message>
  {
    [Hello] + if key in Get(s, key) then [Update(key, Get(s, key)[key])] else []
  }

  ghost function Joined(live: Live, p: Path, uuid: string, id: nat): Live
  {
    live[p := (if p in live then live[p] else map[])[uuid := id]]
  }

  ghost function SubscribeStep(s: State, key: string, uuid: string): State
  {
    var p := Split(key);
    if Open(s, p, uuid) then s else
    s.(live := Joined(s.live, p, uuid, |s.logs|),
       logs := s.logs + [FirstMessages(s, key)])
  }

  /** Only a lookup that lands on exactly one notifier unsubscribes. */
  ghost function UnsubscribeStep(s: State, key: string, uuid: string): State
  {
    var hit := Reached(s.live.Keys, Split(key));
    if |hit| != 1 then s else
    s.(live := map p | p in s.live :: if p in hit then s.live[p] - {uuid} else s.live[p],
       logs := Send(s.logs, set p | p in hit && uuid in s.live[p] :: s.live[p][uuid], Close(key)))
  }

  ghost function Step(s: State, op: Op): State
  {
    match op
    case Put(key, value) => PutStep(s, key, value)
    case Delete(key) => DeleteStep(s, key)
    case Subscribe(key, uuid) => SubscribeStep(s, key, uuid)
    case Unsubscribe(key, uuid) => UnsubscribeStep(s, key, uuid)
  }

  ghost function Exec(s: State, ops: seq<Op>): State
  {
    if ops == [] then s else Step(Exec(s, ops[..|ops| - 1]), ops[|ops| - 1])
  }

  /** What callers must respect: deletes whose two readings agree, subscriptions without `*`. */
  predicate Supported(op: Op)
  {
    match op
    case Delete(key) => Agreeing(Split(key))
    case Subscribe(key, _) => !HasWildcard(key)
    case _ => true
  }

  /** Any delete pattern at all. */
  predicate Plain(op: Op)
  {
    op.Subscribe? ==> !HasWildcard(op.key)
  }

  predicate AllPlain(ops: seq<Op>)
  {
    forall i :: 0 <= i < |ops| ==> Plain(ops[i])
  }

  predicate AllSupported(ops: seq<Op>)
  {
    forall i :: 0 <= i < |ops| ==> Supported(ops[i])
  }

  // ---- the invariant ----

  /** The index holds at each path its own dotted key, and exactly the stored keys. */
  ghost predicate InSync(s: State)
  {
    && (forall k :: k in s.store ==> Split(k) in s.index && s.index[Split(k)] == k)
    && (forall p :: p in s.index ==> s.index[p] in s.store && Split(s.index[p]) == p)
  }

  /** Paths are storable and every open subscription has a log of its own. */
  ghost predicate Tidy(s: State)
  {
    && (forall p :: p in s.index ==> p != [] && WildcardFree(p))
    && (forall p :: p in s.live ==> p != [] && WildcardFree(p))
    && Below(s.live, |s.logs|) && Owned(s.live)
  }

  ghost predicate Inv(s: State)
  {
    InSync(s) && Tidy(s)
  }

  ghost function Empty(): State
  {
    State(map[], map[], map[], [])
  }

  /** Without a `*` the target and the nodes on the way are two separate groups. */
  lemma AboveIsTwoGroups(ks: set<Path>, parts: Path)
    requires WildcardFree(parts)
    ensures Above(ks, parts) == Reached(ks, parts) + OnTheWay(ks, parts)
    ensures Reached(ks, parts) !! OnTheWay(ks, parts)
    ensures Reached(ks, parts) == if parts in ks then {parts} else {}
  {
    forall p | p in ks ensures Reaches(parts, p) <==> p == parts { MatchesLiteral(parts, p); }
  }

  lemma SendAbove(live: Live, logs: Logs, parts: Path, m: Message)
    requires Owned(live) && WildcardFree(parts)
    ensures |Reached(live.Keys, parts)| <= 1
    ensures Send(Send(logs, Ids(live, Reached(live.Keys, parts)), m), Ids(live, OnTheWay(live.Keys, parts)), m) ==
            Send(logs, Ids(live, Above(live.Keys, parts)), m)
  {
    var target, way := Reached(live.Keys, parts), OnTheWay(live.Keys, parts);
    AboveIsTwoGroups(live.Keys, parts);
    IdsInTwo(live, target, way);
    SendInTwo(logs, Ids(live, target), Ids(live, way), m);
  }

  // ---- what one step does to one subscription ----

  /** Messages the step appends to the subscription open at `p` for `u`. */
  ghost function Sent(s: State, op: Op, p: Path, u: string): seq<Message>
  {
    match op
    case Put(key, value) => if Puttable(key) && p <= Split(key) then [Update(key, value)] else []
    case Delete(key) => if Reaches(Split(key), p) || p < Split(key) then [Close(key)] else []
    case Subscribe(_, _) => []
    case Unsubscribe(key, uuid) => if Reached(s.live.Keys, Split(key)) == {p} && u == uuid then [Close(key)] else []
  }

  /** Whether that subscription is still open afterwards. */
  ghost predicate Stays(s: State, op: Op, p: Path, u: string)
  {
    match op
    case Delete(key) => !Reaches(Split(key), p)
    case Unsubscribe(key, uuid) => !(Reached(s.live.Keys, Split(key)) == {p} && u == uuid)
    case _ => true
  }

  /** Nobody is subscribed under number `id` any more. */
  ghost predicate Gone(s: State, id: nat)
  {
    forall p, u :: Open(s, p, u) ==> s.live[p][u] != id
  }

  ghost predicate Delivered(s: State, op: Op, p: Path, u: string)
    requires Open(s, p, u) && s.live[p][u] < |s.logs|
  {
    var id, t := s.live[p][u], Step(s, op);
    && id < |t.logs| && t.logs[id] == s.logs[id] + Sent(s, op, p, u)
    && (Stays(s, op, p, u) ==> Open(t, p, u) && t.live[p][u] == id)
    && (!Stays(s, op, p, u) ==> Gone(t, id))
  }

  /** `id` belongs to exactly one open subscription. */
  lemma Owner(s: State, p: Path, u: string, ps: set<Path>)
    requires Tidy(s) && Open(s, p, u)
    ensures s.live[p][u] in Ids(s.live, ps) <==> p in ps
  {
    if s.live[p][u] in Ids(s.live, ps) {
      var q, v :| q in ps && Open(s, q, v) && s.live[q][v] == s.live[p][u];
    }
  }

  lemma DeleteDelivers(s: State, key: string, p: Path, u: string)
    requires Tidy(s) && Open(s, p, u)
    ensures Delivered(s, Delete(key), p, u)
  {
    hide Reaches;
    hide Matches;
    var parts, id, t := Split(key), s.live[p][u], DeleteStep(s, key);
    if Matches(parts, p) { MatchedIsReached(parts, p); }
    DeleteSends(s, key, p, u);
    LeftOver(s.live, Reached(s.live.Keys, parts), parts);
    if Reaches(parts, p) {
      forall q, v | Open(t, q, v) ensures t.live[q][v] != id {
        assert q != p;
        assert s.live[q][v] != s.live[p][u];
      }
    }
  }

  lemma DeleteSends(s: State, key: string, p: Path, u: string)
    requires Tidy(s) && Open(s, p, u)
    ensures s.live[p][u] < |s.logs|
    ensures DeleteStep(s, key).logs[s.live[p][u]] == s.logs[s.live[p][u]] + Sent(s, Delete(key), p, u)
  {
    hide Reaches;
    hide Matches;
    Owner(s, p, u, Reached(s.live.Keys, Split(key)) + OnTheWay(s.live.Keys, Split(key)));
  }

  /** Whoever is still subscribed after a delete was so before, under the same number, at a path that
      was not closed. */
  lemma LeftOver(live: Live, closed: set<Path>, parts: Path)
    ensures var after := Pruned(Drained(live, closed), parts);
            && (forall p, u :: p in after && u in after[p] ==>
                 p !in closed && p in live && u in live[p] && after[p][u] == live[p][u])
            && (forall p :: p in live && p !in closed && !Matches(parts, p) ==> p in after && after[p] == live[p])
  {
  }

  /** The one notifier that is hit loses one client, who is told. */
  lemma UnsubscribeHits(s: State, key: string, uuid: string, h: Path)
    requires Reached(s.live.Keys, Split(key)) == {h}
    ensures var t := UnsubscribeStep(s, key, uuid);
            && t.live == s.live[h := s.live[h] - {uuid}]
            && t.logs == Send(s.logs, if uuid in s.live[h] then {s.live[h][uuid]} else {}, Close(key))
  {
    var hit := Reached(s.live.Keys, Split(key));
    assert h in hit;
    assert (set q | q in hit && uuid in s.live[q] :: s.live[q][uuid]) ==
           if uuid in s.live[h] then {s.live[h][uuid]} else {};
  }

  /** Taking one client off one path: who is left, and whose number it was. */
  lemma OneLeaves(live: Live, h: Path, uuid: string, p: Path, u: string)
    requires Owned(live) && h in live && p in live && u in live[p]
    ensures live[p][u] in (if uuid in live[h] then {live[h][uuid]} else {}) <==> p == h && u == uuid
    ensures var after := live[h := live[h] - {uuid}];
            if p == h && u == uuid then forall q, v :: q in after && v in after[q] ==> after[q][v] != live[p][u]
            else p in after && u in after[p] && after[p][u] == live[p][u]
  {
  }

  lemma UnsubscribeDelivers(s: State, key: string, uuid: string, p: Path, u: string)
    requires Tidy(s) && Open(s, p, u)
    ensures Delivered(s, Unsubscribe(key, uuid), p, u)
  {
    hide Reaches;
    hide Split;
    hide PutStep;
    hide DeleteStep;
    hide SubscribeStep;
    var hit := Reached(s.live.Keys, Split(key));
    if |hit| == 1 {
      var h :| h in hit;
      Singleton(hit, h);
      assert hit == {p} <==> h == p;
      UnsubscribeHits(s, key, uuid, h);
      OneLeaves(s.live, h, uuid, p, u);
      hide UnsubscribeStep;
      hide Owned;
      hide Reached;
    }
  }

  /** Exact delivery, for every operation and every delete pattern: what it appends to each open
      subscription, and who leaves. */
  lemma StepDelivers(s: State, op: Op, p: Path, u: string)
    requires Tidy(s) && Open(s, p, u)
    ensures Delivered(s, op, p, u)
  {
    match op {
      case Put(key, value) => Owner(s, p, u, Above(s.live.Keys, Split(key)));
      case Delete(key) => DeleteDelivers(s, key, p, u);
      case Subscribe(key, uuid) =>
      case Unsubscribe(key, uuid) => UnsubscribeDelivers(s, key, uuid, p, u);
    }
  }

  lemma GoneFromIds(s: State, id: nat, ps: set<Path>)
    requires Gone(s, id)
    ensures id !in Ids(s.live, ps)
  {
    forall p, u | p in ps && Open(s, p, u) ensures s.live[p][u] != id { }
  }

  /** A closed subscription is closed for good. */
  lemma StepForgets(s: State, op: Op, id: nat)
    requires id < |s.logs| && Gone(s, id)
    ensures var t := Step(s, op);
            id < |t.logs| && t.logs[id] == s.logs[id] && Gone(t, id)
  {
    var t := Step(s, op);
    match op {
      case Put(key, value) =>
        GoneFromIds(s, id, Above(s.live.Keys, Split(key)));
      case Delete(key) =>
        GoneFromIds(s, id, Reached(s.live.Keys, Split(key)) + OnTheWay(s.live.Keys, Split(key)));
        forall p, u | Open(t, p, u) ensures Open(s, p, u) && t.live[p][u] == s.live[p][u] { }
      case Subscribe(key, uuid) =>
        forall p, u | Open(t, p, u) ensures t.live[p][u] != id { assert Open(s, p, u) ==> s.live[p][u] != id; }
      case Unsubscribe(key, uuid) =>
        forall p, u | Open(t, p, u) ensures Open(s, p, u) && t.live[p][u] == s.live[p][u] { }
    }
  }
}
