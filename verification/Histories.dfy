/** Whole histories of the object: what is proved of runs of the machine `Core`, carried to the heap. */
module Histories {
  import opened Wrappers
  import opened Paths
  import opened Messages
  import opened KeyPaths
  import opened Disks
  import opened StoreDisks
  import opened Engines
  import opened Notifications
  import opened Nkv
  import opened Subscriptions
  import opened Restart
  import Core
  import Runs

  /** The engine can hold what the operation stores. */
  predicate Accepted(e: Engine, op: Core.Op)
  {
    op.Put? && Core.Puttable(op.key) ==> e.Accepts(op.key)
  }

  predicate AllAccepted(e: Engine, ops: seq<Core.Op>)
  {
    forall i :: 0 <= i < |ops| ==> Accepted(e, ops[i])
  }

  /** One operation: the object takes the machine's step. */
  method Apply(core: NkvCore, op: Core.Op)
    requires core.Valid() && Core.Supported(op) && Accepted(core.storage, op)
    modifies core, core.mine, core.theirs, core.owned
    ensures core.Valid() && core.st == Core.Step(old(core.st), op)
    ensures fresh(core.mine - old(core.mine)) && fresh(core.theirs - old(core.theirs)) && old(core.chans) <= core.chans
  {
    hide NkvCore.Valid;
    hide NkvCore.Faithful;
    hide Engine.CrashSafe;
    hide Engine.CutSafe;
    hide Engine.Accepts;
    hide Core.PutStep;
    hide Core.DeleteStep;
    hide Core.SubscribeStep;
    hide Core.UnsubscribeStep;
    hide Core.Puttable;
    hide Core.Get;
    match op {
      case Put(key, value) => var _ := core.Put(key, value);
      case Delete(key) => var _ := core.Delete(key);
      case Subscribe(key, uuid) => var _ := core.Subscribe(key, uuid);
      case Unsubscribe(key, uuid) => var _ := core.Unsubscribe(key, uuid);
    }
  }

  /** A history: the object goes where the machine's run goes. */
  method ApplyAll(core: NkvCore, ops: seq<Core.Op>)
    requires core.Valid() && Core.AllSupported(ops) && AllAccepted(core.storage, ops)
    modifies core, core.mine, core.theirs, core.owned
    ensures core.Valid() && core.st == Core.Exec(old(core.st), ops)
    ensures fresh(core.mine - old(core.mine)) && fresh(core.theirs - old(core.theirs)) && old(core.chans) <= core.chans
  {
    hide NkvCore.Valid;
    var i := 0;
    while i < |ops|
      invariant 0 <= i <= |ops| && core.Valid() && core.st == Core.Exec(old(core.st), ops[..i])
      invariant fresh(core.mine - old(core.mine)) && fresh(core.theirs - old(core.theirs))
      invariant old(core.chans) <= core.chans
    {
      assert ops[..i + 1][..i] == ops[..i];
      Apply(core, ops[i]);
      i := i + 1;
    }
    assert ops[..i] == ops;
  }

  /** After any history a lookup answers what a flat map put through the same history answers. */
  method LookUpAfter(core: NkvCore, ops: seq<Core.Op>, pattern: string) returns (m: map<string, Bytes>)
    requires core.Valid() && Core.AllSupported(ops) && AllAccepted(core.storage, ops)
    modifies core, core.mine, core.theirs, core.owned
    ensures core.Valid() && m == Runs.FlatGet(Runs.FlatExec(old(core.storage.Map()), ops), pattern)
  {
    ghost var s := core.st;
    Runs.RunRefinesFlatMap(s, ops);
    ApplyAll(core, ops);
    hide NkvCore.Board;
    hide Core.Tidy;
    m := core.Get(pattern);
  }

  /** The channel of number `id` holds log `id`. */
  lemma ChannelHoldsLog(core: NkvCore, id: nat)
    requires core.Valid() && id < |core.chans|
    ensures id < |core.st.logs| && core.chans[id].log == core.st.logs[id]
  {
  }

  /** What a client finds in its channel, opened on `store` for `key` and followed through `ops`. */
  ghost predicate Tells(log: seq<Message>, before: map<string, Bytes>, key: string, ops: seq<Core.Op>,
                        isOpen: bool, store: map<string, Bytes>)
  {
    var head := [Hello] + if key in before then [Update(key, before[key])] else [];
    && head <= log && WellFormedTail(Split(key), log[|head|..], isOpen)
    && (isOpen ==> Mirrors(Replay(log), store, Split(key), PutKeys(ops)))
  }

  lemma LogTells(s: Core.State, key: string, uuid: string, ops: seq<Core.Op>)
    requires Core.Inv(s) && !HasWildcard(key) && !Core.Open(s, Split(key), uuid) && Core.AllSupported(ops)
    ensures var end, id := Core.Exec(Core.SubscribeStep(s, key, uuid), ops), |s.logs|;
            id < |end.logs| && Tells(end.logs[id], s.store, key, ops, !Core.Gone(end, id), end.store)
  {
    Opening(s, key, uuid);
    LogGrammar(s, key, uuid, ops);
    ReplayMirrorsStore(s, key, uuid, ops);
  }

  /** A client subscribes, and any history follows: its channel holds the opening messages, then a
      well-formed tail, and while it is open, replaying it gives back what is stored. */
  method Follow(core: NkvCore, key: string, uuid: string, ops: seq<Core.Op>) returns (tx: Channel)
    requires core.Valid() && !HasWildcard(key) && !Core.Open(core.st, Split(key), uuid)
    requires Core.AllSupported(ops) && AllAccepted(core.storage, ops)
    modifies core, core.mine, core.theirs, core.owned
    ensures core.Valid() && core.st == Core.Exec(Core.SubscribeStep(old(core.st), key, uuid), ops)
    ensures Tells(tx.log, old(core.storage.Map()), key, ops,
                  !Core.Gone(core.st, |old(core.st).logs|), core.storage.Map())
  {
    ghost var s, id := core.st, |core.chans|;
    StandsFor(core);
    hide NkvCore.Valid;
    hide Tells;
    hide Core.Exec;
    hide Core.SubscribeStep;
    tx := Enter(core, key, uuid);
    KeepGoing(core, tx, id, ops);
    TellsAfter(core, s, key, uuid, ops, tx);
  }

  /** The channel of a new client is the next one. */
  method Enter(core: NkvCore, key: string, uuid: string) returns (tx: Channel)
    requires core.Valid() && !HasWildcard(key) && !Core.Open(core.st, Split(key), uuid)
    modifies core, core.mine, core.theirs, core.owned
    ensures core.Valid() && core.st == Core.SubscribeStep(old(core.st), key, uuid)
    ensures fresh(core.mine - old(core.mine)) && core.theirs == old(core.theirs)
    ensures |core.chans| == |old(core.chans)| + 1 && core.chans[|old(core.chans)|] == tx
  {
    hide NkvCore.Valid;
    hide Core.SubscribeStep;
    var r := core.Subscribe(key, uuid);
    tx := r.value;
  }

  /** A history leaves the channels that are there in their places. */
  method KeepGoing(core: NkvCore, tx: Channel, ghost id: nat, ops: seq<Core.Op>)
    requires core.Valid() && Core.AllSupported(ops) && AllAccepted(core.storage, ops)
    requires id < |core.chans| && core.chans[id] == tx
    modifies core, core.mine, core.theirs, core.owned
    ensures core.Valid() && core.st == Core.Exec(old(core.st), ops)
    ensures id < |core.chans| && core.chans[id] == tx
  {
    ghost var before := core.chans;
    ApplyAll(core, ops);
    SamePlace(before, core.chans, id);
    hide *;
  }

  lemma SamePlace<A>(a: seq<A>, b: seq<A>, i: nat)
    requires a <= b && i < |a|
    ensures i < |b| && b[i] == a[i]
  {
  }

  lemma TellsAfter(core: NkvCore, s: Core.State, key: string, uuid: string, ops: seq<Core.Op>, tx: Channel)
    requires core.Valid() && core.st == Core.Exec(Core.SubscribeStep(s, key, uuid), ops)
    requires Core.Inv(s) && !HasWildcard(key) && !Core.Open(s, Split(key), uuid) && Core.AllSupported(ops)
    requires |s.logs| < |core.chans| && core.chans[|s.logs|] == tx
    ensures Tells(tx.log, s.store, key, ops, !Core.Gone(core.st, |s.logs|), core.storage.Map())
  {
    StandsFor(core);
    ChannelHoldsLog(core, |s.logs|);
    LogTells(s, key, uuid, ops);
    hide NkvCore.Valid;
    hide Tells;
    hide Core.Inv;
    hide Core.Exec;
  }

  lemma StandsFor(core: NkvCore)
    requires core.Valid()
    ensures core.storage.Map() == core.st.store && |core.chans| == |core.st.logs| && Core.Inv(core.st)
  {
  }

  /** Any history, then a put that a crash cuts short anywhere: the restarted core answers as the
      machine does without that put or with it. */
  method CrashAfter(core: NkvCore, ops: seq<Core.Op>, key: string, value: Bytes, at: nat) returns (again: NkvCore)
    requires core.Valid() && !core.storage.Memory? && Core.AllSupported(ops)
    requires AllAccepted(core.storage, ops) && Accepted(core.storage, Core.Put(key, value))
    modifies core, core.mine, core.theirs, core.owned
    ensures fresh(again) && again.Valid()
    ensures || AnswersLike(again.st, Core.Exec(old(core.st), ops), core.storage.Routed?)
            || AnswersLike(again.st, Core.Exec(old(core.st), ops + [Core.Put(key, value)]), core.storage.Routed?)
  {
    hide NkvCore.Valid;
    hide AnswersLike;
    ghost var s := core.st;
    ApplyAll(core, ops);
    again := CrashInPut(core, key, value, at);
    assert (ops + [Core.Put(key, value)])[..|ops|] == ops;
  }

  // ---- from the very beginning ----

  /** Nothing but an empty directory where the store is to be. */
  ghost predicate Blank(d: Disk, root: Path)
  {
    TreeDisk(d) && root in d && d[root].Dir? && forall p :: root < p ==> p !in d
  }

  lemma BlankIsStore(d: Disk, root: Path)
    requires Blank(d, root)
    ensures StoreDisk(d, root) && View(d, Digest(root)) == map[]
  {
    assert root < Digest(root) && root < Ingest(root);
    forall k ensures k !in View(d, Digest(root)) {
      ViewAt(d, Digest(root), k);
      if Acceptable(k) { FilesDiffer(Digest(root), k, k); }
    }
  }

  /** The keys that the run puts can be held: they begin with `runtime` and live in memory, or they name
      a file: no slash, no empty segment. */
  predicate Storable(key: string, routed: bool)
  {
    (routed && "runtime" <= key) || ('/' !in key && "" !in Split(key))
  }

  /** A server started on an empty directory, and any history: every lookup answers what a flat map,
      empty at first, answers after the same history. */
  method FromScratch(d: Disk, root: Path, routed: bool, ops: seq<Core.Op>, pattern: string)
    returns (m: map<string, Bytes>)
    requires Blank(d, root) && Core.AllSupported(ops)
    requires forall i :: 0 <= i < |ops| && ops[i].Put? && Core.Puttable(ops[i].key) ==> Storable(ops[i].key, routed)
    ensures m == Runs.FlatGet(Runs.FlatExec(map[], ops), pattern)
  {
    BlankIsStore(d, root);
    forall i | 0 <= i < |ops| && ops[i].Put?
      ensures Acceptable(ops[i].key) <==> '/' !in ops[i].key && "" !in Split(ops[i].key)
    {
      AcceptableExactly(ops[i].key);
    }
    hide View;
    hide StoreDisk;
    hide Blank;
    hide NkvCore.Valid;
    hide Acceptable;
    hide Core.AllSupported;
    var r := Boot(d, root, routed);
    var core := r.value;
    StandsFor(core);
    m := LookUpAfter(core, ops, pattern);
  }
}
