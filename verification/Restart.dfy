/** Crashes and restarts: whatever disk a crash leaves behind, starting again on it answers as if
    the interrupted put had either not begun or been finished. */
module Restart {
  import opened Wrappers
  import opened Paths
  import opened Messages
  import opened Disks
  import opened StoreDisks
  import opened Storage
  import opened Engines
  import opened Nkv
  import Core
  import Runs

  /** What a restart on the same kind of engine finds of a store. */
  ghost function Kept(m: map<string, Bytes>, routed: bool): map<string, Bytes>
  {
    if routed then Persistent(m) else m
  }

  /** The answer `a` without the keys that live in memory only. */
  ghost function KeptAnswer(a: map<string, Bytes>, routed: bool): map<string, Bytes>
  {
    map k | k in a && !(routed && IsRuntime(k)) :: a[k]
  }

  /** Starts a core over a disk image: `FileStorage::new`, fresh memory beside it if it is to route,
      then `NkvCore::new`. */
  method Boot(d: Disk, root: Path, routed: bool) returns (r: Result<NkvCore, NkvError>)
    requires StoreDisk(d, root)
    requires routed ==> forall k :: k in View(d, Digest(root)) ==> !IsRuntime(k)
    ensures r.Err? <==> exists k :: k in View(d, Digest(root)) && HasWildcard(k)
    ensures r.Ok? ==> fresh(r.value) && r.value.Valid() && r.value.st == Fresh(View(d, Digest(root)))
    ensures r.Ok? ==> r.value.storage.Root() == root
    ensures r.Ok? ==> if routed then r.value.storage.Routed? else r.value.storage.Files?
    ensures r.Ok? ==> fresh(r.value.mine + r.value.theirs + r.value.owned)
  {
    var engine := Mount(d, root, routed);
    r := NkvCore.New(engine);
  }

  /** The engine under it. */
  method Mount(d: Disk, root: Path, routed: bool) returns (engine: Engine)
    requires StoreDisk(d, root)
    requires routed ==> forall k :: k in View(d, Digest(root)) ==> !IsRuntime(k)
    ensures fresh(engine.Repr()) && engine.Valid() && engine.Map() == View(d, Digest(root))
    ensures engine.Root() == root && if routed then engine.Routed? else engine.Files?
  {
    hide Opened;
    hide View;
    var fs := new FileSystem(d);
    var r := FileStorage.Open(fs, root);
    var file := r.value;
    if routed {
      var mem := new MemoryStorage();
      var router := new RouterStorage(mem, file);
      assert mem.storage + file.Map() == file.Map();
      engine := Routed(router);
    } else {
      engine := Files(file);
    }
  }

  /** `t` answers every lookup as `s` did, less what a restart of a routing engine forgets. */
  ghost predicate AnswersLike(t: Core.State, s: Core.State, routed: bool)
  {
    forall pattern :: Core.Get(t, pattern) == KeptAnswer(Core.Get(s, pattern), routed)
  }

  /** A restarted core answers every lookup from what was kept of the store. */
  lemma KeptAnswers(s: Core.State, routed: bool)
    requires Core.Inv(s)
    ensures forall k :: k in Kept(s.store, routed) ==> !HasWildcard(k) && !(routed && IsRuntime(k))
    ensures AnswersLike(Fresh(Kept(s.store, routed)), s, routed)
  {
    var m := Kept(s.store, routed);
    forall k | k in m ensures !HasWildcard(k) {
      assert WildcardFree(Split(k));
      SplitWildcard(k);
    }
    FreshIsInv(m);
    forall pattern ensures Core.Get(Fresh(m), pattern) == KeptAnswer(Core.Get(s, pattern), routed) {
      Runs.GetIsFlat(s, pattern);
      Runs.GetIsFlat(Fresh(m), pattern);
    }
  }

  /** What is on disk is what a restart keeps. */
  ghost predicate OnDisk(core: NkvCore)
    reads core, core.storage.Repr()
  {
    var e := core.storage;
    && Sound(e.Disk(), e.Root())
    && View(e.Disk(), Digest(e.Root())) == e.Durable() == Kept(core.st.store, e.Routed?)
  }

  lemma FaithfulOnDisk(core: NkvCore)
    requires core.Faithful() && !core.storage.Memory?
    ensures OnDisk(core)
  {
    core.storage.DiskShows();
  }

  lemma DurableIsKept(core: NkvCore)
    requires core.Valid() && !core.storage.Memory?
    ensures OnDisk(core) && Core.Inv(core.st)
  {
    FaithfulOnDisk(core);
  }

  /** Restarting a core that is at rest: the same answers, less those that lived in memory only. */
  method RestartAtRest(core: NkvCore) returns (again: NkvCore)
    requires core.Valid() && !core.storage.Memory?
    ensures fresh(again) && again.Valid() && AnswersLike(again.st, core.st, core.storage.Routed?)
    ensures core.storage.Files? ==> forall pattern :: Core.Get(again.st, pattern) == Core.Get(core.st, pattern)
    ensures core.storage.Routed? ==> forall pattern, k ::
      && (k in Core.Get(again.st, pattern) <==> k in Core.Get(core.st, pattern) && !("runtime" <= k))
      && (k in Core.Get(again.st, pattern) ==> Core.Get(again.st, pattern)[k] == Core.Get(core.st, pattern)[k])
    ensures again.st.live == map[] && again.st.logs == []
  {
    DurableIsKept(core);
    KeptAnswers(core.st, core.storage.Routed?);
    var r := Boot(core.storage.Disk(), core.storage.Root(), core.storage.Routed?);
    again := r.value;
    LikeInWords(again.st, core.st, core.storage.Routed?);
  }

  /** The same answers, or the same but for the keys that begin with `runtime`. */
  lemma LikeInWords(t: Core.State, s: Core.State, routed: bool)
    requires AnswersLike(t, s, routed)
    ensures !routed ==> forall pattern :: Core.Get(t, pattern) == Core.Get(s, pattern)
    ensures routed ==> forall pattern, k ::
      && (k in Core.Get(t, pattern) <==> k in Core.Get(s, pattern) && !("runtime" <= k))
      && (k in Core.Get(t, pattern) ==> Core.Get(t, pattern)[k] == Core.Get(s, pattern)[k])
  {
    forall pattern ensures !routed ==> Core.Get(t, pattern) == Core.Get(s, pattern) {
      assert Core.Get(t, pattern) == KeptAnswer(Core.Get(s, pattern), routed);
    }
    forall pattern, k
      ensures routed ==> (k in Core.Get(t, pattern) <==> k in Core.Get(s, pattern) && !("runtime" <= k))
    {
      assert Core.Get(t, pattern) == KeptAnswer(Core.Get(s, pattern), routed);
    }
    hide Core.Get;
  }

  /** A put of which only the first `at` disk changes get through. */
  method CutShort(core: NkvCore, key: string, value: Bytes, at: nat) returns (d: Disk)
    requires core.Valid() && !core.storage.Memory? && (Core.Puttable(key) ==> core.storage.Accepts(key))
    modifies core, core.mine, core.theirs, core.owned
    ensures core.Valid() && core.st == Core.PutStep(old(core.st), key, value)
    ensures Sound(d, core.storage.Root())
    ensures at == 0 ==> View(d, Digest(core.storage.Root())) == Kept(old(core.st).store, core.storage.Routed?)
    ensures at > 0 && at >= |core.storage.Trail()| - |old(core.storage.Trail())| ==>
      View(d, Digest(core.storage.Root())) == Kept(core.st.store, core.storage.Routed?)
    ensures View(d, Digest(core.storage.Root())) in
      {Kept(old(core.st).store, core.storage.Routed?), Kept(core.st.store, core.storage.Routed?)}
  {
    hide NkvCore.Valid;
    hide Engine.Valid;
    hide Sound;
    hide View;
    hide Core.PutStep;
    DurableIsKept(core);
    d := core.storage.Disk();
    var from := |core.storage.Trail()|;
    var _ := core.Put(key, value);
    DurableIsKept(core);
    var trail := core.storage.Trail();
    if at > 0 {
      d := if at >= |trail| - from then core.storage.Disk() else trail[from + at - 1];
    }
  }

  /** A crash at any point of a put, on top of any history, and a restart on the disk it left. */
  method CrashInPut(core: NkvCore, key: string, value: Bytes, at: nat) returns (again: NkvCore)
    requires core.Valid() && !core.storage.Memory? && (Core.Puttable(key) ==> core.storage.Accepts(key))
    modifies core, core.mine, core.theirs, core.owned
    ensures core.Valid() && core.st == Core.PutStep(old(core.st), key, value)
    ensures fresh(again) && again.Valid()
    ensures || AnswersLike(again.st, old(core.st), core.storage.Routed?)
            || AnswersLike(again.st, core.st, core.storage.Routed?)
    ensures at == 0 ==> AnswersLike(again.st, old(core.st), core.storage.Routed?)
    ensures at > 0 && at >= |core.storage.Trail()| - |old(core.storage.Trail())| ==>
      AnswersLike(again.st, core.st, core.storage.Routed?)
  {
    hide NkvCore.Valid;
    hide AnswersLike;
    hide Kept;
    hide Sound;
    hide View;
    hide Core.PutStep;
    hide Core.Inv;
    DurableIsKept(core);
    KeptAnswers(core.st, core.storage.Routed?);
    var d := CutShort(core, key, value, at);
    DurableIsKept(core);
    KeptAnswers(core.st, core.storage.Routed?);
    SoundIsStore(d, core.storage.Root());
    var r := Boot(d, core.storage.Root(), core.storage.Routed?);
    again := r.value;
  }

  lemma SoundIsStore(d: Disk, root: Path)
    requires Sound(d, root)
    ensures StoreDisk(d, root)
  {
  }

  // ---- a delete cut short ----

  /** `t` answers every lookup as a restart of `s` would, but for some of the keys `gone`. */
  ghost predicate AnswersWithin(t: Core.State, s: Core.State, routed: bool, gone: set<string>)
  {
    forall pattern :: Within(Core.Get(t, pattern), KeptAnswer(Core.Get(s, pattern), routed), gone)
  }

  lemma CutAnswers(s: Core.State, m: map<string, Bytes>, routed: bool, gone: set<string>)
    requires Core.Inv(s) && Within(m, Kept(s.store, routed), gone)
    ensures forall k :: k in m ==> !HasWildcard(k) && !(routed && IsRuntime(k))
    ensures AnswersWithin(Fresh(m), s, routed, gone)
  {
    KeptAnswers(s, routed);
    FreshIsInv(m);
    forall pattern ensures Within(Core.Get(Fresh(m), pattern), KeptAnswer(Core.Get(s, pattern), routed), gone) {
      Runs.GetIsFlat(s, pattern);
      Runs.GetIsFlat(Fresh(m), pattern);
    }
  }

  /** A delete of which only the first `at` disk changes get through. */
  method DeleteCutShort(core: NkvCore, key: string, at: nat) returns (d: Disk)
    requires core.Valid() && !core.storage.Memory?
    modifies core, core.mine, core.theirs, core.owned
    ensures core.Faithful() && core.st == Core.DeleteStep(old(core.st), key)
    ensures Agreeing(Split(key)) ==> core.Valid()
    ensures Sound(d, core.storage.Root())
    ensures Within(View(d, Digest(core.storage.Root())), Kept(old(core.st).store, core.storage.Routed?),
                   Core.Get(old(core.st), key).Keys)
    ensures at == 0 ==> View(d, Digest(core.storage.Root())) == Kept(old(core.st).store, core.storage.Routed?)
    ensures at > 0 && at >= |core.storage.Trail()| - |old(core.storage.Trail())| ==>
      View(d, Digest(core.storage.Root())) == Kept(core.st.store, core.storage.Routed?)
  {
    DurableIsKept(core);
    hide NkvCore.Valid;
    hide NkvCore.Faithful;
    hide Sound;
    hide View;
    hide Core.DeleteStep;
    WithinItself(core.storage.Durable(), Core.Get(core.st, key).Keys);
    d := core.storage.Disk();
    var from := |core.storage.Trail()|;
    var _ := core.Delete(key);
    FaithfulOnDisk(core);
    var trail := core.storage.Trail();
    if at > 0 {
      d := if at >= |trail| - from then core.storage.Disk() else trail[from + at - 1];
    }
  }

  lemma WithinItself(m: map<string, Bytes>, gone: set<string>)
    ensures Within(m, m, gone)
  {
  }

  /** A crash at any point of a delete, and a restart on the disk it left: the old answers, less
      some of the keys that the pattern names; all of them before the first disk change, and after
      the last one what a restart of the finished core would answer. */
  method CrashInDelete(core: NkvCore, key: string, at: nat) returns (again: NkvCore)
    requires core.Valid() && !core.storage.Memory?
    modifies core, core.mine, core.theirs, core.owned
    ensures core.Faithful() && core.st == Core.DeleteStep(old(core.st), key)
    ensures fresh(again) && again.Valid()
    ensures AnswersWithin(again.st, old(core.st), core.storage.Routed?, Core.Get(old(core.st), key).Keys)
    ensures at == 0 ==> AnswersLike(again.st, old(core.st), core.storage.Routed?)
    ensures at > 0 && at >= |core.storage.Trail()| - |old(core.storage.Trail())| ==>
      && again.st == Fresh(Kept(core.st.store, core.storage.Routed?))
      && (Agreeing(Split(key)) ==> AnswersLike(again.st, core.st, core.storage.Routed?))
  {
    ghost var s := core.st;
    DurableIsKept(core);
    KeptAnswers(s, core.storage.Routed?);
    hide NkvCore.Valid;
    hide NkvCore.Faithful;
    hide AnswersWithin;
    hide AnswersLike;
    hide Within;
    hide Kept;
    hide Sound;
    hide View;
    hide Core.DeleteStep;
    hide Core.Inv;
    hide Core.Get;
    hide Fresh;
    hide OnDisk;
    var d := DeleteCutShort(core, key, at);
    AnswersAfter(core, Split(key));
    label Crash:
    again := BootCut(d, core.storage.Root(), core.storage.Routed?, s, Core.Get(s, key).Keys);
    assert unchanged@Crash(core) && unchanged@Crash(core.mine);
    assert unchanged@Crash(core.theirs) && unchanged@Crash(core.owned);
  }

  lemma AnswersAfter(core: NkvCore, parts: Path)
    requires core.Faithful() && !core.storage.Memory? && (Agreeing(parts) ==> core.Valid())
    ensures Agreeing(parts) ==>
      AnswersLike(Fresh(Kept(core.st.store, core.storage.Routed?)), core.st, core.storage.Routed?)
  {
    if Agreeing(parts) { KeptAnswers(core.st, core.storage.Routed?); }
  }

  /** A restart on a disk that shows what was kept of `s` less some of `gone`. */
  method BootCut(d: Disk, root: Path, routed: bool, ghost s: Core.State, ghost gone: set<string>)
    returns (again: NkvCore)
    requires Core.Inv(s) && Sound(d, root) && Within(View(d, Digest(root)), Kept(s.store, routed), gone)
    ensures fresh(again) && again.Valid() && again.st == Fresh(View(d, Digest(root)))
    ensures AnswersWithin(again.st, s, routed, gone)
  {
    CutAnswers(s, View(d, Digest(root)), routed, gone);
    SoundIsStore(d, root);
    var r := Boot(d, root, routed);
    again := r.value;
  }
}
