/** The core: two tries and a storage engine, proved step by step against the machine in `Core`. */
module Nkv {
  import opened Sets
  import opened Wrappers
  import opened Paths
  import opened Messages
  import opened Tries
  import opened Storage
  import opened Disks
  import opened Engines
  import opened Notifications
  import opened Subscriptions
  import Core
  import Runs

  class NkvCore {
    const notifiers: Trie<Notification>
    const objects: Trie<string>
    const storage: Engine
    ghost var st: Core.State         // what the heap stands for
    ghost var chans: seq<Channel>    // every channel ever opened, in order
    ghost var ends: set<Channel>     // the same as a set
    ghost var notes: set<Notification>  // every notifier there is or was
    ghost var mine: set<object>      // objects of the notifier side
    ghost var theirs: set<object>    // objects of the index
    ghost const owned: set<object>   // objects of the engine

    constructor (notifiers: Trie<Notification>, objects: Trie<string>, storage: Engine, ghost st: Core.State)
      ensures this.notifiers == notifiers && this.objects == objects && this.storage == storage
      ensures owned == storage.Repr() && theirs == objects.Repr() && mine == {notifiers} + notifiers.footprint
      ensures this.st == st && chans == [] && ends == {} && notes == {}
    {
      this.notifiers := notifiers;
      this.objects := objects;
      this.storage := storage;
      this.st := st;
      chans, ends, notes := [], {}, {};
      mine, theirs, owned := {notifiers} + notifiers.footprint, objects.Repr(), storage.Repr();
    }

    /** The notifier side of the heap stands for `live` and `logs`. */
    ghost predicate Subs(live: Core.Live, logs: Core.Logs)
      reads `mine, `notes, `ends, `chans, mine
    {
      && notifiers in mine && notifiers.footprint <= mine && notes <= mine && ends <= mine
      && notifiers.Valid()
      && Board(live, logs)
    }

    /** The same without the trie's own invariant. */
    ghost predicate Board(live: Core.Live, logs: Core.Logs)
      reads `notes, `ends, `chans, notifiers, notes, ends
    {
      Noted(live) && Logged(logs)
    }

    /** The channels hold the logs, each the one of its own number. */
    ghost predicate Logged(logs: Core.Logs)
      reads `ends, `chans, ends
    {
      && |chans| == |logs|
      && (forall c :: c in ends ==> c.number < |chans| && chans[c.number] == c && c.log == logs[c.number])
      && (forall i :: 0 <= i < |chans| ==> chans[i] in ends && chans[i].number == i)
    }

    /** One notifier object per path, holding the channels of that path's clients. */
    ghost predicate Noted(live: Core.Live)
      reads `notes, `ends, notifiers, notes
    {
      NotedBy(notifiers.contents, live, notes, ends)
    }

    static ghost predicate NotedBy(m: map<Path, Notification>, live: Core.Live,
                                   notes: set<Notification>, ends: set<Channel>)
      reads notes
    {
      && m.Keys == live.Keys
      && (forall n, u :: n in notes && u in n.subscriptions ==> n.subscriptions[u] in ends)
      && (forall p :: p in live ==> m[p] in notes && NoteOk(p, m[p], live[p]))
    }

    static lemma NoteAdded(m: map<Path, Notification>, live: Core.Live, notes: set<Notification>, ends: set<Channel>,
                           p: Path, n: Notification, uuid: string, tx: Channel)
      requires NotedBy(m, live, notes, ends) && p !in live
      requires n.home == p && n.subscriptions == map[uuid := tx] && tx.client == uuid
      ensures NotedBy(m[p := n], Core.Joined(live, p, uuid, tx.number), notes + {n}, ends + {tx})
    {
    }

    /** All of that but what concerns `n`, the notifier of `p`. */
    static ghost predicate NotedBut(m: map<Path, Notification>, live: Core.Live,
                                    notes: set<Notification>, ends: set<Channel>, p: Path, n: Notification)
      reads notes - {n}
    {
      && m.Keys == live.Keys && p in m && m[p] == n && n in notes
      && (forall x, u :: x in notes - {n} && u in x.subscriptions ==> x.subscriptions[u] in ends)
      && (forall q :: q in live && q != p ==> m[q] in notes - {n} && NoteOk(q, m[q], live[q]))
    }

    static lemma SetAside(m: map<Path, Notification>, live: Core.Live,
                          notes: set<Notification>, ends: set<Channel>, p: Path)
      requires NotedBy(m, live, notes, ends) && p in live
      ensures NotedBut(m, live, notes, ends, p, m[p]) && NoteOk(p, m[p], live[p])
      ensures forall u :: u in m[p].subscriptions ==> m[p].subscriptions[u] in ends
    {
      assert NoteOk(p, m[p], live[p]);
      forall q | q in live && q != p ensures m[q] in notes - {m[p]} { assert NoteOk(q, m[q], live[q]); }
    }

    static lemma PutBack(m: map<Path, Notification>, live: Core.Live, notes: set<Notification>,
                         ends: set<Channel>, p: Path, n: Notification, clients: map<string, nat>, more: set<Channel>)
      requires NotedBut(m, live, notes, ends, p, n) && NoteOk(p, n, clients) && ends <= more
      requires forall u :: u in n.subscriptions ==> n.subscriptions[u] in more
      ensures NotedBy(m, live[p := clients], notes, more)
    {
    }

    static ghost predicate NoteOk(p: Path, n: Notification, clients: map<string, nat>)
      reads n
    {
      && n.home == p && n.subscriptions.Keys == clients.Keys
      && (forall u :: u in clients ==> n.subscriptions[u].number == clients[u] && n.subscriptions[u].client == u)
    }

    /** `n` holds exactly the channels numbered `ids`. */
    ghost predicate Holds(n: Notification, ids: set<nat>)
      reads `ends, n
    {
      && n.Valid() && n.subscriptions.Values <= ends
      && (forall c :: c in ends ==> (c in n.subscriptions.Values <==> c.number in ids))
    }

    lemma ChannelsOf(p: Path, live: Core.Live, logs: Core.Logs)
      requires Board(live, logs) && p in live
      ensures Holds(notifiers.contents[p], Core.Ids(live, {p}))
    {
      var n, m := notifiers.contents[p], live[p];
      assert NoteOk(p, n, m) && n in notes;
      forall c | c in ends ensures c in n.subscriptions.Values <==> c.number in Core.Ids(live, {p}) {
        if c in n.subscriptions.Values {
          var u :| u in n.subscriptions && n.subscriptions[u] == c;
          assert m[u] == c.number;
        }
        if c.number in Core.Ids(live, {p}) {
          var u :| u in m && m[u] == c.number;
          assert n.subscriptions[u] in n.subscriptions.Values;
          assert chans[n.subscriptions[u].number] == n.subscriptions[u];
        }
      }
    }

    /** One notifier's message reaches exactly its own subscriptions. */
    method NotifyOne(n: Notification, ghost ids: set<nat>, m: Message, ghost live: Core.Live, ghost logs: Core.Logs)
      requires Board(live, logs) && Holds(n, ids)
      modifies ends
      ensures Board(live, Core.Send(logs, ids, m))
    {
      n.SendToAll(m);
    }

    method DropAll(n: Notification, ghost ids: set<nat>, key: string, ghost logs: Core.Logs)
      requires Logged(logs) && Holds(n, ids)
      modifies n, ends
      ensures Logged(Core.Send(logs, ids, Close(key))) && n.subscriptions == map[]
    {
      n.UnsubscribeAll(key);
    }

    /** Draining one notifier closes exactly its own subscriptions. */
    method CloseOne(n: Notification, ghost p: Path, ghost ids: set<nat>, key: string,
                    ghost live: Core.Live, ghost logs: Core.Logs)
      requires Board(live, logs) && p in live && notifiers.contents[p] == n && Holds(n, ids)
      modifies n, ends
      ensures Board(Core.Drained(live, {p}), Core.Send(logs, ids, Close(key)))
    {
      ghost var m := notifiers.contents;
      SetAside(m, live, notes, ends, p);
      hide Logged;
      hide NotedBy;
      hide NotedBut;
      DropAll(n, ids, key, logs);
      PutBack(m, live, notes, ends, p, n, map[], ends);
      assert Core.Drained(live, {p}) == live[p := map[]];
    }

    /** The loop that sends one message to each captured notifier. */
    method NotifyAll(ns: seq<Notification>, ghost ps: seq<Path>, ghost s: set<Path>, m: Message,
                     ghost live: Core.Live, ghost logs: Core.Logs)
      requires Board(live, logs) && Core.Owned(live) && Lists(ns, ps, notifiers.contents, s)
      modifies ends
      ensures Board(live, Core.Send(logs, Core.Ids(live, s), m))
    {
      ghost var done: set<Path> := {};
      assert Core.Ids(live, {}) == {};
      Core.SendToNone(logs, m);
      var i := 0;
      while i < |ns|
        invariant 0 <= i <= |ns| && multiset(ps[..i]) == multiset(done)
        invariant Board(live, Core.Send(logs, Core.Ids(live, done), m))
      {
        NextIsNew(ps, s, i, done);
        ChannelsOf(ps[i], live, Core.Send(logs, Core.Ids(live, done), m));
        NotifyOne(ns[i], Core.Ids(live, {ps[i]}), m, live, Core.Send(logs, Core.Ids(live, done), m));
        Core.IdsInTwo(live, done, {ps[i]});
        Core.SendInTwo(logs, Core.Ids(live, done), Core.Ids(live, {ps[i]}), m);
        done := done + {ps[i]};
        i := i + 1;
      }
      assert ps[..i] == ps;
      SameListing(done, s);
    }

    /** The loop that drains each collected notifier. */
    method CloseAll(ns: seq<Notification>, ghost ps: seq<Path>, ghost s: set<Path>, key: string,
                    ghost live: Core.Live, ghost logs: Core.Logs)
      requires Board(live, logs) && Core.Owned(live) && Lists(ns, ps, notifiers.contents, s)
      modifies notes, ends
      ensures Board(Core.Drained(live, s), Core.Send(logs, Core.Ids(live, s), Close(key)))
    {
      ghost var done: set<Path> := {};
      assert Core.Ids(live, {}) == {} && Core.Drained(live, {}) == live;
      Core.SendToNone(logs, Close(key));
      var i := 0;
      while i < |ns|
        invariant 0 <= i <= |ns| && multiset(ps[..i]) == multiset(done)
        invariant Board(Core.Drained(live, done), Core.Send(logs, Core.Ids(live, done), Close(key)))
      {
        NextIsNew(ps, s, i, done);
        ghost var now, sent := Core.Drained(live, done), Core.Send(logs, Core.Ids(live, done), Close(key));
        ChannelsOf(ps[i], now, sent);
        CloseOne(ns[i], ps[i], Core.Ids(now, {ps[i]}), key, now, sent);
        CloseRound(live, logs, done, ps[i], Close(key));
        done := done + {ps[i]};
        i := i + 1;
      }
      assert ps[..i] == ps;
      SameListing(done, s);
    }

    /** `match notifiers.len()`: no notifier is ignored, one is sent to. */
    method NotifyTarget(ns: seq<Notification>, ghost ps: seq<Path>, ghost s: set<Path>, m: Message,
                        ghost live: Core.Live, ghost logs: Core.Logs)
      requires Board(live, logs) && Core.Owned(live) && Lists(ns, ps, notifiers.contents, s) && |s| <= 1
      modifies ends
      ensures Board(live, Core.Send(logs, Core.Ids(live, s), m))
    {
      ShortListing(ns, ps, notifiers.contents, s);
      if |ns| == 1 {
        ChannelsOf(ps[0], live, logs);
        NotifyOne(ns[0], Core.Ids(live, s), m, live, logs);
      } else {
        assert |ns| == 0;  // "more than one value returned" is never logged
        assert s == {} && Core.Ids(live, {}) == {};
        Core.SendToNone(logs, m);
      }
    }

    /** The target's notifier, then those captured on the way. */
    method SendUpdates(key: string, value: Bytes, ghost live: Core.Live, ghost logs: Core.Logs)
      requires Subs(live, logs) && Core.Owned(live) && !HasWildcard(key)
      modifies ends
      ensures Subs(live, Core.Send(logs, Core.Ids(live, Above(live.Keys, Split(key))), Update(key, value)))
    {
      hide Trie.Valid;
      ghost var parts := Split(key);
      var m := Update(key, value);
      var ns, seen, ps := notifiers.GetMut(key);
      var captured, qs := notifiers.Capture(seen, parts);
      SplitWildcard(key);
      Core.SendAbove(live, logs, parts, m);
      ghost var target, way := Reached(live.Keys, parts), OnTheWay(live.Keys, parts);
      NotifyTarget(ns, ps, target, m, live, logs);
      NotifyAll(captured, qs, way, m, live, Core.Send(logs, Core.Ids(live, target), m));
    }

    // ---- the whole object ----

    /** The heap stands for `st`. */
    ghost predicate Faithful()
      reads this, mine, theirs, owned
    {
      && Apart() && objects in theirs && objects.footprint <= theirs
      && Subs(st.live, st.logs)
      && objects.Valid() && objects.contents == st.index
      && storage.Valid() && storage.Map() == st.store
      && Core.Tidy(st)
    }

    ghost predicate Valid()
      reads this, mine, theirs, owned
    {
      Faithful() && Core.InSync(st)
    }

    /** The notifier side and the engine as they are, apart from each other and from the index. */
    ghost predicate Apart()
      reads this
    {
      mine !! theirs !! owned && this !in mine && this !in theirs && this !in owned && storage.Repr() <= owned
    }

    method IndexKey(key: string)
      requires Apart() && Subs(st.live, st.logs) && storage.Valid()
      requires objects in theirs && objects.footprint <= theirs && objects.Valid()
      modifies theirs
      ensures Subs(st.live, st.logs) && storage.Valid()
      ensures storage.Map() == old(storage.Map()) && storage.Still()
      ensures objects.Valid() && fresh(objects.footprint - old(objects.footprint))
      ensures objects.contents ==
        if HasWildcard(key) then old(objects.contents) else old(objects.contents)[Split(key) := key]
    {
      hide Subs;
      hide Trie.Valid;
      var _ := objects.Insert(key, key);
      storage.Unmoved(owned);
    }

    method StoreValue(key: string, value: Bytes)
      requires Apart() && Subs(st.live, st.logs) && storage.Valid() && storage.Accepts(key)
      requires objects !in owned && objects.footprint !! owned && objects.Valid()
      modifies owned
      ensures Subs(st.live, st.logs) && objects.Valid()
      ensures storage.Valid() && storage.Map() == old(storage.Map())[key := value]
      ensures storage.CrashSafe()
    {
      storage.Put(key, value);
    }

    /** Index first, then store. */
    method IndexAndStore(key: string, value: Bytes)
      requires Faithful() && Core.Puttable(key) && storage.Accepts(key)
      modifies theirs, owned
      ensures Subs(st.live, st.logs) && storage.Valid() && objects.Valid()
      ensures objects.contents == st.index[Split(key) := key] && storage.Map() == st.store[key := value]
      ensures fresh(objects.footprint - old(objects.footprint))
      ensures storage.CrashSafe()
    {
      IndexKey(key);
      StoreValue(key, value);
    }

    method Announce(key: string, value: Bytes)
      requires Apart() && Subs(st.live, st.logs) && Core.Owned(st.live) && storage.Valid() && !HasWildcard(key)
      requires objects !in mine && objects.footprint !! mine && objects.Valid()
      modifies ends
      ensures Subs(st.live, Core.Send(st.logs, Core.Ids(st.live, Above(st.live.Keys, Split(key))), Update(key, value)))
      ensures objects.Valid() && storage.Valid()
      ensures storage.Map() == old(storage.Map()) && storage.Still()
    {
      SendUpdates(key, value, st.live, st.logs);
      storage.Unmoved(owned);
    }

    /** The heap has come to stand for `s`. */
    ghost method Commit(s: Core.State)
      requires Apart() && Subs(s.live, s.logs)
      requires objects in theirs
      requires objects.footprint !! mine && objects.footprint !! owned
      requires objects.Valid() && objects.contents == s.index
      requires storage.Valid() && storage.Map() == s.store && Core.Tidy(s)
      modifies this`st, this`theirs
      ensures Faithful() && st == s && theirs == old(theirs) + objects.footprint
      ensures objects.footprint <= old(theirs) ==> theirs == old(theirs)
    {
      hide Subs;
      hide Trie.Valid;
      st := s;
      theirs := theirs + objects.footprint;
    }

    method PutChecked(key: string, value: Bytes)
      requires Faithful() && Core.Puttable(key) && storage.Accepts(key) && Core.Tidy(Core.PutStep(st, key, value))
      modifies this`st, this`theirs, mine, theirs, owned
      ensures Faithful() && fresh(theirs - old(theirs)) && mine == old(mine) && chans == old(chans)
      ensures st == Core.PutStep(old(st), key, value)
      ensures storage.CrashSafe()
    {
      hide Subs;
      hide Trie.Valid;
      IndexAndStore(key, value);
      Announce(key, value);
      Commit(Core.PutStep(st, key, value));
    }

    /** Refuses wildcards and malformed keys; otherwise indexes, stores and notifies. */
    method Put(key: string, value: Bytes) returns (r: Result<(), NkvError>)
      requires Valid() && (Core.Puttable(key) ==> storage.Accepts(key))
      modifies this`st, this`theirs, mine, theirs, owned
      ensures Valid() && fresh(theirs - old(theirs)) && mine == old(mine) && chans == old(chans)
      ensures st == Core.PutStep(old(st), key, value)
      ensures r == if Core.Puttable(key) then Ok(()) else Err(WrongKey)
      ensures storage.CrashSafe()
    {
      if HasWildcard(key) || !Core.KeyCorrect(key) {
        return Err(WrongKey);
      }
      Runs.PutKeepsInv(st, key, value);
      PutChecked(key, value);
      r := Ok(());
    }

    /** Looks the pattern up in the index and reads each key it names from the store. */
    method Get(key: string) returns (m: map<string, Bytes>)
      requires Indexed(st.index) && Stored(st.store) && Core.InSync(st)
      ensures m == Core.Get(st, key)
    {
      hide Trie.Valid;
      hide Engine.Valid;
      var objs, ps := objects.Get(key);
      ghost var s := st;
      m := map[];
      var i := 0;
      while i < |objs|
        invariant 0 <= i <= |objs|
        invariant m == Answers(s, objs[..i])
      {
        assert ps[i] in s.index && objs[i] in s.store;
        storage.HeldIsAccepted(objs[i]);
        var v := storage.Get(objs[i]);
        AnswersNext(s, objs, i);
        m := m[objs[i] := v];
        i := i + 1;
      }
      AnswersAll(s, key, objs, ps);
    }

    /** Closes everyone the pattern reaches, and tells everyone strictly above it. A notifier that
        is both has been drained by the time it is told. */
    method CloseSubscribers(key: string, ghost live: Core.Live, ghost logs: Core.Logs)
      requires Subs(live, logs) && Core.Owned(live)
      modifies notes, ends
      ensures var closed, way := Reached(live.Keys, Split(key)), OnTheWay(live.Keys, Split(key));
              Subs(Core.Drained(live, closed), Core.Send(logs, Core.Ids(live, closed + way), Close(key)))
    {
      hide Trie.Valid;
      ghost var parts := Split(key);
      ghost var closed, way := Reached(live.Keys, parts), OnTheWay(live.Keys, parts);
      var ns, seen, ps := notifiers.GetMut(key);
      var captured, qs := notifiers.Capture(seen, parts);
      CloseAll(ns, ps, closed, key, live, logs);
      DrainedStaysOwned(live, closed);
      ghost var sent := Core.Send(logs, Core.Ids(live, closed), Close(key));
      NotifyAll(captured, qs, way, Close(key), Core.Drained(live, closed), sent);
      DrainedGetNoMore(live, logs, closed, way, Close(key));
    }

    method RemoveNotifiers(key: string, ghost live: Core.Live, ghost logs: Core.Logs)
      requires Subs(live, logs)
      modifies notifiers, notifiers.footprint
      ensures Subs(Pruned(live, Split(key)), logs)
    {
      var _ := notifiers.Remove(key);
    }

    /** The loop that deletes the collected keys from the store; no delete meets a missing key. */
    method DeleteStored(objs: seq<string>)
      requires storage.Valid() && storage.Repr() <= owned
      requires forall i, j :: 0 <= i < j < |objs| ==> objs[i] != objs[j]
      requires forall i :: 0 <= i < |objs| ==> objs[i] in storage.Map()
      modifies owned
      ensures storage.Valid() && storage.Map() == Less(old(storage.Map()), objs)
      ensures storage.CutSafe(Members(objs))
    {
      hide Engine.Valid;
      hide SafeFrom;
      hide CutFrom;
      hide Within;
      ghost var m, n, d := storage.Map(), |storage.Trail()|, storage.Durable();
      var i := 0;
      NothingCut(storage.Trail(), storage.Root(), d);
      assert objs[..0] == [] && Less(m, []) == m;
      while i < |objs|
        invariant 0 <= i <= |objs|
        invariant storage.Valid() && storage.Map() == Less(m, objs[..i])
        invariant storage.CutSafe(Members(objs[..i]))
      {
        LessNext(m, objs, i);
        storage.HeldIsAccepted(objs[i]);
        ghost var trail, before := storage.Trail(), storage.Durable();
        var r := storage.Delete(objs[i]);
        assert r.Ok?;  // the error branch is dead: index and store agree
        CutMore(trail, storage.Trail(), n, storage.Root(), d, Members(objs[..i]), before, objs[i]);
        assert Members(objs[..i + 1]) == Members(objs[..i]) + {objs[i]};
        i := i + 1;
      }
      assert objs[..i] == objs;
    }

    /** The index as it is, apart from the other two sides. */
    ghost predicate Indexed(index: map<Path, string>)
      reads `theirs, theirs
    {
      objects in theirs && objects.footprint <= theirs && objects.Valid() && objects.contents == index
    }

    ghost predicate Stored(store: map<string, Bytes>)
      reads owned
    {
      storage.Repr() <= owned && storage.Valid() && storage.Map() == store
    }

    /** First act of a delete: the subscribers. */
    method DeleteSubscribers(key: string)
      requires Faithful()
      modifies notes, ends
      ensures var closed, way := Reached(st.live.Keys, Split(key)), OnTheWay(st.live.Keys, Split(key));
              Subs(Core.Drained(st.live, closed), Core.Send(st.logs, Core.Ids(st.live, closed + way), Close(key)))
      ensures Indexed(st.index) && Stored(st.store) && storage.Still()
    {
      CloseSubscribers(key, st.live, st.logs);
      storage.Unmoved(owned);
    }

    /** Second act: the stored values. */
    method DeleteValues(key: string, ghost live: Core.Live, ghost logs: Core.Logs)
      requires Apart() && Subs(live, logs) && Indexed(st.index) && Stored(st.store) && Core.InSync(st)
      modifies owned
      ensures Subs(live, logs) && Indexed(st.index) && Stored(Core.DeleteStep(st, key).store)
      ensures storage.CutSafe(Core.Get(st, key).Keys)
    {
      hide Subs;
      hide Trie.Valid;
      var objs, ps := objects.Get(key);
      KeysApart(st, key, objs, ps);
      ListedKeys(st, key, objs, ps);
      assert Members(objs) == Core.Get(st, key).Keys;
      DeleteStored(objs);
    }

    /** Third act: the notifier trie. */
    method DeleteNotifiers(key: string, ghost live: Core.Live, ghost logs: Core.Logs,
                           ghost store: map<string, Bytes>)
      requires Apart() && Subs(live, logs) && Indexed(st.index) && Stored(store)
      modifies notifiers, notifiers.footprint
      ensures Subs(Pruned(live, Split(key)), logs) && Indexed(st.index) && Stored(store) && storage.Still()
    {
      RemoveNotifiers(key, live, logs);
      storage.Unmoved(owned);
    }

    /** Last act: the index. */
    method DeleteIndex(key: string, ghost live: Core.Live, ghost logs: Core.Logs,
                       ghost store: map<string, Bytes>)
      requires Apart() && Subs(live, logs) && Indexed(st.index) && Stored(store)
      modifies objects, objects.footprint
      ensures Subs(live, logs) && Indexed(Pruned(st.index, Split(key))) && Stored(store) && storage.Still()
    {
      hide Subs;
      hide Trie.Valid;
      var _ := objects.Remove(key);
      storage.Unmoved(owned);
    }

    method DeleteActs(key: string, ghost s: Core.State)
      requires Faithful() && Core.InSync(st) && s == Core.DeleteStep(st, key) && Core.Tidy(s)
      modifies this`st, this`theirs, mine, theirs, owned
      ensures Faithful() && st == s && storage.CutSafe(Core.Get(old(st), key).Keys)
      ensures theirs == old(theirs) && mine == old(mine) && chans == old(chans)
    {
      hide Trie.Valid;
      hide Board;
      hide Core.Tidy;
      hide Core.InSync;
      ghost var live := Core.Drained(st.live, Reached(st.live.Keys, Split(key)));
      DeleteSubscribers(key);
      DeleteValues(key, live, s.logs);
      DeleteNotifiers(key, live, s.logs, s.store);
      DeleteIndex(key, s.live, s.logs, s.store);
      Commit(s);
    }

    /** Never fails. Keeps the object valid when the pattern's two readings agree. */
    method Delete(key: string) returns (r: Result<(), NkvError>)
      requires Valid()
      modifies this`st, this`theirs, mine, theirs, owned
      ensures r == Ok(())
      ensures Faithful() && st == Core.DeleteStep(old(st), key)
      ensures theirs == old(theirs) && mine == old(mine) && chans == old(chans)
      ensures Agreeing(Split(key)) ==> Valid()
      ensures storage.CutSafe(Core.Get(old(st), key).Keys)
    {
      Runs.DeleteKeepsTidy(st, key);
      if Agreeing(Split(key)) { Runs.StepKeepsInv(st, Core.Delete(key)); }
      DeleteActs(key, Core.DeleteStep(st, key));
      r := Ok(());
    }

    /** The client's channel, if there is one, is closed and forgotten. */
    method DropClient(n: Notification, key: string, uuid: string, ghost ids: set<nat>, ghost logs: Core.Logs)
      requires Logged(logs)
      requires if uuid !in n.subscriptions then ids == {}
               else n.subscriptions[uuid] in ends && ids == {n.subscriptions[uuid].number}
      modifies n, ends
      ensures Logged(Core.Send(logs, ids, Close(key)))
      ensures n.subscriptions == old(n.subscriptions) - {uuid}
    {
      n.Unsubscribe(key, uuid);
      forall c | c in ends ensures c.log == Core.Send(logs, ids, Close(key))[c.number] {
        assert chans[c.number] == c && old(c.log) == logs[c.number];
      }
    }

    /** Taking one client off one notifier. */
    method UnsubscribeOne(n: Notification, ghost p: Path, key: string, uuid: string,
                          ghost live: Core.Live, ghost logs: Core.Logs)
      requires Board(live, logs) && p in live && notifiers.contents[p] == n
      modifies n, ends
      ensures Board(live[p := live[p] - {uuid}],
                   Core.Send(logs, if uuid in live[p] then {live[p][uuid]} else {}, Close(key)))
    {
      ghost var m := notifiers.contents;
      SetAside(m, live, notes, ends, p);
      hide Logged;
      hide NotedBy;
      hide NotedBut;
      DropClient(n, key, uuid, if uuid in live[p] then {live[p][uuid]} else {}, logs);
      PutBack(m, live, notes, ends, p, n, live[p] - {uuid}, ends);
    }

    /** A new channel is the next in order. */
    ghost method Enroll(tx: Channel, logs: Core.Logs)
      requires Logged(logs) && tx !in ends && tx.number == |logs| && tx.log == [Hello]
      modifies this`chans, this`ends
      ensures Logged(logs + [[Hello]]) && chans == old(chans) + [tx] && ends == old(ends) + {tx}
    {
      chans, ends := chans + [tx], ends + {tx};
    }

    /** A notifier with one client. */
    method OpenNote(ghost p: Path, uuid: string, ghost number: nat) returns (n: Notification, tx: Channel)
      ensures fresh(n) && fresh(tx) && n.home == p && n.subscriptions == map[uuid := tx]
      ensures tx.number == number && tx.client == uuid && tx.log == [Hello]
    {
      n := new Notification(p);
      var r := n.Subscribe(uuid, number);
      tx := r.value;
    }

    /** Into the trie with it. */
    method PlaceNote(key: string, n: Notification, ghost tx: Channel, ghost uuid: string,
                     ghost live: Core.Live, ghost logs: Core.Logs)
      requires notifiers.Valid() && Board(live, logs) && !HasWildcard(key) && Split(key) !in live
      requires n.home == Split(key) && n.subscriptions == map[uuid := tx]
      requires tx !in ends && tx.client == uuid && tx.number == |logs| && tx.log == [Hello]
      modifies this`chans, this`ends, this`notes, notifiers, notifiers.footprint
      ensures notifiers.Valid() && fresh(notifiers.footprint - old(notifiers.footprint))
      ensures Board(Core.Joined(live, Split(key), uuid, |logs|), logs + [[Hello]])
      ensures chans == old(chans) + [tx] && ends == old(ends) + {tx} && notes == old(notes) + {n}
    {
      hide Trie.Valid;
      hide Logged;
      ghost var m := notifiers.contents;
      var _ := notifiers.Insert(key, n);
      Record(Split(key), n, tx, uuid, m, live, logs);
    }

    ghost method Record(p: Path, n: Notification, tx: Channel, uuid: string, m: map<Path, Notification>,
                        live: Core.Live, logs: Core.Logs)
      requires notifiers.contents == m[p := n] && NotedBy(m, live, notes, ends) && Logged(logs) && p !in live
      requires n.home == p && n.subscriptions == map[uuid := tx]
      requires tx !in ends && tx.client == uuid && tx.number == |logs| && tx.log == [Hello]
      modifies this`chans, this`ends, this`notes
      ensures Board(Core.Joined(live, p, uuid, |logs|), logs + [[Hello]])
      ensures chans == old(chans) + [tx] && ends == old(ends) + {tx} && notes == old(notes) + {n}
    {
      NoteAdded(m, live, notes, ends, p, n, uuid, tx);
      Enroll(tx, logs);
      notes := notes + {n};
    }

    /** The new client of a path that had no notifier. */
    method SubscribeNew(key: string, uuid: string, ghost live: Core.Live, ghost logs: Core.Logs)
      returns (n: Notification, tx: Channel)
      requires notifiers.Valid() && Board(live, logs) && !HasWildcard(key) && Split(key) !in live
      modifies this`chans, this`ends, this`notes, notifiers, notifiers.footprint
      ensures notifiers.Valid() && fresh(notifiers.footprint - old(notifiers.footprint))
      ensures Board(Core.Joined(live, Split(key), uuid, |logs|), logs + [[Hello]])
      ensures fresh(n) && fresh(tx) && n.subscriptions == map[uuid := tx] && tx.number == |logs|
      ensures chans == old(chans) + [tx] && ends == old(ends) + {tx} && notes == old(notes) + {n}
    {
      n, tx := OpenNote(Split(key), uuid, |chans|);
      PlaceNote(key, n, tx, uuid, live, logs);
    }

    /** The new client of a path that has one. */
    method SubscribeMore(n: Notification, ghost p: Path, uuid: string, ghost live: Core.Live, ghost logs: Core.Logs)
      returns (r: Result<Channel, NkvError>)
      requires Board(live, logs) && p in live && notifiers.contents[p] == n
      modifies this`chans, this`ends, n
      ensures uuid in live[p] ==>
        r == Err(AlreadySubscribed(uuid)) && Board(live, logs) && chans == old(chans) && ends == old(ends)
      ensures uuid !in live[p] ==>
        && r.Ok? && fresh(r.value) && r.value.number == |logs|
        && chans == old(chans) + [r.value] && ends == old(ends) + {r.value}
        && n.subscriptions == old(n.subscriptions)[uuid := r.value]
        && Board(Core.Joined(live, p, uuid, |logs|), logs + [[Hello]])
    {
      ghost var m, was := notifiers.contents, ends;
      SetAside(m, live, notes, ends, p);
      NextInLine(logs);
      hide Logged;
      hide NotedBy;
      hide NotedBut;
      r := n.Subscribe(uuid, |chans|);
      if r.Ok? {
        Enroll(r.value, logs);
        PutBack(m, live, notes, was, p, n, live[p][uuid := |logs|], ends);
      } else {
        PutBack(m, live, notes, was, p, n, live[p], ends);
        assert live == live[p := live[p]];
      }
    }

    lemma NextInLine(logs: Core.Logs)
      requires Logged(logs)
      ensures |chans| == |logs|
    {
    }

    /** The notifier of the path, made if need be, with the new client on it. */
    method Join(key: string, uuid: string, ghost live: Core.Live, ghost logs: Core.Logs)
      returns (r: Result<(Notification, Channel), NkvError>)
      requires Subs(live, logs) && !HasWildcard(key)
      modifies this`chans, this`ends, this`notes, this`mine, mine
      ensures old(mine) <= mine && fresh(mine - old(mine)) && ends <= mine
      ensures Split(key) in live && uuid in live[Split(key)] ==>
        r == Err(AlreadySubscribed(uuid)) && Subs(live, logs) && chans == old(chans)
      ensures !(Split(key) in live && uuid in live[Split(key)]) ==>
        && r.Ok? && r.value.0 in notes && OnNote(r.value.0, uuid, r.value.1, |logs|)
        && chans == old(chans) + [r.value.1] && fresh(r.value.1)
        && Subs(Core.Joined(live, Split(key), uuid, |logs|), logs + [[Hello]])
    {
      hide Subs;
      hide Trie.Valid;
      SubsParts(Split(key), live, logs);
      var ns, _, ps := notifiers.GetMut(key);
      OneAtMost(live, key, ns, ps, notifiers.contents);
      if |ns| == 0 {
        var n, tx := JoinNew(key, uuid, live, logs);
        r := Ok((n, tx));
      } else {
        r := JoinMore(ns[0], Split(key), uuid, live, logs);
      }
    }

    lemma SubsParts(p: Path, live: Core.Live, logs: Core.Logs)
      requires Subs(live, logs)
      ensures notifiers in mine && notifiers.footprint <= mine && notes <= mine && ends <= mine && notifiers.Valid()
      ensures notifiers.contents.Keys == live.Keys
      ensures p in live ==> notifiers.contents[p] in notes
    {
    }

    /** `Join` where there is no notifier. */
    method JoinNew(key: string, uuid: string, ghost live: Core.Live, ghost logs: Core.Logs)
      returns (n: Notification, tx: Channel)
      requires Subs(live, logs) && !HasWildcard(key) && Split(key) !in live
      modifies this`chans, this`ends, this`notes, this`mine, notifiers, notifiers.footprint
      ensures old(mine) <= mine && fresh(mine - old(mine)) && ends <= mine
      ensures n in notes && OnNote(n, uuid, tx, |logs|) && chans == old(chans) + [tx] && fresh(tx)
      ensures Subs(Core.Joined(live, Split(key), uuid, |logs|), logs + [[Hello]])
    {
      hide Trie.Valid;
      hide Board;
      n, tx := SubscribeNew(key, uuid, live, logs);
      mine := mine + notifiers.footprint + {n, tx};
    }

    /** `Join` where there is a notifier. */
    method JoinMore(n: Notification, ghost p: Path, uuid: string, ghost live: Core.Live, ghost logs: Core.Logs)
      returns (r: Result<(Notification, Channel), NkvError>)
      requires Subs(live, logs) && p in live && notifiers.contents[p] == n && n in notes
      modifies this`chans, this`ends, this`mine, n
      ensures old(mine) <= mine && fresh(mine - old(mine)) && ends <= mine
      ensures uuid in live[p] ==> r == Err(AlreadySubscribed(uuid)) && Subs(live, logs) && chans == old(chans)
      ensures uuid !in live[p] ==>
        && r.Ok? && r.value.0 == n && OnNote(n, uuid, r.value.1, |logs|)
        && chans == old(chans) + [r.value.1] && fresh(r.value.1)
        && Subs(Core.Joined(live, p, uuid, |logs|), logs + [[Hello]])
    {
      hide Trie.Valid;
      hide Board;
      var t := SubscribeMore(n, p, uuid, live, logs);
      if t.Err? {
        return Err(t.error);
      }
      mine := mine + {t.value};
      r := Ok((n, t.value));
    }

    /** The client's channel on the notifier is the one of this number. */
    ghost predicate OnNote(n: Notification, uuid: string, tx: Channel, number: nat)
      reads n
    {
      uuid in n.subscriptions && n.subscriptions[uuid] == tx && tx.number == number
    }

    /** One message to one client. */
    method TellOne(n: Notification, uuid: string, ghost tx: Channel, ghost id: nat, key: string, value: Bytes,
                   ghost live: Core.Live, ghost logs: Core.Logs)
      requires Subs(live, logs) && n in notes && OnNote(n, uuid, tx, id) && id < |logs|
      modifies ends
      ensures Subs(live, logs[id := logs[id] + [Update(key, value)]]) && OnNote(n, uuid, tx, id)
    {
      assert tx in ends && n.subscriptions[uuid] == tx;
      var r := n.SendUpdateToSubscription(uuid, key, value);
    }

    /** The new client is sent what the store holds under its key. */
    method TellCurrent(n: Notification, uuid: string, ghost tx: Channel, ghost id: nat, key: string,
                       ghost live: Core.Live, ghost logs: Core.Logs)
      requires Apart() && Subs(live, logs) && n in notes && OnNote(n, uuid, tx, id) && id < |logs| && ends <= mine
      requires Indexed(st.index) && Stored(st.store) && Core.InSync(st) && !HasWildcard(key)
      modifies ends
      ensures Subs(live, Told(logs, id, Core.Get(st, key), {}, key))
      ensures Indexed(st.index) && Stored(st.store)
    {
      hide Subs;
      hide Trie.Valid;
      var m := Get(key);
      GetOfOne(st, key);
      TellEach(n, uuid, tx, id, key, m, live, logs);
      storage.Unmoved(owned);
    }

    /** The loop over the answer, which holds at most one pair. */
    method TellEach(n: Notification, uuid: string, ghost tx: Channel, ghost id: nat, ghost key: string,
                    m: map<string, Bytes>, ghost live: Core.Live, ghost logs: Core.Logs)
      requires Subs(live, logs) && n in notes && OnNote(n, uuid, tx, id) && id < |logs| && m.Keys <= {key}
      modifies ends
      ensures Subs(live, Told(logs, id, m, {}, key))
    {
      hide Subs;
      hide Trie.Valid;
      var todo := m.Keys;
      while todo != {}
        invariant todo <= m.Keys
        invariant Subs(live, Told(logs, id, m, todo, key)) && OnNote(n, uuid, tx, id)
      {
        var k :| k in todo;
        assert k == key && todo == {key};
        TellOne(n, uuid, tx, id, k, m[k], live, logs);
        todo := todo - {k};
      }
    }

    /** Opens a channel for the client, greets it and sends what is stored under the key. */
    method Subscribe(key: string, uuid: string) returns (r: Result<Channel, NkvError>)
      requires Valid() && !HasWildcard(key)
      modifies this`chans, this`ends, this`notes, this`mine, this`st, this`theirs, mine
      ensures Valid() && old(mine) <= mine && fresh(mine - old(mine)) && theirs == old(theirs)
      ensures st == Core.SubscribeStep(old(st), key, uuid)
      ensures r.Err? ==> r == Err(AlreadySubscribed(uuid)) && chans == old(chans)
      ensures r.Ok? ==> fresh(r.value) && chans == old(chans) + [r.value]
      ensures r.Ok? <==> !Core.Open(old(st), Split(key), uuid)
    {
      hide Subs;
      hide Trie.Valid;
      hide Core.Tidy;
      hide Core.InSync;
      ghost var s := st;
      Runs.StepKeepsInv(s, Core.Subscribe(key, uuid));
      var t := Join(key, uuid, s.live, s.logs);
      storage.Unmoved(owned);
      if t.Err? {
        return Err(t.error);
      }
      var (n, tx) := t.value;
      ghost var next := Core.SubscribeStep(s, key, uuid);
      TellCurrent(n, uuid, tx, |s.logs|, key, next.live, s.logs + [[Hello]]);
      ToldFirst(s, key);
      Commit(next);
      r := Ok(tx);
    }

    /** Takes the client off the one notifier that the key names; any other number of hits is an error. */
    method Unsubscribe(key: string, uuid: string) returns (r: Result<(), NkvError>)
      requires Valid()
      modifies this`st, this`theirs, mine
      ensures Valid() && theirs == old(theirs) && mine == old(mine) && chans == old(chans)
      ensures st == Core.UnsubscribeStep(old(st), key, uuid)
      ensures r == if |Reached(old(st).live.Keys, Split(key))| == 1 then Ok(()) else Err(KeyNotFound)
    {
      ghost var s := st;
      Runs.StepKeepsInv(s, Core.Unsubscribe(key, uuid));
      hide Core.UnsubscribeStep;
      hide Core.Tidy;
      hide Core.InSync;
      hide Subs;
      hide Trie.Valid;
      SubsParts(Split(key), s.live, s.logs);
      var ns, _, ps := notifiers.GetMut(key);
      ShortListing(ns, ps, notifiers.contents, Reached(s.live.Keys, Split(key)));
      if |ns| != 1 {
        UnsubscribedNone(s, key, uuid);
        return Err(KeyNotFound);
      }
      LeaveOne(ns[0], ps[0], key, uuid, Core.UnsubscribeStep(s, key, uuid));
      r := Ok(());
    }

    method LeaveOne(n: Notification, ghost p: Path, key: string, uuid: string, ghost next: Core.State)
      requires Valid() && Reached(st.live.Keys, Split(key)) == {p} && p in st.live && notifiers.contents[p] == n
      requires next == Core.UnsubscribeStep(st, key, uuid) && Core.Inv(next)
      modifies this`st, this`theirs, mine
      ensures Valid() && st == next && theirs == old(theirs) && mine == old(mine) && chans == old(chans)
    {
      hide Subs;
      hide Trie.Valid;
      Core.UnsubscribeHits(st, key, uuid, p);
      hide Core.UnsubscribeStep;
      Leave(n, p, key, uuid, st.live, st.logs);
      storage.Unmoved(owned);
      Commit(next);
    }

    method Leave(n: Notification, ghost p: Path, key: string, uuid: string,
                 ghost live: Core.Live, ghost logs: Core.Logs)
      requires Subs(live, logs) && p in live && notifiers.contents[p] == n
      modifies mine
      ensures Subs(live[p := live[p] - {uuid}],
                   Core.Send(logs, if uuid in live[p] then {live[p][uuid]} else {}, Close(key)))
    {
      hide Trie.Valid;
      UnsubscribeOne(n, p, key, uuid, live, logs);
    }

    /** The clients of one notifier, in the hash map's unspecified order. */
    method ClientsOf(n: Notification, ghost p: Path, ghost live: Core.Live)
      returns (r: seq<string>, ghost subs: seq<(Path, string)>)
      requires p in live && NoteOk(p, n, live[p])
      ensures Named(r, subs) && multiset(subs) == multiset(SubsAt(live, {p}))
    {
      r, subs := [], [];
      var all := n.subscriptions.Keys;
      var todo := all;
      assert ClientsAt(p, all - todo) == {};
      while todo != {}
        invariant todo <= all
        invariant Named(r, subs) && multiset(subs) == multiset(ClientsAt(p, all - todo))
      {
        var u :| u in todo;
        TakeOne(all, todo, u);
        OneMoreClient(p, all - todo, u);
        r, subs := r + [u], subs + [(p, u)];
        todo := todo - {u};
      }
      assert all - todo == all;
      assert ClientsAt(p, all) == SubsAt(live, {p});
    }

    /** The clients of each of the notifiers. */
    method ClientsOfAll(ns: seq<Notification>, ghost ps: seq<Path>, ghost s: set<Path>,
                        ghost live: Core.Live)
      returns (r: seq<string>, ghost subs: seq<(Path, string)>)
      requires Noted(live) && Lists(ns, ps, notifiers.contents, s)
      ensures Named(r, subs) && multiset(subs) == multiset(SubsAt(live, s))
    {
      r, subs := [], [];
      ghost var done: set<Path> := {};
      assert SubsAt(live, {}) == {};
      var i := 0;
      while i < |ns|
        invariant 0 <= i <= |ns| && multiset(ps[..i]) == multiset(done)
        invariant Named(r, subs) && multiset(subs) == multiset(SubsAt(live, done))
      {
        NextIsNew(ps, s, i, done);
        var more, those := ClientsOf(ns[i], ps[i], live);
        MoreClients(live, done, ps[i]);
        r, subs := r + more, subs + those;
        done := done + {ps[i]};
        i := i + 1;
      }
      assert ps[..i] == ps;
      SameListing(done, s);
    }

    /** The clients that a put of the key would notify: first the target's, then those on the way. */
    method Trace(key: string) returns (r: seq<string>, ghost subs: seq<(Path, string)>)
      requires Valid()
      ensures Named(r, subs)
      ensures multiset(subs) == multiset(SubsAt(st.live, Reached(st.live.Keys, Split(key)))) +
                                multiset(SubsAt(st.live, OnTheWay(st.live.Keys, Split(key))))
    {
      hide Trie.Valid;
      hide Core.Tidy;
      ghost var parts := Split(key);
      var ns, seen, ps := notifiers.GetMut(key);
      var captured, qs := notifiers.Capture(seen, parts);
      var a, sa := ClientsOfAll(ns, ps, Reached(st.live.Keys, parts), st.live);
      var b, sb := ClientsOfAll(captured, qs, OnTheWay(st.live.Keys, parts), st.live);
      r, subs := a + b, sa + sb;
    }

    /** An object without subscribers stands for a freshly started core. */
    lemma Started()
      requires Apart() && Indexed(st.index) && Stored(st.store) && Core.Inv(st)
      requires notifiers in mine && notifiers.footprint <= mine && notifiers.Valid() && notifiers.contents == map[]
      requires st.live == map[] && st.logs == [] && chans == [] && ends == {} && notes == {}
      ensures Valid()
    {
    }

    /** Rebuilds the index from the keys the engine lists; refuses a store that holds a key with a `*`. */
    static method New(storage: Engine) returns (r: Result<NkvCore, NkvError>)
      requires storage.Valid()
      ensures r.Err? <==> exists k :: k in storage.Map() && HasWildcard(k)
      ensures r.Ok? ==> fresh(r.value) && r.value.storage == storage && r.value.Valid()
      ensures r.Ok? ==> r.value.st == Fresh(storage.Map())
      ensures r.Ok? ==> r.value.chans == [] && fresh(r.value.mine + r.value.theirs) && r.value.owned == storage.Repr()
    {
      hide Trie.Valid;
      hide Engine.Valid;
      hide Engine.Map;
      var keys := storage.Keys();
      SameMembers(keys, storage.Map().Keys);
      label L:
      var objects := IndexAll(keys);
      storage.Unmoved@L(storage.Repr());
      if objects.None? {
        return Err(IoError);
      }
      var notifiers := new Trie<Notification>();
      storage.Unmoved@L(storage.Repr());
      FreshIsInv(storage.Map());
      var core := new NkvCore(notifiers, objects.value, storage, Fresh(storage.Map()));
      core.Started();
      r := Ok(core);
    }

    /** The loop over the listed keys; stops at the first that the trie refuses. */
    static method IndexAll(keys: seq<string>) returns (r: Option<Trie<string>>)
      ensures r.None? <==> exists k :: k in keys && HasWildcard(k)
      ensures r.Some? ==> fresh(r.value.Repr()) && r.value.Valid() && r.value.contents == IndexOf(Members(keys))
    {
      hide Trie.Valid;
      var objects := new Trie<string>();
      var i := 0;
      assert IndexOf(Members(keys[..0])) == map[];
      while i < |keys|
        invariant 0 <= i <= |keys|
        invariant objects.Valid() && fresh(objects.Repr())
        invariant objects.contents == IndexOf(Members(keys[..i]))
        invariant forall k :: k in keys[..i] ==> !HasWildcard(k)
      {
        var e := objects.Insert(keys[i], keys[i]);
        if e.Some? {
          return None;
        }
        OneMoreKey(keys, i);
        assert keys[..i + 1] == keys[..i] + [keys[i]];
        i := i + 1;
      }
      assert keys[..i] == keys;
      r := Some(objects);
    }
  }

  lemma UnsubscribedNone(s: Core.State, key: string, uuid: string)
    requires |Reached(s.live.Keys, Split(key))| != 1
    ensures Core.UnsubscribeStep(s, key, uuid) == s
  {
  }

  /** `r` names the clients of the subscriptions `subs`. */
  ghost predicate Named(r: seq<string>, subs: seq<(Path, string)>)
  {
    |r| == |subs| && forall i :: 0 <= i < |r| ==> r[i] == subs[i].1
  }

  ghost function ClientsAt(p: Path, us: set<string>): set<(Path, string)>
  {
    set u | u in us :: (p, u)
  }

  lemma OneMoreClient(p: Path, us: set<string>, u: string)
    requires u !in us
    ensures multiset(ClientsAt(p, us + {u})) == multiset(ClientsAt(p, us)) + multiset{(p, u)}
  {
    assert ClientsAt(p, us + {u}) == ClientsAt(p, us) + {(p, u)};
  }

  lemma MoreClients(live: Core.Live, done: set<Path>, p: Path)
    requires p !in done
    ensures multiset(SubsAt(live, done + {p})) == multiset(SubsAt(live, done)) + multiset(SubsAt(live, {p}))
  {
    assert SubsAt(live, done + {p}) == SubsAt(live, done) + SubsAt(live, {p});
    assert SubsAt(live, done) !! SubsAt(live, {p});
  }

  // ---- starting up ----

  /** The index of a set of keys. */
  ghost function IndexOf(ks: set<string>): map<Path, string>
  {
    map p | p in (set k | k in ks :: Split(k)) :: Dotted(p)
  }

  /** A core that has just been started over a store. */
  ghost function Fresh(store: map<string, Bytes>): Core.State
  {
    Core.State(store, IndexOf(store.Keys), map[], [])
  }

  lemma FreshIsInv(store: map<string, Bytes>)
    requires forall k :: k in store ==> !HasWildcard(k)
    ensures Core.Inv(Fresh(store))
  {
    var s := Fresh(store);
    forall k | k in store ensures Split(k) in s.index && s.index[Split(k)] == k { SplitDotted(k); }
    forall p | p in s.index ensures s.index[p] in store && Split(s.index[p]) == p && p != [] && WildcardFree(p) {
      var k :| k in store && Split(k) == p;
      SplitDotted(k);
      SplitWildcard(k);
    }
  }

  ghost function Members<A>(xs: seq<A>): set<A>
  {
    set x | x in xs
  }

  lemma OneMoreKey(keys: seq<string>, i: nat)
    requires i < |keys|
    ensures IndexOf(Members(keys[..i + 1])) == IndexOf(Members(keys[..i]))[Split(keys[i]) := keys[i]]
  {
    assert keys[..i + 1] == keys[..i] + [keys[i]];
    SplitDotted(keys[i]);
    var a, b := IndexOf(Members(keys[..i + 1])), IndexOf(Members(keys[..i]))[Split(keys[i]) := keys[i]];
    forall p ensures p in a <==> p in b {
      if p in a {
        var k :| k in keys[..i + 1] && Split(k) == p;
      }
    }
  }

  lemma SameMembers<A>(xs: seq<A>, s: set<A>)
    requires multiset(xs) == multiset(s)
    ensures Members(xs) == s
  {
    forall x ensures x in xs <==> x in s { assert x in multiset(xs) <==> x in multiset(s); }
  }

  /** A key without a `*` has at most one notifier. */
  lemma OneAtMost<T>(live: Core.Live, key: string, r: seq<T>, ps: seq<Path>, m: map<Path, T>)
    requires m.Keys == live.Keys && !HasWildcard(key) && Lists(r, ps, m, Reached(m.Keys, Split(key)))
    ensures |r| == if Split(key) in live then 1 else 0
    ensures |r| == 1 ==> r[0] == m[Split(key)]
  {
    SplitWildcard(key);
    Core.AboveIsTwoGroups(m.Keys, Split(key));
    ShortListing(r, ps, m, Reached(m.Keys, Split(key)));
  }

  /** `logs` with the pair under `key` sent to `id`, once it is no longer to do. */
  ghost function Told(logs: Core.Logs, id: nat, m: map<string, Bytes>, todo: set<string>, key: string): Core.Logs
    requires id < |logs|
  {
    if key in m && key !in todo then logs[id := logs[id] + [Update(key, m[key])]] else logs
  }

  lemma GetOfOne(s: Core.State, key: string)
    requires Core.InSync(s) && !HasWildcard(key)
    ensures Core.Get(s, key).Keys <= {key}
  {
    SplitWildcard(key);
    Core.AboveIsTwoGroups(s.index.Keys, Split(key));
    forall k | k in Core.Get(s, key) ensures k == key {
      SplitInjective(k, key);
    }
  }

  lemma ToldFirst(s: Core.State, key: string)
    ensures Told(s.logs + [[Hello]], |s.logs|, Core.Get(s, key), {}, key) == s.logs + [Core.FirstMessages(s, key)]
  {
    assert [Hello] + [] == [Hello];
  }

  /** The keys a lookup names are stored, and no two are the same. */
  lemma KeysApart(s: Core.State, key: string, objs: seq<string>, ps: seq<Path>)
    requires Core.InSync(s) && Lists(objs, ps, s.index, Reached(s.index.Keys, Split(key)))
    ensures forall i, j :: 0 <= i < j < |objs| ==> objs[i] != objs[j]
    ensures forall i :: 0 <= i < |objs| ==> objs[i] in s.store
    ensures Less(s.store, objs) == Core.DeleteStep(s, key).store
  {
    forall i, j | 0 <= i < j < |objs| ensures objs[i] != objs[j] {
      assert Split(objs[i]) == ps[i] && Split(objs[j]) == ps[j];
      Distinct(ps, Reached(s.index.Keys, Split(key)), i, j);
    }
    ListedKeys(s, key, objs, ps);
  }

  lemma NothingCut(trail: seq<Disk>, root: Path, m: map<string, Bytes>)
    ensures CutFrom(trail, |trail|, root, m, Members([])) && Within(m, m, Members([]))
  {
  }

  /** `m` without the keys listed. */
  ghost function Less(m: map<string, Bytes>, ks: seq<string>): map<string, Bytes>
  {
    m - (set k | k in ks)
  }

  lemma LessNext(m: map<string, Bytes>, ks: seq<string>, i: nat)
    requires i < |ks| && ks[i] in m
    requires forall a, b :: 0 <= a < b < |ks| ==> ks[a] != ks[b]
    ensures ks[i] in Less(m, ks[..i]) && Less(m, ks[..i + 1]) == Less(m, ks[..i]) - {ks[i]}
  {
    assert ks[..i + 1] == ks[..i] + [ks[i]];
  }

  lemma DrainedStaysOwned(live: Core.Live, done: set<Path>)
    requires Core.Owned(live)
    ensures Core.Owned(Core.Drained(live, done))
  {
    var d := Core.Drained(live, done);
    forall p, u | p in d && u in d[p] ensures u in live[p] && d[p][u] == live[p][u] { }
  }

  lemma DrainedGetNoMore(live: Core.Live, logs: Core.Logs, a: set<Path>, b: set<Path>, m: Message)
    requires Core.Owned(live)
    ensures Core.Send(Core.Send(logs, Core.Ids(live, a), m), Core.Ids(Core.Drained(live, a), b), m) ==
            Core.Send(logs, Core.Ids(live, a + b), m)
  {
    var d := Core.Drained(live, a);
    forall id ensures id in Core.Ids(d, b) <==> id in Core.Ids(live, b - a) {
      if id in Core.Ids(live, b - a) {
        var p, u :| p in b - a && p in live && u in live[p] && live[p][u] == id;
        assert d[p][u] == id;
      }
      if id in Core.Ids(d, b) {
        var p, u :| p in b && p in d && u in d[p] && d[p][u] == id;
        assert live[p][u] == id;
      }
    }
    assert a + b == a + (b - a);
    Core.IdsInTwo(live, a, b - a);
    Core.SendInTwo(logs, Core.Ids(live, a), Core.Ids(live, b - a), m);
  }

  /** The pairs that the keys `ks` name. */
  ghost function Answers(s: Core.State, ks: seq<string>): map<string, Bytes>
  {
    map k | k in ks :: if k in s.store then s.store[k] else []
  }

  lemma AnswersNext(s: Core.State, ks: seq<string>, i: nat)
    requires i < |ks| && ks[i] in s.store
    ensures Answers(s, ks[..i + 1]) == Answers(s, ks[..i])[ks[i] := s.store[ks[i]]]
  {
    assert ks[..i + 1] == ks[..i] + [ks[i]];
  }

  /** The keys listed are the keys found. */
  lemma ListedKeys(s: Core.State, key: string, ks: seq<string>, ps: seq<Path>)
    requires Lists(ks, ps, s.index, Reached(s.index.Keys, Split(key)))
    ensures (set k | k in ks) == set p | p in Reached(s.index.Keys, Split(key)) :: s.index[p]
  {
    var reached := Reached(s.index.Keys, Split(key));
    var found := set p | p in reached :: s.index[p];
    forall k ensures k in ks <==> k in found {
      if k in ks {
        var i :| 0 <= i < |ks| && ks[i] == k;
        assert ps[i] in multiset(ps);
      }
      if k in found {
        var p :| p in reached && s.index[p] == k;
        assert p in multiset(reached);
        var i :| 0 <= i < |ps| && ps[i] == p;
      }
    }
  }

  lemma AnswersAll(s: Core.State, key: string, ks: seq<string>, ps: seq<Path>)
    requires Lists(ks, ps, s.index, Reached(s.index.Keys, Split(key)))
    ensures Answers(s, ks[..|ks|]) == Core.Get(s, key)
  {
    assert ks[..|ks|] == ks;
    ListedKeys(s, key, ks, ps);
    forall k ensures k in ks <==> k in (set x | x in ks) { }
  }

  /** A listing of at most one path. */
  lemma ShortListing<T>(r: seq<T>, ps: seq<Path>, m: map<Path, T>, s: set<Path>)
    requires Lists(r, ps, m, s)
    ensures |r| == |s|
    ensures |r| == 1 ==> s == {ps[0]} && r[0] == m[ps[0]]
  {
    assert |multiset(ps)| == |ps| && |multiset(s)| == |s|;
    if |r| == 1 {
      assert ps == [ps[0]] && ps[0] in multiset(ps);
      Singleton(s, ps[0]);
    }
  }

  lemma CloseRound(live: Core.Live, logs: Core.Logs, done: set<Path>, p: Path, m: Message)
    requires Core.Owned(live) && p !in done
    ensures var now := Core.Drained(live, done);
            && Core.Drained(now, {p}) == Core.Drained(live, done + {p})
            && Core.Send(Core.Send(logs, Core.Ids(live, done), m), Core.Ids(now, {p}), m) ==
               Core.Send(logs, Core.Ids(live, done + {p}), m)
  {
    DrainedIds(live, done, p);
    Core.IdsInTwo(live, done, {p});
    Core.SendInTwo(logs, Core.Ids(live, done), Core.Ids(live, {p}), m);
  }

  lemma DrainedIds(live: Core.Live, done: set<Path>, p: Path)
    requires Core.Owned(live) && p !in done
    ensures Core.Owned(Core.Drained(live, done))
    ensures Core.Ids(Core.Drained(live, done), {p}) == Core.Ids(live, {p})
    ensures Core.Drained(Core.Drained(live, done), {p}) == Core.Drained(live, done + {p})
  {
    var d := Core.Drained(live, done);
    assert p in live ==> d[p] == live[p];
    forall id ensures id in Core.Ids(d, {p}) <==> id in Core.Ids(live, {p}) {
      if id in Core.Ids(live, {p}) { var u :| p in live && u in live[p] && live[p][u] == id; assert d[p][u] == id; }
    }
  }
}
