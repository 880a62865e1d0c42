/** The buffer between a subscription's channel and its clients, and the two tasks that share it. */
module Notifier {
  import opened Wrappers

  /** The buffer as a value. */
  datatype Buf<T> = Buf(slots: seq<Option<T>>, idx: nat)
  {
    predicate Ok()
    {
      |slots| == 2 && idx < 2
    }

    /** The slot that the next store and the next pop work on. */
    function Current(): Option<T>
      requires Ok()
    {
      slots[idx]
    }

    function Off(): Option<T>
      requires Ok()
    {
      slots[1 - idx]
    }

    function Store(el: T): (r: Buf<T>)
      requires Ok()
      ensures r.Ok() && r.Current() == Some(el) && r.Off() == Off()
    {
      Buf(slots[idx := Some(el)], idx)
    }

    /** Empties the current slot and turns to the other one. */
    function Pop(): (r: Buf<T>)
      requires Ok()
      ensures r.Ok() && r.Current() == Off() && r.Off() == None
    {
      Buf(slots[idx := None], 1 - idx)
    }
  }

  /** Two slots, updated in place. */
  class StateBuf<T> {
    const buf: array<Option<T>>
    var idx: nat

    ghost predicate Valid()
      reads this
    {
      buf.Length == 2 && idx < 2
    }

    ghost function Contents(): Buf<T>
      reads this, buf
    {
      Buf(buf[..], idx)
    }

    constructor ()
      ensures Valid() && fresh(buf) && Contents() == Buf([None, None], 0)
    {
      buf := new Option<T>[2](_ => None);
      idx := 0;
    }

    method Store(el: T)
      requires Valid()
      modifies buf
      ensures Valid() && Contents() == old(Contents()).Store(el)
    {
      buf[idx] := Some(el);
    }

    method Pop() returns (el: Option<T>)
      requires Valid()
      modifies this, buf
      ensures el == old(Contents()).Current()
      ensures Valid() && Contents() == old(Contents()).Pop()
    {
      el := buf[idx];
      buf[idx] := None;
      if idx == 0 {
        idx := 1;
      } else {
        idx := 0;
      }
    }
  }

  // ---- the two tasks, step by step ----

  /** Where the receiving task is: waiting for a message, holding one it has not stored yet, having
      stored one it has not signalled yet, or gone, with its end of the signal dropped. */
  datatype Producer<T> = Receiving | Holding(msg: T) | Unsignalled | Gone

  /** Where the sending task is: waiting for a signal, or woken and not at the buffer yet. */
  datatype Consumer = Waiting | Woken

  /** `unseen` is the watch channel: some signal has not been looked at yet. The last three fields
      are history: all messages stored, all messages emitted, all that were overwritten. */
  datatype State<T> = State(
    queue: seq<T>,
    isOpen: bool,
    producer: Producer<T>,
    buf: Buf<T>,
    unseen: bool,
    consumer: Consumer,
    stored: seq<T>,
    emitted: seq<T>,
    overwritten: seq<T>)

  datatype Step<T> =
    | Arrive(msg: T)   // somebody sends to the channel
    | CloseInput       // the last sender of the channel goes away
    | Receive          // `recv().await` yields a message
    | Store            // under the lock
    | Signal           // `tx.send(true)`
    | Finish           // `recv().await` yields nothing more; the task ends
    | Wake             // `rx.changed()` returns, with a signal or with an error: `_` takes both
    | Pop              // under the lock; a value goes out

  predicate Enabled<T>(s: State<T>, step: Step<T>)
  {
    match step
    case Arrive(_) => s.isOpen
    case CloseInput => s.isOpen
    case Receive => s.producer.Receiving? && s.queue != []
    case Store => s.producer.Holding?
    case Signal => s.producer.Unsignalled?
    case Finish => s.producer.Receiving? && s.queue == [] && !s.isOpen
    case Wake => s.consumer.Waiting? && (s.unseen || s.producer.Gone?)
    case Pop => s.consumer.Woken?
  }

  function Do<T>(s: State<T>, step: Step<T>): State<T>
    requires Enabled(s, step) && s.buf.Ok()
  {
    match step
    case Arrive(msg) => s.(queue := s.queue + [msg])
    case CloseInput => s.(isOpen := false)
    case Receive => s.(queue := s.queue[1..], producer := Holding(s.queue[0]))
    case Store => s.(
      producer := Unsignalled,
      buf := s.buf.Store(s.producer.msg),
      stored := s.stored + [s.producer.msg],
      overwritten := s.overwritten + Listed(s.buf.Current()))
    case Signal => s.(producer := Receiving, unseen := true)
    case Finish => s.(producer := Gone)
    case Wake => s.(consumer := Woken, unseen := false)
    case Pop => s.(consumer := Waiting, buf := s.buf.Pop(), emitted := s.emitted + Listed(s.buf.Current()))
  }

  function Listed<T>(o: Option<T>): seq<T>
  {
    if o.Some? then [o.value] else []
  }

  /** `steps` can be taken from `s`, in this order. */
  ghost predicate Run<T>(s: State<T>, steps: seq<Step<T>>)
    requires s.buf.Ok()
    decreases |steps|
  {
    steps != [] ==> Enabled(s, steps[0]) && Run(Do(s, steps[0]), steps[1..])
  }

  ghost function Exec<T>(s: State<T>, steps: seq<Step<T>>): (t: State<T>)
    requires s.buf.Ok() && Run(s, steps)
    ensures t.buf.Ok()
    decreases |steps|
  {
    if steps == [] then s else Exec(Do(s, steps[0]), steps[1..])
  }

  function Start<T>(): State<T>
  {
    State([], true, Receiving, Buf([None, None], 0), false, Waiting, [], [], [])
  }

  // ---- the invariant ----

  /** `a` is `b` with some elements left out. */
  ghost predicate Thinned<T>(a: seq<T>, b: seq<T>)
  {
    a == [] || (b != [] &&
      ((a[|a| - 1] == b[|b| - 1] && Thinned(a[..|a| - 1], b[..|b| - 1])) || Thinned(a, b[..|b| - 1])))
  }

  lemma ThinnedSnoc<T>(a: seq<T>, b: seq<T>, x: T)
    requires Thinned(a, b)
    ensures Thinned(a + [x], b + [x]) && Thinned(a, b + [x])
  {
    assert (a + [x])[..|a|] == a && (b + [x])[..|b|] == b;
  }

  lemma {:induction false} ThinnedInit<T>(a: seq<T>, b: seq<T>)
    requires a != [] && Thinned(a, b)
    ensures Thinned(a[..|a| - 1], b)
  {
    var init := a[..|a| - 1];
    if a[|a| - 1] == b[|b| - 1] && Thinned(init, b[..|b| - 1]) {
      ThinnedSnoc(init, b[..|b| - 1], b[|b| - 1]);
      assert b == b[..|b| - 1] + [b[|b| - 1]];
    } else {
      ThinnedInit(a, b[..|b| - 1]);
    }
  }

  /** `out` is what came in, in order, less what was overwritten; the newest is still there. */
  ghost predicate Accounts<T>(out: seq<T>, stored: seq<T>, overwritten: seq<T>)
  {
    && Thinned(out, stored)
    && multiset(stored) == multiset(out) + multiset(overwritten)
    && (stored != [] ==> out != [] && out[|out| - 1] == stored[|stored| - 1])
  }

  lemma ThinnedHead<T>(a: seq<T>, cur: Option<T>, b: seq<T>)
    requires Thinned(a + Listed(cur), b)
    ensures Thinned(a, b)
  {
    var out := a + Listed(cur);
    if cur.Some? {
      ThinnedInit(out, b);
      assert out[..|out| - 1] == a;
    } else {
      assert out == a;
    }
  }

  /** A message takes the place of the one in the current slot, if there is one. */
  lemma Replaced<T>(emitted: seq<T>, cur: Option<T>, m: T, stored: seq<T>, overwritten: seq<T>)
    requires Accounts(emitted + Listed(cur), stored, overwritten)
    ensures Accounts(emitted + [m], stored + [m], overwritten + Listed(cur))
  {
    ThinnedHead(emitted, cur, stored);
    ThinnedSnoc(emitted, stored, m);
  }

  /** Everything that has left the buffer or is in it, in order. */
  function Outgoing<T>(s: State<T>): seq<T>
    requires s.buf.Ok()
  {
    s.emitted + Listed(s.buf.Current())
  }

  /** The off slot is empty, a full slot has a signal, a wake-up or a signalling producer coming,
      nothing is lost or reordered, and the newest message is the last one to go out. */
  ghost predicate Inv<T>(s: State<T>)
  {
    && s.buf.Ok() && s.buf.Off() == None
    && (s.buf.Current().Some? ==> s.unseen || s.consumer.Woken? || s.producer.Unsignalled?)
    && (s.producer.Gone? ==> s.queue == [] && !s.isOpen)
    && Accounts(Outgoing(s), s.stored, s.overwritten)
  }

  lemma StoreKeepsInv<T>(s: State<T>)
    requires Inv(s) && Enabled(s, Store)
    ensures Inv(Do(s, Store))
  {
    hide Accounts;
    Replaced(s.emitted, s.buf.Current(), s.producer.msg, s.stored, s.overwritten);
    assert Listed(Some(s.producer.msg)) == [s.producer.msg];
  }

  lemma StepKeepsInv<T>(s: State<T>, step: Step<T>)
    requires Inv(s) && Enabled(s, step)
    ensures Inv(Do(s, step))
  {
    match step {
      case Store => StoreKeepsInv(s);
      case Pop => assert Outgoing(Do(s, step)) == Outgoing(s);
      case _ => assert Outgoing(Do(s, step)) == Outgoing(s);
    }
  }

  /** Every interleaving of the two tasks and their surroundings keeps the invariant. */
  lemma {:induction false} RunKeepsInv<T>(s: State<T>, steps: seq<Step<T>>)
    requires Inv(s) && Run(s, steps)
    ensures Inv(Exec(s, steps))
    decreases |steps|
  {
    if steps != [] {
      StepKeepsInv(s, steps[0]);
      RunKeepsInv(Do(s, steps[0]), steps[1..]);
    }
  }

  // ---- what clients get ----

  /** Nothing is on its way: no message to take, to store or to signal, nobody woken or to wake. */
  predicate Settled<T>(s: State<T>)
  {
    s.queue == [] && (s.producer.Receiving? || s.producer.Gone?) && !s.unseen && s.consumer.Waiting?
  }

  /** The messages that a run sends to the channel. */
  function Arrivals<T>(steps: seq<Step<T>>): seq<T>
  {
    if steps == [] then []
    else (if steps[0].Arrive? then [steps[0].msg] else []) + Arrivals(steps[1..])
  }

  /** Stored, held and queued messages: everything that ever arrived. */
  function Inflow<T>(s: State<T>): seq<T>
  {
    s.stored + (if s.producer.Holding? then [s.producer.msg] else []) + s.queue
  }

  lemma StepInflow<T>(s: State<T>, step: Step<T>)
    requires s.buf.Ok() && Enabled(s, step)
    ensures Inflow(Do(s, step)) == Inflow(s) + if step.Arrive? then [step.msg] else []
  {
    if step.Receive? { assert s.queue == [s.queue[0]] + s.queue[1..]; }
  }

  lemma {:induction false} RunInflow<T>(s: State<T>, steps: seq<Step<T>>)
    requires s.buf.Ok() && Run(s, steps)
    ensures Inflow(Exec(s, steps)) == Inflow(s) + Arrivals(steps)
    decreases |steps|
  {
    if steps != [] {
      StepInflow(s, steps[0]);
      RunInflow(Do(s, steps[0]), steps[1..]);
    }
  }

  /** Each message that arrived was emitted or overwritten, or is in the buffer or still on its way
      to it; what was emitted is in the order of arrival; and once things have settled, the last
      message emitted is the last that arrived. */
  ghost predicate NeverLost<T>(s: State<T>, arrivals: seq<T>)
    requires s.buf.Ok()
  {
    && s.stored <= arrivals == Inflow(s)
    && Thinned(s.emitted, s.stored)
    && multiset(s.stored) == multiset(s.emitted) + multiset(Listed(s.buf.Current())) + multiset(s.overwritten)
    && (Settled(s) ==> s.stored == arrivals && s.buf.Current() == None)
    && (Settled(s) && arrivals != [] ==> s.emitted != [] && s.emitted[|s.emitted| - 1] == arrivals[|arrivals| - 1])
  }

  lemma InvTells<T>(s: State<T>)
    requires Inv(s)
    ensures NeverLost(s, Inflow(s))
  {
    ThinnedHead(s.emitted, s.buf.Current(), s.stored);
    assert s.buf.Current().None? ==> Outgoing(s) == s.emitted;
    hide Thinned;
  }

  /** The latest state is never lost, over every interleaving of the two tasks and their surroundings. */
  lemma LatestIsNeverLost<T>(steps: seq<Step<T>>)
    requires Run(Start<T>(), steps)
    ensures NeverLost(Exec(Start<T>(), steps), Arrivals(steps))
  {
    assert Inv(Start<T>());
    RunKeepsInv(Start<T>(), steps);
    RunInflow(Start<T>(), steps);
    InvTells(Exec(Start<T>(), steps));
    assert Inflow(Start<T>()) + Arrivals(steps) == Arrivals(steps);
  }

  // ---- the tasks do settle ----

  /** A step of one of the two tasks that has something to do. Once the input has ended the watch
      channel reports an error for ever and the sending task wakes to an empty buffer again and again;
      those wake-ups are idle. */
  predicate Busy<T>(s: State<T>, step: Step<T>)
  {
    && Enabled(s, step) && !step.Arrive? && !step.CloseInput?
    && (step.Wake? ==> s.unseen)
  }

  /** Steps still to be taken for what has already arrived. */
  function Work<T>(s: State<T>): nat
  {
    5 * |s.queue|
    + (match s.producer case Receiving => 1 case Holding(_) => 5 case Unsignalled => 4 case Gone => 0)
    + (if s.unseen then 2 else 0)
    + (if s.consumer.Woken? then 1 else 0)
  }

  lemma BusyStepWorksOff<T>(s: State<T>, step: Step<T>)
    requires s.buf.Ok() && Busy(s, step)
    ensures Work(Do(s, step)) < Work(s)
  {
  }

  ghost predicate BusyRun<T>(s: State<T>, steps: seq<Step<T>>)
    requires s.buf.Ok()
    decreases |steps|
  {
    steps != [] ==> Busy(s, steps[0]) && BusyRun(Do(s, steps[0]), steps[1..])
  }

  /** However the two tasks are scheduled, they are through after at most `Work` busy steps. */
  lemma {:induction false} WorkRunsOut<T>(s: State<T>, steps: seq<Step<T>>)
    requires s.buf.Ok() && BusyRun(s, steps)
    ensures |steps| <= Work(s) && Run(s, steps)
    decreases |steps|
  {
    if steps != [] {
      BusyStepWorksOff(s, steps[0]);
      WorkRunsOut(Do(s, steps[0]), steps[1..]);
    }
  }

  /** The tasks stop working exactly when things have settled, but for ending after a closed input. */
  lemma IdleIsSettled<T>(s: State<T>)
    requires Inv(s)
    ensures (forall step :: !Busy(s, step)) <==> Settled(s) && !Enabled(s, Finish)
  {
    if Settled(s) && !Enabled(s, Finish) {
      forall step ensures !Busy(s, step) {
        match step {
          case Finish =>
          case _ =>
        }
      }
    } else {
      var step := NextStep(s);
      assert Busy(s, step);
    }
  }

  function NextStep<T>(s: State<T>): Step<T>
  {
    if s.consumer.Woken? then Pop
    else if s.unseen then Wake
    else match s.producer
      case Holding(_) => Store
      case Unsignalled => Signal
      case _ => if s.queue != [] then Receive else Finish
  }

  // ---- which runs there are ----

  /** What the task that takes a step can see: its own place, and what it waits for. */
  ghost predicate SameView<T>(s: State<T>, t: State<T>, step: Step<T>)
  {
    match step
    case Arrive(_) => s.isOpen == t.isOpen
    case CloseInput => s.isOpen == t.isOpen
    case Receive => s.producer == t.producer && s.queue == t.queue && s.isOpen == t.isOpen
    case Store => s.producer == t.producer
    case Signal => s.producer == t.producer
    case Finish => s.producer == t.producer && s.queue == t.queue && s.isOpen == t.isOpen
    case Wake => s.consumer == t.consumer && s.unseen == t.unseen && s.producer.Gone? == t.producer.Gone?
    case Pop => s.consumer == t.consumer
  }

  /** No task waits for the other one: whether it can take a step depends on its own view only. */
  lemma TasksAreIndependent<T>(s: State<T>, t: State<T>, step: Step<T>)
    requires SameView(s, t, step)
    ensures Enabled(s, step) <==> Enabled(t, step)
  {
  }

  lemma {:induction false} RunOn<T>(s: State<T>, a: seq<Step<T>>, b: seq<Step<T>>)
    requires s.buf.Ok() && Run(s, a) && Run(Exec(s, a), b)
    ensures Run(s, a + b) && Exec(s, a + b) == Exec(Exec(s, a), b)
    ensures Arrivals(a + b) == Arrivals(a) + Arrivals(b)
    decreases |a|
  {
    if a == [] {
      assert a + b == b;
    } else {
      assert (a + b)[0] == a[0] && (a + b)[1..] == a[1..] + b;
      RunOn(Do(s, a[0]), a[1..], b);
    }
  }

  /** The receiving task sees one message through; then the sending task gets to run, or it does not. */
  function Round<T>(goesOut: bool): seq<Step<T>>
  {
    [Receive, Store, Signal] + if goesOut then [Wake, Pop] else []
  }

  /** Each message is seen through as soon as it arrives. */
  function Promptly<T>(msgs: seq<T>, goOut: seq<bool>): seq<Step<T>>
    requires |goOut| == |msgs|
  {
    if msgs == [] then [] else [Arrive(msgs[0])] + Round(goOut[0]) + Promptly(msgs[1..], goOut[1..])
  }

  /** Queued messages are seen through one after the other. */
  function Afterwards<T>(goOut: seq<bool>): seq<Step<T>>
  {
    if goOut == [] then [] else Round(goOut[0]) + Afterwards(goOut[1..])
  }

  function AllArrive<T>(msgs: seq<T>): seq<Step<T>>
  {
    seq(|msgs|, i requires 0 <= i < |msgs| => Arrive(msgs[i]))
  }

  /** The messages at the positions marked `mark`. */
  function Picked<T>(msgs: seq<T>, marks: seq<bool>, mark: bool): seq<T>
    requires |marks| == |msgs|
  {
    if msgs == [] then [] else (if marks[0] == mark then [msgs[0]] else []) + Picked(msgs[1..], marks[1..], mark)
  }

  /** Between rounds: nobody is busy, and what is in the buffer has been signalled. */
  predicate Resting<T>(s: State<T>)
  {
    && s.buf.Ok() && s.buf.Off() == None && s.producer.Receiving? && s.consumer.Waiting?
    && (s.buf.Current().Some? <==> s.unseen)
  }

  lemma RoundRuns<T>(s: State<T>, goesOut: bool)
    requires Resting(s) && s.queue != []
    ensures Run(s, Round(goesOut)) && Arrivals(Round<T>(goesOut)) == []
    ensures var t, m := Exec(s, Round(goesOut)), s.queue[0];
            && Resting(t) && t.queue == s.queue[1..] && t.isOpen == s.isOpen
            && t.buf.Current() == (if goesOut then None else Some(m))
            && t.stored == s.stored + [m]
            && t.emitted == s.emitted + (if goesOut then [m] else [])
            && t.overwritten == s.overwritten + Listed(s.buf.Current())
  {
    var a: seq<Step<T>>, b: seq<Step<T>> := [Receive, Store, Signal], [Wake, Pop];
    ThreeSteps(s);
    var u := Exec(s, a);
    if goesOut {
      TwoSteps(u);
      RunOn(s, a, b);
      assert Round<T>(true) == a + b;
    } else {
      assert Round<T>(false) == a + [] && a + [] == a;
    }
  }

  lemma OneStep<T>(s: State<T>, step: Step<T>)
    requires s.buf.Ok() && Enabled(s, step)
    ensures Run(s, [step]) && Exec(s, [step]) == Do(s, step)
    ensures Arrivals([step]) == if step.Arrive? then [step.msg] else []
  {
    var a := [step];
    assert a[1..] == [];
  }

  lemma TwoSteps<T>(s: State<T>)
    requires s.buf.Ok() && s.consumer.Waiting? && (s.unseen || s.producer.Gone?)
    ensures var b: seq<Step<T>> := [Wake, Pop];
            && Run(s, b) && Arrivals(b) == []
            && Exec(s, b) == s.(buf := s.buf.Pop(), unseen := false, emitted := s.emitted + Listed(s.buf.Current()))
  {
    var b: seq<Step<T>> := [Wake, Pop];
    var c: seq<Step<T>> := [Pop];
    assert b[1..] == c && c[1..] == [];
  }

  lemma ThreeSteps<T>(s: State<T>)
    requires Resting(s) && s.queue != []
    ensures var a: seq<Step<T>> := [Receive, Store, Signal];
            && Run(s, a) && Arrivals(a) == []
            && Exec(s, a) == s.(queue := s.queue[1..], buf := s.buf.Store(s.queue[0]), unseen := true,
                                stored := s.stored + [s.queue[0]],
                                overwritten := s.overwritten + Listed(s.buf.Current()))
  {
    var a: seq<Step<T>> := [Receive, Store, Signal];
    var b: seq<Step<T>> := [Store, Signal];
    var c: seq<Step<T>> := [Signal];
    assert a[1..] == b && b[1..] == c && c[1..] == [];
  }

  /** What the rounds have made of the messages `msgs`, from `s` to `t`. */
  ghost predicate SeenThrough<T>(s: State<T>, t: State<T>, msgs: seq<T>, goOut: seq<bool>)
    requires |goOut| == |msgs| && s.buf.Ok()
  {
    && Resting(t) && t.queue == [] && t.isOpen == s.isOpen
    && t.emitted == s.emitted + Picked(msgs, goOut, true)
    && t.overwritten + Listed(t.buf.Current()) == s.overwritten + Listed(s.buf.Current()) + Picked(msgs, goOut, false)
    && (msgs != [] ==> (t.buf.Current().None? <==> goOut[|goOut| - 1]))
    && (msgs == [] ==> t.buf.Current() == s.buf.Current())
  }

  lemma OneSeenThrough<T>(s: State<T>, u: State<T>, t: State<T>, msgs: seq<T>, goOut: seq<bool>)
    requires |goOut| == |msgs| > 0 && s.buf.Ok() && u.buf.Ok() && u.isOpen == s.isOpen
    requires u.emitted == s.emitted + (if goOut[0] then [msgs[0]] else [])
    requires u.overwritten == s.overwritten + Listed(s.buf.Current())
    requires u.buf.Current() == (if goOut[0] then None else Some(msgs[0]))
    requires SeenThrough(u, t, msgs[1..], goOut[1..])
    ensures SeenThrough(s, t, msgs, goOut)
  {
    assert |msgs| > 1 ==> goOut[1..][|goOut| - 2] == goOut[|goOut| - 1];
  }

  lemma {:induction false} PromptlyRuns<T>(s: State<T>, msgs: seq<T>, goOut: seq<bool>)
    requires Resting(s) && s.isOpen && s.queue == [] && |goOut| == |msgs|
    ensures Run(s, Promptly(msgs, goOut)) && Arrivals(Promptly(msgs, goOut)) == msgs
    ensures SeenThrough(s, Exec(s, Promptly(msgs, goOut)), msgs, goOut)
    decreases |msgs|
  {
    if msgs != [] {
      var m, rest := msgs[0], Promptly(msgs[1..], goOut[1..]);
      var a: seq<Step<T>>, r: seq<Step<T>> := [Arrive(m)], Round(goOut[0]);
      var v := Do(s, Arrive(m));
      OneStep(s, Arrive(m));
      assert v.queue == [m];
      RoundRuns(v, goOut[0]);
      RunOn(s, a, r);
      var u := Exec(s, a + r);
      PromptlyRuns(u, msgs[1..], goOut[1..]);
      RunOn(s, a + r, rest);
      OneSeenThrough(s, u, Exec(u, rest), msgs, goOut);
    }
  }

  lemma {:induction false} AfterwardsRuns<T>(s: State<T>, goOut: seq<bool>)
    requires Resting(s) && |goOut| == |s.queue|
    ensures Run(s, Afterwards<T>(goOut)) && Arrivals(Afterwards<T>(goOut)) == []
    ensures SeenThrough(s, Exec(s, Afterwards<T>(goOut)), s.queue, goOut)
    decreases |goOut|
  {
    if goOut != [] {
      var r: seq<Step<T>>, rest: seq<Step<T>> := Round(goOut[0]), Afterwards(goOut[1..]);
      RoundRuns(s, goOut[0]);
      var u := Exec(s, r);
      AfterwardsRuns(u, goOut[1..]);
      RunOn(s, r, rest);
      OneSeenThrough(s, u, Exec(u, rest), s.queue, goOut);
    }
  }

  lemma {:induction false} AllArriveRuns<T>(s: State<T>, msgs: seq<T>)
    requires s.buf.Ok() && s.isOpen
    ensures Run(s, AllArrive(msgs)) && Arrivals(AllArrive(msgs)) == msgs
    ensures Exec(s, AllArrive(msgs)) == s.(queue := s.queue + msgs)
    decreases |msgs|
  {
    if msgs != [] {
      assert AllArrive(msgs)[1..] == AllArrive(msgs[1..]);
      AllArriveRuns(Do(s, Arrive(msgs[0])), msgs[1..]);
      assert s.queue + [msgs[0]] + msgs[1..] == s.queue + msgs;
    } else {
      assert s.queue + msgs == s.queue;
    }
  }

  /** The run sends `msgs`, settles, emits `out` and overwrites `gone`. */
  ghost predicate Yields<T>(steps: seq<Step<T>>, msgs: seq<T>, out: seq<T>, gone: seq<T>)
  {
    && Run(Start<T>(), steps) && Arrivals(steps) == msgs
    && var t := Exec(Start<T>(), steps);
       Settled(t) && t.emitted == out && t.overwritten == gone
  }

  ghost predicate Possible<T(!new)>(msgs: seq<T>, out: seq<T>, gone: seq<T>)
  {
    exists steps :: Yields(steps, msgs, out, gone)
  }

  /** Coalescing is real, and any of it can happen: whichever messages are marked, as long as the last
      one is, there is a run that emits those and overwrites the others; whether the messages arrive one
      by one or all at once. */
  lemma EveryChoiceHappens<T>(msgs: seq<T>, goOut: seq<bool>)
    requires |goOut| == |msgs| > 0 && goOut[|goOut| - 1]
    ensures Yields(Promptly(msgs, goOut), msgs, Picked(msgs, goOut, true), Picked(msgs, goOut, false))
    ensures Yields(AllArrive(msgs) + Afterwards(goOut), msgs, Picked(msgs, goOut, true), Picked(msgs, goOut, false))
  {
    OneByOneHappens(msgs, goOut);
    AllAtOnceHappens(msgs, goOut);
    hide Yields;
  }

  lemma OneByOneHappens<T>(msgs: seq<T>, goOut: seq<bool>)
    requires |goOut| == |msgs| > 0 && goOut[|goOut| - 1]
    ensures Yields(Promptly(msgs, goOut), msgs, Picked(msgs, goOut, true), Picked(msgs, goOut, false))
  {
    var s, steps := Start<T>(), Promptly(msgs, goOut);
    PromptlyRuns(s, msgs, goOut);
    hide Run;
    hide Exec;
    hide Promptly;
    hide Picked;
    hide Arrivals;
    hide SeenThrough;
    AtTheEnd(s, Exec(s, steps), msgs, goOut);
  }

  lemma AtTheEnd<T>(s: State<T>, t: State<T>, msgs: seq<T>, goOut: seq<bool>)
    requires |goOut| == |msgs| > 0 && goOut[|goOut| - 1]
    requires s.buf.Ok() && s.buf.Current() == None && s.emitted == [] && s.overwritten == []
    requires SeenThrough(s, t, msgs, goOut)
    ensures Settled(t) && t.emitted == Picked(msgs, goOut, true) && t.overwritten == Picked(msgs, goOut, false)
  {
    hide Picked;
    assert t.overwritten == t.overwritten + Listed(t.buf.Current());
    assert [] + Listed(s.buf.Current()) + Picked(msgs, goOut, false) == Picked(msgs, goOut, false);
    assert [] + Picked(msgs, goOut, true) == Picked(msgs, goOut, true);
  }

  lemma AllAtOnceHappens<T>(msgs: seq<T>, goOut: seq<bool>)
    requires |goOut| == |msgs| > 0 && goOut[|goOut| - 1]
    ensures Yields(AllArrive(msgs) + Afterwards(goOut), msgs, Picked(msgs, goOut, true), Picked(msgs, goOut, false))
  {
    var s := Start<T>();
    var a: seq<Step<T>>, b: seq<Step<T>> := AllArrive(msgs), Afterwards(goOut);
    AllArriveRuns(s, msgs);
    var u := Exec(s, a);
    assert [] + msgs == msgs && msgs + [] == msgs;
    AfterwardsRuns(u, goOut);
    hide Run;
    hide Exec;
    hide Afterwards;
    hide AllArrive;
    hide Picked;
    hide Arrivals;
    hide SeenThrough;
    RunOn(s, a, b);
    AtTheEnd(u, Exec(u, b), msgs, goOut);
  }

  /** In particular everything may go out, and everything but the last message may be overwritten. */
  lemma BothExtremesHappen<T(!new)>(msgs: seq<T>)
    requires msgs != []
    ensures Possible(msgs, msgs, [])
    ensures Possible(msgs, [msgs[|msgs| - 1]], msgs[..|msgs| - 1])
  {
    var n := |msgs|;
    var all, last := seq(n, _ => true), seq(n, i => i == n - 1);
    EveryChoiceHappens(msgs, all);
    EveryChoiceHappens(msgs, last);
    PickAll(msgs, all);
    PickLast(msgs, last);
    hide Yields;
  }

  lemma {:induction false} PickAll<T>(msgs: seq<T>, marks: seq<bool>)
    requires |marks| == |msgs| && forall i :: 0 <= i < |marks| ==> marks[i]
    ensures Picked(msgs, marks, true) == msgs && Picked(msgs, marks, false) == []
  {
    if msgs != [] {
      PickAll(msgs[1..], marks[1..]);
      assert msgs == [msgs[0]] + msgs[1..];
    }
  }

  lemma {:induction false} PickLast<T>(msgs: seq<T>, marks: seq<bool>)
    requires |marks| == |msgs| > 0 && forall i :: 0 <= i < |marks| ==> (marks[i] <==> i == |marks| - 1)
    ensures Picked(msgs, marks, true) == [msgs[|msgs| - 1]] && Picked(msgs, marks, false) == msgs[..|msgs| - 1]
  {
    if |msgs| > 1 {
      PickLast(msgs[1..], marks[1..]);
      assert msgs[..|msgs| - 1] == [msgs[0]] + msgs[1..][..|msgs| - 2];
    } else {
      assert Picked(msgs[1..], marks[1..], true) == [] && Picked(msgs[1..], marks[1..], false) == [];
    }
  }

  function Spin<T>(n: nat): seq<Step<T>>
  {
    if n == 0 then [] else [Wake, Pop] + Spin(n - 1)
  }

  /** The receiving task is gone and there is nothing left to send. */
  ghost predicate Exhausted<T>(s: State<T>)
  {
    && s.buf.Ok() && s.buf.Current() == None && s.buf.Off() == None
    && s.producer.Gone? && s.consumer.Waiting? && !s.unseen
  }

  /** Once its input has ended the sending task never rests: it can wake and pop nothing for ever. */
  lemma {:induction false} NeverRests<T>(s: State<T>, n: nat)
    requires Exhausted(s)
    ensures Run(s, Spin<T>(n)) && Exhausted(Exec(s, Spin<T>(n)))
    ensures Exec(s, Spin<T>(n)).emitted == s.emitted && Enabled(Exec(s, Spin<T>(n)), Wake)
    decreases n
  {
    if n > 0 {
      var b: seq<Step<T>>, more: seq<Step<T>> := [Wake, Pop], Spin(n - 1);
      TwoSteps(s);
      var t := Exec(s, b);
      assert t.emitted == s.emitted;
      NeverRests(t, n - 1);
      hide Exhausted;
      RunOn(s, b, more);
    }
  }

  /** That is where every run ends up that ends its input and settles. */
  lemma EndsExhausted<T>(s: State<T>)
    requires Inv(s) && Settled(s) && !s.isOpen && !Enabled(s, Finish)
    ensures Exhausted(s)
  {
    hide Accounts;
  }
}
