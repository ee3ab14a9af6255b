/** Every interleaving of the locking protocol is an execution of the sequential deque.

    The trace of a run is read in two independent ways. Its `Took` events, in order, must be a history of the
    sequential deque, result for result. The events of each single thread must follow the life of a call: called, took
    effect once, (for a push) notified, returned with the result it took. Since all three kinds of events sit in one
    trace, each operation takes effect between its call and its return. The operations of the protocol are not atomic;
    that each amounts to one operation of the sequential deque rests on `CompletesWhatItBegan`, that is, on the lock. */
module Linearizability {
  import opened Base
  import opened AtomicDeque
  import opened TsqueueProtocol

  // The history of the sequential deque contained in a trace.
  ghost function Effects<T>(trace: seq<Event<T>>): seq<Taken<T>> {
    if |trace| == 0 then []
    else match Last(trace)
      case Took(t, op, ret, _) => Effects(Init(trace)) + [Taken(t, op, ret)]
      case _ => Effects(Init(trace))
  }

  // How far a thread's current call has come, as far as an observer can tell.
  datatype Phase<T> =
    | Outside
    | Pending(call: Call<T>)      // called, no lasting effect yet
    | Unsignalled                 // a push took effect, its notification is due
    | Owing(ret: Ret<T>)          // only the return is left, with this result

  // The life of a call; None when the event may not happen in that phase.
  ghost function Advance<T>(p: Phase<T>, e: Event<T>): Option<Phase<T>> {
    match e
    case Called(_, call) => if p.Outside? then Some(Pending(call)) else None
    case Took(_, op, ret, _) =>
      if p == Pending(Wait) && op.Empty? && ret == Flag(true) then Some(p)          // still empty: keep waiting
      else if p == Pending(Wait) && op.Empty? && ret == Flag(false) then Some(Owing(Done))
      else if p == Pending(Operation(op)) then Some(if IsPush(op) then Unsignalled else Owing(ret))
      else None
    case Notified(_) => if p.Unsignalled? then Some(Owing(Done)) else None
    case Returned(_, ret) => if p == Owing(ret) then Some(Outside) else None
  }

  // The phase of thread t after the trace, or None if its events broke the life of a call.
  ghost function Progress<T>(trace: seq<Event<T>>, t: nat): Option<Phase<T>> {
    if |trace| == 0 then Some(Outside)
    else if Last(trace).thread != t then Progress(Init(trace), t)
    else match Progress(Init(trace), t)
      case None => None
      case Some(p) => Advance(p, Last(trace))
  }

  function PhaseOf<T>(st: Stage<T>): Phase<T> {
    match st
    case Idle => Outside
    case WantQueue(call) => Pending(call)
    case InQueue(call) => Pending(call)
    case Touching(call, _) => Pending(call)
    case Emplaced(_) => Unsignalled
    case OwnsBoth(_) => Unsignalled
    case Signalled(_) => Owing(Done)
    case Answered(call, ret) =>
      if call.Operation? then Owing(ret)
      else if ret.Flag? && ret.flag then Pending(Wait)
      else Owing(Done)
    case Gap => Pending(Wait)
    case Drowsy => Pending(Wait)
    case Asleep => Pending(Wait)
    case Woken => Pending(Wait)
    case Awake => Pending(Wait)
  }

  // Every operation took effect while its own thread owned muxQueue.
  ghost predicate InsideLock<T>(trace: seq<Event<T>>) {
    forall i | 0 <= i < |trace| && trace[i].Took? :: trace[i].owner == Some(trace[i].thread)
  }

  ghost predicate Linear<T>(s: State<T>) {
    && !s.raced
    && InsideLock(s.trace)
    && Replay(Effects(s.trace)) == Some(s.deqQueue)
    && forall t | 0 <= t < |s.threads| :: Progress(s.trace, t) == Some(PhaseOf(s.threads[t]))
  }

  // A step adds at most one event, and it belongs to the thread that moved.
  lemma {:induction false} StepTrace<T>(s: State<T>, a: Action<T>)
    requires Enabled(s, a)
    ensures var s' := Step(s, a);
            || s'.trace == s.trace
            || (|s'.trace| == |s.trace| + 1 && Init(s'.trace) == s.trace && Last(s'.trace).thread == a.t)
  {
  }

  // The event of an action, if it has one.
  ghost function EventOf<T>(s: State<T>, a: Action<T>): Option<Event<T>>
    requires Enabled(s, a)
  {
    var s' := Step(s, a);
    if |s'.trace| == |s.trace| + 1 then Some(Last(s'.trace)) else None
  }

  lemma {:induction false} EffectsRecord<T>(trace: seq<Event<T>>, e: Event<T>)
    ensures Effects(trace + [e]) == Effects(trace) + if e.Took? then [Taken(e.thread, e.op, e.ret)] else []
  {
    assert Init(trace + [e]) == trace;
  }

  lemma {:induction false} StepReplay<T>(s: State<T>, a: Action<T>)
    requires Inv(s) && Enabled(s, a) && Replay(Effects(s.trace)) == Some(s.deqQueue)
    ensures Replay(Effects(Step(s, a).trace)) == Some(Step(s, a).deqQueue)
  {
    StepTrace(s, a);
    if a.Access? {
      CompletesWhatItBegan(s, a.t);
    }
    var e := EventOf(s, a);
    if e.Some? {
      assert Step(s, a).trace == s.trace + [e.value];
      EffectsRecord(s.trace, e.value);
      if e.value.Took? {
        ReplayNext(Effects(s.trace), Taken(e.value.thread, e.value.op, e.value.ret), s.deqQueue);
      }
    }
  }

  lemma {:induction false} ProgressRecord<T>(trace: seq<Event<T>>, e: Event<T>, t: nat, p: Phase<T>)
    requires Progress(trace, t) == Some(p)
    ensures Progress(trace + [e], t) == if e.thread == t then Advance(p, e) else Some(p)
  {
    assert Init(trace + [e]) == trace;
  }

  lemma {:induction false} StepInsideLock<T>(s: State<T>, a: Action<T>)
    requires Inv(s) && Enabled(s, a) && InsideLock(s.trace)
    ensures InsideLock(Step(s, a).trace)
  {
    StepTrace(s, a);
    assert StageOk(s, a.t);
  }

  // What an action does to the phase of the thread that takes it.
  lemma {:induction false} OwnPhase<T>(s: State<T>, a: Action<T>)
    requires Inv(s) && Enabled(s, a)
    ensures var after := PhaseOf(Step(s, a).threads[a.t]);
            match EventOf(s, a)
            case Some(e) => e.thread == a.t && Advance(PhaseOf(s.threads[a.t]), e) == Some(after)
            case None => PhaseOf(s.threads[a.t]) == after
  {
    assert StageOk(s, a.t);
  }

  lemma {:induction false} OtherPhase<T>(s: State<T>, a: Action<T>, t: nat)
    requires Enabled(s, a) && t < |s.threads| && t != a.t
    ensures PhaseOf(Step(s, a).threads[t]) == PhaseOf(s.threads[t])
  {
  }

  lemma {:induction false} StepProgress<T>(s: State<T>, a: Action<T>, t: nat)
    requires Inv(s) && Enabled(s, a) && t < |s.threads|
    requires Progress(s.trace, t) == Some(PhaseOf(s.threads[t]))
    ensures Progress(Step(s, a).trace, t) == Some(PhaseOf(Step(s, a).threads[t]))
  {
    StepTrace(s, a);
    OwnPhase(s, a);
    if t != a.t {
      OtherPhase(s, a, t);
    }
    var e := EventOf(s, a);
    if e.Some? {
      assert Step(s, a).trace == s.trace + [e.value];
      ProgressRecord(s.trace, e.value, t, PhaseOf(s.threads[t]));
    }
  }

  /** Linearizability: in every run of any number of threads, the deque is what the sequential deque becomes by the
      operations in the order they took effect, every operation returned what the sequential deque returns there, and
      every call took effect exactly once between its call and its return, inside its own section of muxQueue and
      without a data race. */
  lemma {:induction false} Linearizable<T>(n: nat, acts: seq<Action<T>>)
    requires Exec(n, acts).Some?
    ensures Linear(Exec(n, acts).value)
  {
    if |acts| > 0 {
      var s := Exec(n, Init(acts)).value;
      Linearizable(n, Init(acts));
      Reachable(n, Init(acts));
      StepKeepsInv(s, Last(acts));
      StepReplay(s, Last(acts));
      StepInsideLock(s, Last(acts));
      forall t | 0 <= t < |s.threads|
        ensures Progress(Step(s, Last(acts)).trace, t) == Some(PhaseOf(Step(s, Last(acts)).threads[t]))
      {
        StepProgress(s, Last(acts), t);
      }
    }
  }

  lemma {:induction false} UndefinedStep<T>(s: State<T>, a: Action<T>)
    requires Inv(s) && Enabled(s, a)
    ensures Step(s, a).undefined <==>
            a.Touch? && |s.deqQueue| == 0 && NeedsItem(OpOf(s.threads[a.t].call))
  {
    if a.Access? {
      CompletesWhatItBegan(s, a.t);
    }
  }

  lemma {:induction false} SizeIsBalance<T>(n: nat, acts: seq<Action<T>>)
    requires Exec(n, acts).Some?
    ensures var s := Exec(n, acts).value; |s.deqQueue| == Balance(Effects(s.trace))
  {
    Linearizable(n, acts);
    var s := Exec(n, acts).value;
    BalanceIsSize(Effects(s.trace), s.deqQueue);
  }

  /** The only way to leave the standard's defined behaviour: an operation that needs an item gets its turn when as many
      items have been popped and cleared as have been pushed. */
  lemma {:induction false} UndefinedExactly<T>(n: nat, acts: seq<Action<T>>, a: Action<T>)
    requires Exec(n, acts).Some? && Enabled(Exec(n, acts).value, a)
    ensures var s := Exec(n, acts).value;
            Step(s, a).undefined <==>
            a.Touch? && Balance(Effects(s.trace)) == 0 && NeedsItem(OpOf(s.threads[a.t].call))
  {
    Reachable(n, acts);
    UndefinedStep(Exec(n, acts).value, a);
    SizeIsBalance(n, acts);
  }

  /** Whatever the interleaving and whichever ends are used, pushed = popped + cleared + still queued. */
  lemma {:induction false} NothingLostOrDuplicated<T>(n: nat, acts: seq<Action<T>>)
    requires Exec(n, acts).Some?
    ensures var s := Exec(n, acts).value;
            var log := Effects(s.trace);
            multiset(Pushed(log)) == multiset(Popped(log)) + Cleared(log) + multiset(s.deqQueue)
  {
    Linearizable(n, acts);
    Conservation(Effects(Exec(n, acts).value.trace));
  }

  /** `count` and `empty` report, under any interleaving, the balance of what took effect before them. */
  lemma {:induction false} CountsAreExact<T>(n: nat, acts: seq<Action<T>>, k: nat)
    requires Exec(n, acts).Some? && k < |Effects(Exec(n, acts).value.trace)|
    ensures var log := Effects(Exec(n, acts).value.trace);
            Reports(log[k].op, log[k].ret, Balance(log[..k]))
  {
    Linearizable(n, acts);
    CountsInHistory(Effects(Exec(n, acts).value.trace), k);
  }

  // Threads only push at the back, pop at the front, look, or wait.
  predicate OneWay<T>(acts: seq<Action<T>>) {
    forall i | 0 <= i < |acts| && acts[i].Invoke? ::
      acts[i].call.Wait? || acts[i].call.op.PushBack? || acts[i].call.op.PopFront? || Reads(acts[i].call.op)
  }

  // Called, and not yet taken effect.
  predicate InCall<T>(st: Stage<T>) {
    st.WantQueue? || st.InQueue? || st.Touching?
  }

  ghost predicate OneWayState<T>(s: State<T>) {
    && FifoOnly(Effects(s.trace))
    && forall t | 0 <= t < |s.threads| && InCall(s.threads[t]) ::
         var op := OpOf(s.threads[t].call); op.PushBack? || op.PopFront? || Reads(op)
  }

  lemma {:induction false} OneWayReachable<T>(n: nat, acts: seq<Action<T>>)
    requires Exec(n, acts).Some? && OneWay(acts)
    ensures OneWayState(Exec(n, acts).value)
  {
    if |acts| > 0 {
      assert OneWay(Init(acts));
      OneWayReachable(n, Init(acts));
      StepTrace(Exec(n, Init(acts)).value, Last(acts));
      assert Last(acts) == acts[|acts| - 1];
    }
  }

  // The items of the pushes that thread t has called, in the order of its calls.
  function CallsBy<T>(acts: seq<Action<T>>, t: nat): seq<T> {
    if |acts| == 0 then []
    else
      CallsBy(Init(acts), t) + CalledNow(Last(acts), t)
  }

  // The item of a push that has been called and has not taken effect.
  function Underway<T>(st: Stage<T>): seq<T> {
    if InCall(st) && st.call.Operation? then ItemsIn(st.call.op) else []
  }

  lemma {:induction false} PushedByNext<T>(log: seq<Taken<T>>, x: Taken<T>, t: nat)
    ensures PushedBy(log + [x], t) == PushedBy(log, t) + if x.thread == t then ItemsIn(x.op) else []
  {
    assert Init(log + [x]) == log;
  }

  // The item that thread t pushes, or calls to be pushed, with this action.
  ghost function PushedNow<T>(s: State<T>, a: Action<T>, t: nat): seq<T>
    requires Enabled(s, a)
  {
    match EventOf(s, a)
    case Some(Took(u, op, _, _)) => if u == t then ItemsIn(op) else []
    case _ => []
  }

  function CalledNow<T>(a: Action<T>, t: nat): seq<T> {
    if a.Invoke? && a.t == t && a.call.Operation? then ItemsIn(a.call.op) else []
  }

  lemma {:induction false} StepPushedBy<T>(s: State<T>, a: Action<T>, t: nat)
    requires Enabled(s, a)
    ensures PushedBy(Effects(Step(s, a).trace), t) == PushedBy(Effects(s.trace), t) + PushedNow(s, a, t)
  {
    StepTrace(s, a);
    var e := EventOf(s, a);
    if e.Some? {
      assert Step(s, a).trace == s.trace + [e.value];
      EffectsRecord(s.trace, e.value);
      if e.value.Took? {
        PushedByNext(Effects(s.trace), Taken(e.value.thread, e.value.op, e.value.ret), t);
      }
    }
  }

  lemma {:induction false} OtherUnderway<T>(s: State<T>, a: Action<T>, t: nat)
    requires Enabled(s, a) && t < |s.threads| && t != a.t
    ensures Underway(Step(s, a).threads[t]) == Underway(s.threads[t])
    ensures CalledNow(a, t) == [] && PushedNow(s, a, t) == []
  {
    StepTrace(s, a);
  }

  lemma {:induction false} OwnUnderway<T>(s: State<T>, a: Action<T>)
    requires Inv(s) && Enabled(s, a)
    ensures Underway(s.threads[a.t]) + CalledNow(a, a.t) == PushedNow(s, a, a.t) + Underway(Step(s, a).threads[a.t])
  {
    if a.Access? {
      CompletesWhatItBegan(s, a.t);
    }
  }

  lemma {:induction false} RegroupCalls<T>(calls: seq<T>, called: seq<T>, pushed: seq<T>, before: seq<T>, now: seq<T>,
                                           after: seq<T>)
    requires calls == pushed + before && before + called == now + after
    ensures calls + called == (pushed + now) + after
  {
    assert (pushed + before) + called == pushed + (before + called);
    assert (pushed + now) + after == pushed + (now + after);
  }

  /** What a thread has pushed is, in order, what it has called to be pushed, but for a call under way. */
  lemma {:induction false} PushesAreCalls<T>(n: nat, acts: seq<Action<T>>, t: nat)
    requires Exec(n, acts).Some? && t < n
    ensures |Exec(n, acts).value.threads| == n
    ensures var s := Exec(n, acts).value;
            CallsBy(acts, t) == PushedBy(Effects(s.trace), t) + Underway(s.threads[t])
  {
    Reachable(n, acts);
    if |acts| > 0 {
      PushesAreCalls(n, Init(acts), t);
      Reachable(n, Init(acts));
      var s, a := Exec(n, Init(acts)).value, Last(acts);
      StepPushedBy(s, a, t);
      if a.t == t { OwnUnderway(s, a); } else { OtherUnderway(s, a, t); }
      RegroupCalls(CallsBy(Init(acts), t), CalledNow(a, t), PushedBy(Effects(s.trace), t), Underway(s.threads[t]),
                   PushedNow(s, a, t), Underway(Step(s, a).threads[t]));
    }
  }

  /** With `push_back` and `pop_front` alone, under any interleaving, the items pushed are the items popped followed by
      the items queued; the items popped are those of the first pushes; and those of them that thread t pushed are, in
      order, the items of the first calls of `push_back` that t made. */
  lemma {:induction false} InOrder<T>(n: nat, acts: seq<Action<T>>, t: nat)
    requires Exec(n, acts).Some? && OneWay(acts) && t < n
    ensures var s := Exec(n, acts).value;
            var log := Effects(s.trace);
            && Pushed(log) == Popped(log) + s.deqQueue
            && |Popped(log)| <= |Pushes(log)|
            && (forall i | 0 <= i < |Popped(log)| ::
                  IsPush(Pushes(log)[i].op) && Popped(log)[i] == Pushes(log)[i].op.item)
            && PushedBy(Pushes(log)[..|Popped(log)|], t) <= CallsBy(acts, t)
  {
    Linearizable(n, acts);
    OneWayReachable(n, acts);
    PushesAreCalls(n, acts, t);
    FirstInFirstOut(Effects(Exec(n, acts).value.trace));
    ThreadOrder(Effects(Exec(n, acts).value.trace), t);
  }
}
