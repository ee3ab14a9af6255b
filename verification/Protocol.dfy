/** The locking protocol of `tsqueue`, one transition per lock, unlock, access to the deque, notify, sleep or wakeup.

    Any number of threads call the member functions in any order. `push_back` and `push_front` take `muxQueue`, change
    the deque, take `muxBlocking` as well, notify, and release the two in the opposite order. `wait` takes `muxQueue`
    for its emptiness check, releases it, and only then takes `muxBlocking` to sleep. Mutexes and the condition variable
    follow section 30.5.1 of ISO C++14: sleeping releases `muxBlocking` atomically, `notify_one` unblocks one sleeper if
    there is one, and a sleeper may wake spuriously.

    Nothing about the deque itself is atomic. A body touches it twice: a pop moves the end item out in one access and
    removes the end in another, and in every other body the two accesses stand for the beginning and the end of the one
    operation. Whatever other threads do in between changes the deque under it; that they cannot is for `muxQueue` to
    ensure and for the proofs to show. */
module TsqueueProtocol {
  import opened Base
  import opened AtomicDeque

  datatype Call<T> = Operation(op: Op<T>) | Wait

  // Where a thread is, and what it needs to remember there.
  datatype Stage<T> =
    | Idle                                        // outside the queue's member functions
    | WantQueue(call: Call<T>)                    // blocked on muxQueue
    | InQueue(call: Call<T>)                      // owns muxQueue, deque not yet touched
    | Touching(call: Call<T>, seen: Option<T>)    // between its two accesses, with the end item it has read, if any
    | Emplaced(op: Op<T>)                         // push: item in, owns muxQueue, blocked on muxBlocking
    | OwnsBoth(op: Op<T>)                         // push: owns both, about to notify
    | Signalled(op: Op<T>)                        // push: notified, still owns both
    | Answered(call: Call<T>, ret: Ret<T>)        // result known, about to release muxQueue
    | Gap                                         // wait: saw an empty deque, owns nothing, blocked on muxBlocking
    | Drowsy                                      // wait: owns muxBlocking, about to sleep
    | Asleep                                      // wait: on the condition variable
    | Woken                                       // wait: unblocked, blocked on muxBlocking
    | Awake                                       // wait: owns muxBlocking again, about to release it

  // What an observer sees. `Took` is the second access of an operation to the deque, with the owner of muxQueue then.
  datatype Event<T> =
    | Called(thread: nat, call: Call<T>)
    | Took(thread: nat, op: Op<T>, ret: Ret<T>, owner: Option<nat>)
    | Notified(thread: nat)
    | Returned(thread: nat, ret: Ret<T>)

  // `undefined` is set by an access that the standard leaves undefined; nothing runs after it.
  // `raced` and `trace` are history variables, which decide nothing: whether a thread has touched the deque while
  // another was between its two accesses, and what has happened.
  datatype State<T> = State(
    threads: seq<Stage<T>>,
    muxQueue: Option<nat>,
    deqQueue: seq<T>,
    muxBlocking: Option<nat>,
    undefined: bool,
    raced: bool,
    trace: seq<Event<T>>)

  datatype Action<T> =
    | Invoke(t: nat, call: Call<T>)
    | LockQueue(t: nat)
    | Touch(t: nat)
    | Access(t: nat)
    | LockBlocking(t: nat)
    | Notify(t: nat, woken: Option<nat>)
    | UnlockBlocking(t: nat)
    | UnlockQueue(t: nat)
    | Sleep(t: nat)
    | Spurious(t: nat)

  // Actions that neither start a call nor come from a spurious wakeup.
  predicate Internal<T>(a: Action<T>) {
    !a.Invoke? && !a.Spurious?
  }

  // The operation performed on the deque under muxQueue; `wait` calls `empty`.
  function OpOf<T>(call: Call<T>): Op<T> {
    if call.Wait? then Empty else call.op
  }

  predicate OwnsQueue<T>(st: Stage<T>) {
    st.InQueue? || st.Touching? || st.Emplaced? || st.OwnsBoth? || st.Signalled? || st.Answered?
  }

  predicate OwnsBlocking<T>(st: Stage<T>) {
    st.OwnsBoth? || st.Signalled? || st.Drowsy? || st.Awake?
  }

  predicate NeedsItem<T>(op: Op<T>) {
    op.PopFront? || op.PopBack? || op.Front? || op.Back?
  }

  // The item that the first access reads, None if the operation reads none or the deque is empty.
  function EndItem<T>(q: seq<T>, op: Op<T>): Option<T> {
    if |q| == 0 then None
    else if op.PopFront? || op.Front? then Some(q[0])
    else if op.PopBack? || op.Back? then Some(q[|q| - 1])
    else None
  }

  // The second access: what it leaves in the deque as it is now, and the result, which uses the item read before.
  function Complete<T>(q: seq<T>, op: Op<T>, seen: Option<T>): Outcome<T> {
    if NeedsItem(op) && seen.None? then Undefined
    else match op
      case Front => Defined(q, Item(seen.value))
      case Back => Defined(q, Item(seen.value))
      case PopFront => if |q| == 0 then Undefined else Defined(q[1..], Item(seen.value))
      case PopBack => if |q| == 0 then Undefined else Defined(q[..|q| - 1], Item(seen.value))
      case _ => Perform(q, op)
  }

  // A push whose item is in the deque and whose notification is still to come.
  predicate OwesNotify<T>(st: Stage<T>) {
    st.Emplaced? || st.OwnsBoth?
  }

  ghost predicate Enabled<T>(s: State<T>, a: Action<T>) {
    && !s.undefined
    && a.t < |s.threads|
    && var st := s.threads[a.t];
       match a
       case Invoke(_, _) => st.Idle?
       case LockQueue(_) => st.WantQueue? && s.muxQueue.None?
       case Touch(_) => st.InQueue?
       case Access(_) => st.Touching?
       case LockBlocking(_) => (st.Emplaced? || st.Gap? || st.Woken?) && s.muxBlocking.None?
       case Notify(_, woken) =>
         && st.OwnsBoth?
         && (match woken
             case None => forall w | 0 <= w < |s.threads| :: !s.threads[w].Asleep?
             case Some(w) => w < |s.threads| && s.threads[w].Asleep?)
       case UnlockBlocking(_) => st.Signalled? || st.Awake?
       case UnlockQueue(_) => st.Answered?
       case Sleep(_) => st.Drowsy?
       case Spurious(_) => st.Asleep?
  }

  function Placed<T>(s: State<T>, t: nat, st: Stage<T>): State<T>
    requires t < |s.threads|
  {
    s.(threads := s.threads[t := st])
  }

  function Record<T>(s: State<T>, e: Event<T>): State<T> {
    s.(trace := s.trace + [e])
  }

  ghost function Step<T>(s: State<T>, a: Action<T>): State<T>
    requires Enabled(s, a)
  {
    var t := a.t;
    var st := s.threads[t];
    match a
    case Invoke(_, call) => Record(Placed(s, t, WantQueue(call)), Called(t, call))
    case LockQueue(_) => Placed(s, t, InQueue(st.call)).(muxQueue := Some(t))
    case Touch(_) =>
      var op := OpOf(st.call);
      if NeedsItem(op) && |s.deqQueue| == 0 then s.(undefined := true)
      else
        var alone := forall u | 0 <= u < |s.threads| :: !s.threads[u].Touching?;
        Placed(s, t, Touching(st.call, EndItem(s.deqQueue, op))).(raced := s.raced || !alone)
    case Access(_) =>
      (match Complete(s.deqQueue, OpOf(st.call), st.seen)
       case Undefined => s.(undefined := true)
       case Defined(q, ret) =>
         var next := if IsPush(OpOf(st.call)) then Emplaced(OpOf(st.call)) else Answered(st.call, ret);
         Record(Placed(s, t, next).(deqQueue := q), Took(t, OpOf(st.call), ret, s.muxQueue)))
    case LockBlocking(_) =>
      var next := if st.Emplaced? then OwnsBoth(st.op) else if st.Gap? then Drowsy else Awake;
      Placed(s, t, next).(muxBlocking := Some(t))
    case Notify(_, woken) =>
      var s' := Record(Placed(s, t, Signalled(st.op)), Notified(t));
      if woken.Some? then Placed(s', woken.value, Woken) else s'
    case UnlockBlocking(_) =>
      var next := if st.Signalled? then Answered(Operation(st.op), Done) else WantQueue(Wait);
      Placed(s, t, next).(muxBlocking := None)
    case UnlockQueue(_) =>
      if st.call.Wait? && st.ret == Flag(true) then Placed(s, t, Gap).(muxQueue := None)
      else Record(Placed(s, t, Idle), Returned(t, if st.call.Wait? then Done else st.ret)).(muxQueue := None)
    case Sleep(_) => Placed(s, t, Asleep).(muxBlocking := None)
    case Spurious(_) => Placed(s, t, Woken)
  }

  function Start<T>(n: nat): State<T> {
    State(seq(n, _ => Idle), None, [], None, false, false, [])
  }

  // The state after a schedule with n threads, or None when some action in it was not enabled.
  ghost function Exec<T>(n: nat, acts: seq<Action<T>>): Option<State<T>> {
    if |acts| == 0 then Some(Start(n))
    else match Exec(n, Init(acts))
      case None => None
      case Some(s) => if Enabled(s, Last(acts)) then Some(Step(s, Last(acts))) else None
  }

  lemma {:induction false} ExecPrefix<T>(n: nat, acts: seq<Action<T>>, k: nat)
    requires Exec(n, acts).Some? && k <= |acts|
    ensures Exec(n, acts[..k]).Some?
  {
    if k == |acts| {
      assert acts[..k] == acts;
    } else {
      assert Init(acts)[..k] == acts[..k];
      ExecPrefix(n, Init(acts), k);
    }
  }

  // ---------------------------------------------------------------- mutual exclusion

  ghost predicate StageOk<T>(s: State<T>, t: nat)
    requires t < |s.threads|
  {
    var st := s.threads[t];
    && (OwnsQueue(st) <==> s.muxQueue == Some(t))
    && (OwnsBlocking(st) <==> s.muxBlocking == Some(t))
    && (st.Emplaced? || st.OwnsBoth? || st.Signalled? ==> IsPush(st.op))
    && (OwesNotify(st) ==> s.deqQueue != [])
    && (st.Touching? ==> st.seen == EndItem(s.deqQueue, OpOf(st.call)))
    && (st.Touching? && NeedsItem(OpOf(st.call)) ==> s.deqQueue != [])
    && (st.Answered? && st.call.Wait? ==> st.ret.Flag?)
    && (st.Answered? && st.call.Operation? && IsPush(st.call.op) ==> st.ret == Done)
  }

  ghost predicate Inv<T>(s: State<T>) {
    && (forall t | 0 <= t < |s.threads| :: StageOk(s, t))
    && (s.muxQueue.Some? ==> s.muxQueue.value < |s.threads|)
    && (s.muxBlocking.Some? ==> s.muxBlocking.value < |s.threads|)
    && !s.raced
  }

  /** What mutual exclusion is for: an operation completes on the very deque it began on, so its two accesses together
      amount to the operation of the sequential deque, and a popped item is the item removed. */
  lemma {:induction false} CompletesWhatItBegan<T>(s: State<T>, t: nat)
    requires Inv(s) && t < |s.threads| && s.threads[t].Touching?
    ensures var op := OpOf(s.threads[t].call);
            Complete(s.deqQueue, op, s.threads[t].seen) == Perform(s.deqQueue, op) && Perform(s.deqQueue, op).Defined?
  {
    assert StageOk(s, t);
  }

  /** And what it rules out: a state in which two pops have both begun. From there both complete with the same item, and
      an item that nobody has seen is gone. */
  lemma {:induction false} OverlappingPops<T>(s: State<T>, t: nat, u: nat)
    requires !s.undefined && t < |s.threads| && u < |s.threads| && t != u && |s.deqQueue| >= 2
    requires s.threads[t] == s.threads[u] == Touching(Operation(PopFront), EndItem(s.deqQueue, PopFront))
    ensures !Inv(s)
    ensures Enabled(s, Access(t)) && Enabled(Step(s, Access(t)), Access(u))
    ensures var s' := Step(Step(s, Access(t)), Access(u));
            && s'.threads[t] == s'.threads[u] == Answered(Operation(PopFront), Item(s.deqQueue[0]))
            && s'.deqQueue == s.deqQueue[2..]
  {
    assert OwnsQueue(s.threads[t]) && OwnsQueue(s.threads[u]);
    assert !(StageOk(s, t) && StageOk(s, u));
  }

  // Nobody else is between two accesses when a thread that owns muxQueue makes its first.
  lemma {:induction false} TouchesAlone<T>(s: State<T>, t: nat, u: nat)
    requires Inv(s) && t < |s.threads| && u < |s.threads| && s.threads[t].InQueue?
    ensures !s.threads[u].Touching?
  {
    assert StageOk(s, t) && StageOk(s, u);
  }

  lemma {:induction false} OwnStageOk<T>(s: State<T>, a: Action<T>)
    requires Inv(s) && Enabled(s, a)
    ensures StageOk(Step(s, a), a.t)
  {
    assert StageOk(s, a.t);
  }

  lemma {:induction false} OtherStageOk<T>(s: State<T>, a: Action<T>, t: nat)
    requires Inv(s) && Enabled(s, a) && t < |s.threads| && t != a.t
    ensures StageOk(Step(s, a), t)
  {
    assert StageOk(s, a.t) && StageOk(s, t);
  }

  lemma {:induction false} StepNeverRaces<T>(s: State<T>, a: Action<T>)
    requires Inv(s) && Enabled(s, a)
    ensures !Step(s, a).raced
  {
    if a.Touch? {
      forall u | 0 <= u < |s.threads|
        ensures !s.threads[u].Touching?
      {
        TouchesAlone(s, a.t, u);
      }
    }
  }

  lemma {:induction false} StepKeepsInv<T>(s: State<T>, a: Action<T>)
    requires Inv(s) && Enabled(s, a)
    ensures Inv(Step(s, a)) && |Step(s, a).threads| == |s.threads|
  {
    StepNeverRaces(s, a);
    forall t | 0 <= t < |s.threads|
      ensures StageOk(Step(s, a), t)
    {
      if t == a.t { OwnStageOk(s, a); } else { OtherStageOk(s, a, t); }
    }
  }

  /** In every reachable state each mutex is owned by exactly the thread whose stage says so, no data race on the deque
      has happened, and an operation under way has read what is still there. */
  lemma {:induction false} Reachable<T>(n: nat, acts: seq<Action<T>>)
    requires Exec(n, acts).Some?
    ensures Inv(Exec(n, acts).value) && |Exec(n, acts).value.threads| == n
  {
    if |acts| > 0 {
      Reachable(n, Init(acts));
      StepKeepsInv(Exec(n, Init(acts)).value, Last(acts));
    }
  }

  /** No two threads own the same mutex, and nobody holds muxBlocking while waiting for muxQueue. */
  lemma {:induction false} MutualExclusion<T>(n: nat, acts: seq<Action<T>>, t: nat, u: nat)
    requires Exec(n, acts).Some? && t < n && u < n
    ensures var th := Exec(n, acts).value.threads;
            && |th| == n
            && (OwnsQueue(th[t]) && OwnsQueue(th[u]) ==> t == u)
            && (OwnsBlocking(th[t]) && OwnsBlocking(th[u]) ==> t == u)
            && !(OwnsBlocking(th[t]) && th[t].WantQueue?)
  {
    Reachable(n, acts);
    var s := Exec(n, acts).value;
    assert StageOk(s, t) && StageOk(s, u);
  }

  // ---------------------------------------------------------------- deadlock freedom

  predicate Resting<T>(st: Stage<T>) {
    st.Idle? || st.Asleep?
  }

  // The one internal action that thread t is waiting to take.
  ghost predicate CanMove<T(!new)>(s: State<T>, t: nat) {
    exists a: Action<T> :: a.t == t && Internal(a) && Enabled(s, a)
  }

  lemma {:induction false} OwnerOfBlockingMoves<T(!new)>(s: State<T>)
    requires Inv(s) && !s.undefined && s.muxBlocking.Some?
    ensures CanMove(s, s.muxBlocking.value)
  {
    var b := s.muxBlocking.value;
    assert StageOk(s, b);
    if s.threads[b].OwnsBoth? {
      if w :| 0 <= w < |s.threads| && s.threads[w].Asleep? {
        assert Enabled(s, Notify(b, Some(w)));
      } else {
        assert Enabled(s, Notify(b, None));
      }
    } else if s.threads[b].Drowsy? {
      assert Enabled(s, Sleep(b));
    } else {
      assert Enabled(s, UnlockBlocking(b));
    }
  }

  lemma {:induction false} OwnerOfQueueMoves<T(!new)>(s: State<T>) returns (t: nat)
    requires Inv(s) && !s.undefined && s.muxQueue.Some?
    ensures CanMove(s, t)
  {
    t := s.muxQueue.value;
    assert StageOk(s, t);
    if s.threads[t].InQueue? {
      assert Enabled(s, Touch(t));
    } else if s.threads[t].Touching? {
      assert Enabled(s, Access(t));
    } else if s.threads[t].Answered? {
      assert Enabled(s, UnlockQueue(t));
    } else if s.muxBlocking.Some? {
      OwnerOfBlockingMoves(s);
      t := s.muxBlocking.value;
    } else {
      assert Enabled(s, LockBlocking(t));
    }
  }

  /** A reachable state is stuck exactly when every thread is outside the queue or asleep in `wait`. */
  lemma {:induction false} DeadlockFree<T(!new)>(n: nat, acts: seq<Action<T>>)
    requires Exec(n, acts).Some? && !Exec(n, acts).value.undefined
    ensures var s := Exec(n, acts).value;
            (exists t: nat :: CanMove(s, t)) <==> (exists t :: 0 <= t < |s.threads| && !Resting(s.threads[t]))
  {
    Reachable(n, acts);
    var s := Exec(n, acts).value;
    if t :| 0 <= t < |s.threads| && !Resting(s.threads[t]) {
      if s.muxQueue.Some? {
        var u := OwnerOfQueueMoves(s);
      } else if s.muxBlocking.Some? {
        OwnerOfBlockingMoves(s);
      } else {
        assert StageOk(s, t);
        assert if s.threads[t].WantQueue? then Enabled(s, LockQueue(t)) else Enabled(s, LockBlocking(t));
        assert CanMove(s, t);
      }
    }
  }

  // ---------------------------------------------------------------- every call ends

  // How many internal actions the thread can still take, counting the wakeup that a pending push will cause.
  function Weight<T>(st: Stage<T>): nat {
    match st
    case Idle => 0
    case WantQueue(c) => if c.Wait? then 6 else if IsPush(c.op) then 15 else 4
    case InQueue(c) => if c.Wait? then 5 else if IsPush(c.op) then 14 else 3
    case Touching(c, _) => if c.Wait? then 4 else if IsPush(c.op) then 13 else 2
    case Emplaced(_) => 12
    case OwnsBoth(_) => 11
    case Signalled(_) => 2
    case Answered(c, _) => if c.Wait? then 3 else 1
    case Gap => 2
    case Drowsy => 1
    case Asleep => 0
    case Woken => 8
    case Awake => 7
  }

  function TotalWeight<T>(threads: seq<Stage<T>>): nat {
    if |threads| == 0 then 0 else TotalWeight(Init(threads)) + Weight(Last(threads))
  }

  lemma {:induction false} WeightUpdate<T>(threads: seq<Stage<T>>, t: nat, st: Stage<T>)
    requires t < |threads|
    ensures TotalWeight(threads[t := st]) == TotalWeight(threads) - Weight(threads[t]) + Weight(st)
  {
    var after := threads[t := st];
    if t == |threads| - 1 {
      assert Init(after) == Init(threads);
    } else {
      assert Init(after) == Init(threads)[t := st];
      WeightUpdate(Init(threads), t, st);
    }
  }

  lemma {:induction false} StartWeightless<T>(n: nat)
    ensures TotalWeight(Start<T>(n).threads) == 0
  {
    if n > 0 {
      assert Init(Start<T>(n).threads) == Start<T>(n - 1).threads;
      StartWeightless<T>(n - 1);
    }
  }

  // The most that an action can add to the work left; internal actions use up one unit.
  function Budget<T>(a: Action<T>): int {
    if a.Invoke? then 15 else if a.Spurious? then 8 else -1
  }

  lemma {:induction false} OwnWeight<T>(s: State<T>, a: Action<T>)
    requires Inv(s) && Enabled(s, a) && !Step(s, a).undefined
    ensures Weight(Step(s, a).threads[a.t]) <=
            Weight(s.threads[a.t]) + Budget(a) - if a.Notify? then Weight<T>(Woken) else 0
  {
    assert StageOk(s, a.t);
  }

  lemma {:induction false} StepWeight<T>(s: State<T>, a: Action<T>)
    requires Inv(s) && Enabled(s, a) && !Step(s, a).undefined
    ensures TotalWeight(Step(s, a).threads) <= TotalWeight(s.threads) + Budget(a)
  {
    OwnWeight(s, a);
    var next := Step(s, a).threads[a.t];
    WeightUpdate(s.threads, a.t, next);
    if a.Notify? && a.woken.Some? {
      WeightUpdate(s.threads[a.t := next], a.woken.value, Woken);
    } else {
      assert Step(s, a).threads == s.threads[a.t := next];
    }
  }

  // Calls made, spurious wakeups suffered, and all other actions.
  function Tally<T>(acts: seq<Action<T>>): (int, int, int) {
    if |acts| == 0 then (0, 0, 0)
    else
      var (calls, wakeups, steps) := Tally(Init(acts));
      match Last(acts)
      case Invoke(_, _) => (calls + 1, wakeups, steps)
      case Spurious(_) => (calls, wakeups + 1, steps)
      case _ => (calls, wakeups, steps + 1)
  }

  /** No schedule can keep the queue busy by itself: the steps taken inside it are bounded by the calls made and the
      spurious wakeups suffered. With `DeadlockFree`, every run without new calls ends with all threads idle or
      asleep. */
  lemma {:induction false} BoundedWork<T>(n: nat, acts: seq<Action<T>>)
    requires Exec(n, acts).Some? && !Exec(n, acts).value.undefined
    ensures var (calls, wakeups, steps) := Tally(acts);
            steps + TotalWeight(Exec(n, acts).value.threads) <= 15 * calls + 8 * wakeups
  {
    if |acts| == 0 {
      StartWeightless<T>(n);
    } else {
      var s := Exec(n, Init(acts)).value;
      Reachable(n, Init(acts));
      BoundedWork(n, Init(acts));
      StepWeight(s, Last(acts));
    }
  }
}
