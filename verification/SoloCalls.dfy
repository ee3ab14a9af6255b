/** What a thread can do next, and what a call does when it runs alone.

    Mutual exclusion and linearizability say what cannot go wrong. This module says that things do happen: any call may
    be made at any moment, a thread is held up by nothing but a mutex that another thread owns, and a call that runs
    while everybody else is idle or asleep completes, with the result and the deque that `Perform` gives. In particular
    a push wakes a sleeping `wait`, and that `wait` returns. */
module SoloCalls {
  import opened Base
  import opened AtomicDeque
  import opened TsqueueProtocol

  // ---------------------------------------------------------------- what can happen next

  lemma {:induction false} ExecNext<T>(n: nat, acts: seq<Action<T>>, a: Action<T>)
    requires Exec(n, acts).Some? && Enabled(Exec(n, acts).value, a)
    ensures Exec(n, acts + [a]) == Some(Step(Exec(n, acts).value, a))
  {
    assert Init(acts + [a]) == acts && Last(acts + [a]) == a;
  }

  /** A thread outside the queue can make any call at any moment, whatever the other threads are doing. */
  lemma {:induction false} AnyCallAnytime<T>(n: nat, acts: seq<Action<T>>, t: nat, call: Call<T>)
    requires Exec(n, acts).Some? && !Exec(n, acts).value.undefined
    requires t < |Exec(n, acts).value.threads| && Exec(n, acts).value.threads[t].Idle?
    ensures Exec(n, acts + [Invoke(t, call)]).Some?
  {
    ExecNext(n, acts, Invoke(t, call));
  }

  ghost predicate Sleeps<T>(s: State<T>, w: nat) {
    w < |s.threads| && s.threads[w].Asleep?
  }

  /** A sleeper can wake up spuriously at any moment. */
  lemma {:induction false} AnySleeperMayWake<T>(n: nat, acts: seq<Action<T>>, w: nat)
    requires Exec(n, acts).Some? && !Exec(n, acts).value.undefined && Sleeps(Exec(n, acts).value, w)
    ensures Exec(n, acts + [Spurious(w)]).Some? && !Sleeps(Exec(n, acts + [Spurious(w)]).value, w)
  {
    ExecNext(n, acts, Spurious(w));
  }

  /** A push about to notify can wake any sleeper, and wakes one if there is one. */
  lemma {:induction false} NotifyWakesAny<T>(n: nat, acts: seq<Action<T>>, p: nat, w: nat)
    requires Exec(n, acts).Some? && !Exec(n, acts).value.undefined && Sleeps(Exec(n, acts).value, w)
    requires p < |Exec(n, acts).value.threads| && Exec(n, acts).value.threads[p].OwnsBoth?
    ensures Exec(n, acts + [Notify(p, Some(w))]).Some? && !Sleeps(Exec(n, acts + [Notify(p, Some(w))]).value, w)
    ensures !Enabled(Exec(n, acts).value, Notify(p, None))
  {
    ExecNext(n, acts, Notify(p, Some(w)));
  }

  // The mutex that a thread is waiting for is owned.
  predicate HeldUp<T>(s: State<T>, t: nat)
    requires t < |s.threads|
  {
    var st := s.threads[t];
    (st.WantQueue? && s.muxQueue.Some?) || ((st.Emplaced? || st.Gap? || st.Woken?) && s.muxBlocking.Some?)
  }

  lemma {:induction false} FreeMoves<T(!new)>(s: State<T>, t: nat)
    requires Inv(s) && !s.undefined && t < |s.threads| && !Resting(s.threads[t]) && !HeldUp(s, t)
    ensures CanMove(s, t)
  {
    assert StageOk(s, t);
    var st := s.threads[t];
    if OwnsBlocking(st) {
      OwnerOfBlockingMoves(s);
    } else if st.WantQueue? {
      assert Enabled(s, LockQueue(t));
    } else if st.InQueue? {
      assert Enabled(s, Touch(t));
    } else if st.Touching? {
      assert Enabled(s, Access(t));
    } else if st.Answered? {
      assert Enabled(s, UnlockQueue(t));
    } else {
      assert Enabled(s, LockBlocking(t));
    }
  }

  /** In every reachable state a thread inside the queue has a next step of its own exactly if it is not asleep and does
      not wait for a mutex that is owned; and it is then owned by another thread. */
  lemma {:induction false} OnlyMutexesHoldUp<T(!new)>(n: nat, acts: seq<Action<T>>, t: nat)
    requires Exec(n, acts).Some? && !Exec(n, acts).value.undefined && t < n
    ensures t < |Exec(n, acts).value.threads|
    ensures var s := Exec(n, acts).value;
            && (CanMove(s, t) <==> !Resting(s.threads[t]) && !HeldUp(s, t))
            && (HeldUp(s, t) ==>
                  exists u | 0 <= u < |s.threads| && u != t ::
                    if s.threads[t].WantQueue? then OwnsQueue(s.threads[u]) else OwnsBlocking(s.threads[u]))
  {
    Reachable(n, acts);
    var s := Exec(n, acts).value;
    if !Resting(s.threads[t]) && !HeldUp(s, t) {
      FreeMoves(s, t);
    }
    if HeldUp(s, t) {
      var u := if s.threads[t].WantQueue? then s.muxQueue.value else s.muxBlocking.value;
      assert StageOk(s, u) && StageOk(s, t);
    }
  }

  // ---------------------------------------------------------------- paths

  // Concrete runs are built one action at a time: the states from s0 on, one more than the actions.
  ghost predicate Path<T>(s0: State<T>, states: seq<State<T>>, acts: seq<Action<T>>) {
    && |states| == |acts| + 1 && states[0] == s0
    && forall i {:trigger acts[i]} | 0 <= i < |acts| ::
         Enabled(states[i], acts[i]) && states[i + 1] == Step(states[i], acts[i])
  }

  lemma {:induction false} PathInit<T>(s0: State<T>, states: seq<State<T>>, acts: seq<Action<T>>)
    requires Path(s0, states, acts) && |acts| > 0
    ensures Path(s0, Init(states), Init(acts))
    ensures Enabled(Last(Init(states)), Last(acts)) && Last(states) == Step(Last(Init(states)), Last(acts))
  {
    assert forall i {:trigger Init(acts)[i]} | 0 <= i < |Init(acts)| :: Init(acts)[i] == acts[i];
    assert acts[|acts| - 1] == Last(acts);
  }

  // The schedule leads to this state.
  ghost predicate Reaches<T>(n: nat, acts: seq<Action<T>>, s: State<T>) {
    Exec(n, acts) == Some(s)
  }

  lemma {:induction false} ReachesNext<T>(n: nat, acts: seq<Action<T>>, s: State<T>, a: Action<T>)
    requires Reaches(n, acts, s) && Enabled(s, a)
    ensures Reaches(n, acts + [a], Step(s, a))
  {
    ExecNext(n, acts, a);
  }

  lemma {:induction false} PathReaches<T>(n: nat, before: seq<Action<T>>, s0: State<T>, states: seq<State<T>>,
                                          acts: seq<Action<T>>)
    requires Reaches(n, before, s0) && Path(s0, states, acts)
    ensures Reaches(n, before + acts, Last(states))
  {
    if |acts| == 0 {
      assert before + acts == before;
    } else {
      PathInit(s0, states, acts);
      PathReaches(n, before, s0, Init(states), Init(acts));
      ReachesNext(n, before + Init(acts), Last(Init(states)), Last(acts));
      assert before + acts == (before + Init(acts)) + [Last(acts)];
    }
  }

  lemma {:induction false} PathExec<T>(n: nat, before: seq<Action<T>>, states: seq<State<T>>, acts: seq<Action<T>>)
    requires Exec(n, before).Some? && Path(Exec(n, before).value, states, acts)
    ensures Exec(n, before + acts) == Some(Last(states))
  {
    PathReaches(n, before, Exec(n, before).value, states, acts);
  }

  lemma {:induction false} Go<T>(s0: State<T>, states: seq<State<T>>, acts: seq<Action<T>>, a: Action<T>)
    returns (states': seq<State<T>>, acts': seq<Action<T>>)
    requires Path(s0, states, acts) && Enabled(Last(states), a)
    ensures Path(s0, states', acts') && acts' == acts + [a] && Last(states') == Step(Last(states), a)
  {
    states', acts' := states + [Step(Last(states), a)], acts + [a];
  }

  // Nobody owns a mutex, and thread t is outside the queue.
  ghost predicate Ready<T>(s: State<T>, t: nat) {
    !s.undefined && s.muxQueue.None? && s.muxBlocking.None? && t < |s.threads| && s.threads[t].Idle?
  }

  lemma {:induction false} RestIsReady<T>(n: nat, acts: seq<Action<T>>)
    requires Exec(n, acts).Some? && var th := Exec(n, acts).value.threads; forall t | 0 <= t < |th| :: Resting(th[t])
    ensures Exec(n, acts).value.muxQueue.None? && Exec(n, acts).value.muxBlocking.None?
    ensures |Exec(n, acts).value.threads| == n
  {
    Reachable(n, acts);
    var s := Exec(n, acts).value;
    assert s.muxQueue.Some? ==> StageOk(s, s.muxQueue.value);
    assert s.muxBlocking.Some? ==> StageOk(s, s.muxBlocking.value);
  }

  // ---------------------------------------------------------------- the start of a call

  // A call that is not a push, from call to return.
  function QuickCall<T>(t: nat, op: Op<T>): seq<Action<T>> {
    [Invoke(t, Operation(op)), LockQueue(t), Touch(t), Access(t), UnlockQueue(t)]
  }

  lemma {:induction false} RunToTouch<T>(s0: State<T>, states: seq<State<T>>, acts: seq<Action<T>>, t: nat, op: Op<T>)
    returns (states': seq<State<T>>)
    requires Path(s0, states, acts) && Ready(Last(states), t) && Perform(Last(states).deqQueue, op).Defined?
    ensures Path(s0, states', acts + QuickCall(t, op)[..3])
    ensures var s, s' := Last(states), Last(states');
            && s'.threads == s.threads[t := Touching(Operation(op), EndItem(s.deqQueue, op))]
            && s'.muxQueue == Some(t) && s'.muxBlocking.None? && s'.deqQueue == s.deqQueue && !s'.undefined
            && s'.trace == s.trace + [Called(t, Operation(op))]
  {
    var acts': seq<Action<T>>;
    states', acts' := Go(s0, states, acts, Invoke(t, Operation(op)));
    states', acts' := Go(s0, states', acts', LockQueue(t));
    states', acts' := Go(s0, states', acts', Touch(t));
    assert acts' == acts + QuickCall(t, op)[..3];
  }

  // ---------------------------------------------------------------- a push

  // A push from call to return, with the thread that its notification wakes.
  function PushCall<T>(t: nat, op: Op<T>, woken: Option<nat>): seq<Action<T>> {
    [Invoke(t, Operation(op)), LockQueue(t), Touch(t), Access(t), LockBlocking(t), Notify(t, woken),
     UnlockBlocking(t), UnlockQueue(t)]
  }

  // notify_one wakes a sleeper if there is one.
  ghost predicate MayWake<T>(s: State<T>, woken: Option<nat>) {
    match woken
    case None => forall w | 0 <= w < |s.threads| :: !s.threads[w].Asleep?
    case Some(w) => w < |s.threads| && s.threads[w].Asleep?
  }

  function WokenUp<T>(threads: seq<Stage<T>>, woken: Option<nat>): seq<Stage<T>>
    requires woken.Some? ==> woken.value < |threads|
  {
    if woken.Some? then threads[woken.value := Woken] else threads
  }

  lemma {:induction false} RunPushIn<T>(s0: State<T>, states: seq<State<T>>, acts: seq<Action<T>>, t: nat, op: Op<T>,
                                        woken: Option<nat>)
    returns (states': seq<State<T>>)
    requires Path(s0, states, acts) && Ready(Last(states), t) && IsPush(op)
    ensures Path(s0, states', acts + PushCall(t, op, woken)[..5])
    ensures var s, s' := Last(states), Last(states');
            && s'.threads == s.threads[t := OwnsBoth(op)] && s'.deqQueue == Perform(s.deqQueue, op).deq
            && s'.muxQueue == s'.muxBlocking == Some(t) && !s'.undefined
            && s'.trace == s.trace + [Called(t, Operation(op)), Took(t, op, Done, Some(t))]
  {
    states' := RunToTouch(s0, states, acts, t, op);
    var acts' := acts + QuickCall(t, op)[..3];
    states', acts' := Go(s0, states', acts', Access(t));
    states', acts' := Go(s0, states', acts', LockBlocking(t));
    assert acts' == acts + PushCall(t, op, woken)[..5];
  }

  lemma {:induction false} RunPush<T>(s0: State<T>, states: seq<State<T>>, acts: seq<Action<T>>, t: nat, op: Op<T>,
                                      woken: Option<nat>)
    returns (states': seq<State<T>>)
    requires Path(s0, states, acts) && Ready(Last(states), t) && IsPush(op) && MayWake(Last(states), woken)
    ensures Path(s0, states', acts + PushCall(t, op, woken)) && Ready(Last(states'), t)
    ensures var s, s' := Last(states), Last(states');
            && s'.threads == WokenUp(s.threads, woken) && s'.deqQueue == Perform(s.deqQueue, op).deq
            && s'.trace == s.trace + [Called(t, Operation(op)), Took(t, op, Done, Some(t)), Notified(t),
                                      Returned(t, Done)]
  {
    states' := RunPushIn(s0, states, acts, t, op, woken);
    var acts' := acts + PushCall(t, op, woken)[..5];
    assert MayWake(Last(states'), woken);
    states', acts' := Go(s0, states', acts', Notify(t, woken));
    states', acts' := Go(s0, states', acts', UnlockBlocking(t));
    states', acts' := Go(s0, states', acts', UnlockQueue(t));
    assert acts' == acts + PushCall(t, op, woken);
    assert Last(states').threads == WokenUp(Last(states).threads, woken);
  }

  // ---------------------------------------------------------------- any other operation

  lemma {:induction false} RunQuickCall<T>(s0: State<T>, states: seq<State<T>>, acts: seq<Action<T>>, t: nat, op: Op<T>)
    returns (states': seq<State<T>>)
    requires Path(s0, states, acts) && Ready(Last(states), t) && !IsPush(op)
    requires Perform(Last(states).deqQueue, op).Defined?
    ensures Path(s0, states', acts + QuickCall(t, op)) && Ready(Last(states'), t)
    ensures var s, s' := Last(states), Last(states');
            var Defined(q, ret) := Perform(s.deqQueue, op);
            && s'.threads == s.threads && s'.deqQueue == q
            && s'.trace == s.trace + [Called(t, Operation(op)), Took(t, op, ret, Some(t)), Returned(t, ret)]
  {
    states' := RunToTouch(s0, states, acts, t, op);
    var q := Last(states).deqQueue;
    assert Complete(q, op, EndItem(q, op)) == Perform(q, op);
    var acts' := acts + QuickCall(t, op)[..3];
    states', acts' := Go(s0, states', acts', Access(t));
    states', acts' := Go(s0, states', acts', UnlockQueue(t));
    assert acts' == acts + QuickCall(t, op);
    assert Last(states').threads == Last(states).threads;
  }

  /** Whenever everybody is idle or asleep, any call other than `wait` by an idle thread runs to its end, returns what
      the sequential deque returns and leaves the deque that it leaves. A push also wakes the sleeper that its
      notification chooses, and nobody else. */
  lemma {:induction false} CallAlone<T>(n: nat, acts: seq<Action<T>>, t: nat, op: Op<T>, woken: Option<nat>)
    requires Exec(n, acts).Some? && !Exec(n, acts).value.undefined
    requires var th := Exec(n, acts).value.threads;
             t < |th| && th[t].Idle? && forall u | 0 <= u < |th| :: Resting(th[u])
    requires Perform(Exec(n, acts).value.deqQueue, op).Defined? && MayWake(Exec(n, acts).value, woken)
    ensures var s := Exec(n, acts).value;
            var Defined(q, ret) := Perform(s.deqQueue, op);
            var more := acts + if IsPush(op) then PushCall(t, op, woken) else QuickCall(t, op);
            && Exec(n, more).Some?
            && var s' := Exec(n, more).value;
               && s'.deqQueue == q && |s'.trace| > 0 && Last(s'.trace) == Returned(t, ret)
               && s'.threads == if IsPush(op) then WokenUp(s.threads, woken) else s.threads
  {
    var s := Exec(n, acts).value;
    RestIsReady(n, acts);
    if IsPush(op) {
      var states := RunPush(s, [s], [], t, op, woken);
      assert [] + PushCall(t, op, woken) == PushCall(t, op, woken);
      PathExec(n, acts, states, PushCall(t, op, woken));
    } else {
      var states := RunQuickCall(s, [s], [], t, op);
      assert [] + QuickCall(t, op) == QuickCall(t, op);
      PathExec(n, acts, states, QuickCall(t, op));
    }
  }

  // ---------------------------------------------------------------- a wait

  // One round of the loop of `wait`, from the call of `empty` to its answer.
  function LookPart<T>(w: nat): seq<Action<T>> {
    [LockQueue(w), Touch(w), Access(w), UnlockQueue(w)]
  }

  // From the wakeup to the next round.
  function RisePart<T>(w: nat): seq<Action<T>> {
    [LockBlocking(w), UnlockBlocking(w)]
  }

  // To sleep, after seeing an empty deque.
  function SleepPart<T>(w: nat): seq<Action<T>> {
    [LockBlocking(w), Sleep(w)]
  }

  // What w does from its next look at the deque on.
  function Rest<T>(w: nat, empty: bool): seq<Action<T>> {
    LookPart(w) + if empty then SleepPart(w) else []
  }

  // How `wait` ends when nobody interferes: asleep if there is nothing, and returned otherwise.
  ghost predicate Settled<T>(s: State<T>, s': State<T>, w: nat) {
    && w < |s.threads| && s'.deqQueue == s.deqQueue
    && s'.threads == s.threads[w := if s.deqQueue == [] then Asleep else Idle]
    && (s.deqQueue != [] ==> |s'.trace| > 0 && Last(s'.trace) == Returned(w, Done))
    && !s'.undefined && s'.muxQueue.None? && s'.muxBlocking.None?
  }

  lemma {:induction false} RunLookIn<T>(s0: State<T>, states: seq<State<T>>, acts: seq<Action<T>>, w: nat)
    returns (states': seq<State<T>>)
    requires Path(s0, states, acts) && w < |Last(states).threads| && Last(states).threads[w] == WantQueue(Wait)
    requires !Last(states).undefined && Last(states).muxQueue.None? && Last(states).muxBlocking.None?
    ensures Path(s0, states', acts + LookPart(w)[..2])
    ensures var s, s' := Last(states), Last(states');
            && s'.threads == s.threads[w := Touching(Wait, None)] && s'.deqQueue == s.deqQueue
            && !s'.undefined && s'.muxQueue == Some(w) && s'.muxBlocking.None?
  {
    var acts': seq<Action<T>>;
    states', acts' := Go(s0, states, acts, LockQueue(w));
    states', acts' := Go(s0, states', acts', Touch(w));
    assert acts' == acts + LookPart(w)[..2];
  }

  lemma {:induction false} RunLook<T>(s0: State<T>, states: seq<State<T>>, acts: seq<Action<T>>, w: nat)
    returns (states': seq<State<T>>)
    requires Path(s0, states, acts) && w < |Last(states).threads| && Last(states).threads[w] == WantQueue(Wait)
    requires !Last(states).undefined && Last(states).muxQueue.None? && Last(states).muxBlocking.None?
    ensures Path(s0, states', acts + LookPart(w))
    ensures var s, s' := Last(states), Last(states');
            && s'.threads == s.threads[w := if s.deqQueue == [] then Gap else Idle] && s'.deqQueue == s.deqQueue
            && (s.deqQueue != [] ==> |s'.trace| > 0 && Last(s'.trace) == Returned(w, Done))
            && !s'.undefined && s'.muxQueue.None? && s'.muxBlocking.None?
  {
    states' := RunLookIn(s0, states, acts, w);
    var acts' := acts + LookPart(w)[..2];
    states', acts' := Go(s0, states', acts', Access(w));
    states', acts' := Go(s0, states', acts', UnlockQueue(w));
    assert acts' == acts + LookPart(w);
  }

  lemma {:induction false} RunRest<T>(s0: State<T>, states: seq<State<T>>, acts: seq<Action<T>>, w: nat)
    returns (states': seq<State<T>>)
    requires Path(s0, states, acts) && w < |Last(states).threads| && Last(states).threads[w] == WantQueue(Wait)
    requires !Last(states).undefined && Last(states).muxQueue.None? && Last(states).muxBlocking.None?
    ensures Path(s0, states', acts + Rest(w, Last(states).deqQueue == []))
    ensures Settled(Last(states), Last(states'), w)
  {
    states' := RunLook(s0, states, acts, w);
    var acts' := acts + LookPart(w);
    if Last(states).deqQueue == [] {
      states', acts' := Go(s0, states', acts', LockBlocking(w));
      states', acts' := Go(s0, states', acts', Sleep(w));
    }
    assert acts' == acts + Rest(w, Last(states).deqQueue == []);
  }

  lemma {:induction false} RunRise<T>(s0: State<T>, states: seq<State<T>>, acts: seq<Action<T>>, w: nat)
    returns (states': seq<State<T>>)
    requires Path(s0, states, acts) && w < |Last(states).threads| && Last(states).threads[w].Woken?
    requires !Last(states).undefined && Last(states).muxQueue.None? && Last(states).muxBlocking.None?
    ensures Path(s0, states', acts + RisePart(w) + Rest(w, Last(states).deqQueue == []))
    ensures Settled(Last(states), Last(states'), w)
  {
    var acts': seq<Action<T>>;
    states', acts' := Go(s0, states, acts, LockBlocking(w));
    states', acts' := Go(s0, states', acts', UnlockBlocking(w));
    assert acts' == acts + RisePart(w);
    states' := RunRest(s0, states', acts', w);
  }

  /** `wait` called while everybody else is idle or asleep: it returns at once if there is an item, and goes to sleep
      if there is none. */
  lemma {:induction false} WaitAlone<T>(n: nat, acts: seq<Action<T>>, w: nat)
    requires Exec(n, acts).Some? && !Exec(n, acts).value.undefined
    requires var th := Exec(n, acts).value.threads;
             w < |th| && th[w].Idle? && forall u | 0 <= u < |th| :: Resting(th[u])
    ensures var s := Exec(n, acts).value;
            var more := acts + ([Invoke(w, Wait)] + Rest(w, s.deqQueue == []));
            Exec(n, more).Some? && Settled(s, Exec(n, more).value, w)
  {
    var s := Exec(n, acts).value;
    RestIsReady(n, acts);
    var states, call := Go(s, [s], [], Invoke(w, Wait));
    assert call == [Invoke(w, Wait)];
    states := RunRest(s, states, call, w);
    PathExec(n, acts, states, [Invoke(w, Wait)] + Rest(w, s.deqQueue == []));
  }

  /** A spurious wakeup is harmless: with an empty deque w goes back to sleep, and with an item in it `wait` returns. */
  lemma {:induction false} SpuriousAlone<T>(n: nat, acts: seq<Action<T>>, w: nat)
    requires Exec(n, acts).Some? && !Exec(n, acts).value.undefined
    requires var th := Exec(n, acts).value.threads;
             w < |th| && th[w].Asleep? && forall u | 0 <= u < |th| :: Resting(th[u])
    ensures var s := Exec(n, acts).value;
            var more := acts + ([Spurious(w)] + RisePart(w) + Rest(w, s.deqQueue == []));
            Exec(n, more).Some? && Settled(s, Exec(n, more).value, w)
  {
    var s := Exec(n, acts).value;
    RestIsReady(n, acts);
    var states, wakeup := Go(s, [s], [], Spurious(w));
    assert wakeup == [Spurious(w)];
    states := RunRise(s, states, wakeup, w);
    PathExec(n, acts, states, [Spurious(w)] + RisePart(w) + Rest(w, s.deqQueue == []));
  }

  /** The handover: from any reachable state with w asleep and everybody else idle or asleep, a push by p that wakes w,
      followed by w's own steps, ends with `wait` returned, the item in the deque and everybody else where they were. */
  lemma {:induction false} PushReturnsWait<T>(n: nat, acts: seq<Action<T>>, p: nat, w: nat, op: Op<T>)
    requires Exec(n, acts).Some? && !Exec(n, acts).value.undefined && IsPush(op)
    requires var th := Exec(n, acts).value.threads;
             && p < |th| && w < |th| && th[p].Idle? && th[w].Asleep?
             && forall u | 0 <= u < |th| :: Resting(th[u])
    ensures var s := Exec(n, acts).value;
            var more := acts + (PushCall(p, op, Some(w)) + RisePart(w) + Rest(w, false));
            && Exec(n, more).Some?
            && var s' := Exec(n, more).value;
               && s'.deqQueue == (if op.PushBack? then s.deqQueue + [op.item] else [op.item] + s.deqQueue)
               && |s'.trace| > 0 && Last(s'.trace) == Returned(w, Done)
               && s'.threads == s.threads[w := Idle] && !s'.undefined
  {
    var s := Exec(n, acts).value;
    RestIsReady(n, acts);
    var push := PushCall(p, op, Some(w));
    var states := RunPush(s, [s], [], p, op, Some(w));
    assert [] + push == push;
    states := RunRise(s, states, push, w);
    PathExec(n, acts, states, push + RisePart(w) + Rest(w, false));
  }
}
