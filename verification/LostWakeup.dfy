/** When a `wait` can sleep through a push, exactly.

    `wait` releases `muxQueue` after seeing an empty deque and takes `muxBlocking` only afterwards. A push that runs in
    between notifies nobody. With one thread w that is the only one to wait or remove, this module shows that this is
    the only way to lose a wakeup, that it does happen, and that the next completed push repairs it. */
module LostWakeup {
  import opened Base
  import opened AtomicDeque
  import opened TsqueueProtocol
  import opened SoloCalls

  // Threads other than w may push and may look at the size, nothing else.
  predicate Producing<T>(call: Call<T>) {
    call.Operation? && (IsPush(call.op) || call.op.Empty? || call.op.Count?)
  }

  predicate SoleConsumer<T>(acts: seq<Action<T>>, w: nat) {
    forall i | 0 <= i < |acts| && acts[i].Invoke? && acts[i].t != w :: Producing(acts[i].call)
  }

  // A notify ran while w was between its last emptiness check and taking muxBlocking.
  ghost predicate Missed<T>(n: nat, acts: seq<Action<T>>, w: nat)
    requires Exec(n, acts).Some? && w < n
    decreases |acts|
  {
    if |acts| == 0 then false
    else
      var s := Exec(n, Init(acts)).value;
      if Last(acts).Access? && Last(acts).t == w then false
      else if Last(acts).Notify? && w < |s.threads| && s.threads[w].Gap? then true
      else Missed(n, Init(acts), w)
  }

  ghost predicate NotifyPending<T>(s: State<T>) {
    exists p :: 0 <= p < |s.threads| && OwesNotify(s.threads[p])
  }

  // Where a thread can be that only produces.
  ghost predicate OnlyProduces<T>(st: Stage<T>) {
    && (st.WantQueue? || st.InQueue? || st.Touching? || st.Answered? ==> Producing(st.call))
    && !st.Gap? && !st.Drowsy? && !st.Asleep? && !st.Woken? && !st.Awake?
  }

  ghost predicate Account<T>(s: State<T>, w: nat, missed: bool)
    requires w < |s.threads|
  {
    var st := s.threads[w];
    && (forall t | 0 <= t < |s.threads| && t != w :: OnlyProduces(s.threads[t]))
    && (st.Answered? && st.call.Wait? && st.ret == Flag(true) ==> s.deqQueue == [] && !missed)
    && (st.Gap? || st.Drowsy? || st.Asleep? ==> (s.deqQueue != [] <==> NotifyPending(s) || missed))
  }

  ghost predicate MissedNow<T>(s: State<T>, a: Action<T>, w: nat, missed: bool)
    requires w < |s.threads|
  {
    if a.Access? && a.t == w then false
    else if a.Notify? && s.threads[w].Gap? then true
    else missed
  }

  lemma {:induction false} PendingIsOwner<T>(s: State<T>)
    requires Inv(s)
    ensures NotifyPending(s) <==> s.muxQueue.Some? && OwesNotify(s.threads[s.muxQueue.value])
  {
    if p :| 0 <= p < |s.threads| && OwesNotify(s.threads[p]) {
      assert StageOk(s, p);
    }
  }

  lemma {:induction false} OwnStepKeepsAccount<T>(s: State<T>, a: Action<T>, w: nat, missed: bool)
    requires Inv(s) && Enabled(s, a) && a.t == w && Account(s, w, missed)
    ensures Account(Step(s, a), w, MissedNow(s, a, w, missed))
  {
    assert StageOk(s, w);
    StepKeepsInv(s, a);
    assert StageOk(Step(s, a), w);
    PendingIsOwner(s);
    PendingIsOwner(Step(s, a));
  }

  lemma {:induction false} ProducerStays<T>(s: State<T>, a: Action<T>, w: nat)
    requires Inv(s) && Enabled(s, a) && a.t != w && w < |s.threads|
    requires forall t | 0 <= t < |s.threads| && t != w :: OnlyProduces(s.threads[t])
    requires a.Invoke? ==> Producing(a.call)
    ensures forall t | 0 <= t < |s.threads| && t != w :: OnlyProduces(Step(s, a).threads[t])
  {
    assert StageOk(s, a.t);
  }

  lemma {:induction false} OtherStepKeepsAccount<T>(s: State<T>, a: Action<T>, w: nat, missed: bool)
    requires Inv(s) && Enabled(s, a) && a.t != w && w < |s.threads| && Account(s, w, missed)
    requires a.Invoke? ==> Producing(a.call)
    ensures Account(Step(s, a), w, MissedNow(s, a, w, missed))
  {
    assert StageOk(s, a.t) && StageOk(s, w);
    ProducerStays(s, a, w);
    StepKeepsInv(s, a);
    PendingIsOwner(s);
    PendingIsOwner(Step(s, a));
  }

  lemma {:induction false} Accounted<T>(n: nat, acts: seq<Action<T>>, w: nat)
    requires Exec(n, acts).Some? && w < n && SoleConsumer(acts, w)
    ensures |Exec(n, acts).value.threads| == n
    ensures Account(Exec(n, acts).value, w, Missed(n, acts, w))
  {
    Reachable(n, acts);
    if |acts| > 0 {
      assert SoleConsumer(Init(acts), w);
      assert Last(acts) == acts[|acts| - 1];
      Accounted(n, Init(acts), w);
      Reachable(n, Init(acts));
      var s, a, missed := Exec(n, Init(acts)).value, Last(acts), Missed(n, Init(acts), w);
      if a.t == w {
        OwnStepKeepsAccount(s, a, w, missed);
      } else {
        OtherStepKeepsAccount(s, a, w, missed);
      }
    }
  }

  /** The exact account of lost wakeups. Whenever w sleeps: the deque is non-empty if and only if a push is still on its
      way to its notification, or a notification ran inside w's gap between the check and `muxBlocking`. */
  lemma {:induction false} LostExactlyInTheGap<T>(n: nat, acts: seq<Action<T>>, w: nat)
    requires Exec(n, acts).Some? && w < n && SoleConsumer(acts, w)
    requires w < |Exec(n, acts).value.threads| && Exec(n, acts).value.threads[w].Asleep?
    ensures var s := Exec(n, acts).value;
            s.deqQueue != [] <==> NotifyPending(s) || Missed(n, acts, w)
  {
    Accounted(n, acts, w);
  }

  /** Once nobody else is inside the queue, w sleeps on a non-empty deque exactly if a notification was missed. */
  lemma {:induction false} QuietSleep<T>(n: nat, acts: seq<Action<T>>, w: nat)
    requires Exec(n, acts).Some? && w < n && SoleConsumer(acts, w)
    ensures var s := Exec(n, acts).value;
            |s.threads| == n &&
            (s.threads[w].Asleep? && (forall t | 0 <= t < n && t != w :: s.threads[t].Idle?)
             ==> (s.deqQueue != [] <==> Missed(n, acts, w)))
  {
    Accounted(n, acts, w);
  }

  // ---------------------------------------------------------------- the next completed push

  // Pushes that p has started, and notifications that p has made.
  predicate StartsPush<T>(a: Action<T>, p: nat) {
    a.Invoke? && a.t == p && a.call.Operation? && IsPush(a.call.op)
  }

  function PushesBy<T>(acts: seq<Action<T>>, p: nat): nat {
    if |acts| == 0 then 0 else PushesBy(Init(acts), p) + if StartsPush(Last(acts), p) then 1 else 0
  }

  function NotifiesBy<T>(acts: seq<Action<T>>, p: nat): nat {
    if |acts| == 0 then 0
    else NotifiesBy(Init(acts), p) + if Last(acts).Notify? && Last(acts).t == p then 1 else 0
  }

  predicate BeforeNotify<T>(st: Stage<T>) {
    OwesNotify(st) || ((st.WantQueue? || st.InQueue? || st.Touching?) && st.call.Operation? && IsPush(st.call.op))
  }

  lemma {:induction false} StepNotifies<T>(s: State<T>, a: Action<T>, p: nat)
    requires Inv(s) && Enabled(s, a) && p < |s.threads|
    ensures |Step(s, a).threads| == |s.threads|
    ensures (if BeforeNotify(s.threads[p]) then 1 else 0) + (if StartsPush(a, p) then 1 else 0) ==
            (if BeforeNotify(Step(s, a).threads[p]) then 1 else 0) + (if a.Notify? && a.t == p then 1 else 0)
  {
    assert StageOk(s, a.t);
    if a.t != p && !a.Notify? {
      assert Step(s, a).threads[p] == s.threads[p];
    }
  }

  /** Every push notifies exactly once. */
  lemma {:induction false} OneNotifyPerPush<T>(n: nat, acts: seq<Action<T>>, p: nat)
    requires Exec(n, acts).Some? && p < n
    ensures |Exec(n, acts).value.threads| == n
    ensures PushesBy(acts, p) == NotifiesBy(acts, p) + if BeforeNotify(Exec(n, acts).value.threads[p]) then 1 else 0
  {
    if |acts| > 0 {
      OneNotifyPerPush(n, Init(acts), p);
      Reachable(n, Init(acts));
      StepNotifies(Exec(n, Init(acts)).value, Last(acts), p);
    }
  }

  lemma {:induction false} FindNotify<T>(acts: seq<Action<T>>, m: nat, p: nat) returns (i: nat)
    requires m <= |acts| && NotifiesBy(acts, p) > NotifiesBy(acts[..m], p)
    ensures m <= i < |acts| && acts[i].Notify? && acts[i].t == p
  {
    assert acts[..|acts|] == acts;
    assert m < |acts| ==> acts[..m] == Init(acts)[..m];
    if Last(acts).Notify? && Last(acts).t == p {
      i := |acts| - 1;
    } else {
      i := FindNotify(Init(acts), m, p);
    }
  }

  lemma {:induction false} NotifyWakes<T>(s: State<T>, a: Action<T>, w: nat)
    requires Enabled(s, a) && a.Notify? && w < |s.threads|
    requires forall t | 0 <= t < |s.threads| && t != w :: OnlyProduces(s.threads[t])
    ensures !Step(s, a).threads[w].Asleep?
  {
  }

  lemma {:induction false} AwakeAfterNotify<T>(n: nat, acts: seq<Action<T>>, w: nat)
    requires |acts| > 0 && Exec(n, acts).Some? && Last(acts).Notify? && w < n && SoleConsumer(acts, w)
    ensures |Exec(n, acts).value.threads| == n && !Exec(n, acts).value.threads[w].Asleep?
  {
    assert SoleConsumer(Init(acts), w);
    Accounted(n, Init(acts), w);
    NotifyWakes(Exec(n, Init(acts)).value, Last(acts), w);
  }

  lemma {:induction false} SolePrefix<T>(acts: seq<Action<T>>, k: nat, w: nat)
    requires SoleConsumer(acts, w) && k <= |acts|
    ensures SoleConsumer(acts[..k], w)
  {
  }

  // After these actions w exists and is not asleep; after these, p is outside the queue.
  ghost predicate AwakeAfter<T>(n: nat, acts: seq<Action<T>>, w: nat) {
    Exec(n, acts).Some? && var th := Exec(n, acts).value.threads; w < |th| && !th[w].Asleep?
  }

  ghost predicate IdleAfter<T>(n: nat, acts: seq<Action<T>>, p: nat) {
    Exec(n, acts).Some? && var th := Exec(n, acts).value.threads; p < |th| && th[p].Idle?
  }

  lemma {:induction false} AwakeRightAfter<T>(n: nat, acts: seq<Action<T>>, i: nat, w: nat)
    requires w < n && SoleConsumer(acts, w) && Exec(n, acts).Some? && i < |acts| && acts[i].Notify?
    ensures AwakeAfter(n, acts[..i + 1], w)
  {
    ExecPrefix(n, acts, i + 1);
    SolePrefix(acts, i + 1, w);
    assert Last(acts[..i + 1]) == acts[i];
    AwakeAfterNotify(n, acts[..i + 1], w);
  }

  lemma {:induction false} NotifiedSince<T>(n: nat, acts: seq<Action<T>>, m: nat, p: nat) returns (i: nat)
    requires p < n && m <= |acts| && IdleAfter(n, acts, p) && PushesBy(acts, p) > PushesBy(acts[..m], p)
    ensures Exec(n, acts).Some? && m <= i < |acts| && acts[i].Notify?
  {
    ExecPrefix(n, acts, m);
    OneNotifyPerPush(n, acts[..m], p);
    OneNotifyPerPush(n, acts, p);
    i := FindNotify(acts, m, p);
  }

  /** A sleeping w does not survive a complete push: if p has started another push since the first m actions, and has
      nothing left to do at the end, then at some moment in between w is not asleep. */
  lemma {:induction false} CompletedPushWakes<T>(n: nat, acts: seq<Action<T>>, m: nat, w: nat, p: nat) returns (k: nat)
    requires w < n && p < n && m <= |acts| && SoleConsumer(acts, w)
    requires IdleAfter(n, acts, p) && PushesBy(acts, p) > PushesBy(acts[..m], p)
    ensures m < k <= |acts| && AwakeAfter(n, acts[..k], w)
  {
    var i := NotifiedSince(n, acts, m, p);
    AwakeRightAfter(n, acts, i, w);
    k := i + 1;
  }

  lemma {:induction false} StepSleeps<T>(s: State<T>, a: Action<T>, w: nat)
    requires Enabled(s, a) && w < |s.threads| && s.threads[w].Asleep? && !a.Notify? && a != Spurious(w)
    ensures |Step(s, a).threads| == |s.threads| && Step(s, a).threads[w].Asleep?
  {
  }

  /** Without a notification and without a spurious wakeup, a sleeper sleeps on, whatever else happens. */
  lemma {:induction false} SleepsOn<T>(n: nat, before: seq<Action<T>>, after: seq<Action<T>>, w: nat)
    requires Exec(n, before + after).Some? && Exec(n, before).Some? && w < n
    requires |Exec(n, before).value.threads| == n && Exec(n, before).value.threads[w].Asleep?
    requires forall i | 0 <= i < |after| :: !after[i].Notify? && after[i] != Spurious(w)
    ensures |Exec(n, before + after).value.threads| == n && Exec(n, before + after).value.threads[w].Asleep?
  {
    if |after| == 0 {
      assert before + after == before;
    } else {
      assert Init(before + after) == before + Init(after);
      assert Last(before + after) == after[|after| - 1];
      assert forall i | 0 <= i < |Init(after)| :: Init(after)[i] == after[i];
      assert Exec(n, before + Init(after)).Some?;
      SleepsOn(n, before, Init(after), w);
      StepSleeps(Exec(n, before + Init(after)).value, after[|after| - 1], w);
    }
  }

  // ---------------------------------------------------------------- a run that loses a wakeup

  // Thread 0 sees an empty deque and leaves muxQueue.
  function CheckPart<T>(): seq<Action<T>> {
    [Invoke(0, Wait)] + LookPart(0)
  }

  lemma {:induction false} LostRunChecks<T>() returns (states: seq<State<T>>)
    ensures Path(Start(2), states, CheckPart())
    ensures var s := Last(states);
            s.threads == [Gap, Idle] && s.muxQueue.None? && s.muxBlocking.None? && s.deqQueue == [] && !s.undefined
  {
    var acts: seq<Action<T>>;
    states, acts := Go(Start(2), [Start(2)], [], Invoke(0, Wait));
    assert acts == [Invoke(0, Wait)];
    states := RunLook(Start(2), states, acts, 0);
  }

  lemma {:induction false} LostRunPushes<T>(x: T) returns (states: seq<State<T>>)
    ensures Path(Start(2), states, CheckPart() + PushCall(1, PushBack(x), None))
    ensures var s := Last(states);
            s.threads == [Gap, Idle] && s.muxQueue.None? && s.muxBlocking.None? && s.deqQueue == [x] && !s.undefined
  {
    states := LostRunChecks();
    states := RunPush(Start(2), states, CheckPart(), 1, PushBack(x), None);
  }

  lemma {:induction false} LostRunSleeps<T>(x: T) returns (states: seq<State<T>>)
    ensures Path(Start(2), states, CheckPart() + PushCall(1, PushBack(x), None) + SleepPart(0))
    ensures var s := Last(states); s.threads == [Asleep, Idle] && s.deqQueue == [x] && !s.undefined
  {
    states := LostRunPushes(x);
    var acts := CheckPart() + PushCall(1, PushBack(x), None);
    states, acts := Go(Start(2), states, acts, LockBlocking(0));
    states, acts := Go(Start(2), states, acts, Sleep(0));
    assert acts == CheckPart() + PushCall(1, PushBack(x), None) + SleepPart(0);
  }

  /** A wakeup does get lost: after this run the consumer sleeps, the item is in the deque, and the producer is gone. */
  lemma {:induction false} LostWakeupHappens<T>(x: T)
    ensures var acts := CheckPart() + PushCall(1, PushBack(x), None) + SleepPart(0);
            && SoleConsumer(acts, 0) && Exec(2, acts).Some?
            && var s := Exec(2, acts).value; s.threads == [Asleep, Idle] && s.deqQueue == [x] && !s.undefined
  {
    var states := LostRunSleeps(x);
    var acts := CheckPart() + PushCall(1, PushBack(x), None) + SleepPart(0);
    PathExec(2, [], states, acts);
    assert [] + acts == acts;
  }
}
