/** `server_interface::Update` as the consumer of the locking protocol.

    Thread w runs `Update` any number of times: an optional `wait`, then a loop of separate `empty` and `pop_front`
    calls. All other threads may push at the back and look at the size at any moment, in particular between w's calls.
    The queue itself is the lock-level machine of `TsqueueProtocol`. */
module MessagePump {
  import opened Base
  import opened AtomicDeque
  import opened TsqueueProtocol
  import opened SoloCalls
  import LostWakeup

  // The call that w makes next, or is inside of.
  datatype Control = Outside | AtWait | AtCheck | AtPop

  // w's program variables, and the history of the latest Update:
  //   entry      the deque when Update was called
  //   arrived    what other threads have pushed since
  //   delivered  what has been passed to OnMessage
  //   seen       how much had arrived at w's latest emptiness check
  datatype Consumer<T> = Consumer(
    ctl: Control, max: nat, wait: bool, count: nat,
    entry: seq<T>, arrived: seq<T>, delivered: seq<T>, seen: nat)

  datatype Pump<T> = Pump(q: State<T>, c: Consumer<T>)

  datatype Move<T> = Begin(max: nat, wait: bool) | Act(a: Action<T>)

  predicate Arriving<T>(call: Call<T>) {
    call.Operation? && (call.op.PushBack? || call.op.Empty? || call.op.Count?)
  }

  predicate Demands<T>(ctl: Control, call: Call<T>) {
    match ctl
    case Outside => false
    case AtWait => call.Wait?
    case AtCheck => call.Operation? && call.op.Empty?
    case AtPop => call.Operation? && call.op.PopFront?
  }

  // The loop condition on the count, before the emptiness check.
  function Guard(count: nat, max: nat): Control {
    if count < max then AtCheck else Outside
  }

  ghost predicate MayMove<T>(p: Pump<T>, w: nat, m: Move<T>) {
    match m
    case Begin(_, _) => p.c.ctl.Outside? && !p.q.undefined
    case Act(a) =>
      && Enabled(p.q, a)
      && (a.Invoke? ==> if a.t == w then Demands(p.c.ctl, a.call) else Arriving(a.call))
  }

  // How w's variables and the history change with an action of the queue.
  ghost function Watch<T>(q: State<T>, c: Consumer<T>, w: nat, a: Action<T>): Consumer<T>
    requires Enabled(q, a)
  {
    var st := q.threads[a.t];
    if a.Access? && a.t != w && st.call.Operation? && st.call.op.PushBack? then
      c.(arrived := c.arrived + [st.call.op.item])
    else if a.Access? && a.t == w && OpOf(st.call).Empty? then
      c.(seen := |c.arrived|)
    else if a.UnlockQueue? && a.t == w then
      match c.ctl
      case AtWait => if st.ret == Flag(false) then c.(ctl := Guard(0, c.max)) else c
      case AtCheck => c.(ctl := if st.ret == Flag(true) then Outside else AtPop)
      case AtPop =>
        if st.ret.Item? then
          c.(delivered := c.delivered + [st.ret.item], count := c.count + 1, ctl := Guard(c.count + 1, c.max))
        else c
      case Outside => c
    else c
  }

  ghost function MoveTo<T>(p: Pump<T>, w: nat, m: Move<T>): Pump<T>
    requires MayMove(p, w, m)
  {
    match m
    case Begin(max, wait) =>
      p.(c := Consumer(if wait then AtWait else Guard(0, max), max, wait, 0, p.q.deqQueue, [], [], 0))
    case Act(a) => Pump(Step(p.q, a), Watch(p.q, p.c, w, a))
  }

  // The pump after a schedule with n threads, or None when some move was not possible.
  ghost function Run<T>(n: nat, w: nat, moves: seq<Move<T>>): Option<Pump<T>> {
    if |moves| == 0 then Some(Pump(Start(n), Consumer(Outside, 0, false, 0, [], [], [], 0)))
    else match Run(n, w, Init(moves))
      case None => None
      case Some(p) => if MayMove(p, w, Last(moves)) then Some(MoveTo(p, w, Last(moves))) else None
  }

  // ---------------------------------------------------------------- invariant

  // Popped, and not yet passed to OnMessage.
  function InHand<T>(st: Stage<T>): seq<T> {
    if st.Answered? && st.ret.Item? then [st.ret.item] else []
  }

  // Where a thread can be that only pushes at the back.
  ghost predicate PushesBack<T>(st: Stage<T>) {
    && (st.WantQueue? || st.InQueue? || st.Touching? || st.Answered? ==> Arriving(st.call))
    && (st.Emplaced? || st.OwnsBoth? || st.Signalled? ==> st.op.PushBack?)
    && !st.Gap? && !st.Drowsy? && !st.Asleep? && !st.Woken? && !st.Awake?
  }

  ghost predicate ConsumerOk<T>(st: Stage<T>, ctl: Control) {
    && !st.Emplaced? && !st.OwnsBoth? && !st.Signalled?
    && (ctl.Outside? ==> st.Idle?)
    && (st.WantQueue? || st.InQueue? || st.Touching? || st.Answered? ==> Demands(ctl, st.call))
    && (st.Gap? || st.Drowsy? || st.Asleep? || st.Woken? || st.Awake? ==> ctl.AtWait?)
    && (st.Answered? ==> if ctl.AtPop? then st.ret.Item? else st.ret.Flag?)
  }

  ghost predicate Counted<T>(c: Consumer<T>) {
    && c.count == |c.delivered| <= c.max
    && c.seen <= |c.arrived|
    && (c.ctl.AtWait? ==> c.wait && c.count == 0)
    && (c.ctl.AtCheck? || c.ctl.AtPop? ==> c.count < c.max)
    && (c.ctl.Outside? && c.count < c.max ==>
        c.delivered == c.entry + c.arrived[..c.seen] && (c.wait ==> c.count > 0))
  }

  // What w knows about the deque from its own emptiness checks, since nobody else removes anything.
  ghost predicate Checked<T>(p: Pump<T>, w: nat)
    requires w < |p.q.threads|
  {
    var st, q, c := p.q.threads[w], p.q.deqQueue, p.c;
    && (c.ctl.AtPop? && !st.Answered? ==> q != [])
    && (c.ctl.AtWait? && st.Answered? && st.ret == Flag(false) ==> q != [])
    && (c.ctl.AtCheck? && c.wait && c.count == 0 ==> q != [])
    && (c.ctl.AtCheck? && st.Answered? && st.ret == Flag(false) ==> q != [])
    && (c.ctl.AtCheck? && st.Answered? && st.ret == Flag(true) ==> q == [] && c.seen == |c.arrived|)
  }

  ghost predicate PumpInv<T>(p: Pump<T>, w: nat) {
    && Inv(p.q) && w < |p.q.threads| && !p.q.undefined
    && (forall t | 0 <= t < |p.q.threads| && t != w :: PushesBack(p.q.threads[t]))
    && ConsumerOk(p.q.threads[w], p.c.ctl)
    && Counted(p.c)
    && Checked(p, w)
    && p.c.delivered + InHand(p.q.threads[w]) + p.q.deqQueue == p.c.entry + p.c.arrived
  }

  lemma {:induction false} BeginKeeps<T>(p: Pump<T>, w: nat, max: nat, wait: bool)
    requires PumpInv(p, w) && MayMove(p, w, Begin(max, wait))
    ensures PumpInv(MoveTo(p, w, Begin(max, wait)), w)
  {
  }

  lemma {:induction false} ProducersStay<T>(p: Pump<T>, w: nat, a: Action<T>)
    requires PumpInv(p, w) && MayMove(p, w, Act(a))
    ensures forall t | 0 <= t < |p.q.threads| && t != w :: PushesBack(Step(p.q, a).threads[t])
  {
    assert StageOk(p.q, a.t);
  }

  // An item that somebody else pushes is the latest arrival.
  lemma {:induction false} ArrivalKeeps<T>(p: Pump<T>, w: nat, a: Action<T>)
    requires PumpInv(p, w) && MayMove(p, w, Act(a)) && a.t != w && a.Access?
    ensures PumpInv(MoveTo(p, w, Act(a)), w)
  {
    StepKeepsInv(p.q, a);
    ProducersStay(p, w, a);
    CompletesWhatItBegan(p.q, a.t);
    assert StageOk(p.q, a.t) && StageOk(p.q, w);
    var op := p.q.threads[a.t].call.op;
    if op.PushBack? {
      var out := p.c.delivered + InHand(p.q.threads[w]);
      assert out + (p.q.deqQueue + [op.item]) == (out + p.q.deqQueue) + [op.item];
      assert p.c.entry + (p.c.arrived + [op.item]) == (p.c.entry + p.c.arrived) + [op.item];
      assert (p.c.arrived + [op.item])[..p.c.seen] == p.c.arrived[..p.c.seen];
    }
  }

  lemma {:induction false} OthersKeep<T>(p: Pump<T>, w: nat, a: Action<T>)
    requires PumpInv(p, w) && MayMove(p, w, Act(a)) && a.t != w && !a.Access?
    ensures PumpInv(MoveTo(p, w, Act(a)), w)
  {
    StepKeepsInv(p.q, a);
    ProducersStay(p, w, a);
    assert StageOk(p.q, a.t) && StageOk(p.q, w);
  }

  lemma {:induction false} ConsumerAccessKeeps<T>(p: Pump<T>, w: nat, a: Action<T>)
    requires PumpInv(p, w) && MayMove(p, w, Act(a)) && a.t == w && a.Access?
    ensures PumpInv(MoveTo(p, w, Act(a)), w)
  {
    StepKeepsInv(p.q, a);
    ProducersStay(p, w, a);
    CompletesWhatItBegan(p.q, w);
    var q := p.q.deqQueue;
    if p.c.ctl.AtPop? {
      assert q == [q[0]] + q[1..];
    }
  }

  lemma {:induction false} ConsumerReturnKeeps<T>(p: Pump<T>, w: nat, a: Action<T>)
    requires PumpInv(p, w) && MayMove(p, w, Act(a)) && a.t == w && a.UnlockQueue?
    ensures PumpInv(MoveTo(p, w, Act(a)), w)
  {
    StepKeepsInv(p.q, a);
    ProducersStay(p, w, a);
    if p.c.ctl.AtCheck? && p.q.threads[w].ret == Flag(true) {
      assert p.c.arrived[..p.c.seen] == p.c.arrived;
    }
  }

  lemma {:induction false} ConsumerKeeps<T>(p: Pump<T>, w: nat, a: Action<T>)
    requires PumpInv(p, w) && MayMove(p, w, Act(a)) && a.t == w && !a.Access? && !a.UnlockQueue?
    ensures PumpInv(MoveTo(p, w, Act(a)), w)
  {
    StepKeepsInv(p.q, a);
    ProducersStay(p, w, a);
    assert StageOk(p.q, w);
  }

  lemma {:induction false} MoveKeeps<T>(p: Pump<T>, w: nat, m: Move<T>)
    requires PumpInv(p, w) && MayMove(p, w, m)
    ensures PumpInv(MoveTo(p, w, m), w)
  {
    if m.Begin? {
      BeginKeeps(p, w, m.max, m.wait);
    } else if m.a.t != w {
      if m.a.Access? { ArrivalKeeps(p, w, m.a); } else { OthersKeep(p, w, m.a); }
    } else if m.a.Access? {
      ConsumerAccessKeeps(p, w, m.a);
    } else if m.a.UnlockQueue? {
      ConsumerReturnKeeps(p, w, m.a);
    } else {
      ConsumerKeeps(p, w, m.a);
    }
  }

  lemma {:induction false} PumpReachable<T>(n: nat, w: nat, moves: seq<Move<T>>)
    requires Run(n, w, moves).Some? && w < n
    ensures PumpInv(Run(n, w, moves).value, w)
  {
    if |moves| > 0 {
      PumpReachable(n, w, Init(moves));
      MoveKeeps(Run(n, w, Init(moves)).value, w, Last(moves));
    }
  }

  // ---------------------------------------------------------------- what Update promises

  /** Check-then-act is safe: although `empty` and `pop_front` are separate critical sections and other threads push in
      between, `Update` never pops an empty deque, and nothing else undefined happens. */
  lemma {:induction false} NeverPopsEmpty<T>(n: nat, w: nat, moves: seq<Move<T>>)
    requires Run(n, w, moves).Some? && w < n
    ensures var p := Run(n, w, moves).value;
            && !p.q.undefined && w < |p.q.threads|
            && var st := p.q.threads[w];
               ((st.InQueue? || st.Touching?) && st.call == Operation(PopFront) ==> p.q.deqQueue != [])
  {
    PumpReachable(n, w, moves);
  }

  /** When `wait` is about to return, and until w has looked again, there is something to pop, however often the thread
      was woken spuriously. */
  lemma {:induction false} WaitReturnsNonEmpty<T>(n: nat, w: nat, moves: seq<Move<T>>)
    requires Run(n, w, moves).Some? && w < n
    ensures var p := Run(n, w, moves).value;
            && w < |p.q.threads|
            && var st := p.q.threads[w];
               ((st.Answered? && st.call.Wait? && st.ret == Flag(false)) ||
                (p.c.wait && p.c.count == 0 && p.c.ctl.AtCheck?)
                ==> p.q.deqQueue != [])
  {
    PumpReachable(n, w, moves);
  }

  lemma {:induction false} DeliveredSoFar<T>(p: Pump<T>, w: nat)
    requires PumpInv(p, w) && p.c.ctl.Outside?
    ensures p.c.delivered + p.q.deqQueue == p.c.entry + p.c.arrived
  {
    assert InHand(p.q.threads[w]) == [];
    assert p.c.delivered + [] == p.c.delivered;
  }

  /** What one `Update` delivers, whatever the other threads do: a prefix of what was queued at entry followed by what
      arrived, in order, the rest being still in the deque; at most the bound; less than the bound only if the deque was
      seen empty, everything arrived by then having been delivered; and at least one message if it waited first. */
  lemma {:induction false} UpdateDelivers<T>(n: nat, w: nat, moves: seq<Move<T>>)
    requires Run(n, w, moves).Some? && w < n
    requires Run(n, w, moves).value.c.ctl.Outside?
    ensures var p := Run(n, w, moves).value;
            && p.c.delivered + p.q.deqQueue == p.c.entry + p.c.arrived
            && p.c.delivered <= p.c.entry + p.c.arrived
            && |p.c.delivered| <= p.c.max
            && p.c.seen <= |p.c.arrived|
            && (|p.c.delivered| < p.c.max ==> p.c.delivered == p.c.entry + p.c.arrived[..p.c.seen])
            && (p.c.wait && p.c.max >= 1 ==> |p.c.delivered| >= 1)
  {
    PumpReachable(n, w, moves);
    DeliveredSoFar(Run(n, w, moves).value, w);
  }

  /** While `Update` runs, the count is the number of messages handled and stays below the bound, so `nMessageCount++`
      never wraps, even for the default bound 2^64 - 1. */
  lemma {:induction false} CountStaysInRange<T>(n: nat, w: nat, moves: seq<Move<T>>)
    requires Run(n, w, moves).Some? && w < n
    ensures var c := Run(n, w, moves).value.c;
            && c.count == |c.delivered| <= c.max
            && (c.ctl.AtCheck? || c.ctl.AtPop? ==> c.count < c.max)
  {
    PumpReachable(n, w, moves);
  }

  // ---------------------------------------------------------------- Update ends

  // How many actions of its own w has still to take, at most, before it sleeps in `wait` or leaves it.
  function WaitStepsLeft<T>(st: Stage<T>): nat {
    match st
    case Idle => 7
    case WantQueue(_) => 6
    case InQueue(_) => 5
    case Touching(_, _) => 4
    case Answered(_, _) => 3
    case Gap => 2
    case Drowsy => 1
    case Woken => 8
    case Awake => 7
    case _ => 0
  }

  // How many actions of its own w has still to take, at most, in this Update if it is not woken again.
  function OwnStepsLeft<T>(st: Stage<T>, c: Consumer<T>): int {
    var inCall := if st.WantQueue? then 1 else if st.InQueue? then 2 else if st.Touching? then 3
                  else if st.Answered? then 4 else 0;
    match c.ctl
    case AtWait => 10 * c.max + WaitStepsLeft(st)
    case AtCheck => 10 * (c.max - c.count) - inCall
    case AtPop => 10 * (c.max - c.count) - 5 - inCall
    case Outside => 0
  }

  // A spurious wakeup happens to w; it is not an action of its own.
  predicate IsOwnStep<T>(m: Move<T>, w: nat) {
    m.Act? && m.a.t == w && !m.a.Spurious?
  }

  // A push wakes w, or w wakes spuriously.
  predicate PushWakes<T>(m: Move<T>, w: nat) {
    m.Act? && m.a.Notify? && m.a.woken == Some(w)
  }

  predicate SpuriouslyWakes<T>(m: Move<T>, w: nat) {
    m.Act? && m.a == Spurious(w)
  }

  function OwnSteps<T>(moves: seq<Move<T>>, start: nat, w: nat): nat {
    if |moves| <= start then 0
    else OwnSteps(Init(moves), start, w) + if IsOwnStep(Last(moves), w) then 1 else 0
  }

  function PushWakeups<T>(moves: seq<Move<T>>, start: nat, w: nat): nat {
    if |moves| <= start then 0
    else PushWakeups(Init(moves), start, w) + if PushWakes(Last(moves), w) then 1 else 0
  }

  function SpuriousWakeups<T>(moves: seq<Move<T>>, start: nat, w: nat): nat {
    if |moves| <= start then 0
    else SpuriousWakeups(Init(moves), start, w) + if SpuriouslyWakes(Last(moves), w) then 1 else 0
  }

  // The last moves are of one and the same Update, begun by the k-th.
  predicate UpdateFrom<T>(moves: seq<Move<T>>, k: nat) {
    k < |moves| && moves[k].Begin? && forall i | k < i < |moves| :: moves[i].Act?
  }

  // There is something to pop, and w will find it: it is on its way out of `wait`, or already out.
  ghost predicate WokenForGood<T>(p: Pump<T>, w: nat) {
    && w < |p.q.threads|
    && var st := p.q.threads[w];
       (p.c.ctl.AtWait? ==>
          && p.q.deqQueue != []
          && !st.Idle? && !st.Gap? && !st.Drowsy? && !st.Asleep?
          && (st.Answered? ==> st.ret == Flag(false)))
  }

  // A push notifies only while its item is in the deque.
  lemma {:induction false} PushWakesForGood<T>(p: Pump<T>, w: nat, a: Action<T>)
    requires PumpInv(p, w) && MayMove(p, w, Act(a)) && PushWakes(Act(a), w)
    ensures WokenForGood(MoveTo(p, w, Act(a)), w)
  {
    assert StageOk(p.q, a.t);
  }

  lemma {:induction false} OwnMoveKeepsWoken<T>(p: Pump<T>, w: nat, a: Action<T>)
    requires PumpInv(p, w) && MayMove(p, w, Act(a)) && WokenForGood(p, w) && a.t == w
    ensures WokenForGood(MoveTo(p, w, Act(a)), w)
  {
    assert StageOk(p.q, w);
    if a.Access? {
      CompletesWhatItBegan(p.q, w);
    }
  }

  lemma {:induction false} OtherMoveKeepsWoken<T>(p: Pump<T>, w: nat, a: Action<T>)
    requires PumpInv(p, w) && MayMove(p, w, Act(a)) && WokenForGood(p, w) && a.t != w
    ensures WokenForGood(MoveTo(p, w, Act(a)), w)
  {
    assert StageOk(p.q, a.t);
    if a.Access? {
      CompletesWhatItBegan(p.q, a.t);
    }
    assert Step(p.q, a).threads[w] == p.q.threads[w];
  }

  /** No push that wakes the consumer does so in vain: from then on, as long as w is in `wait`, the deque is not empty
      and w is not going to sleep again. So a push wakes w at most once in an `Update`. */
  lemma {:induction false} PushWakesOnce<T>(n: nat, w: nat, moves: seq<Move<T>>, k: nat)
    requires Run(n, w, moves).Some? && w < n && UpdateFrom(moves, k)
    ensures PushWakeups(moves, k + 1, w) <= 1
    ensures PushWakeups(moves, k + 1, w) == 1 ==> WokenForGood(Run(n, w, moves).value, w)
  {
    if k < |moves| - 1 {
      var p, m := Run(n, w, Init(moves)).value, Last(moves);
      assert m == moves[|moves| - 1] && Init(moves)[k] == moves[k];
      PushWakesOnce(n, w, Init(moves), k);
      PumpReachable(n, w, Init(moves));
      if PushWakes(m, w) {
        assert p.q.threads[w].Asleep?;
        PushWakesForGood(p, w, m.a);
      } else if WokenForGood(p, w) {
        if m.a.t == w { OwnMoveKeepsWoken(p, w, m.a); } else { OtherMoveKeepsWoken(p, w, m.a); }
      }
    }
  }

  // The parameters of Update stay as they are.
  predicate SameUpdate<T>(p: Pump<T>, p': Pump<T>) {
    |p'.q.threads| == |p.q.threads| && p'.c.wait == p.c.wait && p'.c.max == p.c.max
  }

  lemma {:induction false} OwnStepCounts<T>(p: Pump<T>, w: nat, a: Action<T>)
    requires PumpInv(p, w) && MayMove(p, w, Act(a)) && a.t == w
    ensures var p' := MoveTo(p, w, Act(a));
            && SameUpdate(p, p')
            && OwnStepsLeft(p'.q.threads[w], p'.c) <=
               OwnStepsLeft(p.q.threads[w], p.c) + if a.Spurious? then 8 else -1
    ensures a.Spurious? ==> p.c.wait
  {
    assert StageOk(p.q, w);
  }

  lemma {:induction false} OtherStepCounts<T>(p: Pump<T>, w: nat, a: Action<T>)
    requires PumpInv(p, w) && MayMove(p, w, Act(a)) && a.t != w
    ensures var p' := MoveTo(p, w, Act(a));
            && SameUpdate(p, p')
            && OwnStepsLeft(p'.q.threads[w], p'.c) <=
               OwnStepsLeft(p.q.threads[w], p.c) + if PushWakes(Act(a), w) then 8 else 0
    ensures PushWakes(Act(a), w) ==> p.c.wait
  {
    if !PushWakes(Act(a), w) {
      assert Step(p.q, a).threads[w] == p.q.threads[w];
    }
  }

  lemma {:induction false} StepsByWakeups<T>(n: nat, w: nat, moves: seq<Move<T>>, k: nat)
    requires Run(n, w, moves).Some? && w < n && UpdateFrom(moves, k)
    ensures var p := Run(n, w, moves).value;
            && w < |p.q.threads| && p.c.max == moves[k].max && p.c.wait == moves[k].wait
            && OwnSteps(moves, k + 1, w) + OwnStepsLeft(p.q.threads[w], p.c) <=
               10 * moves[k].max + (if moves[k].wait then 7 else 0) +
               8 * (PushWakeups(moves, k + 1, w) + SpuriousWakeups(moves, k + 1, w))
            && OwnStepsLeft(p.q.threads[w], p.c) >= 0
    ensures !moves[k].wait ==> PushWakeups(moves, k + 1, w) == SpuriousWakeups(moves, k + 1, w) == 0
  {
    PumpReachable(n, w, moves);
    PumpReachable(n, w, Init(moves));
    var p := Run(n, w, Init(moves)).value;
    assert Last(moves) == moves[|moves| - 1];
    if k < |moves| - 1 {
      StepsByWakeups(n, w, Init(moves), k);
      if Last(moves).a.t == w { OwnStepCounts(p, w, Last(moves).a); } else { OtherStepCounts(p, w, Last(moves).a); }
    }
  }

  /** Every `Update` takes at most 10 steps of its own per message of its bound, even if other threads keep the deque
      non-empty forever; if it waits first, 15 more, however often others push, and 8 for each spurious wakeup. */
  lemma {:induction false} UpdateEnds<T>(n: nat, w: nat, moves: seq<Move<T>>, k: nat)
    requires Run(n, w, moves).Some? && w < n && UpdateFrom(moves, k)
    ensures var p := Run(n, w, moves).value;
            && w < |p.q.threads| && p.c.max == moves[k].max && p.c.wait == moves[k].wait
            && OwnSteps(moves, k + 1, w) + OwnStepsLeft(p.q.threads[w], p.c) <=
               10 * moves[k].max + (if moves[k].wait then 15 + 8 * SpuriousWakeups(moves, k + 1, w) else 0)
            && OwnStepsLeft(p.q.threads[w], p.c) >= 0
  {
    StepsByWakeups(n, w, moves, k);
    PushWakesOnce(n, w, moves, k);
  }

  // ---------------------------------------------------------------- the pump is a run of the queue

  function Actions<T>(moves: seq<Move<T>>): seq<Action<T>> {
    if |moves| == 0 then []
    else Actions(Init(moves)) + if Last(moves).Act? then [Last(moves).a] else []
  }

  lemma {:induction false} OneMoreProducing<T>(acts: seq<Action<T>>, a: Action<T>, w: nat)
    requires LostWakeup.SoleConsumer(acts, w) && (a.Invoke? && a.t != w ==> LostWakeup.Producing(a.call))
    ensures LostWakeup.SoleConsumer(acts + [a], w)
  {
  }

  /** Whatever is proved of the runs of the queue holds of the pump, and w is the sole consumer in it. */
  lemma {:induction false} PumpIsARun<T>(n: nat, w: nat, moves: seq<Move<T>>)
    requires Run(n, w, moves).Some?
    ensures Exec(n, Actions(moves)) == Some(Run(n, w, moves).value.q)
    ensures LostWakeup.SoleConsumer(Actions(moves), w)
  {
    if |moves| > 0 {
      PumpIsARun(n, w, Init(moves));
      var acts := Actions(Init(moves));
      if Last(moves).Act? {
        var a := Last(moves).a;
        assert Init(acts + [a]) == acts;
        OneMoreProducing(acts, a, w);
      } else {
        assert Actions(moves) == acts;
      }
    }
  }

  /** `Update` with `bWait` can therefore sleep although there are messages, exactly if a push has still to notify or a
      notification ran in the gap of `wait`; it has delivered nothing then. */
  lemma {:induction false} UpdateOversleeps<T>(n: nat, w: nat, moves: seq<Move<T>>)
    requires Run(n, w, moves).Some? && w < n
    ensures Exec(n, Actions(moves)) == Some(Run(n, w, moves).value.q)
    ensures var p := Run(n, w, moves).value;
            && w < |p.q.threads|
            && (p.q.threads[w].Asleep? ==>
                && p.c.wait && p.c.delivered == []
                && (p.q.deqQueue != [] <==>
                    LostWakeup.NotifyPending(p.q) || LostWakeup.Missed(n, Actions(moves), w)))
  {
    PumpIsARun(n, w, moves);
    PumpReachable(n, w, moves);
    LostWakeup.Accounted(n, Actions(moves), w);
  }

  // ---------------------------------------------------------------- Update goes on

  lemma {:induction false} RunNext<T>(n: nat, w: nat, moves: seq<Move<T>>, m: Move<T>)
    requires Run(n, w, moves).Some? && MayMove(Run(n, w, moves).value, w, m)
    ensures Run(n, w, moves + [m]) == Some(MoveTo(Run(n, w, moves).value, w, m))
  {
    assert Init(moves + [m]) == moves && Last(moves + [m]) == m;
  }

  /** `Update` can be called whenever w is outside of it, with any bound, waiting or not. */
  lemma {:induction false} UpdateAnytime<T>(n: nat, w: nat, moves: seq<Move<T>>, max: nat, wait: bool)
    requires Run(n, w, moves).Some? && w < n && Run(n, w, moves).value.c.ctl.Outside?
    ensures Run(n, w, moves + [Begin(max, wait)]).Some?
  {
    PumpReachable(n, w, moves);
    RunNext(n, w, moves, Begin(max, wait));
  }

  /** While `Update` runs, every other thread that is outside the queue can push any item and look at the size. */
  lemma {:induction false} ArrivalsAnytime<T>(n: nat, w: nat, moves: seq<Move<T>>, t: nat, x: T)
    requires Run(n, w, moves).Some? && w < n && t < n && t != w
    requires t < |Run(n, w, moves).value.q.threads| && Run(n, w, moves).value.q.threads[t].Idle?
    ensures Run(n, w, moves + [Act(Invoke(t, Operation(PushBack(x))))]).Some?
    ensures Run(n, w, moves + [Act(Invoke(t, Operation(Empty)))]).Some?
    ensures Run(n, w, moves + [Act(Invoke(t, Operation(Count)))]).Some?
  {
    PumpReachable(n, w, moves);
    RunNext(n, w, moves, Act(Invoke(t, Operation(PushBack(x)))));
    RunNext(n, w, moves, Act(Invoke(t, Operation(Empty))));
    RunNext(n, w, moves, Act(Invoke(t, Operation(Count))));
  }

  /** Between two calls of an `Update` the next one can be made at once: first `wait` if asked for, then `empty` and
      `pop_front` in turn. */
  lemma {:induction false} NextCallAnytime<T>(n: nat, w: nat, moves: seq<Move<T>>)
    requires Run(n, w, moves).Some? && w < n && !Run(n, w, moves).value.c.ctl.Outside?
    requires w < |Run(n, w, moves).value.q.threads| && Run(n, w, moves).value.q.threads[w].Idle?
    ensures var ctl := Run(n, w, moves).value.c.ctl;
            var call := if ctl.AtWait? then Wait else if ctl.AtCheck? then Operation(Empty) else Operation(PopFront);
            Run(n, w, moves + [Act(Invoke(w, call))]).Some?
  {
    PumpReachable(n, w, moves);
    var ctl := Run(n, w, moves).value.c.ctl;
    var call := if ctl.AtWait? then Wait else if ctl.AtCheck? then Operation(Empty) else Operation(PopFront);
    RunNext(n, w, moves, Act(Invoke(w, call)));
  }

  // A step inside the queue, by anybody, or the next call of w.
  ghost predicate GoesOn<T(!new)>(p: Pump<T>, w: nat) {
    exists a: Action<T> :: MayMove(p, w, Act(a)) && (Internal(a) || (a.Invoke? && a.t == w))
  }

  // Nobody else is in the queue, and w sleeps or is not in an Update.
  ghost predicate AtRest<T>(p: Pump<T>, w: nat)
    requires w < |p.q.threads|
  {
    && (p.c.ctl.Outside? || p.q.threads[w].Asleep?)
    && forall t | 0 <= t < |p.q.threads| && t != w :: p.q.threads[t].Idle?
  }

  lemma {:induction false} InternalGoesOn<T(!new)>(p: Pump<T>, w: nat, u: nat)
    requires CanMove(p.q, u)
    ensures GoesOn(p, w)
  {
    var a: Action<T> :| a.t == u && Internal(a) && Enabled(p.q, a);
    assert MayMove(p, w, Act(a));
  }

  lemma {:induction false} CallGoesOn<T(!new)>(p: Pump<T>, w: nat)
    requires PumpInv(p, w) && !p.c.ctl.Outside? && p.q.threads[w].Idle?
    ensures GoesOn(p, w)
  {
    var call := if p.c.ctl.AtWait? then Wait else if p.c.ctl.AtCheck? then Operation(Empty) else Operation(PopFront);
    assert MayMove(p, w, Act(Invoke(w, call)));
  }

  lemma {:induction false} RestIsNobodyInside<T>(p: Pump<T>, w: nat, t: nat)
    requires PumpInv(p, w) && t < |p.q.threads| && !Resting(p.q.threads[t])
    ensures !AtRest(p, w)
  {
  }

  lemma {:induction false} RestEnds<T(!new)>(p: Pump<T>, w: nat)
    requires PumpInv(p, w) && AtRest(p, w)
    ensures !GoesOn(p, w)
  {
  }

  /** `Update` never gets stuck: in every reachable state somebody can take a step towards its end, unless w has left
      it or sleeps in `wait`, with nobody else in the queue. */
  lemma {:induction false} UpdateGoesOn<T(!new)>(n: nat, w: nat, moves: seq<Move<T>>)
    requires Run(n, w, moves).Some? && w < n
    ensures w < |Run(n, w, moves).value.q.threads|
    ensures GoesOn(Run(n, w, moves).value, w) <==> !AtRest(Run(n, w, moves).value, w)
  {
    PumpReachable(n, w, moves);
    PumpIsARun(n, w, moves);
    DeadlockFree(n, Actions(moves));
    var p := Run(n, w, moves).value;
    if t :| 0 <= t < |p.q.threads| && !Resting(p.q.threads[t]) {
      var u: nat :| CanMove(p.q, u);
      InternalGoesOn(p, w, u);
      RestIsNobodyInside(p, w, t);
    } else if !p.c.ctl.Outside? && p.q.threads[w].Idle? {
      CallGoesOn(p, w);
    } else {
      RestEnds(p, w);
    }
  }

  /** So an `Update` that did not wait, or that a push has woken, has ended when nothing goes on any more. With
      `UpdateEnds` and the bound on the work inside the queue, it does end. */
  lemma {:induction false} UpdateFinishes<T(!new)>(n: nat, w: nat, moves: seq<Move<T>>, k: nat)
    requires Run(n, w, moves).Some? && w < n && UpdateFrom(moves, k)
    requires !moves[k].wait || PushWakeups(moves, k + 1, w) > 0
    requires !GoesOn(Run(n, w, moves).value, w)
    ensures Run(n, w, moves).value.c.ctl.Outside?
  {
    PumpReachable(n, w, moves);
    UpdateGoesOn(n, w, moves);
    PushWakesOnce(n, w, moves, k);
    StepsByWakeups(n, w, moves, k);
  }

  // ---------------------------------------------------------------- why one consumer

  ghost predicate Free<T>(n: nat, s: State<T>, q: seq<T>) {
    s.threads == Start<T>(n).threads && s.muxQueue.None? && s.muxBlocking.None? && !s.undefined && s.deqQueue == q
  }

  // Two threads, each checking before it pops.
  function BothPop<T>(t: nat, u: nat, x: T): seq<Action<T>> {
    PushCall(t, PushBack(x), None) + QuickCall(t, Empty) + QuickCall(u, Empty) + QuickCall(t, PopFront) +
    [Invoke(u, Operation(PopFront)), LockQueue(u), Touch(u)]
  }

  lemma {:induction false} RunBothCheck<T>(n: nat, t: nat, u: nat, x: T) returns (states: seq<State<T>>)
    requires t < n && u < n
    ensures Path(Start(n), states, PushCall(t, PushBack(x), None) + QuickCall(t, Empty) + QuickCall(u, Empty))
    ensures Free(n, Last(states), [x])
    ensures Returned(t, Flag(false)) in Last(states).trace && Returned(u, Flag(false)) in Last(states).trace
  {
    var acts := PushCall(t, PushBack(x), None);
    states := RunPush(Start(n), [Start(n)], [], t, PushBack(x), None);
    assert [] + acts == acts && Last(states).deqQueue == [x];
    states := RunQuickCall(Start(n), states, acts, t, Empty);
    assert Returned(t, Flag(false)) in Last(states).trace;
    states := RunQuickCall(Start(n), states, acts + QuickCall(t, Empty), u, Empty);
    assert Returned(u, Flag(false)) in Last(states).trace;
  }

  /** With a second consumer the same pattern is unsafe, whatever other threads there are: any two threads can both be
      told that the deque is not empty and both pop, and the second pop is of an empty deque. */
  lemma {:induction false} TwoConsumersPopEmpty<T>(n: nat, t: nat, u: nat, x: T)
    requires t < n && u < n && t != u
    ensures Exec(n, BothPop(t, u, x)).Some?
    ensures var s := Exec(n, BothPop(t, u, x)).value;
            && s.undefined && s.deqQueue == []
            && Returned(t, Flag(false)) in s.trace && Returned(u, Flag(false)) in s.trace
  {
    var states := RunBothCheck(n, t, u, x);
    var acts := PushCall(t, PushBack(x), None) + QuickCall(t, Empty) + QuickCall(u, Empty);
    states := RunQuickCall(Start(n), states, acts, t, PopFront);
    acts := acts + QuickCall(t, PopFront);
    states, acts := Go(Start(n), states, acts, Invoke(u, Operation(PopFront)));
    states, acts := Go(Start(n), states, acts, LockQueue(u));
    states, acts := Go(Start(n), states, acts, Touch(u));
    assert acts == BothPop(t, u, x);
    PathExec(n, [], states, acts);
    assert [] + acts == acts;
  }
}
