/** The sequential deque that the thread-safe queue is meant to behave like, and what holds of its histories.

    `Perform` is the meaning of one member function of `tsqueue` when nothing interferes. A history is a list of
    operations with the results they returned; `Replay` runs it from the empty deque. */
module AtomicDeque {
  import opened Base

  datatype Op<T> =
    | PushBack(item: T)
    | PushFront(item: T)
    | PopFront
    | PopBack
    | Front
    | Back
    | Empty
    | Count
    | Clear

  datatype Ret<T> = Done | Item(item: T) | Flag(flag: bool) | Size(size: nat)

  // `std::deque` leaves front, back and the pops undefined on an empty deque.
  datatype Outcome<T> = Undefined | Defined(deq: seq<T>, ret: Ret<T>)

  // One operation that took effect: who did it, and what it returned.
  datatype Taken<T> = Taken(thread: nat, op: Op<T>, ret: Ret<T>)

  predicate IsPush<T>(op: Op<T>) {
    op.PushBack? || op.PushFront?
  }

  predicate Reads<T>(op: Op<T>) {
    op.Front? || op.Back? || op.Empty? || op.Count?
  }

  function Perform<T>(q: seq<T>, op: Op<T>): Outcome<T> {
    match op
    case PushBack(x) => Defined(q + [x], Done)
    case PushFront(x) => Defined([x] + q, Done)
    case PopFront => if |q| == 0 then Undefined else Defined(q[1..], Item(q[0]))
    case PopBack => if |q| == 0 then Undefined else Defined(q[..|q| - 1], Item(q[|q| - 1]))
    case Front => if |q| == 0 then Undefined else Defined(q, Item(q[0]))
    case Back => if |q| == 0 then Undefined else Defined(q, Item(q[|q| - 1]))
    case Empty => Defined(q, Flag(|q| == 0))
    case Count => Defined(q, Size(|q|))
    case Clear => Defined([], Done)
  }

  // The deque after the history, or None when some recorded result is not what the deque would have returned.
  ghost function Replay<T>(log: seq<Taken<T>>): Option<seq<T>> {
    if |log| == 0 then Some([])
    else match Replay(Init(log))
      case None => None
      case Some(q) =>
        match Perform(q, Last(log).op)
        case Undefined => None
        case Defined(q', ret) => if ret == Last(log).ret then Some(q') else None
  }

  function ItemsIn<T>(op: Op<T>): seq<T> {
    if IsPush(op) then [op.item] else []
  }

  function ItemsOut<T>(op: Op<T>, ret: Ret<T>): seq<T> {
    if (op.PopFront? || op.PopBack?) && ret.Item? then [ret.item] else []
  }

  function Dropped<T>(q: seq<T>, op: Op<T>): multiset<T> {
    if op.Clear? then multiset(q) else multiset{}
  }

  // Everything pushed, in the order the pushes took effect, whichever end they used.
  ghost function Pushed<T>(log: seq<Taken<T>>): seq<T> {
    if |log| == 0 then []
    else Pushed(Init(log)) + ItemsIn(Last(log).op)
  }

  // Everything popped, in the order it was returned.
  ghost function Popped<T>(log: seq<Taken<T>>): seq<T> {
    if |log| == 0 then []
    else Popped(Init(log)) + ItemsOut(Last(log).op, Last(log).ret)
  }

  // Everything thrown away by `clear`.
  ghost function Cleared<T>(log: seq<Taken<T>>): multiset<T> {
    if |log| == 0 then multiset{}
    else
      var before := Replay(Init(log));
      Cleared(Init(log)) + if before.Some? then Dropped(before.value, Last(log).op) else multiset{}
  }

  lemma {:induction false} PerformConserves<T>(q: seq<T>, op: Op<T>)
    requires Perform(q, op).Defined?
    ensures var Defined(q', ret) := Perform(q, op);
            multiset(q) + multiset(ItemsIn(op)) == multiset(ItemsOut(op, ret)) + Dropped(q, op) + multiset(q')
  {
    if op.PopFront? {
      assert q == [q[0]] + q[1..];
    } else if op.PopBack? {
      assert q == q[..|q| - 1] + [q[|q| - 1]];
    }
  }

  lemma {:induction false} ReplayLast<T>(log: seq<Taken<T>>)
    requires |log| > 0 && Replay(log).Some?
    ensures Replay(Init(log)).Some?
    ensures Perform(Replay(Init(log)).value, Last(log).op) == Defined(Replay(log).value, Last(log).ret)
  {
  }

  lemma {:induction false} ReplayNext<T>(log: seq<Taken<T>>, t: Taken<T>, q: seq<T>)
    requires Replay(log) == Some(q)
    ensures Perform(q, t.op).Defined? && Perform(q, t.op).ret == t.ret ==>
              Replay(log + [t]) == Some(Perform(q, t.op).deq)
  {
    assert Init(log + [t]) == log;
  }

  lemma {:induction false} Regroup<T>(pushed: multiset<T>, popped: multiset<T>, cleared: multiset<T>, q: multiset<T>,
                   a: multiset<T>, b: multiset<T>, c: multiset<T>, q': multiset<T>)
    requires pushed == popped + cleared + q && q + a == b + c + q'
    ensures pushed + a == (popped + b) + (cleared + c) + q'
  {
    forall x
      ensures (pushed + a)[x] == ((popped + b) + (cleared + c) + q')[x]
    {
      assert (q + a)[x] == (b + c + q')[x];
    }
  }

  /** No item is duplicated or lost, whichever ends are used. */
  lemma {:induction false} Conservation<T>(log: seq<Taken<T>>)
    requires Replay(log).Some?
    ensures multiset(Pushed(log)) == multiset(Popped(log)) + Cleared(log) + multiset(Replay(log).value)
  {
    if |log| > 0 {
      ReplayLast(log);
      Conservation(Init(log));
      var Taken(_, op, ret) := Last(log);
      var q := Replay(Init(log)).value;
      PerformConserves(q, op);
      Regroup(multiset(Pushed(Init(log))), multiset(Popped(Init(log))), Cleared(Init(log)), multiset(q),
              multiset(ItemsIn(op)), multiset(ItemsOut(op, ret)), Dropped(q, op), multiset(Replay(log).value));
    }
  }

  lemma {:induction false} ReplayPrefix<T>(log: seq<Taken<T>>, k: nat)
    requires Replay(log).Some? && k <= |log|
    ensures Replay(log[..k]).Some?
  {
    if k == |log| {
      assert log[..k] == log;
    } else {
      assert Init(log)[..k] == log[..k];
      ReplayPrefix(Init(log), k);
    }
  }

  lemma {:induction false} Cardinality<T>(pushed: seq<T>, popped: seq<T>, cleared: multiset<T>, q: seq<T>)
    requires multiset(pushed) == multiset(popped) + cleared + multiset(q)
    ensures |pushed| == |popped| + |cleared| + |q|
  {
    assert |multiset(pushed)| == |multiset(popped)| + |cleared| + |multiset(q)|;
  }

  // Items pushed, and neither popped nor cleared.
  ghost function Balance<T>(log: seq<Taken<T>>): int {
    |Pushed(log)| - |Popped(log)| - |Cleared(log)|
  }

  lemma {:induction false} BalanceIsSize<T>(log: seq<Taken<T>>, q: seq<T>)
    requires Replay(log) == Some(q)
    ensures Balance(log) == |q|
  {
    Conservation(log);
    Cardinality(Pushed(log), Popped(log), Cleared(log), q);
  }

  // Whether a result is what `count` or `empty` reports for that many items; other operations may return anything.
  predicate Reports<T>(op: Op<T>, ret: Ret<T>, items: int) {
    && (op.Count? ==> ret.Size? && ret.size == items)
    && (op.Empty? ==> ret.Flag? && (ret.flag <==> items == 0))
  }

  lemma {:induction false} PerformReports<T>(q: seq<T>, op: Op<T>)
    requires Perform(q, op).Defined?
    ensures Reports(op, Perform(q, op).ret, |q|)
  {
  }

  /** What `count` and `empty` report is the balance of the pushes, pops and clears before them. */
  lemma {:induction false} CountIsBalance<T>(log: seq<Taken<T>>, t: Taken<T>)
    requires Replay(log).Some? && Replay(log + [t]).Some?
    ensures Reports(t.op, t.ret, Balance(log))
  {
    assert Init(log + [t]) == log;
    ReplayLast(log + [t]);
    PerformReports(Replay(log).value, t.op);
    BalanceIsSize(log, Replay(log).value);
  }

  lemma {:induction false} CountsInHistory<T>(log: seq<Taken<T>>, k: nat)
    requires Replay(log).Some? && k < |log|
    ensures Reports(log[k].op, log[k].ret, Balance(log[..k]))
  {
    var before, t := log[..k], log[k];
    ReplayPrefix(log, k);
    ReplayPrefix(log, k + 1);
    assert log[..k + 1] == before + [t];
    CountIsBalance(before, t);
  }

  // Operations at one end: the back, or the front.
  function PushAt<T>(back: bool, x: T): Op<T> {
    if back then PushBack(x) else PushFront(x)
  }

  function PopAt<T>(back: bool): Op<T> {
    if back then PopBack else PopFront
  }

  predicate OneEnd<T>(log: seq<Taken<T>>, back: bool) {
    forall i | 0 <= i < |log| ::
      || Reads(log[i].op)
      || if back then log[i].op.PushBack? || log[i].op.PopBack? else log[i].op.PushFront? || log[i].op.PopFront?
  }

  // No pop among these reaches below what was there before them.
  ghost predicate NeverBelow<T>(log: seq<Taken<T>>) {
    forall k | 0 <= k <= |log| :: |Popped(log[..k])| <= |Pushed(log[..k])|
  }

  // The deque with more items at one end.
  function Atop<T>(back: bool, q: seq<T>, more: seq<T>): seq<T> {
    if back then q + more else more + q
  }

  lemma {:induction false} PerformAtop<T>(back: bool, q: seq<T>, more: seq<T>, t: Taken<T>) returns (more': seq<T>)
    requires Perform(Atop(back, q, more), t.op).Defined? && Perform(Atop(back, q, more), t.op).ret == t.ret
    requires OneEnd([t], back) && |ItemsOut(t.op, t.ret)| <= |more|
    ensures Perform(Atop(back, q, more), t.op).deq == Atop(back, q, more')
    ensures |more'| == |more| + |ItemsIn(t.op)| - |ItemsOut(t.op, t.ret)|
  {
    assert [t][0] == t;
    match t.op
    case PushBack(x) => more' := more + [x]; assert (q + more) + [x] == q + more';
    case PushFront(x) => more' := [x] + more; assert [x] + (more + q) == more' + q;
    case PopBack => more' := Init(more); assert (q + more)[..|q + more| - 1] == q + more';
    case PopFront => more' := more[1..]; assert (more + q)[1..] == more' + q;
    case _ => more' := more;
  }

  lemma {:induction false} OneEndInit<T>(mid: seq<Taken<T>>, back: bool)
    requires |mid| > 0 && OneEnd(mid, back) && NeverBelow(mid)
    ensures OneEnd(Init(mid), back) && NeverBelow(Init(mid)) && OneEnd([Last(mid)], back)
    ensures |Popped(mid)| <= |Pushed(mid)|
  {
    forall k | 0 <= k <= |Init(mid)|
      ensures |Popped(Init(mid)[..k])| <= |Pushed(Init(mid)[..k])|
    {
      assert Init(mid)[..k] == mid[..k];
    }
    assert forall i | 0 <= i < |Init(mid)| :: Init(mid)[i] == mid[i];
    assert mid[..|mid|] == mid && Last(mid) == mid[|mid| - 1];
  }

  lemma {:induction false} StacksUp<T>(log: seq<Taken<T>>, mid: seq<Taken<T>>, q: seq<T>, back: bool)
    returns (more: seq<T>)
    requires Replay(log) == Some(q) && Replay(log + mid).Some? && OneEnd(mid, back) && NeverBelow(mid)
    ensures |more| == |Pushed(mid)| - |Popped(mid)|
    ensures Replay(log + mid) == Some(Atop(back, q, more))
  {
    if |mid| == 0 {
      assert log + mid == log && q + [] == q && [] + q == q;
      more := [];
    } else {
      assert Init(log + mid) == log + Init(mid) && Last(log + mid) == Last(mid);
      ReplayLast(log + mid);
      OneEndInit(mid, back);
      more := StacksUp(log, Init(mid), q, back);
      more := PerformAtop(back, q, more, Last(mid));
    }
  }

  lemma {:induction false} PopUndoesPush<T>(q: seq<T>, back: bool, x: T)
    ensures Perform(Perform(q, PushAt(back, x)).deq, PopAt(back)) == Defined(q, Item(x))
  {
    assert (q + [x])[..|q|] == q && ([x] + q)[1..] == q;
  }

  /** One end alone is a stack: if the operations since a push are all at its end and have popped exactly what they
      pushed, then the next pop returns its item and leaves the deque as it was before the push. */
  lemma {:induction false} LastInFirstOut<T>(log: seq<Taken<T>>, push: Taken<T>, mid: seq<Taken<T>>, pop: Taken<T>,
                                             back: bool, x: T)
    requires push.op == PushAt(back, x) && pop.op == PopAt(back)
    requires OneEnd(mid, back) && NeverBelow(mid) && |Popped(mid)| == |Pushed(mid)|
    requires Replay(log + [push] + mid + [pop]).Some?
    ensures pop.ret == Item(x) && Replay(log + [push] + mid + [pop]) == Replay(log)
  {
    var pushed := log + [push];
    var all := pushed + mid + [pop];
    assert Init(all) == pushed + mid && Last(all) == pop;
    ReplayLast(all);
    assert (pushed + mid)[..|pushed|] == pushed;
    ReplayPrefix(pushed + mid, |pushed|);
    assert Init(pushed) == log && Last(pushed) == push;
    ReplayLast(pushed);
    var q := Replay(pushed).value;
    var more := StacksUp(pushed, mid, q, back);
    assert Atop(back, q, more) == q;
    PopUndoesPush(Replay(log).value, back, x);
  }

  // Only one end for insertion, the other for removal.
  predicate FifoOnly<T>(log: seq<Taken<T>>) {
    forall i | 0 <= i < |log| :: log[i].op.PushBack? || log[i].op.PopFront? || Reads(log[i].op)
  }

  lemma {:induction false} PerformFifo<T>(q: seq<T>, op: Op<T>)
    requires Perform(q, op).Defined? && (op.PushBack? || op.PopFront? || Reads(op))
    ensures var Defined(q', ret) := Perform(q, op);
            q + ItemsIn(op) == ItemsOut(op, ret) + q'
  {
  }

  /** With `push_back` and `pop_front` alone, what was pushed is what was popped followed by what is queued. */
  lemma {:induction false} FirstInFirstOut<T>(log: seq<Taken<T>>)
    requires Replay(log).Some? && FifoOnly(log)
    ensures Pushed(log) == Popped(log) + Replay(log).value
  {
    if |log| > 0 {
      ReplayLast(log);
      assert FifoOnly(Init(log));
      FirstInFirstOut(Init(log));
      var Taken(_, op, ret) := log[|log| - 1];
      PerformFifo(Replay(Init(log)).value, op);
      RegroupSeq(Popped(Init(log)), Replay(Init(log)).value, ItemsIn(op), ItemsOut(op, ret), Replay(log).value);
    }
  }

  lemma {:induction false} RegroupSeq<T>(popped: seq<T>, q: seq<T>, a: seq<T>, b: seq<T>, q': seq<T>)
    requires q + a == b + q'
    ensures (popped + q) + a == (popped + b) + q'
  {
    assert (popped + q) + a == popped + (q + a);
    assert (popped + b) + q' == popped + (b + q');
  }

  /** In such a history, `front` shows and `pop_front` returns the oldest item pushed and not yet popped, and `back`
      shows the latest item pushed. */
  lemma {:induction false} EndsInOrder<T>(log: seq<Taken<T>>, t: Taken<T>)
    requires Replay(log).Some? && Replay(log + [t]).Some? && FifoOnly(log)
    ensures t.op.Front? || t.op.PopFront? ==>
              |Popped(log)| < |Pushed(log)| && t.ret == Item(Pushed(log)[|Popped(log)|])
    ensures t.op.Back? ==> |Popped(log)| < |Pushed(log)| && t.ret == Item(Last(Pushed(log)))
  {
    assert Init(log + [t]) == log;
    ReplayLast(log + [t]);
    FirstInFirstOut(log);
  }

  // The pushes of a history, and the items that thread t pushed, in order.
  ghost function Pushes<T>(log: seq<Taken<T>>): seq<Taken<T>> {
    if |log| == 0 then []
    else Pushes(Init(log)) + if IsPush(Last(log).op) then [Last(log)] else []
  }

  ghost function PushedBy<T>(log: seq<Taken<T>>, t: nat): seq<T> {
    if |log| == 0 then []
    else PushedBy(Init(log), t) + if Last(log).thread == t then ItemsIn(Last(log).op) else []
  }

  lemma {:induction false} PushesMatch<T>(log: seq<Taken<T>>, t: nat)
    ensures |Pushes(log)| == |Pushed(log)|
    ensures forall i | 0 <= i < |Pushes(log)| :: IsPush(Pushes(log)[i].op) && Pushes(log)[i].op.item == Pushed(log)[i]
    ensures PushedBy(Pushes(log), t) == PushedBy(log, t)
  {
    if |log| > 0 {
      PushesMatch(Init(log), t);
      if IsPush(Last(log).op) {
        assert Init(Pushes(log)) == Pushes(Init(log));
      } else {
        assert PushedBy(log, t) == PushedBy(Init(log), t) && Pushes(log) == Pushes(Init(log));
      }
    }
  }

  lemma {:induction false} PushedByPrefix<T>(log: seq<Taken<T>>, k: nat, t: nat)
    requires k <= |log|
    ensures PushedBy(log[..k], t) <= PushedBy(log, t)
  {
    if k == |log| {
      assert log[..k] == log;
    } else {
      assert Init(log)[..k] == log[..k];
      PushedByPrefix(Init(log), k, t);
    }
  }

  /** In such a history the items popped are those of the first pushes, in order, and what has been popped of the items
      of one thread is a prefix of what that thread pushed. */
  lemma {:induction false} ThreadOrder<T>(log: seq<Taken<T>>, t: nat)
    requires Replay(log).Some? && FifoOnly(log)
    ensures |Popped(log)| <= |Pushes(log)|
    ensures forall i | 0 <= i < |Popped(log)| :: IsPush(Pushes(log)[i].op) && Popped(log)[i] == Pushes(log)[i].op.item
    ensures PushedBy(Pushes(log)[..|Popped(log)|], t) <= PushedBy(log, t)
  {
    FirstInFirstOut(log);
    PushesMatch(log, t);
    PushedByPrefix(Pushes(log), |Popped(log)|, t);
  }
}
