/** What other threads push while an `Update` runs, and when that `Update` has to stop.

    The messages that arrive are a list of batches; each batch falls between two accesses of `Update` to the queue. */
module Arrivals {
  import opened Base

  function Flatten<T>(batches: seq<seq<T>>): seq<T> {
    if |batches| == 0 then [] else Flatten(Init(batches)) + Last(batches)
  }

  lemma {:induction false} FlattenNext<T>(batches: seq<seq<T>>, used: nat)
    requires used < |batches|
    ensures Flatten(batches[..used + 1]) == Flatten(batches[..used]) + batches[used]
  {
    assert Init(batches[..used + 1]) == batches[..used];
  }

  function UpTo<T>(batches: seq<T>, k: nat): nat {
    if k <= |batches| then k else |batches|
  }

  // What was in the queue at first, and what has arrived in the first k batches.
  function Arrived<T>(entry: seq<T>, batches: seq<seq<T>>, k: nat): seq<T> {
    entry + Flatten(batches[..UpTo(batches, k)])
  }

  // The number of batches until there is something in the queue, or all of them.
  function WaitsFor<T>(entry: seq<T>, batches: seq<seq<T>>): nat
    decreases |batches|
  {
    if |entry| > 0 || |batches| == 0 then 0 else 1 + WaitsFor(batches[0], batches[1..])
  }

  lemma {:induction false} FlattenFirst<T>(batches: seq<seq<T>>)
    requires |batches| > 0
    ensures Flatten(batches) == batches[0] + Flatten(batches[1..])
  {
    if |batches| == 1 {
      assert Init(batches) == [] && batches[1..] == [];
    } else {
      FlattenFirst(Init(batches));
      assert Init(batches)[1..] == Init(batches[1..]);
    }
  }

  /** `wait` ends with the first batch that brings something, and if there is none it uses up all of them. */
  lemma {:induction false} WaitsForFirst<T>(entry: seq<T>, batches: seq<seq<T>>)
    ensures WaitsFor(entry, batches) <= |batches|
    ensures forall k | 0 <= k < WaitsFor(entry, batches) :: Arrived(entry, batches, k) == []
    ensures Arrived(entry, batches, WaitsFor(entry, batches)) == [] <==> entry + Flatten(batches) == []
    ensures entry + Flatten(batches) == [] ==> WaitsFor(entry, batches) == |batches|
    decreases |batches|
  {
    assert batches[..|batches|] == batches;
    if |entry| == 0 && |batches| > 0 {
      var tail := batches[1..];
      WaitsForFirst(batches[0], tail);
      FlattenFirst(batches);
      forall k | 0 < k <= |batches|
        ensures Arrived(entry, batches, k) == Arrived(batches[0], tail, k - 1)
      {
        FlattenFirst(batches[..k]);
        assert batches[..k][1..] == tail[..k - 1];
      }
    }
  }

  // `Update` has delivered d messages after `used` batches, and at each emptiness check more had arrived than was
  // delivered.
  ghost predicate Going<T>(entry: seq<T>, batches: seq<seq<T>>, start: nat, d: nat, used: nat) {
    && used == UpTo(batches, start + 2 * d)
    && forall j | 0 <= j < d :: |Arrived(entry, batches, start + 2 * j + 1)| > j
  }

  // What has been delivered and what is queued is what has arrived.
  ghost predicate Balanced<T>(entry: seq<T>, batches: seq<seq<T>>, used: nat, delivered: seq<T>, queue: seq<T>) {
    delivered + queue == Arrived(entry, batches, used)
  }

  // `Update` stops after d messages and `used` batches: at each emptiness check before, more had arrived than was
  // delivered, and at the last one, unless the bound was reached, no more.
  ghost predicate StopsAfter<T>(entry: seq<T>, batches: seq<seq<T>>, start: nat, max: nat, d: nat, used: nat) {
    && d <= max
    && (forall j | 0 <= j < d :: |Arrived(entry, batches, start + 2 * j + 1)| > j)
    && (d < max ==> |Arrived(entry, batches, start + 2 * d + 1)| == d)
    && used == UpTo(batches, start + 2 * d + if d < max then 1 else 0)
  }

  lemma {:induction false} OneMore<T>(entry: seq<T>, batches: seq<seq<T>>, start: nat, used: nat, delivered: seq<T>,
                                      queue: seq<T>)
    requires Going(entry, batches, start, |delivered|, used)
    requires Balanced(entry, batches, UpTo(batches, used + 1), delivered, queue) && queue != []
    ensures Going(entry, batches, start, |delivered| + 1, UpTo(batches, UpTo(batches, used + 1) + 1))
  {
    assert UpTo(batches, used + 1) == UpTo(batches, start + 2 * |delivered| + 1);
    assert |delivered + queue| > |delivered|;
  }

  lemma {:induction false} StopsEmpty<T>(entry: seq<T>, batches: seq<seq<T>>, start: nat, max: nat, used: nat,
                                         delivered: seq<T>)
    requires Going(entry, batches, start, |delivered|, used) && |delivered| < max
    requires Balanced(entry, batches, UpTo(batches, used + 1), delivered, [])
    ensures StopsAfter(entry, batches, start, max, |delivered|, UpTo(batches, used + 1))
  {
    assert UpTo(batches, used + 1) == UpTo(batches, start + 2 * |delivered| + 1);
    assert |delivered + []| == |delivered|;
  }

  lemma {:induction false} StopsFull<T>(entry: seq<T>, batches: seq<seq<T>>, start: nat, max: nat, used: nat)
    requires Going(entry, batches, start, max, used)
    ensures StopsAfter(entry, batches, start, max, max, used)
  {
  }

  /** This determines both: given what was queued, what arrives when, and the bound, an `Update` can deliver one number
      of messages only. */
  lemma {:induction false} OneOutcome<T>(entry: seq<T>, batches: seq<seq<T>>, start: nat, max: nat, d: nat, used: nat,
                                         d': nat, used': nat)
    requires StopsAfter(entry, batches, start, max, d, used) && StopsAfter(entry, batches, start, max, d', used')
    ensures d == d' && used == used'
  {
    var here, there := Arrived(entry, batches, start + 2 * d + 1), Arrived(entry, batches, start + 2 * d' + 1);
    assert d < max ==> |here| == d;
    assert d' < max ==> |there| == d';
  }
}
