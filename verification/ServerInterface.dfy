/** `server_interface` with its fields updated in place, proved against the functions of `ConnectionTable`.

    What the outside decides comes in as parameters: the verdict on an accept, the answers to `IsConnected`, and the
    messages that other threads push while `Update` runs. What the server calls outside is recorded in `effects` and
    `handled`. */
module ServerInterfaceClass {
  import opened Base
  import opened Arrivals
  import opened ConnectionTable
  import opened TsQueueClass
  import AtomicDeque

  newtype UInt32 = x: int | 0 <= x < 0x1_0000_0000
  newtype SizeT = x: int | 0 <= x < 0x1_0000_0000_0000_0000

  datatype OwnedMessage<M> = OwnedMessage(remote: Slot, msg: M)

  // One message passes from the queue to what has been delivered.
  lemma {:induction false} MoveOne<T>(delivered: seq<T>, q: seq<T>)
    requires |q| > 0
    ensures delivered + q == (delivered + [q[0]]) + q[1..]
  {
    assert q == [q[0]] + q[1..];
  }

  lemma {:induction false} WithoutNext(table: seq<Slot>, value: Slot, i: nat)
    requires i < |table|
    ensures Without(table[..i + 1], value) == Without(table[..i], value) + if table[i] == value then [] else [table[i]]
  {
    assert Init(table[..i + 1]) == table[..i];
  }

  lemma {:induction false} VisitNext<M>(table: seq<Slot>, up: nat -> bool, ignore: Slot, msg: M, i: nat)
    requires i < |table|
    ensures Visits(table[..i + 1], up, ignore, msg) ==
            Visits(table[..i], up, ignore, msg) + Visit(table[i], Usable(table, up, i), ignore, msg)
  {
    assert Init(table[..i + 1]) == table[..i];
  }

  // A table on which a broadcast found every slot usable is left alone.
  lemma {:induction false} NothingToRemove(table: seq<Slot>, up: nat -> bool)
    requires forall k | 0 <= k < |table| :: Usable(table, up, k)
    ensures Survivors(table, up) == table
  {
    if |table| > 0 {
      assert forall k | 0 <= k < |table| - 1 :: Usable(table, up, k) ==> Usable(Init(table), up, k);
      NothingToRemove(Init(table), up);
    }
  }

  // Moving entry i down to `newEnd`.
  lemma {:induction false} MovedDown(table: seq<Slot>, newEnd: nat, i: nat)
    requires newEnd < i < |table|
    ensures var t := table[newEnd := table[i]][i := None];
            t[..newEnd + 1] == table[..newEnd] + [table[i]] && t[i + 1..] == table[i + 1..]
  {
  }

  lemma {:induction false} TailNext(a: seq<Slot>, b: seq<Slot>, i: nat)
    requires i < |a| == |b| && a[i..] == b[i..]
    ensures a[i] == b[i] && a[i + 1..] == b[i + 1..]
  {
    assert a[i] == a[i..][0] && b[i] == b[i..][0];
    assert a[i + 1..] == a[i..][1..] && b[i + 1..] == b[i..][1..];
  }

  // In the middle of the visits: the slots before i are done, and `valid` says whether all of them were usable.
  ghost predicate Visited(table: seq<Slot>, up: nat -> bool, i: nat, now: seq<Slot>, valid: bool) {
    && i <= |table| == |now|
    && (forall k | 0 <= k < |table| :: now[k] == if k >= i || Usable(table, up, k) then table[k] else None)
    && (valid ==> forall k | 0 <= k < i :: Usable(table, up, k))
  }

  lemma {:induction false} VisitedNext(table: seq<Slot>, up: nat -> bool, i: nat, now: seq<Slot>, valid: bool)
    requires i < |table| && Visited(table, up, i, now, valid)
    ensures now[i] == table[i]
    ensures if Usable(table, up, i) then Visited(table, up, i + 1, now, valid)
            else Visited(table, up, i + 1, now[i := None], false)
  {
  }

  lemma {:induction false} VisitedAll(table: seq<Slot>, up: nat -> bool, now: seq<Slot>, valid: bool)
    requires Visited(table, up, |table|, now, valid)
    ensures now == Nulled(table, up)
  {
  }

  class ServerInterface<M> {
    const m_qMessagesIn: TsQueue<OwnedMessage<M>>
    var m_deqConnections: seq<Slot>
    var nIDCounter: UInt32

    var pendingAccepts: nat                 // async_accept operations that asio holds for us
    var made: nat                           // connections created so far
    var approved: seq<Approval>             // the calls of ConnectToClient
    var effects: seq<Effect<M>>             // messages sent, and the calls of OnClientDisconnect
    var handled: seq<OwnedMessage<M>>       // the calls of OnMessage

    ghost function View(): Server<M>
      reads this
    {
      Server(m_deqConnections, nIDCounter as int, pendingAccepts, made, approved, effects)
    }

    constructor ()
      ensures View() == Fresh() && handled == []
      ensures fresh(m_qMessagesIn) && m_qMessagesIn.deqQueue == []
    {
      m_qMessagesIn := new TsQueue();
      m_deqConnections, nIDCounter := [], 10000;
      pendingAccepts, made, approved, effects, handled := 0, 0, [], [], [];
    }

    method WaitForClientConnection()
      modifies this`pendingAccepts
      ensures pendingAccepts == old(pendingAccepts) + 1
    {
      pendingAccepts := pendingAccepts + 1;
    }

    method Start()
      modifies this
      ensures Handle(old(View()), Event.Start) == Some(View()) && handled == old(handled)
    {
      WaitForClientConnection();
    }

    // The completion handler of async_accept; `verdict` is the error code and the answer of OnClientConnect.
    method OnAccept(verdict: Verdict)
      requires pendingAccepts > 0
      modifies this
      ensures Handle(old(View()), AcceptHandler(verdict)) == Some(View()) && handled == old(handled)
    {
      pendingAccepts := pendingAccepts - 1;
      if verdict != Failed {
        var newconn: Connection := made;
        made := made + 1;
        if verdict.Approved? {
          m_deqConnections := m_deqConnections + [Some(newconn)];
          approved := approved + [Approval(newconn, nIDCounter as int)];
          nIDCounter := if nIDCounter == 0xFFFF_FFFF then 0 else nIDCounter + 1;
        }
      }
      WaitForClientConnection();
    }

    // The first entry equal to `value`, or the end.
    method Find(value: Slot) returns (first: nat)
      ensures first <= |m_deqConnections| && value !in m_deqConnections[..first]
      ensures first < |m_deqConnections| ==> m_deqConnections[first] == value
    {
      first := 0;
      while first < |m_deqConnections| && m_deqConnections[first] != value
        invariant first <= |m_deqConnections| && value !in m_deqConnections[..first]
      {
        first := first + 1;
      }
    }

    // `std::remove` in place: from the first match on, move every later non-match down. Moving a shared pointer leaves
    // its source null.
    method Remove(value: Slot) returns (newEnd: nat)
      modifies this`m_deqConnections
      ensures newEnd <= |m_deqConnections|
      ensures m_deqConnections[..newEnd] == Without(old(m_deqConnections), value)
    {
      ghost var was := m_deqConnections;
      newEnd := Find(value);
      WithoutAbsent(was[..newEnd], value);
      ghost var kept := Without(was[..newEnd], value);
      var i := newEnd;
      while i < |m_deqConnections|
        invariant newEnd <= i <= |was| == |m_deqConnections|
        invariant m_deqConnections[..newEnd] == kept
        invariant kept == Without(was[..i], value)
        invariant m_deqConnections[i..] == was[i..]
        invariant newEnd == i < |was| ==> was[i] == value
      {
        WithoutNext(was, value, i);
        TailNext(m_deqConnections, was, i);
        if m_deqConnections[i] != value {
          MovedDown(m_deqConnections, newEnd, i);
          kept := kept + [was[i]];
          m_deqConnections := m_deqConnections[newEnd := m_deqConnections[i]][i := None];
          newEnd := newEnd + 1;
        }
        i := i + 1;
      }
      assert was[..i] == was;
    }

    // erase(remove(begin, end, value), end)
    method EraseAll(value: Slot)
      modifies this`m_deqConnections
      ensures m_deqConnections == Without(old(m_deqConnections), value)
    {
      var newEnd := Remove(value);
      m_deqConnections := m_deqConnections[..newEnd];
    }

    method MessageClient(client: Slot, msg: M, connected: bool)
      modifies this
      ensures Handle(old(View()), Event.MessageClient(client, msg, connected)) == Some(View())
      ensures handled == old(handled)
    {
      var client := client;
      if client.Some? && connected {
        effects := effects + [Sent(client.value, msg)];
      } else {
        effects := effects + [Disconnected(client)];
        client := None;
        EraseAll(client);
      }
    }

    // One visit of a broadcast: the slot is nulled if it turns out unusable. `connected` is what IsConnected answers.
    method VisitClient(i: nat, msg: M, pIgnoreClient: Slot, connected: bool) returns (valid: bool)
      requires i < |m_deqConnections|
      modifies this`m_deqConnections, this`effects
      ensures valid <==> old(m_deqConnections)[i].Some? && connected
      ensures m_deqConnections == if valid then old(m_deqConnections) else old(m_deqConnections)[i := None]
      ensures effects == old(effects) + Visit(old(m_deqConnections)[i], valid, pIgnoreClient, msg)
    {
      var client := m_deqConnections[i];
      valid := client.Some? && connected;
      if valid {
        if client != pIgnoreClient {
          effects := effects + [Sent(client.value, msg)];
        }
      } else {
        effects := effects + [Disconnected(client)];
        m_deqConnections := m_deqConnections[i := None];
      }
    }

    // First half of a broadcast: every slot is visited. `up(i)` is what IsConnected answers at the visit of slot i.
    method VisitAllClients(msg: M, pIgnoreClient: Slot, up: nat -> bool) returns (bInvalidClientExists: bool)
      modifies this`m_deqConnections, this`effects
      ensures m_deqConnections == Nulled(old(m_deqConnections), up)
      ensures effects == old(effects) + Visits(old(m_deqConnections), up, pIgnoreClient, msg)
      ensures !bInvalidClientExists ==> var t := old(m_deqConnections); forall k | 0 <= k < |t| :: Usable(t, up, k)
    {
      ghost var was := m_deqConnections;
      ghost var done: seq<Effect<M>> := [];
      bInvalidClientExists := false;
      var i := 0;
      while i < |m_deqConnections|
        invariant i <= |was| == |m_deqConnections|
        invariant Visited(was, up, i, m_deqConnections, !bInvalidClientExists)
        invariant effects == old(effects) + done && done == Visits(was[..i], up, pIgnoreClient, msg)
      {
        VisitNext(was, up, pIgnoreClient, msg, i);
        VisitedNext(was, up, i, m_deqConnections, !bInvalidClientExists);
        var valid := VisitClient(i, msg, pIgnoreClient, up(i));
        bInvalidClientExists := bInvalidClientExists || !valid;
        done := done + Visit(was[i], valid, pIgnoreClient, msg);
        i := i + 1;
      }
      assert was[..i] == was;
      VisitedAll(was, up, m_deqConnections, !bInvalidClientExists);
    }

    method MessageAllClients(msg: M, pIgnoreClient: Slot, up: nat -> bool)
      modifies this
      ensures Handle(old(View()), Event.MessageAllClients(msg, pIgnoreClient, up)) == Some(View())
      ensures handled == old(handled)
    {
      var bInvalidClientExists := VisitAllClients(msg, pIgnoreClient, up);
      if bInvalidClientExists {
        CompactedIsFiltered(old(m_deqConnections), up);
        EraseAll(None);
      } else {
        NothingToRemove(old(m_deqConnections), up);
        CompactedIsFiltered(old(m_deqConnections), up);
        assert m_deqConnections == old(m_deqConnections);
      }
    }

    // Other threads push these messages, one after another.
    method Arrive(batch: seq<OwnedMessage<M>>)
      modifies m_qMessagesIn
      ensures m_qMessagesIn.deqQueue == old(m_qMessagesIn.deqQueue) + batch
    {
      for i := 0 to |batch|
        invariant m_qMessagesIn.deqQueue == old(m_qMessagesIn.deqQueue) + batch[..i]
      {
        m_qMessagesIn.PushBack(batch[i]);
      }
    }

    // `wait` of the queue: batch after batch arrives until there is something, or nothing more comes.
    method AwaitMessage(arrivals: seq<seq<OwnedMessage<M>>>) returns (used: nat, blocked: bool)
      modifies m_qMessagesIn
      ensures used == WaitsFor(old(m_qMessagesIn.deqQueue), arrivals) <= |arrivals|
      ensures Balanced(old(m_qMessagesIn.deqQueue), arrivals, used, [], m_qMessagesIn.deqQueue)
      ensures blocked <==> m_qMessagesIn.deqQueue == []
      ensures blocked <==> old(m_qMessagesIn.deqQueue) + Flatten(arrivals) == []
      ensures blocked ==> used == |arrivals|
    {
      used := 0;
      ghost var entry := m_qMessagesIn.deqQueue;
      WaitsForFirst(entry, arrivals);
      blocked := m_qMessagesIn.Empty();
      while blocked && used < |arrivals|
        invariant used <= WaitsFor(entry, arrivals)
        invariant m_qMessagesIn.deqQueue == Arrived(entry, arrivals, used)
        invariant blocked <==> m_qMessagesIn.deqQueue == []
        decreases |arrivals| - used
      {
        used := Tick(arrivals, used, [], entry);
        blocked := m_qMessagesIn.Empty();
      }
    }

    // `arrivals` is what other threads push while Update runs: a batch between any two looks of `wait`, and a batch
    // just before each `empty` and `pop_front`; nothing is pushed after the last batch. `blocked` means that `wait`
    // never returns on these arrivals.
    method Update(nMaxMessages: SizeT := 0xFFFF_FFFF_FFFF_FFFF, bWait: bool := false,
                  arrivals: seq<seq<OwnedMessage<M>>>)
      returns (delivered: seq<OwnedMessage<M>>, used: nat, blocked: bool)
      modifies this`handled, m_qMessagesIn
      ensures handled == old(handled) + delivered
      ensures used <= |arrivals|
      ensures Balanced(old(m_qMessagesIn.deqQueue), arrivals, used, delivered, m_qMessagesIn.deqQueue)
      ensures blocked <==> bWait && old(m_qMessagesIn.deqQueue) + Flatten(arrivals) == []
      ensures blocked ==> delivered == [] && used == |arrivals| && m_qMessagesIn.deqQueue == []
      ensures |delivered| <= nMaxMessages as int
      ensures !blocked && |delivered| < nMaxMessages as int ==> m_qMessagesIn.deqQueue == []
      ensures var entry := old(m_qMessagesIn.deqQueue);
              var start := if bWait then WaitsFor(entry, arrivals) else 0;
              !blocked ==> StopsAfter(entry, arrivals, start, nMaxMessages as nat, |delivered|, used)
      ensures !blocked && bWait && nMaxMessages > 0 ==> delivered != []
    {
      ghost var entry := m_qMessagesIn.deqQueue;
      delivered, used, blocked := [], 0, false;
      if bWait {
        used, blocked := AwaitMessage(arrivals);
        if blocked {
          return;
        }
      }
      delivered, used := HandleAll(nMaxMessages, arrivals, entry, used);
    }

    // The loop of Update, from batch `start` on.
    method HandleAll(nMaxMessages: SizeT, arrivals: seq<seq<OwnedMessage<M>>>, ghost entry: seq<OwnedMessage<M>>,
                     start: nat)
      returns (delivered: seq<OwnedMessage<M>>, used: nat)
      requires start <= |arrivals| && Balanced(entry, arrivals, start, [], m_qMessagesIn.deqQueue)
      modifies this`handled, m_qMessagesIn
      ensures handled == old(handled) + delivered && used <= |arrivals|
      ensures Balanced(entry, arrivals, used, delivered, m_qMessagesIn.deqQueue)
      ensures StopsAfter(entry, arrivals, start, nMaxMessages as nat, |delivered|, used)
      ensures |delivered| < nMaxMessages as int ==> m_qMessagesIn.deqQueue == []
      ensures old(m_qMessagesIn.deqQueue) != [] && nMaxMessages > 0 ==> delivered != []
    {
      delivered, used := [], start;
      var nMessageCount: SizeT := 0;
      while nMessageCount < nMaxMessages
        invariant nMessageCount <= nMaxMessages && nMessageCount as int == |delivered|
        invariant handled == old(handled) + delivered
        invariant used <= |arrivals| && Balanced(entry, arrivals, used, delivered, m_qMessagesIn.deqQueue)
        invariant Going(entry, arrivals, start, |delivered|, used)
        invariant old(m_qMessagesIn.deqQueue) != [] && nMessageCount == 0 ==> m_qMessagesIn.deqQueue != []
        decreases nMaxMessages - nMessageCount
      {
        ghost var before := used;
        used := Tick(arrivals, used, delivered, entry);
        var empty := m_qMessagesIn.Empty();
        if empty {
          StopsEmpty(entry, arrivals, start, nMaxMessages as nat, before, delivered);
          break;
        }
        OneMore(entry, arrivals, start, before, delivered, m_qMessagesIn.deqQueue);
        used := Tick(arrivals, used, delivered, entry);
        var msg := HandleNext(old(handled), delivered);
        delivered := delivered + [msg];
        nMessageCount := nMessageCount + 1;
      }
      if nMessageCount == nMaxMessages {
        StopsFull(entry, arrivals, start, nMaxMessages as nat, used);
      }
    }

    // The oldest message is popped and passed to OnMessage.
    method HandleNext(ghost before: seq<OwnedMessage<M>>, ghost delivered: seq<OwnedMessage<M>>)
      returns (msg: OwnedMessage<M>)
      requires m_qMessagesIn.deqQueue != [] && handled == before + delivered
      modifies this`handled, m_qMessagesIn
      ensures handled == old(handled) + [msg] == before + (delivered + [msg])
      ensures (delivered + [msg]) + m_qMessagesIn.deqQueue == delivered + old(m_qMessagesIn.deqQueue)
    {
      MoveOne(delivered, m_qMessagesIn.deqQueue);
      msg := m_qMessagesIn.PopFront();
      handled := handled + [msg];
    }

    // The next batch, if there is one.
    method Tick(arrivals: seq<seq<OwnedMessage<M>>>, used: nat, ghost delivered: seq<OwnedMessage<M>>,
                ghost entry: seq<OwnedMessage<M>>)
      returns (used': nat)
      requires used <= |arrivals| && Balanced(entry, arrivals, used, delivered, m_qMessagesIn.deqQueue)
      modifies m_qMessagesIn
      ensures used' == UpTo(arrivals, used + 1)
      ensures Balanced(entry, arrivals, used', delivered, m_qMessagesIn.deqQueue)
      ensures old(m_qMessagesIn.deqQueue) <= m_qMessagesIn.deqQueue
    {
      used' := used;
      if used < |arrivals| {
        FlattenNext(arrivals, used);
        ghost var q, batch, came := m_qMessagesIn.deqQueue, arrivals[used], Flatten(arrivals[..used]);
        Arrive(arrivals[used]);
        assert delivered + (q + batch) == (delivered + q) + batch;
        assert entry + (came + batch) == (entry + came) + batch;
        used' := used + 1;
      }
    }
  }
}
