/** What the server's handlers do to its connection table, and what holds over whole runs of them.

    The functions here are the specification that the methods of class `ServerInterface` are proved against. A
    connection is known by its identity only, the order in which the server created it; whether it is connected is an
    answer from outside, asked for once per visit. Handlers are taken to run one at a time. */
module ConnectionTable {
  import opened Base

  type Connection = nat

  // A shared pointer to a connection; None is the null pointer.
  type Slot = Option<Connection>

  // Calls that leave the server: a message posted to a connection, and OnClientDisconnect.
  datatype Effect<M> = Sent(conn: Connection, msg: M) | Disconnected(client: Slot)

  // One `ConnectToClient(uid)`. The socket has just been accepted and is open, so the connection takes the id over.
  datatype Approval = Approval(conn: Connection, uid: int)

  const ID_RANGE: int := 0x1_0000_0000
  const FIRST_ID: int := 10000

  datatype Server<M> = Server(
    table: seq<Slot>,            // m_deqConnections
    nextId: int,                 // nIDCounter
    pending: nat,                // outstanding async_accept operations
    made: nat,                   // connections created so far
    approved: seq<Approval>,     // history of approvals
    effects: seq<Effect<M>>)     // history of outgoing calls

  datatype Verdict = Failed | Denied | Approved

  // ---------------------------------------------------------------- tables

  // The table without the entries equal to `value`, in order.
  function Without(table: seq<Slot>, value: Slot): seq<Slot> {
    if |table| == 0 then []
    else Without(Init(table), value) + if Last(table) == value then [] else [Last(table)]
  }

  // Visit i finds slot i usable when it is not null and answers that it is connected.
  predicate Usable(table: seq<Slot>, up: nat -> bool, i: nat)
    requires i < |table|
  {
    table[i].Some? && up(i)
  }

  // The slots found usable, in order, and the others.
  function Survivors(table: seq<Slot>, up: nat -> bool): seq<Slot> {
    if |table| == 0 then []
    else Survivors(Init(table), up) + if Usable(table, up, |table| - 1) then [Last(table)] else []
  }

  function Lost(table: seq<Slot>, up: nat -> bool): seq<Slot> {
    if |table| == 0 then []
    else Lost(Init(table), up) + if Usable(table, up, |table| - 1) then [] else [Last(table)]
  }

  // The table in the middle of a broadcast: every slot that was not usable is null.
  function Nulled(table: seq<Slot>, up: nat -> bool): seq<Slot> {
    seq(|table|, i requires 0 <= i < |table| => if Usable(table, up, i) then table[i] else None)
  }

  // What a broadcast does to the outside at one slot, and at all of them in turn.
  function Visit<M>(slot: Slot, usable: bool, ignore: Slot, msg: M): seq<Effect<M>>
    requires usable ==> slot.Some?
  {
    if !usable then [Disconnected(slot)]
    else if slot == ignore then []
    else [Sent(slot.value, msg)]
  }

  function Visits<M>(table: seq<Slot>, up: nat -> bool, ignore: Slot, msg: M): seq<Effect<M>> {
    if |table| == 0 then []
    else Visits(Init(table), up, ignore, msg) + Visit(Last(table), Usable(table, up, |table| - 1), ignore, msg)
  }

  // ---------------------------------------------------------------- handlers

  function Accepted<M>(s: Server<M>, v: Verdict): Server<M> {
    match v
    case Failed => s
    case Denied => s.(made := s.made + 1)
    case Approved =>
      s.(made := s.made + 1,
         table := s.table + [Some(s.made)],
         approved := s.approved + [Approval(s.made, s.nextId)],
         nextId := (s.nextId + 1) % ID_RANGE)
  }

  // `client` is reset to null before it is searched for, so what goes is the null slots.
  function Unicast<M>(s: Server<M>, client: Slot, msg: M, up: bool): Server<M> {
    if client.Some? && up then s.(effects := s.effects + [Sent(client.value, msg)])
    else s.(effects := s.effects + [Disconnected(client)], table := Without(s.table, None))
  }

  function Broadcast<M>(s: Server<M>, msg: M, ignore: Slot, up: nat -> bool): Server<M> {
    s.(effects := s.effects + Visits(s.table, up, ignore, msg), table := Survivors(s.table, up))
  }

  datatype Event<M> =
    | Start
    | AcceptHandler(verdict: Verdict)
    | MessageClient(client: Slot, msg: M, connected: bool)
    | MessageAllClients(msg: M, ignore: Slot, up: nat -> bool)

  // None when the event cannot happen: an accept handler runs only for an outstanding accept. It ends by arming the
  // next one, whatever its verdict.
  function Handle<M>(s: Server<M>, e: Event<M>): Option<Server<M>> {
    match e
    case Start => Some(s.(pending := s.pending + 1))
    case AcceptHandler(v) =>
      if s.pending == 0 then None
      else
        var s' := Accepted(s.(pending := s.pending - 1), v);
        Some(s'.(pending := s'.pending + 1))
    case MessageClient(client, msg, connected) => Some(Unicast(s, client, msg, connected))
    case MessageAllClients(msg, ignore, up) => Some(Broadcast(s, msg, ignore, up))
  }

  function Fresh<M>(): Server<M> {
    Server([], FIRST_ID, 0, 0, [], [])
  }

  function Run<M>(events: seq<Event<M>>): Option<Server<M>> {
    if |events| == 0 then Some(Fresh())
    else match Run(Init(events))
      case None => None
      case Some(s) => Handle(s, Last(events))
  }

  // ---------------------------------------------------------------- filtering

  lemma {:induction false} WithoutCounts(table: seq<Slot>, value: Slot, slot: Slot)
    ensures multiset(Without(table, value))[slot] == if slot == value then 0 else multiset(table)[slot]
  {
    if |table| > 0 {
      WithoutCounts(Init(table), value, slot);
      assert table == Init(table) + [Last(table)];
    }
  }

  lemma {:induction false} WithoutAbsent(table: seq<Slot>, value: Slot)
    requires forall k | 0 <= k < |table| :: table[k] != value
    ensures Without(table, value) == table
  {
    if |table| > 0 {
      var n := |table| - 1;
      WithoutAbsent(table[..n], value);
      assert table[n] != value;
      assert table[..n] + [table[n]] == table;
    }
  }

  /** Removing a value keeps everything else, with multiplicity, and nothing of that value; without that value in it the
      table stays as it is. */
  lemma {:induction false} WithoutKeeps(table: seq<Slot>, value: Slot)
    ensures multiset(Without(table, value)) == multiset(table)[value := 0]
    ensures value !in table ==> Without(table, value) == table
  {
    forall slot
      ensures multiset(Without(table, value))[slot] == multiset(table)[value := 0][slot]
    {
      WithoutCounts(table, value, slot);
    }
    if value !in table {
      WithoutAbsent(table, value);
    }
  }

  /** Compacting the half-nulled table of a broadcast leaves exactly the slots found usable, in order. */
  lemma {:induction false} CompactedIsFiltered(table: seq<Slot>, up: nat -> bool)
    ensures Without(Nulled(table, up), None) == Survivors(table, up)
  {
    if |table| > 0 {
      CompactedIsFiltered(Init(table), up);
      assert forall i | 0 <= i < |table| - 1 :: Usable(Init(table), up, i) <==> Usable(table, up, i);
      assert Init(Nulled(table, up)) == Nulled(Init(table), up);
    }
  }

  /** A broadcast splits the table: every slot survives or is lost, none both, none twice. */
  lemma {:induction false} SplitsTable(table: seq<Slot>, up: nat -> bool)
    ensures multiset(Survivors(table, up)) + multiset(Lost(table, up)) == multiset(table)
  {
    if |table| > 0 {
      SplitsTable(Init(table), up);
      assert table == Init(table) + [Last(table)];
    }
  }

  // Where the k-th survivor stood before.
  lemma {:induction false} SurvivorAt(table: seq<Slot>, up: nat -> bool, k: nat) returns (i: nat)
    requires k < |Survivors(table, up)|
    ensures i < |table| && Usable(table, up, i) && Survivors(table, up)[k] == table[i]
    ensures |Survivors(table[..i], up)| == k
  {
    if k == |Survivors(Init(table), up)| {
      i := |table| - 1;
      assert table[..i] == Init(table);
    } else {
      i := SurvivorAt(Init(table), up, k);
      assert Init(table)[..i] == table[..i];
    }
  }

  lemma {:induction false} UsableSurvives(table: seq<Slot>, up: nat -> bool, i: nat)
    requires i < |table|
    ensures if Usable(table, up, i) then table[i] in Survivors(table, up) else table[i] in Lost(table, up)
  {
    if i < |table| - 1 {
      UsableSurvives(Init(table), up, i);
    }
  }

  lemma {:induction false} PrefixSurvivors(table: seq<Slot>, up: nat -> bool, i: nat)
    requires i <= |table|
    ensures |Survivors(table[..i], up)| <= |Survivors(table, up)|
  {
    if i == |table| {
      assert table[..i] == table;
    } else {
      assert Init(table)[..i] == table[..i];
      PrefixSurvivors(Init(table), up, i);
    }
  }

  lemma {:induction false} FewerBefore(table: seq<Slot>, up: nat -> bool, j: nat, i: nat)
    requires j <= i <= |table|
    ensures |Survivors(table[..j], up)| <= |Survivors(table[..i], up)|
  {
    PrefixSurvivors(table[..i], up, j);
    assert table[..i][..j] == table[..j];
  }

  /** The survivors stand in the order they had in the table. */
  lemma {:induction false} SurvivorsInOrder(table: seq<Slot>, up: nat -> bool, k: nat, l: nat) returns (i: nat, j: nat)
    requires k < l < |Survivors(table, up)|
    ensures i < j < |table| && Usable(table, up, i) && Usable(table, up, j)
    ensures Survivors(table, up)[k] == table[i] && Survivors(table, up)[l] == table[j]
  {
    i := SurvivorAt(table, up, k);
    j := SurvivorAt(table, up, l);
    if j <= i {
      FewerBefore(table, up, j, i);
    }
  }

  // The messages sent, and the slots passed to OnClientDisconnect, in order.
  function Sends<M>(effects: seq<Effect<M>>): seq<(Connection, M)> {
    if |effects| == 0 then []
    else Sends(Init(effects)) + if Last(effects).Sent? then [(Last(effects).conn, Last(effects).msg)] else []
  }

  function Notices<M>(effects: seq<Effect<M>>): seq<Slot> {
    if |effects| == 0 then []
    else Notices(Init(effects)) + if Last(effects).Disconnected? then [Last(effects).client] else []
  }

  // One copy of the message for each slot of the list.
  function Addressed<M>(slots: seq<Slot>, msg: M): seq<(Connection, M)> {
    if |slots| == 0 then []
    else Addressed(Init(slots), msg) + if Last(slots).Some? then [(Last(slots).value, msg)] else []
  }

  /** Broadcast refines filter: the message goes to the usable slots other than `ignore`, once per slot and in table
      order, and OnClientDisconnect gets the remaining slots, once each and in table order. */
  lemma {:induction false} BroadcastRefinesFilter<M>(table: seq<Slot>, up: nat -> bool, ignore: Slot, msg: M)
    ensures Sends(Visits(table, up, ignore, msg)) == Addressed(Without(Survivors(table, up), ignore), msg)
    ensures Notices(Visits(table, up, ignore, msg)) == Lost(table, up)
  {
    if |table| > 0 {
      BroadcastRefinesFilter(Init(table), up, ignore, msg);
      var before, after := Visits(Init(table), up, ignore, msg), Visits(table, up, ignore, msg);
      var kept := Survivors(Init(table), up);
      if !Usable(table, up, |table| - 1) {
        assert Init(after) == before && Survivors(table, up) == kept;
      } else {
        assert Init(Survivors(table, up)) == kept;
        var addressed := Without(kept, ignore);
        if Last(table) == ignore {
          assert after == before && Without(Survivors(table, up), ignore) == addressed;
        } else {
          assert Init(after) == before;
          assert Init(Without(Survivors(table, up), ignore)) == addressed;
        }
      }
    }
  }
}
