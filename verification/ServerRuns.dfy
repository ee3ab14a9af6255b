/** What holds of the connection table over every run of the server's handlers. */
module ServerRuns {
  import opened Base
  import opened ConnectionTable

  // ---------------------------------------------------------------- the table invariant

  predicate Increasing(slots: seq<Slot>, bound: nat) {
    && (forall i | 0 <= i < |slots| :: slots[i].Some? && slots[i].value < bound)
    && (forall i, j | 0 <= i < j < |slots| :: slots[i].Some? && slots[j].Some? && slots[i].value < slots[j].value)
  }

  predicate IsApproved(approved: seq<Approval>, c: Connection) {
    exists k :: 0 <= k < |approved| && approved[k].conn == c
  }

  predicate ApprovalsOk(approved: seq<Approval>, made: nat) {
    && (forall k | 0 <= k < |approved| :: approved[k].conn < made && approved[k].uid == (FIRST_ID + k) % ID_RANGE)
    && (forall k, l | 0 <= k < l < |approved| :: approved[k].conn < approved[l].conn)
  }

  predicate TableInv<M>(s: Server<M>) {
    && Increasing(s.table, s.made)
    && ApprovalsOk(s.approved, s.made)
    && (forall i | 0 <= i < |s.table| && s.table[i].Some? :: IsApproved(s.approved, s.table[i].value))
    && s.nextId == (FIRST_ID + |s.approved|) % ID_RANGE
  }

  lemma {:induction false} SurvivorsIncreasing(table: seq<Slot>, up: nat -> bool, bound: nat)
    requires Increasing(table, bound)
    ensures Increasing(Survivors(table, up), bound)
    ensures forall k | 0 <= k < |Survivors(table, up)| :: Survivors(table, up)[k] in table
  {
    if |table| > 0 {
      SurvivorsIncreasing(Init(table), up, bound);
      assert forall k | 0 <= k < |Survivors(Init(table), up)| ::
          Survivors(Init(table), up)[k] in Init(table);
    }
  }

  lemma {:induction false} NoNullsToRemove<M>(s: Server<M>)
    requires TableInv(s)
    ensures Without(s.table, None) == s.table
  {
    WithoutAbsent(s.table, None);
  }

  lemma {:induction false} StillApproved(approved: seq<Approval>, a: Approval, c: Connection)
    requires IsApproved(approved, c) || c == a.conn
    ensures IsApproved(approved + [a], c)
  {
    if c == a.conn {
      assert (approved + [a])[|approved|].conn == c;
    } else {
      var k :| 0 <= k < |approved| && approved[k].conn == c;
      assert (approved + [a])[k].conn == c;
    }
  }

  lemma {:induction false} ApprovalKeepsInv<M>(s: Server<M>)
    requires TableInv(s)
    ensures TableInv(Accepted(s, Approved))
  {
    var s' := Accepted(s, Approved);
    forall i | 0 <= i < |s'.table|
      ensures IsApproved(s'.approved, s'.table[i].value)
    {
      StillApproved(s.approved, Approval(s.made, s.nextId), s'.table[i].value);
    }
  }

  lemma {:induction false} BroadcastKeepsInv<M>(s: Server<M>, msg: M, ignore: Slot, up: nat -> bool)
    requires TableInv(s)
    ensures TableInv(Broadcast(s, msg, ignore, up))
  {
    SurvivorsIncreasing(s.table, up, s.made);
  }

  lemma {:induction false} HandleKeepsInv<M>(s: Server<M>, e: Event<M>)
    requires TableInv(s) && Handle(s, e).Some?
    ensures TableInv(Handle(s, e).value)
  {
    match e
    case MessageAllClients(msg, ignore, up) => BroadcastKeepsInv(s, msg, ignore, up);
    case MessageClient(_, _, _) => NoNullsToRemove(s);
    case AcceptHandler(v) =>
      if v.Approved? {
        ApprovalKeepsInv(s.(pending := s.pending - 1));
      }
    case Start =>
  }

  lemma {:induction false} RunKeepsInv<M>(events: seq<Event<M>>)
    requires Run(events).Some?
    ensures TableInv(Run(events).value)
  {
    if |events| > 0 {
      RunKeepsInv(Init(events));
      HandleKeepsInv(Run(Init(events)).value, Last(events));
    }
  }

  /** Between handlers the table holds no null and no duplicate, only approved connections, in the order of approval. */
  lemma {:induction false} TableIsClean<M>(events: seq<Event<M>>)
    requires Run(events).Some?
    ensures var s := Run(events).value;
            && None !in s.table
            && (forall i, j | 0 <= i < j < |s.table| :: s.table[i] != s.table[j] && s.table[i].value < s.table[j].value)
            && (forall i | 0 <= i < |s.table| :: IsApproved(s.approved, s.table[i].value))
  {
    RunKeepsInv(events);
  }

  // ---------------------------------------------------------------- ids

  // The approval of a connection.
  function ApprovalOf(approved: seq<Approval>, c: Connection): Option<Approval> {
    if |approved| == 0 then None
    else if Last(approved).conn == c then Some(Last(approved))
    else ApprovalOf(Init(approved), c)
  }

  lemma {:induction false} ApprovalAt(approved: seq<Approval>, made: nat, k: nat)
    requires ApprovalsOk(approved, made) && k < |approved|
    ensures ApprovalOf(approved, approved[k].conn) == Some(approved[k])
  {
    if k < |approved| - 1 {
      assert Init(approved)[k] == approved[k];
      ApprovalAt(Init(approved), made, k);
    }
  }

  // The id handed to the i-th connection of the table.
  function HandedOut<M>(s: Server<M>, i: nat): int
    requires i < |s.table|
  {
    if s.table[i].None? then 0
    else match ApprovalOf(s.approved, s.table[i].value)
      case None => 0
      case Some(a) => a.uid
  }

  predicate IdsIncrease<M>(s: Server<M>) {
    forall i, j | 0 <= i < j < |s.table| :: HandedOut(s, i) < HandedOut(s, j)
  }

  lemma {:induction false} HandedOutAt<M>(s: Server<M>, i: nat) returns (k: nat)
    requires TableInv(s) && i < |s.table|
    ensures k < |s.approved| && s.table[i] == Some(s.approved[k].conn) && HandedOut(s, i) == (FIRST_ID + k) % ID_RANGE
  {
    k :| 0 <= k < |s.approved| && s.approved[k].conn == s.table[i].value;
    ApprovalAt(s.approved, s.made, k);
  }

  lemma {:induction false} NoWrapIncreases<M>(s: Server<M>, i: nat, j: nat)
    requires TableInv(s) && |s.approved| <= ID_RANGE - FIRST_ID && i < j < |s.table|
    ensures HandedOut(s, i) < HandedOut(s, j)
  {
    var k := HandedOutAt(s, i);
    var l := HandedOutAt(s, j);
    assert k < l by {
      assert s.approved[k].conn < s.approved[l].conn;
    }
  }

  /** The k-th client approved, counting from 0, is given id 10000 + k modulo 2^32, and the next one will get the id
      after the last. */
  lemma {:induction false} IdsFrom10000<M>(events: seq<Event<M>>)
    requires Run(events).Some?
    ensures var s := Run(events).value;
            && (forall k | 0 <= k < |s.approved| :: s.approved[k].uid == (10000 + k) % 0x1_0000_0000)
            && s.nextId == (10000 + |s.approved|) % 0x1_0000_0000
  {
    RunKeepsInv(events);
  }

  /** And every client in the table has the id of its own approval. */
  lemma {:induction false} IdByApproval<M>(events: seq<Event<M>>, i: nat) returns (k: nat)
    requires Run(events).Some? && i < |Run(events).value.table|
    ensures var s := Run(events).value;
            && k < |s.approved| && s.table[i] == Some(s.approved[k].conn)
            && HandedOut(s, i) == (10000 + k) % 0x1_0000_0000
  {
    RunKeepsInv(events);
    k := HandedOutAt(Run(events).value, i);
  }

  /** Until the 32-bit counter wraps, the ids handed out are strictly increasing along the table. */
  lemma {:induction false} IdsIncreaseBeforeWrap<M>(events: seq<Event<M>>)
    requires Run(events).Some? && |Run(events).value.approved| <= 0x1_0000_0000 - 10000
    ensures IdsIncrease(Run(events).value)
  {
    RunKeepsInv(events);
    var s := Run(events).value;
    forall i, j | 0 <= i < j < |s.table|
      ensures HandedOut(s, i) < HandedOut(s, j)
    {
      NoWrapIncreases(s, i, j);
    }
  }

  lemma {:induction false} SameRemainder(k: nat, l: nat)
    requires k < l
    ensures (FIRST_ID + k) % ID_RANGE == (FIRST_ID + l) % ID_RANGE <==> (l - k) % ID_RANGE == 0
  {
    var q, r := (l - k) / ID_RANGE, (l - k) % ID_RANGE;
    assert FIRST_ID + l == (FIRST_ID + k + r) + q * ID_RANGE;
  }

  /** In every run, two entries of the table have the same id exactly if the number of approvals between them is a
      multiple of 2^32. */
  lemma {:induction false} SameIdExactly<M>(events: seq<Event<M>>, i: nat, j: nat) returns (k: nat, l: nat)
    requires Run(events).Some? && i < j < |Run(events).value.table|
    ensures var s := Run(events).value;
            && k < l < |s.approved|
            && s.table[i] == Some(s.approved[k].conn) && s.table[j] == Some(s.approved[l].conn)
            && (HandedOut(s, i) == HandedOut(s, j) <==> (l - k) % 0x1_0000_0000 == 0)
  {
    RunKeepsInv(events);
    var s := Run(events).value;
    k := HandedOutAt(s, i);
    l := HandedOutAt(s, j);
    assert s.approved[k].conn < s.approved[l].conn;
    SameRemainder(k, l);
  }

  /** So all clients in the table have different ids for the first 2^32 approvals. */
  lemma {:induction false} IdsDistinct<M>(events: seq<Event<M>>, i: nat, j: nat)
    requires Run(events).Some? && i < j < |Run(events).value.table|
    requires |Run(events).value.approved| <= 0x1_0000_0000
    ensures HandedOut(Run(events).value, i) != HandedOut(Run(events).value, j)
  {
    var k, l := SameIdExactly(events, i, j);
  }

  // One Start, and n connections approved in a row.
  function Approvals<M>(n: nat): seq<Event<M>> {
    [Start] + seq(n, _ => AcceptHandler(Approved))
  }

  lemma {:induction false} ApprovalsRun<M>(n: nat)
    ensures Run(Approvals<M>(n)).Some?
    ensures var s := Run(Approvals<M>(n)).value;
            s.pending == 1 && s.made == n && |s.table| == n && |s.approved| == n
  {
    if n == 0 {
      assert Init(Approvals<M>(0)) == [];
    } else {
      assert Init(Approvals<M>(n)) == Approvals<M>(n - 1);
      ApprovalsRun<M>(n - 1);
    }
  }

  /** The bound is sharp: if everybody is approved and nobody leaves, the ids along the table are strictly increasing
      exactly as long as at most 2^32 - 10000 connections have been approved. */
  lemma {:induction false} IdsIncreaseExactly<M>(n: nat)
    ensures Run(Approvals<M>(n)).Some?
    ensures IdsIncrease(Run(Approvals<M>(n)).value) <==> n <= 0x1_0000_0000 - 10000
  {
    ApprovalsRun<M>(n);
    var s := Run(Approvals<M>(n)).value;
    if n <= ID_RANGE - FIRST_ID {
      IdsIncreaseBeforeWrap(Approvals<M>(n));
    } else {
      RunKeepsInv(Approvals<M>(n));
      var wrap := ID_RANGE - FIRST_ID;
      WholeTable(s, wrap - 1);
      WholeTable(s, wrap);
      assert HandedOut(s, wrap) == 0 < HandedOut(s, wrap - 1);
    }
  }

  // When nobody has left, the i-th entry of the table is the i-th approval.
  lemma {:induction false} WholeTable<M>(s: Server<M>, i: nat)
    requires TableInv(s) && |s.table| == |s.approved| && i < |s.table|
    ensures HandedOut(s, i) == (FIRST_ID + i) % ID_RANGE
  {
    var k := HandedOutAt(s, i);
    RankUp(s, i);
    RankDown(s, i);
    assert s.table[i].value == s.approved[i].conn;
    assert k == i;
  }

  lemma {:induction false} RankUp<M>(s: Server<M>, i: nat)
    requires TableInv(s) && |s.table| == |s.approved| && i < |s.table|
    ensures s.table[i].value >= s.approved[i].conn
  {
    var k := HandedOutAt(s, i);
    if i > 0 {
      RankUp(s, i - 1);
      assert s.approved[k].conn > s.approved[i - 1].conn;
    }
  }

  lemma {:induction false} RankDown<M>(s: Server<M>, i: nat)
    requires TableInv(s) && |s.table| == |s.approved| && i < |s.table|
    ensures s.table[i].value <= s.approved[i].conn
    decreases |s.table| - i
  {
    var k := HandedOutAt(s, i);
    if i < |s.table| - 1 {
      RankDown(s, i + 1);
      assert s.approved[k].conn < s.approved[i + 1].conn;
    }
  }

  // Connection 0 stays; n others come and are found gone by the next broadcast.
  function Visitors<M>(n: nat, msg: M): seq<Event<M>> {
    if n == 0 then [Start, AcceptHandler(Approved)]
    else Visitors(n - 1, msg) + [AcceptHandler(Approved), MessageAllClients(msg, None, i => i == 0)]
  }

  lemma {:induction false} VisitorsRun<M>(n: nat, msg: M)
    ensures Run(Visitors(n, msg)).Some?
    ensures var s := Run(Visitors(n, msg)).value;
            && s.table == [Some(0)] && s.pending == 1 && s.made == |s.approved| == n + 1
            && s.approved[0].conn == 0
  {
    var events := Visitors(n, msg);
    if n == 0 {
      var none: seq<Event<M>> := [];
      assert Init(events) == [Start] && Init([Start]) == none;
      assert Run([Start]) == Handle(Run(none).value, Start);
    } else {
      var before, m: Event<M> := Visitors(n - 1, msg), MessageAllClients(msg, None, i => i == 0);
      var during := before + [AcceptHandler(Approved)];
      VisitorsRun(n - 1, msg);
      assert Init(events) == during && Last(events) == m && Init(during) == before;
      assert Run(during) == Handle(Run(before).value, AcceptHandler(Approved));
      var s := Run(during).value;
      assert s.table == [Some(0), Some(n)] && Init(s.table) == [Some(0)] && Init([Some(0)]) == [];
      assert Survivors(s.table, m.up) == [Some(0)];
    }
  }

  /** A client that stays can meet its own id again: a newcomer after n visitors gets the id of connection 0 exactly if
      n + 1 is a multiple of 2^32, and these two are then the whole table. */
  lemma {:induction false} NewcomerSharesId<M>(n: nat, msg: M)
    ensures var events := Visitors(n, msg) + [AcceptHandler(Approved)];
            && Run(events).Some?
            && var s := Run(events).value;
               && s.table == [Some(0), Some(n + 1)]
               && (HandedOut(s, 0) == HandedOut(s, 1) <==> (n + 1) % 0x1_0000_0000 == 0)
  {
    var events: seq<Event<M>> := Visitors(n, msg) + [AcceptHandler(Approved)];
    VisitorsRun(n, msg);
    assert Init(events) == Visitors(n, msg);
    var k, l := SameIdExactly(events, 0, 1);
    RunKeepsInv(events);
    var approved := Run(events).value.approved;
    assert approved[0].conn == 0 && approved[n + 1].conn == n + 1;
    assert k == 0 && l == n + 1;
  }

  // ---------------------------------------------------------------- the accept loop

  function StartsIn<M>(events: seq<Event<M>>): nat {
    if |events| == 0 then 0 else StartsIn(Init(events)) + if Last(events).Start? then 1 else 0
  }

  function ApprovalsIn<M>(events: seq<Event<M>>): nat {
    if |events| == 0 then 0
    else
      ApprovalsIn(Init(events)) +
      if Last(events).AcceptHandler? && Last(events).verdict.Approved? then 1 else 0
  }

  /** Between handlers there is one outstanding accept per Start, whichever way the handlers went, and the id counter
      has advanced by one per approval and by nothing else. */
  lemma {:induction false} AcceptAccounting<M>(events: seq<Event<M>>)
    requires Run(events).Some?
    ensures var s := Run(events).value;
            && s.pending == StartsIn(events)
            && |s.approved| == ApprovalsIn(events)
            && s.nextId == (10000 + ApprovalsIn(events)) % 0x1_0000_0000
  {
    RunKeepsInv(events);
    if |events| > 0 {
      AcceptAccounting(Init(events));
    }
  }

  /** After one Start the server never stops accepting: the next handler can always run, with any verdict. */
  lemma {:induction false} KeepsAccepting<M>(events: seq<Event<M>>, v: Verdict)
    requires Run(events).Some? && StartsIn(events) == 1
    ensures Run(events + [AcceptHandler(v)]).Some? && Run(events + [AcceptHandler(v)]).value.pending == 1
  {
    AcceptAccounting(events);
    assert Init(events + [AcceptHandler(v)]) == events;
  }

  // ---------------------------------------------------------------- who is told to be gone, and how often

  lemma {:induction false} DistinctSlots(table: seq<Slot>, bound: nat, slot: Slot)
    requires Increasing(table, bound)
    ensures multiset(table)[slot] == if slot in table then 1 else 0
  {
    if |table| > 0 {
      DistinctSlots(Init(table), bound, slot);
      assert table == Init(table) + [Last(table)];
      assert forall i | 0 <= i < |Init(table)| :: Init(table)[i] != Last(table);
    }
  }

  lemma {:induction false} NoticesConcat<M>(a: seq<Effect<M>>, b: seq<Effect<M>>)
    ensures Notices(a + b) == Notices(a) + Notices(b)
  {
    if |b| == 0 {
      assert a + b == a;
    } else {
      assert Init(a + b) == a + Init(b);
      NoticesConcat(a, Init(b));
    }
  }

  // How often OnClientDisconnect has been called for c.
  ghost function TimesNotified<M>(s: Server<M>, c: Connection): nat {
    multiset(Notices(s.effects))[Some(c)]
  }

  // How often MessageClient found c disconnected.
  function DeadUnicasts<M>(events: seq<Event<M>>, c: Connection): nat {
    if |events| == 0 then 0
    else
      DeadUnicasts(Init(events), c) +
      if Last(events).MessageClient? && Last(events).client == Some(c) && !Last(events).connected then 1 else 0
  }

  predicate Gone<M>(s: Server<M>, c: Connection) {
    IsApproved(s.approved, c) && Some(c) !in s.table
  }

  lemma {:induction false} BroadcastNotifies<M>(s: Server<M>, msg: M, ignore: Slot, up: nat -> bool, c: Connection)
    requires TableInv(s)
    ensures var s' := Broadcast(s, msg, ignore, up);
            TimesNotified(s', c) == TimesNotified(s, c) + if Some(c) in s.table && Some(c) !in s'.table then 1 else 0
  {
    var s' := Broadcast(s, msg, ignore, up);
    BroadcastRefinesFilter(s.table, up, ignore, msg);
    NoticesConcat(s.effects, Visits(s.table, up, ignore, msg));
    SplitsTable(s.table, up);
    SurvivorsIncreasing(s.table, up, s.made);
    DistinctSlots(s.table, s.made, Some(c));
    DistinctSlots(s'.table, s.made, Some(c));
    assert multiset(s.table)[Some(c)] == multiset(s'.table)[Some(c)] + multiset(Lost(s.table, up))[Some(c)];
  }

  lemma {:induction false} OneMoreEffect<M>(effects: seq<Effect<M>>, e: Effect<M>, slot: Slot)
    ensures multiset(Notices(effects + [e]))[slot] ==
            multiset(Notices(effects))[slot] + if e == Disconnected(slot) then 1 else 0
  {
    assert Init(effects + [e]) == effects;
  }

  lemma {:induction false} UnicastNotifies<M>(s: Server<M>, client: Slot, msg: M, up: bool, c: Connection)
    requires TableInv(s)
    ensures var s' := Unicast(s, client, msg, up);
            && s'.table == s.table
            && TimesNotified(s', c) == TimesNotified(s, c) + if client == Some(c) && !up then 1 else 0
  {
    NoNullsToRemove(s);
    if client.Some? && up {
      OneMoreEffect(s.effects, Sent(client.value, msg), Some(c));
    } else {
      OneMoreEffect(s.effects, Disconnected(client), Some(c));
    }
  }

  // Somebody approved just now was neither approved nor in the table before.
  lemma {:induction false} NewcomerUnknown<M>(s: Server<M>, c: Connection)
    requires TableInv(s)
    ensures Gone(Accepted(s, Approved), c) <==> Gone(s, c)
  {
    var a := Approval(s.made, s.nextId);
    var s' := Accepted(s, Approved);
    assert s'.table[|s.table|] == Some(s.made);
    assert Some(c) in s'.table <==> Some(c) in s.table || c == s.made;
    if IsApproved(s.approved, c) {
      StillApproved(s.approved, a, c);
    }
    if k :| 0 <= k < |s'.approved| && s'.approved[k].conn == c {
      assert k < |s.approved| ==> s.approved[k].conn == c;
    }
  }

  lemma {:induction false} BroadcastLosesApproved<M>(s: Server<M>, msg: M, ignore: Slot, up: nat -> bool, c: Connection)
    requires TableInv(s)
    ensures var s' := Broadcast(s, msg, ignore, up);
            Gone(s', c) <==> Gone(s, c) || (Some(c) in s.table && Some(c) !in s'.table)
  {
    SurvivorsIncreasing(s.table, up, s.made);
    if i :| 0 <= i < |s.table| && s.table[i] == Some(c) {
      assert IsApproved(s.approved, s.table[i].value);
    }
  }

  lemma {:induction false} HandleNotifies<M>(s: Server<M>, e: Event<M>, c: Connection)
    requires TableInv(s) && Handle(s, e).Some?
    ensures var s' := Handle(s, e).value;
            TimesNotified(s', c) - (if Gone(s', c) then 1 else 0) ==
            TimesNotified(s, c) - (if Gone(s, c) then 1 else 0) +
            if e.MessageClient? && e.client == Some(c) && !e.connected then 1 else 0
  {
    match e
    case Start =>
    case AcceptHandler(v) =>
      if v.Approved? {
        NewcomerUnknown(s.(pending := s.pending - 1), c);
      }
    case MessageClient(client, msg, up) => UnicastNotifies(s, client, msg, up, c);
    case MessageAllClients(msg, ignore, up) =>
      BroadcastNotifies(s, msg, ignore, up, c);
      BroadcastLosesApproved(s, msg, ignore, up, c);
  }

  /** Whole-run conservation. In any run a connection has been passed to OnClientDisconnect once for each MessageClient
      that found it disconnected, and once more exactly if it was approved and is no longer in the table. */
  lemma {:induction false} NotificationAccount<M>(events: seq<Event<M>>, c: Connection)
    requires Run(events).Some?
    ensures var s := Run(events).value;
            TimesNotified(s, c) == DeadUnicasts(events, c) + if Gone(s, c) then 1 else 0
  {
    if |events| > 0 {
      RunKeepsInv(Init(events));
      NotificationAccount(Init(events), c);
      HandleNotifies(Run(Init(events)).value, Last(events), c);
    }
  }

  predicate NoUnicast<M>(events: seq<Event<M>>) {
    forall i | 0 <= i < |events| :: !events[i].MessageClient?
  }

  lemma {:induction false} NoDeadUnicasts<M>(events: seq<Event<M>>, c: Connection)
    requires NoUnicast(events)
    ensures DeadUnicasts(events, c) == 0
  {
    if |events| > 0 {
      assert !events[|events| - 1].MessageClient?;
      NoDeadUnicasts(Init(events), c);
    }
  }

  /** In a run of accepts and broadcasts, every approved connection is either in the table and never notified, or out of
      the table and notified exactly once; nobody else is ever notified. */
  lemma {:induction false} BroadcastRunsPartition<M>(events: seq<Event<M>>, c: Connection)
    requires Run(events).Some? && NoUnicast(events)
    ensures var s := Run(events).value;
            && TimesNotified(s, c) <= 1
            && (IsApproved(s.approved, c) <==> (Some(c) in s.table || TimesNotified(s, c) == 1))
            && !(Some(c) in s.table && TimesNotified(s, c) == 1)
  {
    NotificationAccount(events, c);
    NoDeadUnicasts(events, c);
    RunKeepsInv(events);
    var s := Run(events).value;
    if i :| 0 <= i < |s.table| && s.table[i] == Some(c) {
      assert IsApproved(s.approved, s.table[i].value);
    }
  }

  /** `MessageClient` never removes anybody: in every reachable state it leaves the table as it is, also when the client
      is disconnected, in which case it only notifies. */
  lemma {:induction false} MessageClientRemovesNobody<M>(events: seq<Event<M>>, client: Slot, msg: M, connected: bool)
    requires Run(events).Some?
    ensures var s := Run(events).value;
            Handle(s, MessageClient(client, msg, connected)) ==
            Some(s.(effects := s.effects + [if client.Some? && connected then Sent(client.value, msg)
                                            else Disconnected(client)]))
  {
    RunKeepsInv(events);
    NoNullsToRemove(Run(events).value);
  }

  lemma {:induction false} BroadcastRemoves<M>(s: Server<M>, up: nat -> bool, i: nat)
    requires TableInv(s) && i < |s.table|
    ensures s.table[i] !in Survivors(s.table, up) <==> !Usable(s.table, up, i)
  {
    var slot, kept, lost := s.table[i], Survivors(s.table, up), Lost(s.table, up);
    UsableSurvives(s.table, up, i);
    SplitsTable(s.table, up);
    DistinctSlots(s.table, s.made, slot);
    assert multiset(s.table)[slot] == multiset(kept)[slot] + multiset(lost)[slot];
  }

  /** So an entry leaves the table in one way only: a broadcast visits it and finds it disconnected. */
  lemma {:induction false} OnlyBroadcastRemoves<M>(events: seq<Event<M>>, e: Event<M>, i: nat)
    requires Run(events).Some? && Handle(Run(events).value, e).Some? && i < |Run(events).value.table|
    ensures var s := Run(events).value;
            s.table[i] !in Handle(s, e).value.table <==> e.MessageAllClients? && !Usable(s.table, e.up, i)
  {
    var s := Run(events).value;
    RunKeepsInv(events);
    if e.MessageAllClients? {
      BroadcastRemoves(s, e.up, i);
    } else if e.MessageClient? {
      NoNullsToRemove(s);
    } else if e.AcceptHandler? && e.verdict.Approved? {
      assert Handle(s, e).value.table[i] == s.table[i];
    }
  }

  /** And a client that `MessageClient` reported gone is reported gone again by the broadcast that removes it. */
  lemma {:induction false} ReportedTwice<M>(events: seq<Event<M>>, c: Connection, msg: M, up: nat -> bool)
    requires Run(events).Some? && Some(c) in Run(events).value.table
    requires var t := Run(events).value.table; forall i | 0 <= i < |t| && t[i] == Some(c) :: !up(i)
    ensures var twice := events + [MessageClient(Some(c), msg, false), MessageAllClients(msg, None, up)];
            Run(twice).Some? && TimesNotified(Run(twice).value, c) >= 2
  {
    var s := Run(events).value;
    var once := events + [MessageClient(Some(c), msg, false)];
    var twice := events + [MessageClient(Some(c), msg, false), MessageAllClients(msg, None, up)];
    assert Init(once) == events && Init(twice) == once;
    MessageClientRemovesNobody(events, Some(c), msg, false);
    var i :| 0 <= i < |s.table| && s.table[i] == Some(c);
    OnlyBroadcastRemoves(once, MessageAllClients(msg, None, up), i);
    RunKeepsInv(events);
    assert IsApproved(s.approved, s.table[i].value);
    NotificationAccount(twice, c);
  }

  // ---------------------------------------------------------------- what the connections answer

  // One call of IsConnected.
  datatype Answer = Answer(conn: Connection, up: bool)

  function TableAnswers(table: seq<Slot>, up: nat -> bool): seq<Answer> {
    if |table| == 0 then []
    else TableAnswers(Init(table), up) + if Last(table).Some? then [Answer(Last(table).value, up(|table| - 1))] else []
  }

  function Asked<M>(s: Server<M>, e: Event<M>): seq<Answer> {
    match e
    case MessageClient(client, _, connected) => if client.Some? then [Answer(client.value, connected)] else []
    case MessageAllClients(_, _, up) => TableAnswers(s.table, up)
    case _ => []
  }

  // All answers of a run, in order.
  function Answers<M>(events: seq<Event<M>>): seq<Answer>
    requires Run(events).Some?
  {
    if |events| == 0 then [] else Answers(Init(events)) + Asked(Run(Init(events)).value, Last(events))
  }

  // Sockets that are closed stay closed: a connection that has answered no never answers yes later.
  ghost predicate StayClosed(log: seq<Answer>) {
    forall i, j | 0 <= i < j < |log| && log[i].conn == log[j].conn :: log[j].up ==> log[i].up
  }

  lemma {:induction false} StayClosedConcat(a: seq<Answer>, b: seq<Answer>)
    ensures StayClosed(a + b) <==>
            StayClosed(a) && StayClosed(b) && forall y | y in b && y.up :: Answer(y.conn, false) !in a
  {
    var ab := a + b;
    if StayClosed(ab) {
      assert forall i | 0 <= i < |a| :: ab[i] == a[i];
      assert forall j | 0 <= j < |b| :: ab[|a| + j] == b[j];
    }
    if StayClosed(a) && StayClosed(b) && forall y | y in b && y.up :: Answer(y.conn, false) !in a {
      forall i, j | 0 <= i < j < |ab| && ab[i].conn == ab[j].conn && ab[j].up
        ensures ab[i].up
      {
        if i < |a| <= j {
          assert ab[j] in b && ab[i] in a;
        }
      }
    }
  }

  // The outgoing calls that an event adds.
  function Added<M>(s: Server<M>, e: Event<M>): seq<Effect<M>> {
    match e
    case MessageClient(client, msg, connected) =>
      [if client.Some? && connected then Sent(client.value, msg) else Disconnected(client)]
    case MessageAllClients(msg, ignore, up) => Visits(s.table, up, ignore, msg)
    case _ => []
  }

  lemma {:induction false} AddedEffects<M>(s: Server<M>, e: Event<M>)
    requires Handle(s, e).Some?
    ensures Handle(s, e).value.effects == s.effects + Added(s, e)
  {
  }

  // A visit is a notification if the answer was no, and at most a message if it was yes.
  lemma {:induction false} VisitsFollowAnswers<M>(table: seq<Slot>, up: nat -> bool, ignore: Slot, msg: M,
                                                  c: Connection)
    ensures Disconnected(Some(c)) in Visits(table, up, ignore, msg) <==> Answer(c, false) in TableAnswers(table, up)
    ensures forall e | e in Visits(table, up, ignore, msg) && e.Sent? ::
              Answer(e.conn, true) in TableAnswers(table, up)
  {
    if |table| > 0 {
      VisitsFollowAnswers(Init(table), up, ignore, msg, c);
    }
  }

  lemma {:induction false} AddedFollowAnswers<M>(s: Server<M>, e: Event<M>, c: Connection)
    ensures Disconnected(Some(c)) in Added(s, e) <==> Answer(c, false) in Asked(s, e)
    ensures forall x | x in Added(s, e) && x.Sent? :: Answer(x.conn, true) in Asked(s, e)
  {
    if e.MessageAllClients? {
      VisitsFollowAnswers(s.table, e.up, e.ignore, e.msg, c);
    }
  }

  /** OnClientDisconnect has been called for a connection exactly if the connection has answered no. */
  lemma {:induction false} NotifiedIffDown<M>(events: seq<Event<M>>, c: Connection)
    requires Run(events).Some?
    ensures Disconnected(Some(c)) in Run(events).value.effects <==> Answer(c, false) in Answers(events)
  {
    if |events| > 0 {
      var s := Run(Init(events)).value;
      NotifiedIffDown(Init(events), c);
      AddedEffects(s, Last(events));
      AddedFollowAnswers(s, Last(events), c);
    }
  }

  // ---------------------------------------------------------------- nothing is sent after the notification

  ghost predicate Quiet<M>(effects: seq<Effect<M>>) {
    forall i, j | 0 <= i < j < |effects| && effects[j].Sent? :: effects[i] != Disconnected(Some(effects[j].conn))
  }

  lemma {:induction false} VisitsStayInTable<M>(table: seq<Slot>, up: nat -> bool, ignore: Slot, msg: M)
    ensures forall e | e in Visits(table, up, ignore, msg) :: (if e.Sent? then Some(e.conn) else e.client) in table
  {
    if |table| > 0 {
      VisitsStayInTable(Init(table), up, ignore, msg);
    }
  }

  lemma {:induction false} VisitsQuiet<M>(table: seq<Slot>, up: nat -> bool, ignore: Slot, msg: M, bound: nat)
    requires Increasing(table, bound)
    ensures Quiet(Visits(table, up, ignore, msg))
  {
    if |table| > 0 {
      var before, all := Visits(Init(table), up, ignore, msg), Visits(table, up, ignore, msg);
      VisitsQuiet(Init(table), up, ignore, msg, bound);
      VisitsStayInTable(Init(table), up, ignore, msg);
      assert Last(table) !in Init(table);
      forall i, j | 0 <= i < j < |all| && all[j].Sent?
        ensures all[i] != Disconnected(Some(all[j].conn))
      {
        assert all[i] in before && (j < |before| ==> all[j] in before);
      }
    }
  }

  lemma {:induction false} QuietConcat<M>(a: seq<Effect<M>>, b: seq<Effect<M>>)
    requires Quiet(a) && Quiet(b)
    requires forall e | e in b && e.Sent? :: Disconnected(Some(e.conn)) !in a
    ensures Quiet(a + b)
  {
    forall i, j | 0 <= i < j < |a + b| && (a + b)[j].Sent?
      ensures (a + b)[i] != Disconnected(Some((a + b)[j].conn))
    {
      if j >= |a| {
        assert (a + b)[j] in b;
      }
    }
  }

  lemma {:induction false} AddedQuiet<M>(s: Server<M>, e: Event<M>)
    requires TableInv(s)
    ensures Quiet(Added(s, e))
  {
    if e.MessageAllClients? {
      VisitsQuiet(s.table, e.up, e.ignore, e.msg, s.made);
    }
  }

  /** If no connection that has answered no to IsConnected ever answers yes later, then no connection is sent a message
      after OnClientDisconnect was called for it, in any run. */
  lemma {:induction false} NothingSentAfterNotice<M>(events: seq<Event<M>>)
    requires Run(events).Some? && StayClosed(Answers(events))
    ensures Quiet(Run(events).value.effects)
  {
    if |events| > 0 {
      var s, e := Run(Init(events)).value, Last(events);
      StayClosedConcat(Answers(Init(events)), Asked(s, e));
      NothingSentAfterNotice(Init(events));
      RunKeepsInv(Init(events));
      AddedEffects(s, e);
      AddedQuiet(s, e);
      forall x | x in Added(s, e) && x.Sent?
        ensures Disconnected(Some(x.conn)) !in s.effects
      {
        AddedFollowAnswers(s, e, x.conn);
        NotifiedIffDown(Init(events), x.conn);
      }
      QuietConcat(s.effects, Added(s, e));
    }
  }

  // Each connection is asked once in a broadcast.
  lemma {:induction false} TableAnswersOnce(table: seq<Slot>, up: nat -> bool, bound: nat)
    requires Increasing(table, bound)
    ensures forall i | 0 <= i < |TableAnswers(table, up)| :: Some(TableAnswers(table, up)[i].conn) in table
    ensures StayClosed(TableAnswers(table, up))
  {
    if |table| > 0 {
      TableAnswersOnce(Init(table), up, bound);
      assert Last(table) !in Init(table);
    }
  }

  lemma {:induction false} NoticeCounts<M>(effects: seq<Effect<M>>, slot: Slot)
    ensures Disconnected(slot) in effects <==> multiset(Notices(effects))[slot] > 0
  {
    if |effects| > 0 {
      NoticeCounts(Init(effects), slot);
      assert effects == Init(effects) + [Last(effects)];
    }
  }

  /** In runs of accepts and broadcasts nobody who has answered no is ever asked again, whatever the answers are. */
  lemma {:induction false} BroadcastsAskNobodyGone<M>(events: seq<Event<M>>)
    requires Run(events).Some? && NoUnicast(events)
    ensures StayClosed(Answers(events))
  {
    if |events| > 0 {
      var before, s, e := Init(events), Run(Init(events)).value, Last(events);
      assert !events[|events| - 1].MessageClient?;
      BroadcastsAskNobodyGone(before);
      RunKeepsInv(before);
      if e.MessageAllClients? {
        TableAnswersOnce(s.table, e.up, s.made);
      }
      forall y | y in Asked(s, e)
        ensures Answer(y.conn, false) !in Answers(before)
      {
        NotifiedIffDown(before, y.conn);
        NoticeCounts(s.effects, Some(y.conn));
        BroadcastRunsPartition(before, y.conn);
      }
      StayClosedConcat(Answers(before), Asked(s, e));
    }
  }

  /** So these runs send nothing to a connection after OnClientDisconnect was called for it, unconditionally. */
  lemma {:induction false} BroadcastsNeverSendAfterNotice<M>(events: seq<Event<M>>)
    requires Run(events).Some? && NoUnicast(events)
    ensures Quiet(Run(events).value.effects)
  {
    BroadcastsAskNobodyGone(events);
    NothingSentAfterNotice(events);
  }

  /** With MessageClient the condition on the answers is needed: in any run, a client in the table that answers no and
      then yes gets a message after the notification. */
  lemma {:induction false} ReopenedIsSentTo<M>(events: seq<Event<M>>, c: Connection, msg: M)
    requires Run(events).Some? && Some(c) in Run(events).value.table
    ensures var longer := events + [MessageClient(Some(c), msg, false), MessageClient(Some(c), msg, true)];
            Run(longer).Some? && !StayClosed(Answers(longer)) && !Quiet(Run(longer).value.effects)
  {
    var down, up := MessageClient(Some(c), msg, false), MessageClient(Some(c), msg, true);
    var first, longer := events + [down], events + [down, up];
    assert Init(first) == events && Last(first) == down && Init(longer) == first && Last(longer) == up;
    MessageClientRemovesNobody(events, Some(c), msg, false);
    assert Run(first) == Handle(Run(events).value, down);
    MessageClientRemovesNobody(first, Some(c), msg, true);
    assert Run(longer) == Handle(Run(first).value, up);
    var n, effects := |Run(events).value.effects|, Run(longer).value.effects;
    assert effects == Run(events).value.effects + [Disconnected(Some(c)), Sent(c, msg)];
    assert effects[n] == Disconnected(Some(effects[n + 1].conn));
    var k, log := |Answers(events)|, Answers(longer);
    assert Answers(first) == Answers(events) + [Answer(c, false)];
    assert log == Answers(events) + [Answer(c, false), Answer(c, true)];
    assert log[k].conn == log[k + 1].conn && log[k + 1].up && !log[k].up;
  }
}
