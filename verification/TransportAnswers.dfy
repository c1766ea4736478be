/**
 When the transport layer answers, reports, polls and changes state: each law goes from what is seen on the link, in
 the layer above or in a connection back to the step that causes it, in both directions. Tags and messages are those
 of Annex A.4.1 of EN 50221, byte by byte. lib/libdvben50221/en50221_transport.c.
 */
module TransportAnswers {
  import opened Bytes
  import opened Framing
  import opened Transport
  import opened TransportRuns
  import opened Wrappers

  /** The step is a TPDU with this tag on connection `j` of an open slot. */
  predicate Tells(s: Slot, step: Step, j: nat, tag: int) {
    s.open && OnConn(step, j) && step.t.tag == tag
  }

  predicate CanWrite(c: Conn) {
    c.state in {InCreation, Active, ActiveDeleteQueued}
  }

  /** The step is a visit of the poll loop to connection `j` of an open slot. */
  predicate Visits(s: Slot, step: Step, j: nat) {
    s.open && step.PollVisit? && step.k == j
  }

  predicate FirstIdle(s: Slot, n: nat) {
    1 <= n < |s.conns| && s.conns[n].state == Idle && forall i :: 1 <= i < n ==> s.conns[i].state != Idle
  }

  predicate NoneIdle(s: Slot) {
    forall i :: 1 <= i < |s.conns| ==> s.conns[i].state != Idle
  }

  lemma FreeIsFirst(s: Slot)
    ensures match FreeTc(s.conns, 1)
      case None => NoneIdle(s) && forall n :: !FirstIdle(s, n)
      case Some(n) => FirstIdle(s, n) && !NoneIdle(s) && forall m :: FirstIdle(s, m) ==> m == n
  {
  }

  // ----- the events of a step

  predicate Requests(s: Slot, step: Step) {
    s.open && step.Incoming? && step.t.connection < |s.conns| && step.t.tag == 0x86
  }

  /** What the lemmas above say of a list of events. */
  predicate Caused(s: Slot, step: Step, e: seq<Event>)
    requires |s.conns| < 256
  {
    if !step.Incoming? then
      if step.HostDestroySlot? then e == [Notify(SlotClose, 0, [])]
      else if !step.PollVisit? || !s.open || step.k >= |s.conns| || s.conns[step.k].waiting then e == []
      else if CanWrite(s.conns[step.k]) && s.conns[step.k].queue != [] then
        e == [QueueWrite(step.k, s.conns[step.k].queue[0], step.written)]
      else if s.conns[step.k].state == Active && step.pollDue then
        e == [PollWrite(step.k, [0xa0, 1, step.k], step.written)]
      else e == []
    else if !s.open || step.t.connection >= |s.conns| then e == []
    else
    var (k, c, t) := (step.t.connection, s.conns[step.t.connection], step.t);
    if t.tag == 0x83 && c.state == InCreation then e == [Notify(ConnectionOpen, k, [])]
    else if t.tag == 0x84 && c.state in {Active, InDeletion} then
      e == [Reply(k, [0x85, 1, k], step.first)] + if step.first then [Notify(ConnectionClose, k, [])] else []
    else if t.tag == 0xa0 && c.state == Active && t.data != [] then e == [Notify(Data, k, Chained(c) + t.data)]
    else if t.tag == 0x80 && c.state == Active && |t.data| == 1 && t.data[0] >= 128 then
      e == [Reply(k, [0x81, 1, k], step.first)]
    else if t.tag == 0x86 then
      match FreeTc(s.conns, 1)
      case None => e == [Reply(k, [0x77, 2, k, 1], step.first)]
      case Some(n) =>
        e == [Reply(k, [0x87, 2, k, n], step.first)]
             + (if step.first then [Reply(n, [0x82, 1, n], step.second)] else [])
             + (if step.first && step.second then [Notify(CamConnectionOpen, n, [])] else [])
    else e == []
  }

  lemma EventsAre(s: Slot, step: Step)
    requires |s.conns| < 256
    ensures Caused(s, step, Take(s, step).events)
  {
    if !step.Incoming? {
      HostEvents(s, step);
    } else if s.open && step.t.connection < |s.conns| {
      hide RequestTc, Caused;
      if step.t.tag == 0x86 {
        RequestEvents(s, step);
      } else {
        TpduEvents(s, step);
      }
    }
  }

  lemma TpduEvents(s: Slot, step: Step)
    requires |s.conns| < 256 && s.open && step.Incoming? && step.t.connection < |s.conns| && step.t.tag != 0x86
    ensures Caused(s, step, Take(s, step).events)
  {
    hide RequestTc;
  }

  lemma RequestEvents(s: Slot, step: Step)
    requires |s.conns| < 256 && s.open && step.Incoming? && step.t.connection < |s.conns| && step.t.tag == 0x86
    ensures Caused(s, step, Take(s, step).events)
  {
  }

  lemma HostEvents(s: Slot, step: Step)
    requires |s.conns| < 256 && !step.Incoming?
    ensures Caused(s, step, Take(s, step).events)
  {
  }

  // ----- answers

  /** The step writes this to connection `j` as an answer, and `ok` says whether the link took it. */
  predicate Answers(s: Slot, step: Step, j: nat, data: seq<byte>, ok: bool)
    requires |s.conns| < 256
  {
    Reply(j, data, ok) in Take(s, step).events
  }

  /** The module's data is fetched if and only if its status, one byte on an active connection, has the top bit set. */
  lemma FetchedIff(s: Slot, step: Step, j: nat, ok: bool)
    requires j < |s.conns| < 256
    ensures Answers(s, step, j, [0x81, 1, j], ok) <==>
      Tells(s, step, j, 0x80) && s.conns[j].state == Active && |step.t.data| == 1 && step.t.data[0] >= 128 && step.first == ok
  {
    EventsAre(s, step);
    FreeIsFirst(s);
    hide Take, NoneIdle, FirstIdle;
  }

  /** A deletion by the module is acknowledged if and only if the connection is active or in deletion itself. */
  lemma DeletionAnsweredIff(s: Slot, step: Step, j: nat, ok: bool)
    requires j < |s.conns| < 256
    ensures Answers(s, step, j, [0x85, 1, j], ok) <==>
      Tells(s, step, j, 0x84) && s.conns[j].state in {Active, InDeletion} && step.first == ok
  {
    EventsAre(s, step);
    FreeIsFirst(s);
    hide Take, NoneIdle, FirstIdle;
  }

  /** A request for a connection is refused if and only if none is idle but perhaps 0. */
  lemma RequestRefusedIff(s: Slot, step: Step, j: nat, ok: bool)
    requires j < |s.conns| < 256
    ensures Answers(s, step, j, [0x77, 2, j, 1], ok) <==> Tells(s, step, j, 0x86) && NoneIdle(s) && step.first == ok
  {
    EventsAre(s, step);
    FreeIsFirst(s);
    hide Take, NoneIdle, FirstIdle;
  }

  /** A request is met with an offer of the first idle connection, if there is one but 0. */
  lemma RequestOfferedIff(s: Slot, step: Step, j: nat, n: nat, ok: bool)
    requires j < |s.conns| < 256 && n < |s.conns|
    ensures Answers(s, step, j, [0x87, 2, j, n], ok) <==> Tells(s, step, j, 0x86) && FirstIdle(s, n) && step.first == ok
  {
    EventsAre(s, step);
    FreeIsFirst(s);
    hide Take, NoneIdle, FirstIdle;
  }

  /** The offered connection is opened with a T_CREATE_T_C of its own, if the link took the offer. */
  lemma OfferOpenedIff(s: Slot, step: Step, n: nat, ok: bool)
    requires n < |s.conns| < 256
    ensures Answers(s, step, n, [0x82, 1, n], ok) <==>
      Requests(s, step) && FirstIdle(s, n) && step.first && step.second == ok
  {
    EventsAre(s, step);
    FreeIsFirst(s);
    hide Take, NoneIdle, FirstIdle;
  }

  /** There are no other answers. */
  lemma AnswersKnown(s: Slot, step: Step, e: Event)
    requires |s.conns| < 256 && e.Reply? && e in Take(s, step).events
    ensures |e.data| >= 3 && e.data[0] in {0x81, 0x82, 0x85, 0x77, 0x87}
    ensures e.data[0] in {0x81, 0x82, 0x85} ==> e.data == [e.data[0], 1, e.conn]
    ensures e.data[0] == 0x77 ==> e.data == [0x77, 2, e.conn, 1]
    ensures e.data[0] == 0x87 ==> |e.data| == 4 && e.data[..3] == [0x87, 2, e.conn]
  {
    EventsAre(s, step);
    FreeIsFirst(s);
    hide Take, NoneIdle, FirstIdle;
  }

  // ----- reports to the layer above

  predicate Reports(s: Slot, step: Step, reason: Reason, j: nat, data: seq<byte>)
    requires |s.conns| < 256
  {
    Notify(reason, j, data) in Take(s, step).events
  }

  /**
   Data goes up if and only if a non-empty T_DATA_LAST ends a packet of an active connection: the chain and the last
   bytes.
   */
  lemma DataReportedIff(s: Slot, step: Step, j: nat, data: seq<byte>)
    requires j < |s.conns| < 256
    ensures Reports(s, step, Data, j, data) <==>
      Tells(s, step, j, 0xa0) && s.conns[j].state == Active && step.t.data != [] && data == Chained(s.conns[j]) + step.t.data
  {
    EventsAre(s, step);
    FreeIsFirst(s);
    hide Take, NoneIdle, FirstIdle;
  }

  /** A connection of the host is reported open when the module confirms it. */
  lemma OpenReportedIff(s: Slot, step: Step, j: nat)
    requires j < |s.conns| < 256
    ensures Reports(s, step, ConnectionOpen, j, []) <==> Tells(s, step, j, 0x83) && s.conns[j].state == InCreation
  {
    EventsAre(s, step);
    FreeIsFirst(s);
    hide Take, NoneIdle, FirstIdle;
  }

  /** A connection that the module asked for is reported when both answers to the request have been written. */
  lemma OfferReportedIff(s: Slot, step: Step, j: nat)
    requires j < |s.conns| < 256
    ensures Reports(s, step, CamConnectionOpen, j, []) <==> Requests(s, step) && FirstIdle(s, j) && step.first && step.second
  {
    EventsAre(s, step);
    FreeIsFirst(s);
    hide Take, NoneIdle, FirstIdle;
  }

  /** A connection is reported closed when the module deletes it and the answer has been written. */
  lemma CloseReportedIff(s: Slot, step: Step, j: nat)
    requires j < |s.conns| < 256
    ensures Reports(s, step, ConnectionClose, j, []) <==>
      Tells(s, step, j, 0x84) && s.conns[j].state in {Active, InDeletion} && step.first
  {
    EventsAre(s, step);
    FreeIsFirst(s);
    hide Take, NoneIdle, FirstIdle;
  }

  /** The end of a slot is reported if and only if the host destroys it. */
  lemma SlotEndReportedIff(s: Slot, step: Step)
    requires |s.conns| < 256
    ensures Reports(s, step, SlotClose, 0, []) <==> step.HostDestroySlot?
  {
    EventsAre(s, step);
    FreeIsFirst(s);
    hide Take, NoneIdle, FirstIdle;
  }

  /** There are no other reports, and only one in a step, its last event. */
  lemma ReportsKnown(s: Slot, step: Step, i: nat)
    requires |s.conns| < 256 && i < |Take(s, step).events| && Take(s, step).events[i].Notify?
    ensures i == |Take(s, step).events| - 1
    ensures var e := Take(s, step).events[i];
      (e.reason != Data ==> e.data == []) && (e.reason == SlotClose ==> e.conn == 0) && (e.reason != SlotClose ==> e.conn < |s.conns|)
  {
    EventsAre(s, step);
    FreeIsFirst(s);
    hide Take, NoneIdle, FirstIdle;
  }

  // ----- writes of the poll loop

  /**
   The poll loop polls for data if and only if the connection is active, waits for nothing, has nothing to send, and is
   due.
   */
  lemma PolledIff(s: Slot, step: Step, j: nat, data: seq<byte>, ok: bool)
    requires j < |s.conns| < 256
    ensures PollWrite(j, data, ok) in Take(s, step).events <==>
      Visits(s, step, j) && s.conns[j].state == Active && !s.conns[j].waiting && s.conns[j].queue == [] && step.pollDue
      && data == [0xa0, 1, j] && step.written == ok
  {
    EventsAre(s, step);
    FreeIsFirst(s);
    hide Take, NoneIdle, FirstIdle;
  }

  /** It sends the head of a queue if and only if the connection may write and waits for nothing. */
  lemma HeadSentIff(s: Slot, step: Step, j: nat, data: seq<byte>, ok: bool)
    requires j < |s.conns| < 256
    ensures QueueWrite(j, data, ok) in Take(s, step).events <==>
      Visits(s, step, j) && CanWrite(s.conns[j]) && !s.conns[j].waiting && s.conns[j].queue != []
      && data == s.conns[j].queue[0] && step.written == ok
  {
    EventsAre(s, step);
    FreeIsFirst(s);
    hide Take, NoneIdle, FirstIdle;
  }

  // ----- states

  function Next(s: Slot, step: Step, j: nat): Conn
    requires j < |s.conns| < 256
  {
    Take(s, step).slot.conns[j]
  }

  /** A visit hands the head of the queue to the link, and the link takes it. */
  predicate SendsHead(s: Slot, step: Step, j: nat)
    requires j < |s.conns|
  {
    Visits(s, step, j) && CanWrite(s.conns[j]) && !s.conns[j].waiting && s.conns[j].queue != [] && step.written
  }

  predicate SendsDeletion(s: Slot, step: Step, j: nat)
    requires j < |s.conns|
  {
    SendsHead(s, step, j) && s.conns[j].queue[0] != [] && s.conns[j].queue[0][0] == 0x84
  }

  /** A response is late: one awaited before the visit, or one to the message that the visit sends. */
  predicate Late(s: Slot, step: Step, j: nat)
    requires j < |s.conns|
  {
    Visits(s, step, j) && step.timedOut &&
    if s.conns[j].waiting then s.conns[j].state in {InCreation, InDeletion}
    else SendsHead(s, step, j) && (s.conns[j].state == InCreation || SendsDeletion(s, step, j))
  }

  /** The ways into each state. */
  ghost predicate Turns(s: Slot, step: Step, j: nat, c': Conn)
    requires j < |s.conns|
  {
    var c := s.conns[j];
    && (c.state != Active && c'.state == Active <==> Tells(s, step, j, 0x83) && c.state == InCreation)
    && (c.state != InCreation && c'.state == InCreation <==>
          FirstIdle(s, j) && s.open && (step.HostNewTc? || (Requests(s, step) && step.first && step.second)))
    && (c.state != ActiveDeleteQueued && c'.state == ActiveDeleteQueued <==>
          s.open && step == HostDelTc(j) && c.state in {Active, InDeletion})
    && (c.state != InDeletion && c'.state == InDeletion <==> SendsDeletion(s, step, j) && !step.timedOut)
    && (c.state != Idle ==>
         (c'.state == Idle <==>
            || step.HostDestroySlot?
            || (Tells(s, step, j, 0x84) && c.state in {Active, InDeletion})
            || (Tells(s, step, j, 0x85) && c.state == InDeletion)
            || Late(s, step, j)))
  }

  lemma TpduTurns(s: Slot, step: Step, j: nat)
    requires j < |s.conns| < 256 && step.Incoming? && step.t.tag != T_REQUEST_T_C
    ensures Turns(s, step, j, Next(s, step, j))
  {
    hide RequestTc, FirstIdle;
  }

  lemma RequestTurns(s: Slot, step: Step, j: nat)
    requires j < |s.conns| < 256 && step.Incoming? && step.t.tag == T_REQUEST_T_C
    ensures Turns(s, step, j, Next(s, step, j))
  {
    FreeIsFirst(s);
    hide FirstIdle, FreeTc;
  }

  /** What a visit makes of its connection. */
  lemma VisitConn(s: Slot, step: Step, j: nat)
    requires j < |s.conns| < 256 && step.PollVisit? && s.open && step.k < |s.conns|
    ensures step.k != j ==> Next(s, step, j) == s.conns[j]
    ensures step.k == j ==>
      var (c, c') := (s.conns[j], Next(s, step, j));
      if c.waiting then c' == if step.timedOut && c.state in {InCreation, InDeletion} then c.(state := Idle) else c
      else if CanWrite(c) && c.queue != [] then
        if !step.written then c' == c.(queue := c.queue[1..])
        else if c.queue[0] != [] && c.queue[0][0] == 0x84 then
          c' == Conn(if step.timedOut then Idle else InDeletion, true, None, c.queue[1..])
        else
          c' == Conn(if step.timedOut && c.state == InCreation then Idle else c.state, true, c.chain, c.queue[1..])
      else c' == if c.state == Active && step.pollDue then c.(waiting := true) else c
  {
  }

  lemma VisitTurns(s: Slot, step: Step, j: nat)
    requires j < |s.conns| < 256 && step.PollVisit?
    ensures Turns(s, step, j, Next(s, step, j))
  {
    hide FirstIdle, Visit;
    if s.open && step.k < |s.conns| {
      VisitConn(s, step, j);
      hide Next;
    }
  }

  lemma HostTurns(s: Slot, step: Step, j: nat)
    requires j < |s.conns| < 256 && !step.Incoming? && !step.PollVisit?
    ensures Turns(s, step, j, Next(s, step, j))
  {
    FreeIsFirst(s);
    hide FirstIdle, FreeTc, Frame, HandleTpdu, Visit;
  }

  /**
   A connection changes its state for these reasons and no others: activation by the module's reply; creation by the
   host or by the module's request, of the first idle connection; deletion by the host, sent by the poll loop, by the
   module, or confirmed by it; a late response; and the end of the slot.
   */
  lemma TurnsIff(s: Slot, step: Step, j: nat)
    requires j < |s.conns| < 256
    ensures Turns(s, step, j, Next(s, step, j))
  {
    hide Turns;
    if step.PollVisit? {
      VisitTurns(s, step, j);
    } else if !step.Incoming? {
      HostTurns(s, step, j);
    } else if step.t.tag == T_REQUEST_T_C {
      RequestTurns(s, step, j);
    } else {
      TpduTurns(s, step, j);
    }
  }

  // ----- waiting for the module

  /** What starts and what ends the wait of a connection. */
  ghost predicate Waits(s: Slot, step: Step, j: nat, c': Conn)
    requires j < |s.conns|
  {
    var c := s.conns[j];
    && (!c.waiting ==>
          (c'.waiting <==>
             || SendsHead(s, step, j)
             || (Visits(s, step, j) && c.state == Active && c.queue == [] && step.pollDue)
             || (Tells(s, step, j, 0x80) && c.state == Active && |step.t.data| == 1 && step.t.data[0] >= 128 && step.first)
             || (Requests(s, step) && FirstIdle(s, j) && step.first && step.second)))
    && (c.waiting ==>
          (!c'.waiting <==>
             || step.HostDestroySlot?
             || (Tells(s, step, j, 0x83) && c.state == InCreation)
             || ((Tells(s, step, j, 0xa0) || Tells(s, step, j, 0xa1)) && c.state == Active)
             || (Tells(s, step, j, 0x80) && c.state == Active && |step.t.data| == 1 && step.t.data[0] < 128)
             || (Tells(s, step, j, 0x86) && step.first && !(FirstIdle(s, j) && step.second))))
  }

  lemma TpduWaits(s: Slot, step: Step, j: nat)
    requires j < |s.conns| < 256 && step.Incoming? && step.t.tag != T_REQUEST_T_C
    ensures Waits(s, step, j, Next(s, step, j))
  {
    hide RequestTc, FirstIdle;
  }

  lemma RequestWaits(s: Slot, step: Step, j: nat)
    requires j < |s.conns| < 256 && step.Incoming? && step.t.tag == T_REQUEST_T_C
    ensures Waits(s, step, j, Next(s, step, j))
  {
    FreeIsFirst(s);
    hide FirstIdle, FreeTc;
  }

  lemma VisitWaits(s: Slot, step: Step, j: nat)
    requires j < |s.conns| < 256 && step.PollVisit?
    ensures Waits(s, step, j, Next(s, step, j))
  {
    hide FirstIdle, Visit;
    if s.open && step.k < |s.conns| {
      VisitConn(s, step, j);
      hide Next;
    }
  }

  lemma HostWaits(s: Slot, step: Step, j: nat)
    requires j < |s.conns| < 256 && !step.Incoming? && !step.PollVisit?
    ensures Waits(s, step, j, Next(s, step, j))
  {
    hide FirstIdle, FreeTc;
  }

  /**
   A connection waits from a message or a poll of the poll loop, a T_RCV, or the offer of the connection to the module,
   until the module confirms the connection, sends data, says that it has none, or asks for another connection.
   */
  lemma WaitsIff(s: Slot, step: Step, j: nat)
    requires j < |s.conns| < 256
    ensures Waits(s, step, j, Next(s, step, j))
  {
    hide Waits;
    if step.PollVisit? {
      VisitWaits(s, step, j);
    } else if !step.Incoming? {
      HostWaits(s, step, j);
    } else if step.t.tag == T_REQUEST_T_C {
      RequestWaits(s, step, j);
    } else {
      TpduWaits(s, step, j);
    }
  }

  // ----- chains and queues

  /** A chain grows by what each T_DATA_MORE carries and is gone after a T_DATA_LAST. */
  lemma ChainFollows(s: Slot, step: Step, j: nat)
    requires j < |s.conns| < 256 && s.conns[j].state == Active
    ensures Tells(s, step, j, 0xa1) ==> Next(s, step, j).chain == Some(Chained(s.conns[j]) + step.t.data)
    ensures Tells(s, step, j, 0xa0) ==> Next(s, step, j).chain == None
  {
  }

  /** What the host's calls queue, byte by byte, and nothing else is queued. */
  lemma EnqueuedIs(s: Slot, step: Step, j: nat)
    requires j < |s.conns| < 256
    ensures Enqueued(s, step, j) ==
      if s.open && step.HostSend? && step.k == j && s.conns[j].state == Active then [Frame(Tpdu(0xa0, j, step.data))]
      else if s.open && step.HostNewTc? && FirstIdle(s, j) then [[0x82, 1, j]]
      else if s.open && step == HostDelTc(j) && s.conns[j].state in {Active, InDeletion} then [[0x84, 1, j]]
      else []
  {
    FreeIsFirst(s);
    hide FirstIdle, FreeTc, HandleTpdu, Visit, Frame;
  }

  // ----- errors

  /** A TPDU that its connection cannot take, by its tag and the state of the connection. */
  predicate Refuses(c: Conn, t: Tpdu) {
    match t.tag
    case 0x80 => c.state != Active || |t.data| != 1
    case 0x83 => c.state != InCreation
    case 0x84 => c.state !in {Active, InDeletion}
    case 0x85 => c.state != InDeletion
    case 0x86 => false
    case 0xa0 => c.state != Active
    case 0xa1 => c.state != Active
    case _ => true
  }

  /** A TPDU that is refused changes nothing. */
  lemma RefusedIff(s: Slot, step: Step)
    requires |s.conns| < 256 && step.Incoming? && s.open
    ensures
      var (k, r) := (step.t.connection, Take(s, step));
      && (r.error == BadConnectionId <==> k >= |s.conns|)
      && (r.error == BadCamData <==> k < |s.conns| && Refuses(s.conns[k], step.t))
      && (r.error in {BadConnectionId, BadCamData} ==> r.slot == s && r.events == [])
  {
  }

  /** A write that the link does not take is an error, and the only other one of a TPDU. */
  lemma WriteFailsIff(s: Slot, step: Step)
    requires |s.conns| < 256 && step.Incoming?
    ensures Take(s, step).error == CaWrite <==> exists e :: e in Take(s, step).events && e.Reply? && !e.ok
    ensures Take(s, step).error in {NoError, BadConnectionId, BadCamData, CaWrite}
  {
    var events := Take(s, step).events;
    if Take(s, step).error == CaWrite {
      assert events[|events| - 1] in events;
    }
  }

  /** A visit fails when the link does not take its write, or a response to an active connection is late. */
  lemma VisitFailsIff(s: Slot, step: Step, j: nat)
    requires j < |s.conns| < 256 && Visits(s, step, j)
    ensures
      var (c', r) := (Next(s, step, j), Take(s, step));
      && (r.error == CaWrite <==> r.events != [] && !step.written)
      && (r.error == Timeout <==>
            step.timedOut && c'.waiting && c'.state in {Active, ActiveDeleteQueued} && r.error != CaWrite)
      && r.error in {NoError, CaWrite, Timeout}
  {
  }

  /** Why a call of the host fails; a call that fails changes nothing. */
  lemma CallFailsIff(s: Slot, step: Step)
    requires |s.conns| < 256 && (step.HostSend? || step.HostNewTc? || step.HostDelTc?)
    ensures
      var r := Take(s, step);
      && (r.error == BadSlotId <==> !s.open)
      && (r.error == BadConnectionId <==>
            s.open && !step.HostNewTc?
            && (step.k >= |s.conns| || (step.HostSend? && s.conns[step.k].state != Active)))
      && (r.error == BadState <==>
            s.open && step.HostDelTc? && step.k < |s.conns| && s.conns[step.k].state !in {Active, InDeletion})
      && (r.error == OutOfConnections <==> s.open && step.HostNewTc? && NoneIdle(s))
      && (r.error != NoError ==> r.slot == s && r.events == [])
      && r.error in {NoError, BadSlotId, BadConnectionId, BadState, OutOfConnections}
  {
    FreeIsFirst(s);
    hide NoneIdle, FirstIdle, FreeTc, Frame;
  }

  // ----- over runs

  /** Once the module has been asked for its data, the poll loop leaves the connection alone until the wait is over. */
  lemma FetchPaced(s: Slot, steps: seq<Step>, i: nat, m: nat, j: nat)
    requires j < |s.conns| < 256 && i < m < |steps|
    requires Answers(After(s, steps[..i]), steps[i], j, [0x81, 1, j], true)
    requires LoopWrites(Take(After(s, steps[..m]), steps[m]).events, j)
    ensures Cleared(s, steps, i + 1, m, j)
  {
    hide Take, LoopWrites, After, Cleared;
    var before := After(s, steps[..i]);
    FetchedIff(before, steps[i], j, true);
    Fetching(before, steps[i], j);
    AfterNext(s, steps, i);
    WriteArms(s, steps, m, j);
    WaitLasts(s, steps, i + 1, m, j);
  }

  lemma Fetching(s: Slot, step: Step, j: nat)
    requires j < |s.conns| < 256
    requires Tells(s, step, j, 0x80) && s.conns[j].state == Active && |step.t.data| == 1 && step.t.data[0] >= 128
    ensures Next(s, step, j) == if step.first then s.conns[j].(waiting := true) else s.conns[j]
  {
  }

  /** A module that has no data lets the host send: the next visit writes the head of the queue, or may poll. */
  lemma QuietStatusSends(s: Slot, step: Step, j: nat, clock: Clock)
    requires j < |s.conns| < 256
    requires Tells(s, step, j, 0x80) && s.conns[j].state == Active && |step.t.data| == 1 && step.t.data[0] < 128
    ensures
      var (r, visit) := (Take(s, step), PollVisit(j, clock.pollDue, clock.timedOut, clock.written));
      && r.events == [] && r.slot.conns[j] == s.conns[j].(waiting := false)
      && Take(r.slot, visit).events ==
           if s.conns[j].queue != [] then [QueueWrite(j, s.conns[j].queue[0], clock.written)]
           else if clock.pollDue then [PollWrite(j, [0xa0, 1, j], clock.written)]
           else []
  {
    var (r, visit) := (Take(s, step), PollVisit(j, clock.pollDue, clock.timedOut, clock.written));
    assert r.slot == Put(s, j, s.conns[j].(waiting := false));
    EventsAre(r.slot, visit);
    hide Take, Visit;
  }
}
