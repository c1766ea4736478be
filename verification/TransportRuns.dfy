/**
 What holds in every run of a transport slot: chained packets are reassembled, queued messages are handed
 over in order and one at a time, and connections move only between the states they should.
 */
module TransportRuns {
  import opened Bytes
  import opened Framing
  import opened Transport
  import opened Wrappers

  // ----- what one step does, seen from connection `j`

  predicate InUse(c: Conn) {
    c.state == Active || c.state == ActiveDeleteQueued
  }

  /** A chain buffer exists only while the connection is in use. */
  predicate ChainOk(c: Conn) {
    c.chain.Some? ==> InUse(c)
  }

  predicate OnConn(step: Step, j: nat) {
    step.Incoming? && step.t.connection == j
  }

  predicate CarriesData(s: Slot, step: Step, j: nat)
    requires j < |s.conns|
  {
    s.open && OnConn(step, j) && s.conns[j].state == Active && (step.t.tag == T_DATA_MORE || step.t.tag == T_DATA_LAST)
  }

  /** The data bytes the step takes in for the connection. */
  function Accepted(s: Slot, step: Step, j: nat): seq<byte>
    requires j < |s.conns|
  {
    if CarriesData(s, step, j) then step.t.data else []
  }

  /** The bytes of a chain that an empty T_DATA_LAST throws away. */
  function Lost(s: Slot, step: Step, j: nat): seq<byte>
    requires j < |s.conns|
  {
    if CarriesData(s, step, j) && step.t.tag == T_DATA_LAST && step.t.data == [] then Chained(s.conns[j]) else []
  }

  /** The bytes handed to the layer above. */
  function Delivered(events: seq<Event>, j: nat): seq<byte> {
    if events == [] then []
    else
      var e := events[0];
      (if e.Notify? && e.reason == Data && e.conn == j then e.data else []) + Delivered(events[1..], j)
  }

  /** The message the step appends to the send queue, if any. */
  function Enqueued(s: Slot, step: Step, j: nat): seq<seq<byte>>
    requires j < |s.conns| < 256
  {
    if Take(s, step).error != NoError then []
    else
      match step
      case HostSend(k, data) => if k == j then [Frame(Tpdu(T_DATA_LAST, k, data))] else []
      case HostNewTc => if FreeTc(s.conns, 1) == Some(j) then [[T_CREATE_T_C, 1, j]] else []
      case HostDelTc(k) => if k == j then [[T_DELETE_T_C, 1, k]] else []
      case _ => []
  }

  /** The queued messages handed to the link, whether or not the link took them. */
  function Sent(events: seq<Event>, j: nat): seq<seq<byte>> {
    if events == [] then []
    else
      var e := events[0];
      (if e.QueueWrite? && e.conn == j then [e.data] else []) + Sent(events[1..], j)
  }

  /** A write of the poll loop. */
  predicate LoopWrite(e: Event, j: nat) {
    (e.QueueWrite? || e.PollWrite?) && e.conn == j
  }

  predicate LoopWrites(events: seq<Event>, j: nat) {
    exists i :: 0 <= i < |events| && LoopWrite(events[i], j)
  }

  /** The poll loop marks the connection as waiting before a poll is written, but only after a message has been. */
  predicate Arming(e: Event, j: nat) {
    LoopWrite(e, j) && (e.PollWrite? || e.ok)
  }

  predicate Arms(events: seq<Event>, j: nat) {
    exists i :: 0 <= i < |events| && Arming(events[i], j)
  }

  /** What a step means for the chain of one connection. */
  predicate ConnFares(c: Conn, c': Conn, accepted: seq<byte>, delivered: seq<byte>, lost: seq<byte>) {
    && (ChainOk(c) ==> ChainOk(c'))
    && (InUse(c) && InUse(c') ==> Chained(c) + accepted == delivered + lost + Chained(c'))
    && (!InUse(c) && InUse(c') && ChainOk(c) ==> delivered == [] && Chained(c') == [])
  }

  /** How one connection fares in a step: its chain, its queue and its pacing. */
  predicate Fares(s: Slot, step: Step, r: Result, j: nat)
    requires j < |s.conns| == |r.slot.conns| < 256
  {
    var (c, c') := (s.conns[j], r.slot.conns[j]);
    && ConnFares(c, c', Accepted(s, step, j), Delivered(r.events, j), Lost(s, step, j))
    && (!step.HostDestroySlot? ==> c.queue + Enqueued(s, step, j) == Sent(r.events, j) + c'.queue)
    && (c.waiting && !c'.waiting ==> OnConn(step, j) || step.HostDestroySlot?)
    && (LoopWrites(r.events, j) ==>
          && step.PollVisit? && step.k == j && !c.waiting
          && (c'.waiting <==> Arms(r.events, j)))
  }

  // ----- events

  /** Events that neither deliver data nor come from the poll loop. */
  predicate Quiet(events: seq<Event>) {
    forall i :: 0 <= i < |events| ==> events[i].Reply? || (events[i].Notify? && events[i].reason != Data)
  }

  lemma {:induction false} QuietEvents(events: seq<Event>, j: nat)
    requires Quiet(events)
    ensures Delivered(events, j) == [] && Sent(events, j) == []
    ensures !LoopWrites(events, j)
  {
    if events != [] {
      QuietEvents(events[1..], j);
    }
  }

  lemma EventsOfOne(e: Event, j: nat)
    ensures Sent([e], j) == if e.QueueWrite? && e.conn == j then [e.data] else []
    ensures Delivered([e], j) == if e.Notify? && e.reason == Data && e.conn == j then e.data else []
    ensures LoopWrites([e], j) <==> LoopWrite(e, j)
    ensures Arms([e], j) <==> Arming(e, j)
  {
    assert [e][1..] == [];
    assert [e][0] == e;
  }

  // ----- incoming TPDUs

  /** A step that only answers and reports, and leaves queue and chain of the connection alone or drops the chain. */
  lemma QuietFares(s: Slot, step: Step, r: Result, j: nat)
    requires j < |s.conns| == |r.slot.conns| < 256
    requires Quiet(r.events) && Enqueued(s, step, j) == [] && !CarriesData(s, step, j)
    requires var (c, c') := (s.conns[j], r.slot.conns[j]);
      && c'.queue == c.queue
      && ((c'.chain == c.chain && (InUse(c) ==> InUse(c'))) || (c'.chain == None && !InUse(c')))
      && (c.waiting && !c'.waiting ==> OnConn(step, j))
    ensures Fares(s, step, r, j)
  {
    QuietEvents(r.events, j);
  }

  lemma ConnectionTpduFares(s: Slot, step: Step, j: nat)
    requires j < |s.conns| < 256 && s.open && step.Incoming? && step.t.connection < |s.conns|
    requires step.t.tag == T_C_T_C_REPLY || step.t.tag == T_DELETE_T_C || step.t.tag == T_D_T_C_REPLY
    ensures Fares(s, step, Take(s, step), j)
  {
    QuietFares(s, step, Take(s, step), j);
  }

  lemma StatusFares(s: Slot, step: Step, j: nat)
    requires j < |s.conns| < 256 && s.open && step.Incoming? && step.t.connection < |s.conns|
    requires step.t.tag == T_SB
    ensures Fares(s, step, Take(s, step), j)
  {
    QuietFares(s, step, Take(s, step), j);
  }

  lemma RequestConn(s: Slot, k: nat, first: bool, second: bool, j: nat)
    requires j < |s.conns| < 256 && k < |s.conns|
    ensures var (c, c') := (s.conns[j], RequestTc(s, k, first, second).slot.conns[j]);
      && c'.queue == c.queue && (c.waiting && !c'.waiting ==> j == k)
      && if c'.state == c.state then c'.chain == c.chain || (c.state == Idle && c'.chain == None)
         else c.state == Idle && c'.state == InCreation && c'.chain == None
    ensures Quiet(RequestTc(s, k, first, second).events)
  {
  }

  lemma RequestTpduFares(s: Slot, step: Step, j: nat)
    requires j < |s.conns| < 256 && s.open && step.Incoming? && step.t.connection < |s.conns|
    requires step.t.tag == T_REQUEST_T_C
    ensures Fares(s, step, Take(s, step), j)
  {
    hide RequestTc;
    RequestConn(s, step.t.connection, step.first, step.second, j);
    QuietFares(s, step, Take(s, step), j);
  }

  /** A step that carries data for this connection and does nothing else to it. */
  lemma DataFares(s: Slot, step: Step, r: Result, j: nat)
    requires j < |s.conns| == |r.slot.conns| < 256 && CarriesData(s, step, j) && Enqueued(s, step, j) == []
    requires Sent(r.events, j) == [] && !LoopWrites(r.events, j)
    requires var (c, c') := (s.conns[j], r.slot.conns[j]);
      && c'.queue == c.queue && c'.state == Active
      && Chained(c) + step.t.data == Delivered(r.events, j) + Lost(s, step, j) + Chained(c')
    ensures Fares(s, step, r, j)
  {
  }

  lemma DataMoreFares(s: Slot, step: Step, j: nat)
    requires j < |s.conns| < 256 && s.open && step.Incoming? && step.t.connection < |s.conns|
    requires step.t.tag == T_DATA_MORE
    ensures Fares(s, step, Take(s, step), j)
  {
    hide Fares;
    var r := Take(s, step);
    if CarriesData(s, step, j) {
      QuietEvents(r.events, j);
      assert Chained(r.slot.conns[j]) == Chained(s.conns[j]) + step.t.data;
      assert [] + [] + Chained(r.slot.conns[j]) == Chained(r.slot.conns[j]);
      DataFares(s, step, r, j);
    } else {
      QuietFares(s, step, r, j);
    }
  }

  lemma DataLastFares(s: Slot, step: Step, j: nat)
    requires j < |s.conns| < 256 && s.open && step.Incoming? && step.t.connection < |s.conns|
    requires step.t.tag == T_DATA_LAST
    ensures Fares(s, step, Take(s, step), j)
  {
    hide Fares, Enqueued;
    IncomingEnqueues(s, step, j);
    var (r, k, d) := (Take(s, step), step.t.connection, step.t.data);
    if s.conns[k].state == Active && d != [] {
      DeliveryFares(s, step, r, Notify(Data, k, Chained(s.conns[k]) + d), j);
    } else {
      QuietEvents(r.events, j);
      if CarriesData(s, step, j) {
        var p := Chained(s.conns[k]);
        assert p + [] == [] + p + [];
        DataFares(s, step, r, j);
      } else {
        QuietFares(s, step, r, j);
      }
    }
  }

  lemma IncomingEnqueues(s: Slot, step: Step, j: nat)
    requires j < |s.conns| < 256 && step.Incoming?
    ensures Enqueued(s, step, j) == []
  {
    hide HandleTpdu;
  }

  /** A delivery of data on connection `k`, which clears its chain. */
  lemma DeliveryFares(s: Slot, step: Step, r: Result, e: Event, j: nat)
    requires j < |s.conns| < 256 && s.open && step.Incoming? && step.t.connection < |s.conns|
    requires step.t.tag == T_DATA_LAST && s.conns[step.t.connection].state == Active && step.t.data != []
    requires e == Notify(Data, step.t.connection, Chained(s.conns[step.t.connection]) + step.t.data)
    requires r.slot == Put(s, step.t.connection, s.conns[step.t.connection].(waiting := false, chain := None))
    requires r.events == [e]
    ensures Fares(s, step, r, j)
  {
    hide Take, Enqueued;
    IncomingEnqueues(s, step, j);
    EventsOfOne(e, j);
    var c := s.conns[j];
    if j == step.t.connection {
      assert e.data == e.data + [] + [];
      DataFares(s, step, r, j);
    } else {
      assert [] + c.queue == c.queue == c.queue + [];
      assert Chained(c) + [] == [] + [] + Chained(c);
    }
  }

  lemma IncomingFares(s: Slot, step: Step, j: nat)
    requires j < |s.conns| < 256 && step.Incoming?
    ensures Fares(s, step, Take(s, step), j)
  {
    hide Fares;
    if !s.open || step.t.connection >= |s.conns| {
      QuietFares(s, step, Take(s, step), j);
    } else if step.t.tag == T_C_T_C_REPLY || step.t.tag == T_DELETE_T_C || step.t.tag == T_D_T_C_REPLY {
      ConnectionTpduFares(s, step, j);
    } else if step.t.tag == T_REQUEST_T_C {
      RequestTpduFares(s, step, j);
    } else if step.t.tag == T_DATA_MORE {
      DataMoreFares(s, step, j);
    } else if step.t.tag == T_DATA_LAST {
      DataLastFares(s, step, j);
    } else if step.t.tag == T_SB {
      StatusFares(s, step, j);
    } else {
      QuietFares(s, step, Take(s, step), j);
    }
  }

  // ----- calls of the host

  /** A step without events that at most queues a message, and touches no chain in use. */
  lemma QueueingFares(s: Slot, step: Step, r: Result, j: nat)
    requires j < |s.conns| == |r.slot.conns| < 256 && r.events == [] && !CarriesData(s, step, j)
    requires var (c, c') := (s.conns[j], r.slot.conns[j]);
      && c'.queue == c.queue + Enqueued(s, step, j) && c'.waiting == c.waiting
      && (if InUse(c) then InUse(c') && c'.chain == c.chain else c'.chain == None || (c'.chain == c.chain && !InUse(c')))
    ensures Fares(s, step, r, j)
  {
    QuietEvents(r.events, j);
    var c := s.conns[j];
    assert Chained(c) + [] == [] + [] + Chained(c);
    assert [] + r.slot.conns[j].queue == r.slot.conns[j].queue;
  }

  lemma HostSendFares(s: Slot, step: Step, j: nat)
    requires j < |s.conns| < 256 && step.HostSend?
    ensures Fares(s, step, Take(s, step), j)
  {
    hide Fares, Frame;
    var (c, r) := (s.conns[j], Take(s, step));
    assert c.queue + [] == c.queue;
    if InUse(c) {
      QueueingFares(s, step, r, j);
    } else {
      QuietFares(s, step, r, j);
    }
  }

  lemma HostNewTcFares(s: Slot, step: Step, j: nat)
    requires j < |s.conns| < 256 && step.HostNewTc?
    ensures Fares(s, step, Take(s, step), j)
  {
    hide Fares;
    var (c, r) := (s.conns[j], Take(s, step));
    assert c.queue + [] == c.queue;
    if r.error != NoError || FreeTc(s.conns, 1) != Some(j) {
      QuietFares(s, step, r, j);
    } else {
      QueueingFares(s, step, r, j);
    }
  }

  lemma HostDelTcFares(s: Slot, step: Step, j: nat)
    requires j < |s.conns| < 256 && step.HostDelTc?
    ensures Fares(s, step, Take(s, step), j)
  {
    hide Fares;
    var (c, r) := (s.conns[j], Take(s, step));
    assert c.queue + [] == c.queue;
    if r.error != NoError || step.k != j {
      QuietFares(s, step, r, j);
    } else if c.state == Active || c.chain == None {
      QueueingFares(s, step, r, j);
    } else {
      LeakedChainFares(s, step, j);
    }
  }

  /** Unreachable by `ChainsInUse`, but allowed by the types: a chain buffer outside its connection's use. */
  lemma LeakedChainFares(s: Slot, step: Step, j: nat)
    requires j < |s.conns| < 256 && step == HostDelTc(j) && s.open && s.conns[j].state == InDeletion
    requires s.conns[j].chain.Some?
    ensures Fares(s, step, Take(s, step), j)
  {
    QuietEvents(Take(s, step).events, j);
    assert [] + Take(s, step).slot.conns[j].queue == Take(s, step).slot.conns[j].queue;
  }

  lemma HostDestroyFares(s: Slot, step: Step, j: nat)
    requires j < |s.conns| < 256 && step.HostDestroySlot?
    ensures Fares(s, step, Take(s, step), j)
  {
    QuietEvents(Take(s, step).events, j);
  }

  lemma HostRegisterFares(s: Slot, step: Step, j: nat)
    requires j < |s.conns| < 256 && step.HostRegister?
    ensures Fares(s, step, Take(s, step), j)
  {
    QuietFares(s, step, Take(s, step), j);
  }

  // ----- the poll loop

  /** The cases of a visit to connection `k`. */
  lemma VisitCases(s: Slot, k: nat, pollDue: bool, timedOut: bool, written: bool)
    requires k < |s.conns| < 256
    ensures var (r, c) := (Visit(s, k, pollDue, timedOut, written), s.conns[k]);
      && |r.slot.conns| == |s.conns|
      && r.slot == Put(s, k, r.slot.conns[k])
      && var c' := r.slot.conns[k];
         if r.events == [] then
           c' == c || (c' == c.(state := Idle) && (c.state == InCreation || c.state == InDeletion))
         else
           && |r.events| == 1 && !c.waiting
           && if r.events[0].PollWrite? then
                r.events[0].conn == k && c.state == Active && c' == c.(waiting := true)
              else
                && Sends(c) && c.queue != [] && r.events == [QueueWrite(k, c.queue[0], written)]
                && c'.queue == c.queue[1..] && c'.waiting == written
                && (if c'.state == c.state then c'.chain == c.chain
                    else if c'.state == InDeletion then c'.chain == None
                    else c'.state == Idle && (c.state == InCreation || c'.chain == None)
                         && (c'.chain == None || c'.chain == c.chain))
  {
  }

  /** One loop write, on this connection or another. */
  lemma LoopWriteFares(s: Slot, step: Step, r: Result, j: nat, e: Event)
    requires j < |s.conns| == |r.slot.conns| < 256 && step.PollVisit? && r.events == [e] && e.conn == step.k
    requires e.QueueWrite? || e.PollWrite?
    requires var (c, c') := (s.conns[j], r.slot.conns[j]);
      if step.k != j then c' == c
      else
        && !c.waiting && (c'.waiting <==> e.PollWrite? || e.ok)
        && c.queue == (if e.QueueWrite? then [e.data] else []) + c'.queue
        && (if InUse(c') then InUse(c) && c'.chain == c.chain else ChainOk(c) ==> c'.chain == None)
    ensures Fares(s, step, r, j)
  {
    VisitEnqueues(s, step, j);
    hide Take, Enqueued;
    EventsOfOne(e, j);
    var (c, c') := (s.conns[j], r.slot.conns[j]);
    assert [] + c'.queue == c'.queue && c.queue + [] == c.queue;
    assert Chained(c) + [] == [] + [] + Chained(c);
  }

  lemma VisitEnqueues(s: Slot, step: Step, j: nat)
    requires j < |s.conns| < 256 && step.PollVisit?
    ensures Enqueued(s, step, j) == []
    ensures s.open && step.k < |s.conns| ==>
      Take(s, step) == Visit(s, step.k, step.pollDue, step.timedOut, step.written)
    ensures !s.open || step.k >= |s.conns| ==> Take(s, step) == Fail(s, NoError)
  {
    hide Visit;
  }

  lemma VisitFares(s: Slot, step: Step, j: nat)
    requires j < |s.conns| < 256 && step.PollVisit?
    ensures Fares(s, step, Take(s, step), j)
  {
    hide Fares, Visit, Take, Enqueued;
    VisitEnqueues(s, step, j);
    var r := Take(s, step);
    if !s.open || step.k >= |s.conns| {
      QuietFares(s, step, r, j);
    } else if r.events == [] || j != step.k {
      VisitElsewhereFares(s, step, r, j);
    } else {
      VisitHereFares(s, step, r);
    }
  }

  lemma VisitHereFares(s: Slot, step: Step, r: Result)
    requires step.PollVisit? && step.k < |s.conns| < 256 && Enqueued(s, step, step.k) == []
    requires r == Visit(s, step.k, step.pollDue, step.timedOut, step.written) && r.events != []
    ensures |r.slot.conns| == |s.conns| && Fares(s, step, r, step.k)
  {
    hide Fares, Visit, Take, Enqueued;
    VisitCases(s, step.k, step.pollDue, step.timedOut, step.written);
    var q := s.conns[step.k].queue;
    assert q == [] + q && (q != [] ==> q == [q[0]] + q[1..]);
    assert r.events == [r.events[0]];
    LoopWriteFares(s, step, r, step.k, r.events[0]);
  }

  lemma VisitElsewhereFares(s: Slot, step: Step, r: Result, j: nat)
    requires j < |s.conns| < 256 && step.PollVisit? && step.k < |s.conns| && Enqueued(s, step, j) == []
    requires r == Visit(s, step.k, step.pollDue, step.timedOut, step.written) && (r.events == [] || j != step.k)
    ensures |r.slot.conns| == |s.conns| && Fares(s, step, r, j)
  {
    hide Fares, Visit, Take, Enqueued;
    VisitCases(s, step.k, step.pollDue, step.timedOut, step.written);
    if r.events == [] {
      QuietFares(s, step, r, j);
    } else {
      assert r.events == [r.events[0]];
      LoopWriteFares(s, step, r, j, r.events[0]);
    }
  }

  /** Every step of every kind. */
  lemma StepFares(s: Slot, step: Step, j: nat)
    requires j < |s.conns| < 256
    ensures Fares(s, step, Take(s, step), j)
  {
    hide Fares, Take;
    match step
    case Incoming(_, _, _) => IncomingFares(s, step, j);
    case PollVisit(_, _, _, _) => VisitFares(s, step, j);
    case HostSend(_, _) => HostSendFares(s, step, j);
    case HostNewTc => HostNewTcFares(s, step, j);
    case HostDelTc(_) => HostDelTcFares(s, step, j);
    case HostDestroySlot => HostDestroyFares(s, step, j);
    case HostRegister => HostRegisterFares(s, step, j);
  }

  // ----- chained packets

  /** Chain buffers of unused connections are empty in every run, so a new connection starts with none. */
  lemma {:induction false} ChainsInUse(connections: nat, steps: seq<Step>, j: nat)
    requires j < connections < 256
    ensures ChainOk(After(NewSlot(connections), steps).conns[j])
  {
    hide Take;
    if steps != [] {
      var front := steps[..|steps| - 1];
      ChainsInUse(connections, front, j);
      StepFares(After(NewSlot(connections), front), steps[|steps| - 1], j);
    }
  }

  /** The data a connection has taken in, handed up and thrown away since it last came into use. */
  datatype History = History(accepted: seq<byte>, delivered: seq<byte>, lost: seq<byte>)

  const NOTHING: History := History([], [], [])

  function Told(s: Slot, steps: seq<Step>, j: nat): History
    requires j < |s.conns| < 256
  {
    if steps == [] then NOTHING
    else
      var (front, step) := (steps[..|steps| - 1], steps[|steps| - 1]);
      var (h, before) := (Told(s, front, j), After(s, front));
      var r := Take(before, step);
      if !InUse(before.conns[j]) && InUse(r.slot.conns[j]) then NOTHING
      else
        History(h.accepted + Accepted(before, step, j),
                h.delivered + Delivered(r.events, j),
                h.lost + Lost(before, step, j))
  }

  predicate Balanced(h: History, pending: seq<byte>) {
    && |h.accepted| == |h.delivered| + |h.lost| + |pending|
    && (h.lost == [] ==> h.accepted == h.delivered + pending)
  }

  lemma BalanceMore(h: History, pending: seq<byte>, a: seq<byte>, d: seq<byte>, l: seq<byte>, pending': seq<byte>)
    requires Balanced(h, pending) && pending + a == d + l + pending'
    ensures Balanced(History(h.accepted + a, h.delivered + d, h.lost + l), pending')
  {
    assert |pending + a| == |d + l + pending'|;
    if h.lost + l == [] {
      assert h.delivered + pending + a == h.delivered + (pending + a);
      assert d + [] + pending' == d + pending';
      assert h.delivered + (d + pending') == h.delivered + d + pending';
    }
  }

  lemma {:induction false} RunBalanced(connections: nat, steps: seq<Step>, j: nat)
    requires j < connections < 256
    ensures var c := After(NewSlot(connections), steps).conns[j];
      InUse(c) ==> Balanced(Told(NewSlot(connections), steps, j), Chained(c))
    decreases |steps|
  {
    hide Take, Accepted, Delivered, Lost, Balanced;
    var s := NewSlot(connections);
    if steps == [] {
      NothingBalanced();
    } else {
      var (front, step) := (steps[..|steps| - 1], steps[|steps| - 1]);
      var before := After(s, front);
      RunBalanced(connections, front, j);
      ChainsInUse(connections, front, j);
      StepFares(before, step, j);
      NothingBalanced();
      var r := Take(before, step);
      var (c, c') := (before.conns[j], r.slot.conns[j]);
      if InUse(c) && InUse(c') {
        BalanceMore(Told(s, front, j), Chained(c), Accepted(before, step, j), Delivered(r.events, j),
                    Lost(before, step, j), Chained(c'));
      }
    }
  }

  lemma NothingBalanced()
    ensures Balanced(NOTHING, [])
  {
  }

  /**
   Chain reassembly, in every run: the data bytes a connection accepted since it came into use are exactly
   those delivered followed by those in the chain buffer, if and only if no empty T_DATA_LAST has ended a
   non-empty chain.
   */
  lemma ChainsReassembled(connections: nat, steps: seq<Step>, j: nat)
    requires j < connections < 256 && InUse(After(NewSlot(connections), steps).conns[j])
    ensures var h := Told(NewSlot(connections), steps, j);
      h.accepted == h.delivered + Chained(After(NewSlot(connections), steps).conns[j]) <==> h.lost == []
  {
    RunBalanced(connections, steps, j);
  }

  /** With non-empty last fragments nothing is ever lost. */
  lemma {:induction false} NonEmptyLosesNothing(s: Slot, steps: seq<Step>, j: nat)
    requires j < |s.conns| < 256
    requires forall i :: 0 <= i < |steps| ==>
      !(steps[i].Incoming? && steps[i].t.tag == T_DATA_LAST && steps[i].t.data == [])
    ensures Told(s, steps, j).lost == []
  {
    hide Take;
    if steps != [] {
      NonEmptyLosesNothing(s, steps[..|steps| - 1], j);
    }
  }

  /** An empty T_DATA_LAST on an active connection drops its chain without delivering it. */
  lemma EmptyLastLosesChain(s: Slot, k: byte, chain: seq<byte>)
    requires k < |s.conns| < 256 && s.open && s.conns[k].state == Active && s.conns[k].chain == Some(chain)
    ensures var step := Incoming(Tpdu(T_DATA_LAST, k, []), true, true);
      && Delivered(Take(s, step).events, k) == [] && Lost(s, step, k) == chain
      && Take(s, step).slot.conns[k].chain == None && Take(s, step).error == NoError
  {
  }

  // ----- the send queue

  function SentIn(s: Slot, steps: seq<Step>, j: nat): seq<seq<byte>>
    requires j < |s.conns| < 256
  {
    if steps == [] then []
    else
      var (front, step) := (steps[..|steps| - 1], steps[|steps| - 1]);
      SentIn(s, front, j) + Sent(Take(After(s, front), step).events, j)
  }

  function EnqueuedIn(s: Slot, steps: seq<Step>, j: nat): seq<seq<byte>>
    requires j < |s.conns| < 256
  {
    if steps == [] then []
    else
      var (front, step) := (steps[..|steps| - 1], steps[|steps| - 1]);
      EnqueuedIn(s, front, j) + Enqueued(After(s, front), step, j)
  }

  lemma Shift(q: seq<seq<byte>>, a: seq<seq<byte>>, b: seq<seq<byte>>, q': seq<seq<byte>>,
      e: seq<seq<byte>>, t: seq<seq<byte>>, q'': seq<seq<byte>>)
    requires q + a == b + q' && q' + e == t + q''
    ensures q + (a + e) == b + t + q''
  {
    assert q + (a + e) == (q + a) + e == (b + q') + e == b + (q' + e) == b + (t + q'') == b + t + q'';
  }

  /**
   Conservation: until the slot is destroyed, the messages queued on a connection are those handed to the
   link, in order, followed by those still in the queue.
   */
  lemma {:induction false} QueueConserved(s: Slot, steps: seq<Step>, j: nat)
    requires j < |s.conns| < 256
    requires forall i :: 0 <= i < |steps| ==> !steps[i].HostDestroySlot?
    ensures s.conns[j].queue + EnqueuedIn(s, steps, j) == SentIn(s, steps, j) + After(s, steps).conns[j].queue
  {
    hide Take, Enqueued, Sent;
    if steps == [] {
      assert s.conns[j].queue + [] == [] + s.conns[j].queue;
    } else {
      var (front, step) := (steps[..|steps| - 1], steps[|steps| - 1]);
      var before := After(s, front);
      QueueConserved(s, front, j);
      StepFares(before, step, j);
      var r := Take(before, step);
      Shift(s.conns[j].queue, EnqueuedIn(s, front, j), SentIn(s, front, j), before.conns[j].queue,
            Enqueued(before, step, j), Sent(r.events, j), r.slot.conns[j].queue);
    }
  }

  // ----- pacing

  /** The step ends the wait of the connection: it is a TPDU on it, or the end of the slot. */
  predicate Clears(s: Slot, step: Step, j: nat)
    requires j < |s.conns| < 256
  {
    && (OnConn(step, j) || step.HostDestroySlot?)
    && s.conns[j].waiting && !Take(s, step).slot.conns[j].waiting
  }

  /** One of the steps from `i` up to `m` ends the wait. */
  predicate Cleared(s: Slot, steps: seq<Step>, i: nat, m: nat, j: nat)
    requires j < |s.conns| < 256 && i <= m <= |steps|
  {
    exists p :: i <= p < m && Clears(After(s, steps[..p]), steps[p], j)
  }

  lemma AfterNext(s: Slot, steps: seq<Step>, i: nat)
    requires |s.conns| < 256 && i < |steps|
    ensures After(s, steps[..i + 1]) == Take(After(s, steps[..i]), steps[i]).slot
  {
    hide Take;
    assert steps[..i + 1][..i] == steps[..i];
  }

  lemma {:induction false} WaitLasts(s: Slot, steps: seq<Step>, i: nat, m: nat, j: nat)
    requires j < |s.conns| < 256 && i <= m <= |steps|
    requires After(s, steps[..i]).conns[j].waiting
    ensures After(s, steps[..m]).conns[j].waiting || Cleared(s, steps, i, m, j)
    decreases m - i
  {
    hide Take, After;
    if i < m {
      WaitLasts(s, steps, i, m - 1, j);
      AfterNext(s, steps, m - 1);
      var before := After(s, steps[..m - 1]);
      StepFares(before, steps[m - 1], j);
      if before.conns[j].waiting && !After(s, steps[..m]).conns[j].waiting {
        assert Clears(before, steps[m - 1], j);
      }
    }
  }

  /**
   A write of the poll loop goes to a connection that is not waiting, and sets the wait unless it fails with a message.
   */
  lemma WriteArms(s: Slot, steps: seq<Step>, i: nat, j: nat)
    requires j < |s.conns| < 256 && i < |steps|
    requires LoopWrites(Take(After(s, steps[..i]), steps[i]).events, j)
    ensures !After(s, steps[..i]).conns[j].waiting
    ensures After(s, steps[..i + 1]).conns[j].waiting <==> Arms(Take(After(s, steps[..i]), steps[i]).events, j)
  {
    hide Take, LoopWrites, Arms;
    AfterNext(s, steps, i);
    StepFares(After(s, steps[..i]), steps[i], j);
  }

  /**
   Pacing: between two writes of the poll loop on one connection an incoming TPDU on it ends the wait, or the slot
   is destroyed. The one premise is that the first write is not a message that the link refuses.
   */
  lemma {:induction false} LoopWritesPaced(s: Slot, steps: seq<Step>, i: nat, m: nat, j: nat)
    requires j < |s.conns| < 256 && i < m < |steps|
    requires Arms(Take(After(s, steps[..i]), steps[i]).events, j)
    requires LoopWrites(Take(After(s, steps[..m]), steps[m]).events, j)
    ensures Cleared(s, steps, i + 1, m, j)
  {
    hide Take, LoopWrites, Arms, After, Cleared;
    ArmsIsWrite(Take(After(s, steps[..i]), steps[i]).events, j);
    WriteArms(s, steps, i, j);
    WriteArms(s, steps, m, j);
    WaitLasts(s, steps, i + 1, m, j);
  }

  lemma ArmsIsWrite(events: seq<Event>, j: nat)
    requires Arms(events, j)
    ensures LoopWrites(events, j)
  {
  }

  /**
   A message that the link refuses breaks the pacing: the next visit writes again at once, if and only if there is
   another message, or the connection is active and a poll is due.
   */
  lemma RefusedMessageUnpaced(s: Slot, k: nat, first: Clock, next: Clock)
    requires k < |s.conns| < 256 && s.open && !first.written
    requires Sends(s.conns[k]) && s.conns[k].queue != [] && !s.conns[k].waiting
    ensures
      var r := Take(s, PollVisit(k, first.pollDue, first.timedOut, first.written));
      var r' := Take(r.slot, PollVisit(k, next.pollDue, next.timedOut, next.written));
      && LoopWrites(r.events, k) && !Arms(r.events, k)
      && (LoopWrites(r'.events, k) <==> s.conns[k].queue[1..] != [] || (s.conns[k].state == Active && next.pollDue))
  {
    VisitWrites(s, k, first);
    var r := Take(s, PollVisit(k, first.pollDue, first.timedOut, first.written));
    assert r.events == [QueueWrite(k, s.conns[k].queue[0], false)];
    EventsOfOne(r.events[0], k);
    VisitWrites(r.slot, k, next);
  }

  /** When a visit writes to the link. */
  lemma VisitWrites(s: Slot, k: nat, clock: Clock)
    requires k < |s.conns| < 256
    ensures
      var (c, r) := (s.conns[k], Take(s, PollVisit(k, clock.pollDue, clock.timedOut, clock.written)));
      && |r.slot.conns| == |s.conns|
      && (LoopWrites(r.events, k) <==>
           s.open && !c.waiting && ((Sends(c) && c.queue != []) || (c.state == Active && clock.pollDue)))
  {
    var r := Take(s, PollVisit(k, clock.pollDue, clock.timedOut, clock.written));
    if r.events != [] {
      assert r.events[0].conn == k;
    }
  }

  // ----- states

  /** The moves a connection can make in one step. */
  predicate Moves(from: TcState, to: TcState) {
    || from == to
    || to == Idle
    || (from == Idle && to == InCreation)
    || (from == InCreation && to == Active)
    || ((from == Active || from == InDeletion) && to == ActiveDeleteQueued)
    || (from == ActiveDeleteQueued && to == InDeletion)
  }

  predicate IsDeletion(msg: seq<byte>) {
    msg != [] && msg[0] == T_DELETE_T_C
  }

  predicate NoDeletion(q: seq<seq<byte>>) {
    forall i :: 0 <= i < |q| ==> !IsDeletion(q[i])
  }

  /** A queued deletion stands only in the queue of a connection whose deletion is queued, as its last message. */
  predicate DeletionLast(c: Conn) {
    NoDeletion(if c.state == ActiveDeleteQueued && c.queue != [] then c.queue[..|c.queue| - 1] else c.queue)
  }

  /** What one step keeps and allows, as long as queued deletions stand where they should. */
  predicate Orderly(c: Conn, c': Conn) {
    DeletionLast(c') && Moves(c.state, c'.state)
  }

  /** The queue stays, and the deletion stays queued if it was. */
  lemma SameQueueOrderly(c: Conn, c': Conn)
    requires DeletionLast(c) && c'.queue == c.queue && Moves(c.state, c'.state)
    requires c.state == ActiveDeleteQueued <==> c'.state == ActiveDeleteQueued
    ensures Orderly(c, c')
  {
  }

  lemma IncomingOrderly(s: Slot, step: Step, j: nat)
    requires j < |s.conns| < 256 && step.Incoming? && DeletionLast(s.conns[j])
    ensures Orderly(s.conns[j], Take(s, step).slot.conns[j])
  {
    hide DeletionLast, RequestTc;
    if s.open && step.t.connection < |s.conns| && step.t.tag == T_REQUEST_T_C {
      RequestConn(s, step.t.connection, step.first, step.second, j);
    }
    SameQueueOrderly(s.conns[j], Take(s, step).slot.conns[j]);
  }

  lemma VisitOrderly(s: Slot, step: Step, j: nat)
    requires j < |s.conns| < 256 && step.PollVisit? && DeletionLast(s.conns[j])
    ensures Orderly(s.conns[j], Take(s, step).slot.conns[j])
  {
    hide Visit, Take, Enqueued, DeletionLast;
    VisitEnqueues(s, step, j);
    var (c, c') := (s.conns[j], Take(s, step).slot.conns[j]);
    if s.open && step.k < |s.conns| {
      VisitCases(s, step.k, step.pollDue, step.timedOut, step.written);
    }
    if c'.queue == c.queue {
      SameQueueOrderly(c, c');
    } else {
      VisitMoves(s, step.k, step.pollDue, step.timedOut, step.written);
      HeadGone(c, c');
    }
  }

  /** Only a deletion that is sent takes a connection into deletion; one that times out there becomes idle. */
  lemma VisitMoves(s: Slot, k: nat, pollDue: bool, timedOut: bool, written: bool)
    requires k < |s.conns| < 256
    ensures var (r, c) := (Visit(s, k, pollDue, timedOut, written), s.conns[k]);
      && |r.slot.conns| == |s.conns|
      && var c' := r.slot.conns[k];
         c'.queue != c.queue ==>
           && c.queue != [] && c'.queue == c.queue[1..]
           && if IsDeletion(c.queue[0]) && written then c'.state == InDeletion || c'.state == Idle
              else c'.state == c.state || (c.state == InCreation && c'.state == Idle)
  {
  }

  lemma HeadGone(c: Conn, c': Conn)
    requires DeletionLast(c) && Sends(c) && c.queue != [] && c'.queue == c.queue[1..]
    requires (IsDeletion(c.queue[0]) && (c'.state == InDeletion || c'.state == Idle))
             || c'.state == c.state || (c.state == InCreation && c'.state == Idle)
    ensures Orderly(c, c')
  {
  }

  lemma HostOrderly(s: Slot, step: Step, j: nat)
    requires j < |s.conns| < 256 && !step.Incoming? && !step.PollVisit? && DeletionLast(s.conns[j])
    ensures Orderly(s.conns[j], Take(s, step).slot.conns[j])
  {
    var (c, c') := (s.conns[j], Take(s, step).slot.conns[j]);
    if step.HostSend? && c'.queue != c.queue {
      FrameIsNoDeletion(step.k, step.data);
      hide Frame;
      MessageAdded(c, c', Frame(Tpdu(T_DATA_LAST, step.k, step.data)));
    } else if step.HostNewTc? && c'.queue != c.queue {
      MessageAdded(c, c', [T_CREATE_T_C, 1, j]);
    } else if step.HostDelTc? && c'.queue != c.queue {
      DeletionAdded(c, c', [T_DELETE_T_C, 1, j]);
    } else if !step.HostDestroySlot? {
      SameQueueOrderly(c, c');
    }
  }

  lemma FrameIsNoDeletion(k: byte, data: seq<byte>)
    ensures !IsDeletion(Frame(Tpdu(T_DATA_LAST, k, data)))
  {
  }

  lemma MessageAdded(c: Conn, c': Conn, msg: seq<byte>)
    requires DeletionLast(c) && c'.queue == c.queue + [msg] && !IsDeletion(msg) && Moves(c.state, c'.state)
    requires c.state != ActiveDeleteQueued && c'.state != ActiveDeleteQueued
    ensures Orderly(c, c')
  {
    hide IsDeletion;
  }

  lemma DeletionAdded(c: Conn, c': Conn, msg: seq<byte>)
    requires DeletionLast(c) && c'.queue == c.queue + [msg]
    requires (c.state == Active || c.state == InDeletion) && c'.state == ActiveDeleteQueued
    ensures Orderly(c, c')
  {
    hide IsDeletion;
    assert c'.queue[..|c'.queue| - 1] == c.queue;
  }

  /** Every step of every kind. */
  lemma StepOrderly(s: Slot, step: Step, j: nat)
    requires j < |s.conns| < 256 && DeletionLast(s.conns[j])
    ensures Orderly(s.conns[j], Take(s, step).slot.conns[j])
  {
    hide Take, Orderly, DeletionLast;
    if step.Incoming? {
      IncomingOrderly(s, step, j);
    } else if step.PollVisit? {
      VisitOrderly(s, step, j);
    } else {
      HostOrderly(s, step, j);
    }
  }

  /** In every run a deletion is queued only on a connection in ActiveDeleteQueued, behind all other messages. */
  lemma {:induction false} DeletionsLast(connections: nat, steps: seq<Step>, j: nat)
    requires j < connections < 256
    ensures DeletionLast(After(NewSlot(connections), steps).conns[j])
  {
    hide Take;
    if steps != [] {
      DeletionsLast(connections, steps[..|steps| - 1], j);
      StepOrderly(After(NewSlot(connections), steps[..|steps| - 1]), steps[|steps| - 1], j);
    }
  }

  /** In every run a connection makes only the moves of `Moves`. */
  lemma RunMoves(connections: nat, steps: seq<Step>, i: nat, j: nat)
    requires j < connections < 256 && i < |steps|
    ensures var s := NewSlot(connections);
      Moves(After(s, steps[..i]).conns[j].state, After(s, steps[..i + 1]).conns[j].state)
  {
    hide Take, DeletionLast, Moves;
    DeletionsLast(connections, steps[..i], j);
    AfterNext(NewSlot(connections), steps, i);
    StepOrderly(After(NewSlot(connections), steps[..i]), steps[i], j);
  }
}
