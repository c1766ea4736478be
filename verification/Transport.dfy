/**
 The EN 50221 transport layer of one slot as a state machine, lib/libdvben50221/en50221_transport.c.

 Every API call, every incoming TPDU and every visit of the poll loop to a connection is one step. Whether a
 link write succeeds, whether a poll is due and whether a response has timed out are inputs of the step; what
 is written and what is reported to the layer above are its events.
 */
module Transport {
  import opened Bytes
  import opened Framing
  import opened Wrappers

  // Transport tags, Annex A.4.1.13 of EN 50221.
  const T_SB: byte := 0x80
  const T_RCV: byte := 0x81
  const T_CREATE_T_C: byte := 0x82
  const T_C_T_C_REPLY: byte := 0x83
  const T_DELETE_T_C: byte := 0x84
  const T_D_T_C_REPLY: byte := 0x85
  const T_REQUEST_T_C: byte := 0x86
  const T_NEW_T_C: byte := 0x87
  const T_T_C_ERROR: byte := 0x77
  const T_DATA_MORE: byte := 0xa1

  datatype TcState = Idle | Active | ActiveDeleteQueued | InCreation | InDeletion

  /** `waiting` is a set tx_time; `chain` the buffer of a chained packet; `queue` the messages not yet sent. */
  datatype Conn = Conn(state: TcState, waiting: bool, chain: Option<seq<byte>>, queue: seq<seq<byte>>)

  /** A slot is open while it has a device handle. */
  datatype Slot = Slot(open: bool, conns: seq<Conn>)

  datatype Error =
    | NoError | BadCamData | CaWrite | BadConnectionId | BadSlotId | OutOfConnections | BadState | Timeout

  datatype Reason = ConnectionOpen | CamConnectionOpen | Data | ConnectionClose | SlotClose

  datatype Event =
    | Reply(conn: nat, data: seq<byte>, ok: bool)        // written in answer to a TPDU
    | QueueWrite(conn: nat, data: seq<byte>, ok: bool)   // the head of the send queue, written by the poll loop
    | PollWrite(conn: nat, data: seq<byte>, ok: bool)    // a poll for data, written by the poll loop
    | Notify(reason: Reason, conn: nat, data: seq<byte>) // the callback of the layer above

  datatype Result = Result(slot: Slot, events: seq<Event>, error: Error)

  function Put(s: Slot, k: nat, c: Conn): (r: Slot)
    requires k < |s.conns|
    ensures |r.conns| == |s.conns|
  {
    s.(conns := s.conns[k := c])
  }

  function Fail(s: Slot, error: Error): Result {
    Result(s, [], error)
  }

  /** A result with earlier events in front of its own. */
  function Prefixed(events: seq<Event>, r: Result): Result {
    r.(events := events + r.events)
  }

  lemma PrefixNothing(r: Result)
    ensures Prefixed([], r) == r
  {
    assert [] + r.events == r.events;
  }

  lemma PrefixTwice(events: seq<Event>, more: seq<Event>, r: Result)
    ensures Prefixed(events, Prefixed(more, r)) == Prefixed(events + more, r)
  {
    assert events + (more + r.events) == (events + more) + r.events;
  }

  lemma PrefixOwn(events: seq<Event>, more: seq<Event>, s: Slot, error: Error)
    ensures Prefixed(events, Result(s, more, error)) == Result(s, events + more, error)
  {
  }

  lemma PrefixFail(events: seq<Event>, s: Slot, error: Error)
    ensures Prefixed(events, Fail(s, error)) == Result(s, events, error)
  {
    assert events + [] == events;
  }

  // ----- incoming TPDUs

  function CreateTcReply(s: Slot, k: nat): Result
    requires k < |s.conns|
  {
    var c := s.conns[k];
    if c.state != InCreation then Fail(s, BadCamData)
    else Result(Put(s, k, c.(state := Active, waiting := false)), [Notify(ConnectionOpen, k, [])], NoError)
  }

  function DeleteTc(s: Slot, k: nat, written: bool): Result
    requires k < |s.conns| < 256
  {
    var c := s.conns[k];
    if c.state != Active && c.state != InDeletion then Fail(s, BadCamData)
    else
      var s' := Put(s, k, c.(state := Idle, chain := None));
      var reply := Reply(k, [T_D_T_C_REPLY, 1, k], written);
      if written then Result(s', [reply, Notify(ConnectionClose, k, [])], NoError)
      else Result(s', [reply], CaWrite)
  }

  function DeleteTcReply(s: Slot, k: nat): Result
    requires k < |s.conns|
  {
    var c := s.conns[k];
    if c.state != InDeletion then Fail(s, BadCamData)
    else Result(Put(s, k, c.(state := Idle)), [], NoError)
  }

  /** The first idle connection but 0, which is never handed out. */
  function FreeTc(conns: seq<Conn>, from: nat): (r: Option<nat>)
    ensures r.Some? ==> from <= r.value < |conns| && conns[r.value].state == Idle
    ensures r.Some? ==> forall i :: from <= i < r.value ==> conns[i].state != Idle
    ensures r.None? ==> forall i :: from <= i < |conns| ==> conns[i].state != Idle
    decreases |conns| - from
  {
    if from >= |conns| then None
    else if conns[from].state == Idle then Some(from)
    else FreeTc(conns, from + 1)
  }

  function AllocTc(s: Slot, k: nat): Slot
    requires k < |s.conns|
  {
    Put(s, k, s.conns[k].(state := InCreation, chain := None))
  }

  function RefuseTc(s: Slot, k: nat, written: bool): Result
    requires k < |s.conns| < 256
  {
    var reply := Reply(k, [T_T_C_ERROR, 2, k, 1], written);
    if written then Result(Put(s, k, s.conns[k].(waiting := false)), [reply], NoError)
    else Result(s, [reply], CaWrite)
  }

  function OfferTc(s: Slot, k: nat, n: nat, first: bool, second: bool): Result
    requires k < |s.conns| < 256 && n < |s.conns|
  {
    var reply := Reply(k, [T_NEW_T_C, 2, k, n], first);
    if !first then Result(Put(s, n, s.conns[n].(state := Idle)), [reply], CaWrite)
    else
      var s2 := Put(s, k, s.conns[k].(waiting := false));
      var create := Reply(n, [T_CREATE_T_C, 1, n], second);
      if !second then Result(Put(s2, n, s2.conns[n].(state := Idle)), [reply, create], CaWrite)
      else
        Result(Put(s2, n, s2.conns[n].(waiting := true)),
               [reply, create, Notify(CamConnectionOpen, n, [])], NoError)
  }

  /** The module asks for another connection: one write on the old connection, one on the new. */
  function RequestTc(s: Slot, k: nat, first: bool, second: bool): Result
    requires k < |s.conns| < 256
  {
    var free := FreeTc(s.conns, 1);
    if free.None? then RefuseTc(s, k, first)
    else OfferTc(AllocTc(s, free.value), k, free.value, first, second)
  }

  function Chained(c: Conn): seq<byte> {
    if c.chain.Some? then c.chain.value else []
  }

  function DataMore(s: Slot, k: nat, data: seq<byte>): Result
    requires k < |s.conns|
  {
    var c := s.conns[k];
    if c.state != Active then Fail(s, BadCamData)
    else Result(Put(s, k, c.(waiting := false, chain := Some(Chained(c) + data))), [], NoError)
  }

  /** The end of a chain. The code delivers nothing when the last TPDU itself is empty. */
  function DataLast(s: Slot, k: nat, data: seq<byte>): Result
    requires k < |s.conns|
  {
    var c := s.conns[k];
    if c.state != Active then Fail(s, BadCamData)
    else
      Result(Put(s, k, c.(waiting := false, chain := None)),
             if data == [] then [] else [Notify(Data, k, Chained(c) + data)], NoError)
  }

  /** The module's status: it has data for the host when the top bit is set. */
  function Status(s: Slot, k: nat, data: seq<byte>, written: bool): Result
    requires k < |s.conns| < 256
  {
    var c := s.conns[k];
    if c.state != Active || |data| != 1 then Fail(s, BadCamData)
    else if data[0] >= 0x80 then
      var reply := Reply(k, [T_RCV, 1, k], written);
      if written then Result(Put(s, k, c.(waiting := true)), [reply], NoError)
      else Result(s, [reply], CaWrite)
    else Result(Put(s, k, c.(waiting := false)), [], NoError)
  }

  function HandleTpdu(s: Slot, t: Tpdu, first: bool, second: bool): Result
    requires |s.conns| < 256
  {
    var k := t.connection;
    if k >= |s.conns| then Fail(s, BadConnectionId)
    else if t.tag == T_C_T_C_REPLY then CreateTcReply(s, k)
    else if t.tag == T_DELETE_T_C then DeleteTc(s, k, first)
    else if t.tag == T_D_T_C_REPLY then DeleteTcReply(s, k)
    else if t.tag == T_REQUEST_T_C then RequestTc(s, k, first, second)
    else if t.tag == T_DATA_MORE then DataMore(s, k, t.data)
    else if t.tag == T_DATA_LAST then DataLast(s, k, t.data)
    else if t.tag == T_SB then Status(s, k, t.data, first)
    else Fail(s, BadCamData)
  }

  /** What the link does with the two writes a TPDU can cause. */
  datatype Writes = Writes(first: bool, second: bool)

  /**
   `en50221_tl_process_data`: the TPDUs of one read are handled in turn, up to the first malformed header or
   failing handler; `link(i)` says what becomes of the writes of the `i`th.
   */
  function ProcessData(s: Slot, data: seq<byte>, link: nat -> Writes, i: nat): (r: Result)
    requires |s.conns| < 256
    ensures |r.slot.conns| == |s.conns|
    decreases |data|
  {
    if data == [] then Fail(s, NoError)
    else
      var p := ParseTpdu(data);
      if p.None? then Fail(s, BadCamData)
      else
        HandleTpduSize(s, p.value.tpdu, link(i).first, link(i).second);
        var r := HandleTpdu(s, p.value.tpdu, link(i).first, link(i).second);
        if r.error != NoError then r
        else
          Prefixed(r.events, ProcessData(r.slot, data[p.value.used..], link, i + 1))
  }

  lemma HandleTpduSize(s: Slot, t: Tpdu, first: bool, second: bool)
    requires |s.conns| < 256
    ensures |HandleTpdu(s, t, first, second).slot.conns| == |s.conns|
  {
  }

  /** A list of TPDUs handled in turn, up to the first failing handler. */
  function HandleAll(s: Slot, ts: seq<Tpdu>, link: nat -> Writes, i: nat): (r: Result)
    requires |s.conns| < 256
    ensures |r.slot.conns| == |s.conns|
    decreases |ts|
  {
    if ts == [] then Fail(s, NoError)
    else
      HandleTpduSize(s, ts[0], link(i).first, link(i).second);
      var r := HandleTpdu(s, ts[0], link(i).first, link(i).second);
      if r.error != NoError then r
      else
        Prefixed(r.events, HandleAll(r.slot, ts[1..], link, i + 1))
  }

  lemma ProcessStep(s: Slot, front: seq<byte>, t: Tpdu, more: seq<byte>, link: nat -> Writes, i: nat)
    requires |s.conns| < 256 && front != [] && ParseTpdu(front + more) == Some(Parsed(t, |front|))
    ensures var r := HandleTpdu(s, t, link(i).first, link(i).second);
      && |r.slot.conns| == |s.conns|
      && ProcessData(s, front + more, link, i)
      == if r.error != NoError then r
         else Prefixed(r.events, ProcessData(r.slot, more, link, i + 1))
  {
    hide ParseTpdu, HandleTpdu;
    HandleTpduSize(s, t, link(i).first, link(i).second);
    assert (front + more)[|front|..] == more;
  }

  /** Processing what `Frame` built dispatches exactly the framed TPDUs, in order, and no others. */
  lemma {:induction false} ProcessDispatches(s: Slot, ts: seq<Tpdu>, link: nat -> Writes, i: nat)
    requires |s.conns| < 256 && forall k :: 0 <= k < |ts| ==> |ts[k].data| < 65535
    ensures ProcessData(s, FrameAll(ts), link, i) == HandleAll(s, ts, link, i)
    decreases |ts|
  {
    hide ParseTpdu, HandleTpdu, Frame, ProcessData;
    if ts == [] {
      ProcessNothing(s, link, i);
    } else {
      var more := FrameAll(ts[1..]);
      ParseFrame(ts[0], more);
      ProcessStep(s, Frame(ts[0]), ts[0], more, link, i);
      HandleTpduSize(s, ts[0], link(i).first, link(i).second);
      ProcessDispatches(HandleTpdu(s, ts[0], link(i).first, link(i).second).slot, ts[1..], link, i + 1);
    }
  }

  lemma ProcessNothing(s: Slot, link: nat -> Writes, i: nat)
    requires |s.conns| < 256
    ensures ProcessData(s, [], link, i) == Fail(s, NoError)
  {
  }

  // ----- the poll loop at one connection

  predicate Sends(c: Conn) {
    c.state == InCreation || c.state == Active || c.state == ActiveDeleteQueued
  }

  /** The head of the queue leaves it before it is written; a failed write loses it. */
  function SendQueued(s: Slot, k: nat, written: bool): Result
    requires k < |s.conns| && s.conns[k].queue != []
  {
    var (c, msg) := (s.conns[k], s.conns[k].queue[0]);
    var c1 := c.(queue := c.queue[1..]);
    if !written then Result(Put(s, k, c1), [QueueWrite(k, msg, false)], CaWrite)
    else
      var c2 := c1.(waiting := true);
      var c3 := if msg != [] && msg[0] == T_DELETE_T_C then c2.(state := InDeletion, chain := None) else c2;
      Result(Put(s, k, c3), [QueueWrite(k, msg, true)], NoError)
  }

  function PollData(s: Slot, k: nat, written: bool): Result
    requires k < |s.conns| < 256
  {
    Result(Put(s, k, s.conns[k].(waiting := true)), [PollWrite(k, [T_DATA_LAST, 1, k], written)],
           if written then NoError else CaWrite)
  }

  function CheckTimeout(s: Slot, k: nat, timedOut: bool): Result
    requires k < |s.conns|
  {
    var c := s.conns[k];
    if !c.waiting || !timedOut then Fail(s, NoError)
    else if c.state == InCreation || c.state == InDeletion then Fail(Put(s, k, c.(state := Idle)), NoError)
    else if c.state == Active || c.state == ActiveDeleteQueued then Fail(s, Timeout)
    else Fail(s, NoError)
  }

  /** What the loop of `en50221_tl_poll` does for one connection. */
  function Visit(s: Slot, k: nat, pollDue: bool, timedOut: bool, written: bool): Result
    requires k < |s.conns| < 256
  {
    var c := s.conns[k];
    if c.state == Idle then Fail(s, NoError)
    else
      var sent := if Sends(c) && c.queue != [] && !c.waiting then SendQueued(s, k, written) else Fail(s, NoError);
      if sent.error != NoError then sent
      else
        var c1 := sent.slot.conns[k];
        var polled := if c1.state == Active && !c1.waiting && pollDue then PollData(sent.slot, k, written)
                      else Fail(sent.slot, NoError);
        if polled.error != NoError then Result(polled.slot, sent.events + polled.events, polled.error)
        else
          var last := CheckTimeout(polled.slot, k, timedOut);
          Result(last.slot, sent.events + polled.events, last.error)
  }

  /** What the clock and the link do at a visit. */
  datatype Clock = Clock(pollDue: bool, timedOut: bool, written: bool)

  /** The poll loop over the connections of a slot, from `k` on, up to the first error. */
  function VisitFrom(s: Slot, k: nat, clock: nat -> Clock): (r: Result)
    requires k <= |s.conns| < 256
    ensures |r.slot.conns| == |s.conns|
    decreases |s.conns| - k
  {
    if k == |s.conns| then Fail(s, NoError)
    else
      var r := Visit(s, k, clock(k).pollDue, clock(k).timedOut, clock(k).written);
      if r.error != NoError then r
      else
        Prefixed(r.events, VisitFrom(r.slot, k + 1, clock))
  }

  lemma VisitFromStep(s: Slot, k: nat, clock: nat -> Clock)
    requires k < |s.conns| < 256
    ensures var r := Visit(s, k, clock(k).pollDue, clock(k).timedOut, clock(k).written);
      && |r.slot.conns| == |s.conns|
      && VisitFrom(s, k, clock)
      == if r.error != NoError then r
         else Prefixed(r.events, VisitFrom(r.slot, k + 1, clock))
  {
  }

  lemma VisitFromEnd(s: Slot, clock: nat -> Clock)
    requires |s.conns| < 256
    ensures VisitFrom(s, |s.conns|, clock) == Fail(s, NoError)
  {
  }

  // ----- calls of the host

  function Queue(s: Slot, k: nat, msg: seq<byte>): Slot
    requires k < |s.conns|
  {
    Put(s, k, s.conns[k].(queue := s.conns[k].queue + [msg]))
  }

  function SendData(s: Slot, k: nat, data: seq<byte>): Result
    requires |s.conns| < 256
  {
    if !s.open then Fail(s, BadSlotId)
    else if k >= |s.conns| then Fail(s, BadConnectionId)
    else if s.conns[k].state != Active then Fail(s, BadConnectionId)
    else Result(Queue(s, k, Frame(Tpdu(T_DATA_LAST, k, data))), [], NoError)
  }

  /** Sending on any slot number: the new slots, and whether the message was queued. */
  function SendOn(slots: seq<Slot>, slot: nat, conn: nat, data: seq<byte>): (r: (seq<Slot>, bool))
    requires forall i :: 0 <= i < |slots| ==> |slots[i].conns| < 256
    ensures |r.0| == |slots|
  {
    if slot >= |slots| then (slots, false)
    else
      var r := SendData(slots[slot], conn, data);
      (slots[slot := r.slot], r.error == NoError)
  }

  function NewTc(s: Slot): Result
    requires |s.conns| < 256
  {
    if !s.open then Fail(s, BadSlotId)
    else
      var free := FreeTc(s.conns, 1);
      if free.None? then Fail(s, OutOfConnections)
      else
        var n := free.value;
        Result(Queue(AllocTc(s, n), n, [T_CREATE_T_C, 1, n]), [], NoError)
  }

  function DelTc(s: Slot, k: nat): Result
    requires |s.conns| < 256
  {
    if !s.open then Fail(s, BadSlotId)
    else if k >= |s.conns| then Fail(s, BadConnectionId)
    else if s.conns[k].state != Active && s.conns[k].state != InDeletion then Fail(s, BadState)
    else
      var s1 := Queue(s, k, [T_DELETE_T_C, 1, k]);
      Result(Put(s1, k, s1.conns[k].(state := ActiveDeleteQueued)), [], NoError)
  }

  const FRESH: Conn := Conn(Idle, false, None, [])

  function DestroySlot(s: Slot): Result {
    Result(Slot(false, seq(|s.conns|, _ => FRESH)), [Notify(SlotClose, 0, [])], NoError)
  }

  // ----- steps

  datatype Step =
    | Incoming(t: Tpdu, first: bool, second: bool)
    | PollVisit(k: nat, pollDue: bool, timedOut: bool, written: bool)
    | HostSend(k: nat, data: seq<byte>)
    | HostNewTc
    | HostDelTc(k: nat)
    | HostDestroySlot
    | HostRegister

  /** Registering touches no connection. It takes an unused slot; on an open one the step does nothing. */
  function Register(s: Slot): Result {
    Fail(s.(open := true), NoError)
  }

  /** Steps on the module's side happen only while the slot is open. */
  function Take(s: Slot, step: Step): (r: Result)
    requires |s.conns| < 256
    ensures |r.slot.conns| == |s.conns|
  {
    match step
    case Incoming(t, first, second) => if s.open then HandleTpdu(s, t, first, second) else Fail(s, NoError)
    case PollVisit(k, pollDue, timedOut, written) =>
      if s.open && k < |s.conns| then Visit(s, k, pollDue, timedOut, written) else Fail(s, NoError)
    case HostSend(k, data) => SendData(s, k, data)
    case HostNewTc => NewTc(s)
    case HostDelTc(k) => DelTc(s, k)
    case HostDestroySlot => DestroySlot(s)
    case HostRegister => Register(s)
  }

  /** The slot after the steps. */
  function After(s: Slot, steps: seq<Step>): (r: Slot)
    requires |s.conns| < 256
    ensures |r.conns| == |s.conns|
  {
    if steps == [] then s else Take(After(s, steps[..|steps| - 1]), steps[|steps| - 1]).slot
  }

  /** A slot as `en50221_tl_create` leaves it; runs begin here, and the slot is of use once it has been registered. */
  function NewSlot(connections: nat): (s: Slot)
    requires connections < 256
    ensures |s.conns| == connections
  {
    Slot(false, seq(connections, _ => FRESH))
  }

  // ----- reads and poll rounds as steps

  /** The steps that one read of the device amounts to. */
  function ReadSteps(s: Slot, data: seq<byte>, link: nat -> Writes, i: nat): seq<Step>
    requires |s.conns| < 256
    decreases |data|
  {
    if data == [] then []
    else
      var p := ParseTpdu(data);
      if p.None? then []
      else
        var step := Incoming(p.value.tpdu, link(i).first, link(i).second);
        var r := HandleTpdu(s, p.value.tpdu, link(i).first, link(i).second);
        HandleTpduSize(s, p.value.tpdu, link(i).first, link(i).second);
        if r.error != NoError then [step] else [step] + ReadSteps(r.slot, data[p.value.used..], link, i + 1)
  }

  /** The steps that a round of the poll loop from connection `k` on amounts to. */
  function VisitSteps(s: Slot, k: nat, clock: nat -> Clock): seq<Step>
    requires k <= |s.conns| < 256
    decreases |s.conns| - k
  {
    if k == |s.conns| then []
    else
      var step := PollVisit(k, clock(k).pollDue, clock(k).timedOut, clock(k).written);
      var r := Visit(s, k, clock(k).pollDue, clock(k).timedOut, clock(k).written);
      if r.error != NoError then [step] else [step] + VisitSteps(r.slot, k + 1, clock)
  }

  function EventsIn(s: Slot, steps: seq<Step>): seq<Event>
    requires |s.conns| < 256
  {
    if steps == [] then []
    else
      var (front, step) := (steps[..|steps| - 1], steps[|steps| - 1]);
      EventsIn(s, front) + Take(After(s, front), step).events
  }

  /** A run may be cut off its first step. */
  lemma {:induction false} AfterFirst(s: Slot, step: Step, steps: seq<Step>)
    requires |s.conns| < 256
    ensures After(s, [step] + steps) == After(Take(s, step).slot, steps)
    ensures EventsIn(s, [step] + steps) == Take(s, step).events + EventsIn(Take(s, step).slot, steps)
    decreases |steps|
  {
    hide Take;
    var all := [step] + steps;
    if steps == [] {
      assert all == [step] && all[..0] == [];
      assert [] + Take(s, step).events == Take(s, step).events == Take(s, step).events + [];
    } else {
      var front := steps[..|steps| - 1];
      assert all[..|all| - 1] == [step] + front;
      AfterFirst(s, step, front);
      var last := Take(After(Take(s, step).slot, front), steps[|steps| - 1]).events;
      assert Take(s, step).events + EventsIn(Take(s, step).slot, front) + last
          == Take(s, step).events + (EventsIn(Take(s, step).slot, front) + last);
    }
  }

  /** A result is what a run of steps comes to. */
  predicate IsRun(s: Slot, steps: seq<Step>, r: Result)
    requires |s.conns| < 256
  {
    r.slot == After(s, steps) && r.events == EventsIn(s, steps)
  }

  lemma NothingIsRun(s: Slot, error: Error)
    requires |s.conns| < 256
    ensures IsRun(s, [], Fail(s, error))
  {
  }

  lemma StepIsRun(s: Slot, step: Step)
    requires |s.conns| < 256
    ensures IsRun(s, [step], Take(s, step))
  {
    hide Take;
    NothingIsRun(s, NoError);
    assert [step][..0] == [];
    assert [] + Take(s, step).events == Take(s, step).events;
  }

  lemma FirstIsRun(s: Slot, step: Step, steps: seq<Step>, rest: Result)
    requires |s.conns| < 256 && IsRun(Take(s, step).slot, steps, rest)
    ensures IsRun(s, [step] + steps, Prefixed(Take(s, step).events, rest))
  {
    hide Take;
    AfterFirst(s, step, steps);
  }

  /** A read of the device is a row of incoming TPDUs, each of them a step. */
  lemma {:induction false} ReadIsRun(s: Slot, data: seq<byte>, link: nat -> Writes, i: nat)
    requires |s.conns| < 256 && s.open
    ensures IsRun(s, ReadSteps(s, data, link, i), ProcessData(s, data, link, i))
    ensures forall n :: 0 <= n < |ReadSteps(s, data, link, i)| ==> ReadSteps(s, data, link, i)[n].Incoming?
    decreases |data|
  {
    hide HandleTpdu, ParseTpdu, IsRun;
    if data == [] || ParseTpdu(data).None? {
      NothingIsRun(s, NoError);
      NothingIsRun(s, BadCamData);
    } else {
      var p := ParseTpdu(data).value;
      var (first, second) := (link(i).first, link(i).second);
      var step := Incoming(p.tpdu, first, second);
      var r := HandleTpdu(s, p.tpdu, first, second);
      HandleTpduSize(s, p.tpdu, first, second);
      HandleTpduOpen(s, p.tpdu, first, second);
      StepIsRun(s, step);
      if r.error == NoError {
        ReadIsRun(r.slot, data[p.used..], link, i + 1);
        FirstIsRun(s, step, ReadSteps(r.slot, data[p.used..], link, i + 1),
                   ProcessData(r.slot, data[p.used..], link, i + 1));
      }
    }
  }

  /**
   The steps of a read are the TPDUs that parse, in order; a step that fails is the last one, and only such a one or
   malformed data ends the read early.
   */
  lemma {:induction false} ReadStopsAtError(s: Slot, data: seq<byte>, link: nat -> Writes, i: nat, n: nat)
    requires |s.conns| < 256 && s.open && n < |ReadSteps(s, data, link, i)|
    ensures
      var (steps, all) := (ReadSteps(s, data, link, i), ParseAll(data).0);
      && |steps| <= |all| && steps[n] == Incoming(all[n], link(i + n).first, link(i + n).second)
      && StopsRight(s, steps, n, |all|)
    decreases |data|
  {
    hide HandleTpdu, ParseTpdu, Take, StopsRight;
    var p := ParseTpdu(data).value;
    var step := Incoming(p.tpdu, link(i).first, link(i).second);
    HandleTpduSize(s, p.tpdu, link(i).first, link(i).second);
    HandleTpduOpen(s, p.tpdu, link(i).first, link(i).second);
    IncomingTaken(s, p.tpdu, link(i).first, link(i).second);
    var (r, rest) := (Take(s, step), data[p.used..]);
    var more := if r.error == NoError then ReadSteps(r.slot, rest, link, i + 1) else [];
    assert ReadSteps(s, data, link, i) == [step] + more;
    if more != [] {
      ReadStopsAtError(r.slot, rest, link, i + 1, if n > 0 then n - 1 else 0);
    }
    if n > 0 {
      StopsLater(s, step, more, n, |ParseAll(data).0|);
    } else {
      if r.error == NoError && more == [] {
        NothingRead(r.slot, rest, link, i + 1);
      }
      StopsFirst(s, step, more, |ParseAll(data).0|);
    }
  }

  lemma IncomingTaken(s: Slot, t: Tpdu, first: bool, second: bool)
    requires |s.conns| < 256 && s.open
    ensures Take(s, Incoming(t, first, second)) == HandleTpdu(s, t, first, second)
  {
  }

  lemma NothingRead(s: Slot, data: seq<byte>, link: nat -> Writes, i: nat)
    requires |s.conns| < 256 && ReadSteps(s, data, link, i) == []
    ensures ParseAll(data).0 == []
  {
  }

  lemma HandleTpduOpen(s: Slot, t: Tpdu, first: bool, second: bool)
    requires |s.conns| < 256
    ensures HandleTpdu(s, t, first, second).slot.open == s.open
  {
  }

  lemma VisitOpen(s: Slot, k: nat, pollDue: bool, timedOut: bool, written: bool)
    requires k < |s.conns| < 256
    ensures Visit(s, k, pollDue, timedOut, written).slot.open == s.open
    ensures |Visit(s, k, pollDue, timedOut, written).slot.conns| == |s.conns|
  {
  }

  lemma VisitStepsFirst(s: Slot, k: nat, clock: nat -> Clock)
    requires k < |s.conns| < 256 && s.open
    ensures
      var step := PollVisit(k, clock(k).pollDue, clock(k).timedOut, clock(k).written);
      var r := Visit(s, k, clock(k).pollDue, clock(k).timedOut, clock(k).written);
      && Take(s, step) == r && r.slot.open && |r.slot.conns| == |s.conns|
      && VisitSteps(s, k, clock) == [step] + if r.error != NoError then [] else VisitSteps(r.slot, k + 1, clock)
  {
    VisitOpen(s, k, clock(k).pollDue, clock(k).timedOut, clock(k).written);
    hide Visit;
  }

  /** A round of the poll loop is a row of visits. */
  lemma {:induction false} PollRoundIsRun(s: Slot, k: nat, clock: nat -> Clock)
    requires k <= |s.conns| < 256 && s.open
    ensures IsRun(s, VisitSteps(s, k, clock), VisitFrom(s, k, clock))
    decreases |s.conns| - k
  {
    if k == |s.conns| {
      VisitFromEnd(s, clock);
      NothingIsRun(s, NoError);
    } else {
      VisitStepsFirst(s, k, clock);
      VisitFromStep(s, k, clock);
      var r := Visit(s, k, clock(k).pollDue, clock(k).timedOut, clock(k).written);
      var step := PollVisit(k, clock(k).pollDue, clock(k).timedOut, clock(k).written);
      hide *;
      StepIsRun(s, step);
      if r.error == NoError {
        PollRoundIsRun(r.slot, k + 1, clock);
        FirstIsRun(s, step, VisitSteps(r.slot, k + 1, clock), VisitFrom(r.slot, k + 1, clock));
      } else {
        assert [step] + [] == [step];
      }
    }
  }

  /**
   The steps of a round visit the connections in order; a visit that fails is the last one, and only that ends a round
   early.
   */
  lemma {:induction false} RoundStopsAtError(s: Slot, k: nat, clock: nat -> Clock, n: nat)
    requires k <= |s.conns| < 256 && s.open && n < |VisitSteps(s, k, clock)|
    ensures
      var (steps, c) := (VisitSteps(s, k, clock), clock(k + n));
      && |steps| <= |s.conns| - k && steps[n] == PollVisit(k + n, c.pollDue, c.timedOut, c.written)
      && StopsRight(s, steps, n, |s.conns| - k)
    decreases |s.conns| - k
  {
    hide Visit, Take, VisitSteps, StopsRight, After;
    VisitsNothing(s, k, clock);
    if k < |s.conns| {
      VisitStepsFirst(s, k, clock);
      var step := PollVisit(k, clock(k).pollDue, clock(k).timedOut, clock(k).written);
      var r := Take(s, step);
      var more := if r.error == NoError then VisitSteps(r.slot, k + 1, clock) else [];
      assert VisitSteps(s, k, clock) == [step] + more;
      if more != [] {
        RoundStopsAtError(r.slot, k + 1, clock, if n > 0 then n - 1 else 0);
      }
      if n > 0 {
        StopsLater(s, step, more, n, |s.conns| - k);
      } else {
        VisitsNothing(r.slot, k + 1, clock);
        StopsFirst(s, step, more, |s.conns| - k);
      }
    }
  }

  /**
   A step fails only as the last one of its row, and a row of fewer steps than there might be ends in one that fails.
   */
  predicate StopsRight(s: Slot, steps: seq<Step>, n: nat, most: nat)
    requires |s.conns| < 256 && n < |steps|
  {
    && (Take(After(s, steps[..n]), steps[n]).error != NoError ==> n == |steps| - 1)
    && (n == |steps| - 1 ==> Take(After(s, steps[..n]), steps[n]).error != NoError || |steps| == most)
  }

  lemma StopsLater(s: Slot, step: Step, more: seq<Step>, n: nat, most: nat)
    requires |s.conns| < 256 && 0 < n <= |more| && most > 0
    requires StopsRight(Take(s, step).slot, more, n - 1, most - 1)
    ensures StopsRight(s, [step] + more, n, most)
  {
    hide Take;
    assert ([step] + more)[..n] == [step] + more[..n - 1];
    AfterFirst(s, step, more[..n - 1]);
  }

  lemma StopsFirst(s: Slot, step: Step, more: seq<Step>, most: nat)
    requires |s.conns| < 256 && (Take(s, step).error != NoError ==> more == [])
    requires more == [] ==> Take(s, step).error != NoError || most == 1
    ensures StopsRight(s, [step] + more, 0, most)
  {
    hide Take;
  }

  /** A round has no visits only if there are no connections. */
  lemma VisitsNothing(s: Slot, k: nat, clock: nat -> Clock)
    requires k <= |s.conns| < 256 && s.open
    ensures VisitSteps(s, k, clock) == [] <==> k == |s.conns|
  {
    if k < |s.conns| {
      VisitStepsFirst(s, k, clock);
    }
    hide Visit;
  }
}
