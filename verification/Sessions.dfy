/**
 The EN 50221 session layer on top of the transport layer, lib/libdvben50221/en50221_session.c: what each
 call, each incoming session PDU and each report of the transport layer does to the sessions and to the send
 queues below them.
 */
module Sessions {
  import opened Bytes
  import opened Framing
  import opened Transport
  import opened Wrappers

  // Session status values and tags, section 7.2 of EN 50221.
  const S_STATUS_OPEN: int := 0x00
  const S_STATUS_CLOSE_NO_RES: int := 0xf0
  const S_STATUS_CLOSE_RES_UNAVAILABLE: int := 0xf1
  const S_STATUS_CLOSE_RES_LOW_VERSION: int := 0xf2
  const S_STATUS_CLOSE_RES_BUSY: int := 0xf3

  const ST_SESSION_NUMBER: byte := 0x90
  const ST_OPEN_SESSION_REQ: byte := 0x91
  const ST_OPEN_SESSION_RES: byte := 0x92
  const ST_CREATE_SESSION: byte := 0x93
  const ST_CREATE_SESSION_RES: byte := 0x94
  const ST_CLOSE_SESSION_REQ: byte := 0x95
  const ST_CLOSE_SESSION_RES: byte := 0x96

  datatype SessionState = SIdle | SActive | SInCreation | SInDeletion

  datatype Session = Session(state: SessionState, resource: nat, slot: nat, conn: nat)

  /** Both layers: the slots of the transport layer and the sessions above them. */
  datatype Stack = Stack(slots: seq<Slot>, sessions: seq<Session>)

  predicate WellFormed(st: Stack) {
    && |st.slots| < 256 && |st.sessions| <= 0x10000
    && forall i :: 0 <= i < |st.slots| ==> |st.slots[i].conns| < 256
  }

  /** Connection `conn` of the slot carries data. */
  predicate Up(slots: seq<Slot>, slot: nat, conn: nat) {
    slot < |slots| && slots[slot].open && conn < |slots[slot].conns| && slots[slot].conns[conn].state == Active
  }

  datatype Cause = CamConnecting | CamConnected | Connected | ConnectFail | Close | TcConnect | TcCamConnect

  /** What the application sees: calls of its session callback, and APDUs for its resources. */
  datatype Seen =
    | Called(cause: Cause, slot: nat, number: nat, resource: nat)
    | Apdu(slot: nat, number: nat, resource: nat, data: seq<byte>)

  /** The application's session callback, and how it answers CAMCONNECTING. */
  datatype Answer = NoCallback | Accepts | Refuses

  /** The answers of the application: the status of its lookup callback, if it has one, and the resource found. */
  datatype App = App(lookup: Option<int>, resource: nat, answer: Answer)

  datatype Outcome = Outcome(stack: Stack, seen: seq<Seen>, value: int)

  // ----- pieces

  function NumberBytes(n: int): (b: seq<byte>)
    ensures |b| == 2
  {
    [(n / 0x100) % 0x100, n % 0x100]
  }

  function ResourceBytes(r: nat): (b: seq<byte>)
    ensures |b| == 4
  {
    [(r / 0x1000000) % 0x100, (r / 0x10000) % 0x100, (r / 0x100) % 0x100, r % 0x100]
  }

  function PutSession(st: Stack, n: nat, s: Session): Stack
    requires n < |st.sessions|
  {
    st.(sessions := st.sessions[n := s])
  }

  function SetState(st: Stack, n: nat, state: SessionState): Stack
    requires n < |st.sessions|
  {
    PutSession(st, n, st.sessions[n].(state := state))
  }

  function TlSend(st: Stack, slot: nat, conn: nat, data: seq<byte>): (Stack, bool)
    requires WellFormed(st)
  {
    var (slots, sent) := SendOn(st.slots, slot, conn, data);
    (st.(slots := slots), sent)
  }

  /** The first idle session but 0, which is never handed out. */
  function FreeSession(ss: seq<Session>, from: nat): (r: Option<nat>)
    ensures r.Some? ==> from <= r.value < |ss| && ss[r.value].state == SIdle
    ensures r.Some? ==> forall i :: from <= i < r.value ==> ss[i].state != SIdle
    ensures r.None? ==> forall i :: from <= i < |ss| ==> ss[i].state != SIdle
    decreases |ss| - from
  {
    if from >= |ss| then None
    else if ss[from].state == SIdle then Some(from)
    else FreeSession(ss, from + 1)
  }

  function Tell(app: App, cause: Cause, slot: nat, number: nat, resource: nat): seq<Seen> {
    if app.answer == NoCallback then [] else [Called(cause, slot, number, resource)]
  }

  // ----- calls of the host

  function CreateSession(st: Stack, slot: nat, conn: nat, resource: nat): Outcome
    requires WellFormed(st)
  {
    var free := FreeSession(st.sessions, 1);
    if free.None? then Outcome(st, [], -1)
    else
      var n := free.value;
      var st1 := PutSession(st, n, Session(SInCreation, resource, slot % 0x100, conn));
      var (st2, sent) := TlSend(st1, slot % 0x100, conn,
                                [ST_CREATE_SESSION, 6] + ResourceBytes(resource) + NumberBytes(n));
      if sent then Outcome(st2, [], n) else Outcome(SetState(st2, n, SIdle), [], -1)
  }

  function DestroySession(st: Stack, n: nat): Outcome
    requires WellFormed(st)
  {
    if n >= |st.sessions| then Outcome(st, [], -1)
    else
      var s := st.sessions[n];
      if s.state != SActive && s.state != SInDeletion then Outcome(st, [], -1)
      else
        var (st1, sent) := TlSend(SetState(st, n, SInDeletion), s.slot, s.conn,
                                  [ST_CLOSE_SESSION_REQ, 2] + NumberBytes(n));
        if sent then Outcome(st1, [], 0) else Outcome(SetState(st1, n, SIdle), [], -1)
  }

  function SendApdu(st: Stack, n: nat, data: seq<byte>): Outcome
    requires WellFormed(st)
  {
    if n >= |st.sessions| || st.sessions[n].state != SActive then Outcome(st, [], -1)
    else
      var s := st.sessions[n];
      var (st1, sent) := TlSend(st, s.slot, s.conn, [ST_SESSION_NUMBER, 2] + NumberBytes(n) + data);
      Outcome(st1, [], if sent then 0 else -1)
  }

  const IOV_LIMIT: nat := 9

  function SendPieces(st: Stack, n: nat, pieces: seq<seq<byte>>): Outcome
    requires WellFormed(st)
  {
    if n < |st.sessions| && st.sessions[n].state == SActive && |pieces| > IOV_LIMIT then Outcome(st, [], -1)
    else SendApdu(st, n, Concat(pieces))
  }

  /** A session that a broadcast reaches; no slot means all slots. */
  predicate Hears(s: Session, slot: Option<nat>, resource: nat) {
    s.state == SActive && (slot == None || slot == Some(s.slot)) && s.resource == resource
  }

  function BroadcastFrom(st: Stack, slot: Option<nat>, resource: nat, data: seq<byte>, i: nat): (r: Stack)
    requires WellFormed(st) && i <= |st.sessions|
    ensures WellFormed(r) && r.sessions == st.sessions && |r.slots| == |st.slots|
    decreases |st.sessions| - i
  {
    if i == |st.sessions| then st
    else
      BroadcastFrom(if Hears(st.sessions[i], slot, resource) then SendApdu(st, i, data).stack else st,
                    slot, resource, data, i + 1)
  }

  // ----- session PDUs from the module; `d` is what follows the tag

  function OpenStatus(lookup: Option<int>): int {
    match lookup
    case None => S_STATUS_CLOSE_NO_RES
    case Some(status) =>
      if status == 0 then S_STATUS_OPEN
      else if status == -1 then S_STATUS_CLOSE_NO_RES
      else if status == -2 then S_STATUS_CLOSE_RES_LOW_VERSION
      else if status == -3 then S_STATUS_CLOSE_RES_UNAVAILABLE
      else status
  }

  function OpenResponse(st: Stack, slot: nat, conn: nat, status: int, resource: nat, number: int): (Stack, bool)
    requires WellFormed(st)
  {
    TlSend(st, slot, conn, [ST_OPEN_SESSION_RES, 7, status % 0x100] + ResourceBytes(resource) + NumberBytes(number))
  }

  function HandleOpenRequest(st: Stack, slot: nat, conn: nat, d: seq<byte>, app: App): Outcome
    requires WellFormed(st)
  {
    if |d| < 5 || d[0] != 4 then Outcome(st, [], 0)
    else
      var status := OpenStatus(app.lookup);
      var free := FreeSession(st.sessions, 1);
      if status != S_STATUS_OPEN then
        Outcome(OpenResponse(st, slot, conn, status, app.resource, -1).0, [], 0)
      else if free.None? then
        Outcome(OpenResponse(st, slot, conn, S_STATUS_CLOSE_NO_RES, app.resource, -1).0, [], 0)
      else
        var n := free.value;
        var st1 := PutSession(st, n, Session(SInCreation, app.resource, slot, conn));
        var connecting := Tell(app, CamConnecting, slot, n, app.resource);
        var verdict := match app.answer
          case NoCallback => S_STATUS_CLOSE_RES_UNAVAILABLE
          case Accepts => S_STATUS_OPEN
          case Refuses => S_STATUS_CLOSE_RES_BUSY;
        var (st2, sent) := OpenResponse(st1, slot, conn, verdict, app.resource, n);
        if sent && verdict == S_STATUS_OPEN then
          Outcome(SetState(st2, n, SActive), connecting + Tell(app, CamConnected, slot, n, app.resource), 0)
        else Outcome(SetState(st2, n, SIdle), connecting, 0)
  }

  /** The session belongs to the connection a PDU came in on. */
  predicate On(s: Session, slot: nat, conn: nat) {
    s.slot == slot && s.conn == conn
  }

  function HandleCloseRequest(st: Stack, slot: nat, conn: nat, d: seq<byte>, app: App): Outcome
    requires WellFormed(st)
  {
    if |d| < 3 || d[0] != 2 then Outcome(st, [], 0)
    else
      var n := Word(d[1], d[2]);
      if n < |st.sessions| && On(st.sessions[n], slot, conn)
         && (st.sessions[n].state == SActive || st.sessions[n].state == SInDeletion) then
        var (st1, _) := TlSend(SetState(st, n, SIdle), slot, conn, [ST_CLOSE_SESSION_RES, 3, 0] + NumberBytes(n));
        Outcome(st1, Tell(app, Close, slot, n, st.sessions[n].resource), 0)
      else Outcome(TlSend(st, slot, conn, [ST_CLOSE_SESSION_RES, 3, 0xf0] + NumberBytes(n)).0, [], 0)
  }

  /** The layout is the one the code reads: the number in bytes 5 and 6, the status in byte 1. */
  function HandleCreateResponse(st: Stack, slot: nat, conn: nat, d: seq<byte>, app: App): Outcome
    requires WellFormed(st)
  {
    if |d| < 8 || d[0] != 7 then Outcome(st, [], 0)
    else
      var n := Word(d[5], d[6]);
      if n >= |st.sessions| || !On(st.sessions[n], slot, conn) || st.sessions[n].state != SInCreation then
        Outcome(st, [], 0)
      else if d[1] != S_STATUS_OPEN then
        Outcome(SetState(st, n, SIdle), Tell(app, ConnectFail, slot, n, st.sessions[n].resource), 0)
      else Outcome(SetState(st, n, SActive), Tell(app, Connected, slot, n, st.sessions[n].resource), 0)
  }

  /** The layout is the one the code reads: the number in bytes 2 and 3; any status ends the session. */
  function HandleCloseResponse(st: Stack, slot: nat, conn: nat, d: seq<byte>): Outcome
    requires WellFormed(st)
  {
    if |d| < 5 || d[0] != 4 then Outcome(st, [], 0)
    else
      var n := Word(d[2], d[3]);
      if n >= |st.sessions| || !On(st.sessions[n], slot, conn) || st.sessions[n].state != SInDeletion then
        Outcome(st, [], 0)
      else Outcome(SetState(st, n, SIdle), [], 0)
  }

  function Apdus(slot: nat, n: nat, resource: nat, apdus: seq<seq<byte>>): (seen: seq<Seen>)
    ensures |seen| == |apdus|
    ensures forall i :: 0 <= i < |apdus| ==> seen[i] == Apdu(slot, n, resource, apdus[i])
  {
    seq(|apdus|, i requires 0 <= i < |apdus| => Apdu(slot, n, resource, apdus[i]))
  }

  function HandlePackage(st: Stack, slot: nat, conn: nat, d: seq<byte>): Outcome
    requires WellFormed(st)
  {
    if |d| < 3 || d[0] != 2 then Outcome(st, [], 0)
    else
      var n := Word(d[1], d[2]);
      if n >= |st.sessions| || !On(st.sessions[n], slot, conn) || st.sessions[n].state != SActive then
        Outcome(st, [], 0)
      else Outcome(st, Apdus(slot, n, st.sessions[n].resource, SplitApdus(d[3..]).0), 0)
  }

  // ----- reports of the transport layer

  /** Closing a connection ends the sessions of that connection number, whatever their slot. */
  predicate EndsOnClose(s: Session, conn: nat) {
    s.state != SIdle && s.conn == conn
  }

  predicate EndsOnSlotClose(s: Session, slot: nat) {
    s.state != SIdle && s.slot == slot
  }

  function EndAll(ss: seq<Session>, ends: Session -> bool): (r: seq<Session>)
    ensures |r| == |ss|
    ensures forall i :: 0 <= i < |ss| ==> r[i] == if ends(ss[i]) then ss[i].(state := SIdle) else ss[i]
  {
    seq(|ss|, i requires 0 <= i < |ss| => if ends(ss[i]) then ss[i].(state := SIdle) else ss[i])
  }

  function CloseReports(ss: seq<Session>, ends: Session -> bool, i: nat): seq<Seen>
    requires i <= |ss|
    decreases |ss| - i
  {
    if i == |ss| then []
    else
      (if ends(ss[i]) then [Called(Close, ss[i].slot, i, ss[i].resource)] else []) + CloseReports(ss, ends, i + 1)
  }

  function EndSessions(st: Stack, ends: Session -> bool, app: App): Outcome {
    Outcome(st.(sessions := EndAll(st.sessions, ends)),
            if app.answer == NoCallback then [] else CloseReports(st.sessions, ends, 0), 0)
  }

  function HandleData(st: Stack, slot: nat, conn: nat, data: seq<byte>, app: App): Outcome
    requires WellFormed(st)
  {
    if |data| < 1 then Outcome(st, [], 0)
    else
      var (tag, d) := (data[0], data[1..]);
      if tag == ST_OPEN_SESSION_REQ then HandleOpenRequest(st, slot, conn, d, app)
      else if tag == ST_CLOSE_SESSION_REQ then HandleCloseRequest(st, slot, conn, d, app)
      else if tag == ST_SESSION_NUMBER then HandlePackage(st, slot, conn, d)
      else if tag == ST_CREATE_SESSION_RES then HandleCreateResponse(st, slot, conn, d, app)
      else if tag == ST_CLOSE_SESSION_RES then HandleCloseResponse(st, slot, conn, d)
      else Outcome(st, [], 0)
  }

  /** `en50221_sl_transport_callback`. */
  function OnNotify(st: Stack, slot: nat, e: Event, app: App): Outcome
    requires WellFormed(st) && e.Notify?
  {
    match e.reason
    case Data => HandleData(st, slot, e.conn, e.data, app)
    case ConnectionOpen => Outcome(st, Tell(app, TcConnect, slot, e.conn, 0), 0)
    case CamConnectionOpen => Outcome(st, Tell(app, TcCamConnect, slot, e.conn, 0), 0)
    case ConnectionClose => EndSessions(st, s => EndsOnClose(s, e.conn), app)
    case SlotClose => EndSessions(st, s => EndsOnSlotClose(s, slot), app)
  }

  // ----- steps of the whole stack

  datatype StackStep =
    | OnSlot(slot: nat, step: Step, app: App)
    | Create(slotId: nat, conn: nat, resource: nat)
    | Destroy(number: nat)
    | Send(number: nat, apdu: seq<byte>)
    | SendVector(number: nat, pieces: seq<seq<byte>>)
    | Broadcast(to: Option<nat>, resource: nat, apdu: seq<byte>)

  /** The reports among the events of a transport step; there is at most one, and it comes last. */
  function Report(events: seq<Event>): Option<Event> {
    if events != [] && events[|events| - 1].Notify? then Some(events[|events| - 1]) else None
  }

  function TakeOnSlot(st: Stack, slot: nat, step: Step, app: App): Outcome
    requires WellFormed(st) && slot < |st.slots|
  {
    var r := Take(st.slots[slot], step);
    var st1 := st.(slots := st.slots[slot := r.slot]);
    var report := Report(r.events);
    if report.None? then Outcome(st1, [], 0) else OnNotify(st1, slot, report.value, app)
  }

  function TakeStack(st: Stack, step: StackStep): Outcome
    requires WellFormed(st)
  {
    match step
    case OnSlot(slot, step, app) =>
      if slot < |st.slots| then TakeOnSlot(st, slot, step, app) else Outcome(st, [], 0)
    case Create(slot, conn, resource) => CreateSession(st, slot, conn, resource)
    case Destroy(n) => DestroySession(st, n)
    case Send(n, apdu) => SendApdu(st, n, apdu)
    case SendVector(n, pieces) => SendPieces(st, n, pieces)
    case Broadcast(slot, resource, apdu) => Outcome(BroadcastFrom(st, slot, resource, apdu, 0), [], 0)
  }
}
