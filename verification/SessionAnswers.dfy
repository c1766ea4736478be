/**
 What moves a session, what the application hears of it, and what the module is answered: exact laws over the steps of
 the whole stack, in terms of the session PDUs that the transport layer delivers, byte by byte. The layouts are those
 that lib/libdvben50221/en50221_session.c reads and writes.
 */
module SessionAnswers {
  import opened Bytes
  import opened Framing
  import opened Transport
  import opened TransportAnswers
  import opened TransportRuns
  import opened Sessions
  import opened SessionRuns
  import opened Wrappers

  // ----- what a step brings

  /** What the transport layer reports in the step, if anything. */
  function Reported(st: Stack, step: StackStep): (e: Option<Event>)
    requires WellFormed(st)
    ensures e.Some? ==> e.value.Notify? && step.OnSlot?
  {
    if step.OnSlot? && step.slot < |st.slots| then Report(Take(st.slots[step.slot], step.step).events) else None
  }

  /** It is the one report among the events, whose causes are those of `DataReportedIff` and its siblings. */
  lemma ReportedIff(st: Stack, slot: nat, step: Step, app: App, e: Event)
    requires WellFormed(st) && slot < |st.slots|
    ensures Reported(st, OnSlot(slot, step, app)) == Some(e) <==> e in Take(st.slots[slot], step).events && e.Notify?
  {
    hide Take;
    var events := Take(st.slots[slot], step).events;
    if e in events && e.Notify? {
      var i :| 0 <= i < |events| && events[i] == e;
      ReportsKnown(st.slots[slot], step, i);
    }
  }

  /** The stack with a message of the session layer queued on a connection. */
  function Queued(st: Stack, slot: nat, conn: nat, data: seq<byte>): Stack
    requires Up(st.slots, slot, conn) && conn < 256
  {
    var (s, c) := (st.slots[slot], st.slots[slot].conns[conn]);
    st.(slots := st.slots[slot := s.(conns := s.conns[conn := c.(queue := c.queue + [Frame(Tpdu(0xa0, conn, data))])])])
  }

  lemma TlSendIs(st: Stack, slot: nat, conn: nat, data: seq<byte>)
    requires WellFormed(st)
    ensures Up(st.slots, slot, conn) ==> TlSend(st, slot, conn, data) == (Queued(st, slot, conn, data), true)
    ensures !Up(st.slots, slot, conn) ==> TlSend(st, slot, conn, data) == (st, false)
  {
    hide Frame;
    if slot < |st.slots| && !Up(st.slots, slot, conn) {
      assert st.slots[slot := st.slots[slot]] == st.slots;
    }
  }

  // ----- the moves of a session

  predicate FirstFree(ss: seq<Session>, n: nat) {
    1 <= n < |ss| && ss[n].state == SIdle && forall i :: 1 <= i < n ==> ss[i].state != SIdle
  }

  predicate NoneFree(ss: seq<Session>) {
    forall i :: 1 <= i < |ss| ==> ss[i].state != SIdle
  }

  lemma FreeIsFirst(ss: seq<Session>)
    ensures match FreeSession(ss, 1)
      case None => NoneFree(ss) && forall n :: !FirstFree(ss, n)
      case Some(n) => FirstFree(ss, n) && !NoneFree(ss) && forall m :: FirstFree(ss, m) ==> m == n
  {
  }

  /** Data with this tag, this length byte, and at least this size. */
  predicate Pdu(e: Event, tag: int, length: int, size: nat)
    requires size >= 2
  {
    e.Notify? && e.reason == Data && |e.data| >= size && e.data[0] == tag && e.data[1] == length
  }

  /** The two bytes from `at` on name a session. */
  predicate Names(e: Event, at: nat, n: nat) {
    e.Notify? && at + 2 <= |e.data| && (e.data[at] as int) * 256 + e.data[at + 1] == n
  }

  predicate CreateResponse(e: Event, n: nat, granted: bool) {
    Pdu(e, 0x94, 7, 9) && Names(e, 6, n) && (e.data[2] == 0) == granted
  }

  predicate CloseRequest(e: Event, n: nat) {
    Pdu(e, 0x95, 2, 4) && Names(e, 2, n)
  }

  predicate CloseResponse(e: Event, n: nat) {
    Pdu(e, 0x96, 4, 6) && Names(e, 3, n)
  }

  predicate OpenRequest(e: Event) {
    Pdu(e, 0x91, 4, 6)
  }

  /** The report is on the session's own connection. */
  predicate OnItsOwn(s: Session, slot: nat, e: Event) {
    e.Notify? && s.slot == slot && s.conn == e.conn
  }

  /** The connection number of the session is closed, on whatever slot, or its slot is. */
  predicate Ends(s: Session, slot: nat, e: Event) {
    e.Notify? && ((e.reason == ConnectionClose && e.conn == s.conn) || (e.reason == SlotClose && slot == s.slot))
  }

  /** What a report makes of session `n`. */
  ghost predicate Turned(ss: seq<Session>, slot: nat, e: Event, app: App, n: nat, s': Session)
    requires n < |ss| && e.Notify?
  {
    var s := ss[n];
    match s.state
    case SIdle =>
      s' == if OpenRequest(e) && FirstFree(ss, n) && app.lookup == Some(0) then
              Session(if app.answer == Accepts then SActive else SIdle, app.resource, slot, e.conn)
            else s
    case SInCreation =>
      s' == if OnItsOwn(s, slot, e) && CreateResponse(e, n, true) then s.(state := SActive)
            else if (OnItsOwn(s, slot, e) && CreateResponse(e, n, false)) || Ends(s, slot, e) then s.(state := SIdle)
            else s
    case SActive =>
      s' == if (OnItsOwn(s, slot, e) && CloseRequest(e, n)) || Ends(s, slot, e) then s.(state := SIdle) else s
    case SInDeletion =>
      s' == if (OnItsOwn(s, slot, e) && (CloseRequest(e, n) || CloseResponse(e, n))) || Ends(s, slot, e) then s.(state := SIdle)
            else s
  }

  /** Data comes only on connections that carry data. */
  predicate Sane(st: Stack, slot: nat, e: Event) {
    WellFormed(st) && e.Notify? && (e.reason == Data ==> Up(st.slots, slot, e.conn))
  }

  lemma SendsAre(st: Stack, slot: nat, conn: nat)
    requires WellFormed(st) && Up(st.slots, slot, conn)
    ensures forall d: seq<byte>, ss: seq<Session> :: |ss| == |st.sessions| ==>
      TlSend(st.(sessions := ss), slot, conn, d) == (Queued(st.(sessions := ss), slot, conn, d), true)
  {
    forall d: seq<byte>, ss: seq<Session> | |ss| == |st.sessions|
      ensures TlSend(st.(sessions := ss), slot, conn, d) == (Queued(st.(sessions := ss), slot, conn, d), true)
    {
      TlSendIs(st.(sessions := ss), slot, conn, d);
    }
  }

  lemma OpenTurns(st: Stack, slot: nat, e: Event, app: App, n: nat)
    requires Sane(st, slot, e) && n < |st.sessions| && e.reason == Data && OpenRequest(e)
    ensures var o := OnNotify(st, slot, e, app);
      |o.stack.sessions| == |st.sessions| && Turned(st.sessions, slot, e, app, n, o.stack.sessions[n])
  {
    FreeIsFirst(st.sessions);
    SendsAre(st, slot, e.conn);
    hide FirstFree, NoneFree, FreeSession, Frame, TlSend;
  }

  lemma CloseTurns(st: Stack, slot: nat, e: Event, app: App, n: nat)
    requires Sane(st, slot, e) && n < |st.sessions| && Pdu(e, 0x95, 2, 4)
    ensures var o := OnNotify(st, slot, e, app);
      |o.stack.sessions| == |st.sessions| && Turned(st.sessions, slot, e, app, n, o.stack.sessions[n])
  {
    SendsAre(st, slot, e.conn);
    hide FirstFree, Frame, TlSend, HandleOpenRequest, HandlePackage, HandleCreateResponse, HandleCloseResponse;
  }

  lemma OtherTurns(st: Stack, slot: nat, e: Event, app: App, n: nat)
    requires Sane(st, slot, e) && n < |st.sessions| && !OpenRequest(e) && !Pdu(e, 0x95, 2, 4)
    ensures var o := OnNotify(st, slot, e, app);
      |o.stack.sessions| == |st.sessions| && Turned(st.sessions, slot, e, app, n, o.stack.sessions[n])
  {
    hide FirstFree, Frame, TlSend, SplitApdus, CloseReports;
  }

  /** A report moves a session exactly as `Turned` says. */
  lemma ReportTurns(st: Stack, slot: nat, e: Event, app: App, n: nat)
    requires Sane(st, slot, e) && n < |st.sessions|
    ensures var o := OnNotify(st, slot, e, app);
      |o.stack.sessions| == |st.sessions| && Turned(st.sessions, slot, e, app, n, o.stack.sessions[n])
  {
    hide Turned, OnNotify;
    if OpenRequest(e) {
      OpenTurns(st, slot, e, app, n);
    } else if Pdu(e, 0x95, 2, 4) {
      CloseTurns(st, slot, e, app, n);
    } else {
      OtherTurns(st, slot, e, app, n);
    }
  }

  /** What a call of the host makes of session `n`. */
  predicate Moved(st: Stack, step: StackStep, n: nat, s': Session)
    requires n < |st.sessions|
  {
    var s := st.sessions[n];
    if step.Create? && FirstFree(st.sessions, n) then
      s' == Session(if Up(st.slots, step.slotId % 256, step.conn) then SInCreation else SIdle,
                    step.resource, step.slotId % 256, step.conn)
    else if step == Destroy(n) && (s.state == SActive || s.state == SInDeletion) then
      s' == s.(state := if Up(st.slots, s.slot, s.conn) then SInDeletion else SIdle)
    else s' == s
  }

  lemma CallTurns(st: Stack, step: StackStep, n: nat)
    requires WellFormed(st) && n < |st.sessions| && !step.OnSlot?
    ensures |TakeStack(st, step).stack.sessions| == |st.sessions|
    ensures Moved(st, step, n, TakeStack(st, step).stack.sessions[n])
  {
    FreeIsFirst(st.sessions);
    hide FirstFree, NoneFree, FreeSession, Frame, TlSend;
    match step
    case Create(slot, conn, resource) =>
      var free := FreeSession(st.sessions, 1);
      if free.Some? {
        var st1 := PutSession(st, free.value, Session(SInCreation, resource, slot % 0x100, conn));
        TlSendIs(st1, slot % 0x100, conn, [ST_CREATE_SESSION, 6] + ResourceBytes(resource) + NumberBytes(free.value));
      }
    case Destroy(m) =>
      if m < |st.sessions| {
        var s := st.sessions[m];
        TlSendIs(SetState(st, m, SInDeletion), s.slot, s.conn, [ST_CLOSE_SESSION_REQ, 2] + NumberBytes(m));
      }
    case Send(m, apdu) => SendKeeps(st, m, apdu);
    case SendVector(m, pieces) => SendKeeps(st, m, Concat(pieces));
    case Broadcast(_, _, _) =>
  }

  /** The stack once the transport layer has taken the step. */
  function Below(st: Stack, slot: nat, step: Step): Stack
    requires WellFormed(st) && slot < |st.slots|
  {
    st.(slots := st.slots[slot := Take(st.slots[slot], step).slot])
  }

  lemma DataStaysUp(s: Slot, step: Step, e: Event)
    requires |s.conns| < 256 && e in Take(s, step).events && e.Notify? && e.reason == Data
    ensures var s' := Take(s, step).slot; s'.open && e.conn < |s'.conns| && s'.conns[e.conn].state == Active
  {
    EventsAre(s, step);
    if step.Incoming? && s.open {
      assert step.t.tag == 0xa0;
      hide CreateTcReply, DeleteTc, DeleteTcReply, RequestTc, DataMore, Status;
    }
  }

  /** What the session layer does with a report. */
  lemma OnReport(st: Stack, step: StackStep)
    requires WellFormed(st) && Reported(st, step).Some?
    ensures
      var (e, below) := (Reported(st, step).value, Below(st, step.slot, step.step));
      && e.Notify? && Sane(below, step.slot, e) && below.sessions == st.sessions
      && TakeStack(st, step) == OnNotify(below, step.slot, e, step.app)
  {
    hide Take, OnNotify;
    var e := Reported(st, step).value;
    ReportedIff(st, step.slot, step.step, step.app, e);
    if e.reason == Data {
      DataStaysUp(st.slots[step.slot], step.step, e);
    }
  }

  /** Every step comes down to a report, a call of the host, or nothing. */
  lemma StepTurns(st: Stack, step: StackStep, n: nat)
    requires WellFormed(st) && n < |st.sessions|
    ensures |TakeStack(st, step).stack.sessions| == |st.sessions|
    ensures
      var (e, s') := (Reported(st, step), TakeStack(st, step).stack.sessions[n]);
      if e.Some? then Turned(st.sessions, step.slot, e.value, step.app, n, s')
      else if step.OnSlot? then s' == st.sessions[n]
      else Moved(st, step, n, s')
  {
    hide Take, Turned, Moved, OnNotify;
    if !step.OnSlot? {
      CallTurns(st, step, n);
    } else if Reported(st, step).Some? {
      OnReport(st, step);
      ReportTurns(Below(st, step.slot, step.step), step.slot, Reported(st, step).value, step.app, n);
    }
  }

  // ----- what the application hears

  /** The report makes the application's session callback be called with this cause about session `n`. */
  ghost predicate Tells(ss: seq<Session>, slot: nat, e: Event, app: App, cause: Cause, sl: nat, n: nat, resource: nat)
    requires e.Notify?
  {
    app.answer != NoCallback &&
    match cause
    case CamConnecting =>
      OpenRequest(e) && app.lookup == Some(0) && FirstFree(ss, n) && sl == slot && resource == app.resource
    case CamConnected =>
      && OpenRequest(e) && app.lookup == Some(0) && FirstFree(ss, n) && sl == slot && resource == app.resource
      && app.answer == Accepts
    case Connected =>
      && n < |ss| && ss[n].state == SInCreation && OnItsOwn(ss[n], slot, e) && CreateResponse(e, n, true)
      && sl == slot && resource == ss[n].resource
    case ConnectFail =>
      && n < |ss| && ss[n].state == SInCreation && OnItsOwn(ss[n], slot, e) && CreateResponse(e, n, false)
      && sl == slot && resource == ss[n].resource
    case Close =>
      && n < |ss| && sl == ss[n].slot && resource == ss[n].resource
      && ((ss[n].state in {SActive, SInDeletion} && OnItsOwn(ss[n], slot, e) && CloseRequest(e, n))
          || (ss[n].state != SIdle && Ends(ss[n], slot, e)))
    case TcConnect => e.reason == ConnectionOpen && sl == slot && n == e.conn && resource == 0
    case TcCamConnect => e.reason == CamConnectionOpen && sl == slot && n == e.conn && resource == 0
  }

  lemma OpenTells(st: Stack, slot: nat, e: Event, app: App, cause: Cause, sl: nat, n: nat, resource: nat)
    requires Sane(st, slot, e) && OpenRequest(e)
    ensures Called(cause, sl, n, resource) in OnNotify(st, slot, e, app).seen
       <==> Tells(st.sessions, slot, e, app, cause, sl, n, resource)
  {
    FreeIsFirst(st.sessions);
    SendsAre(st, slot, e.conn);
    hide FirstFree, NoneFree, FreeSession, Frame, TlSend;
  }

  lemma EndTells(st: Stack, slot: nat, e: Event, app: App, cause: Cause, sl: nat, n: nat, resource: nat)
    requires Sane(st, slot, e) && (e.reason == ConnectionClose || e.reason == SlotClose)
    ensures Called(cause, sl, n, resource) in OnNotify(st, slot, e, app).seen
       <==> Tells(st.sessions, slot, e, app, cause, sl, n, resource)
  {
    var ends: Session -> bool :=
      if e.reason == ConnectionClose then s => EndsOnClose(s, e.conn) else s => EndsOnSlotClose(s, slot);
    var seen := CloseReports(st.sessions, ends, 0);
    CloseReportsExact(st.sessions, ends, 0);
    hide CloseReports;
    var o := OnNotify(st, slot, e, app);
    assert o.seen == if app.answer == NoCallback then [] else seen;
    if Called(cause, sl, n, resource) in seen {
      var k :| 0 <= k < |seen| && seen[k] == Called(cause, sl, n, resource);
      assert ReportsEnd(st.sessions, ends, seen[k]);
    }
    if Tells(st.sessions, slot, e, app, cause, sl, n, resource) {
      CloseReportsAll(st.sessions, ends, 0, n);
    }
  }

  lemma OtherTells(st: Stack, slot: nat, e: Event, app: App, cause: Cause, sl: nat, n: nat, resource: nat)
    requires Sane(st, slot, e) && e.reason != ConnectionClose && e.reason != SlotClose && !OpenRequest(e)
    ensures Called(cause, sl, n, resource) in OnNotify(st, slot, e, app).seen
       <==> Tells(st.sessions, slot, e, app, cause, sl, n, resource)
  {
    hide FirstFree, Frame, TlSend, SplitApdus;
  }

  /** Of every step: the callback is called for these reasons and no others. */
  lemma CalledIff(st: Stack, step: StackStep, cause: Cause, sl: nat, n: nat, resource: nat)
    requires WellFormed(st)
    ensures Called(cause, sl, n, resource) in TakeStack(st, step).seen <==>
      var e := Reported(st, step);
      e.Some? && e.value.Notify? && Tells(st.sessions, step.slot, e.value, step.app, cause, sl, n, resource)
  {
    hide Take, Tells, OnNotify;
    if Reported(st, step).Some? {
      OnReport(st, step);
      var (e, below) := (Reported(st, step).value, Below(st, step.slot, step.step));
      if OpenRequest(e) {
        OpenTells(below, step.slot, e, step.app, cause, sl, n, resource);
      } else if e.reason == ConnectionClose || e.reason == SlotClose {
        EndTells(below, step.slot, e, step.app, cause, sl, n, resource);
      } else {
        OtherTells(below, step.slot, e, step.app, cause, sl, n, resource);
      }
    }
  }

  /** The module opens a session: the application is asked, and then told, in this order. */
  lemma OpenOrder(st: Stack, slot: nat, e: Event, app: App, n: nat)
    requires Sane(st, slot, e) && OpenRequest(e) && app.lookup == Some(0) && FirstFree(st.sessions, n)
    ensures OnNotify(st, slot, e, app).seen ==
      match app.answer
      case NoCallback => []
      case Refuses => [Called(CamConnecting, slot, n, app.resource)]
      case Accepts => [Called(CamConnecting, slot, n, app.resource), Called(CamConnected, slot, n, app.resource)]
  {
    FreeIsFirst(st.sessions);
    SendsAre(st, slot, e.conn);
    hide FirstFree, NoneFree, FreeSession, Frame, TlSend;
  }

  /** Session data: the PDU carries APDUs for session `n`, which is active on the connection that it came on. */
  predicate Package(ss: seq<Session>, slot: nat, e: Event, n: nat) {
    Pdu(e, 0x90, 2, 4) && Names(e, 2, n) && n < |ss| && ss[n].state == SActive && OnItsOwn(ss[n], slot, e)
  }

  /**
   Its APDUs are delivered, all of the longest well-formed run at the front, in order and to the session's resource.
   */
  lemma PackageDelivers(st: Stack, step: StackStep, n: nat)
    requires WellFormed(st) && Reported(st, step).Some?
    requires Package(st.sessions, step.slot, Reported(st, step).value, n)
    ensures
      var (data, seen) := (Reported(st, step).value.data[4..], TakeStack(st, step).seen);
      var (apdus, all) := SplitApdus(data);
      && LongestRun(data, apdus, all) && |seen| == |apdus|
      && forall i :: 0 <= i < |seen| ==> seen[i] == Apdu(step.slot, n, st.sessions[n].resource, apdus[i])
  {
    OnReport(st, step);
    var e := Reported(st, step).value;
    SplitMaximal(e.data[4..]);
    assert e.data[1..][3..] == e.data[4..];
    hide Take, SplitApdus, LongestRun, Reported, Below, Frame;
  }

  /** No APDU is delivered for any other reason. */
  lemma ApdusOnlyOf(st: Stack, step: StackStep, a: Seen)
    requires WellFormed(st) && a.Apdu? && a in TakeStack(st, step).seen
    ensures Reported(st, step).Some? && Package(st.sessions, step.slot, Reported(st, step).value, a.number)
  {
    if Reported(st, step).Some? {
      OnReport(st, step);
      hide Take, Reported, Below;
      ApdusOf(Below(st, step.slot, step.step), step.slot, Reported(st, step).value, step.app, a);
    }
  }

  lemma ApdusOf(st: Stack, slot: nat, e: Event, app: App, a: Seen)
    requires Sane(st, slot, e) && a.Apdu? && a in OnNotify(st, slot, e, app).seen
    ensures Package(st.sessions, slot, e, a.number)
  {
    if e.reason == ConnectionClose {
      OnlyCalls(st.sessions, s => EndsOnClose(s, e.conn));
    } else if e.reason == SlotClose {
      OnlyCalls(st.sessions, s => EndsOnSlotClose(s, slot));
    }
    hide FirstFree, Frame, TlSend, SplitApdus, CloseReports;
  }

  lemma OnlyCalls(ss: seq<Session>, ends: Session -> bool)
    ensures forall a :: a in CloseReports(ss, ends, 0) ==> !a.Apdu?
  {
    var seen := CloseReports(ss, ends, 0);
    CloseReportsExact(ss, ends, 0);
    forall k | 0 <= k < |seen|
      ensures !seen[k].Apdu?
    {
      assert ReportsEnd(ss, ends, seen[k]);
    }
  }

  // ----- what the module is answered

  /** A session number and a resource as they are sent, high byte first. */
  function Number(n: int): seq<byte> {
    [(n / 256) % 256, n % 256]
  }

  function Resource(r: nat): seq<byte> {
    [(r / 16777216) % 256, (r / 65536) % 256, (r / 256) % 256, r % 256]
  }

  /** The status of an open response, and the session number in it; 0xffff stands for none. */
  predicate OpenAnswer(ss: seq<Session>, app: App, status: int, number: int) {
    if app.lookup != Some(0) then
      && number == 0xffff
      && status == (if app.lookup == None || app.lookup == Some(-1) then 0xf0
                    else if app.lookup == Some(-2) then 0xf2
                    else if app.lookup == Some(-3) then 0xf1
                    else app.lookup.value % 256)
    else if NoneFree(ss) then number == 0xffff && status == 0xf0
    else
      && number >= 0 && FirstFree(ss, number)
      && status == match app.answer { case NoCallback => 0xf1 case Accepts => 0x00 case Refuses => 0xf3 }
  }

  /** An open request is answered on its connection with tag, length, status, resource and session number. */
  lemma OpenAnswered(st: Stack, slot: nat, e: Event, app: App, status: int, number: int)
    requires Sane(st, slot, e) && OpenRequest(e) && OpenAnswer(st.sessions, app, status, number)
    ensures e.conn < 256 && status % 256 == status
    ensures OnNotify(st, slot, e, app).stack.slots
         == Queued(st, slot, e.conn, [0x92, 7, status] + Resource(app.resource) + Number(number)).slots
  {
    FreeIsFirst(st.sessions);
    SendsAre(st, slot, e.conn);
    hide FirstFree, NoneFree, FreeSession, Frame, TlSend;
  }

  /** Some answer there always is. */
  lemma OpenAnswerExists(ss: seq<Session>, app: App)
    ensures exists status, number :: OpenAnswer(ss, app, status, number)
  {
    FreeIsFirst(ss);
    var number := if app.lookup == Some(0) && FreeSession(ss, 1).Some? then FreeSession(ss, 1).value else 0xffff;
    var status :=
      match app.lookup {
        case None => 0xf0
        case Some(v) =>
          if v == 0 then
            if FreeSession(ss, 1).None? then 0xf0
            else match app.answer { case NoCallback => 0xf1 case Accepts => 0x00 case Refuses => 0xf3 }
          else if v == -1 then 0xf0 else if v == -2 then 0xf2 else if v == -3 then 0xf1 else v % 256
      };
    hide FirstFree, NoneFree, FreeSession;
    assert OpenAnswer(ss, app, status, number);
  }

  /** A close request is answered with the number it names, and status 0 if and only if it ends that session. */
  lemma CloseAnswered(st: Stack, slot: nat, e: Event, app: App, n: nat)
    requires Sane(st, slot, e) && CloseRequest(e, n)
    ensures
      var ends := n < |st.sessions| && st.sessions[n].state in {SActive, SInDeletion} && OnItsOwn(st.sessions[n], slot, e);
      && e.conn < 256
      && OnNotify(st, slot, e, app).stack.slots
      == Queued(st, slot, e.conn, [0x96, 3, if ends then 0 else 0xf0, e.data[2], e.data[3]]).slots
  {
    SendsAre(st, slot, e.conn);
    assert st.(sessions := st.sessions) == st;
    var d := e.data[1..];
    assert Word(d[1], d[2]) == n && NumberBytes(n) == [e.data[2], e.data[3]];
    assert [0x96, 3, 0] + NumberBytes(n) == [0x96, 3, 0, e.data[2], e.data[3]];
    assert [0x96, 3, 0xf0] + NumberBytes(n) == [0x96, 3, 0xf0, e.data[2], e.data[3]];
    hide Frame, TlSend, HandleOpenRequest, HandlePackage, HandleCreateResponse, HandleCloseResponse;
  }

  /** Nothing else that is reported is answered. */
  lemma OthersUnanswered(st: Stack, slot: nat, e: Event, app: App)
    requires Sane(st, slot, e) && !OpenRequest(e) && !Pdu(e, 0x95, 2, 4)
    ensures OnNotify(st, slot, e, app).stack.slots == st.slots
  {
    hide Frame, TlSend, SplitApdus, CloseReports;
  }

  // ----- what the calls of the host queue

  /** A call on session `n` queues its PDU on the connection of the session, if that carries data, or nothing. */
  predicate QueuesOn(st: Stack, slots: seq<Slot>, slot: nat, conn: nat, pdu: seq<byte>) {
    slots == if Up(st.slots, slot, conn) && conn < 256 then Queued(st, slot, conn, pdu).slots else st.slots
  }

  /** Creating a session sends a create request with the resource and the number of the first free session. */
  lemma CreateQueues(st: Stack, slotId: nat, conn: nat, resource: nat)
    requires WellFormed(st)
    ensures
      var o := TakeStack(st, Create(slotId, conn, resource));
      && (NoneFree(st.sessions) ==> o.value == -1 && o.stack == st)
      && (forall n: nat :: FirstFree(st.sessions, n) ==>
            && QueuesOn(st, o.stack.slots, slotId % 256, conn, [0x93, 6] + Resource(resource) + Number(n))
            && o.value == if Up(st.slots, slotId % 256, conn) then n else -1)
  {
    FreeIsFirst(st.sessions);
    var free := FreeSession(st.sessions, 1);
    if free.Some? {
      var st1 := PutSession(st, free.value, Session(SInCreation, resource, slotId % 0x100, conn));
      TlSendIs(st1, slotId % 0x100, conn, [ST_CREATE_SESSION, 6] + ResourceBytes(resource) + NumberBytes(free.value));
    }
    hide FirstFree, NoneFree, FreeSession, Frame, TlSend;
  }

  /** Destroying one sends a close request, also if it is in deletion already. */
  lemma DestroyQueues(st: Stack, n: nat)
    requires WellFormed(st)
    ensures
      var o := TakeStack(st, Destroy(n));
      if n < |st.sessions| && st.sessions[n].state in {SActive, SInDeletion} then
        && QueuesOn(st, o.stack.slots, st.sessions[n].slot, st.sessions[n].conn, [0x95, 2] + Number(n))
        && o.value == if Up(st.slots, st.sessions[n].slot, st.sessions[n].conn) then 0 else -1
      else o.value == -1 && o.stack == st
  {
    if n < |st.sessions| {
      var s := st.sessions[n];
      TlSendIs(SetState(st, n, SInDeletion), s.slot, s.conn, [ST_CLOSE_SESSION_REQ, 2] + NumberBytes(n));
    }
    hide Frame, TlSend;
  }

  /** Sending puts a session header in front of the APDU. */
  lemma SendQueues(st: Stack, n: nat, apdu: seq<byte>)
    requires WellFormed(st)
    ensures
      var o := TakeStack(st, Send(n, apdu));
      && o.stack.sessions == st.sessions
      && if n < |st.sessions| && st.sessions[n].state == SActive then
           && QueuesOn(st, o.stack.slots, st.sessions[n].slot, st.sessions[n].conn, [0x90, 2] + Number(n) + apdu)
           && o.value == if Up(st.slots, st.sessions[n].slot, st.sessions[n].conn) then 0 else -1
         else o.value == -1 && o.stack == st
  {
    if n < |st.sessions| {
      var s := st.sessions[n];
      TlSendIs(st, s.slot, s.conn, [ST_SESSION_NUMBER, 2] + NumberBytes(n) + apdu);
    }
    hide Frame, TlSend;
  }

  /** At most nine pieces are sent, as one APDU. */
  lemma PiecesQueue(st: Stack, n: nat, pieces: seq<seq<byte>>)
    requires WellFormed(st)
    ensures |pieces| <= 9 ==> TakeStack(st, SendVector(n, pieces)) == TakeStack(st, Send(n, Concat(pieces)))
    ensures |pieces| > 9 ==> TakeStack(st, SendVector(n, pieces)) == Outcome(st, [], -1)
  {
    hide Frame, TlSend, Concat;
  }

  /** The message of a broadcast for session `i`, if it is active on this connection and has the resource. */
  function MessageOn(s: Session, i: nat, to: Option<nat>, resource: nat, apdu: seq<byte>, slot: nat, conn: byte): seq<seq<byte>> {
    if s.state == SActive && s.resource == resource && s.slot == slot && s.conn == conn && (to == None || to == Some(slot))
    then [Frame(Tpdu(0xa0, conn, [0x90, 2] + Number(i) + apdu))] else []
  }

  /** The messages of a broadcast on one connection, in the order of the sessions. */
  function BroadcastOn(ss: seq<Session>, to: Option<nat>, resource: nat, apdu: seq<byte>, slot: nat, conn: byte, i: nat): seq<seq<byte>>
    requires i <= |ss|
    decreases |ss| - i
  {
    if i == |ss| then []
    else MessageOn(ss[i], i, to, resource, apdu, slot, conn) + BroadcastOn(ss, to, resource, apdu, slot, conn, i + 1)
  }

  /** What a connection gets if it carries data. */
  function Due(up: bool, msgs: seq<seq<byte>>): seq<seq<byte>> {
    if up then msgs else []
  }

  /** The same connections in the same states. */
  ghost predicate SameStates(st: Stack, st': Stack) {
    && st'.sessions == st.sessions && |st'.slots| == |st.slots|
    && forall a :: 0 <= a < |st.slots| ==>
         && st'.slots[a].open == st.slots[a].open && |st'.slots[a].conns| == |st.slots[a].conns|
         && forall b :: 0 <= b < |st.slots[a].conns| ==> st'.slots[a].conns[b].state == st.slots[a].conns[b].state
  }

  function QueueOf(st: Stack, slot: nat, conn: nat): seq<seq<byte>>
    requires slot < |st.slots| && conn < |st.slots[slot].conns|
  {
    st.slots[slot].conns[conn].queue
  }

  /** These messages and no others have been queued on the connection. */
  ghost predicate Reaches(st: Stack, st': Stack, slot: nat, conn: byte, msgs: seq<seq<byte>>)
    requires slot < |st.slots| && conn < |st.slots[slot].conns|
  {
    SameStates(st, st') && QueueOf(st', slot, conn) == QueueOf(st, slot, conn) + msgs
  }

  lemma ReachesMore(st: Stack, mid: Stack, st': Stack, slot: nat, conn: byte, a: seq<seq<byte>>, b: seq<seq<byte>>)
    requires slot < |st.slots| && conn < |st.slots[slot].conns| && Reaches(st, mid, slot, conn, a)
    requires Reaches(mid, st', slot, conn, b)
    ensures Reaches(st, st', slot, conn, a + b)
  {
  }

  lemma ReachesNothing(st: Stack, slot: nat, conn: byte)
    requires slot < |st.slots| && conn < |st.slots[slot].conns|
    ensures Reaches(st, st, slot, conn, [])
  {
  }

  lemma SendReaches(st: Stack, i: nat, to: Option<nat>, resource: nat, apdu: seq<byte>, slot: nat, conn: byte)
    requires WellFormed(st) && i < |st.sessions| && slot < |st.slots| && conn < |st.slots[slot].conns|
    requires st.sessions[i].state == SActive && st.sessions[i].resource == resource
    requires to == None || to == Some(st.sessions[i].slot)
    ensures
      var st' := SendApdu(st, i, apdu).stack;
      && |st'.slots| == |st.slots| && |st'.slots[slot].conns| == |st.slots[slot].conns|
      && (Up(st'.slots, slot, conn) <==> Up(st.slots, slot, conn))
      && Reaches(st, st', slot, conn,
                 Due(Up(st.slots, slot, conn), MessageOn(st.sessions[i], i, to, resource, apdu, slot, conn)))
  {
    SendQueues(st, i, apdu);
    hide Frame, SendApdu;
    assert SendApdu(st, i, apdu) == TakeStack(st, Send(i, apdu));
  }

  /** The stack once session `i` has had its message. */
  function Served(st: Stack, i: nat, to: Option<nat>, resource: nat, apdu: seq<byte>): Stack
    requires WellFormed(st) && i < |st.sessions|
  {
    var s := st.sessions[i];
    if s.state == SActive && s.resource == resource && (to == None || to == Some(s.slot)) then SendApdu(st, i, apdu).stack
    else st
  }

  lemma BroadcastStep(st: Stack, to: Option<nat>, resource: nat, apdu: seq<byte>, i: nat)
    requires WellFormed(st) && i < |st.sessions|
    ensures
      var st1 := Served(st, i, to, resource, apdu);
      && WellFormed(st1) && st1.sessions == st.sessions
      && BroadcastFrom(st, to, resource, apdu, i) == BroadcastFrom(st1, to, resource, apdu, i + 1)
  {
    SendKeeps(st, i, apdu);
    hide SendApdu;
  }

  lemma ServedReaches(st: Stack, i: nat, to: Option<nat>, resource: nat, apdu: seq<byte>, slot: nat, conn: byte)
    requires WellFormed(st) && i < |st.sessions| && slot < |st.slots| && conn < |st.slots[slot].conns|
    ensures
      var st1 := Served(st, i, to, resource, apdu);
      && |st1.slots| == |st.slots| && |st1.slots[slot].conns| == |st.slots[slot].conns|
      && (Up(st1.slots, slot, conn) <==> Up(st.slots, slot, conn))
      && Reaches(st, st1, slot, conn,
                 Due(Up(st.slots, slot, conn), MessageOn(st.sessions[i], i, to, resource, apdu, slot, conn)))
  {
    hide SendApdu, Reaches, Up, Frame;
    if Served(st, i, to, resource, apdu) == st {
      ReachesNothing(st, slot, conn);
    }
    var s := st.sessions[i];
    if s.state == SActive && s.resource == resource && (to == None || to == Some(s.slot)) {
      SendReaches(st, i, to, resource, apdu, slot, conn);
    }
  }

  lemma DueMore(up: bool, a: seq<seq<byte>>, b: seq<seq<byte>>)
    ensures Due(up, a) + Due(up, b) == Due(up, a + b)
  {
  }

  /** A broadcast queues its messages on every connection that carries data, and changes nothing else. */
  lemma {:induction false} BroadcastReaches(st: Stack, to: Option<nat>, resource: nat, apdu: seq<byte>, slot: nat,
      conn: byte, i: nat)
    requires WellFormed(st) && i <= |st.sessions| && slot < |st.slots| && conn < |st.slots[slot].conns|
    ensures
      Reaches(st, BroadcastFrom(st, to, resource, apdu, i), slot, conn,
              Due(Up(st.slots, slot, conn), BroadcastOn(st.sessions, to, resource, apdu, slot, conn, i)))
    decreases |st.sessions| - i
  {
    hide Served, Reaches, BroadcastFrom, Up, WellFormed, Due, MessageOn;
    var up := Up(st.slots, slot, conn);
    if i == |st.sessions| {
      BroadcastEnd(st, to, resource, apdu);
      ReachesNothing(st, slot, conn);
      DueNothing(up);
    } else {
      BroadcastStep(st, to, resource, apdu, i);
      ServedReaches(st, i, to, resource, apdu, slot, conn);
      var (st1, all) := (Served(st, i, to, resource, apdu), BroadcastFrom(st, to, resource, apdu, i));
      BroadcastReaches(st1, to, resource, apdu, slot, conn, i + 1);
      var (a, b) := (MessageOn(st.sessions[i], i, to, resource, apdu, slot, conn),
                     BroadcastOn(st.sessions, to, resource, apdu, slot, conn, i + 1));
      ReachesMore(st, st1, all, slot, conn, Due(up, a), Due(up, b));
      DueMore(up, a, b);
    }
  }

  lemma DueNothing(up: bool)
    ensures Due(up, []) == []
  {
  }

  lemma BroadcastEnd(st: Stack, to: Option<nat>, resource: nat, apdu: seq<byte>)
    requires WellFormed(st)
    ensures BroadcastFrom(st, to, resource, apdu, |st.sessions|) == st
  {
  }

  // ----- the life of a session

  /** The step delivers this data on the session's own connection. */
  predicate Delivers(st: Stack, step: StackStep, s: Session, data: seq<byte>)
    requires WellFormed(st)
  {
    && step.OnSlot? && step.slot == s.slot < |st.slots|
    && Notify(Data, s.conn, data) in Take(st.slots[step.slot], step.step).events
  }

  /** It delivers a create response that names the session, with status 0 or another one. */
  ghost predicate Decides(st: Stack, step: StackStep, n: nat, granted: bool)
    requires WellFormed(st) && n < |st.sessions|
  {
    exists data: seq<byte> :: Delivers(st, step, st.sessions[n], data) &&
      |data| >= 9 && data[0] == 0x94 && data[1] == 7 && (data[6] as int) * 256 + data[7] == n
      && (granted <==> data[2] == 0)
  }

  lemma DecidesIff(st: Stack, step: StackStep, n: nat, granted: bool)
    requires WellFormed(st) && n < |st.sessions|
    ensures Decides(st, step, n, granted) <==>
      var e := Reported(st, step);
      e.Some? && OnItsOwn(st.sessions[n], step.slot, e.value) && CreateResponse(e.value, n, granted)
  {
    hide Take;
    if step.OnSlot? && step.slot < |st.slots| {
      var s := st.sessions[n];
      forall data | Delivers(st, step, s, data)
        ensures Reported(st, step) == Some(Notify(Data, s.conn, data))
      {
        ReportedIff(st, step.slot, step.step, step.app, Notify(Data, s.conn, data));
      }
      var e := Reported(st, step);
      if e.Some? && OnItsOwn(s, step.slot, e.value) && CreateResponse(e.value, n, granted) {
        ReportedIff(st, step.slot, step.step, step.app, e.value);
        assert Delivers(st, step, s, e.value.data);
      }
    }
  }

  /**
   A session that the host creates becomes active, and the application hears so, if and only if the module's response
   has status 0; with any other status it is idle again, and the application hears that it failed.
   */
  lemma CreationDecided(st: Stack, step: StackStep, n: nat)
    requires WellFormed(st) && n < |st.sessions| && st.sessions[n].state == SInCreation
    ensures
      var (s, o) := (st.sessions[n], TakeStack(st, step));
      && |o.stack.sessions| == |st.sessions|
      && (o.stack.sessions[n].state == SActive <==> Decides(st, step, n, true))
      && (Decides(st, step, n, false) ==> o.stack.sessions[n].state == SIdle)
      && (Called(Connected, s.slot, n, s.resource) in o.seen <==>
            Decides(st, step, n, true) && step.app.answer != NoCallback)
      && (Called(ConnectFail, s.slot, n, s.resource) in o.seen <==>
            Decides(st, step, n, false) && step.app.answer != NoCallback)
  {
    var s := st.sessions[n];
    DecidesIff(st, step, n, true);
    DecidesIff(st, step, n, false);
    StepTurns(st, step, n);
    CalledIff(st, step, Connected, s.slot, n, s.resource);
    CalledIff(st, step, ConnectFail, s.slot, n, s.resource);
    hide TakeStack, Take, Decides, FirstFree, Reported;
  }

  predicate Activates(st: Stack, step: StackStep, n: nat)
    requires WellFormed(st) && n < |st.sessions|
  {
    var (s, e) := (st.sessions[n], Reported(st, step));
    e.Some? &&
    if s.state == SIdle then
      && OpenRequest(e.value) && FirstFree(st.sessions, n) && step.app.lookup == Some(0) && step.app.answer == Accepts
    else s.state == SInCreation && OnItsOwn(s, step.slot, e.value) && CreateResponse(e.value, n, true)
  }

  predicate Deactivates(st: Stack, step: StackStep, n: nat)
    requires WellFormed(st) && n < |st.sessions|
  {
    var (s, e) := (st.sessions[n], Reported(st, step));
    || step == Destroy(n)
    || (e.Some? && ((OnItsOwn(s, step.slot, e.value) && CloseRequest(e.value, n)) || Ends(s, step.slot, e.value)))
  }

  lemma ActiveStep(st: Stack, step: StackStep, n: nat)
    requires WellFormed(st) && n < |st.sessions|
    ensures
      var s := st.sessions[n];
      && |TakeStack(st, step).stack.sessions| == |st.sessions|
      && (TakeStack(st, step).stack.sessions[n].state == SActive <==>
            Activates(st, step, n) || (s.state == SActive && !Deactivates(st, step, n)))
      && (Activates(st, step, n) ==> s.state != SActive)
  {
    StepTurns(st, step, n);
    hide TakeStack, Take, FirstFree, Reported, CreateResponse, CloseRequest, CloseResponse, OpenRequest, Ends, On, Up;
  }

  /** The last activation of the session, with nothing to deactivate it since. */
  ghost predicate ActiveSince(st: Stack, steps: seq<StackStep>, n: nat)
    requires WellFormed(st) && n < |st.sessions|
  {
    exists i :: 0 <= i < |steps| && ActivatesAt(st, steps, n, i) && forall k :: i < k < |steps| ==> !DeactivatesAt(st, steps, n, k)
  }

  predicate ActivatesAt(st: Stack, steps: seq<StackStep>, n: nat, i: nat)
    requires WellFormed(st) && n < |st.sessions| && i < |steps|
  {
    Activates(StackAfter(st, steps[..i]), steps[i], n)
  }

  predicate DeactivatesAt(st: Stack, steps: seq<StackStep>, n: nat, i: nat)
    requires WellFormed(st) && n < |st.sessions| && i < |steps|
  {
    Deactivates(StackAfter(st, steps[..i]), steps[i], n)
  }

  /**
   In every run from idle sessions, a session is active if and only if an open request was accepted or a create
   response granted for it, and since then the module has not closed it, nor its connection or slot, nor the host
   destroyed it.
   */
  lemma {:induction false} ActiveIff(st: Stack, steps: seq<StackStep>, n: nat)
    requires WellFormed(st) && AllIdle(st) && n < |st.sessions|
    ensures StackAfter(st, steps).sessions[n].state == SActive <==> ActiveSince(st, steps, n)
  {
    hide TakeStack, Activates, Deactivates;
    if steps != [] {
      var (m, front) := (|steps| - 1, steps[..|steps| - 1]);
      ActiveIff(st, front, n);
      ActiveStep(StackAfter(st, front), steps[m], n);
      assert forall i :: 0 <= i < m ==> front[..i] == steps[..i];
      assert forall i :: 0 <= i < m ==> (ActivatesAt(st, steps, n, i) <==> ActivatesAt(st, front, n, i));
      assert forall i :: 0 <= i < m ==> (DeactivatesAt(st, steps, n, i) <==> DeactivatesAt(st, front, n, i));
      if ActivatesAt(st, steps, n, m) {
        assert ActiveSince(st, steps, n);
      } else if ActiveSince(st, front, n) && !DeactivatesAt(st, steps, n, m) {
        var i :| 0 <= i < m && ActivatesAt(st, front, n, i) && forall k :: i < k < m ==> !DeactivatesAt(st, front, n, k);
        assert ActivatesAt(st, steps, n, i);
      }
    }
  }
}
