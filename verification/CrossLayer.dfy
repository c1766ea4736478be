/**
 The two layers agree: a session that is in use names a transport connection that is active. Every way out of
 ACTIVE reports to the session layer, which ends the sessions of that connection, except for two silent ones.
 */
module CrossLayer {
  import opened Bytes
  import opened Framing
  import opened SessionRuns
  import opened Sessions
  import opened Transport
  import opened TransportRuns
  import opened Wrappers

  predicate Backed(st: Stack, s: Session) {
    s.state != SIdle ==> Up(st.slots, s.slot, s.conn)
  }

  predicate Linked(st: Stack) {
    forall n :: 0 <= n < |st.sessions| ==> Backed(st, st.sessions[n])
  }

  /** Some session is in use on the connection. */
  predicate Occupied(st: Stack, slot: nat, conn: nat) {
    exists n :: 0 <= n < |st.sessions| && st.sessions[n].state != SIdle && On(st.sessions[n], slot, conn)
  }

  // ----- the silent ways out of ACTIVE

  /**
   The steps that take an active connection `j` down without a report to the session layer: the host queues
   its deletion; the module deletes it and the reply cannot be written; or the poll loop sends a queued deletion,
   which `NeverPolledDown` shows that no run contains.
   */
  predicate Silences(s: Slot, step: Step, j: nat)
    requires j < |s.conns|
  {
    s.open && s.conns[j].state == Active &&
    match step
    case HostDelTc(k) => k == j
    case PollVisit(k, _, _, written) =>
      k == j && written && !s.conns[j].waiting && s.conns[j].queue != []
      && IsDeletion(s.conns[j].queue[0])
    case Incoming(t, first, _) => t.connection == j && t.tag == T_DELETE_T_C && !first
    case _ => false
  }

  /** The steps that take it down with a report. */
  predicate Reports(s: Slot, step: Step, j: nat)
    requires j < |s.conns|
  {
    step.HostDestroySlot?
    || (s.open && s.conns[j].state == Active
        && step.Incoming? && step.t.connection == j && step.t.tag == T_DELETE_T_C && step.first)
  }

  predicate StaysUp(r: Result, j: nat)
    requires j < |r.slot.conns|
  {
    r.slot.open && r.slot.conns[j].state == Active
  }

  /** An active connection goes down in one step exactly when the step silences or reports it. */
  lemma DownIff(s: Slot, step: Step, j: nat)
    requires j < |s.conns| < 256 && s.open && s.conns[j].state == Active
    ensures StaysUp(Take(s, step), j) <==> !Silences(s, step, j) && !Reports(s, step, j)
  {
    match step
    case Incoming(t, first, second) =>
      if t.connection < |s.conns| && t.tag == T_REQUEST_T_C {
        RequestStaysUp(s, t.connection, first, second, j);
      }
    case PollVisit(k, pollDue, timedOut, written) =>
      if k < |s.conns| {
        VisitStaysUp(s, k, pollDue, timedOut, written, j);
      }
    case HostSend(k, data) => HostStaysUp(s, step, j);
    case HostNewTc => HostStaysUp(s, step, j);
    case HostDelTc(k) => HostStaysUp(s, step, j);
    case HostDestroySlot => HostStaysUp(s, step, j);
    case HostRegister =>
  }

  lemma RequestStaysUp(s: Slot, k: nat, first: bool, second: bool, j: nat)
    requires j < |s.conns| < 256 && k < |s.conns| && s.open && s.conns[j].state == Active
    ensures StaysUp(RequestTc(s, k, first, second), j)
  {
  }

  lemma VisitStaysUp(s: Slot, k: nat, pollDue: bool, timedOut: bool, written: bool, j: nat)
    requires j < |s.conns| < 256 && k < |s.conns| && s.open && s.conns[j].state == Active
    ensures StaysUp(Visit(s, k, pollDue, timedOut, written), j)
      <==> !Silences(s, PollVisit(k, pollDue, timedOut, written), j)
  {
  }

  lemma HostStaysUp(s: Slot, step: Step, j: nat)
    requires j < |s.conns| < 256 && s.open && s.conns[j].state == Active
    requires step.HostSend? || step.HostNewTc? || step.HostDelTc? || step.HostDestroySlot?
    ensures StaysUp(Take(s, step), j) <==> !Silences(s, step, j) && !Reports(s, step, j)
  {
    hide Frame;
  }

  /** What a step reports when it takes connections down, and what connection the report of data names. */
  lemma ReportOf(s: Slot, step: Step, j: nat)
    requires j < |s.conns| < 256 && s.open && s.conns[j].state == Active
    ensures var (r, report) := (Take(s, step), Report(Take(s, step).events));
      && (Reports(s, step, j) && step.HostDestroySlot? ==> report == Some(Notify(SlotClose, 0, [])))
      && (Reports(s, step, j) && !step.HostDestroySlot? ==> report == Some(Notify(ConnectionClose, j, [])))
      && (Silences(s, step, j) ==> report.None?)
  {
    hide Frame;
    if step.PollVisit? && step.k < |s.conns| {
      VisitReports(s, step.k, step.pollDue, step.timedOut, step.written);
    }
  }

  lemma VisitReports(s: Slot, k: nat, pollDue: bool, timedOut: bool, written: bool)
    requires k < |s.conns| < 256
    ensures Report(Visit(s, k, pollDue, timedOut, written).events).None?
  {
  }

  /** Data is reported only for a connection that is, and stays, active. */
  lemma DataFromActive(s: Slot, step: Step)
    requires |s.conns| < 256
    ensures var (r, report) := (Take(s, step), Report(Take(s, step).events));
      report.Some? && report.value.Notify? && report.value.reason == Data ==>
        s.open && report.value.conn < |s.conns| && StaysUp(r, report.value.conn)
  {
    hide Frame, RequestTc, Visit;
    match step
    case Incoming(t, first, second) =>
      if t.connection < |s.conns| {
        RequestReports(s, t.connection, first, second);
      }
    case PollVisit(k, pollDue, timedOut, written) =>
      if k < |s.conns| {
        VisitReports(s, k, pollDue, timedOut, written);
      }
    case _ =>
  }

  lemma RequestReports(s: Slot, k: nat, first: bool, second: bool)
    requires k < |s.conns| < 256
    ensures var report := Report(RequestTc(s, k, first, second).events);
      report.Some? ==> report.value.reason == CamConnectionOpen
  {
  }

  // ----- the session layer keeps the link

  predicate SameUps(slots: seq<Slot>, slots': seq<Slot>) {
    && |slots| == |slots'|
    && (forall a :: 0 <= a < |slots| ==>
          slots[a].open == slots'[a].open && |slots[a].conns| == |slots'[a].conns|)
    && (forall a, b :: 0 <= a < |slots| && 0 <= b < |slots[a].conns| ==>
          slots[a].conns[b].state == slots'[a].conns[b].state)
  }

  lemma TlSendLinks(st: Stack, slot: nat, conn: nat, data: seq<byte>)
    requires WellFormed(st)
    ensures var (st', sent) := TlSend(st, slot, conn, data);
      && WellFormed(st') && st'.sessions == st.sessions && SameUps(st.slots, st'.slots)
      && (sent ==> Up(st.slots, slot, conn))
  {
    hide Frame;
  }

  lemma SameUpsLinked(st: Stack, st': Stack)
    requires Linked(st) && st'.sessions == st.sessions && SameUps(st.slots, st'.slots)
    ensures Linked(st')
  {
    forall n | 0 <= n < |st'.sessions|
      ensures Backed(st', st'.sessions[n])
    {
      assert Backed(st, st.sessions[n]);
    }
  }

  lemma PutLinked(st: Stack, n: nat, s: Session)
    requires Linked(st) && n < |st.sessions| && Backed(st, s)
    ensures Linked(PutSession(st, n, s))
  {
    var st' := PutSession(st, n, s);
    forall m | 0 <= m < |st'.sessions|
      ensures Backed(st', st'.sessions[m])
    {
      assert m != n ==> Backed(st, st.sessions[m]);
    }
  }

  /** A message sent from a linked stack for a session that may not be backed: it is, if the message was queued. */
  lemma SendLinked(st: Stack, n: nat, s: Session, slot: nat, conn: nat, data: seq<byte>)
    requires WellFormed(st) && Linked(st) && n < |st.sessions| && s.slot == slot && s.conn == conn
    ensures var (st', sent) := TlSend(PutSession(st, n, s), slot, conn, data);
      && WellFormed(st') && SameUps(st.slots, st'.slots)
      && (sent ==> Linked(st')) && Linked(SetState(st', n, SIdle))
      && (sent ==> Up(st'.slots, slot, conn))
  {
    hide TlSend;
    var st1 := PutSession(st, n, s);
    TlSendLinks(st1, slot, conn, data);
    var (st', sent) := TlSend(st1, slot, conn, data);
    if sent {
      PutLinked(st, n, s);
      SameUpsLinked(st1, st');
    }
    var idle := s.(state := SIdle);
    PutLinked(st, n, idle);
    assert SetState(st', n, SIdle).sessions == PutSession(st, n, idle).sessions;
    SameUpsLinked(PutSession(st, n, idle), SetState(st', n, SIdle));
  }

  lemma CreateLinked(st: Stack, slot: nat, conn: nat, resource: nat)
    requires WellFormed(st) && Linked(st)
    ensures Linked(CreateSession(st, slot, conn, resource).stack)
  {
    hide TlSend, Linked, ResourceBytes, NumberBytes;
    var free := FreeSession(st.sessions, 1);
    if free.Some? {
      var n := free.value;
      SendLinked(st, n, Session(SInCreation, resource, slot % 0x100, conn), slot % 0x100, conn,
                 [ST_CREATE_SESSION, 6] + ResourceBytes(resource) + NumberBytes(n));
    }
  }

  lemma DestroyLinked(st: Stack, n: nat)
    requires WellFormed(st) && Linked(st)
    ensures Linked(DestroySession(st, n).stack)
  {
    hide TlSend, Linked, NumberBytes;
    if n < |st.sessions| {
      var s := st.sessions[n];
      SendLinked(st, n, s.(state := SInDeletion), s.slot, s.conn, [ST_CLOSE_SESSION_REQ, 2] + NumberBytes(n));
    }
  }

  lemma PlainSendLinked(st: Stack, slot: nat, conn: nat, data: seq<byte>)
    requires WellFormed(st) && Linked(st)
    ensures Linked(TlSend(st, slot, conn, data).0)
  {
    hide TlSend;
    TlSendLinks(st, slot, conn, data);
    SameUpsLinked(st, TlSend(st, slot, conn, data).0);
  }

  lemma SendApduLinked(st: Stack, n: nat, data: seq<byte>)
    requires WellFormed(st) && Linked(st)
    ensures Linked(SendApdu(st, n, data).stack)
  {
    hide TlSend, Linked, NumberBytes;
    if n < |st.sessions| {
      PlainSendLinked(st, st.sessions[n].slot, st.sessions[n].conn, [ST_SESSION_NUMBER, 2] + NumberBytes(n) + data);
    }
  }

  lemma {:induction false} BroadcastLinked(st: Stack, slot: Option<nat>, resource: nat, data: seq<byte>, i: nat)
    requires WellFormed(st) && Linked(st) && i <= |st.sessions|
    ensures Linked(BroadcastFrom(st, slot, resource, data, i))
    decreases |st.sessions| - i
  {
    hide SendApdu, Linked;
    if i < |st.sessions| {
      SendApduLinked(st, i, data);
      SendKeeps(st, i, data);
      var next := if Hears(st.sessions[i], slot, resource) then SendApdu(st, i, data).stack else st;
      BroadcastLinked(next, slot, resource, data, i + 1);
    }
  }

  lemma OpenRequestLinked(st: Stack, slot: nat, conn: nat, d: seq<byte>, app: App)
    requires WellFormed(st) && Linked(st)
    ensures Linked(HandleOpenRequest(st, slot, conn, d, app).stack)
  {
    hide TlSend, Linked, ResourceBytes, NumberBytes;
    var free := FreeSession(st.sessions, 1);
    var o := HandleOpenRequest(st, slot, conn, d, app);
    if |d| >= 5 && d[0] == 4 {
      if OpenStatus(app.lookup) == S_STATUS_OPEN && free.Some? {
        var n := free.value;
        var verdict := match app.answer
          case NoCallback => S_STATUS_CLOSE_RES_UNAVAILABLE
          case Accepts => S_STATUS_OPEN
          case Refuses => S_STATUS_CLOSE_RES_BUSY;
        var msg := [ST_OPEN_SESSION_RES, 7, verdict % 0x100] + ResourceBytes(app.resource) + NumberBytes(n);
        var s := Session(SInCreation, app.resource, slot, conn);
        SendLinked(st, n, s, slot, conn, msg);
        var (st2, sent) := TlSend(PutSession(st, n, s), slot, conn, msg);
        if sent {
          TlSendLinks(PutSession(st, n, s), slot, conn, msg);
          ActivateLinked(st2, n, slot, conn);
        }
      } else {
        PlainSendLinked(st, slot, conn, [ST_OPEN_SESSION_RES, 7, OpenStatus(app.lookup) % 0x100]
                        + ResourceBytes(app.resource) + NumberBytes(-1));
        PlainSendLinked(st, slot, conn, [ST_OPEN_SESSION_RES, 7, S_STATUS_CLOSE_NO_RES % 0x100]
                        + ResourceBytes(app.resource) + NumberBytes(-1));
      }
    }
  }

  lemma ActivateLinked(st: Stack, n: nat, slot: nat, conn: nat)
    requires Linked(st) && n < |st.sessions| && Up(st.slots, slot, conn) && On(st.sessions[n], slot, conn)
    ensures Linked(SetState(st, n, SActive))
  {
    PutLinked(st, n, st.sessions[n].(state := SActive));
  }

  lemma CloseRequestLinked(st: Stack, slot: nat, conn: nat, d: seq<byte>, app: App)
    requires WellFormed(st) && Linked(st)
    ensures Linked(HandleCloseRequest(st, slot, conn, d, app).stack)
  {
    hide TlSend, Linked, NumberBytes;
    if |d| >= 3 && d[0] == 2 {
      var n := Word(d[1], d[2]);
      PlainSendLinked(st, slot, conn, [ST_CLOSE_SESSION_RES, 3, 0xf0] + NumberBytes(n));
      if n < |st.sessions| {
        IdleLinked(st, n);
        PlainSendLinked(SetState(st, n, SIdle), slot, conn, [ST_CLOSE_SESSION_RES, 3, 0] + NumberBytes(n));
      }
    }
  }

  lemma IdleLinked(st: Stack, n: nat)
    requires Linked(st) && n < |st.sessions|
    ensures Linked(SetState(st, n, SIdle))
  {
    PutLinked(st, n, st.sessions[n].(state := SIdle));
  }

  lemma DataLinked(st: Stack, slot: nat, conn: nat, data: seq<byte>, app: App)
    requires WellFormed(st) && Linked(st) && Up(st.slots, slot, conn)
    ensures Linked(HandleData(st, slot, conn, data, app).stack)
  {
    hide Linked, Up, HandleOpenRequest, HandleCloseRequest, SplitApdus;
    if |data| >= 1 {
      var d := data[1..];
      OpenRequestLinked(st, slot, conn, d, app);
      CloseRequestLinked(st, slot, conn, d, app);
      if data[0] == ST_CREATE_SESSION_RES && |d| >= 8 {
        var n := Word(d[5], d[6]);
        if n < |st.sessions| && On(st.sessions[n], slot, conn) {
          IdleLinked(st, n);
          ActivateLinked(st, n, slot, conn);
        }
      }
      if data[0] == ST_CLOSE_SESSION_RES && |d| >= 5 && Word(d[2], d[3]) < |st.sessions| {
        IdleLinked(st, Word(d[2], d[3]));
      }
    }
  }

  lemma EndLinked(st: Stack, st1: Stack, ends: Session -> bool, app: App)
    requires Linked(st) && st1.sessions == st.sessions
    requires forall n :: 0 <= n < |st.sessions| && st.sessions[n].state != SIdle && !ends(st.sessions[n]) ==>
      Backed(st1, st.sessions[n])
    ensures Linked(EndSessions(st1, ends, app).stack)
  {
  }

  // ----- one step

  /** The step leaves a session in use on a connection that it takes down silently. */
  predicate Strands(st: Stack, step: StackStep) {
    step.OnSlot? && step.slot < |st.slots| &&
    exists j :: 0 <= j < |st.slots[step.slot].conns| &&
      Silences(st.slots[step.slot], step.step, j) && Occupied(st, step.slot, j)
  }

  /** A session stays backed, as far as the transport layer is concerned, unless its own connection goes down. */
  lemma BackedAfter(st: Stack, slot: nat, step: Step, s: Session)
    requires WellFormed(st) && slot < |st.slots| && Backed(st, s) && s.state != SIdle
    ensures var (old_, r) := (st.slots[slot], Take(st.slots[slot], step));
      var st1 := st.(slots := st.slots[slot := r.slot]);
      && WellFormed(st1)
      && (Backed(st1, s) <==>
            s.slot != slot || (!Silences(old_, step, s.conn) && !Reports(old_, step, s.conn)))
  {
    hide Take, Silences, Reports;
    if s.slot == slot {
      DownIff(st.slots[slot], step, s.conn);
    }
  }

  /** The stack between the transport step and the report. */
  function Between(st: Stack, slot: nat, step: Step): Stack
    requires WellFormed(st) && slot < |st.slots|
  {
    st.(slots := st.slots[slot := Take(st.slots[slot], step).slot])
  }

  /** Sessions that the step neither silences nor reports keep their connection. */
  lemma KeptBacked(st: Stack, slot: nat, step: Step, n: nat)
    requires WellFormed(st) && Linked(st) && slot < |st.slots| && n < |st.sessions|
    requires var s := st.sessions[n];
      s.state != SIdle && s.slot == slot && s.conn < |st.slots[slot].conns| ==>
        !Silences(st.slots[slot], step, s.conn) && !Reports(st.slots[slot], step, s.conn)
    ensures WellFormed(Between(st, slot, step)) && Backed(Between(st, slot, step), st.sessions[n])
  {
    hide Take, Silences, Reports;
    assert Backed(st, st.sessions[n]);
    if st.sessions[n].state != SIdle {
      BackedAfter(st, slot, step, st.sessions[n]);
    }
  }

  lemma NotSilenced(st: Stack, slot: nat, step: Step, app: App, n: nat)
    requires Linked(st) && slot < |st.slots| && n < |st.sessions| && !Strands(st, OnSlot(slot, step, app))
    requires st.sessions[n].state != SIdle && st.sessions[n].slot == slot
    ensures st.sessions[n].conn < |st.slots[slot].conns|
    ensures !Silences(st.slots[slot], step, st.sessions[n].conn)
  {
    hide Silences;
    assert Backed(st, st.sessions[n]);
    assert On(st.sessions[n], slot, st.sessions[n].conn);
    assert Occupied(st, slot, st.sessions[n].conn);
  }

  lemma DestroySlotLinked(st: Stack, slot: nat, app: App)
    requires WellFormed(st) && Linked(st) && slot < |st.slots|
    ensures Linked(TakeOnSlot(st, slot, HostDestroySlot, app).stack)
  {
    hide Silences;
    var st1 := Between(st, slot, HostDestroySlot);
    forall n | 0 <= n < |st.sessions| && st.sessions[n].state != SIdle && !EndsOnSlotClose(st.sessions[n], slot)
      ensures Backed(st1, st.sessions[n])
    {
      KeptBacked(st, slot, HostDestroySlot, n);
    }
    EndLinked(st, st1, s => EndsOnSlotClose(s, slot), app);
  }

  lemma DeleteLinked(st: Stack, slot: nat, step: Step, j: nat, app: App)
    requires WellFormed(st) && Linked(st) && slot < |st.slots| && !Strands(st, OnSlot(slot, step, app))
    requires j < |st.slots[slot].conns| && !step.HostDestroySlot? && Reports(st.slots[slot], step, j)
    ensures Linked(TakeOnSlot(st, slot, step, app).stack)
  {
    hide Silences, Take, Backed;
    var st1 := Between(st, slot, step);
    ReportOf(st.slots[slot], step, j);
    forall n | 0 <= n < |st.sessions| && st.sessions[n].state != SIdle && !EndsOnClose(st.sessions[n], j)
      ensures Backed(st1, st.sessions[n])
    {
      if st.sessions[n].slot == slot {
        NotSilenced(st, slot, step, app, n);
      }
      KeptBacked(st, slot, step, n);
    }
    BetweenFormed(st, slot, step);
    EndLinked(st, st1, s => EndsOnClose(s, j), app);
  }

  lemma BetweenFormed(st: Stack, slot: nat, step: Step)
    requires WellFormed(st) && slot < |st.slots|
    ensures WellFormed(Between(st, slot, step))
  {
    hide Take;
  }

  lemma NotifyLinked(st: Stack, slot: nat, e: Event, app: App)
    requires WellFormed(st) && Linked(st) && e.Notify? && (e.reason == Data ==> Up(st.slots, slot, e.conn))
    ensures Linked(OnNotify(st, slot, e, app).stack)
  {
    hide Up, HandleData, EndSessions;
    match e.reason
    case Data => DataLinked(st, slot, e.conn, e.data, app);
    case ConnectionOpen =>
    case CamConnectionOpen =>
    case ConnectionClose => EndLinked(st, st, s => EndsOnClose(s, e.conn), app);
    case SlotClose => EndLinked(st, st, s => EndsOnSlotClose(s, slot), app);
  }

  lemma QuietLinked(st: Stack, slot: nat, step: Step, app: App)
    requires WellFormed(st) && Linked(st) && slot < |st.slots| && !Strands(st, OnSlot(slot, step, app))
    requires forall j :: 0 <= j < |st.slots[slot].conns| ==> !Reports(st.slots[slot], step, j)
    ensures Linked(TakeOnSlot(st, slot, step, app).stack)
  {
    hide Silences, Take, Backed, Reports, OnNotify;
    var st1 := Between(st, slot, step);
    forall n | 0 <= n < |st.sessions|
      ensures Backed(st1, st1.sessions[n])
    {
      if st.sessions[n].state != SIdle && st.sessions[n].slot == slot {
        NotSilenced(st, slot, step, app, n);
      }
      KeptBacked(st, slot, step, n);
    }
    BetweenFormed(st, slot, step);
    var report := Report(Take(st.slots[slot], step).events);
    if report.Some? {
      DataFromActive(st.slots[slot], step);
      NotifyLinked(st1, slot, report.value, app);
    }
  }

  lemma NotStrandedLinked(st: Stack, slot: nat, step: Step, app: App)
    requires WellFormed(st) && Linked(st) && slot < |st.slots| && !Strands(st, OnSlot(slot, step, app))
    ensures Linked(TakeOnSlot(st, slot, step, app).stack)
  {
    hide TakeOnSlot, Reports, Linked, Strands;
    if step.HostDestroySlot? {
      DestroySlotLinked(st, slot, app);
    } else if j :| 0 <= j < |st.slots[slot].conns| && Reports(st.slots[slot], step, j) {
      DeleteLinked(st, slot, step, j, app);
    } else {
      QuietLinked(st, slot, step, app);
    }
  }

  lemma StrandedNotLinked(st: Stack, slot: nat, step: Step, app: App)
    requires WellFormed(st) && Linked(st) && slot < |st.slots| && Strands(st, OnSlot(slot, step, app))
    ensures !Linked(TakeOnSlot(st, slot, step, app).stack)
  {
    hide Take;
    var j :| 0 <= j < |st.slots[slot].conns| && Silences(st.slots[slot], step, j) && Occupied(st, slot, j);
    var n :| 0 <= n < |st.sessions| && st.sessions[n].state != SIdle && On(st.sessions[n], slot, j);
    ReportOf(st.slots[slot], step, j);
    assert Backed(st, st.sessions[n]);
    BackedAfter(st, slot, step, st.sessions[n]);
    var st1 := Between(st, slot, step);
    assert TakeOnSlot(st, slot, step, app).stack == st1;
    assert !Backed(st1, st1.sessions[n]);
  }

  /**
   One step of any kind keeps every session in use on an active connection, if and only if it does not take a
   connection with a session in use down silently.
   */
  lemma StepLinkedIff(st: Stack, step: StackStep)
    requires WellFormed(st) && Linked(st)
    ensures Linked(TakeStack(st, step).stack) <==> !Strands(st, step)
  {
    hide Linked, CreateSession, DestroySession, SendApdu, BroadcastFrom, TakeOnSlot, Concat;
    match step
    case OnSlot(slot, step', app) =>
      if slot < |st.slots| {
        if Strands(st, step) {
          StrandedNotLinked(st, slot, step', app);
        } else {
          NotStrandedLinked(st, slot, step', app);
        }
      }
    case Create(slot, conn, resource) => CreateLinked(st, slot, conn, resource);
    case Destroy(n) => DestroyLinked(st, n);
    case Send(n, apdu) => SendApduLinked(st, n, apdu);
    case SendVector(n, pieces) => SendApduLinked(st, n, Concat(pieces));
    case Broadcast(slot, resource, apdu) => BroadcastLinked(st, slot, resource, apdu, 0);
  }

  // ----- queued deletions in every run

  /** On every connection a queued deletion stands only where it should. */
  predicate Ordered(slots: seq<Slot>) {
    forall a, b :: 0 <= a < |slots| && 0 <= b < |slots[a].conns| ==> DeletionLast(slots[a].conns[b])
  }

  lemma TlSendOrdered(st: Stack, slot: nat, conn: nat, data: seq<byte>)
    requires WellFormed(st) && Ordered(st.slots)
    ensures Ordered(TlSend(st, slot, conn, data).0.slots)
  {
    if slot < |st.slots| {
      forall j | 0 <= j < |st.slots[slot].conns|
        ensures DeletionLast(SendData(st.slots[slot], conn, data).slot.conns[j])
      {
        assert DeletionLast(st.slots[slot].conns[j]);
        StepOrderly(st.slots[slot], HostSend(conn, data), j);
      }
    }
  }

  lemma {:induction false} BroadcastOrdered(st: Stack, slot: Option<nat>, resource: nat, data: seq<byte>, i: nat)
    requires WellFormed(st) && Ordered(st.slots) && i <= |st.sessions|
    ensures Ordered(BroadcastFrom(st, slot, resource, data, i).slots)
    decreases |st.sessions| - i
  {
    hide SendApdu, Ordered;
    if i < |st.sessions| {
      SendApduOrdered(st, i, data);
      SendKeeps(st, i, data);
      var next := if Hears(st.sessions[i], slot, resource) then SendApdu(st, i, data).stack else st;
      BroadcastOrdered(next, slot, resource, data, i + 1);
    }
  }

  lemma SendApduOrdered(st: Stack, n: nat, data: seq<byte>)
    requires WellFormed(st) && Ordered(st.slots)
    ensures Ordered(SendApdu(st, n, data).stack.slots)
  {
    hide TlSend, Ordered, NumberBytes;
    if n < |st.sessions| {
      TlSendOrdered(st, st.sessions[n].slot, st.sessions[n].conn, [ST_SESSION_NUMBER, 2] + NumberBytes(n) + data);
    }
  }

  lemma HostOrdered(st: Stack, step: StackStep)
    requires WellFormed(st) && Ordered(st.slots) && (step.Create? || step.Destroy?)
    ensures Ordered(TakeStack(st, step).stack.slots)
  {
    hide TlSend, Ordered, NumberBytes, ResourceBytes;
    match step
    case Create(slot, conn, resource) =>
      var free := FreeSession(st.sessions, 1);
      if free.Some? {
        TlSendOrdered(PutSession(st, free.value, Session(SInCreation, resource, slot % 0x100, conn)), slot % 0x100, conn,
                    [ST_CREATE_SESSION, 6] + ResourceBytes(resource) + NumberBytes(free.value));
      }
    case Destroy(n) =>
      if n < |st.sessions| {
        TlSendOrdered(SetState(st, n, SInDeletion), st.sessions[n].slot, st.sessions[n].conn,
                    [ST_CLOSE_SESSION_REQ, 2] + NumberBytes(n));
      }
  }

  lemma OpenRequestOrdered(st: Stack, slot: nat, conn: nat, d: seq<byte>, app: App)
    requires WellFormed(st) && Ordered(st.slots)
    ensures Ordered(HandleOpenRequest(st, slot, conn, d, app).stack.slots)
  {
    hide TlSend, Ordered, NumberBytes, ResourceBytes;
    var free := FreeSession(st.sessions, 1);
    var status := OpenStatus(app.lookup);
    if |d| >= 5 && d[0] == 4 {
      if status == S_STATUS_OPEN && free.Some? {
        var n := free.value;
        var st1 := PutSession(st, n, Session(SInCreation, app.resource, slot, conn));
        var verdict := match app.answer
          case NoCallback => S_STATUS_CLOSE_RES_UNAVAILABLE
          case Accepts => S_STATUS_OPEN
          case Refuses => S_STATUS_CLOSE_RES_BUSY;
        TlSendOrdered(st1, slot, conn,
                    [ST_OPEN_SESSION_RES, 7, verdict % 0x100] + ResourceBytes(app.resource) + NumberBytes(n));
      } else {
        TlSendOrdered(st, slot, conn,
                    [ST_OPEN_SESSION_RES, 7, status % 0x100] + ResourceBytes(app.resource) + NumberBytes(-1));
        TlSendOrdered(st, slot, conn, [ST_OPEN_SESSION_RES, 7, S_STATUS_CLOSE_NO_RES % 0x100]
                    + ResourceBytes(app.resource) + NumberBytes(-1));
      }
    }
  }

  lemma DataOrdered(st: Stack, slot: nat, conn: nat, data: seq<byte>, app: App)
    requires WellFormed(st) && Ordered(st.slots)
    ensures Ordered(HandleData(st, slot, conn, data, app).stack.slots)
  {
    hide TlSend, Ordered, NumberBytes, HandleOpenRequest, SplitApdus;
    if |data| >= 1 {
      var d := data[1..];
      OpenRequestOrdered(st, slot, conn, d, app);
      if |d| >= 3 && d[0] == 2 {
        var n := Word(d[1], d[2]);
        TlSendOrdered(st, slot, conn, [ST_CLOSE_SESSION_RES, 3, 0xf0] + NumberBytes(n));
        if n < |st.sessions| {
          TlSendOrdered(SetState(st, n, SIdle), slot, conn, [ST_CLOSE_SESSION_RES, 3, 0] + NumberBytes(n));
        }
      }
    }
  }

  lemma BetweenOrdered(st: Stack, slot: nat, step: Step)
    requires WellFormed(st) && slot < |st.slots| && Ordered(st.slots)
    ensures Ordered(Between(st, slot, step).slots)
  {
    hide Take, DeletionLast;
    forall j | 0 <= j < |st.slots[slot].conns|
      ensures DeletionLast(Take(st.slots[slot], step).slot.conns[j])
    {
      assert DeletionLast(st.slots[slot].conns[j]);
      StepOrderly(st.slots[slot], step, j);
    }
  }

  /** Every step of every kind. */
  lemma StackStepOrdered(st: Stack, step: StackStep)
    requires WellFormed(st) && Ordered(st.slots)
    ensures Ordered(TakeStack(st, step).stack.slots)
  {
    match step
    case OnSlot(slot, step', app) =>
      if slot < |st.slots| {
        BetweenOrdered(st, slot, step');
        BetweenFormed(st, slot, step');
        hide Take, Ordered, HandleData, EndAll, CloseReports;
        var report := Report(Take(st.slots[slot], step').events);
        if report.Some? && report.value.reason == Data {
          DataOrdered(Between(st, slot, step'), slot, report.value.conn, report.value.data, app);
        }
      }
    case Create(slot, conn, resource) => HostOrdered(st, step);
    case Destroy(n) => HostOrdered(st, step);
    case Send(n, apdu) => SendApduOrdered(st, n, apdu);
    case SendVector(n, pieces) => SendApduOrdered(st, n, Concat(pieces));
    case Broadcast(slot, resource, apdu) => BroadcastOrdered(st, slot, resource, apdu, 0);
  }

  // ----- whole runs

  /** A stack in which no session is in use, and queued deletions stand where they should. */
  predicate Begins(st: Stack) {
    WellFormed(st) && AllIdle(st) && Ordered(st.slots)
  }

  /** Both layers are so when they have been created. */
  lemma NewStackBegins(st: Stack)
    requires WellFormed(st) && AllIdle(st)
    requires forall a :: 0 <= a < |st.slots| ==> st.slots[a] == NewSlot(|st.slots[a].conns|)
    ensures Begins(st)
  {
  }

  lemma {:induction false} RunOrdered(st: Stack, steps: seq<StackStep>)
    requires Begins(st)
    ensures Ordered(StackAfter(st, steps).slots)
  {
    hide TakeStack;
    if steps != [] {
      hide Ordered;
      RunOrdered(st, steps[..|steps| - 1]);
      StackStepOrdered(StackAfter(st, steps[..|steps| - 1]), steps[|steps| - 1]);
    }
  }

  /** The poll loop never takes an active connection down, since no deletion is queued on one. */
  lemma NeverPolledDown(st: Stack, steps: seq<StackStep>, slot: nat, step: Step, j: nat)
    requires Begins(st) && slot < |st.slots| && step.PollVisit?
    requires j < |StackAfter(st, steps).slots[slot].conns|
    ensures !Silences(StackAfter(st, steps).slots[slot], step, j)
  {
    hide StackAfter;
    RunOrdered(st, steps);
    assert DeletionLast(StackAfter(st, steps).slots[slot].conns[j]);
  }

  /**
   The step cuts a session in use off from its connection: the host deletes the connection, or the module does and
   the reply to it cannot be written.
   */
  predicate CutsOff(st: Stack, step: StackStep) {
    step.OnSlot? &&
    match step.step
    case HostDelTc(k) => Occupied(st, step.slot, k)
    case Incoming(t, first, _) => t.tag == T_DELETE_T_C && !first && Occupied(st, step.slot, t.connection)
    case _ => false
  }

  lemma StrandsIff(st: Stack, step: StackStep)
    requires WellFormed(st) && Linked(st) && Ordered(st.slots)
    ensures Strands(st, step) <==> CutsOff(st, step)
  {
    if step.OnSlot? && step.slot < |st.slots| && step.step.PollVisit? && step.step.k < |st.slots[step.slot].conns| {
      assert DeletionLast(st.slots[step.slot].conns[step.step.k]);
    }
    if CutsOff(st, step) {
      var k := if step.step.HostDelTc? then step.step.k else step.step.t.connection;
      OccupiedUp(st, step.slot, k);
      assert Silences(st.slots[step.slot], step.step, k);
    }
  }

  lemma OccupiedUp(st: Stack, slot: nat, conn: nat)
    requires Linked(st) && Occupied(st, slot, conn)
    ensures Up(st.slots, slot, conn)
  {
    var n :| 0 <= n < |st.sessions| && st.sessions[n].state != SIdle && On(st.sessions[n], slot, conn);
    assert Backed(st, st.sessions[n]);
  }

  /** No step of the run cuts a session off. */
  predicate Considerate(st: Stack, steps: seq<StackStep>)
    requires WellFormed(st)
  {
    forall i :: 0 <= i < |steps| ==> !CutsOff(StackAfter(st, steps[..i]), steps[i])
  }

  /** Each session in use names an active connection of an open slot, all through the run. */
  predicate LinkedThroughout(st: Stack, steps: seq<StackStep>)
    requires WellFormed(st)
  {
    forall i :: 0 <= i <= |steps| ==> Linked(StackAfter(st, steps[..i]))
  }

  /**
   The cross-layer invariant: all through a run each session in use names an active connection of an open slot, if
   and only if the host deletes no connection with a session in use, and no reply to the module's deletion of such a
   connection fails.
   */
  lemma {:induction false} RunLinkedIff(st: Stack, steps: seq<StackStep>)
    requires Begins(st)
    ensures LinkedThroughout(st, steps) <==> Considerate(st, steps)
    decreases |steps|
  {
    hide TakeStack, Linked, CutsOff, StackAfter;
    if steps == [] {
      NothingLinked(st);
    } else {
      var (n, front) := (|steps| - 1, steps[..|steps| - 1]);
      RunLinkedIff(st, front);
      LastStep(st, steps);
      var before := StackAfter(st, front);
      RunOrdered(st, front);
      if Linked(before) {
        StrandsIff(before, steps[n]);
        StepLinkedIff(before, steps[n]);
      }
      assert steps[..n] == front && steps[..n + 1] == steps;
      assert forall i :: 0 <= i <= n ==> front[..i] == steps[..i];
    }
  }

  lemma NothingLinked(st: Stack)
    requires Begins(st)
    ensures LinkedThroughout(st, []) && Considerate(st, [])
  {
    IdleStackLinked(st);
  }

  lemma LastStep(st: Stack, steps: seq<StackStep>)
    requires WellFormed(st) && steps != []
    ensures StackAfter(st, steps) == TakeStack(StackAfter(st, steps[..|steps| - 1]), steps[|steps| - 1]).stack
  {
    hide TakeStack;
  }

  lemma IdleStackLinked(st: Stack)
    requires AllIdle(st)
    ensures Linked(st)
  {
  }

  /** Without the condition it fails: the host deletes the connection under a session in use. */
  lemma DeletionStrands(st: Stack, n: nat, app: App)
    requires WellFormed(st) && Linked(st) && n < |st.sessions| && st.sessions[n].state != SIdle
    ensures !Linked(TakeStack(st, OnSlot(st.sessions[n].slot, HostDelTc(st.sessions[n].conn), app)).stack)
  {
    hide Linked, TakeStack;
    var s := st.sessions[n];
    var step := OnSlot(s.slot, HostDelTc(s.conn), app);
    BackedHere(st, n);
    assert Silences(st.slots[s.slot], step.step, s.conn);
    assert On(s, s.slot, s.conn);
    assert Occupied(st, s.slot, s.conn);
    StepLinkedIff(st, step);
  }

  lemma BackedHere(st: Stack, n: nat)
    requires Linked(st) && n < |st.sessions| && st.sessions[n].state != SIdle
    ensures Up(st.slots, st.sessions[n].slot, st.sessions[n].conn)
  {
    assert Backed(st, st.sessions[n]);
  }

  /**
   The report that a connection has closed ends exactly the sessions in use with that connection number. A
   session of another slot is among them if and only if it uses the same number there.
   */
  lemma CloseEndsOtherSlotIff(st: Stack, slot: nat, conn: nat, app: App, n: nat)
    requires WellFormed(st) && n < |st.sessions| && st.sessions[n].state != SIdle && st.sessions[n].slot != slot
    ensures OnNotify(st, slot, Notify(ConnectionClose, conn, []), app).stack.sessions[n].state == SIdle
      <==> st.sessions[n].conn == conn
  {
  }
}
