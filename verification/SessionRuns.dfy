/**
 What holds for the sessions in every run of the stack: they move only as the protocol allows, session 0 is
 never used, and data arrives only on sessions the application has been told about.
 */
module SessionRuns {
  import opened Bytes
  import opened Framing
  import opened Sessions
  import opened Transport
  import opened Wrappers

  // ----- the effect of a queued message

  lemma TlSendEffect(st: Stack, slot: nat, conn: nat, data: seq<byte>)
    requires WellFormed(st)
    ensures var (st', sent) := TlSend(st, slot, conn, data);
      && WellFormed(st') && st'.sessions == st.sessions && |st'.slots| == |st.slots|
      && (sent ==> slot < |st.slots|)
  {
    hide Frame;
  }

  // ----- moves

  /** The moves of a session in one atomic step; a session opened by the module is created and activated at once. */
  predicate SessionMoves(from: SessionState, to: SessionState) {
    || from == to
    || to == SIdle
    || (from == SIdle && (to == SInCreation || to == SActive))
    || (from == SInCreation && to == SActive)
    || (from == SActive && to == SInDeletion)
  }

  /** A session keeps its place: nothing but its state changes unless it was idle. */
  predicate Kept(s: Session, s': Session) {
    s.state != SIdle && s'.state != SIdle ==> s' == s.(state := s'.state)
  }

  predicate StepKeeps(st: Stack, o: Outcome) {
    && WellFormed(o.stack)
    && |o.stack.slots| == |st.slots| && |o.stack.sessions| == |st.sessions|
    && (forall n :: 0 <= n < |st.sessions| ==>
          && SessionMoves(st.sessions[n].state, o.stack.sessions[n].state)
          && Kept(st.sessions[n], o.stack.sessions[n]))
    && (0 < |st.sessions| && st.sessions[0].state == SIdle ==> o.stack.sessions[0].state == SIdle)
  }

  // ----- announcements

  predicate Announces(e: Seen, n: nat) {
    e.Called? && e.number == n && (e.cause == CamConnected || e.cause == Connected)
  }

  predicate Withdraws(e: Seen, n: nat) {
    e.Called? && e.number == n && e.cause == Close
  }

  /** Whether, after these events, session `n` stands announced to the application. */
  predicate Announced(seen: seq<Seen>, n: nat, before: bool) {
    if seen == [] then before
    else
      var e := seen[|seen| - 1];
      Announces(e, n) || (!Withdraws(e, n) && Announced(seen[..|seen| - 1], n, before))
  }

  predicate WasActive(st: Stack, n: nat) {
    n < |st.sessions| && st.sessions[n].state == SActive
  }

  /** Every active session has been announced, and APDUs come only for announced sessions. */
  ghost predicate Honest(st: Stack, o: Outcome) {
    && (forall n: nat :: WasActive(o.stack, n) ==> Announced(o.seen, n, WasActive(st, n)))
    && (forall i :: 0 <= i < |o.seen| && o.seen[i].Apdu? ==>
          Announced(o.seen[..i], o.seen[i].number, WasActive(st, o.seen[i].number)))
  }

  ghost predicate NewlyActive(st: Stack, o: Outcome) {
    exists n: nat :: WasActive(o.stack, n) && !WasActive(st, n)
  }

  /** A session that becomes active can be announced, since the application has registered its session callback. */
  ghost predicate Heard(st: Stack, o: Outcome, app: App) {
    app.answer != NoCallback || !NewlyActive(st, o)
  }

  lemma SilentHonest(st: Stack, o: Outcome)
    requires o.seen == [] && forall n: nat :: WasActive(o.stack, n) ==> WasActive(st, n)
    ensures Honest(st, o)
  {
  }

  lemma AnnouncedOne(e: Seen, n: nat, before: bool)
    ensures Announced([e], n, before) <==> Announces(e, n) || (!Withdraws(e, n) && before)
  {
    assert [e][..0] == [];
  }

  lemma AnnouncedTwo(e: Seen, f: Seen, n: nat, before: bool)
    ensures Announced([e, f], n, before) <==>
      Announces(f, n) || (!Withdraws(f, n) && (Announces(e, n) || (!Withdraws(e, n) && before)))
  {
    assert [e, f][..1] == [e];
    AnnouncedOne(e, n, before);
  }

  lemma {:induction false} AnnouncedConcat(a: seq<Seen>, b: seq<Seen>, n: nat, before: bool)
    ensures Announced(a + b, n, before) <==> Announced(b, n, Announced(a, n, before))
    decreases |b|
  {
    if b == [] {
      assert a + b == a;
    } else {
      assert (a + b)[..|a + b| - 1] == a + b[..|b| - 1];
      AnnouncedConcat(a, b[..|b| - 1], n, before);
    }
  }

  // ----- each handler

  lemma CreateKeeps(st: Stack, slot: nat, conn: nat, resource: nat)
    requires WellFormed(st)
    ensures var o := CreateSession(st, slot, conn, resource); StepKeeps(st, o) && Honest(st, o)
  {
    hide TlSend, Frame, ResourceBytes, NumberBytes, Honest;
    var o := CreateSession(st, slot, conn, resource);
    var free := FreeSession(st.sessions, 1);
    if free.Some? {
      var n := free.value;
      var st1 := PutSession(st, n, Session(SInCreation, resource, slot % 0x100, conn));
      TlSendEffect(st1, slot % 0x100, conn, [ST_CREATE_SESSION, 6] + ResourceBytes(resource) + NumberBytes(n));
    }
    SilentHonest(st, o);
  }

  lemma DestroyKeeps(st: Stack, n: nat)
    requires WellFormed(st)
    ensures var o := DestroySession(st, n); StepKeeps(st, o) && Honest(st, o)
  {
    hide TlSend, Frame, NumberBytes, Honest;
    var o := DestroySession(st, n);
    if n < |st.sessions| {
      var s := st.sessions[n];
      TlSendEffect(SetState(st, n, SInDeletion), s.slot, s.conn, [ST_CLOSE_SESSION_REQ, 2] + NumberBytes(n));
    }
    SilentHonest(st, o);
  }

  lemma SendKeeps(st: Stack, n: nat, data: seq<byte>)
    requires WellFormed(st)
    ensures var o := SendApdu(st, n, data); StepKeeps(st, o) && Honest(st, o) && o.stack.sessions == st.sessions
  {
    hide TlSend, Frame, NumberBytes, Honest;
    if n < |st.sessions| {
      var s := st.sessions[n];
      TlSendEffect(st, s.slot, s.conn, [ST_SESSION_NUMBER, 2] + NumberBytes(n) + data);
    }
    SilentHonest(st, SendApdu(st, n, data));
  }

  lemma BroadcastKeeps(st: Stack, slot: Option<nat>, resource: nat, data: seq<byte>)
    requires WellFormed(st)
    ensures var o := Outcome(BroadcastFrom(st, slot, resource, data, 0), [], 0); StepKeeps(st, o) && Honest(st, o)
  {
    hide BroadcastFrom, Honest;
    SilentHonest(st, Outcome(BroadcastFrom(st, slot, resource, data, 0), [], 0));
  }

  lemma OpenRequestKeeps(st: Stack, slot: nat, conn: nat, d: seq<byte>, app: App)
    requires WellFormed(st)
    ensures var o := HandleOpenRequest(st, slot, conn, d, app); StepKeeps(st, o) && Honest(st, o)
  {
    hide TlSend, Frame, NumberBytes, ResourceBytes, Honest;
    var o := HandleOpenRequest(st, slot, conn, d, app);
    var free := FreeSession(st.sessions, 1);
    if |d| >= 5 && d[0] == 4 && free.Some? && OpenStatus(app.lookup) == S_STATUS_OPEN {
      var n := free.value;
      var st1 := PutSession(st, n, Session(SInCreation, app.resource, slot, conn));
      OpenResponseEffect(st1, slot, conn, S_STATUS_OPEN, app.resource, n);
      OpenResponseEffect(st1, slot, conn, S_STATUS_CLOSE_RES_BUSY, app.resource, n);
      OpenResponseEffect(st1, slot, conn, S_STATUS_CLOSE_RES_UNAVAILABLE, app.resource, n);
      if o.stack.sessions[n].state == SActive {
        OpenedHonest(st, o, n, slot, app.resource);
      } else if app.answer == NoCallback {
        SilentHonest(st, o);
      } else {
        ConnectingHonest(st, o, n, slot, app.resource);
      }
    } else {
      OpenResponseEffect(st, slot, conn, OpenStatus(app.lookup), app.resource, -1);
      OpenResponseEffect(st, slot, conn, S_STATUS_CLOSE_NO_RES, app.resource, -1);
      SilentHonest(st, o);
    }
  }

  lemma OpenResponseEffect(st: Stack, slot: nat, conn: nat, status: int, resource: nat, n: int)
    requires WellFormed(st)
    ensures var (st', sent) := OpenResponse(st, slot, conn, status, resource, n);
      && WellFormed(st') && st'.sessions == st.sessions && |st'.slots| == |st.slots|
      && (sent ==> slot < |st.slots|)
  {
    hide TlSend, Frame, NumberBytes, ResourceBytes;
    TlSendEffect(st, slot, conn, [ST_OPEN_SESSION_RES, 7, status % 0x100] + ResourceBytes(resource) + NumberBytes(n));
  }

  lemma OpenedHonest(st: Stack, o: Outcome, n: nat, slot: nat, resource: nat)
    requires o.seen == [Called(CamConnecting, slot, n, resource), Called(CamConnected, slot, n, resource)]
    requires forall m: nat :: WasActive(o.stack, m) && m != n ==> WasActive(st, m)
    ensures Honest(st, o)
  {
    forall m: nat | WasActive(o.stack, m)
      ensures Announced(o.seen, m, WasActive(st, m))
    {
      AnnouncedTwo(o.seen[0], o.seen[1], m, WasActive(st, m));
    }
  }

  lemma ConnectingHonest(st: Stack, o: Outcome, n: nat, slot: nat, resource: nat)
    requires o.seen == [Called(CamConnecting, slot, n, resource)]
    requires forall m: nat :: WasActive(o.stack, m) ==> WasActive(st, m)
    ensures Honest(st, o)
  {
    forall m: nat | WasActive(o.stack, m)
      ensures Announced(o.seen, m, WasActive(st, m))
    {
      AnnouncedOne(o.seen[0], m, WasActive(st, m));
    }
  }

  /** One call of the session callback about session `n`. */
  lemma CallHonest(st: Stack, o: Outcome, e: Seen, n: nat)
    requires o.seen == [e] && e.Called? && e.number == n
    requires forall m: nat :: WasActive(o.stack, m) && m != n ==> WasActive(st, m)
    requires WasActive(o.stack, n) ==> Announces(e, n) || (!Withdraws(e, n) && WasActive(st, n))
    ensures Honest(st, o)
  {
    forall m: nat | WasActive(o.stack, m)
      ensures Announced(o.seen, m, WasActive(st, m))
    {
      AnnouncedOne(e, m, WasActive(st, m));
    }
  }

  lemma CloseRequestKeeps(st: Stack, slot: nat, conn: nat, d: seq<byte>, app: App)
    requires WellFormed(st)
    ensures var o := HandleCloseRequest(st, slot, conn, d, app); StepKeeps(st, o) && Honest(st, o)
  {
    hide TlSend, Frame, NumberBytes, Honest;
    var o := HandleCloseRequest(st, slot, conn, d, app);
    if |d| >= 3 && d[0] == 2 {
      var n := Word(d[1], d[2]);
      TlSendEffect(st, slot, conn, [ST_CLOSE_SESSION_RES, 3, 0xf0] + NumberBytes(n));
      if n < |st.sessions| {
        TlSendEffect(SetState(st, n, SIdle), slot, conn, [ST_CLOSE_SESSION_RES, 3, 0] + NumberBytes(n));
      }
    }
    if o.seen == [] {
      SilentHonest(st, o);
    } else {
      CallHonest(st, o, o.seen[0], Word(d[1], d[2]));
    }
  }

  lemma CreateResponseKeeps(st: Stack, slot: nat, conn: nat, d: seq<byte>, app: App)
    requires WellFormed(st)
    ensures var o := HandleCreateResponse(st, slot, conn, d, app);
      StepKeeps(st, o) && (Heard(st, o, app) ==> Honest(st, o))
  {
    hide Honest;
    var o := HandleCreateResponse(st, slot, conn, d, app);
    if o.seen != [] {
      CallHonest(st, o, o.seen[0], Word(d[5], d[6]));
    } else if Heard(st, o, app) {
      SilentHonest(st, o);
    }
  }

  lemma CloseResponseKeeps(st: Stack, slot: nat, conn: nat, d: seq<byte>)
    requires WellFormed(st)
    ensures var o := HandleCloseResponse(st, slot, conn, d); StepKeeps(st, o) && Honest(st, o)
  {
    hide Honest;
    SilentHonest(st, HandleCloseResponse(st, slot, conn, d));
  }

  lemma {:induction false} ApdusHonest(st: Stack, seen: seq<Seen>, n: nat, m: nat)
    requires forall i :: 0 <= i < |seen| ==> seen[i].Apdu? && seen[i].number == n
    ensures Announced(seen, m, WasActive(st, m)) <==> WasActive(st, m)
  {
    if seen != [] {
      ApdusHonest(st, seen[..|seen| - 1], n, m);
    }
  }

  lemma PackageKeeps(st: Stack, slot: nat, conn: nat, d: seq<byte>)
    requires WellFormed(st)
    ensures var o := HandlePackage(st, slot, conn, d); StepKeeps(st, o) && Honest(st, o)
  {
    var o := HandlePackage(st, slot, conn, d);
    if o.seen == [] {
      SilentHonest(st, o);
    } else {
      var n := Word(d[1], d[2]);
      hide HandlePackage, Apdus;
      PackageSeen(st, slot, conn, d);
      forall m: nat | WasActive(o.stack, m)
        ensures Announced(o.seen, m, WasActive(st, m))
      {
        ApdusHonest(st, o.seen, n, m);
      }
      forall i | 0 <= i < |o.seen| && o.seen[i].Apdu?
        ensures Announced(o.seen[..i], o.seen[i].number, WasActive(st, o.seen[i].number))
      {
        ApdusHonest(st, o.seen[..i], n, n);
      }
    }
  }

  lemma PackageSeen(st: Stack, slot: nat, conn: nat, d: seq<byte>)
    requires WellFormed(st)
    ensures var o := HandlePackage(st, slot, conn, d);
      && o.stack == st
      && (o.seen != [] ==>
            && |d| >= 3 && WasActive(st, Word(d[1], d[2]))
            && forall i :: 0 <= i < |o.seen| ==> o.seen[i].Apdu? && o.seen[i].number == Word(d[1], d[2]))
  {
    hide SplitApdus;
  }

  lemma DataKeeps(st: Stack, slot: nat, conn: nat, data: seq<byte>, app: App)
    requires WellFormed(st)
    ensures var o := HandleData(st, slot, conn, data, app);
      StepKeeps(st, o) && (Heard(st, o, app) ==> Honest(st, o))
  {
    hide Honest, StepKeeps, HandleOpenRequest, HandleCloseRequest, HandlePackage, HandleCreateResponse, HandleCloseResponse;
    NothingKeeps(st, 0);
    if |data| >= 1 {
      OpenRequestKeeps(st, slot, conn, data[1..], app);
      CloseRequestKeeps(st, slot, conn, data[1..], app);
      PackageKeeps(st, slot, conn, data[1..]);
      CreateResponseKeeps(st, slot, conn, data[1..], app);
      CloseResponseKeeps(st, slot, conn, data[1..]);
    }
  }

  lemma NothingKeeps(st: Stack, value: int)
    requires WellFormed(st)
    ensures StepKeeps(st, Outcome(st, [], value)) && Honest(st, Outcome(st, [], value))
  {
    SilentHonest(st, Outcome(st, [], value));
  }

  // ----- sessions that end with their connection

  /** A report that session `e.number`, one of those that end, has been closed. */
  predicate ReportsEnd(ss: seq<Session>, ends: Session -> bool, e: Seen) {
    e.Called? && e.number < |ss| && ends(ss[e.number]) &&
    e == Called(Close, ss[e.number].slot, e.number, ss[e.number].resource)
  }

  /** One report for each session that ends, in order of session numbers from `i` on. */
  predicate ReportsEnds(ss: seq<Session>, ends: Session -> bool, i: nat, seen: seq<Seen>) {
    && (forall k :: 0 <= k < |seen| ==> ReportsEnd(ss, ends, seen[k]))
    && (forall k :: 0 <= k < |seen| ==> i <= seen[k].number)
    && (forall k, m :: 0 <= k < m < |seen| ==> seen[k].number < seen[m].number)
  }

  lemma {:induction false} CloseReportsExact(ss: seq<Session>, ends: Session -> bool, i: nat)
    requires i <= |ss|
    ensures ReportsEnds(ss, ends, i, CloseReports(ss, ends, i))
    decreases |ss| - i
  {
    if i < |ss| {
      CloseReportsExact(ss, ends, i + 1);
      var rest := CloseReports(ss, ends, i + 1);
      if ends(ss[i]) {
        MoreReports(ss, ends, i, rest);
      } else {
        assert CloseReports(ss, ends, i) == rest;
      }
    }
  }

  lemma MoreReports(ss: seq<Session>, ends: Session -> bool, i: nat, rest: seq<Seen>)
    requires i < |ss| && ends(ss[i]) && ReportsEnds(ss, ends, i + 1, rest)
    ensures ReportsEnds(ss, ends, i, [Called(Close, ss[i].slot, i, ss[i].resource)] + rest)
  {
    var seen := [Called(Close, ss[i].slot, i, ss[i].resource)] + rest;
    forall k | 0 <= k < |seen|
      ensures ReportsEnd(ss, ends, seen[k]) && i <= seen[k].number
    {
      if k > 0 {
        assert seen[k] == rest[k - 1];
      }
    }
    forall k, m | 0 <= k < m < |seen|
      ensures seen[k].number < seen[m].number
    {
      assert seen[m] == rest[m - 1];
      if k > 0 {
        assert seen[k] == rest[k - 1];
      }
    }
  }

  /** Every session that ends is reported. */
  lemma {:induction false} CloseReportsAll(ss: seq<Session>, ends: Session -> bool, i: nat, n: nat)
    requires i <= n < |ss| && ends(ss[n])
    ensures Called(Close, ss[n].slot, n, ss[n].resource) in CloseReports(ss, ends, i)
    decreases n - i
  {
    if i < n {
      CloseReportsAll(ss, ends, i + 1, n);
    }
  }

  lemma {:induction false} OthersAnnounced(seen: seq<Seen>, n: nat, before: bool)
    requires forall k :: 0 <= k < |seen| ==> seen[k].Called? && seen[k].cause == Close && seen[k].number != n
    ensures Announced(seen, n, before) <==> before
  {
    if seen != [] {
      OthersAnnounced(seen[..|seen| - 1], n, before);
    }
  }

  lemma EndSessionsKeeps(st: Stack, ends: Session -> bool, app: App)
    requires WellFormed(st)
    ensures var o := EndSessions(st, ends, app);
      StepKeeps(st, o) && (Heard(st, o, app) ==> Honest(st, o))
  {
    var o := EndSessions(st, ends, app);
    if app.answer != NoCallback {
      CloseReportsExact(st.sessions, ends, 0);
      assert o.seen == CloseReports(st.sessions, ends, 0);
      hide CloseReports;
      forall m: nat | WasActive(o.stack, m)
        ensures Announced(o.seen, m, WasActive(st, m))
      {
        assert !ends(st.sessions[m]);
        forall k | 0 <= k < |o.seen|
          ensures o.seen[k].Called? && o.seen[k].cause == Close && o.seen[k].number != m
        {
          assert ReportsEnd(st.sessions, ends, o.seen[k]);
        }
        OthersAnnounced(o.seen, m, WasActive(st, m));
      }
      forall i | 0 <= i < |o.seen|
        ensures !o.seen[i].Apdu?
      {
        assert ReportsEnd(st.sessions, ends, o.seen[i]);
      }
    } else {
      SilentHonest(st, o);
    }
  }

  lemma NotifyKeeps(st: Stack, slot: nat, e: Event, app: App)
    requires WellFormed(st) && e.Notify?
    ensures var o := OnNotify(st, slot, e, app);
      StepKeeps(st, o) && (Heard(st, o, app) ==> Honest(st, o))
  {
    hide Honest, StepKeeps, HandleData, EndSessions;
    match e.reason
    case Data => DataKeeps(st, slot, e.conn, e.data, app);
    case ConnectionOpen => TellKeeps(st, TcConnect, slot, e.conn, app);
    case CamConnectionOpen => TellKeeps(st, TcCamConnect, slot, e.conn, app);
    case ConnectionClose => EndSessionsKeeps(st, s => EndsOnClose(s, e.conn), app);
    case SlotClose => EndSessionsKeeps(st, s => EndsOnSlotClose(s, slot), app);
  }

  lemma TellKeeps(st: Stack, cause: Cause, slot: nat, n: nat, app: App)
    requires WellFormed(st) && (cause == TcConnect || cause == TcCamConnect)
    ensures var o := Outcome(st, Tell(app, cause, slot, n, 0), 0); StepKeeps(st, o) && Honest(st, o)
  {
    var o := Outcome(st, Tell(app, cause, slot, n, 0), 0);
    hide Honest;
    if o.seen == [] {
      SilentHonest(st, o);
    } else {
      CallHonest(st, o, o.seen[0], n);
    }
  }

  /** Every step of every kind. */
  lemma StackStepKeeps(st: Stack, step: StackStep)
    requires WellFormed(st)
    ensures var o := TakeStack(st, step);
      StepKeeps(st, o) && ((step.OnSlot? ==> Heard(st, o, step.app)) ==> Honest(st, o))
  {
    hide Honest, StepKeeps, CreateSession, DestroySession, SendApdu, BroadcastFrom, Take, OnNotify, Concat;
    match step
    case OnSlot(slot, step', app) =>
      if slot < |st.slots| {
        var r := Take(st.slots[slot], step');
        var st1 := st.(slots := st.slots[slot := r.slot]);
        assert WellFormed(st1);
        var report := Report(r.events);
        NothingKeeps(st1, 0);
        if report.Some? {
          NotifyKeeps(st1, slot, report.value, app);
        }
        SlotsApart(st, st1, TakeStack(st, step));
      } else {
        NothingKeeps(st, 0);
      }
    case Create(slot, conn, resource) => CreateKeeps(st, slot, conn, resource);
    case Destroy(n) => DestroyKeeps(st, n);
    case Send(n, apdu) => SendKeeps(st, n, apdu);
    case SendVector(n, pieces) =>
      SendKeeps(st, n, Concat(pieces));
      NothingKeeps(st, -1);
    case Broadcast(slot, resource, apdu) => BroadcastKeeps(st, slot, resource, apdu);
  }

  /** What a step means for the sessions does not depend on the slots it started from. */
  lemma SlotsApart(st: Stack, st1: Stack, o: Outcome)
    requires st1.sessions == st.sessions && |st1.slots| == |st.slots|
    ensures StepKeeps(st1, o) ==> StepKeeps(st, o)
    ensures Honest(st1, o) <==> Honest(st, o)
    ensures NewlyActive(st1, o) <==> NewlyActive(st, o)
  {
    assert forall n: nat :: WasActive(st1, n) == WasActive(st, n);
  }

  // ----- without a session callback

  predicate NoCalls(seen: seq<Seen>) {
    forall k :: 0 <= k < |seen| ==> !seen[k].Called?
  }

  lemma {:induction false} NoCallsAnnounced(seen: seq<Seen>, n: nat, before: bool)
    requires NoCalls(seen)
    ensures Announced(seen, n, before) <==> before
  {
    if seen != [] {
      NoCallsAnnounced(seen[..|seen| - 1], n, before);
    }
  }

  lemma NotifyCallsNobody(st: Stack, slot: nat, e: Event, app: App)
    requires WellFormed(st) && e.Notify? && app.answer == NoCallback
    ensures NoCalls(OnNotify(st, slot, e, app).seen)
  {
    hide TlSend, Frame, NumberBytes, ResourceBytes, SplitApdus, CloseReports, EndAll;
  }

  /**
   One step announces what it makes active, and delivers only on sessions that are, if and only if it does not
   activate a session while no session callback is registered.
   */
  lemma StackStepHonestIff(st: Stack, step: StackStep)
    requires WellFormed(st)
    ensures var o := TakeStack(st, step); Honest(st, o) <==> (step.OnSlot? ==> Heard(st, o, step.app))
  {
    hide TakeStack;
    StackStepKeeps(st, step);
    var o := TakeStack(st, step);
    if step.OnSlot? && !Heard(st, o, step.app) {
      StepCallsNobody(st, step);
      var n: nat :| WasActive(o.stack, n) && !WasActive(st, n);
      NoCallsAnnounced(o.seen, n, false);
    }
  }

  lemma StepCallsNobody(st: Stack, step: StackStep)
    requires WellFormed(st) && step.OnSlot? && step.app.answer == NoCallback
    ensures NoCalls(TakeStack(st, step).seen)
  {
    hide Take, OnNotify;
    if step.slot < |st.slots| {
      var r := Take(st.slots[step.slot], step.step);
      var st1 := st.(slots := st.slots[step.slot := r.slot]);
      assert WellFormed(st1);
      var report := Report(r.events);
      if report.Some? {
        NotifyCallsNobody(st1, step.slot, report.value, step.app);
      }
    }
  }

  // ----- whole runs

  function StackAfter(st: Stack, steps: seq<StackStep>): (r: Stack)
    requires WellFormed(st)
    ensures WellFormed(r) && |r.slots| == |st.slots| && |r.sessions| == |st.sessions|
  {
    if steps == [] then st
    else
      var before := StackAfter(st, steps[..|steps| - 1]);
      StackStepKeeps(before, steps[|steps| - 1]);
      TakeStack(before, steps[|steps| - 1]).stack
  }

  /** Everything the application has seen during a run. */
  function Trace(st: Stack, steps: seq<StackStep>): seq<Seen>
    requires WellFormed(st)
  {
    if steps == [] then []
    else
      var front := steps[..|steps| - 1];
      Trace(st, front) + TakeStack(StackAfter(st, front), steps[|steps| - 1]).seen
  }

  /** A stack in which no session is in use. */
  predicate AllIdle(st: Stack) {
    forall n :: 0 <= n < |st.sessions| ==> st.sessions[n].state == SIdle
  }

  /** No session becomes active in the run while the application has no session callback registered. */
  ghost predicate Listening(st: Stack, steps: seq<StackStep>)
    requires WellFormed(st)
  {
    forall i :: 0 <= i < |steps| ==> Attended(StackAfter(st, steps[..i]), steps[i])
  }

  ghost predicate Attended(st: Stack, step: StackStep)
    requires WellFormed(st)
  {
    step.OnSlot? ==> Heard(st, TakeStack(st, step), step.app)
  }

  lemma ListeningFront(st: Stack, steps: seq<StackStep>)
    requires WellFormed(st) && steps != [] && Listening(st, steps)
    ensures Listening(st, steps[..|steps| - 1])
    ensures Attended(StackAfter(st, steps[..|steps| - 1]), steps[|steps| - 1])
  {
    hide Attended, StackAfter;
    var front := steps[..|steps| - 1];
    forall i | 0 <= i < |front|
      ensures Attended(StackAfter(st, front[..i]), front[i])
    {
      assert front[..i] == steps[..i] && front[i] == steps[i];
    }
  }

  lemma RunSessionMoves(st: Stack, steps: seq<StackStep>, i: nat, n: nat)
    requires WellFormed(st) && i < |steps| && n < |st.sessions|
    ensures SessionMoves(StackAfter(st, steps[..i]).sessions[n].state, StackAfter(st, steps[..i + 1]).sessions[n].state)
  {
    hide TakeStack;
    assert steps[..i + 1][..i] == steps[..i];
    StackStepKeeps(StackAfter(st, steps[..i]), steps[i]);
  }

  lemma {:induction false} SessionZeroIdle(st: Stack, steps: seq<StackStep>)
    requires WellFormed(st) && AllIdle(st) && |st.sessions| > 0
    ensures StackAfter(st, steps).sessions[0].state == SIdle
  {
    hide TakeStack;
    if steps != [] {
      SessionZeroIdle(st, steps[..|steps| - 1]);
      StackStepKeeps(StackAfter(st, steps[..|steps| - 1]), steps[|steps| - 1]);
    }
  }

  lemma {:induction false} ActiveAnnounced(st: Stack, steps: seq<StackStep>, n: nat)
    requires WellFormed(st) && AllIdle(st) && Listening(st, steps)
    ensures WasActive(StackAfter(st, steps), n) ==> Announced(Trace(st, steps), n, false)
  {
    hide TakeStack;
    if steps != [] {
      var front := steps[..|steps| - 1];
      var before := StackAfter(st, front);
      ListeningFront(st, steps);
      ActiveAnnounced(st, front, n);
      StackStepKeeps(before, steps[|steps| - 1]);
      var seen := TakeStack(before, steps[|steps| - 1]).seen;
      AnnouncedConcat(Trace(st, front), seen, n, false);
      if WasActive(StackAfter(st, steps), n) {
        AnnouncedMonotone(seen, n, WasActive(before, n), Announced(Trace(st, front), n, false));
      }
    }
  }

  lemma {:induction false} AnnouncedMonotone(seen: seq<Seen>, n: nat, a: bool, b: bool)
    requires Announced(seen, n, a) && (a ==> b)
    ensures Announced(seen, n, b)
  {
    if seen != [] && !Announces(seen[|seen| - 1], n) {
      AnnouncedMonotone(seen[..|seen| - 1], n, a, b);
    }
  }

  /**
   Safety of delivery: in every run that starts with all sessions idle, and in which no session becomes active
   while no session callback is registered, an APDU is delivered on a session number only while that number stands
   announced: its latest CONNECTED, CAMCONNECTED or CLOSE call is not a CLOSE, and there is one.
   */
  lemma {:induction false} ApdusAnnounced(st: Stack, steps: seq<StackStep>, i: nat)
    requires WellFormed(st) && AllIdle(st) && Listening(st, steps)
    requires i < |Trace(st, steps)| && Trace(st, steps)[i].Apdu?
    ensures Announced(Trace(st, steps)[..i], Trace(st, steps)[i].number, false)
  {
    hide TakeStack, Announced;
    if steps != [] {
      var front := steps[..|steps| - 1];
      var before := StackAfter(st, front);
      var (a, b) := (Trace(st, front), TakeStack(before, steps[|steps| - 1]).seen);
      ListeningFront(st, steps);
      if i < |a| {
        ApdusAnnounced(st, front, i);
        assert (a + b)[..i] == a[..i];
      } else {
        var (k, n) := (i - |a|, b[i - |a|].number);
        StackStepKeeps(before, steps[|steps| - 1]);
        ActiveAnnounced(st, front, n);
        assert (a + b)[..i] == a + b[..k];
        AnnouncedConcat(a, b[..k], n, false);
        AnnouncedMonotone(b[..k], n, WasActive(before, n), Announced(a, n, false));
      }
    }
  }
}
