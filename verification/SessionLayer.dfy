/**
 The session layer as the library keeps it: an array of sessions updated in place, above a transport layer.
 Every method is specified by the function of module `Sessions` that says what it does to both layers.
 */
module SessionLayers {
  import opened Bytes
  import opened Framing
  import opened Transport
  import opened TransportLayers
  import opened Sessions
  import opened Wrappers

  class SessionLayer {
    const tl: TransportLayer
    const sessions: array<Session>

    ghost predicate Valid()
      reads this, sessions, tl, tl.Repr
    {
      && tl.Valid() && this !in tl.Repr && sessions !in tl.Repr
      && sessions.Length <= 0x10000
    }

    ghost function Value(): (st: Stack)
      requires Valid()
      reads this, sessions, tl, tl.Repr
      ensures WellFormed(st)
    {
      Stack(tl.Value(), sessions[..])
    }

    /** `en50221_sl_create` */
    constructor (tl: TransportLayer, maxSessions: nat)
      requires tl.Valid() && maxSessions <= 0x10000
      ensures Valid() && this.tl == tl && sessions.Length == maxSessions
      ensures Value().slots == tl.Value()
      ensures forall i :: 0 <= i < maxSessions ==> Value().sessions[i].state == SIdle
    {
      this.tl := tl;
      sessions := new Session[maxSessions](_ => Session(SIdle, 0, 0, 0));
    }

    /** Sends through the transport layer; the sessions stay as they are. */
    method TransportSend(slot: nat, conn: nat, pieces: seq<seq<byte>>) returns (sent: bool)
      requires Valid()
      modifies tl.Repr
      ensures Valid() && fresh(tl.Repr - old(tl.Repr)) && unchanged(sessions)
      ensures (Value(), sent) == TlSend(old(Value()), slot, conn, Concat(pieces))
    {
      sent := tl.SendDatav(slot, conn, pieces);
    }

    method SetSession(n: nat, s: Session)
      requires Valid() && n < sessions.Length
      modifies sessions
      ensures Valid() && Value() == PutSession(old(Value()), n, s)
    {
      sessions[n] := s;
    }

    method SetSessionState(n: nat, state: SessionState)
      requires Valid() && n < sessions.Length
      modifies sessions
      ensures Valid() && Value() == SetState(old(Value()), n, state)
    {
      SetSession(n, sessions[n].(state := state));
    }

    /** The loop of `en50221_sl_alloc_new_session`. */
    method FindFree() returns (number: int)
      requires Valid()
      ensures match FreeSession(Value().sessions, 1)
        case None => number == -1
        case Some(n) => number == n
    {
      var i := 1;
      while i < sessions.Length
        invariant 1 <= i && FreeSession(sessions[..], 1) == FreeSession(sessions[..], i)
      {
        if sessions[i].state == SIdle {
          return i;
        }
        i := i + 1;
      }
      return -1;
    }

    // ----- calls of the host

    /** `en50221_sl_create_session` */
    method Create(slot: nat, conn: nat, resource: nat) returns (number: int)
      requires Valid()
      modifies sessions, tl.Repr
      ensures Valid() && fresh(tl.Repr - old(tl.Repr))
      ensures Outcome(Value(), [], number) == CreateSession(old(Value()), slot, conn, resource)
    {
      hide PutSession, SetState, TlSend;
      number := FindFree();
      if number == -1 {
        return;
      }
      SetSession(number, Session(SInCreation, resource, slot % 0x100, conn));
      var header := [ST_CREATE_SESSION, 6] + ResourceBytes(resource) + NumberBytes(number);
      ConcatOne(header);
      var sent := TransportSend(slot % 0x100, conn, [header]);
      if !sent {
        SetSessionState(number, SIdle);
        number := -1;
      }
    }

    /** `en50221_sl_destroy_session` */
    method Destroy(n: nat) returns (code: int)
      requires Valid()
      modifies sessions, tl.Repr
      ensures Valid() && fresh(tl.Repr - old(tl.Repr))
      ensures Outcome(Value(), [], code) == DestroySession(old(Value()), n)
    {
      hide PutSession, SetState, TlSend;
      if n >= sessions.Length || (sessions[n].state != SActive && sessions[n].state != SInDeletion) {
        return -1;
      }
      var s := sessions[n];
      SetSessionState(n, SInDeletion);
      var header := [ST_CLOSE_SESSION_REQ, 2] + NumberBytes(n);
      ConcatOne(header);
      var sent := TransportSend(s.slot, s.conn, [header]);
      if sent {
        return 0;
      }
      SetSessionState(n, SIdle);
      return -1;
    }

    /** `en50221_sl_send_data` */
    method SendData(n: nat, data: seq<byte>) returns (code: int)
      requires Valid()
      modifies tl.Repr
      ensures Valid() && fresh(tl.Repr - old(tl.Repr)) && unchanged(sessions)
      ensures Outcome(Value(), [], code) == SendApdu(old(Value()), n, data)
    {
      hide TlSend;
      if n >= sessions.Length || sessions[n].state != SActive {
        return -1;
      }
      var header := [ST_SESSION_NUMBER, 2] + NumberBytes(n);
      ConcatTwo(header, data);
      var sent := TransportSend(sessions[n].slot, sessions[n].conn, [header, data]);
      return if sent then 0 else -1;
    }

    /** `en50221_sl_send_datav` */
    method SendDatav(n: nat, pieces: seq<seq<byte>>) returns (code: int)
      requires Valid()
      modifies tl.Repr
      ensures Valid() && fresh(tl.Repr - old(tl.Repr)) && unchanged(sessions)
      ensures Outcome(Value(), [], code) == SendPieces(old(Value()), n, pieces)
    {
      hide TlSend;
      if n >= sessions.Length || sessions[n].state != SActive || |pieces| > IOV_LIMIT {
        return -1;
      }
      var header := [ST_SESSION_NUMBER, 2] + NumberBytes(n);
      assert Concat([header] + pieces) == header + Concat(pieces);
      var sent := TransportSend(sessions[n].slot, sessions[n].conn, [header] + pieces);
      return if sent then 0 else -1;
    }

    /** `en50221_sl_broadcast_data`; no slot means all slots. */
    method Broadcast(slot: Option<nat>, resource: nat, data: seq<byte>)
      requires Valid()
      modifies tl.Repr
      ensures Valid() && fresh(tl.Repr - old(tl.Repr)) && unchanged(sessions)
      ensures Value() == BroadcastFrom(old(Value()), slot, resource, data, 0)
    {
      assert Value().sessions == sessions[..];
      hide SendApdu, Value, BroadcastFrom;
      var i: nat := 0;
      while i < sessions.Length
        invariant i <= sessions.Length && Valid() && fresh(tl.Repr - old(tl.Repr)) && unchanged(sessions)
        invariant Value().sessions == sessions[..]
        invariant BroadcastFrom(Value(), slot, resource, data, i) == BroadcastFrom(old(Value()), slot, resource, data, 0)
      {
        BroadcastStep(Value(), slot, resource, data, i);
        if Hears(sessions[i], slot, resource) {
          var _ := SendData(i, data);
        }
        i := i + 1;
      }
      BroadcastEnd(Value(), slot, resource, data);
    }

    lemma BroadcastEnd(st: Stack, slot: Option<nat>, resource: nat, data: seq<byte>)
      requires WellFormed(st)
      ensures BroadcastFrom(st, slot, resource, data, |st.sessions|) == st
    {
    }

    lemma BroadcastStep(st: Stack, slot: Option<nat>, resource: nat, data: seq<byte>, i: nat)
      requires WellFormed(st) && i < |st.sessions|
      ensures
        var st' := if Hears(st.sessions[i], slot, resource) then SendApdu(st, i, data).stack else st;
        && WellFormed(st') && st'.sessions == st.sessions
        && BroadcastFrom(st, slot, resource, data, i) == BroadcastFrom(st', slot, resource, data, i + 1)
    {
    }

    // ----- session PDUs from the module

    /** `en50221_sl_handle_open_session_request` */
    method HandleOpen(slot: nat, conn: nat, d: seq<byte>, app: App) returns (seen: seq<Seen>)
      requires Valid()
      modifies sessions, tl.Repr
      ensures Valid() && fresh(tl.Repr - old(tl.Repr))
      ensures Outcome(Value(), seen, 0) == HandleOpenRequest(old(Value()), slot, conn, d, app)
    {
      hide PutSession, SetState, TlSend, NumberBytes, ResourceBytes;
      seen := [];
      if |d| < 5 || d[0] != 4 {
        return;
      }
      var (status, number) := (OpenStatus(app.lookup), -1);
      if status == S_STATUS_OPEN {
        number := FindFree();
        if number == -1 {
          status := S_STATUS_CLOSE_NO_RES;
        } else {
          SetSession(number, Session(SInCreation, app.resource, slot, conn));
          seen := Tell(app, CamConnecting, slot, number, app.resource);
          status := match app.answer
            case NoCallback => S_STATUS_CLOSE_RES_UNAVAILABLE
            case Accepts => S_STATUS_OPEN
            case Refuses => S_STATUS_CLOSE_RES_BUSY;
        }
      }
      var header := [ST_OPEN_SESSION_RES, 7, status % 0x100] + ResourceBytes(app.resource) + NumberBytes(number);
      ConcatOne(header);
      var sent := TransportSend(slot, conn, [header]);
      if number == -1 {
        return;
      }
      if sent && status == S_STATUS_OPEN {
        SetSessionState(number, SActive);
        seen := seen + Tell(app, CamConnected, slot, number, app.resource);
      } else {
        SetSessionState(number, SIdle);
      }
    }

    /** `en50221_sl_handle_close_session_request` */
    method HandleCloseReq(slot: nat, conn: nat, d: seq<byte>, app: App) returns (seen: seq<Seen>)
      requires Valid()
      modifies sessions, tl.Repr
      ensures Valid() && fresh(tl.Repr - old(tl.Repr))
      ensures Outcome(Value(), seen, 0) == HandleCloseRequest(old(Value()), slot, conn, d, app)
    {
      hide SetState, TlSend, NumberBytes;
      seen := [];
      if |d| < 3 || d[0] != 2 {
        return;
      }
      var n := Word(d[1], d[2]);
      var code: byte := 0;
      if n >= sessions.Length || !On(sessions[n], slot, conn)
         || (sessions[n].state != SActive && sessions[n].state != SInDeletion) {
        code := 0xf0;
      } else {
        seen := Tell(app, Close, slot, n, sessions[n].resource);
        SetSessionState(n, SIdle);
      }
      var header := [ST_CLOSE_SESSION_RES, 3, code] + NumberBytes(n);
      ConcatOne(header);
      var _ := TransportSend(slot, conn, [header]);
    }

    /** `en50221_sl_handle_create_session_response` */
    method HandleCreateResp(slot: nat, conn: nat, d: seq<byte>, app: App) returns (seen: seq<Seen>)
      requires Valid()
      modifies sessions
      ensures Valid() && Outcome(Value(), seen, 0) == HandleCreateResponse(old(Value()), slot, conn, d, app)
    {
      hide SetState;
      seen := [];
      if |d| < 8 || d[0] != 7 {
        return;
      }
      var n := Word(d[5], d[6]);
      if n >= sessions.Length || !On(sessions[n], slot, conn) || sessions[n].state != SInCreation {
        return;
      }
      var granted := d[1] == S_STATUS_OPEN;
      seen := Tell(app, if granted then Connected else ConnectFail, slot, n, sessions[n].resource);
      SetSessionState(n, if granted then SActive else SIdle);
    }

    /** `en50221_sl_handle_close_session_response` */
    method HandleCloseResp(slot: nat, conn: nat, d: seq<byte>)
      requires Valid()
      modifies sessions
      ensures Valid() && Outcome(Value(), [], 0) == HandleCloseResponse(old(Value()), slot, conn, d)
    {
      hide SetState;
      if |d| < 5 || d[0] != 4 {
        return;
      }
      var n := Word(d[2], d[3]);
      if n < sessions.Length && On(sessions[n], slot, conn) && sessions[n].state == SInDeletion {
        SetSessionState(n, SIdle);
      }
    }

    /** `en50221_sl_handle_session_package` */
    method HandleSessionPackage(slot: nat, conn: nat, d: seq<byte>) returns (seen: seq<Seen>)
      requires Valid()
      ensures Outcome(Value(), seen, 0) == HandlePackage(Value(), slot, conn, d)
    {
      hide SplitApdus;
      if |d| < 3 || d[0] != 2 {
        return [];
      }
      var n := Word(d[1], d[2]);
      if n >= sessions.Length || !On(sessions[n], slot, conn) || sessions[n].state != SActive {
        return [];
      }
      var apdus, _ := DeliverApdus(d[3..]);
      return Apdus(slot, n, sessions[n].resource, apdus);
    }

    // ----- reports of the transport layer

    /** The loops that end the sessions of a closed connection or slot. */
    method EndWhere(ends: Session -> bool, app: App) returns (seen: seq<Seen>)
      requires Valid()
      modifies sessions
      ensures Valid() && Outcome(Value(), seen, 0) == EndSessions(old(Value()), ends, app)
    {
      ghost var was := sessions[..];
      seen := [];
      var i: nat := 0;
      while i < sessions.Length
        invariant i <= sessions.Length && Valid() && unchanged(tl, tl.Repr)
        invariant forall j :: 0 <= j < i ==> sessions[j] == if ends(was[j]) then was[j].(state := SIdle) else was[j]
        invariant forall j :: i <= j < sessions.Length ==> sessions[j] == was[j]
        invariant app.answer == NoCallback ==> seen == []
        invariant app.answer != NoCallback ==> seen + CloseReports(was, ends, i) == CloseReports(was, ends, 0)
      {
        hide Valid;
        var s := sessions[i];
        if ends(s) {
          sessions[i] := s.(state := SIdle);
          ReportsOn(was, ends, i, seen);
          seen := seen + Tell(app, Close, s.slot, i, s.resource);
        }
        i := i + 1;
      }
      assert sessions[..] == EndAll(was, ends);
    }

    lemma ReportsOn(ss: seq<Session>, ends: Session -> bool, i: nat, seen: seq<Seen>)
      requires i < |ss| && ends(ss[i])
      ensures seen + CloseReports(ss, ends, i)
           == seen + [Called(Close, ss[i].slot, i, ss[i].resource)] + CloseReports(ss, ends, i + 1)
    {
    }

    method HandleSpdu(slot: nat, conn: nat, data: seq<byte>, app: App) returns (seen: seq<Seen>)
      requires Valid()
      modifies sessions, tl.Repr
      ensures Valid() && fresh(tl.Repr - old(tl.Repr))
      ensures Outcome(Value(), seen, 0) == HandleData(old(Value()), slot, conn, data, app)
    {
      hide HandleOpenRequest, HandleCloseRequest, HandlePackage, HandleCreateResponse, HandleCloseResponse;
      seen := [];
      if |data| < 1 {
        return;
      }
      var (tag, d) := (data[0], data[1..]);
      if tag == ST_OPEN_SESSION_REQ {
        seen := HandleOpen(slot, conn, d, app);
      } else if tag == ST_CLOSE_SESSION_REQ {
        seen := HandleCloseReq(slot, conn, d, app);
      } else if tag == ST_SESSION_NUMBER {
        seen := HandleSessionPackage(slot, conn, d);
      } else if tag == ST_CREATE_SESSION_RES {
        seen := HandleCreateResp(slot, conn, d, app);
      } else if tag == ST_CLOSE_SESSION_RES {
        HandleCloseResp(slot, conn, d);
      }
    }

    /** `en50221_sl_transport_callback` */
    method TransportCallback(slot: nat, e: Event, app: App) returns (seen: seq<Seen>)
      requires Valid() && e.Notify?
      modifies sessions, tl.Repr
      ensures Valid() && fresh(tl.Repr - old(tl.Repr))
      ensures Outcome(Value(), seen, 0) == OnNotify(old(Value()), slot, e, app)
    {
      hide HandleData, EndSessions;
      match e.reason
      case Data => seen := HandleSpdu(slot, e.conn, e.data, app);
      case ConnectionOpen => seen := Tell(app, TcConnect, slot, e.conn, 0);
      case CamConnectionOpen => seen := Tell(app, TcCamConnect, slot, e.conn, 0);
      case ConnectionClose => seen := EndWhere(s => EndsOnClose(s, e.conn), app);
      case SlotClose => seen := EndWhere(s => EndsOnSlotClose(s, slot), app);
    }

    /** A TPDU comes in: the transport layer handles it, and its report, if there is one, is passed up. */
    method Receive(slot: nat, t: Tpdu, first: bool, second: bool, app: App) returns (seen: seq<Seen>)
      requires Valid() && slot < tl.slots.Length
      modifies sessions, tl.Repr
      ensures Valid() && fresh(tl.Repr - old(tl.Repr))
      ensures Outcome(Value(), seen, 0) == TakeOnSlot(old(Value()), slot, Step.Incoming(t, first, second), app)
    {
      hide OnNotify, Take;
      var events := tl.Incoming(slot, t, first, second);
      seen := [];
      if events != [] && events[|events| - 1].Notify? {
        seen := TransportCallback(slot, events[|events| - 1], app);
      }
    }
  }
}
