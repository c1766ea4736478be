/**
 The transport layer as the library keeps it: an array of slots, each with an array of connections that are
 updated in place and carry a linked send queue. Every method is specified by the function of module
 `Transport` that says what it does to the slot's value.
 */
module TransportLayers {
  import opened Bytes
  import opened Framing
  import opened Transport
  import opened Wrappers

  /** A queued message; `owner` is the connection in whose queue it is or was. */
  class Message {
    const data: seq<byte>
    var next: Message?
    ghost var owner: Connection?

    constructor (data: seq<byte>)
      ensures this.data == data && next == null && owner == null
    {
      this.data := data;
      next := null;
      owner := null;
    }
  }

  class Connection {
    var state: TcState
    var waiting: bool
    var chainBuffer: Option<seq<byte>>
    var sendQueue: Message?
    var sendQueueTail: Message?
    ghost var nodes: seq<Message>

    /** The queue is the chain of `nodes`, from the head to the tail. */
    ghost predicate Valid()
      reads this, nodes
    {
      && (forall i :: 0 <= i < |nodes| ==> nodes[i].owner == this)
      && (forall i, j :: 0 <= i < j < |nodes| ==> nodes[i] != nodes[j])
      && (forall i {:trigger nodes[i].next} :: 0 <= i < |nodes| - 1 ==> nodes[i].next == nodes[i + 1])
      && (nodes != [] ==> nodes[|nodes| - 1].next == null)
      && sendQueue == (if nodes == [] then null else nodes[0])
      && sendQueueTail == (if nodes == [] then null else nodes[|nodes| - 1])
    }

    ghost function Messages(): (q: seq<seq<byte>>)
      reads this`nodes
      ensures |q| == |nodes|
    {
      var msgs := nodes;
      seq(|msgs|, i requires 0 <= i < |msgs| => msgs[i].data)
    }

    ghost function Value(): Conn
      reads this
    {
      Conn(state, waiting, chainBuffer, Messages())
    }

    constructor ()
      ensures Valid() && Value() == FRESH && nodes == []
    {
      state, waiting, chainBuffer := Idle, false, None;
      sendQueue, sendQueueTail := null, null;
      nodes := [];
    }

    /** `queue_message` */
    method QueueMessage(msg: Message)
      requires Valid() && msg.owner == null
      modifies this, nodes, msg
      ensures Valid() && nodes == old(nodes) + [msg]
      ensures Value() == old(Value()).(queue := old(Value()).queue + [msg.data])
    {
      msg.next := null;
      if sendQueueTail != null {
        sendQueueTail.next := msg;
        sendQueueTail := msg;
      } else {
        sendQueue := msg;
        sendQueueTail := msg;
      }
      msg.owner := this;
      nodes := nodes + [msg];
    }

    /** Takes the head off the queue, as the poll loop does before it writes. */
    method Dequeue() returns (msg: Message)
      requires Valid() && sendQueue != null
      modifies this
      ensures Valid() && nodes == old(nodes)[1..] && old(nodes) != []
      ensures msg == old(nodes)[0] && [msg.data] + Value().queue == old(Value()).queue
      ensures Value() == old(Value()).(queue := old(Value()).queue[1..])
    {
      msg := sendQueue;
      if msg.next != null {
        sendQueue := msg.next;
      } else {
        sendQueue := null;
        sendQueueTail := null;
      }
      ghost var before := nodes;
      nodes := nodes[1..];
      assert forall i :: 0 <= i < |nodes| ==> nodes[i] == before[i + 1];
      assert forall i :: 0 <= i < |nodes| ==> nodes[i].next == before[i + 1].next;
    }

    /** Returns the connection to its initial state, walking the queue to free it. */
    method Clear()
      requires Valid()
      modifies this
      ensures Valid() && Value() == FRESH && nodes == []
    {
      state, waiting, chainBuffer := Idle, false, None;
      var cur := sendQueue;
      ghost var i := 0;
      while cur != null
        invariant 0 <= i <= |nodes| && nodes == old(nodes) && Valid()
        invariant cur == if i < |nodes| then nodes[i] else null
        invariant state == Idle && !waiting && chainBuffer == None
        decreases |nodes| - i
      {
        cur := cur.next;
        i := i + 1;
      }
      sendQueue, sendQueueTail := null, null;
      nodes := [];
    }
  }

  /** An array of different, idle connections. */
  method NewConnections(count: nat) returns (a: array<Connection>)
    ensures a.Length == count && fresh(a) && fresh(a[..])
    ensures forall k :: 0 <= k < count ==> a[k].Valid() && a[k].Value() == FRESH && a[k].nodes == []
    ensures forall k, m :: 0 <= k < m < count ==> a[k] != a[m]
  {
    var first := new Connection();
    a := new Connection[count](_ => first);
    var i := 0;
    while i < count
      invariant 0 <= i <= count && fresh(a[..])
      invariant forall k :: 0 <= k < i ==> a[k].Valid() && a[k].Value() == FRESH && a[k].nodes == []
      invariant forall k, m :: 0 <= k < m < i ==> a[k] != a[m]
      invariant forall k, m :: 0 <= k < i <= m < count ==> a[k] != a[m]
    {
      var c := new Connection();
      a[i] := c;
      i := i + 1;
    }
  }

  class TransportSlot {
    var caHndl: int
    /** The number of the module's slot on its device. */
    var slotNumber: int
    const connections: array<Connection>
    ghost var Repr: set<object>

    ghost predicate Valid()
      reads this, Repr
    {
      && this in Repr && connections in Repr && connections.Length < 256
      && (forall i :: 0 <= i < connections.Length ==>
            && connections[i] in Repr
            && (forall m :: m in connections[i].nodes ==> m in Repr)
            && connections[i].Valid())
      && (forall i, j :: 0 <= i < j < connections.Length ==> connections[i] != connections[j])
    }

    ghost function Value(): (s: Slot)
      requires Valid()
      reads this, Repr
      ensures |s.conns| == connections.Length
    {
      Slot(caHndl != -1, seq(connections.Length, i requires 0 <= i < connections.Length && Valid()
                               reads this, Repr => connections[i].Value()))
    }

    constructor (count: nat)
      requires count < 256
      ensures Valid() && Value() == NewSlot(count)
      ensures fresh(Repr)
    {
      caHndl, slotNumber := -1, 0;
      var conns := NewConnections(count);
      connections := conns;
      new;
      Repr := {this, connections} + set c | c in connections[..];
    }

    /** Nothing outside connection `k` and its queue has changed since the old state. */
    twostate predicate OnlyConnection(k: nat)
      requires k < connections.Length
      reads this, Repr, connections
    {
      && caHndl == old(caHndl) && unchanged(connections) && old(Repr) <= Repr
      && (forall i :: 0 <= i < connections.Length ==> connections[i] in Repr)
      && (forall i :: 0 <= i < connections.Length ==> i == k || unchanged(connections[i]))
    }

    twostate lemma ConnectionChanged(k: nat)
      requires k < connections.Length && old(Valid()) && OnlyConnection(k)
      requires connections[k].Valid() && forall m :: m in connections[k].nodes ==> m in Repr
      requires forall i, m: Message :: 0 <= i < connections.Length && i != k && m in old(connections[i].nodes) ==> unchanged(m)
      ensures Valid() && Value() == Put(old(Value()), k, connections[k].Value())
    {
      forall i | 0 <= i < connections.Length && i != k
        ensures connections[i].Valid() && connections[i].Value() == old(connections[i].Value())
      {
        var c := connections[i];
        assert old(c.Valid()) && c.nodes == old(c.nodes);
        forall p | 0 <= p < |c.nodes|
          ensures c.nodes[p].next == old(c.nodes[p].next) && c.nodes[p].owner == old(c.nodes[p].owner)
        {
          assert c.nodes[p] in c.nodes;
        }
        assert c.Messages() == old(c.Messages());
      }
      assert Value().conns == old(Value()).conns[k := connections[k].Value()];
    }

    /** No message has changed, and connection `k` has changed only in its fields, not in its queue. */
    twostate lemma FieldsChanged(k: nat)
      requires k < connections.Length && old(Valid()) && OnlyConnection(k)
      requires connections[k].nodes == old(connections[k].nodes)
      requires connections[k].sendQueue == old(connections[k].sendQueue)
      requires connections[k].sendQueueTail == old(connections[k].sendQueueTail)
      requires forall i, m: Message :: 0 <= i < connections.Length && m in old(connections[i].nodes) ==> unchanged(m)
      ensures Valid()
      ensures Value() == Put(old(Value()), k, connections[k].Value())
      ensures connections[k].Value() == old(connections[k].Value()).(
        state := connections[k].state, waiting := connections[k].waiting, chain := connections[k].chainBuffer)
    {
      var c := connections[k];
      forall p | 0 <= p < |c.nodes|
        ensures c.nodes[p].next == old(c.nodes[p].next) && c.nodes[p].owner == old(c.nodes[p].owner)
      {
        assert c.nodes[p] in c.nodes;
      }
      assert c.Messages() == old(c.Messages());
      ConnectionChanged(k);
    }

    /** Messages of other connections are not those of connection `k`. */
    lemma Apart(k: nat)
      requires Valid() && k < connections.Length
      ensures forall i, m :: 0 <= i < connections.Length && i != k && m in connections[i].nodes ==>
        m !in connections[k].nodes && m.owner != null
    {
      forall i, m | 0 <= i < connections.Length && i != k && m in connections[i].nodes
        ensures m !in connections[k].nodes && m.owner != null
      {
        assert m.owner == connections[i];
      }
    }

    // ----- incoming TPDUs; the flags say whether the link takes the writes

    method HandleCreateTcReply(k: nat) returns (events: seq<Event>, error: Error)
      requires Valid() && k < connections.Length
      modifies connections[k]
      ensures Valid() && Repr == old(Repr)
      ensures Result(Value(), events, error) == CreateTcReply(old(Value()), k)
    {
      events, error := [], BadCamData;
      if connections[k].state == InCreation {
        connections[k].state := Active;
        connections[k].waiting := false;
        events, error := [Notify(ConnectionOpen, k, [])], NoError;
      }
      FieldsChanged(k);
    }

    method HandleDeleteTc(k: nat, written: bool) returns (events: seq<Event>, error: Error)
      requires Valid() && k < connections.Length
      modifies connections[k]
      ensures Valid() && Repr == old(Repr)
      ensures Result(Value(), events, error) == DeleteTc(old(Value()), k, written)
    {
      events, error := [], BadCamData;
      if connections[k].state == Active || connections[k].state == InDeletion {
        connections[k].state := Idle;
        connections[k].chainBuffer := None;
        events, error := [Reply(k, [T_D_T_C_REPLY, 1, k], written)], CaWrite;
        if written {
          events, error := events + [Notify(ConnectionClose, k, [])], NoError;
        }
      }
      FieldsChanged(k);
    }

    method HandleDeleteTcReply(k: nat) returns (events: seq<Event>, error: Error)
      requires Valid() && k < connections.Length
      modifies connections[k]
      ensures Valid() && Repr == old(Repr)
      ensures Result(Value(), events, error) == DeleteTcReply(old(Value()), k)
    {
      events, error := [], BadCamData;
      if connections[k].state == InDeletion {
        connections[k].state := Idle;
        error := NoError;
      }
      FieldsChanged(k);
    }

    method HandleDataMore(k: nat, data: seq<byte>) returns (events: seq<Event>, error: Error)
      requires Valid() && k < connections.Length
      modifies connections[k]
      ensures Valid() && Repr == old(Repr)
      ensures Result(Value(), events, error) == DataMore(old(Value()), k, data)
    {
      events, error := [], BadCamData;
      if connections[k].state == Active {
        connections[k].waiting := false;
        var chain := if connections[k].chainBuffer.Some? then connections[k].chainBuffer.value else [];
        connections[k].chainBuffer := Some(chain + data);
        error := NoError;
      }
      FieldsChanged(k);
    }

    method HandleDataLast(k: nat, data: seq<byte>) returns (events: seq<Event>, error: Error)
      requires Valid() && k < connections.Length
      modifies connections[k]
      ensures Valid() && Repr == old(Repr)
      ensures Result(Value(), events, error) == DataLast(old(Value()), k, data)
    {
      events, error := [], BadCamData;
      if connections[k].state == Active {
        connections[k].waiting := false;
        error := NoError;
        if connections[k].chainBuffer.None? {
          if data != [] {
            events := [Notify(Data, k, data)];
            assert [] + data == data;
          }
        } else {
          var whole := connections[k].chainBuffer.value + data;
          connections[k].chainBuffer := None;
          if data != [] {
            events := [Notify(Data, k, whole)];
          }
        }
      }
      FieldsChanged(k);
    }

    method HandleSb(k: nat, data: seq<byte>, written: bool) returns (events: seq<Event>, error: Error)
      requires Valid() && k < connections.Length
      modifies connections[k]
      ensures Valid() && Repr == old(Repr)
      ensures Result(Value(), events, error) == Status(old(Value()), k, data, written)
    {
      events, error := [], BadCamData;
      if connections[k].state == Active && |data| == 1 {
        if data[0] >= 0x80 {
          events, error := [Reply(k, [T_RCV, 1, k], written)], CaWrite;
          if written {
            connections[k].waiting := true;
            error := NoError;
          }
        } else {
          connections[k].waiting := false;
          error := NoError;
        }
      }
      FieldsChanged(k);
    }

    method FindIdle() returns (conid: int)
      requires Valid()
      ensures match FreeTc(Value().conns, 1)
        case None => conid == -1
        case Some(n) => conid == n
    {
      var i := 1;
      while i < connections.Length
        invariant 1 <= i && FreeTc(Value().conns, 1) == FreeTc(Value().conns, i)
      {
        if connections[i].state == Idle {
          return i;
        }
        i := i + 1;
      }
      return -1;
    }

    method AllocNewTc() returns (conid: int)
      requires Valid()
      modifies connections[..]
      ensures Valid() && Repr == old(Repr) && unchanged(connections)
      ensures forall i :: 0 <= i < connections.Length ==> connections[i].nodes == old(connections[i].nodes)
      ensures match FreeTc(old(Value()).conns, 1)
        case None => conid == -1 && Value() == old(Value())
        case Some(n) => conid == n && Value() == AllocTc(old(Value()), n)
    {
      conid := FindIdle();
      if conid != -1 {
        connections[conid].state := InCreation;
        connections[conid].chainBuffer := None;
        FieldsChanged(conid);
      }
    }

    method HandleRequestTc(k: nat, first: bool, second: bool) returns (events: seq<Event>, error: Error)
      requires Valid() && k < connections.Length
      modifies connections[..]
      ensures Valid() && Repr == old(Repr) && unchanged(connections)
      ensures Result(Value(), events, error) == RequestTc(old(Value()), k, first, second)
    {
      hide RefuseTc, OfferTc;
      var conid := AllocNewTc();
      if conid == -1 {
        events, error := Refuse(k, first);
      } else {
        events, error := Offer(k, conid, first, second);
      }
    }

    method Refuse(k: nat, written: bool) returns (events: seq<Event>, error: Error)
      requires Valid() && k < connections.Length
      modifies connections[k]
      ensures Valid() && Repr == old(Repr)
      ensures Result(Value(), events, error) == RefuseTc(old(Value()), k, written)
    {
      events, error := [Reply(k, [T_T_C_ERROR, 2, k, 1], written)], CaWrite;
      if written {
        connections[k].waiting := false;
        error := NoError;
      }
      FieldsChanged(k);
    }

    method Offer(k: nat, conid: nat, first: bool, second: bool) returns (events: seq<Event>, error: Error)
      requires Valid() && k < connections.Length && conid < connections.Length
      modifies connections[k], connections[conid]
      ensures Valid() && Repr == old(Repr)
      ensures Result(Value(), events, error) == OfferTc(old(Value()), k, conid, first, second)
    {
      events, error := [Reply(k, [T_NEW_T_C, 2, k, conid], first)], CaWrite;
      if !first {
        connections[conid].state := Idle;
        FieldsChanged(conid);
        return;
      }
      connections[k].waiting := false;
      FieldsChanged(k);
      label Announced:
      events := events + [Reply(conid, [T_CREATE_T_C, 1, conid], second)];
      if second {
        connections[conid].waiting := true;
        events := events + [Notify(CamConnectionOpen, conid, [])];
        error := NoError;
      } else {
        connections[conid].state := Idle;
      }
      FieldsChanged@Announced(conid);
    }

    /** The dispatch of `en50221_tl_process_data`. */
    method HandleOne(t: Tpdu, first: bool, second: bool) returns (events: seq<Event>, error: Error)
      requires Valid()
      modifies connections[..]
      ensures Valid() && Repr == old(Repr) && unchanged(connections)
      ensures Result(Value(), events, error) == HandleTpdu(old(Value()), t, first, second)
    {
      hide CreateTcReply, DeleteTc, DeleteTcReply, RequestTc, DataMore, DataLast, Status;
      var k := t.connection;
      if k >= connections.Length {
        return [], BadConnectionId;
      }
      if t.tag == T_C_T_C_REPLY {
        events, error := HandleCreateTcReply(k);
      } else if t.tag == T_DELETE_T_C {
        events, error := HandleDeleteTc(k, first);
      } else if t.tag == T_D_T_C_REPLY {
        events, error := HandleDeleteTcReply(k);
      } else if t.tag == T_REQUEST_T_C {
        events, error := HandleRequestTc(k, first, second);
      } else if t.tag == T_DATA_MORE {
        events, error := HandleDataMore(k, t.data);
      } else if t.tag == T_DATA_LAST {
        events, error := HandleDataLast(k, t.data);
      } else if t.tag == T_SB {
        events, error := HandleSb(k, t.data, first);
      } else {
        events, error := [], BadCamData;
      }
    }

    /** `en50221_tl_process_data` on the bytes of one read. */
    method Process(bytes: seq<byte>, link: nat -> Writes) returns (events: seq<Event>, error: Error)
      requires Valid()
      modifies connections[..]
      ensures Valid() && Repr == old(Repr) && unchanged(connections)
      ensures Result(Value(), events, error) == ProcessData(old(Value()), bytes, link, 0)
    {
      hide HandleTpdu, ParseTpdu, Prefixed;
      var data, i: nat := bytes, 0;
      events, error := [], NoError;
      ghost var goal := ProcessData(Value(), bytes, link, 0);
      PrefixNothing(goal);
      while data != []
        invariant Valid() && Repr == old(Repr) && unchanged(connections)
        invariant error == NoError && Prefixed(events, ProcessData(Value(), data, link, i)) == goal
        decreases |data|
      {
        var p := ParseTpdu(data);
        if p.None? {
          PrefixFail(events, Value(), BadCamData);
          return events, BadCamData;
        }
        var more;
        more, error := HandleOne(p.value.tpdu, link(i).first, link(i).second);
        PrefixTwice(events, more, ProcessData(Value(), data[p.value.used..], link, i + 1));
        PrefixOwn(events, more, Value(), error);
        events := events + more;
        if error != NoError {
          return;
        }
        data, i := data[p.value.used..], i + 1;
      }
      PrefixFail(events, Value(), NoError);
    }

    // ----- the poll loop

    /** The poll loop's work on connection `k`: at most one queued message, then a poll, then the time limit. */
    method VisitOne(k: nat, pollDue: bool, timedOut: bool, written: bool) returns (events: seq<Event>, error: Error)
      requires Valid() && k < connections.Length
      modifies connections[k]
      ensures Valid() && Repr == old(Repr)
      ensures Result(Value(), events, error) == Visit(old(Value()), k, pollDue, timedOut, written)
    {
      hide SendQueued, PollData, CheckTimeout;
      events, error := [], NoError;
      if connections[k].state == Idle {
        return;
      }
      if connections[k].state != InDeletion && connections[k].sendQueue != null && !connections[k].waiting {
        events, error := SendHead(k, written);
        if error != NoError {
          return;
        }
      }
      if connections[k].state == Active && !connections[k].waiting && pollDue {
        var polls;
        polls, error := PollForData(k, written);
        events := events + polls;
        if error != NoError {
          return;
        }
      }
      error := CheckLimit(k, timedOut);
    }

    method PollForData(k: nat, written: bool) returns (events: seq<Event>, error: Error)
      requires Valid() && k < connections.Length
      modifies connections[k]
      ensures Valid() && Repr == old(Repr)
      ensures Result(Value(), events, error) == PollData(old(Value()), k, written)
    {
      connections[k].waiting := true;
      FieldsChanged(k);
      return [PollWrite(k, [T_DATA_LAST, 1, k], written)], if written then NoError else CaWrite;
    }

    method CheckLimit(k: nat, timedOut: bool) returns (error: Error)
      requires Valid() && k < connections.Length
      modifies connections[k]
      ensures Valid() && Repr == old(Repr)
      ensures Result(Value(), [], error) == CheckTimeout(old(Value()), k, timedOut)
    {
      error := NoError;
      if connections[k].waiting && timedOut {
        if connections[k].state == InCreation || connections[k].state == InDeletion {
          connections[k].state := Idle;
        } else if connections[k].state == Active || connections[k].state == ActiveDeleteQueued {
          error := Timeout;
        }
      }
      FieldsChanged(k);
    }

    /** Takes the head off the queue of connection `k` and writes it. */
    method SendHead(k: nat, written: bool) returns (events: seq<Event>, error: Error)
      requires Valid() && k < connections.Length && connections[k].sendQueue != null
      modifies connections[k]
      ensures Valid() && Repr == old(Repr)
      ensures Value().conns != [] && old(Value()).conns[k].queue != []
      ensures Result(Value(), events, error) == SendQueued(old(Value()), k, written)
    {
      var c := connections[k];
      var msg := c.Dequeue();
      events, error := [QueueWrite(k, msg.data, written)], CaWrite;
      if written {
        c.waiting := true;
        if msg.data != [] && msg.data[0] == T_DELETE_T_C {
          c.state := InDeletion;
          c.chainBuffer := None;
        }
        error := NoError;
      }
      ConnectionChanged(k);
    }

    /** The poll loop of `en50221_tl_poll` over the connections of this slot. */
    method VisitAll(clock: nat -> Clock) returns (events: seq<Event>, error: Error)
      requires Valid()
      modifies connections[..]
      ensures Valid() && Repr == old(Repr) && unchanged(connections)
      ensures Result(Value(), events, error) == VisitFrom(old(Value()), 0, clock)
    {
      assert connections.Length < 256;
      hide Visit, VisitFrom, Value, Valid, Prefixed, Fail;
      events, error := [], NoError;
      ghost var goal := VisitFrom(Value(), 0, clock);
      PrefixNothing(goal);
      var k: nat := 0;
      while k < connections.Length
        invariant 0 <= k <= connections.Length < 256
        invariant Valid() && |Value().conns| == connections.Length && Repr == old(Repr) && unchanged(connections)
        invariant error == NoError && Prefixed(events, VisitFrom(Value(), k, clock)) == goal
      {
        VisitFromStep(Value(), k, clock);
        var more;
        more, error := VisitOne(k, clock(k).pollDue, clock(k).timedOut, clock(k).written);
        PrefixTwice(events, more, VisitFrom(Value(), k + 1, clock));
        PrefixOwn(events, more, Value(), error);
        events := events + more;
        if error != NoError {
          return;
        }
        k := k + 1;
      }
      VisitFromEnd(Value(), clock);
      PrefixFail(events, Value(), NoError);
    }

    // ----- calls of the host

    /** Allocates a message and appends it to the queue of connection `k`. */
    method Enqueue(k: nat, data: seq<byte>)
      requires Valid() && k < connections.Length
      modifies this`Repr, connections[k], connections[k].nodes
      ensures Valid() && fresh(Repr - old(Repr))
      ensures Value() == Queue(old(Value()), k, data)
    {
      Apart(k);
      var msg := new Message(data);
      connections[k].QueueMessage(msg);
      Repr := Repr + {msg};
      ConnectionChanged(k);
    }

    /** `en50221_tl_send_datav` */
    method SendDatav(k: nat, pieces: seq<seq<byte>>) returns (error: Error)
      requires Valid()
      modifies Repr
      ensures Valid() && fresh(Repr - old(Repr))
      ensures Result(Value(), [], error) == SendData(old(Value()), k, Concat(pieces))
    {
      if caHndl == -1 {
        return BadSlotId;
      }
      if k >= connections.Length || connections[k].state != Active {
        return BadConnectionId;
      }
      var msg, length := BuildDataLast(k, pieces);
      Enqueue(k, msg[..length]);
      return NoError;
    }

    /** `en50221_tl_new_tc` */
    method NewConnection() returns (conid: int, error: Error)
      requires Valid()
      modifies Repr
      ensures Valid() && fresh(Repr - old(Repr))
      ensures Result(Value(), [], error) == NewTc(old(Value()))
      ensures error == NoError ==> FreeTc(old(Value()).conns, 1) == Some(conid)
    {
      if caHndl == -1 {
        return -1, BadSlotId;
      }
      conid := AllocNewTc();
      if conid == -1 {
        return -1, OutOfConnections;
      }
      Enqueue(conid, [T_CREATE_T_C, 1, conid]);
      return conid, NoError;
    }

    /** `en50221_tl_del_tc` */
    method DeleteConnection(k: byte) returns (error: Error)
      requires Valid()
      modifies Repr
      ensures Valid() && fresh(Repr - old(Repr))
      ensures Result(Value(), [], error) == DelTc(old(Value()), k)
    {
      if caHndl == -1 {
        return BadSlotId;
      }
      if k >= connections.Length {
        return BadConnectionId;
      }
      if connections[k].state != Active && connections[k].state != InDeletion {
        return BadState;
      }
      Enqueue(k, [T_DELETE_T_C, 1, k]);
      label Queued:
      connections[k].state := ActiveDeleteQueued;
      FieldsChanged@Queued(k);
      return NoError;
    }

    /** `en50221_tl_destroy_slot`: every connection and its queue are cleared, then the layer above is told. */
    method Destroy() returns (events: seq<Event>)
      requires Valid()
      modifies this`caHndl, connections[..]
      ensures Valid() && Repr == old(Repr)
      ensures Result(Value(), events, NoError) == DestroySlot(old(Value()))
    {
      caHndl := -1;
      var i := 0;
      while i < connections.Length
        invariant 0 <= i <= connections.Length && caHndl == -1
        invariant Valid() && Repr == old(Repr) && unchanged(connections)
        invariant forall j :: 0 <= j < i ==> Value().conns[j] == FRESH
      {
        label Before:
        connections[i].Clear();
        ConnectionChanged@Before(i);
        i := i + 1;
      }
      assert Value().conns == seq(connections.Length, _ => FRESH);
      return [Notify(SlotClose, 0, [])];
    }

    /** The slot is taken into use; its connections are left as they are. */
    method Register(handle: int, number: int)
      requires Valid() && handle != -1
      modifies this`caHndl, this`slotNumber
      ensures Valid() && Repr == old(Repr) && caHndl == handle && slotNumber == number
      ensures Value() == Take(old(Value()), HostRegister).slot
    {
      caHndl, slotNumber := handle, number;
      assert Value().conns == old(Value()).conns;
    }
  }

  /** An array of unregistered slots that share nothing; `footprint` holds all of their objects. */
  method NewSlots(count: nat, connections: nat) returns (all: array<TransportSlot>, ghost footprint: set<object>)
    requires connections < 256
    ensures all.Length == count && fresh(all) && fresh(footprint) && all !in footprint
    ensures forall k :: 0 <= k < count ==>
      && all[k] in footprint && all[k].Repr <= footprint && all[k].Valid()
      && all[k].Value() == NewSlot(connections)
    ensures forall k, m :: 0 <= k < m < count ==> all[k].Repr !! all[m].Repr
  {
    hide TransportSlot.Value, TransportSlot.Valid, NewSlot;
    var first := new TransportSlot(connections);
    all := new TransportSlot[count](_ => first);
    footprint := {};
    var i := 0;
    while i < count
      invariant 0 <= i <= count && fresh(footprint) && all !in footprint
      invariant forall k :: 0 <= k < i ==> all[k] in footprint && all[k].Repr <= footprint && all[k].Valid()
      invariant forall k :: 0 <= k < i ==> all[k].Value() == NewSlot(connections)
      invariant forall k, m :: 0 <= k < m < i ==> all[k].Repr !! all[m].Repr
    {
      var s := new TransportSlot(connections);
      all[i] := s;
      footprint := footprint + s.Repr;
      i := i + 1;
    }
  }

  /** The first unused slot. */
  function FreeSlot(slots: seq<Slot>, from: nat): (r: Option<nat>)
    ensures r.Some? ==> from <= r.value < |slots| && !slots[r.value].open
    ensures r.Some? ==> forall i :: from <= i < r.value ==> slots[i].open
    ensures r.None? ==> forall i :: from <= i < |slots| ==> slots[i].open
    decreases |slots| - from
  {
    if from >= |slots| then None
    else if !slots[from].open then Some(from)
    else FreeSlot(slots, from + 1)
  }

  /** The first slot of a device with a number. */
  function DeviceSlot(devices: seq<(int, int)>, handle: int, number: int, from: nat): (r: Option<nat>)
    ensures r.Some? ==> from <= r.value < |devices| && devices[r.value] == (handle, number)
    ensures r.Some? ==> forall i :: from <= i < r.value ==> devices[i] != (handle, number)
    ensures r.None? ==> forall i :: from <= i < |devices| ==> devices[i] != (handle, number)
    decreases |devices| - from
  {
    if from >= |devices| then None
    else if devices[from] == (handle, number) then Some(from)
    else DeviceSlot(devices, handle, number, from + 1)
  }

  function Route(devices: seq<(int, int)>, slot: nat, number: int): Option<nat>
    requires slot < |devices|
  {
    if devices[slot].1 == number then Some(slot) else DeviceSlot(devices, devices[slot].0, number, 0)
  }

  /**
   A read is for its own slot when the numbers agree, and else for the first slot of the same device that has the
   number.
   */
  lemma RouteIff(devices: seq<(int, int)>, slot: nat, number: int, target: nat)
    requires slot < |devices| && target < |devices|
    ensures Route(devices, slot, number) == Some(target) <==>
      if devices[slot].1 == number then target == slot
      else devices[target] == (devices[slot].0, number)
           && forall i :: 0 <= i < target ==> devices[i] != (devices[slot].0, number)
  {
  }

  /** All slots of the layer; no two share a connection or a message. */
  class TransportLayer {
    const slots: array<TransportSlot>
    ghost var Repr: set<object>

    ghost predicate Valid()
      reads this, Repr
    {
      && this in Repr && slots in Repr && slots.Length < 256
      && (forall i :: 0 <= i < slots.Length ==>
            && slots[i] in Repr && slots[i].Repr <= Repr
            && this !in slots[i].Repr && slots !in slots[i].Repr
            && slots[i].Valid())
      && (forall i, j :: 0 <= i < j < slots.Length ==> slots[i].Repr !! slots[j].Repr)
    }

    ghost function Value(): (v: seq<Slot>)
      requires Valid()
      reads this, Repr
      ensures |v| == slots.Length
      ensures forall i :: 0 <= i < |v| ==> v[i] == slots[i].Value()
    {
      seq(slots.Length, i requires 0 <= i < slots.Length && Valid() reads this, Repr => slots[i].Value())
    }

    /** `en50221_tl_create`; no slot is registered yet. */
    constructor (count: nat, connections: nat)
      requires count < 256 && connections < 256
      ensures Valid() && fresh(Repr)
      ensures Value() == seq(count, _ => NewSlot(connections))
    {
      hide TransportSlot.Value, TransportSlot.Valid, NewSlot;
      var all, footprint := NewSlots(count, connections);
      slots := all;
      new;
      Repr := {this, slots} + footprint;
    }

    /** Slot `k` alone has changed since the old state, and has only grown by new objects. */
    twostate lemma SlotChanged(k: nat)
      requires k < slots.Length && old(Valid()) && slots[k].Valid()
      requires unchanged(slots) && Repr == old(Repr) + slots[k].Repr && fresh(slots[k].Repr - old(slots[k].Repr))
      requires forall o :: o in old(Repr) && o !in old(slots[k].Repr) && o != this ==> unchanged(o)
      ensures Valid() && Value() == old(Value())[k := slots[k].Value()]
    {
      forall i | 0 <= i < slots.Length && i != k
        ensures slots[i].Valid() && slots[i].Value() == old(slots[i].Value()) && slots[i].Repr == old(slots[i].Repr)
        ensures slots[i].Repr !! slots[k].Repr
      {
        assert forall o :: o in old(slots[i].Repr) ==> o !in old(slots[k].Repr) && unchanged(o);
      }
    }

    /** The device handle and module slot of each slot. */
    ghost function Devices(): (d: seq<(int, int)>)
      requires Valid()
      reads this, Repr
      ensures |d| == slots.Length && forall i :: 0 <= i < |d| ==> d[i] == (slots[i].caHndl, slots[i].slotNumber)
    {
      seq(slots.Length, i requires 0 <= i < slots.Length && Valid() reads this, Repr =>
            (slots[i].caHndl, slots[i].slotNumber))
    }

    /** `en50221_tl_register_slot`: the first unused slot, or none. */
    method RegisterSlot(handle: int, number: int) returns (slotId: int)
      requires Valid() && handle != -1
      modifies Repr
      ensures Valid() && Repr == old(Repr)
      ensures match FreeSlot(old(Value()), 0)
        case None => slotId == -1 && Value() == old(Value()) && Devices() == old(Devices())
        case Some(k) =>
          && slotId == k && Value() == old(Value())[k := Take(old(Value())[k], HostRegister).slot]
          && Devices() == old(Devices())[k := (handle, number)]
    {
      slotId := FindUnused();
      if slotId != -1 {
        slots[slotId].Register(handle, number);
        SlotChanged(slotId);
        assert Devices() == old(Devices())[slotId := (handle, number)];
      }
    }

    method FindUnused() returns (slotId: int)
      requires Valid()
      ensures match FreeSlot(Value(), 0)
        case None => slotId == -1
        case Some(k) => slotId == k
    {
      var i := 0;
      while i < slots.Length
        invariant 0 <= i && FreeSlot(Value(), 0) == FreeSlot(Value(), i)
      {
        if slots[i].caHndl == -1 {
          return i;
        }
        i := i + 1;
      }
      return -1;
    }

    /** The slot that a read is for: the one read from, or else one of the same device with the number that was read. */
    method FindReader(slot: nat, number: int) returns (target: int)
      requires Valid() && slot < slots.Length
      ensures match Route(Devices(), slot, number)
        case None => target == -1
        case Some(k) => target == k
    {
      if slots[slot].slotNumber == number {
        return slot;
      }
      var i := 0;
      while i < slots.Length
        invariant 0 <= i
        invariant DeviceSlot(Devices(), Devices()[slot].0, number, 0) == DeviceSlot(Devices(), Devices()[slot].0, number, i)
      {
        if slots[i].caHndl == slots[slot].caHndl && slots[i].slotNumber == number {
          return i;
        }
        i := i + 1;
      }
      return -1;
    }

    /** What the poll loop does with the bytes of a read: they go to the slot that they are for, if there is one. */
    method ReadFrom(slot: nat, number: int, data: seq<byte>, link: nat -> Writes) returns (events: seq<Event>, error: Error)
      requires Valid() && slot < slots.Length
      modifies Repr
      ensures Valid() && Repr == old(Repr)
      ensures
        var (was, target) := (old(Value()), Route(old(Devices()), slot, number));
        if data == [] then Value() == was && events == [] && error == NoError
        else if target.None? then Value() == was && events == [] && error == BadSlotId
        else
          var r := ProcessData(was[target.value], data, link, 0);
          Value() == was[target.value := r.slot] && events == r.events && error == r.error
    {
      if data == [] {
        return [], NoError;
      }
      var target := FindReader(slot, number);
      if target == -1 {
        return [], BadSlotId;
      }
      events, error := ProcessAt(target, data, link);
    }

    /** `en50221_tl_process_data` on one slot; no other slot changes. */
    method ProcessAt(slot: nat, data: seq<byte>, link: nat -> Writes) returns (events: seq<Event>, error: Error)
      requires Valid() && slot < slots.Length
      modifies Repr
      ensures Valid() && Repr == old(Repr)
      ensures var r := ProcessData(old(Value())[slot], data, link, 0);
        Value() == old(Value())[slot := r.slot] && events == r.events && error == r.error
    {
      hide ProcessData;
      assert slots[slot].Value() == Value()[slot];
      events, error := slots[slot].Process(data, link);
      SlotChanged(slot);
    }

    /** One TPDU read from the device of a slot, if the slot has one. */
    method Incoming(slot: nat, t: Tpdu, first: bool, second: bool) returns (events: seq<Event>)
      requires Valid() && slot < slots.Length
      modifies Repr
      ensures Valid() && Repr == old(Repr)
      ensures var r := Take(old(Value())[slot], Step.Incoming(t, first, second));
        Value() == old(Value())[slot := r.slot] && events == r.events
    {
      hide HandleTpdu;
      events := [];
      if slots[slot].caHndl != -1 {
        var error;
        events, error := slots[slot].HandleOne(t, first, second);
        SlotChanged(slot);
      }
    }

    /** `en50221_tl_send_datav` on any slot number. */
    method SendDatav(slot: nat, conn: nat, pieces: seq<seq<byte>>) returns (sent: bool)
      requires Valid()
      modifies Repr
      ensures Valid() && fresh(Repr - old(Repr))
      ensures (Value(), sent) == SendOn(old(Value()), slot, conn, Concat(pieces))
    {
      if slot >= slots.Length {
        return false;
      }
      assert slots[slot].Value() == Value()[slot];
      var error := slots[slot].SendDatav(conn, pieces);
      Repr := Repr + slots[slot].Repr;
      SlotChanged(slot);
      return error == NoError;
    }
  }
}
