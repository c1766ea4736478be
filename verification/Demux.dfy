/**
 Recovering the sections of one PID from its transport packets: the receiving loop around
 `section_buf_add_transport_payload`, test/libucsi/testucsi.c, against the packet layout of section 2.4.4 of
 ISO/IEC 13818-1.
 */
module Demux {
  import opened Bytes
  import opened SectionBufs
  import opened SectionForms
  import opened Wrappers

  /** The payload of a packet and its payload_unit_start_indicator. */
  datatype Packet = Packet(start: bool, payload: seq<byte>)

  // ----- what the loop does

  datatype Drained = Drained(contents: seq<byte>, wait: bool, sections: seq<seq<byte>>)

  predicate Open(max: nat, c: seq<byte>) {
    Reachable(max, c) && !Complete(max, c)
  }

  /** One packet: call, advance by the bytes used, clear the start flag, emit and reset when a status says so. */
  function Drain(max: nat, c: seq<byte>, wait: bool, payload: seq<byte>, start: bool): (r: Drained)
    requires Open(max, c)
    ensures Open(max, r.contents)
    decreases |payload|
  {
    if payload == [] then Drained(c, wait, [])
    else
      AddPayloadProgress(max, c, wait, payload, start);
      var r := AddPayload(max, c, wait, payload, start);
      var rest := Drain(max, if r.status != 0 then [] else r.contents, r.wait, payload[r.used..], false);
      Drained(rest.contents, rest.wait, (if r.status == 1 then [r.contents] else []) + rest.sections)
  }

  /** All packets in turn. */
  function DrainAll(max: nat, c: seq<byte>, wait: bool, packets: seq<Packet>): (r: Drained)
    requires Open(max, c)
    ensures Open(max, r.contents)
    decreases |packets|
  {
    if packets == [] then Drained(c, wait, [])
    else
      var first := Drain(max, c, wait, packets[0].payload, packets[0].start);
      var rest := DrainAll(max, first.contents, first.wait, packets[1..]);
      Drained(rest.contents, rest.wait, first.sections + rest.sections)
  }

  /** Unfolds `Drain` by one call, described by its result `r`. */
  lemma DrainStep(max: nat, c: seq<byte>, wait: bool, payload: seq<byte>, start: bool, r: Fed)
    requires Open(max, c) && payload != [] && r == AddPayload(max, c, wait, payload, start)
    ensures HDR <= max && 0 < r.used <= |payload| && (r.status == 1 || r.status <= 0)
    ensures Reachable(max, r.contents) && (r.status == 0 ==> Open(max, r.contents)) && Open(max, [])
    ensures var rest := Drain(max, if r.status != 0 then [] else r.contents, r.wait, payload[r.used..], false);
      Drain(max, c, wait, payload, start)
      == Emit(if r.status == 1 then [r.contents] else [], rest)
  {
    AddPayloadProgress(max, c, wait, payload, start);
  }

  /** The receiving loop over one packet. */
  method ReceivePacket(buf: SectionBuf, packet: Packet) returns (sections: seq<seq<byte>>)
    requires buf.Valid() && Open(buf.max, buf.Contents())
    modifies buf, buf.data
    ensures buf.Valid() && buf.max == old(buf.max) && Open(buf.max, buf.Contents())
    ensures Drained(buf.Contents(), buf.waitPdu, sections)
         == Drain(old(buf.max), old(buf.Contents()), old(buf.waitPdu), packet.payload, packet.start)
  {
    hide AddPayload, Reachable, Complete, HeaderDone, Target, Drain, Open;
    sections := [];
    var (payload, start) := (packet.payload, packet.start);
    ghost var goal := Drain(buf.max, buf.Contents(), buf.waitPdu, payload, start);
    EmitMore([], [], goal);
    while payload != []
      invariant buf.Valid() && buf.max == old(buf.max) && Open(buf.max, buf.Contents())
      invariant goal == Emit(sections, Drain(buf.max, buf.Contents(), buf.waitPdu, payload, start))
      decreases |payload|
    {
      ghost var (c, wait) := (buf.Contents(), buf.waitPdu);
      ghost var r := AddPayload(buf.max, c, wait, payload, start);
      DrainStep(buf.max, c, wait, payload, start, r);
      ghost var before := Drain(buf.max, c, wait, payload, start);
      var used, status := buf.AddTransportPayload(payload, start);
      start := false;
      payload := payload[used..];
      ghost var emitted := sections;
      if status == 1 {
        sections := sections + [buf.data[..buf.count]];
        buf.Reset();
      } else if status < 0 {
        buf.Reset();
      }
      EmitMore(emitted, if status == 1 then [r.contents] else [],
               Drain(buf.max, buf.Contents(), buf.waitPdu, payload, start));
    }
    DrainEmpty(buf.max, buf.Contents(), buf.waitPdu, start);
    assert sections + [] == sections;
  }

  lemma EmitMore(a: seq<seq<byte>>, b: seq<seq<byte>>, rest: Drained)
    ensures Emit(a, Emit(b, rest)) == Emit(a + b, rest)
    ensures Emit([], rest) == rest && a + [] == a
  {
    assert a + (b + rest.sections) == (a + b) + rest.sections;
  }

  lemma DrainEmpty(max: nat, c: seq<byte>, wait: bool, start: bool)
    requires Open(max, c)
    ensures Drain(max, c, wait, [], start) == Drained(c, wait, [])
  {
  }

  function Emit(sections: seq<seq<byte>>, rest: Drained): Drained {
    Drained(rest.contents, rest.wait, sections + rest.sections)
  }

  /** The receiving loop over a whole stream, from a fresh buffer. */
  method Receive(buf: SectionBuf, packets: seq<Packet>) returns (sections: seq<seq<byte>>)
    requires buf.Valid() && Open(buf.max, buf.Contents())
    modifies buf, buf.data
    ensures buf.Valid() && buf.max == old(buf.max) && Open(buf.max, buf.Contents())
    ensures Drained(buf.Contents(), buf.waitPdu, sections)
         == DrainAll(old(buf.max), old(buf.Contents()), old(buf.waitPdu), packets)
  {
    hide Reachable, Complete, HeaderDone, Target, Drain, Open;
    sections := [];
    var i := 0;
    ghost var goal := DrainAll(buf.max, buf.Contents(), buf.waitPdu, packets);
    EmitMore([], [], goal);
    assert packets[0..] == packets;
    while i < |packets|
      invariant 0 <= i <= |packets|
      invariant buf.Valid() && buf.max == old(buf.max) && Open(buf.max, buf.Contents())
      invariant goal == Emit(sections, DrainAll(buf.max, buf.Contents(), buf.waitPdu, packets[i..]))
    {
      ghost var before := DrainAll(buf.max, buf.Contents(), buf.waitPdu, packets[i..]);
      var more := ReceivePacket(buf, packets[i]);
      assert packets[i..][1..] == packets[i + 1..];
      assert before == Emit(more, DrainAll(buf.max, buf.Contents(), buf.waitPdu, packets[i + 1..]));
      EmitMore(sections, more, DrainAll(buf.max, buf.Contents(), buf.waitPdu, packets[i + 1..]));
      sections := sections + more;
      i := i + 1;
    }
    assert sections + [] == sections;
  }

  // ----- what a transport stream may look like

  predicate AllPadding(b: seq<byte>) {
    Pads(b) == |b|
  }

  /** How a stretch of payload lays out sections: those it finishes, and the one it leaves unfinished, if any. */
  datatype Layout = Layout(done: seq<seq<byte>>, head: seq<byte>, tail: seq<byte>, rest: seq<seq<byte>>)

  /** Sections back to back, then either padding to the end or a section that runs over the end. */
  function Lay(body: seq<byte>, sections: seq<seq<byte>>): Option<Layout>
    decreases |sections|
  {
    if AllPadding(body) then Some(Layout([], [], [], sections))
    else if sections == [] then None
    else
      var s := sections[0];
      var n := Min(|body|, |s|);
      if body[..n] != s[..n] then None
      else if n < |s| then Some(Layout([], s[..n], s[n..], sections[1..]))
      else
        var next := Lay(body[n..], sections[1..]);
        if next.None? then None
        else Some(Layout([s] + next.value.done, next.value.head, next.value.tail, next.value.rest))
  }

  /**
   The packets carry exactly these sections, `tail` being what is still missing of a section begun earlier:
   a packet in which a section begins has the start indicator, and its pointer_field counts the bytes that
   come before that section; any other packet only continues a section, or pads.
   */
  predicate Carries(tail: seq<byte>, packets: seq<Packet>, sections: seq<seq<byte>>)
    decreases |packets|
  {
    if packets == [] then tail == [] && sections == []
    else
      var payload := packets[0].payload;
      if packets[0].start then
        && |payload| > 1 + |tail| && payload[0] == |tail| && payload[1..1 + |tail|] == tail
        && payload[1 + |tail|] != PAD
        && var laid := Lay(payload[1 + |tail|..], sections);
           laid.Some? && Carries(laid.value.tail, packets[1..], laid.value.rest)
      else
        var n := Min(|payload|, |tail|);
        payload[..n] == tail[..n] && AllPadding(payload[n..]) && Carries(tail[n..], packets[1..], sections)
  }

  predicate AllSections(max: nat, sections: seq<seq<byte>>) {
    forall i :: 0 <= i < |sections| ==> IsSection(max, sections[i])
  }

  /** A buffer is in step with the stream when it holds all but `tail` of a section, or waits for a start. */
  predicate InStep(max: nat, c: seq<byte>, wait: bool, tail: seq<byte>) {
    if c == [] then HDR <= max && (tail == [] || wait)
    else !wait && tail != [] && IsSection(max, c + tail)
  }

  /** The section under way. */
  function Pending(c: seq<byte>, tail: seq<byte>): seq<seq<byte>> {
    if c == [] then [] else [c + tail]
  }

  // ----- one call on a piece of a section

  lemma PrefixOpen(max: nat, s: seq<byte>, n: nat)
    requires IsSection(max, s) && n < |s|
    ensures Open(max, s[..n]) && HDR <= max
    ensures n == 0 ==> s[..n] == []
  {
  }

  lemma KeepPrefix(max: nat, s: seq<byte>, all: seq<byte>)
    requires IsSection(max, s)
    requires |all| < |s| ==> all == s[..|all|]
    requires |all| >= |s| ==> all[..|s|] == s
    ensures Keep(max, all) == if |all| < |s| then (all, 0) else (s, 1)
  {
  }

  /** `x` continues the first `n` bytes of section `s`, and perhaps goes on after its end. */
  lemma AddPiece(max: nat, s: seq<byte>, n: nat, x: seq<byte>)
    requires IsSection(max, s) && n < |s| && x != []
    requires var m := Min(|x|, |s| - n); x[..m] == s[n..n + m]
    ensures Open(max, s[..n])
    ensures Add(max, s[..n], x)
         == if |x| < |s| - n then Added(s[..n] + x, |x|, 0) else Added(s, |s| - n, 1)
  {
    PrefixOpen(max, s, n);
    var all := s[..n] + x;
    if n == 0 {
      assert s[..n] == [] && all == x && x[0] == x[..Min(|x|, |s|)][0] == s[0];
    }
    assert x[0..] == x;
    AddIsAddAll(max, s[..n], x);
    Continued(s, n, x);
    hide IsSection;
    KeepPrefix(max, s, all);
  }

  /** The first `n` bytes of `s` and what continues them. */
  lemma Continued(s: seq<byte>, n: nat, x: seq<byte>)
    requires n < |s|
    requires var m := Min(|x|, |s| - n); x[..m] == s[n..n + m]
    ensures if |x| < |s| - n then s[..n] + x == s[..n + |x|] else (s[..n] + x)[..|s|] == s
  {
    if |x| < |s| - n {
      assert x[..|x|] == x;
      assert s[..n] + s[n..n + |x|] == s[..n + |x|];
    } else {
      var k := |s| - n;
      assert n + k == |s| && s[n..n + k] == s[n..];
      assert s[..n] + s[n..] == s;
      CutConcat(s[..n], x, k);
    }
  }

  lemma CutConcat(a: seq<byte>, b: seq<byte>, k: nat)
    requires k <= |b|
    ensures (a + b)[..|a| + k] == a + b[..k]
  {
  }

  lemma DrainPiece(max: nat, s: seq<byte>, n: nat, x: seq<byte>)
    requires IsSection(max, s) && n < |s| && x != []
    requires var m := Min(|x|, |s| - n); x[..m] == s[n..n + m]
    ensures Open(max, s[..n]) && Open(max, [])
    ensures Drain(max, s[..n], false, x, false)
         == if |x| < |s| - n then Drained(s[..n] + x, false, [])
            else Emit([s], Drain(max, [], false, x[|s| - n..], false))
  {
    AddPiece(max, s, n, x);
    var r := AddPayload(max, s[..n], false, x, false);
    DrainStep(max, s[..n], false, x, false, r);
    if |x| < |s| - n {
      assert x[|x|..] == [];
    }
  }

  lemma DrainPadding(max: nat, wait: bool, x: seq<byte>)
    requires HDR <= max && AllPadding(x)
    ensures Open(max, []) && Drain(max, [], wait, x, false) == Drained([], wait, [])
  {
    if x != [] {
      AddOnlyPads(max, x);
      var r := AddPayload(max, [], wait, x, false);
      DrainStep(max, [], wait, x, false, r);
      assert x[|x|..] == [];
    }
  }

  /** Reading the stretch from an empty buffer emits its finished sections and keeps the unfinished one. */
  ghost predicate ReadBack(max: nat, body: seq<byte>, laid: Layout) {
    Open(max, []) && Drain(max, [], false, body, false) == Drained(laid.head, false, laid.done)
  }

  /** The layout accounts for every section, in order. */
  predicate Accounts(max: nat, sections: seq<seq<byte>>, laid: Layout) {
    && InStep(max, laid.head, false, laid.tail) && AllSections(max, laid.rest)
    && laid.done + Pending(laid.head, laid.tail) + laid.rest == sections
  }

  lemma LaidRunsOver(max: nat, body: seq<byte>, s: seq<byte>, more: seq<seq<byte>>)
    requires HDR <= max && IsSection(max, s) && AllSections(max, more)
    requires body != [] && |body| < |s| && body == s[..|body|]
    ensures ReadBack(max, body, Layout([], s[..|body|], s[|body|..], more))
    ensures Accounts(max, [s] + more, Layout([], s[..|body|], s[|body|..], more))
  {
    hide Drain, Target, Complete;
    assert s[..0] == [] && s[0..0 + |body|] == s[..|body|];
    DrainPiece(max, s, 0, body);
    assert s[..|body|] + s[|body|..] == s;
    assert [] + body == body;
    assert [] + [s] + more == [s] + more;
  }

  lemma LaidGoesOn(max: nat, body: seq<byte>, s: seq<byte>, more: seq<seq<byte>>, next: Layout)
    requires HDR <= max && IsSection(max, s)
    requires |body| >= |s| && body[..|s|] == s
    requires ReadBack(max, body[|s|..], next) && Accounts(max, more, next)
    ensures ReadBack(max, body, Layout([s] + next.done, next.head, next.tail, next.rest))
    ensures Accounts(max, [s] + more, Layout([s] + next.done, next.head, next.tail, next.rest))
  {
    hide Drain, Target, Complete, Reachable;
    SectionNonEmpty(max, s);
    assert s[..0] == [] && s[0..0 + |s|] == s;
    DrainPiece(max, s, 0, body);
    var p := Pending(next.head, next.tail);
    assert ([s] + next.done) + p + next.rest == [s] + (next.done + p + next.rest);
  }

  /** A layout read back: every finished section comes out, the unfinished one stays in the buffer. */
  lemma {:induction false} DrainLaid(max: nat, body: seq<byte>, sections: seq<seq<byte>>)
    requires HDR <= max && AllSections(max, sections) && Lay(body, sections).Some?
    ensures ReadBack(max, body, Lay(body, sections).value) && Accounts(max, sections, Lay(body, sections).value)
    decreases |sections|
  {
    if AllPadding(body) {
      DrainPadding(max, false, body);
      assert [] + [] + sections == sections;
    } else {
      hide ReadBack, Accounts, IsSection;
      var s, more := sections[0], sections[1..];
      assert sections == [s] + more;
      SectionNonEmpty(max, s);
      PaddingEmpty();
      if |body| < |s| {
        assert body[..|body|] == body;
        LaidRunsOver(max, body, s, more);
      } else {
        assert s[..|s|] == s;
        DrainLaid(max, body[|s|..], more);
        LaidGoesOn(max, body, s, more, Lay(body[|s|..], more).value);
      }
    }
  }

  lemma SectionNonEmpty(max: nat, s: seq<byte>)
    requires IsSection(max, s)
    ensures |s| >= HDR
  {
  }

  lemma PaddingEmpty()
    ensures AllPadding([])
  {
  }

  // ----- one packet

  lemma ContinuationFinds(max: nat, c: seq<byte>, wait: bool, tail: seq<byte>, payload: seq<byte>)
    requires InStep(max, c, wait, tail) && Open(max, c)
    requires var n := Min(|payload|, |tail|); payload[..n] == tail[..n] && AllPadding(payload[n..])
    ensures var (n, r) := (Min(|payload|, |tail|), Drain(max, c, wait, payload, false));
      && InStep(max, r.contents, r.wait, tail[n..])
      && r.sections + Pending(r.contents, tail[n..]) == Pending(c, tail)
  {
    hide Target, Complete, Reachable, Pads;
    var n := Min(|payload|, |tail|);
    if payload == [] {
      assert tail[0..] == tail;
    } else if c == [] {
      if wait {
        WaitingSkips(max, payload);
      } else {
        assert payload[0..] == payload;
        DrainPadding(max, false, payload);
      }
    } else {
      ContinuationCompletes(max, c, tail, payload);
    }
  }

  lemma WaitingSkips(max: nat, payload: seq<byte>)
    requires HDR <= max
    ensures Open(max, []) && Drain(max, [], true, payload, false) == Drained([], true, [])
  {
    if payload != [] {
      DrainStep(max, [], true, payload, false, AddPayload(max, [], true, payload, false));
      assert payload[|payload|..] == [];
    }
  }

  lemma ContinuationCompletes(max: nat, c: seq<byte>, tail: seq<byte>, payload: seq<byte>)
    requires c != [] && InStep(max, c, false, tail) && Open(max, c) && payload != []
    requires var n := Min(|payload|, |tail|); payload[..n] == tail[..n] && AllPadding(payload[n..])
    ensures |payload| < |tail| ==>
      && Drain(max, c, false, payload, false) == Drained(c + payload, false, [])
      && (c + payload) + tail[|payload|..] == c + tail
    ensures |payload| >= |tail| ==> Drain(max, c, false, payload, false) == Drained([], false, [c + tail])
  {
    hide Target, Complete, Reachable, Pads, Drain;
    var s, n := c + tail, Min(|payload|, |tail|);
    assert s[..|c|] == c && s[|c|..|c| + n] == tail[..n];
    DrainPiece(max, s, |c|, payload);
    if |payload| < |tail| {
      assert payload[..n] == payload;
    } else {
      SectionRoom(max, s);
      DrainPadding(max, false, payload[n..]);
    }
  }

  lemma SectionRoom(max: nat, s: seq<byte>)
    requires IsSection(max, s)
    ensures HDR <= max
  {
  }

  /** A packet with the start indicator: the pointer leads past the old section to the new ones. */
  lemma StartFinds(max: nat, c: seq<byte>, wait: bool, tail: seq<byte>, payload: seq<byte>)
    requires InStep(max, c, wait, tail) && Open(max, c)
    requires |payload| > 1 + |tail| && payload[0] == |tail| && payload[1..1 + |tail|] == tail
    requires payload[1 + |tail|] != PAD
    ensures Open(max, [])
    ensures Drain(max, c, wait, payload, true)
         == Emit(Pending(c, tail), Drain(max, [], false, payload[1 + |tail|..], false))
  {
    hide Target, Complete, Reachable, Pads, Drain, Add;
    var r := AddPayload(max, c, wait, payload, true);
    DrainStep(max, c, wait, payload, true, r);
    var body := payload[1 + |tail|..];
    if c == [] {
      var r' := AddPayload(max, [], false, body, false);
      DrainStep(max, [], false, body, false, r');
      assert r.used == 1 + |tail| + r'.used && r.contents == r'.contents && r.status == r'.status;
      assert payload[r.used..] == body[r'.used..];
      EmitMore([], [], Drain(max, c, wait, payload, true));
    } else {
      var s := c + tail;
      assert s[..|c|] == c && s[|c|..|c| + |tail|] == tail && tail[..|tail|] == tail;
      AddPiece(max, s, |c|, tail);
    }
  }

  lemma StartInStep(max: nat, c: seq<byte>, wait: bool, tail: seq<byte>, payload: seq<byte>,
      sections: seq<seq<byte>>, laid: Layout)
    requires InStep(max, c, wait, tail) && Open(max, c) && AllSections(max, sections)
    requires |payload| > 1 + |tail| && payload[0] == |tail| && payload[1..1 + |tail|] == tail
    requires payload[1 + |tail|] != PAD && Lay(payload[1 + |tail|..], sections) == Some(laid)
    ensures Drain(max, c, wait, payload, true) == Drained(laid.head, false, Pending(c, tail) + laid.done)
    ensures Accounts(max, sections, laid)
  {
    hide Drain, Open, Pads, Target, Complete, Reachable, InStep, Lay, Accounts, Pending;
    StartFinds(max, c, wait, tail, payload);
    RoomInStep(max, c, wait, tail);
    DrainLaid(max, payload[1 + |tail|..], sections);
  }

  // ----- whole streams

  lemma Regroup(a: seq<seq<byte>>, b: seq<seq<byte>>, c: seq<seq<byte>>, d: seq<seq<byte>>)
    ensures (a + b) + (c + d) == a + (b + c + d)
  {
  }

  /** In any stream state that is in step the loop emits the section under way and all that follow, as bytes. */
  lemma {:induction false} StreamDrained(max: nat, c: seq<byte>, wait: bool, tail: seq<byte>,
      packets: seq<Packet>, sections: seq<seq<byte>>)
    requires InStep(max, c, wait, tail) && Open(max, c)
    requires AllSections(max, sections) && Carries(tail, packets, sections)
    ensures DrainAll(max, c, wait, packets).contents == []
    ensures DrainAll(max, c, wait, packets).sections == Pending(c, tail) + sections
    decreases |packets|
  {
    hide Drain, Open, Pads, Target, Complete, Reachable, InStep, Lay, Pending, AllPadding, AllSections;
    if packets == [] {
      EndInStep(max, c, wait);
      assert Pending(c, tail) + sections == [];
    } else {
      var payload := packets[0].payload;
      var first := Drain(max, c, wait, payload, packets[0].start);
      if packets[0].start {
        var laid := Lay(payload[1 + |tail|..], sections).value;
        StartInStep(max, c, wait, tail, payload, sections, laid);
        StreamDrained(max, first.contents, first.wait, laid.tail, packets[1..], laid.rest);
        Regroup(Pending(c, tail), laid.done, Pending(laid.head, laid.tail), laid.rest);
      } else {
        var left := tail[Min(|payload|, |tail|)..];
        ContinuationFinds(max, c, wait, tail, payload);
        StreamDrained(max, first.contents, first.wait, left, packets[1..], sections);
        Associate(first.sections, Pending(first.contents, left), sections);
      }
    }
  }

  lemma Associate(a: seq<seq<byte>>, b: seq<seq<byte>>, c: seq<seq<byte>>)
    ensures a + (b + c) == (a + b) + c
  {
  }

  lemma EndInStep(max: nat, c: seq<byte>, wait: bool)
    requires InStep(max, c, wait, [])
    ensures c == [] && Pending(c, []) == []
  {
  }

  lemma RoomInStep(max: nat, c: seq<byte>, wait: bool, tail: seq<byte>)
    requires InStep(max, c, wait, tail)
    ensures HDR <= max
  {
  }

  // ----- sections by their parts

  /** What the buffer holds of the stream: nothing, with unknown bytes to come, or the first bytes of a section. */
  datatype UnderWay = Unknown(tail: seq<byte>) | Begun(section: Psi, held: nat)

  predicate Proceeding(max: nat, u: UnderWay, wait: bool) {
    match u
    case Unknown(tail) => tail == [] || wait
    case Begun(s, n) => !wait && Fitting(max, s) && 0 < n < |PsiBytes(s)|
  }

  function Held(u: UnderWay): seq<byte>
    requires u.Begun? ==> Proper(u.section) && u.held <= |PsiBytes(u.section)|
  {
    if u.Begun? then PsiBytes(u.section)[..u.held] else []
  }

  function Missing(u: UnderWay): seq<byte>
    requires u.Begun? ==> Proper(u.section) && u.held <= |PsiBytes(u.section)|
  {
    if u.Begun? then PsiBytes(u.section)[u.held..] else u.tail
  }

  lemma HeldInStep(max: nat, u: UnderWay, wait: bool)
    requires 3 <= max && Proceeding(max, u, wait)
    ensures InStep(max, Held(u), wait, Missing(u)) && Open(max, Held(u))
    ensures Pending(Held(u), Missing(u)) == AllBytes(if u.Begun? then [u.section] else [])
  {
    if u.Begun? {
      var (s, n) := (u.section, u.held);
      hide PsiBytes, IsSection;
      PsiIsSection(max, s);
      assert PsiBytes(s)[..n] + PsiBytes(s)[n..] == PsiBytes(s);
      PrefixOpen(max, PsiBytes(s), n);
    }
  }

  lemma AllSectionsFit(max: nat, ss: seq<Psi>)
    requires 3 <= max && AllFitting(max, ss)
    ensures AllSections(max, AllBytes(ss))
  {
    hide PsiBytes, IsSection;
    forall i | 0 <= i < |ss|
      ensures IsSection(max, AllBytes(ss)[i])
    {
      PsiIsSection(max, ss[i]);
    }
  }

  /** From any point of the stream, the loop emits the section under way and all that follow, each of them whole. */
  lemma StreamRecovered(max: nat, u: UnderWay, wait: bool, packets: seq<Packet>, ss: seq<Psi>)
    requires 3 <= max && Proceeding(max, u, wait) && AllFitting(max, ss)
    requires Carries(Missing(u), packets, AllBytes(ss))
    ensures
      var under := if u.Begun? then [u.section] else [];
      && Open(max, Held(u)) && DrainAll(max, Held(u), wait, packets).contents == []
      && DrainAll(max, Held(u), wait, packets).sections == AllBytes(under + ss)
  {
    hide PsiBytes, DrainAll, Carries, InStep, Open;
    HeldInStep(max, u, wait);
    AllSectionsFit(max, ss);
    StreamDrained(max, Held(u), wait, Missing(u), packets, AllBytes(ss));
    var under := if u.Begun? then [u.section] else [];
    assert AllBytes(under + ss) == AllBytes(under) + AllBytes(ss);
  }

  /**
   Section demultiplexing. Any list of sections, however it is cut into packets with pointer fields and
   padding, comes out of a freshly initialised buffer as exactly that list; and so it does when the receiver
   tunes in while an unknown section with the bytes `tail` still to come is under way.
   */
  lemma SectionsRecovered(max: nat, tail: seq<byte>, packets: seq<Packet>, ss: seq<Psi>)
    requires 3 <= max && AllFitting(max, ss) && Carries(tail, packets, AllBytes(ss))
    ensures Open(max, []) && DrainAll(max, [], true, packets).sections == AllBytes(ss)
  {
    hide PsiBytes, DrainAll, Carries;
    StreamRecovered(max, Unknown(tail), true, packets, ss);
    assert [] + ss == ss;
  }

  // ----- after an error

  /** One of the calls on the packet returns an error. */
  predicate Fails(max: nat, c: seq<byte>, wait: bool, payload: seq<byte>, start: bool)
    requires Open(max, c)
    decreases |payload|
  {
    payload != [] &&
    (AddPayloadProgress(max, c, wait, payload, start);
     var r := AddPayload(max, c, wait, payload, start);
     r.status < 0 || Fails(max, if r.status == 1 then [] else r.contents, r.wait, payload[r.used..], false))
  }

  /** Then the rest of the packet is skipped, and the receiver is left empty and waiting for a start. */
  lemma {:induction false} FailureWaits(max: nat, c: seq<byte>, wait: bool, payload: seq<byte>, start: bool)
    requires Open(max, c) && Fails(max, c, wait, payload, start)
    ensures var r := Drain(max, c, wait, payload, start); r.contents == [] && r.wait
    decreases |payload|
  {
    var r := AddPayload(max, c, wait, payload, start);
    DrainStep(max, c, wait, payload, start, r);
    if r.status < 0 {
      FailureSetsWait(max, c, wait, payload, start);
      WaitingSkips(max, payload[r.used..]);
    } else {
      FailureWaits(max, if r.status == 1 then [] else r.contents, r.wait, payload[r.used..], false);
    }
  }

  lemma FailureSetsWait(max: nat, c: seq<byte>, wait: bool, payload: seq<byte>, start: bool)
    requires Open(max, c) && AddPayload(max, c, wait, payload, start).status < 0
    ensures AddPayload(max, c, wait, payload, start).wait
  {
  }

  /**
   Whatever has gone wrong in a packet and before it, every section that begins in a later packet is recovered; bytes
   of a section that began before are skipped.
   */
  lemma RecoversAfterFailure(max: nat, c: seq<byte>, wait: bool, bad: Packet, tail: seq<byte>, packets: seq<Packet>,
      ss: seq<Psi>)
    requires 3 <= max && Open(max, c) && Fails(max, c, wait, bad.payload, bad.start)
    requires AllFitting(max, ss) && Carries(tail, packets, AllBytes(ss))
    ensures DrainAll(max, c, wait, [bad] + packets).sections
         == Drain(max, c, wait, bad.payload, bad.start).sections + AllBytes(ss)
  {
    FailureWaits(max, c, wait, bad.payload, bad.start);
    SectionsRecovered(max, tail, packets, ss);
    hide Drain, Carries, Fails, Open;
    assert ([bad] + packets)[1..] == packets;
  }

  // ----- one way to send sections

  function Padding(n: nat): (p: seq<byte>)
    ensures |p| == n && forall i :: 0 <= i < n ==> p[i] == PAD
  {
    seq(n, _ => PAD)
  }

  lemma {:induction false} PaddingIsAll(p: seq<byte>)
    requires forall i :: 0 <= i < |p| ==> p[i] == PAD
    ensures AllPadding(p)
  {
    if p != [] {
      PaddingIsAll(p[1..]);
    }
  }

  /** The rest of a section in packets with `n` bytes of payload. */
  function Continue(n: nat, tail: seq<byte>): seq<Packet>
    requires n > 0
    decreases |tail|
  {
    if tail == [] then []
    else if |tail| <= n then [Packet(false, tail + Padding(n - |tail|))]
    else [Packet(false, tail[..n])] + Continue(n, tail[n..])
  }

  /** A section in packets of its own, the last of them filled up with padding. */
  function PacketsOf(n: nat, s: seq<byte>): seq<Packet>
    requires n >= 2
  {
    var k := Min(n - 1, |s|);
    [Packet(true, [0] + (s[..k] + Padding(n - 1 - k)))] + Continue(n, s[k..])
  }

  function Packetise(n: nat, sections: seq<seq<byte>>): seq<Packet>
    requires n >= 2
  {
    if sections == [] then [] else PacketsOf(n, sections[0]) + Packetise(n, sections[1..])
  }

  lemma CarriesContinuation(tail: seq<byte>, payload: seq<byte>, rest: seq<Packet>, sections: seq<seq<byte>>)
    requires var n := Min(|payload|, |tail|);
      payload[..n] == tail[..n] && AllPadding(payload[n..]) && Carries(tail[n..], rest, sections)
    ensures Carries(tail, [Packet(false, payload)] + rest, sections)
  {
    assert ([Packet(false, payload)] + rest)[1..] == rest;
  }

  lemma CarriesStart(body: seq<byte>, rest: seq<Packet>, sections: seq<seq<byte>>, laid: Layout)
    requires body != [] && body[0] != PAD && Lay(body, sections) == Some(laid)
    requires Carries(laid.tail, rest, laid.rest)
    ensures Carries([], [Packet(true, [0] + body)] + rest, sections)
  {
    hide Lay;
    assert ([Packet(true, [0] + body)] + rest)[1..] == rest;
    assert ([0] + body)[1..] == body && ([0] + body)[1..1] == [];
  }

  lemma {:induction false} ContinueCarries(n: nat, tail: seq<byte>, packets: seq<Packet>, sections: seq<seq<byte>>)
    requires n > 0 && Carries([], packets, sections)
    ensures Carries(tail, Continue(n, tail) + packets, sections)
    decreases |tail|
  {
    hide AllPadding, Carries;
    if tail == [] {
      assert Continue(n, tail) + packets == packets;
    } else if |tail| <= n {
      var pad := Padding(n - |tail|);
      PaddingIsAll(pad);
      assert (tail + pad)[..|tail|] == tail[..|tail|] && (tail + pad)[|tail|..] == pad && tail[|tail|..] == [];
      CarriesContinuation(tail, tail + pad, packets, sections);
    } else {
      ContinueCarries(n, tail[n..], packets, sections);
      PaddingEmpty();
      assert tail[..n][..n] == tail[..n] && tail[..n][n..] == [];
      CarriesContinuation(tail, tail[..n], Continue(n, tail[n..]) + packets, sections);
      assert [Packet(false, tail[..n])] + (Continue(n, tail[n..]) + packets) == Continue(n, tail) + packets;
    }
  }

  lemma LayFirst(s: seq<byte>, k: nat, pad: seq<byte>, more: seq<seq<byte>>)
    requires s != [] && s[0] != PAD && 0 < k <= |s| && AllPadding(pad) && (k < |s| ==> pad == [])
    ensures Lay(s[..k] + pad, [s] + more)
         == Some(if k < |s| then Layout([], s[..k], s[k..], more) else Layout([s], [], [], more))
  {
    var body := s[..k] + pad;
    assert body[0] == s[0];
    assert Pads(body) == 0;
    hide Pads;
    assert ([s] + more)[1..] == more;
    if k == |s| {
      assert body[..|s|] == s[..|s|] && body[|s|..] == pad;
      LayPadding(pad, more);
      assert [s] + [] == [s];
    } else {
      assert body == s[..k] && body[..k] == s[..k];
    }
  }

  lemma LayPadding(pad: seq<byte>, more: seq<seq<byte>>)
    requires AllPadding(pad)
    ensures Lay(pad, more) == Some(Layout([], [], [], more))
  {
  }

  lemma SectionCarries(max: nat, n: nat, s: seq<byte>, packets: seq<Packet>, more: seq<seq<byte>>)
    requires n >= 2 && IsSection(max, s) && Carries([], packets, more)
    ensures Carries([], PacketsOf(n, s) + packets, [s] + more)
  {
    hide Lay, Continue, Pads, Carries, Complete;
    SectionNonEmpty(max, s);
    var k := Min(n - 1, |s|);
    var pad := Padding(n - 1 - k);
    ContinueCarries(n, s[k..], packets, more);
    PacketiseOne(n, s, k, pad, more, Continue(n, s[k..]) + packets);
    var first := [Packet(true, [0] + (s[..k] + pad))];
    assert first + (Continue(n, s[k..]) + packets) == first + Continue(n, s[k..]) + packets;
  }

  lemma {:induction false} PacketiseCarries(max: nat, n: nat, sections: seq<seq<byte>>)
    requires n >= 2 && AllSections(max, sections)
    ensures Carries([], Packetise(n, sections), sections)
  {
    if sections != [] {
      hide PacketsOf, IsSection;
      PacketiseCarries(max, n, sections[1..]);
      SectionCarries(max, n, sections[0], Packetise(n, sections[1..]), sections[1..]);
      assert sections == [sections[0]] + sections[1..];
    }
  }

  lemma PacketiseOne(n: nat, s: seq<byte>, k: nat, pad: seq<byte>, more: seq<seq<byte>>, rest: seq<Packet>)
    requires s != [] && s[0] != PAD && 0 < k <= |s| && (k < |s| ==> pad == [])
    requires forall i :: 0 <= i < |pad| ==> pad[i] == PAD
    requires Carries(s[k..], rest, more)
    ensures Carries([], [Packet(true, [0] + (s[..k] + pad))] + rest, [s] + more)
  {
    hide Lay, Pads, Carries;
    PaddingIsAll(pad);
    LayFirst(s, k, pad, more);
    assert s[|s|..] == [];
    CarriesStart(s[..k] + pad, rest, [s] + more,
                 if k < |s| then Layout([], s[..k], s[k..], more) else Layout([s], [], [], more));
  }

  /** Packetising and demultiplexing are inverse, for every payload size of at least two bytes. */
  lemma PacketiseRoundTrip(max: nat, n: nat, ss: seq<Psi>)
    requires 3 <= max && n >= 2 && AllFitting(max, ss)
    ensures Open(max, []) && DrainAll(max, [], true, Packetise(n, AllBytes(ss))).sections == AllBytes(ss)
  {
    AllSectionsFit(max, ss);
    PacketiseCarries(max, n, AllBytes(ss));
    SectionsRecovered(max, [], Packetise(n, AllBytes(ss)), ss);
  }
}
