/**
 The CA_PMT object that the CA application sends for a programme, lib/libdvben50221/en50221_app_ca.c: extraction
 of the CA descriptors of a PMT, their move to programme level, and printing.
 */
module CaPmt {
  import opened Bytes
  import opened Framing
  import opened Wrappers

  const TAG_CA_DESCRIPTOR: byte := 0x09

  // ----- descriptors

  /** The size that a descriptor gives itself: tag, length byte and body. */
  function Size(d: seq<byte>): (n: nat)
    requires |d| >= 2
    ensures n >= 2
  {
    var body: int := d[1];
    2 + body
  }

  predicate IsDescriptor(d: seq<byte>) {
    |d| >= 2 && |d| == Size(d)
  }

  /** A descriptor is a tag, the size of its body, and the body. */
  lemma DescriptorIff(tag: byte, size: byte, body: seq<byte>)
    ensures IsDescriptor([tag, size] + body) <==> |body| == size
  {
  }

  predicate Descriptors(ds: seq<seq<byte>>) {
    forall i :: 0 <= i < |ds| ==> IsDescriptor(ds[i])
  }

  /** The bytes are a row of whole descriptors, which the section codec has verified. */
  predicate Verified(buf: seq<byte>) {
    buf == [] || (|buf| >= 2 && Size(buf) <= |buf| && Verified(buf[Size(buf)..]))
  }

  function Split(buf: seq<byte>): seq<seq<byte>>
    requires Verified(buf)
  {
    if buf == [] then [] else [buf[..Size(buf)]] + Split(buf[Size(buf)..])
  }

  lemma SplitStep(d: seq<byte>, rest: seq<byte>)
    requires IsDescriptor(d) && Verified(rest)
    ensures Verified(d + rest) && Split(d + rest) == [d] + Split(rest)
  {
    var buf := d + rest;
    assert buf[..Size(buf)] == d && buf[Size(buf)..] == rest;
  }

  /** Splitting recovers every list of descriptors from their bytes. */
  lemma {:induction false} SplitConcat(ds: seq<seq<byte>>)
    requires Descriptors(ds)
    ensures Verified(Concat(ds)) && Split(Concat(ds)) == ds
  {
    hide Verified;
    if ds == [] {
      NoDescriptors();
    } else {
      SplitConcat(ds[1..]);
      SplitStep(ds[0], Concat(ds[1..]));
    }
  }

  lemma NoDescriptors()
    ensures Verified([]) && Split([]) == []
  {
  }

  lemma {:induction false} ConcatSplits(buf: seq<byte>)
    requires Verified(buf)
    ensures Descriptors(Split(buf)) && Concat(Split(buf)) == buf
    decreases |buf|
  {
    if buf != [] {
      var n := Size(buf);
      ConcatSplits(buf[n..]);
      assert buf[..n] + buf[n..] == buf;
      assert Split(buf)[1..] == Split(buf[n..]);
    }
  }

  /** The CA descriptors among others, in order. */
  function CaOnly(ds: seq<seq<byte>>): (cas: seq<seq<byte>>)
    requires Descriptors(ds)
    ensures Descriptors(cas)
  {
    if ds == [] then []
    else (if ds[0][0] == TAG_CA_DESCRIPTOR then [ds[0]] else []) + CaOnly(ds[1..])
  }

  function CaDescriptors(buf: seq<byte>): (cas: seq<seq<byte>>)
    requires Verified(buf)
    ensures Descriptors(cas)
  {
    ConcatSplits(buf);
    CaOnly(Split(buf))
  }

  /** The descriptors at a strictly increasing row of positions. */
  predicate Picks(ds: seq<seq<byte>>, at: seq<nat>, some: seq<seq<byte>>) {
    && |at| == |some|
    && (forall k :: 0 <= k < |at| ==> at[k] < |ds| && some[k] == ds[at[k]])
    && (forall k, m :: 0 <= k < m < |at| ==> at[k] < at[m])
  }

  predicate IsCa(d: seq<byte>) {
    d != [] && d[0] == 0x09
  }

  /** `some` is what stands in `ds` at exactly the positions of CA descriptors, in order. */
  predicate CaAt(ds: seq<seq<byte>>, at: seq<nat>, some: seq<seq<byte>>) {
    Picks(ds, at, some) && forall i :: 0 <= i < |ds| ==> (i in at <==> IsCa(ds[i]))
  }

  /** All CA descriptors of the list and nothing else, in the order of the list. */
  ghost predicate IsCaPart(ds: seq<seq<byte>>, some: seq<seq<byte>>) {
    exists at: seq<nat> :: CaAt(ds, at, some)
  }

  function Shifted(at: seq<nat>): (r: seq<nat>)
    ensures |r| == |at| && forall k :: 0 <= k < |r| ==> r[k] == at[k] + 1
  {
    seq(|at|, k requires 0 <= k < |at| => at[k] + 1)
  }

  lemma ShiftedHas(at: seq<nat>, i: nat)
    ensures i in Shifted(at) <==> i > 0 && i - 1 in at
    ensures i in [0] + Shifted(at) <==> i == 0 || i - 1 in at
  {
    if i > 0 && i - 1 in at {
      var k :| 0 <= k < |at| && at[k] == i - 1;
      assert Shifted(at)[k] == i;
    }
  }

  /** One more descriptor in front: which positions are those of CA descriptors then. */
  lemma CaPositionsMore(d: seq<byte>, ds: seq<seq<byte>>, at: seq<nat>, next: seq<nat>)
    requires forall i :: 0 <= i < |ds| ==> (i in at <==> IsCa(ds[i]))
    requires next == if IsCa(d) then [0] + Shifted(at) else Shifted(at)
    ensures forall i :: 0 <= i < |[d] + ds| ==> (i in next <==> IsCa(([d] + ds)[i]))
  {
    hide IsCa;
    forall i | 0 <= i < |[d] + ds|
      ensures i in next <==> IsCa(([d] + ds)[i])
    {
      ShiftedHas(at, i);
      if i > 0 {
        assert i - 1 in at <==> IsCa(ds[i - 1]);
      }
    }
  }

  lemma PicksSkip(d: seq<byte>, ds: seq<seq<byte>>, at: seq<nat>, some: seq<seq<byte>>)
    requires Picks(ds, at, some)
    ensures Picks([d] + ds, Shifted(at), some)
  {
    forall k | 0 <= k < |at|
      ensures ([d] + ds)[at[k] + 1] == some[k]
    {
    }
  }

  lemma PicksKeep(d: seq<byte>, ds: seq<seq<byte>>, at: seq<nat>, some: seq<seq<byte>>)
    requires Picks(ds, at, some)
    ensures Picks([d] + ds, [0] + Shifted(at), [d] + some)
  {
    var (all, next) := ([d] + ds, [0] + Shifted(at));
    forall k | 0 <= k < |next|
      ensures next[k] < |all| && ([d] + some)[k] == all[next[k]]
    {
      if k > 0 {
        assert next[k] == at[k - 1] + 1 && ([d] + some)[k] == some[k - 1] == ds[at[k - 1]];
      }
    }
    forall k, m | 0 <= k < m < |next|
      ensures next[k] < next[m]
    {
      assert next[m] == at[m - 1] + 1;
      if k > 0 {
        assert next[k] == at[k - 1] + 1;
      }
    }
  }

  lemma CaAtMore(d: seq<byte>, ds: seq<seq<byte>>, at: seq<nat>, some: seq<seq<byte>>)
    requires CaAt(ds, at, some)
    ensures IsCa(d) ==> CaAt([d] + ds, [0] + Shifted(at), [d] + some)
    ensures !IsCa(d) ==> CaAt([d] + ds, Shifted(at), some)
  {
    hide IsCa, Picks;
    CaPositionsMore(d, ds, at, if IsCa(d) then [0] + Shifted(at) else Shifted(at));
    PicksSkip(d, ds, at, some);
    PicksKeep(d, ds, at, some);
  }

  lemma {:induction false} CaOnlyIsPart(ds: seq<seq<byte>>)
    requires Descriptors(ds)
    ensures IsCaPart(ds, CaOnly(ds))
  {
    if ds == [] {
      assert CaAt(ds, [], []);
    } else {
      var (d, tail) := (ds[0], ds[1..]);
      assert [d] + tail == ds && [] + CaOnly(tail) == CaOnly(tail);
      CaOnlyIsPart(tail);
      assert CaOnly(ds) == if IsCa(d) then [d] + CaOnly(tail) else CaOnly(tail);
      hide CaAt, CaOnly, Descriptors, IsCa, Picks;
      var at: seq<nat> :| CaAt(tail, at, CaOnly(tail));
      CaAtMore(d, tail, at, CaOnly(tail));
    }
  }

  /** Extraction keeps all CA descriptors of a loop and only those, in order. */
  lemma CaDescriptorsAre(ds: seq<seq<byte>>)
    requires Descriptors(ds)
    ensures Verified(Concat(ds)) && IsCaPart(ds, CaDescriptors(Concat(ds)))
  {
    SplitConcat(ds);
    CaOnlyIsPart(ds);
  }

  // ----- the PMT and what is extracted from it

  /** A stream of a verified PMT: its 13-bit pid and its descriptor loop. */
  datatype PmtStream = PmtStream(streamType: byte, pid: nat, info: seq<byte>)

  datatype Pmt = Pmt(programNumber: nat, version: nat, current: nat, info: seq<byte>, streams: seq<PmtStream>)

  /** The largest section: its length field has 12 bits, and does not count the header of three bytes. */
  const MAX_SECTION: nat := 3 + 0xfff

  function StreamsSize(streams: seq<PmtStream>): nat {
    if streams == [] then 0 else 5 + |streams[0].info| + StreamsSize(streams[1..])
  }

  /** The size of the section: 12 bytes in front of the programme's descriptors, and the CRC at the end. */
  function SectionSize(pmt: Pmt): nat {
    12 + |pmt.info| + StreamsSize(pmt.streams) + 4
  }

  /** What the section format and its codec guarantee. */
  predicate Decoded(pmt: Pmt) {
    && pmt.programNumber < 0x10000 && pmt.version < 32 && pmt.current < 2 && Verified(pmt.info)
    && (forall i :: 0 <= i < |pmt.streams| ==> pmt.streams[i].pid < 0x2000 && Verified(pmt.streams[i].info))
    && SectionSize(pmt) <= MAX_SECTION
  }

  datatype CaStream = CaStream(streamType: byte, pid: nat, descriptors: seq<seq<byte>>)

  datatype CaLists = CaLists(program: seq<seq<byte>>, streams: seq<CaStream>)

  predicate Sound(c: CaLists) {
    && Descriptors(c.program)
    && forall i :: 0 <= i < |c.streams| ==> c.streams[i].pid < 0x2000 && Descriptors(c.streams[i].descriptors)
  }

  function ExtractStream(s: PmtStream): CaStream
    requires Verified(s.info)
  {
    CaStream(s.streamType, s.pid, CaDescriptors(s.info))
  }

  function Extract(pmt: Pmt): (c: CaLists)
    requires Decoded(pmt)
    ensures Sound(c) && |c.streams| == |pmt.streams|
  {
    CaLists(CaDescriptors(pmt.info),
            seq(|pmt.streams|, i requires 0 <= i < |pmt.streams| => ExtractStream(pmt.streams[i])))
  }

  // ----- moving descriptors to programme level

  /** The descriptors that apply to a stream: those of the programme, then its own. */
  function Effective(c: CaLists, i: nat): seq<seq<byte>>
    requires i < |c.streams|
  {
    c.program + c.streams[i].descriptors
  }

  predicate AllAlike(streams: seq<CaStream>) {
    forall i :: 0 <= i < |streams| ==> streams[i].descriptors == streams[0].descriptors
  }

  function Strip(streams: seq<CaStream>): (r: seq<CaStream>)
    ensures |r| == |streams|
    ensures forall i :: 0 <= i < |r| ==> r[i] == streams[i].(descriptors := [])
  {
    seq(|streams|, i requires 0 <= i < |streams| => streams[i].(descriptors := []))
  }

  /** The first stream's descriptors put in place of the programme's, and all streams stripped of theirs. */
  function Hoist(c: CaLists): CaLists
    requires c.streams != []
  {
    CaLists(c.streams[0].descriptors, Strip(c.streams))
  }

  /** `en50221_ca_try_move_pmt_descriptors`, where the caller has no programme descriptors. */
  function TryMove(c: CaLists): CaLists {
    if c.streams != [] && AllAlike(c.streams) then Hoist(c) else c
  }

  function Arrange(c: CaLists, move: bool): CaLists {
    if c.program == [] && move then TryMove(c) else c
  }

  /** With no programme descriptors, the move is sound exactly when all streams carry the same ones. */
  lemma HoistSoundIff(c: CaLists)
    requires c.program == [] && c.streams != []
    ensures AllAlike(c.streams) <==> forall i :: 0 <= i < |c.streams| ==> Effective(Hoist(c), i) == Effective(c, i)
  {
    forall i | 0 <= i < |c.streams|
      ensures Effective(Hoist(c), i) == c.streams[0].descriptors && Effective(c, i) == c.streams[i].descriptors
    {
      assert c.streams[0].descriptors + [] == c.streams[0].descriptors;
      assert [] + c.streams[i].descriptors == c.streams[i].descriptors;
    }
  }

  /** Every stream keeps its type, its pid and the descriptors that apply to it. */
  lemma ArrangeKeepsEffective(c: CaLists, move: bool, i: nat)
    requires i < |c.streams|
    ensures
      var r := Arrange(c, move);
      && |r.streams| == |c.streams| && Effective(r, i) == Effective(c, i)
      && r.streams[i].streamType == c.streams[i].streamType && r.streams[i].pid == c.streams[i].pid
      && (Sound(c) ==> Sound(r))
  {
    if Arrange(c, move) != c {
      HoistSoundIff(c);
    }
  }

  // ----- lengths

  /** The length field of a descriptor loop: the descriptors and the command id in front of them. */
  function LoopLength(ds: seq<seq<byte>>): nat {
    if Concat(ds) == [] then 0 else 1 + |Concat(ds)|
  }

  function StreamsLength(streams: seq<CaStream>): nat {
    if streams == [] then 0 else 5 + LoopLength(streams[0].descriptors) + StreamsLength(streams[1..])
  }

  /** `en50221_ca_calculate_length` */
  function RequiredLength(c: CaLists): nat {
    6 + LoopLength(c.program) + StreamsLength(c.streams)
  }

  lemma {:induction false} StrippedLength(streams: seq<CaStream>)
    ensures StreamsLength(Strip(streams)) == 5 * |streams|
    ensures StreamsLength(streams) >= 5 * |streams|
    ensures streams != [] ==> StreamsLength(streams) >= 5 * |streams| + LoopLength(streams[0].descriptors)
  {
    if streams != [] {
      StrippedLength(streams[1..]);
      assert Strip(streams)[1..] == Strip(streams[1..]);
    }
  }

  /** Moving descriptors never makes the object longer. */
  lemma ArrangeNoLonger(c: CaLists, move: bool)
    ensures RequiredLength(Arrange(c, move)) <= RequiredLength(c)
  {
    StrippedLength(c.streams);
  }

  lemma {:induction false} AlikeLength(streams: seq<CaStream>, ds: seq<seq<byte>>)
    requires forall i :: 0 <= i < |streams| ==> streams[i].descriptors == ds
    ensures StreamsLength(streams) == |streams| * (5 + LoopLength(ds))
  {
    hide LoopLength;
    if streams != [] {
      AlikeLength(streams[1..], ds);
    }
  }

  lemma OnceIsShorter(k: nat, n: nat)
    requires k > 0
    ensures n + 5 * k < k * (5 + n) <==> k >= 2 && n > 0
  {
    assert k * (5 + n) == 5 * k + n + (k - 1) * n;
    if k >= 2 && n > 0 {
      assert (k - 1) * n > 0;
    }
  }

  /**
   The move is made, and makes the object shorter, if and only if it is asked for, the programme has no descriptors,
   and at least two streams all have the same ones.
   */
  lemma ArrangeShortensIff(c: CaLists, move: bool)
    requires Sound(c)
    ensures RequiredLength(Arrange(c, move)) < RequiredLength(c) <==>
      && move && c.program == [] && |c.streams| >= 2 && c.streams[0].descriptors != []
      && forall i, j :: 0 <= i < |c.streams| && 0 <= j < |c.streams| ==>
           c.streams[i].descriptors == c.streams[j].descriptors
  {
    if c.program == [] && c.streams != [] {
      var ds := c.streams[0].descriptors;
      var n := LoopLength(ds);
      StrippedLength(c.streams);
      if AllAlike(c.streams) {
        AlikeLength(c.streams, ds);
        OnceIsShorter(|c.streams|, n);
        if n == 0 {
          NoBytes(ds);
        }
        NoLength();
        hide LoopLength, StreamsLength;
      }
    }
  }

  // ----- the printed object

  datatype Head = Head(listManagement: byte, programNumber: nat, version: nat, current: nat)

  predicate ValidHead(h: Head) {
    h.programNumber < 0x10000 && h.version < 32 && h.current < 2
  }

  /** The 12-bit length, and the command id and descriptors when there are any. */
  function LoopBytes(ds: seq<seq<byte>>, cmd: byte): (b: seq<byte>)
    ensures |b| == 2 + LoopLength(ds)
  {
    var n := LoopLength(ds);
    [(n / 0x100) % 0x10, n % 0x100] + if n == 0 then [] else [cmd] + Concat(ds)
  }

  function StreamBytes(s: CaStream, cmd: byte): (b: seq<byte>)
    ensures |b| == 5 + LoopLength(s.descriptors)
  {
    [s.streamType, (s.pid / 0x100) % 0x20, s.pid % 0x100] + LoopBytes(s.descriptors, cmd)
  }

  function AllStreamBytes(streams: seq<CaStream>, cmd: byte): (b: seq<byte>)
    ensures |b| == StreamsLength(streams)
  {
    if streams == [] then [] else StreamBytes(streams[0], cmd) + AllStreamBytes(streams[1..], cmd)
  }

  function HeadBytes(h: Head): (b: seq<byte>)
    requires ValidHead(h)
    ensures |b| == 4
  {
    [h.listManagement, h.programNumber / 0x100, h.programNumber % 0x100, h.version * 2 + h.current]
  }

  function Print(h: Head, c: CaLists, cmd: byte): (b: seq<byte>)
    requires ValidHead(h)
    ensures |b| == RequiredLength(c)
  {
    HeadBytes(h) + LoopBytes(c.program, cmd) + AllStreamBytes(c.streams, cmd)
  }

  // ----- a reader for the object, section 8.4.3.4 of EN 50221

  datatype Loop = Loop(cmd: Option<byte>, descriptors: seq<seq<byte>>)

  datatype ReadStream = ReadStream(streamType: byte, pid: nat, loop: Loop)

  datatype Object = Object(head: Head, program: Loop, streams: seq<ReadStream>)

  datatype LoopRead = LoopRead(loop: Loop, used: nat)

  function ReadLoop(b: seq<byte>): (r: Option<LoopRead>)
    ensures r.Some? ==> 2 <= r.value.used <= |b|
  {
    if |b| < 2 then None
    else
      var n := Length12(b[0], b[1]);
      if n == 0 then Some(LoopRead(Loop(None, []), 2))
      else if n > |b| - 2 || !Verified(b[3..2 + n]) then None
      else Some(LoopRead(Loop(Some(b[2]), Split(b[3..2 + n])), 2 + n))
  }

  function ReadStreams(b: seq<byte>): Option<seq<ReadStream>>
    decreases |b|
  {
    if b == [] then Some([])
    else if |b| < 5 then None
    else
      var loop := ReadLoop(b[3..]);
      if loop.None? then None
      else
        var rest := ReadStreams(b[3 + loop.value.used..]);
        if rest.None? then None
        else Some([ReadStream(b[0], Word(b[1] % 0x20, b[2]), loop.value.loop)] + rest.value)
  }

  function Read(b: seq<byte>): Option<Object> {
    if |b| < 6 then None
    else
      var loop := ReadLoop(b[4..]);
      if loop.None? then None
      else
        var streams := ReadStreams(b[4 + loop.value.used..]);
        if streams.None? then None
        else
          var v: int := b[3];
          Some(Object(Head(b[0], Word(b[1], b[2]), (v / 2) % 32, v % 2), loop.value.loop, streams.value))
  }

  // ----- printing and reading

  function LoopOf(ds: seq<seq<byte>>, cmd: byte): Loop {
    Loop(if Concat(ds) == [] then None else Some(cmd), ds)
  }

  function StreamOf(s: CaStream, cmd: byte): ReadStream {
    ReadStream(s.streamType, s.pid, LoopOf(s.descriptors, cmd))
  }

  function StreamsOf(streams: seq<CaStream>, cmd: byte): (r: seq<ReadStream>)
    ensures |r| == |streams|
    ensures forall i :: 0 <= i < |r| ==> r[i] == StreamOf(streams[i], cmd)
  {
    seq(|streams|, i requires 0 <= i < |streams| => StreamOf(streams[i], cmd))
  }

  /** What a reader should find: the head, and every list with the command id where it is not empty. */
  function ObjectOf(h: Head, c: CaLists, cmd: byte): Object {
    Object(h, LoopOf(c.program, cmd), StreamsOf(c.streams, cmd))
  }

  /** Every descriptor loop fits its 12-bit length field. */
  predicate Fits(c: CaLists) {
    LoopLength(c.program) < 0x1000 && forall i :: 0 <= i < |c.streams| ==> LoopLength(c.streams[i].descriptors) < 0x1000
  }

  lemma NibbleSplits(n: nat)
    requires n < 0x1000
    ensures Length12((n / 0x100) % 0x10, n % 0x100) == n
  {
  }

  lemma NoBytes(ds: seq<seq<byte>>)
    requires Descriptors(ds) && Concat(ds) == []
    ensures ds == []
  {
    if ds != [] {
      assert false;
    }
  }

  lemma ReadLoopBytes(ds: seq<seq<byte>>, cmd: byte, rest: seq<byte>)
    requires Descriptors(ds) && LoopLength(ds) < 0x1000
    ensures ReadLoop(LoopBytes(ds, cmd) + rest) == Some(LoopRead(LoopOf(ds, cmd), 2 + LoopLength(ds)))
  {
    var (n, b) := (LoopLength(ds), LoopBytes(ds, cmd) + rest);
    SplitConcat(ds);
    NibbleSplits(n);
    hide Concat, Split, Verified;
    assert b[0] == (n / 0x100) % 0x10 && b[1] == n % 0x100;
    if n == 0 {
      NoBytes(ds);
    } else {
      assert b[2] == cmd && b[3..2 + n] == Concat(ds);
    }
  }

  lemma ReadStreamStep(s: CaStream, cmd: byte, rest: seq<byte>)
    requires s.pid < 0x2000 && Descriptors(s.descriptors) && LoopLength(s.descriptors) < 0x1000
    ensures ReadStreams(StreamBytes(s, cmd) + rest)
         == if ReadStreams(rest).None? then None else Some([StreamOf(s, cmd)] + ReadStreams(rest).value)
  {
    var b := StreamBytes(s, cmd) + rest;
    ReadLoopBytes(s.descriptors, cmd, rest);
    PidSplits(s.pid);
    hide LoopBytes, ReadLoop, LoopLength, Word;
    var (n, tail) := (LoopLength(s.descriptors), LoopBytes(s.descriptors, cmd) + rest);
    assert b == [s.streamType, (s.pid / 0x100) % 0x20, s.pid % 0x100] + tail;
    hide StreamBytes;
    assert tail[2 + n..] == rest && b[3..] == tail && b[3 + (2 + n)..] == rest;
  }

  lemma PidSplits(pid: nat)
    requires pid < 0x2000
    ensures Word((pid / 0x100) % 0x20 % 0x20, pid % 0x100) == pid
  {
  }

  lemma {:induction false} ReadAllStreams(streams: seq<CaStream>, cmd: byte)
    requires forall i :: 0 <= i < |streams| ==>
      streams[i].pid < 0x2000 && Descriptors(streams[i].descriptors) && LoopLength(streams[i].descriptors) < 0x1000
    ensures ReadStreams(AllStreamBytes(streams, cmd)) == Some(StreamsOf(streams, cmd))
  {
    hide ReadStreams, StreamBytes;
    if streams == [] {
      NoStreams();
    } else {
      ReadAllStreams(streams[1..], cmd);
      ReadStreamStep(streams[0], cmd, AllStreamBytes(streams[1..], cmd));
      assert StreamsOf(streams, cmd) == [StreamOf(streams[0], cmd)] + StreamsOf(streams[1..], cmd);
    }
  }

  lemma NoStreams()
    ensures ReadStreams([]) == Some([])
  {
  }

  lemma ReadHead(h: Head, rest: seq<byte>)
    requires ValidHead(h)
    ensures
      var b := HeadBytes(h) + rest;
      var v: int := b[3];
      Head(b[0], Word(b[1], b[2]), (v / 2) % 32, v % 2) == h && b[4..] == rest
  {
  }

  /** The reader finds everything that was printed, when every loop fits. */
  lemma PrintedIsRead(h: Head, c: CaLists, cmd: byte)
    requires ValidHead(h) && Sound(c) && Fits(c)
    ensures Read(Print(h, c, cmd)) == Some(ObjectOf(h, c, cmd))
  {
    var (loop, streams) := (LoopBytes(c.program, cmd), AllStreamBytes(c.streams, cmd));
    var b := Print(h, c, cmd);
    assert b == HeadBytes(h) + (loop + streams);
    ReadHead(h, loop + streams);
    ReadLoopBytes(c.program, cmd, streams);
    ReadAllStreams(c.streams, cmd);
    hide HeadBytes, LoopBytes, AllStreamBytes, ReadLoop, ReadStreams, LoopLength;
    assert b[4 + |loop|..] == streams;
  }

  lemma ReadLoopFits(b: seq<byte>)
    requires ReadLoop(b).Some?
    ensures LoopLength(ReadLoop(b).value.loop.descriptors) < 0x1000
  {
    var n := Length12(b[0], b[1]);
    if n != 0 {
      ConcatSplits(b[3..2 + n]);
    }
  }

  lemma {:induction false} ReadStreamsFit(b: seq<byte>, i: nat)
    requires ReadStreams(b).Some? && i < |ReadStreams(b).value|
    ensures LoopLength(ReadStreams(b).value[i].loop.descriptors) < 0x1000
    decreases |b|
  {
    hide ReadLoop, LoopLength;
    if b != [] {
      ReadLoopFits(b[3..]);
      if i > 0 {
        ReadStreamsFit(b[3 + ReadLoop(b[3..]).value.used..], i - 1);
      }
    }
  }

  lemma ReadFits(b: seq<byte>, h: Head, c: CaLists, cmd: byte)
    requires Read(b) == Some(ObjectOf(h, c, cmd))
    ensures Fits(c)
  {
    hide ReadLoop, LoopLength, ReadStreams;
    ReadLoopFits(b[4..]);
    var used := ReadLoop(b[4..]).value.used;
    forall i | 0 <= i < |c.streams|
      ensures LoopLength(c.streams[i].descriptors) < 0x1000
    {
      ReadStreamsFit(b[4 + used..], i);
    }
  }

  /** The printed object says what it should exactly when every descriptor loop fits its length field. */
  lemma PrintRoundTripIff(h: Head, c: CaLists, cmd: byte)
    requires ValidHead(h) && Sound(c)
    ensures Read(Print(h, c, cmd)) == Some(ObjectOf(h, c, cmd)) <==> Fits(c)
  {
    if Fits(c) {
      PrintedIsRead(h, c, cmd);
    } else if Read(Print(h, c, cmd)) == Some(ObjectOf(h, c, cmd)) {
      ReadFits(Print(h, c, cmd), h, c, cmd);
    }
  }

  /** The descriptors that a reader applies to a stream of the object. */
  function ReadEffective(o: Object, i: nat): seq<seq<byte>>
    requires i < |o.streams|
  {
    o.program.descriptors + o.streams[i].loop.descriptors
  }

  function HeadOf(pmt: Pmt, listManagement: byte): Head {
    Head(listManagement, pmt.programNumber, pmt.version, pmt.current)
  }

  /** The object for a PMT. */
  function Formatted(pmt: Pmt, move: bool, listManagement: byte, cmd: byte): seq<byte>
    requires Decoded(pmt)
  {
    Print(HeadOf(pmt, listManagement), Arrange(Extract(pmt), move), cmd)
  }

  lemma {:induction false} StreamInSection(streams: seq<PmtStream>, i: nat)
    requires i < |streams|
    ensures |streams[i].info| + 5 <= StreamsSize(streams)
  {
    if i > 0 {
      StreamInSection(streams[1..], i - 1);
    }
  }

  lemma {:induction false} CaOnlyNoLonger(ds: seq<seq<byte>>)
    requires Descriptors(ds)
    ensures |Concat(CaOnly(ds))| <= |Concat(ds)|
  {
    if ds != [] {
      CaOnlyNoLonger(ds[1..]);
      if ds[0][0] == TAG_CA_DESCRIPTOR {
        assert CaOnly(ds)[1..] == CaOnly(ds[1..]);
      } else {
        assert CaOnly(ds) == CaOnly(ds[1..]);
      }
    }
  }

  lemma LoopNoLonger(buf: seq<byte>)
    requires Verified(buf)
    ensures LoopLength(CaDescriptors(buf)) <= 1 + |buf|
  {
    ConcatSplits(buf);
    CaOnlyNoLonger(Split(buf));
  }

  /** Every descriptor loop of a PMT fits its length field, whether or not descriptors are moved. */
  lemma DecodedFits(pmt: Pmt, move: bool)
    requires Decoded(pmt)
    ensures Fits(Arrange(Extract(pmt), move))
  {
    hide CaDescriptors, LoopLength, Verified;
    assert LoopLength([]) < 0x1000 by {
      NoLength();
    }
    LoopNoLonger(pmt.info);
    forall i | 0 <= i < |pmt.streams|
      ensures LoopLength(CaDescriptors(pmt.streams[i].info)) < 0x1000
    {
      StreamInSection(pmt.streams, i);
      LoopNoLonger(pmt.streams[i].info);
    }
  }

  lemma NoLength()
    ensures LoopLength([]) == 0
  {
  }

  /** The loops of the PMT are made of these descriptors: those of the programme, and each stream's own. */
  predicate MadeOf(pmt: Pmt, program: seq<seq<byte>>, own: seq<seq<seq<byte>>>) {
    && Descriptors(program) && pmt.info == Concat(program) && |own| == |pmt.streams|
    && forall i :: 0 <= i < |own| ==> Descriptors(own[i]) && pmt.streams[i].info == Concat(own[i])
  }

  /** A stream as the reader should find it: with all descriptors of tag 0x09 that apply to it and no others, in order. */
  ghost predicate StreamMeant(o: Object, i: nat, s: PmtStream, ds: seq<seq<byte>>, cmd: byte)
    requires i < |o.streams|
  {
    var found := o.streams[i];
    && found.streamType == s.streamType && found.pid == s.pid && Commanded(found.loop, cmd)
    && IsCaPart(ds, ReadEffective(o, i))
  }

  /**
   From PMT to module: whether or not descriptors are moved, the reader gets the programme's head, and for every
   stream, in order, its type, its pid and exactly the CA descriptors that the PMT applies to it, those of the
   programme and its own.
   */
  lemma FormattedMeaning(pmt: Pmt, move: bool, listManagement: byte, cmd: byte, program: seq<seq<byte>>,
      own: seq<seq<seq<byte>>>)
    requires Decoded(pmt) && MadeOf(pmt, program, own)
    ensures
      var r := Read(Formatted(pmt, move, listManagement, cmd));
      && r.Some? && r.value.head == Head(listManagement, pmt.programNumber, pmt.version, pmt.current)
      && |r.value.streams| == |pmt.streams| && Commanded(r.value.program, cmd)
      && forall i :: 0 <= i < |pmt.streams| ==> StreamMeant(r.value, i, pmt.streams[i], program + own[i], cmd)
  {
    FormattedIsRead(pmt, move, listManagement, cmd);
    hide Read, Formatted, Decoded;
    forall i | 0 <= i < |own|
      ensures IsCaPart(program + own[i], CaDescriptors(pmt.info) + CaDescriptors(pmt.streams[i].info))
    {
      SplitConcat(program);
      SplitConcat(own[i]);
      CaOnlyConcat(program, own[i]);
      CaOnlyIsPart(program + own[i]);
    }
  }

  lemma {:induction false} CaOnlyConcat(a: seq<seq<byte>>, b: seq<seq<byte>>)
    requires Descriptors(a) && Descriptors(b)
    ensures CaOnly(a + b) == CaOnly(a) + CaOnly(b)
  {
    if a == [] {
      assert a + b == b;
    } else {
      assert (a + b)[1..] == a[1..] + b;
      CaOnlyConcat(a[1..], b);
    }
  }

  /** A loop with descriptors carries the command, and an empty one carries none. */
  predicate Commanded(loop: Loop, cmd: byte) {
    loop.cmd == if loop.descriptors == [] then None else Some(cmd)
  }

  lemma LoopCommanded(ds: seq<seq<byte>>, cmd: byte)
    requires Descriptors(ds)
    ensures Commanded(LoopOf(ds, cmd), cmd)
  {
    if Concat(ds) == [] {
      NoBytes(ds);
    }
  }

  lemma FormattedIsRead(pmt: Pmt, move: bool, listManagement: byte, cmd: byte)
    requires Decoded(pmt)
    ensures
      var r := Read(Formatted(pmt, move, listManagement, cmd));
      && r.Some? && r.value.head == HeadOf(pmt, listManagement) && |r.value.streams| == |pmt.streams|
      && Commanded(r.value.program, cmd)
      && forall i :: 0 <= i < |pmt.streams| ==>
        && r.value.streams[i].streamType == pmt.streams[i].streamType && r.value.streams[i].pid == pmt.streams[i].pid
        && Commanded(r.value.streams[i].loop, cmd)
        && ReadEffective(r.value, i) == CaDescriptors(pmt.info) + CaDescriptors(pmt.streams[i].info)
  {
    var (c, h) := (Extract(pmt), HeadOf(pmt, listManagement));
    var a := Arrange(c, move);
    if c.streams != [] {
      ArrangeKeepsEffective(c, move, 0);
    }
    DecodedFits(pmt, move);
    PrintedIsRead(h, a, cmd);
    LoopCommanded(a.program, cmd);
    forall i | 0 <= i < |pmt.streams|
      ensures StreamsOf(a.streams, cmd)[i].streamType == pmt.streams[i].streamType
      ensures StreamsOf(a.streams, cmd)[i].pid == pmt.streams[i].pid
      ensures Commanded(StreamsOf(a.streams, cmd)[i].loop, cmd)
      ensures ReadEffective(ObjectOf(h, a, cmd), i) == CaDescriptors(pmt.info) + CaDescriptors(pmt.streams[i].info)
    {
      ArrangeKeepsEffective(c, move, i);
      LoopCommanded(a.streams[i].descriptors, cmd);
    }
  }
}
