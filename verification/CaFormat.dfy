/**
 `en50221_ca_format_pmt` as the library carries it out: lists are extracted, relinked and measured in place, then
 written to the caller's buffer. Specified by the functions of module `CaPmt`.
 */
module CaFormat {
  import opened Bytes
  import opened CaPmt
  import opened Framing

  class Stream {
    const streamType: byte
    const pid: nat
    var descriptors: seq<seq<byte>>
    var descriptorsLength: nat

    constructor (streamType: byte, pid: nat, descriptors: seq<seq<byte>>)
      ensures Value() == CaStream(streamType, pid, descriptors)
    {
      this.streamType, this.pid, this.descriptors, this.descriptorsLength := streamType, pid, descriptors, 0;
    }

    ghost function Value(): CaStream
      reads this
    {
      CaStream(streamType, pid, descriptors)
    }
  }

  ghost predicate Distinct(streams: seq<Stream>) {
    forall i, j :: 0 <= i < j < |streams| ==> streams[i] != streams[j]
  }

  ghost function Values(streams: seq<Stream>): (v: seq<CaStream>)
    reads streams
    ensures |v| == |streams|
    ensures forall i :: 0 <= i < |v| ==> v[i] == streams[i].Value()
  {
    seq(|streams|, i requires 0 <= i < |streams| reads streams => streams[i].Value())
  }

  /** `en50221_ca_extract_pmt_descriptors`, also the inner loop of `en50221_ca_extract_streams` */
  method ExtractDescriptors(buf: seq<byte>) returns (cas: seq<seq<byte>>)
    requires Verified(buf)
    ensures cas == CaDescriptors(buf)
  {
    var rest := buf;
    cas := [];
    while rest != []
      invariant Verified(rest) && cas + CaDescriptors(rest) == CaDescriptors(buf)
      decreases |rest|
    {
      if rest[0] == TAG_CA_DESCRIPTOR {
        cas := cas + [rest[..Size(rest)]];
      }
      rest := rest[Size(rest)..];
    }
  }

  /** `en50221_ca_extract_streams` */
  method ExtractStreams(pmt: Pmt) returns (streams: seq<Stream>)
    requires Decoded(pmt)
    ensures fresh(streams) && Distinct(streams) && Values(streams) == Extract(pmt).streams
  {
    hide CaDescriptors;
    streams := [];
    var i := 0;
    while i < |pmt.streams|
      invariant 0 <= i <= |pmt.streams| && fresh(streams) && Distinct(streams)
      invariant Values(streams) == Extract(pmt).streams[..i]
    {
      ghost var before := Values(streams);
      var cas := ExtractDescriptors(pmt.streams[i].info);
      var s := new Stream(pmt.streams[i].streamType, pmt.streams[i].pid, cas);
      streams := streams + [s];
      assert Values(streams) == before + [s.Value()];
      i := i + 1;
    }
  }

  /** The descriptor-by-descriptor comparison of two streams. */
  method SameDescriptors(a: seq<seq<byte>>, b: seq<seq<byte>>) returns (same: bool)
    ensures same <==> a == b
  {
    if |a| != |b| {
      return false;
    }
    var i := 0;
    while i < |a|
      invariant 0 <= i <= |a| && a[..i] == b[..i]
    {
      if |a[i]| != |b[i]| || a[i] != b[i] {
        return false;
      }
      i := i + 1;
    }
    return true;
  }

  method Alike(streams: seq<Stream>) returns (alike: bool)
    requires streams != []
    ensures alike <==> AllAlike(Values(streams))
  {
    var i := 1;
    while i < |streams|
      invariant 1 <= i <= |streams|
      invariant forall j :: 0 <= j < i ==> Values(streams)[j].descriptors == Values(streams)[0].descriptors
    {
      alike := SameDescriptors(streams[i].descriptors, streams[0].descriptors);
      if !alike {
        assert Values(streams)[i].descriptors != Values(streams)[0].descriptors;
        return;
      }
      i := i + 1;
    }
    return true;
  }

  /** `en50221_ca_try_move_pmt_descriptors` */
  method MoveDescriptors(streams: seq<Stream>) returns (program: seq<seq<byte>>)
    requires Distinct(streams)
    modifies streams
    ensures CaLists(program, Values(streams)) == TryMove(CaLists([], old(Values(streams))))
  {
    if streams == [] {
      return [];
    }
    var alike := Alike(streams);
    if !alike {
      return [];
    }
    program := streams[0].descriptors;
    var i := 0;
    while i < |streams|
      invariant 0 <= i <= |streams|
      invariant forall j :: 0 <= j < i ==> streams[j].Value() == old(streams[j].Value()).(descriptors := [])
      invariant forall j :: i <= j < |streams| ==> unchanged(streams[j])
    {
      streams[i].descriptors := [];
      i := i + 1;
    }
    assert Values(streams) == Strip(old(Values(streams)));
  }

  method MeasureLoop(ds: seq<seq<byte>>) returns (length: nat)
    ensures length == LoopLength(ds)
  {
    length := TotalSize(ds);
    if length != 0 {
      length := length + 1;
    }
  }

  /** `en50221_ca_calculate_length` */
  method CalculateLength(program: seq<seq<byte>>, streams: seq<Stream>) returns (programLength: nat, total: nat)
    requires Distinct(streams)
    modifies streams
    ensures Values(streams) == old(Values(streams))
    ensures programLength == LoopLength(program)
    ensures forall i :: 0 <= i < |streams| ==> streams[i].descriptorsLength == LoopLength(streams[i].descriptors)
    ensures total == RequiredLength(CaLists(program, Values(streams)))
  {
    hide LoopLength;
    programLength := MeasureLoop(program);
    total := 6 + programLength;
    var i := 0;
    while i < |streams|
      invariant 0 <= i <= |streams|
      invariant forall j :: 0 <= j < |streams| ==> streams[j].Value() == old(streams[j].Value())
      invariant forall j :: 0 <= j < i ==> streams[j].descriptorsLength == LoopLength(streams[j].descriptors)
      invariant total + StreamsLength(old(Values(streams))[i..]) == 6 + programLength + StreamsLength(old(Values(streams)))
    {
      assert old(Values(streams))[i..][1..] == old(Values(streams))[i + 1..];
      streams[i].descriptorsLength := MeasureLoop(streams[i].descriptors);
      total := total + 5 + streams[i].descriptorsLength;
      i := i + 1;
    }
    assert Values(streams) == old(Values(streams));
  }

  /** The length field, the command id and the descriptors of one loop. */
  method WriteLoop(data: array<byte>, at: nat, length: nat, ds: seq<seq<byte>>, cmd: byte) returns (pos: nat)
    requires length == LoopLength(ds) && at + 2 + length <= data.Length
    modifies data
    ensures pos == at + 2 + length && data[..pos] == old(data[..at]) + LoopBytes(ds, cmd)
  {
    var header := [(length / 0x100) % 0x10, length % 0x100] + if length != 0 then [cmd] else [];
    Copy(data, at, header);
    pos := at + |header|;
    if length != 0 {
      MergePieces(data, pos, ds);
      pos := pos + (length - 1);
    }
  }

  method WriteStream(data: array<byte>, at: nat, s: Stream, cmd: byte) returns (pos: nat)
    requires s.descriptorsLength == LoopLength(s.descriptors) && at + 5 + s.descriptorsLength <= data.Length
    modifies data
    ensures pos == at + 5 + s.descriptorsLength && data[..pos] == old(data[..at]) + StreamBytes(s.Value(), cmd)
  {
    hide LoopLength, LoopBytes;
    var header := [s.streamType, (s.pid / 0x100) % 0x20, s.pid % 0x100];
    Copy(data, at, header);
    pos := WriteLoop(data, at + 3, s.descriptorsLength, s.descriptors, cmd);
  }

  method WriteStreams(data: array<byte>, at: nat, streams: seq<Stream>, cmd: byte) returns (pos: nat)
    requires forall i :: 0 <= i < |streams| ==> streams[i].descriptorsLength == LoopLength(streams[i].descriptors)
    requires at + StreamsLength(Values(streams)) <= data.Length
    modifies data
    ensures pos == at + StreamsLength(Values(streams))
    ensures data[..pos] == old(data[..at]) + AllStreamBytes(Values(streams), cmd)
  {
    hide LoopLength, StreamBytes;
    ghost var vs := Values(streams);
    pos := at;
    var i := 0;
    while i < |streams|
      invariant 0 <= i <= |streams| && pos + StreamsLength(vs[i..]) == at + StreamsLength(vs)
      invariant data[..pos] + AllStreamBytes(vs[i..], cmd) == old(data[..at]) + AllStreamBytes(vs, cmd)
    {
      assert vs[i..][1..] == vs[i + 1..];
      ghost var before := data[..pos];
      StreamsStep(before, vs, i, cmd);
      pos := WriteStream(data, pos, streams[i], cmd);
      i := i + 1;
    }
  }

  lemma StreamsStep(before: seq<byte>, vs: seq<CaStream>, i: nat, cmd: byte)
    requires i < |vs|
    ensures before + AllStreamBytes(vs[i..], cmd)
         == before + StreamBytes(vs[i], cmd) + AllStreamBytes(vs[i + 1..], cmd)
  {
    assert vs[i..][1..] == vs[i + 1..];
  }

  /** The buffer's first `available` bytes may be used; nothing is written when they are too few. */
  method FormatPmt(pmt: Pmt, data: array<byte>, available: nat, move: bool, listManagement: byte, cmd: byte)
    returns (result: int)
    requires Decoded(pmt) && available <= data.Length
    modifies data
    ensures
      var printed := Formatted(pmt, move, listManagement, cmd);
      if |printed| <= available then result == |printed| && data[..result] == printed
      else result == -1 && data[..] == old(data[..])
  {
    hide CaDescriptors, Extract, LoopBytes, AllStreamBytes, LoopLength, StreamsLength, TryMove, HeadBytes;
    var program := ExtractDescriptors(pmt.info);
    var streams := ExtractStreams(pmt);
    ExtractProgram(pmt);
    if program == [] && move {
      program := MoveDescriptors(streams);
    }
    ghost var lists := Arrange(Extract(pmt), move);
    var programLength, total := CalculateLength(program, streams);
    assert lists == CaLists(program, Values(streams));
    if total > available {
      return -1;
    }
    var h := HeadOf(pmt, listManagement);
    var header := HeadBytes(h);
    Copy(data, 0, header);
    var pos := WriteLoop(data, 4, programLength, program, cmd);
    ghost var front := data[..pos];
    pos := WriteStreams(data, pos, streams, cmd);
    assert data[..pos] == HeadBytes(h) + LoopBytes(program, cmd) + AllStreamBytes(Values(streams), cmd);
    return pos;
  }

  lemma ExtractProgram(pmt: Pmt)
    requires Decoded(pmt)
    ensures Extract(pmt).program == CaDescriptors(pmt.info)
  {
  }
}
