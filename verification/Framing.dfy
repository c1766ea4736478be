/**
 How the EN 50221 stack cuts bytes into units: TPDUs on a transport connection, and APDUs inside a session
 package. lib/libdvben50221/en50221_transport.c and en50221_session.c.
 */
module Framing {
  import opened Asn1
  import opened Bytes
  import opened Wrappers

  const T_DATA_LAST: byte := 0xa0

  // ----- TPDUs

  datatype Tpdu = Tpdu(tag: byte, connection: byte, data: seq<byte>)

  /** The bytes of a TPDU; the length field counts the connection id, and is cut to 16 bits. */
  function Frame(t: Tpdu): (f: seq<byte>)
    ensures |f| > 0
  {
    [t.tag] + Field((|t.data| + 1) % 0x10000) + [t.connection] + t.data
  }

  /** A TPDU on the link: tag, length of what follows, connection id and data; see Annex A.4.1.2 of EN 50221. */
  lemma FrameBytes(t: Tpdu)
    requires |t.data| < 65535
    ensures
      var n := |t.data| + 1;
      Frame(t) == [t.tag] + (if n < 128 then [n] else if n < 256 then [0x81, n] else [0x82, n / 256, n % 256])
                  + [t.connection] + t.data
  {
  }

  function FrameAll(ts: seq<Tpdu>): seq<byte> {
    if ts == [] then [] else Frame(ts[0]) + FrameAll(ts[1..])
  }

  datatype Parsed = Parsed(tpdu: Tpdu, used: nat)

  /** The header at the front of received data, or nothing when it is malformed. */
  function ParseTpdu(data: seq<byte>): (r: Option<Parsed>)
    requires data != []
    ensures r.Some? ==> 0 < r.value.used <= |data|
  {
    var length := Decode(data[1..]);
    if length.None? then None
    else
      var (n, l) := (length.value.value, length.value.used);
      if n < 1 || n > |data| - (1 + l) then None
      else Some(Parsed(Tpdu(data[0], data[1 + l], data[2 + l..1 + l + n]), 1 + l + n))
  }

  /** All TPDUs in front of the first malformed header, and whether there is none. */
  function ParseAll(data: seq<byte>): (seq<Tpdu>, bool)
    decreases |data|
  {
    if data == [] then ([], true)
    else
      var first := ParseTpdu(data);
      if first.None? then ([], false)
      else
        var (rest, ok) := ParseAll(data[first.value.used..]);
        ([first.value.tpdu] + rest, ok)
  }

  lemma ParseFrame(t: Tpdu, rest: seq<byte>)
    requires |t.data| < 65535
    ensures ParseTpdu(Frame(t) + rest) == Some(Parsed(t, |Frame(t)|))
  {
    var n := |t.data| + 1;
    var f := Field(n);
    var data := Frame(t) + rest;
    assert data[1..] == f + ([t.connection] + t.data + rest);
    DecodeField(n, [t.connection] + t.data + rest);
    assert data[1 + |f|] == t.connection && data[2 + |f|..1 + |f| + n] == t.data;
  }

  /** A frame is read back as what was framed exactly when the data leaves room for the connection id. */
  lemma ParseFrameIff(t: Tpdu)
    ensures ParseTpdu(Frame(t)) == Some(Parsed(t, |Frame(t)|)) <==> |t.data| < 65535
  {
    if |t.data| < 65535 {
      ParseFrame(t, []);
      assert Frame(t) + [] == Frame(t);
    } else {
      var f := Field((|t.data| + 1) % 0x10000);
      assert Frame(t)[1..] == f + ([t.connection] + t.data);
      DecodeField((|t.data| + 1) % 0x10000, [t.connection] + t.data);
    }
  }

  lemma ParseAllStep(front: seq<byte>, t: Tpdu, more: seq<byte>)
    requires front != [] && ParseTpdu(front + more) == Some(Parsed(t, |front|))
    ensures ParseAll(front + more) == ([t] + ParseAll(more).0, ParseAll(more).1)
  {
    hide ParseTpdu;
    assert (front + more)[|front|..] == more;
  }

  /** Any list of TPDUs, framed and sent back to back, is parsed as exactly that list, whatever follows. */
  lemma {:induction false} FramingInverts(ts: seq<Tpdu>, rest: seq<byte>)
    requires forall i :: 0 <= i < |ts| ==> |ts[i].data| < 65535
    ensures ParseAll(FrameAll(ts) + rest) == (ts + ParseAll(rest).0, ParseAll(rest).1)
  {
    hide ParseTpdu, Frame, ParseAll;
    if ts == [] {
      assert FrameAll(ts) + rest == rest && ts + ParseAll(rest).0 == ParseAll(rest).0;
    } else {
      var more := FrameAll(ts[1..]) + rest;
      assert FrameAll(ts) + rest == Frame(ts[0]) + more;
      ParseFrame(ts[0], more);
      ParseAllStep(Frame(ts[0]), ts[0], more);
      FramingInverts(ts[1..], rest);
      Regroup(ts, ParseAll(rest).0);
    }
  }

  lemma Regroup<T>(ts: seq<T>, more: seq<T>)
    requires ts != []
    ensures [ts[0]] + (ts[1..] + more) == ts + more
  {
  }

  function Concat(parts: seq<seq<byte>>): seq<byte> {
    if parts == [] then [] else parts[0] + Concat(parts[1..])
  }

  lemma {:induction false} ConcatSnoc(parts: seq<seq<byte>>, p: seq<byte>)
    ensures Concat(parts + [p]) == Concat(parts) + p
  {
    if parts == [] {
      assert Concat([p]) == p + [];
    } else {
      assert (parts + [p])[1..] == parts[1..] + [p];
      ConcatSnoc(parts[1..], p);
    }
  }

  lemma ConcatOne(p: seq<byte>)
    ensures Concat([p]) == p
  {
    assert p + [] == p;
  }

  lemma ConcatTwo(p: seq<byte>, q: seq<byte>)
    ensures Concat([p, q]) == p + q
  {
    assert [p, q][1..] == [q];
    ConcatOne(q);
  }

  method TotalSize(pieces: seq<seq<byte>>) returns (size: nat)
    ensures size == |Concat(pieces)|
  {
    size := 0;
    var i := 0;
    while i < |pieces|
      invariant 0 <= i <= |pieces|
      invariant size == |Concat(pieces[..i])|
    {
      ConcatSnoc(pieces[..i], pieces[i]);
      assert pieces[..i + 1] == pieces[..i] + [pieces[i]];
      size := size + |pieces[i]|;
      i := i + 1;
    }
    assert pieces[..|pieces|] == pieces;
  }

  /** Copies the pieces one behind the other, from `at` on. */
  method MergePieces(a: array<byte>, at: nat, pieces: seq<seq<byte>>)
    requires at + |Concat(pieces)| <= a.Length
    modifies a
    ensures a[..at + |Concat(pieces)|] == old(a[..at]) + Concat(pieces)
  {
    var (pos, i) := (at, 0);
    while i < |pieces|
      invariant 0 <= i <= |pieces|
      invariant pos == at + |Concat(pieces[..i])| <= a.Length
      invariant a[..pos] == old(a[..at]) + Concat(pieces[..i])
    {
      ConcatSnoc(pieces[..i], pieces[i]);
      ConcatSplit(pieces, i);
      assert pieces[..i + 1] == pieces[..i] + [pieces[i]];
      Copy(a, pos, pieces[i]);
      pos := pos + |pieces[i]|;
      i := i + 1;
    }
    assert pieces[..|pieces|] == pieces;
  }

  /** Writes the header of a TPDU with `size` data bytes to follow. */
  method WriteHeader(msg: array<byte>, connection: byte, size: nat) returns (length: nat)
    requires msg.Length >= size + 10
    modifies msg
    ensures length == 2 + |Field((size + 1) % 0x10000)|
    ensures msg[..length] == [T_DATA_LAST] + Field((size + 1) % 0x10000) + [connection]
  {
    msg[0] := T_DATA_LAST;
    var l := Encode((size + 1) % 0x10000, msg, 1, 3);
    msg[1 + l] := connection;
    length := 2 + l;
    assert msg[..length] == msg[..1] + msg[1..1 + l] + msg[1 + l..length];
  }

  /** The message that `en50221_tl_send_datav` builds from a vector of pieces. */
  method BuildDataLast(connection: byte, pieces: seq<seq<byte>>) returns (msg: array<byte>, length: nat)
    ensures fresh(msg) && length <= msg.Length
    ensures msg[..length] == Frame(Tpdu(T_DATA_LAST, connection, Concat(pieces)))
  {
    hide Field, Concat;
    var size := TotalSize(pieces);
    msg := new byte[size + 10](_ => 0);
    var head := WriteHeader(msg, connection, size);
    MergePieces(msg, head, pieces);
    length := head + size;
  }

  lemma {:induction false} ConcatSplit(parts: seq<seq<byte>>, i: nat)
    requires i < |parts|
    ensures |Concat(parts[..i])| + |parts[i]| <= |Concat(parts)|
  {
    if i > 0 {
      assert parts[..i][1..] == parts[1..][..i - 1];
      ConcatSplit(parts[1..], i - 1);
    }
  }

  /** `memcpy` */
  method Copy(a: array<byte>, at: nat, s: seq<byte>)
    requires at + |s| <= a.Length
    modifies a
    ensures a[..at + |s|] == old(a[..at]) + s
  {
    var i := 0;
    while i < |s|
      invariant 0 <= i <= |s|
      invariant a[..at + i] == old(a[..at]) + s[..i]
    {
      a[at + i] := s[i];
      assert a[..at + i + 1] == a[..at + i] + [s[i]];
      i := i + 1;
    }
  }

  // ----- APDUs

  const APDU_TAG_SIZE: nat := 3

  /** The size of the APDU at the front of the data of a session package, or nothing when it does not fit. */
  function ApduSize(data: seq<byte>): (r: Option<nat>)
    ensures r.Some? ==> APDU_TAG_SIZE < r.value <= |data|
  {
    if |data| < APDU_TAG_SIZE then None
    else
      var length := Decode(data[APDU_TAG_SIZE..]);
      if length.None? then None
      else
        var n := APDU_TAG_SIZE + length.value.used + length.value.value;
        if n > |data| then None else Some(n)
  }

  predicate IsApdu(a: seq<byte>) {
    ApduSize(a) == Some(|a|)
  }

  /** An APDU is a tag of three bytes, a length field and as many bytes as it says. */
  lemma ApduIff(tag: seq<byte>, field: seq<byte>, body: seq<byte>)
    requires |tag| == 3 && Decode(field).Some? && Decode(field).value.used == |field|
    ensures IsApdu(tag + field + body) <==> |body| == Decode(field).value.value
    ensures ApduSize(tag + field + body).Some? <==> |body| >= Decode(field).value.value
  {
    assert (tag + field + body)[3..] == field + body;
    DecodePrefix(field, body);
  }

  /** What the APDU loop delivers, and whether it got through all of the data. */
  function SplitApdus(data: seq<byte>): (seq<seq<byte>>, bool)
    decreases |data|
  {
    if data == [] then ([], true)
    else
      var n := ApduSize(data);
      if n.None? then ([], false)
      else
        var (rest, ok) := SplitApdus(data[n.value..]);
        ([data[..n.value]] + rest, ok)
  }

  lemma ApduSizePrefix(a: seq<byte>, rest: seq<byte>)
    requires IsApdu(a)
    ensures ApduSize(a + rest) == Some(|a|)
  {
    assert (a + rest)[APDU_TAG_SIZE..] == a[APDU_TAG_SIZE..] + rest;
    DecodePrefix(a[APDU_TAG_SIZE..], rest);
  }

  lemma SplitStep(a: seq<byte>, more: seq<byte>)
    requires IsApdu(a)
    ensures SplitApdus(a + more) == ([a] + SplitApdus(more).0, SplitApdus(more).1)
  {
    ApduSizePrefix(a, more);
    hide ApduSize;
    assert (a + more)[..|a|] == a && (a + more)[|a|..] == more;
  }

  /** Every concatenation of well-formed APDUs is delivered exactly, whatever follows it. */
  lemma {:induction false} SplitInverts(apdus: seq<seq<byte>>, rest: seq<byte>)
    requires forall i :: 0 <= i < |apdus| ==> IsApdu(apdus[i])
    ensures SplitApdus(Concat(apdus) + rest) == (apdus + SplitApdus(rest).0, SplitApdus(rest).1)
  {
    hide IsApdu, SplitApdus;
    if apdus == [] {
      assert Concat(apdus) + rest == rest && apdus + SplitApdus(rest).0 == SplitApdus(rest).0;
    } else {
      var more := Concat(apdus[1..]) + rest;
      assert Concat(apdus) + rest == apdus[0] + more;
      SplitStep(apdus[0], more);
      SplitInverts(apdus[1..], rest);
      Regroup(apdus, SplitApdus(rest).0);
    }
  }

  /** No well-formed APDU stands at the front of `data`. */
  predicate NoApdu(data: seq<byte>) {
    forall n :: 0 <= n <= |data| ==> !IsApdu(data[..n])
  }

  lemma NoApduIff(data: seq<byte>)
    requires data != []
    ensures ApduSize(data).None? <==> NoApdu(data)
  {
    if ApduSize(data).Some? {
      ApduSizeCut(data);
    } else {
      forall n | 0 <= n <= |data|
        ensures !IsApdu(data[..n])
      {
        assert data[..n] + data[n..] == data;
        if IsApdu(data[..n]) {
          ApduSizePrefix(data[..n], data[n..]);
        }
      }
    }
  }

  /** `apdus` is the longest run of well-formed APDUs at the front of `data`. */
  predicate LongestRun(data: seq<byte>, apdus: seq<seq<byte>>, all: bool) {
    && (forall i :: 0 <= i < |apdus| ==> IsApdu(apdus[i]))
    && Concat(apdus) <= data
    && (if all then Concat(apdus) == data
        else Concat(apdus) != data && NoApdu(data[|Concat(apdus)|..]))
  }

  /**
   What the loop delivers is the longest run of well-formed APDUs at the front of the data, and it reports
   success exactly when that is all of the data.
   */
  lemma {:induction false} SplitMaximal(data: seq<byte>)
    ensures LongestRun(data, SplitApdus(data).0, SplitApdus(data).1)
    decreases |data|
  {
    if data != [] {
      NoApduIff(data);
      if ApduSize(data).None? {
        assert data[0..] == data;
      } else {
        var n := ApduSize(data).value;
        ApduSizeCut(data);
        SplitMaximal(data[n..]);
        LongerRun(data[..n], data[n..], SplitApdus(data[n..]).0, SplitApdus(data[n..]).1);
        assert data == data[..n] + data[n..];
      }
    }
  }

  lemma LongerRun(a: seq<byte>, rest: seq<byte>, more: seq<seq<byte>>, all: bool)
    requires IsApdu(a) && LongestRun(rest, more, all)
    ensures LongestRun(a + rest, [a] + more, all)
  {
    hide IsApdu, NoApdu;
    assert ([a] + more)[1..] == more;
    assert Concat([a] + more) == a + Concat(more);
    assert (a + rest)[|a + Concat(more)|..] == rest[|Concat(more)|..];
    assert (a + rest)[|a|..] == rest && (a + Concat(more))[|a|..] == Concat(more);
  }

  lemma ApduSizeCut(data: seq<byte>)
    requires ApduSize(data).Some?
    ensures IsApdu(data[..ApduSize(data).value])
  {
    var n := ApduSize(data).value;
    assert data[..n][APDU_TAG_SIZE..] == data[APDU_TAG_SIZE..n];
  }

  /** The loop of `en50221_sl_handle_session_package`. */
  method DeliverApdus(data: seq<byte>) returns (apdus: seq<seq<byte>>, ok: bool)
    ensures (apdus, ok) == SplitApdus(data)
  {
    hide ApduSize;
    apdus := [];
    var rest := data;
    ghost var goal := SplitApdus(data);
    while rest != []
      invariant goal.0 == apdus + SplitApdus(rest).0 && goal.1 == SplitApdus(rest).1
      decreases |rest|
    {
      var size := ApduSize(rest);
      if size.None? {
        assert apdus + [] == apdus;
        return apdus, false;
      }
      apdus := apdus + [rest[..size.value]];
      rest := rest[size.value..];
    }
    assert apdus + [] == apdus;
    return apdus, true;
  }
}
