/**
 Sections in a buffer, lib/libucsi/section.h: byte order is changed in place and the trailing CRC is checked
 or written. The buffer is seen from a little-endian host, where `bswap16` really swaps.
 */
module Section {
  import opened Crc32
  import opened Wrappers

  const HEADER_SIZE: nat := 3
  const CRC_SIZE: nat := 4

  // ----- buffers as values

  function Swapped(s: seq<bv8>, i: nat): (r: seq<bv8>)
    requires i + 1 < |s|
    ensures |r| == |s|
  {
    s[i := s[i + 1]][i + 1 := s[i]]
  }

  /** The 12-bit length of a section whose bytes 1 and 2 are in host order. */
  function LengthField(s: seq<bv8>): nat
    requires |s| >= HEADER_SIZE
  {
    Length12(s[2], s[1])
  }

  function Length12(hi: bv8, lo: bv8): nat {
    256 * ((hi & 0x0f) as int) + lo as int
  }

  predicate SyntaxIndicator(s: seq<bv8>)
    requires |s| >= HEADER_SIZE
  {
    s[2] & 0x80 != 0
  }

  /** A section as transmitted: its last four bytes are the big-endian CRC of all that precede them. */
  predicate CrcOk(wire: seq<bv8>) {
    |wire| >= CRC_SIZE &&
    wire[|wire| - CRC_SIZE..] == BigEndian(Fold(CRC32_INIT, wire[..|wire| - CRC_SIZE]))
  }

  /** The section of a buffer whose header is in host order, as it was transmitted. */
  function Wire(s: seq<bv8>): (r: seq<bv8>)
    requires |s| >= HEADER_SIZE && HEADER_SIZE + LengthField(s) <= |s|
    ensures |r| == HEADER_SIZE + LengthField(s)
  {
    Swapped(s, 1)[..HEADER_SIZE + LengthField(s)]
  }

  /** What `section_ext_encode` leaves in the buffer. */
  function Encoded(s: seq<bv8>, updateCrc: bool): (r: seq<bv8>)
    requires |s| >= 5 && 1 <= LengthField(s) && HEADER_SIZE + LengthField(s) <= |s|
    ensures |r| == |s|
  {
    var swapped := Swapped(s, 3);
    var n := HEADER_SIZE + LengthField(s) - CRC_SIZE;
    if updateCrc then WithTrailer(swapped, n, BigEndian(Fold(CRC32_INIT, Swapped(swapped, 1)[..n])))
    else swapped
  }

  function WithTrailer(s: seq<bv8>, n: nat, trailer: seq<bv8>): (r: seq<bv8>)
    requires |trailer| == CRC_SIZE && n + CRC_SIZE <= |s|
    ensures |r| == |s|
  {
    s[..n] + trailer + s[n + CRC_SIZE..]
  }

  // ----- the laws

  function Word(a: bv8, b: bv8, c: bv8, d: bv8): bv32 {
    ((a as bv32) << 24) | ((b as bv32) << 16) | ((c as bv32) << 8) | (d as bv32)
  }

  lemma WordBytes(a: bv8, b: bv8, c: bv8, d: bv8)
    ensures BigEndian(Word(a, b, c, d)) == [a, b, c, d]
  {
    PureWord(a, b, c, d);
  }

  lemma PureWord(a: bv8, b: bv8, c: bv8, d: bv8)
    ensures ((((a as bv32) << 24) | ((b as bv32) << 16) | ((c as bv32) << 8) | (d as bv32)) >> 24) as bv8 == a
    ensures (((((a as bv32) << 24) | ((b as bv32) << 16) | ((c as bv32) << 8) | (d as bv32)) >> 16) & 0xff) as bv8 == b
    ensures (((((a as bv32) << 24) | ((b as bv32) << 16) | ((c as bv32) << 8) | (d as bv32)) >> 8) & 0xff) as bv8 == c
    ensures ((((a as bv32) << 24) | ((b as bv32) << 16) | ((c as bv32) << 8) | (d as bv32)) & 0xff) as bv8 == d
  {
  }

  /** The CRC of a whole section, trailer included, is zero exactly when the trailer is right. */
  lemma CheckIff(wire: seq<bv8>)
    ensures Fold(CRC32_INIT, wire) == 0 <==> CrcOk(wire)
  {
    hide Fold, BigEndian, Word;
    var n := |wire| - CRC_SIZE;
    if n < 0 {
      ShortBufferNonZero(wire);
    } else {
      var (rest, t) := (wire[..n], wire[n..]);
      var v := Word(t[0], t[1], t[2], t[3]);
      WordBytes(t[0], t[1], t[2], t[3]);
      assert t == BigEndian(v) && wire == rest + BigEndian(v);
      var f := Fold(CRC32_INIT, rest);
      TrailerCancels(CRC32_INIT, rest, v);
      if BigEndian(v) == BigEndian(f) {
        TrailerCancels(CRC32_INIT, rest, f);
      }
    }
  }

  /** No change confined to four consecutive bytes turns one accepted section into another. */
  lemma CorruptionRejected(sent: seq<bv8>, got: seq<bv8>, i: nat, k: nat)
    requires CrcOk(sent) && |got| == |sent| && got != sent
    requires k <= 4 && i + k <= |sent| && got[..i] == sent[..i] && got[i + k..] == sent[i + k..]
    ensures !CrcOk(got)
  {
    hide Fold, BigEndian;
    CheckIff(sent);
    CheckIff(got);
    WindowDetected(CRC32_INIT, sent, got, i, k);
  }

  // ----- encoding for transmission, then receiving

  lemma TrailerKeeps(s: seq<bv8>, n: nat, trailer: seq<bv8>)
    requires |trailer| == CRC_SIZE && 5 <= n && n + CRC_SIZE <= |s|
    ensures var e := WithTrailer(s, n, trailer);
      && e[..n] == s[..n] && e[n + CRC_SIZE..] == s[n + CRC_SIZE..]
      && Swapped(e, 1)[..n] == Swapped(s, 1)[..n]
      && Swapped(e, 1)[n..n + CRC_SIZE] == trailer
  {
    var e := WithTrailer(s, n, trailer);
    assert e[..n] == s[..n];
    assert e[1] == e[..n][1] && e[2] == e[..n][2] && s[1] == s[..n][1] && s[2] == s[..n][2];
    assert Swapped(e, 1)[..n] == e[..n][1 := e[2]][2 := e[1]];
    assert Swapped(s, 1)[..n] == s[..n][1 := s[2]][2 := s[1]];
  }

  /** Encoding with a CRC update keeps every byte of the payload, and the receiver's check accepts the result. */
  lemma EncodedPassesCheck(s: seq<bv8>)
    requires |s| >= 5 && 6 <= LengthField(s) && HEADER_SIZE + LengthField(s) <= |s|
    ensures LengthField(Encoded(s, true)) == LengthField(s)
    ensures var (e, n) := (Encoded(s, true), HEADER_SIZE + LengthField(s) - CRC_SIZE);
      && e[..n] == Swapped(s, 3)[..n] && e[n + CRC_SIZE..] == s[n + CRC_SIZE..]
      && SyntaxIndicator(e) == SyntaxIndicator(s)
      && CrcOk(Wire(e))
  {
    hide Fold, BigEndian, Length12, WithTrailer;
    var n := HEADER_SIZE + LengthField(s) - CRC_SIZE;
    var swapped := Swapped(s, 3);
    var trailer := BigEndian(Fold(CRC32_INIT, Swapped(swapped, 1)[..n]));
    var e := WithTrailer(swapped, n, trailer);
    assert e == Encoded(s, true);
    TrailerKeeps(swapped, n, trailer);
    assert e[1] == e[..n][1] == s[1] && e[2] == e[..n][2] == s[2];
    assert swapped[n + CRC_SIZE..] == s[n + CRC_SIZE..];
    assert Wire(e)[..n] == Swapped(swapped, 1)[..n];
    assert Wire(e)[n..] == trailer;
  }

  /** The section a receiver decodes from a transmitted buffer, in host order, or nothing. */
  function Received(wire: seq<bv8>): Option<seq<bv8>>
    requires |wire| >= 5
  {
    var s := Swapped(wire, 1);
    if |wire| == HEADER_SIZE + LengthField(s) && SyntaxIndicator(s) && CrcOk(wire) then Some(Swapped(s, 3)) else None
  }

  lemma SwapBack(s: seq<bv8>, i: nat)
    requires i + 1 < |s|
    ensures Swapped(Swapped(s, i), i) == s
  {
  }

  lemma SwapPrefix(s: seq<bv8>, t: seq<bv8>, i: nat, n: nat)
    requires i + 1 < n <= |s| == |t| && s[..n] == t[..n]
    ensures Swapped(s, i)[..n] == Swapped(t, i)[..n]
  {
    assert s[i] == s[..n][i] && s[i + 1] == s[..n][i + 1];
  }

  /**
   A section encoded for transmission, received and decoded with its CRC checked, is the section again:
   every byte before the trailer comes back in host order.
   */
  lemma EncodeReceiveRoundTrip(s: seq<bv8>)
    requires |s| >= 5 && 6 <= LengthField(s) && HEADER_SIZE + LengthField(s) == |s| && SyntaxIndicator(s)
    ensures LengthField(Encoded(s, true)) == LengthField(s)
    ensures var r := Received(Wire(Encoded(s, true)));
      r.Some? && |r.value| == |s| && r.value[..|s| - CRC_SIZE] == s[..|s| - CRC_SIZE]
  {
    hide Fold, BigEndian, Length12, CrcOk, Encoded, Swapped;
    EncodedPassesCheck(s);
    var e := Encoded(s, true);
    var n := |s| - CRC_SIZE;
    SwapBack(e, 1);
    assert Swapped(e, 1)[..|s|] == Swapped(e, 1);
    SwapPrefix(e, Swapped(s, 3), 3, n);
    SwapBack(s, 3);
  }

  // ----- what is accepted, by the transmitted bytes

  lemma Nibbles(hi: bv8, f: nat, h: nat)
    requires f < 16 && h < 16 && hi as int == 16 * f + h
    ensures (hi & 0x0f) as int == h && (hi & 0x80 != 0 <==> f >= 8)
  {
    assert hi & 0x0f == hi % 16;
    assert hi & 0x80 != 0 <==> hi >= 0x80;
  }

  /** The header of a section with flags `f`, the first of which is the syntax indicator, and `n` bytes behind it. */
  predicate Headed(wire: seq<bv8>, f: nat, n: nat) {
    |wire| >= 3 && f < 16 && n < 4096 && wire[1] as int == 16 * f + n / 256 && wire[2] as int == n % 256
  }

  /**
   `section_codec` accepts a buffer exactly when it is as long as its header says, whatever the table id and flags.
   */
  lemma CodecAcceptsIff(wire: seq<bv8>, f: nat, n: nat)
    requires Headed(wire, f, n)
    ensures LengthField(Swapped(wire, 1)) == n && (SyntaxIndicator(Swapped(wire, 1)) <==> f >= 8)
    ensures |wire| == HEADER_SIZE + LengthField(Swapped(wire, 1)) <==> |wire| == 3 + n
  {
    Nibbles(wire[1], f, n / 256);
  }

  /**
   A receiver accepts a section exactly when its size, its syntax indicator and its CRC are right, and then has it
   with the length and the table id extension in the order of a little-endian host.
   */
  lemma ReceivedIff(wire: seq<bv8>, f: nat, n: nat)
    requires Headed(wire, f, n) && |wire| >= 5
    ensures Received(wire).Some? <==>
      |wire| == 3 + n && f >= 8 && Fold(0xffffffff, wire) == 0
    ensures Received(wire).Some? ==> Received(wire).value == [wire[0], wire[2], wire[1], wire[4], wire[3]] + wire[5..]
  {
    CodecAcceptsIff(wire, f, n);
    CheckIff(wire);
    HostOrder(wire);
    hide Fold, CrcOk, LengthField, SyntaxIndicator, Swapped, Headed;
  }

  lemma HostOrder(wire: seq<bv8>)
    requires |wire| >= 5
    ensures Swapped(Swapped(wire, 1), 3) == [wire[0], wire[2], wire[1], wire[4], wire[3]] + wire[5..]
  {
  }

  /**
   What goes out: both 16-bit fields of the header with the high byte first, the payload, and a trailer that cancels.
   */
  lemma EncodedOnWire(s: seq<bv8>)
    requires |s| >= 5 && 6 <= LengthField(s) && HEADER_SIZE + LengthField(s) <= |s|
    ensures LengthField(Encoded(s, true)) == LengthField(s)
    ensures var (w, n) := (Wire(Encoded(s, true)), LengthField(s) - 1);
      && |w| == n + 4 && w[..n] == [s[0], s[2], s[1], s[4], s[3]] + s[5..n]
      && Fold(0xffffffff, w) == 0
  {
    hide Fold, CrcOk, LengthField, Encoded, Swapped, SyntaxIndicator;
    EncodedPassesCheck(s);
    var (e, n) := (Encoded(s, true), LengthField(s) - 1);
    CheckIff(Wire(e));
    SwapsCut(e, s, n);
    assert Wire(e)[..n] == Swapped(e, 1)[..n];
  }

  lemma SwapsCut(e: seq<bv8>, s: seq<bv8>, n: nat)
    requires 5 <= n <= |s| == |e| && e[..n] == Swapped(s, 3)[..n]
    ensures Swapped(e, 1)[..n] == [s[0], s[2], s[1], s[4], s[3]] + s[5..n]
  {
    assert forall i :: 0 <= i < n ==> e[i] == e[..n][i];
  }

  // ----- the functions of the header file

  method Bswap16(buf: array<bv8>, i: nat)
    requires i + 1 < buf.Length
    modifies buf
    ensures buf[..] == Swapped(old(buf[..]), i)
  {
    buf[i], buf[i + 1] := buf[i + 1], buf[i];
  }

  /** Brings the header into host order; `ok` says that the length field agrees with the buffer. */
  method SectionCodec(buf: array<bv8>, len: nat) returns (ok: bool)
    requires len <= buf.Length
    modifies buf
    ensures len < HEADER_SIZE ==> !ok && buf[..] == old(buf[..])
    ensures len >= HEADER_SIZE ==> buf[..] == Swapped(old(buf[..]), 1) && (ok <==> len == HEADER_SIZE + LengthField(buf[..]))
  {
    if len < 3 {
      return false;
    }
    Bswap16(buf, 1);
    var length := Length12(buf[2], buf[1]);
    ok := len == length + 3;
  }

  /** Zero exactly when the trailer is the CRC of the rest; the buffer comes back as it was. */
  method SectionCheckCrc(buf: array<bv8>) returns (r: int)
    requires buf.Length >= HEADER_SIZE && HEADER_SIZE + LengthField(buf[..]) <= buf.Length
    modifies buf
    ensures buf[..] == old(buf[..])
    ensures r == 0 || r == -1
    ensures r == 0 <==> CrcOk(Wire(old(buf[..])))
  {
    hide Remainder, Dividend, Fold, BitsOf, BigEndian, CrcOk, Length12;
    ghost var s := buf[..];
    var len := Length12(buf[2], buf[1]) + HEADER_SIZE;
    Bswap16(buf, 1);
    assert buf[..len] == Wire(s);
    var crc := Crc32.Crc32(CRC32_INIT, buf, len);
    Bswap16(buf, 1);
    CheckIff(Wire(s));
    r := if crc != 0 then -1 else 0;
  }

  method SectionExtDecode(buf: array<bv8>, checkCrc: bool) returns (ok: bool)
    requires buf.Length >= 5 && HEADER_SIZE + LengthField(buf[..]) <= buf.Length
    modifies buf
    ensures ok <==> SyntaxIndicator(old(buf[..])) && (checkCrc ==> CrcOk(Wire(old(buf[..]))))
    ensures buf[..] == if ok then Swapped(old(buf[..]), 3) else old(buf[..])
  {
    hide CrcOk, Length12;
    if buf[2] & 0x80 == 0 {
      return false;
    }
    if checkCrc {
      var r := SectionCheckCrc(buf);
      if r != 0 {
        return false;
      }
    }
    Bswap16(buf, 3);
    ok := true;
  }

  method SectionExtEncode(buf: array<bv8>, updateCrc: bool) returns (ok: bool)
    requires buf.Length >= 5 && 1 <= LengthField(buf[..]) && HEADER_SIZE + LengthField(buf[..]) <= buf.Length
    modifies buf
    ensures ok <==> SyntaxIndicator(old(buf[..]))
    ensures buf[..] == if ok then Encoded(old(buf[..]), updateCrc) else old(buf[..])
  {
    hide Remainder, Dividend, Fold, BitsOf, BigEndian, Length12;
    if buf[2] & 0x80 == 0 {
      return false;
    }
    ghost var s := buf[..];
    var len := HEADER_SIZE + Length12(buf[2], buf[1]);
    Bswap16(buf, 3);
    if updateCrc {
      Bswap16(buf, 1);
      var crc := Crc32.Crc32(CRC32_INIT, buf, len - 4);
      Bswap16(buf, 1);
      ghost var swapped := buf[..];
      assert swapped == Swapped(s, 3);
      assert crc == Fold(CRC32_INIT, Swapped(swapped, 1)[..len - 4]);
      StoreBigEndian(buf, len - 4, crc);
    }
    ok := true;
  }

  method StoreBigEndian(buf: array<bv8>, i: nat, w: bv32)
    requires i + 4 <= buf.Length
    modifies buf
    ensures buf[..] == WithTrailer(old(buf[..]), i, BigEndian(w))
  {
    buf[i] := (w >> 24) as bv8;
    buf[i + 1] := ((w >> 16) & 0xff) as bv8;
    buf[i + 2] := ((w >> 8) & 0xff) as bv8;
    buf[i + 3] := (w & 0xff) as bv8;
    assert buf[i..i + 4] == BigEndian(w);
    assert buf[..] == buf[..i] + buf[i..i + 4] + buf[i + 4..];
  }

  /** `section_codec` and then `section_ext_decode` with the CRC checked, as a receiver calls them. */
  method Receive(buf: array<bv8>) returns (ok: bool)
    requires buf.Length >= 5
    modifies buf
    ensures ok <==> Received(old(buf[..])).Some?
    ensures ok ==> buf[..] == Received(old(buf[..])).value
  {
    hide CrcOk, Length12;
    ghost var wire := buf[..];
    ok := SectionCodec(buf, buf.Length);
    if ok {
      assert Wire(buf[..]) == wire by {
        SwapBack(wire, 1);
      }
      ok := SectionExtDecode(buf, true);
    }
  }
}
