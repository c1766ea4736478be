/** The length fields of every EN 50221 layer, lib/libdvben50221/asn_1.c. */
module Asn1 {
  import opened Bytes
  import opened Wrappers

  /** A decoded length and the number of bytes its field took. */
  datatype Length = Length(value: nat, used: nat)

  /** `asn_1_decode`. */
  function Decode(s: seq<byte>): (r: Option<Length>)
    ensures r.Some? ==> 1 <= r.value.used <= 3 && r.value.used <= |s| && r.value.value < 0x10000
  {
    if |s| < 1 then None
    else if s[0] < 0x80 then Some(Length(s[0], 1))
    else if s[0] == 0x81 then
      if |s| < 2 then None else Some(Length(s[1], 2))
    else if s[0] == 0x82 then
      if |s| < 3 then None else Some(Length(Word(s[1], s[2]), 3))
    else None
  }

  /** The shortest field for a length, which is the one `asn_1_encode` writes. */
  function Field(length: nat): (f: seq<byte>)
    requires length < 0x10000
    ensures 1 <= |f| <= 3
  {
    if length < 0x80 then [length]
    else if length < 0x100 then [0x81, length]
    else [0x82, length / 0x100, length % 0x100]
  }

  /** The three forms of a length field: short, one byte behind 0x81, two bytes behind 0x82 with the high one first. */
  lemma DecodeIff(s: seq<byte>, value: nat, used: nat)
    ensures Decode(s) == Some(Length(value, used)) <==>
      || (used == 1 <= |s| && s[0] == value < 128)
      || (used == 2 <= |s| && s[0] == 0x81 && s[1] == value)
      || (used == 3 <= |s| && s[0] == 0x82 && (s[1] as int) * 256 + s[2] == value)
  {
  }

  lemma DecodeField(length: nat, rest: seq<byte>)
    requires length < 0x10000
    ensures Decode(Field(length) + rest) == Some(Length(length, |Field(length)|))
  {
    var s := Field(length) + rest;
    assert s[0] == Field(length)[0];
    if length >= 0x80 {
      assert s[1] == Field(length)[1];
    }
    if length >= 0x100 {
      assert s[2] == Field(length)[2];
    }
  }

  /** A decoded field is the one that would have been written, exactly when no shorter one was possible. */
  lemma FieldOfDecoded(s: seq<byte>)
    requires Decode(s).Some?
    ensures var l := Decode(s).value;
      s[..l.used] == Field(l.value) <==> (s[0] == 0x81 ==> l.value >= 0x80) && (s[0] == 0x82 ==> l.value >= 0x100)
  {
    var l := Decode(s).value;
    if s[0] == 0x82 && l.value >= 0x100 {
      WordSplits(s[1], s[2]);
    }
  }

  lemma WordSplits(hi: int, lo: int)
    requires 0 <= hi < 0x100 && 0 <= lo < 0x100
    ensures Word(hi, lo) / 0x100 == hi && Word(hi, lo) % 0x100 == lo
  {
  }

  /** Decoding looks no further than the field. */
  lemma DecodePrefix(s: seq<byte>, rest: seq<byte>)
    requires Decode(s).Some?
    ensures Decode(s + rest) == Decode(s)
  {
  }

  /** `asn_1_encode`, with the field in a caller's buffer of which `len` bytes from `at` on may be used. */
  method Encode(length: nat, a: array<byte>, at: nat, len: nat) returns (r: int)
    requires length < 0x10000 && at + len <= a.Length
    modifies a
    ensures r == if |Field(length)| <= len then |Field(length)| else -1
    ensures r == -1 ==> a[..] == old(a[..])
    ensures r != -1 ==> a[at..at + r] == Field(length) && a[..at] == old(a[..at]) && a[at + r..] == old(a[at + r..])
  {
    if length < 0x80 {
      if len < 1 {
        return -1;
      }
      a[at] := length;
      return 1;
    } else if length < 0x100 {
      if len < 2 {
        return -1;
      }
      a[at] := 0x81;
      a[at + 1] := length;
      return 2;
    } else {
      if len < 3 {
        return -1;
      }
      a[at] := 0x82;
      a[at + 1] := length / 0x100;
      a[at + 2] := length % 0x100;
      return 3;
    }
  }
}
