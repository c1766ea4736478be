/**
 Sections by their parts: table id, the four bits in front of the length, and body, as section 2.4.4 of ISO/IEC 13818-1
 lays them out. What lib/libucsi/section_buf.c makes of their bytes is said here without the code's own arithmetic.
 */
module SectionForms {
  import opened Bytes
  import opened SectionBufs

  datatype Psi = Psi(table: byte, flags: nat, body: seq<byte>)

  /** A table id of 0xff would be padding, and the length field has 12 bits. */
  predicate Proper(s: Psi) {
    s.table != 0xff && s.flags < 16 && |s.body| < 4096
  }

  function PsiBytes(s: Psi): (b: seq<byte>)
    requires Proper(s)
    ensures |b| == 3 + |s.body|
  {
    [s.table, 16 * s.flags + |s.body| / 256, |s.body| % 256] + s.body
  }

  predicate Fitting(max: nat, s: Psi) {
    Proper(s) && 3 + |s.body| <= max
  }

  predicate AllFitting(max: nat, ss: seq<Psi>) {
    forall i :: 0 <= i < |ss| ==> Fitting(max, ss[i])
  }

  function AllBytes(ss: seq<Psi>): (b: seq<seq<byte>>)
    requires forall i :: 0 <= i < |ss| ==> Proper(ss[i])
    ensures |b| == |ss| && forall i :: 0 <= i < |b| ==> b[i] == PsiBytes(ss[i])
  {
    seq(|ss|, i requires 0 <= i < |ss| => PsiBytes(ss[i]))
  }

  /**
   The bytes of a section announce its own size, whatever its flags, and the buffer takes it if and only if it fits.
   */
  lemma PsiIsSection(max: nat, s: Psi)
    requires Proper(s)
    ensures Target(PsiBytes(s)) == 3 + |s.body|
    ensures IsSection(max, PsiBytes(s)) <==> 3 + |s.body| <= max
  {
    var b := PsiBytes(s);
    Nibbles(s.flags, |s.body| / 256);
    assert b[1] == 16 * s.flags + |s.body| / 256 && b[2] == |s.body| % 256;
  }

  lemma Nibbles(f: nat, h: nat)
    requires h < 16
    ensures (16 * f + h) % 16 == h && (16 * f + h) / 16 == f
  {
  }

  function Parts(b: seq<byte>): Psi
    requires |b| >= 3
  {
    Psi(b[0], b[1] / 16, b[3..])
  }

  /** Every section that the buffer can complete has such parts. */
  lemma SectionHasParts(max: nat, b: seq<byte>)
    requires IsSection(max, b)
    ensures Fitting(max, Parts(b)) && PsiBytes(Parts(b)) == b
  {
    var s := Parts(b);
    var hi: int, lo: int := b[1], b[2];
    assert |s.body| == (hi % 16) * 256 + lo;
    assert |s.body| / 256 == hi % 16 && |s.body| % 256 == lo;
    assert b == [b[0], b[1], b[2]] + b[3..];
  }

  /** A section of no proper size for the buffer is refused once its header is there, and none of its body is taken. */
  lemma OversizeRefused(max: nat, s: Psi, n: nat, m: nat)
    requires Proper(s) && 3 <= max < 3 + |s.body| && n <= 3 <= m <= |PsiBytes(s)|
    ensures Reachable(max, PsiBytes(s)[..n])
    ensures Add(max, PsiBytes(s)[..n], PsiBytes(s)[n..m]) == Added(PsiBytes(s)[..3], m - n, -34)
  {
    var b := PsiBytes(s);
    PsiIsSection(max, s);
    var (c, x) := (b[..n], b[n..m]);
    assert c != [] ==> c[0] == b[0];
    assert c + x == b[..m] && b[..m][..3] == b[..3] && Target(b[..m]) == Target(b);
    if n == 0 {
      assert m > 0 && x[0] == b[0] && x[0..] == x && [] + x == x;
    } else {
      assert x[0..] == x;
    }
  }

  /**
   The pointer field of a packet that starts a section must count exactly the bytes that the section under way still
   misses; with any other value that stays inside the packet, that section is dropped.
   */
  lemma PointerCounts(max: nat, s: Psi, n: nat, payload: seq<byte>)
    requires Fitting(max, s) && 3 <= n < |PsiBytes(s)| && payload != [] && 1 + payload[0] <= |payload|
    ensures Reachable(max, PsiBytes(s)[..n])
    ensures var (r, missing) := (AddPayload(max, PsiBytes(s)[..n], false, payload, true), |PsiBytes(s)| - n);
      if payload[0] == missing then r == Fed(PsiBytes(s)[..n] + payload[1..1 + missing], false, 1 + missing, 1)
      else r.status == -34 && r.wait
  {
    var (b, p) := (PsiBytes(s), payload[0] as int);
    PsiIsSection(max, s);
    var (c, x) := (b[..n], payload[1..1 + p]);
    assert c[0] == b[0] && c[1] == b[1] && c[2] == b[2];
    assert x[0..] == x && Target(c + x) == Target(b);
    if p == |b| - n {
      assert (c + x)[..|b|] == c + x;
    }
  }

  /** A pointer field outside the packet, or none at all, is the one thing that is refused as invalid. */
  lemma PointerRefusedIff(max: nat, c: seq<byte>, wait: bool, payload: seq<byte>, start: bool)
    requires Reachable(max, c) && !Complete(max, c)
    ensures var r := AddPayload(max, c, wait, payload, start);
      && (r.status == -22 <==> start && (payload == [] || 1 + payload[0] > |payload|))
      && (r.status == -22 ==> r == Fed(c, true, |payload|, -22))
  {
    hide Add, Complete, Reachable, Target;
    AddReachable(max, c, payload);
    if start && payload != [] && payload[0] + 1 <= |payload| {
      AddReachable(max, c, payload[1..1 + payload[0]]);
      AddReachable(max, c, payload[1 + payload[0]..]);
    }
  }
}
