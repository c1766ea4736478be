/**
 The CRC of MPEG-2 sections, lib/libucsi/crc32.h and crc32.c.

 Three descriptions of one value, from the definition to the code:
   - `Remainder`, schoolbook long division of a bit string by the 33-bit generator;
   - `Serial`, a 32-bit register fed one bit at a time;
   - `Fold`, what the loop of the library computes, one table look-up for each byte.
 The lemmas hide the bit-vector operations and reason with the laws of the small functions around them.
 */
module Crc32 {

  /** The generator of Annex A of ISO/IEC 13818-1 below its x^32 term. */
  const POLY: bv32 := 0x04c11db7

  const CRC32_INIT: bv32 := 0xffffffff

  // ----- words as polynomials over GF(2)

  predicate Msb(w: bv32) {
    w & 0x80000000 != 0
  }

  function Shl(w: bv32): bv32 {
    w << 1
  }

  function Add(a: bv32, b: bv32): bv32 {
    a ^ b
  }

  /** A bit moved to the top of a word. */
  function Top(bit: bool): bv32 {
    if bit then 0x80000000 else 0
  }

  // ----- bit strings, most significant bit first

  /** The `n` most significant bits of a word. */
  function Bits(w: bv32, n: nat): (r: seq<bool>)
    ensures |r| == n
    decreases n
  {
    if n == 0 then [] else [Msb(w)] + Bits(Shl(w), n - 1)
  }

  function Wide(b: bv8): bv32 {
    b as bv32
  }

  function Up(w: bv32): bv32 {
    w << 24
  }

  function ByteAtTop(b: bv8): bv32 {
    Up(Wide(b))
  }

  function ByteBits(b: bv8): (r: seq<bool>)
    ensures |r| == 8
  {
    Bits(ByteAtTop(b), 8)
  }

  function BitsOf(data: seq<bv8>): (r: seq<bool>)
    ensures |r| == 8 * |data|
    decreases |data|
  {
    if data == [] then [] else ByteBits(data[0]) + BitsOf(data[1..])
  }

  function Zeros(n: nat): (r: seq<bool>)
    ensures |r| == n && forall i :: 0 <= i < n ==> !r[i]
  {
    seq(n, _ => false)
  }

  function Xor(a: seq<bool>, b: seq<bool>): (r: seq<bool>)
    requires |a| == |b|
    ensures |r| == |a| && forall i :: 0 <= i < |a| ==> r[i] == (a[i] != b[i])
  {
    seq(|a|, i requires 0 <= i < |a| => a[i] != b[i])
  }

  // ----- the definition: long division over GF(2)

  /** What is left of the dividend `d` once every bit above the last 32 has been cancelled. */
  function Remainder(d: seq<bool>): (r: seq<bool>)
    requires |d| >= 32
    ensures |r| == 32
    decreases |d|
  {
    if |d| == 32 then d
    else if d[0] then Remainder(Xor(d[1..33], Bits(POLY, 32)) + d[33..])
    else Remainder(d[1..])
  }

  /** The message with 32 zero bits appended and the start value added into its first 32 bits. */
  function Dividend(c: bv32, m: seq<bool>): (r: seq<bool>)
    ensures |r| == |m| + 32
  {
    Xor(m + Zeros(32), Bits(c, 32) + Zeros(|m|))
  }

  // ----- the bit register

  function Shift(c: bv32): bv32 {
    if Msb(c) then Add(Shl(c), POLY) else Shl(c)
  }

  function ShiftN(c: bv32, n: nat): bv32
    decreases n
  {
    if n == 0 then c else ShiftN(Shift(c), n - 1)
  }

  function Serial(c: bv32, bits: seq<bool>): bv32
    decreases |bits|
  {
    if bits == [] then c else Serial(Shift(Add(c, Top(bits[0]))), bits[1..])
  }

  // ----- the table and the loop

  function Row0(j: bv8): bv32 {
    match j
    case 0x0 => 0x00000000 case 0x1 => 0x04c11db7 case 0x2 => 0x09823b6e case 0x3 => 0x0d4326d9
    case 0x4 => 0x130476dc case 0x5 => 0x17c56b6b case 0x6 => 0x1a864db2 case 0x7 => 0x1e475005
    case 0x8 => 0x2608edb8 case 0x9 => 0x22c9f00f case 0xa => 0x2f8ad6d6 case 0xb => 0x2b4bcb61
    case 0xc => 0x350c9b64 case 0xd => 0x31cd86d3 case 0xe => 0x3c8ea00a case 0xf => 0x384fbdbd
    case _ => 0
  }

  function Row1(j: bv8): bv32 {
    match j
    case 0x0 => 0x4c11db70 case 0x1 => 0x48d0c6c7 case 0x2 => 0x4593e01e case 0x3 => 0x4152fda9
    case 0x4 => 0x5f15adac case 0x5 => 0x5bd4b01b case 0x6 => 0x569796c2 case 0x7 => 0x52568b75
    case 0x8 => 0x6a1936c8 case 0x9 => 0x6ed82b7f case 0xa => 0x639b0da6 case 0xb => 0x675a1011
    case 0xc => 0x791d4014 case 0xd => 0x7ddc5da3 case 0xe => 0x709f7b7a case 0xf => 0x745e66cd
    case _ => 0
  }

  function Row2(j: bv8): bv32 {
    match j
    case 0x0 => 0x9823b6e0 case 0x1 => 0x9ce2ab57 case 0x2 => 0x91a18d8e case 0x3 => 0x95609039
    case 0x4 => 0x8b27c03c case 0x5 => 0x8fe6dd8b case 0x6 => 0x82a5fb52 case 0x7 => 0x8664e6e5
    case 0x8 => 0xbe2b5b58 case 0x9 => 0xbaea46ef case 0xa => 0xb7a96036 case 0xb => 0xb3687d81
    case 0xc => 0xad2f2d84 case 0xd => 0xa9ee3033 case 0xe => 0xa4ad16ea case 0xf => 0xa06c0b5d
    case _ => 0
  }

  function Row3(j: bv8): bv32 {
    match j
    case 0x0 => 0xd4326d90 case 0x1 => 0xd0f37027 case 0x2 => 0xddb056fe case 0x3 => 0xd9714b49
    case 0x4 => 0xc7361b4c case 0x5 => 0xc3f706fb case 0x6 => 0xceb42022 case 0x7 => 0xca753d95
    case 0x8 => 0xf23a8028 case 0x9 => 0xf6fb9d9f case 0xa => 0xfbb8bb46 case 0xb => 0xff79a6f1
    case 0xc => 0xe13ef6f4 case 0xd => 0xe5ffeb43 case 0xe => 0xe8bccd9a case 0xf => 0xec7dd02d
    case _ => 0
  }

  function Row4(j: bv8): bv32 {
    match j
    case 0x0 => 0x34867077 case 0x1 => 0x30476dc0 case 0x2 => 0x3d044b19 case 0x3 => 0x39c556ae
    case 0x4 => 0x278206ab case 0x5 => 0x23431b1c case 0x6 => 0x2e003dc5 case 0x7 => 0x2ac12072
    case 0x8 => 0x128e9dcf case 0x9 => 0x164f8078 case 0xa => 0x1b0ca6a1 case 0xb => 0x1fcdbb16
    case 0xc => 0x018aeb13 case 0xd => 0x054bf6a4 case 0xe => 0x0808d07d case 0xf => 0x0cc9cdca
    case _ => 0
  }

  function Row5(j: bv8): bv32 {
    match j
    case 0x0 => 0x7897ab07 case 0x1 => 0x7c56b6b0 case 0x2 => 0x71159069 case 0x3 => 0x75d48dde
    case 0x4 => 0x6b93dddb case 0x5 => 0x6f52c06c case 0x6 => 0x6211e6b5 case 0x7 => 0x66d0fb02
    case 0x8 => 0x5e9f46bf case 0x9 => 0x5a5e5b08 case 0xa => 0x571d7dd1 case 0xb => 0x53dc6066
    case 0xc => 0x4d9b3063 case 0xd => 0x495a2dd4 case 0xe => 0x44190b0d case 0xf => 0x40d816ba
    case _ => 0
  }

  function Row6(j: bv8): bv32 {
    match j
    case 0x0 => 0xaca5c697 case 0x1 => 0xa864db20 case 0x2 => 0xa527fdf9 case 0x3 => 0xa1e6e04e
    case 0x4 => 0xbfa1b04b case 0x5 => 0xbb60adfc case 0x6 => 0xb6238b25 case 0x7 => 0xb2e29692
    case 0x8 => 0x8aad2b2f case 0x9 => 0x8e6c3698 case 0xa => 0x832f1041 case 0xb => 0x87ee0df6
    case 0xc => 0x99a95df3 case 0xd => 0x9d684044 case 0xe => 0x902b669d case 0xf => 0x94ea7b2a
    case _ => 0
  }

  function Row7(j: bv8): bv32 {
    match j
    case 0x0 => 0xe0b41de7 case 0x1 => 0xe4750050 case 0x2 => 0xe9362689 case 0x3 => 0xedf73b3e
    case 0x4 => 0xf3b06b3b case 0x5 => 0xf771768c case 0x6 => 0xfa325055 case 0x7 => 0xfef34de2
    case 0x8 => 0xc6bcf05f case 0x9 => 0xc27dede8 case 0xa => 0xcf3ecb31 case 0xb => 0xcbffd686
    case 0xc => 0xd5b88683 case 0xd => 0xd1799b34 case 0xe => 0xdc3abded case 0xf => 0xd8fba05a
    case _ => 0
  }

  function Row8(j: bv8): bv32 {
    match j
    case 0x0 => 0x690ce0ee case 0x1 => 0x6dcdfd59 case 0x2 => 0x608edb80 case 0x3 => 0x644fc637
    case 0x4 => 0x7a089632 case 0x5 => 0x7ec98b85 case 0x6 => 0x738aad5c case 0x7 => 0x774bb0eb
    case 0x8 => 0x4f040d56 case 0x9 => 0x4bc510e1 case 0xa => 0x46863638 case 0xb => 0x42472b8f
    case 0xc => 0x5c007b8a case 0xd => 0x58c1663d case 0xe => 0x558240e4 case 0xf => 0x51435d53
    case _ => 0
  }

  function Row9(j: bv8): bv32 {
    match j
    case 0x0 => 0x251d3b9e case 0x1 => 0x21dc2629 case 0x2 => 0x2c9f00f0 case 0x3 => 0x285e1d47
    case 0x4 => 0x36194d42 case 0x5 => 0x32d850f5 case 0x6 => 0x3f9b762c case 0x7 => 0x3b5a6b9b
    case 0x8 => 0x0315d626 case 0x9 => 0x07d4cb91 case 0xa => 0x0a97ed48 case 0xb => 0x0e56f0ff
    case 0xc => 0x1011a0fa case 0xd => 0x14d0bd4d case 0xe => 0x19939b94 case 0xf => 0x1d528623
    case _ => 0
  }

  function RowA(j: bv8): bv32 {
    match j
    case 0x0 => 0xf12f560e case 0x1 => 0xf5ee4bb9 case 0x2 => 0xf8ad6d60 case 0x3 => 0xfc6c70d7
    case 0x4 => 0xe22b20d2 case 0x5 => 0xe6ea3d65 case 0x6 => 0xeba91bbc case 0x7 => 0xef68060b
    case 0x8 => 0xd727bbb6 case 0x9 => 0xd3e6a601 case 0xa => 0xdea580d8 case 0xb => 0xda649d6f
    case 0xc => 0xc423cd6a case 0xd => 0xc0e2d0dd case 0xe => 0xcda1f604 case 0xf => 0xc960ebb3
    case _ => 0
  }

  function RowB(j: bv8): bv32 {
    match j
    case 0x0 => 0xbd3e8d7e case 0x1 => 0xb9ff90c9 case 0x2 => 0xb4bcb610 case 0x3 => 0xb07daba7
    case 0x4 => 0xae3afba2 case 0x5 => 0xaafbe615 case 0x6 => 0xa7b8c0cc case 0x7 => 0xa379dd7b
    case 0x8 => 0x9b3660c6 case 0x9 => 0x9ff77d71 case 0xa => 0x92b45ba8 case 0xb => 0x9675461f
    case 0xc => 0x8832161a case 0xd => 0x8cf30bad case 0xe => 0x81b02d74 case 0xf => 0x857130c3
    case _ => 0
  }

  function RowC(j: bv8): bv32 {
    match j
    case 0x0 => 0x5d8a9099 case 0x1 => 0x594b8d2e case 0x2 => 0x5408abf7 case 0x3 => 0x50c9b640
    case 0x4 => 0x4e8ee645 case 0x5 => 0x4a4ffbf2 case 0x6 => 0x470cdd2b case 0x7 => 0x43cdc09c
    case 0x8 => 0x7b827d21 case 0x9 => 0x7f436096 case 0xa => 0x7200464f case 0xb => 0x76c15bf8
    case 0xc => 0x68860bfd case 0xd => 0x6c47164a case 0xe => 0x61043093 case 0xf => 0x65c52d24
    case _ => 0
  }

  function RowD(j: bv8): bv32 {
    match j
    case 0x0 => 0x119b4be9 case 0x1 => 0x155a565e case 0x2 => 0x18197087 case 0x3 => 0x1cd86d30
    case 0x4 => 0x029f3d35 case 0x5 => 0x065e2082 case 0x6 => 0x0b1d065b case 0x7 => 0x0fdc1bec
    case 0x8 => 0x3793a651 case 0x9 => 0x3352bbe6 case 0xa => 0x3e119d3f case 0xb => 0x3ad08088
    case 0xc => 0x2497d08d case 0xd => 0x2056cd3a case 0xe => 0x2d15ebe3 case 0xf => 0x29d4f654
    case _ => 0
  }

  function RowE(j: bv8): bv32 {
    match j
    case 0x0 => 0xc5a92679 case 0x1 => 0xc1683bce case 0x2 => 0xcc2b1d17 case 0x3 => 0xc8ea00a0
    case 0x4 => 0xd6ad50a5 case 0x5 => 0xd26c4d12 case 0x6 => 0xdf2f6bcb case 0x7 => 0xdbee767c
    case 0x8 => 0xe3a1cbc1 case 0x9 => 0xe760d676 case 0xa => 0xea23f0af case 0xb => 0xeee2ed18
    case 0xc => 0xf0a5bd1d case 0xd => 0xf464a0aa case 0xe => 0xf9278673 case 0xf => 0xfde69bc4
    case _ => 0
  }

  function RowF(j: bv8): bv32 {
    match j
    case 0x0 => 0x89b8fd09 case 0x1 => 0x8d79e0be case 0x2 => 0x803ac667 case 0x3 => 0x84fbdbd0
    case 0x4 => 0x9abc8bd5 case 0x5 => 0x9e7d9662 case 0x6 => 0x933eb0bb case 0x7 => 0x97ffad0c
    case 0x8 => 0xafb010b1 case 0x9 => 0xab710d06 case 0xa => 0xa6322bdf case 0xb => 0xa2f33668
    case 0xc => 0xbcb4666d case 0xd => 0xb8757bda case 0xe => 0xb5365d03 case 0xf => 0xb1f740b4
    case _ => 0
  }

  /** `crc32tbl[i]`: the high nibble picks a row of sixteen entries, the low nibble the entry. */
  function Table(i: bv8): bv32 {
    var j := i & 0x0f;
    match i >> 4
    case 0x0 => Row0(j) case 0x1 => Row1(j) case 0x2 => Row2(j) case 0x3 => Row3(j)
    case 0x4 => Row4(j) case 0x5 => Row5(j) case 0x6 => Row6(j) case 0x7 => Row7(j)
    case 0x8 => Row8(j) case 0x9 => Row9(j) case 0xa => RowA(j) case 0xb => RowB(j)
    case 0xc => RowC(j) case 0xd => RowD(j) case 0xe => RowE(j) case 0xf => RowF(j)
    case _ => 0
  }

  function IndexWord(crc: bv32, w: bv32): bv32 {
    ((crc >> 24) ^ w) & 0xff
  }

  function Index(crc: bv32, b: bv8): bv8 {
    Narrow(IndexWord(crc, Wide(b)))
  }

  function Narrow(w: bv32): bv8 {
    (w & 0xff) as bv8
  }

  function Update(crc: bv32, b: bv8): bv32 {
    (crc << 8) ^ Table(Index(crc, b))
  }

  function Fold(crc: bv32, data: seq<bv8>): bv32
    decreases |data|
  {
    if data == [] then crc else Fold(Update(crc, data[0]), data[1..])
  }

  // ----- laws of one shift

  lemma ShlAdd(a: bv32, b: bv32)
    ensures Shl(Add(a, b)) == Add(Shl(a), Shl(b))
  {
    PureShlAdd(a, b);
  }

  lemma PureShlAdd(a: bv32, b: bv32)
    ensures (a ^ b) << 1 == (a << 1) ^ (b << 1)
  {
  }

  lemma MsbAdd(a: bv32, b: bv32)
    ensures Msb(Add(a, b)) == (Msb(a) != Msb(b))
  {
    PureMsbAdd(a, b);
  }

  lemma PureMsbAdd(a: bv32, b: bv32)
    ensures ((a ^ b) & 0x80000000 != 0) == ((a & 0x80000000 != 0) != (b & 0x80000000 != 0))
  {
  }

  lemma AddLaws(a: bv32, b: bv32, c: bv32)
    ensures Add(a, b) == Add(b, a)
    ensures Add(Add(a, b), c) == Add(a, Add(b, c))
    ensures Add(a, 0) == a && Add(a, a) == 0
  {
    hide Add;
    AddCommutes(a, b);
    AddAssociates(a, b, c);
    AddZero(a);
    AddItself(a);
  }

  lemma AddCommutes(a: bv32, b: bv32)
    ensures Add(a, b) == Add(b, a)
  {
    PureComm(a, b);
  }

  lemma AddAssociates(a: bv32, b: bv32, c: bv32)
    ensures Add(Add(a, b), c) == Add(a, Add(b, c))
  {
    PureAssoc(a, b, c);
  }

  lemma AddZero(a: bv32)
    ensures Add(a, 0) == a
  {
  }

  lemma AddItself(a: bv32)
    ensures Add(a, a) == 0
  {
  }

  lemma PureComm(a: bv32, b: bv32)
    ensures a ^ b == b ^ a
  {
  }

  lemma PureAssoc(a: bv32, b: bv32, c: bv32)
    ensures (a ^ b) ^ c == a ^ (b ^ c)
  {
  }

  lemma TopLaws(bit: bool)
    ensures Msb(Top(bit)) == bit && Shl(Top(bit)) == 0
    ensures Shl(0) == 0 && !Msb(0)
  {
  }

  lemma ShiftAdd(a: bv32, b: bv32)
    ensures Shift(Add(a, b)) == Add(Shift(a), Shift(b))
  {
    hide Msb, Shl, Add;
    ShlAdd(a, b);
    MsbAdd(a, b);
    AddLaws(Shl(a), Shl(b), POLY);
    AddLaws(Shl(a), POLY, Shl(b));
    AddLaws(POLY, Shl(b), 0);
    AddLaws(Add(Shl(a), POLY), Shl(b), POLY);
    AddLaws(Shl(a), POLY, POLY);
    AddLaws(Shl(a), 0, 0);
    AddLaws(POLY, POLY, 0);
    AddLaws(Shl(b), POLY, POLY);
    AddLaws(Shl(b), 0, 0);
    AddLaws(Add(Shl(a), Shl(b)), POLY, POLY);
  }

  lemma PureShiftZero(c: bv32)
    requires c & 0x80000000 != 0
    ensures (c << 1) ^ 0x04c11db7 != 0
  {
  }

  lemma PureShlZero(c: bv32)
    requires c & 0x80000000 == 0 && c << 1 == 0
    ensures c == 0
  {
  }

  /** The generator has a constant term, so no shift loses information. */
  lemma ShiftInjective(a: bv32, b: bv32)
    requires Shift(a) == Shift(b)
    ensures a == b
  {
    hide Msb, Shl, Add;
    var d := Add(a, b);
    ShiftAdd(a, b);
    AddLaws(Shift(a), 0, 0);
    assert Shift(d) == 0;
    ShiftZero(d);
    AddLaws(a, b, b);
    AddLaws(b, 0, 0);
    AddLaws(0, b, 0);
  }

  lemma ShiftZero(c: bv32)
    requires Shift(c) == 0
    ensures c == 0
  {
    if Msb(c) {
      PureShiftZero(c);
    } else {
      PureShlZero(c);
    }
  }

  lemma {:induction false} ShiftNInjective(a: bv32, b: bv32, n: nat)
    requires ShiftN(a, n) == ShiftN(b, n)
    ensures a == b
    decreases n
  {
    hide Shift;
    if n > 0 {
      ShiftNInjective(Shift(a), Shift(b), n - 1);
      ShiftInjective(a, b);
    }
  }

  // ----- bit strings of words

  lemma {:induction false} BitsAdd(a: bv32, b: bv32, n: nat)
    ensures Bits(Add(a, b), n) == Xor(Bits(a, n), Bits(b, n))
    decreases n
  {
    hide Msb, Shl, Add;
    if n > 0 {
      ShlAdd(a, b);
      MsbAdd(a, b);
      BitsAdd(Shl(a), Shl(b), n - 1);
    }
  }

  function ShlN(w: bv32, n: nat): bv32
    decreases n
  {
    if n == 0 then w else ShlN(Shl(w), n - 1)
  }

  lemma {:induction false} ShlNSplit(w: bv32, m: nat, n: nat)
    ensures ShlN(w, m + n) == ShlN(ShlN(w, m), n)
    decreases m
  {
    hide Shl;
    if m > 0 {
      ShlNSplit(Shl(w), m - 1, n);
    }
  }

  lemma {:induction false} BitsSplit(w: bv32, m: nat, n: nat)
    ensures Bits(w, m + n) == Bits(w, m) + Bits(ShlN(w, m), n)
    decreases m
  {
    hide Msb, Shl;
    if m == 0 {
      assert Bits(w, n) == [] + Bits(w, n);
    } else {
      BitsSplit(Shl(w), m - 1, n);
      BitsCons(w, m);
      BitsCons(w, m + n);
      Assoc3([Msb(w)], Bits(Shl(w), m - 1), Bits(ShlN(w, m), n));
    }
  }

  lemma BitsCons(w: bv32, n: nat)
    requires n > 0
    ensures Bits(w, n) == [Msb(w)] + Bits(Shl(w), n - 1)
  {
  }

  lemma Assoc3(a: seq<bool>, b: seq<bool>, c: seq<bool>)
    ensures a + (b + c) == (a + b) + c
  {
  }

  lemma ShlNFour(w: bv32, n: nat)
    ensures ShlN(w, n + 4) == ShlN(w << 4, n)
  {
    hide Shl;
    ShlFour(w);
    var w1, w2, w3, w4 := Shl(w), Shl(Shl(w)), Shl(Shl(Shl(w))), Shl(Shl(Shl(Shl(w))));
    assert ShlN(w, n + 4) == ShlN(w1, n + 3) == ShlN(w2, n + 2) == ShlN(w3, n + 1) == ShlN(w4, n);
  }

  lemma ShlEight(w: bv32)
    ensures ShlN(w, 8) == w << 8
  {
    ShlNFour(w, 4);
    ShlNFour(w << 4, 0);
    PureShl(w);
  }

  lemma ShlFour(w: bv32)
    ensures Shl(Shl(Shl(Shl(w)))) == w << 4
  {
  }

  lemma PureShl(w: bv32)
    ensures (w << 4) << 4 == w << 8
    ensures (((w << 8) << 8) << 8) << 8 == 0
  {
  }

  lemma ShlThirtyTwo(w: bv32)
    ensures ShlN(w, 32) == 0
  {
    hide ShlN;
    ShlNSplit(w, 8, 24);
    ShlNSplit(w << 8, 8, 16);
    ShlNSplit((w << 8) << 8, 8, 8);
    ShlEight(w);
    ShlEight(w << 8);
    ShlEight((w << 8) << 8);
    ShlEight(((w << 8) << 8) << 8);
    PureShl(w);
  }

  lemma WordBitsShl(w: bv32)
    ensures Bits(Shl(w), 32) == Bits(w, 32)[1..] + [false]
    ensures Bits(w, 32)[0] == Msb(w)
  {
    hide Msb, Shl;
    ShlThirtyTwo(w);
    BitsSplit(Shl(w), 31, 1);
    assert ShlN(Shl(w), 31) == ShlN(w, 32) == 0;
    TopLaws(true);
    assert Bits(0, 1) == [false];
  }

  lemma {:induction false} BitsZero(z: bv32, n: nat)
    requires ShlN(z, n) == 0 && forall i :: 0 <= i < n ==> !Bits(z, n)[i]
    ensures z == 0
    decreases n
  {
    if n > 0 {
      assert Bits(z, n)[1..] == Bits(Shl(z), n - 1);
      BitsZero(Shl(z), n - 1);
      assert !Bits(z, n)[0];
      PureShlZero(z);
    }
  }

  /** A word is determined by its leading bits when nothing follows them. */
  lemma BitsInjective(a: bv32, b: bv32, n: nat)
    requires Bits(a, n) == Bits(b, n) && ShlN(a, n) == ShlN(b, n)
    ensures a == b
  {
    hide Msb, Shl, Add;
    BitsAdd(a, b, n);
    ShlNAdd(a, b, n);
    AddLaws(ShlN(a, n), 0, 0);
    BitsZero(Add(a, b), n);
    AddLaws(a, b, b);
    AddLaws(b, 0, 0);
    AddLaws(0, b, 0);
  }

  lemma {:induction false} ShlNAdd(a: bv32, b: bv32, n: nat)
    ensures ShlN(Add(a, b), n) == Add(ShlN(a, n), ShlN(b, n))
    decreases n
  {
    hide Shl, Add;
    if n > 0 {
      ShlAdd(a, b);
      ShlNAdd(Shl(a), Shl(b), n - 1);
    }
  }

  lemma {:induction false} ShiftNAdd(a: bv32, b: bv32, n: nat)
    ensures ShiftN(Add(a, b), n) == Add(ShiftN(a, n), ShiftN(b, n))
    decreases n
  {
    hide Shift, Add;
    if n > 0 {
      ShiftAdd(a, b);
      ShiftNAdd(Shift(a), Shift(b), n - 1);
    }
  }

  // ----- words that hold a given bit string

  /** The word with bit `n`, counted from the top, and no other. */
  function Unit(n: nat): bv32
    requires n < 32
  {
    match n
    case 0 => 0x80000000 case 1 => 0x40000000 case 2 => 0x20000000 case 3 => 0x10000000
    case 4 => 0x08000000 case 5 => 0x04000000 case 6 => 0x02000000 case 7 => 0x01000000
    case 8 => 0x00800000 case 9 => 0x00400000 case 10 => 0x00200000 case 11 => 0x00100000
    case 12 => 0x00080000 case 13 => 0x00040000 case 14 => 0x00020000 case 15 => 0x00010000
    case 16 => 0x00008000 case 17 => 0x00004000 case 18 => 0x00002000 case 19 => 0x00001000
    case 20 => 0x00000800 case 21 => 0x00000400 case 22 => 0x00000200 case 23 => 0x00000100
    case 24 => 0x00000080 case 25 => 0x00000040 case 26 => 0x00000020 case 27 => 0x00000010
    case 28 => 0x00000008 case 29 => 0x00000004 case 30 => 0x00000002 case 31 => 0x00000001
  }

  lemma UnitShl(n: nat)
    requires n < 32
    ensures n > 0 ==> Shl(Unit(n)) == Unit(n - 1) && !Msb(Unit(n))
  {
  }

  /** The word whose bits from position `off` on are `s`. */
  function Load(s: seq<bool>, off: nat): bv32
    requires off + |s| <= 32
    decreases |s|
  {
    if s == [] then 0 else Add(if s[0] then Unit(off) else 0, Load(s[1..], off + 1))
  }

  lemma {:induction false} LoadShl(s: seq<bool>, off: nat)
    requires 0 < off && off + |s| <= 32
    ensures Shl(Load(s, off)) == Load(s, off - 1) && !Msb(Load(s, off))
    decreases |s|
  {
    hide Msb, Shl, Add, Unit;
    TopLaws(true);
    if s != [] {
      LoadShl(s[1..], off + 1);
      UnitShl(off);
      var u := if s[0] then Unit(off) else 0;
      ShlAdd(u, Load(s[1..], off + 1));
      MsbAdd(u, Load(s[1..], off + 1));
    }
  }

  lemma {:induction false} LoadBits(s: seq<bool>)
    requires |s| <= 32
    ensures Bits(Load(s, 0), |s|) == s && ShlN(Load(s, 0), |s|) == 0
    decreases |s|
  {
    hide Msb, Shl, Add;
    TopLaws(true);
    if s != [] {
      LoadShl(s[1..], 1);
      ShlAdd(Top(s[0]), Load(s[1..], 1));
      MsbAdd(Top(s[0]), Load(s[1..], 1));
      TopLaws(s[0]);
      AddLaws(0, Load(s[1..], 0), 0);
      AddLaws(Load(s[1..], 0), 0, 0);
      assert Load(s, 0) == Add(Top(s[0]), Load(s[1..], 1));
      LoadBits(s[1..]);
    }
  }

  // ----- the bit register divides

  lemma DividendTail(c: bv32, m: seq<bool>)
    requires m != []
    ensures Dividend(c, m)[0] == (m[0] != Msb(c))
    ensures Dividend(c, m)[1..] == Dividend(Shl(c), m[1..])
  {
    hide Msb, Shl, Bits;
    WordBitsShl(c);
    assert (Bits(c, 32) + Zeros(|m|))[1..] == Bits(Shl(c), 32) + Zeros(|m| - 1);
    assert (m + Zeros(32))[1..] == m[1..] + Zeros(32);
  }

  lemma DividendSubtract(c: bv32, m: seq<bool>)
    ensures Xor(Dividend(c, m)[..32], Bits(POLY, 32)) + Dividend(c, m)[32..] == Dividend(Add(c, POLY), m)
  {
    hide Bits, Add;
    BitsAdd(c, POLY, 32);
  }

  lemma DividendEmpty(c: bv32)
    ensures Dividend(c, []) == Bits(c, 32)
  {
    hide Bits;
  }

  /** The bit register computes the remainder of long division. */
  lemma {:induction false} SerialDivides(c: bv32, m: seq<bool>)
    ensures Bits(Serial(c, m), 32) == Remainder(Dividend(c, m))
    decreases |m|
  {
    hide Msb, Shl, Add, Bits, Dividend;
    if m == [] {
      DividendEmpty(c);
    } else {
      var d := Dividend(c, m);
      DividendTail(c, m);
      ShiftTop(c, m[0]);
      var next := Shift(Add(c, Top(m[0])));
      if d[0] {
        DividendSubtract(Shl(c), m[1..]);
        assert d[1..33] == d[1..][..32] && d[33..] == d[1..][32..];
      }
      SerialDivides(next, m[1..]);
    }
  }

  lemma ShiftTop(c: bv32, bit: bool)
    ensures Shift(Add(c, Top(bit))) == if bit != Msb(c) then Add(Shl(c), POLY) else Shl(c)
  {
    hide Msb, Shl, Add;
    ShlAdd(c, Top(bit));
    MsbAdd(c, Top(bit));
    TopLaws(bit);
    AddLaws(Shl(c), 0, 0);
  }

  lemma {:induction false} SerialConcat(c: bv32, a: seq<bool>, b: seq<bool>)
    ensures Serial(c, a + b) == Serial(Serial(c, a), b)
    decreases |a|
  {
    hide Shift, Add, Top;
    if a == [] {
      assert a + b == b;
    } else {
      assert (a + b)[1..] == a[1..] + b;
      SerialConcat(Shift(Add(c, Top(a[0]))), a[1..], b);
    }
  }

  lemma {:induction false} BitsOfConcat(a: seq<bv8>, b: seq<bv8>)
    ensures BitsOf(a + b) == BitsOf(a) + BitsOf(b)
    decreases |a|
  {
    hide ByteBits;
    if a == [] {
      assert a + b == b;
    } else {
      assert (a + b)[1..] == a[1..] + b;
      BitsOfConcat(a[1..], b);
    }
  }

  /** Up to 32 bits can be added into the register at once and shifted out together. */
  lemma {:induction false} Absorb(c: bv32, w: seq<bool>, v: bv32)
    requires Bits(v, |w|) == w && ShlN(v, |w|) == 0
    ensures Serial(c, w) == ShiftN(Add(c, v), |w|)
    decreases |w|
  {
    hide Msb, Shl, Add, Top, Shift;
    if w == [] {
      AddLaws(c, 0, 0);
    } else {
      assert Bits(v, |w|)[1..] == Bits(Shl(v), |w| - 1);
      assert w[0] == Msb(v);
      Absorb(Shift(Add(c, Top(w[0]))), w[1..], Shl(v));
      AbsorbOne(c, v);
    }
  }

  lemma AbsorbOne(c: bv32, v: bv32)
    ensures Add(Shift(Add(c, Top(Msb(v)))), Shl(v)) == Shift(Add(c, v))
  {
    hide Msb, Shl, Add, Top;
    ShiftTop(c, Msb(v));
    ShlAdd(c, v);
    MsbAdd(c, v);
    AddLaws(Shl(c), POLY, Shl(v));
    AddLaws(POLY, Shl(v), 0);
    AddLaws(Shl(c), Shl(v), POLY);
  }

  // ----- the loop is the bit register

  /** With nothing in the top nibble, four shifts never meet the generator. */
  lemma ShiftLowFour(z: bv32, n: nat)
    requires z & 0xf0000000 == 0
    ensures ShiftN(z, n + 4) == ShiftN(z << 4, n)
    ensures Bits(z, n + 4) == [false, false, false, false] + Bits(z << 4, n)
  {
    hide Msb, Shl, Add;
    LowFour(z);
    ShlFour(z);
    var z1, z2, z3, z4 := Shl(z), Shl(Shl(z)), Shl(Shl(Shl(z))), Shl(Shl(Shl(Shl(z))));
    assert ShiftN(z, n + 4) == ShiftN(z1, n + 3) == ShiftN(z2, n + 2) == ShiftN(z3, n + 1) == ShiftN(z4, n);
    assert Bits(z3, n + 1) == [false] + Bits(z4, n);
    assert Bits(z2, n + 2) == [false, false] + Bits(z4, n);
    assert Bits(z1, n + 3) == [false, false, false] + Bits(z4, n);
  }

  lemma ShiftLow(z: bv32)
    requires z & 0xff000000 == 0
    ensures ShiftN(z, 8) == z << 8
    ensures Bits(z, 8) == Zeros(8)
  {
    PureLow(z);
    ShiftLowFour(z, 4);
    ShiftLowFour(z << 4, 0);
    PureShl(z);
  }

  lemma PureLow(z: bv32)
    requires z & 0xff000000 == 0
    ensures z & 0xf0000000 == 0 && (z << 4) & 0xf0000000 == 0
  {
  }

  lemma LowFour(z: bv32)
    requires z & 0xf0000000 == 0
    ensures !Msb(z) && !Msb(Shl(z)) && !Msb(Shl(Shl(z))) && !Msb(Shl(Shl(Shl(z))))
  {
    PureLowFour(z);
  }

  lemma PureLowFour(z: bv32)
    requires z & 0xf0000000 == 0
    ensures z & 0x80000000 == 0 && (z << 1) & 0x80000000 == 0
    ensures ((z << 1) << 1) & 0x80000000 == 0 && (((z << 1) << 1) << 1) & 0x80000000 == 0
  {
  }

  /** Every one of the 256 entries is the index byte pushed through eight shifts of the register. */
  lemma TableIsShift(i: bv8)
    ensures Table(i) == ShiftN(ByteAtTop(i), 8)
  {
    TableIsSum(i);
    SumIsShift(i);
  }

  function TableSum(i: bv8): bv32 {
    (if i & 0x01 != 0 then 0x04c11db7 else 0) ^ (if i & 0x02 != 0 then 0x09823b6e else 0)
    ^ (if i & 0x04 != 0 then 0x130476dc else 0) ^ (if i & 0x08 != 0 then 0x2608edb8 else 0)
    ^ (if i & 0x10 != 0 then 0x4c11db70 else 0) ^ (if i & 0x20 != 0 then 0x9823b6e0 else 0)
    ^ (if i & 0x40 != 0 then 0x34867077 else 0) ^ (if i & 0x80 != 0 then 0x690ce0ee else 0)
  }

  lemma TableIsSum(i: bv8)
    ensures Table(i) == TableSum(i)
  {
    hide Table, TableSum;
    if i & 0x80 == 0 {
      TableLowIsSum(i);
    } else {
      TableHighIsSum(i);
    }
  }

  lemma TableLowIsSum(i: bv8)
    requires i & 0x80 == 0
    ensures Table(i) == TableSum(i)
  {
  }

  lemma TableHighIsSum(i: bv8)
    requires i & 0x80 != 0
    ensures Table(i) == TableSum(i)
  {
  }

  lemma SumIsShift(i: bv8)
    ensures TableSum(i) == ShiftN(ByteAtTop(i), 8)
  {
    var c := ByteAtTop(i);
    assert TableSum(i) == Shift(Shift(Shift(Shift(Shift(Shift(Shift(Shift(c))))))));
    hide Shift, TableSum;
    var c1, c2, c3, c4 := Shift(c), Shift(Shift(c)), Shift(Shift(Shift(c))), Shift(Shift(Shift(Shift(c))));
    var c5, c6, c7, c8 := Shift(c4), Shift(Shift(c4)), Shift(Shift(Shift(c4))), Shift(Shift(Shift(Shift(c4))));
    assert ShiftN(c, 8) == ShiftN(c1, 7) == ShiftN(c2, 6) == ShiftN(c3, 5) == ShiftN(c4, 4);
    assert ShiftN(c4, 4) == ShiftN(c5, 3) == ShiftN(c6, 2) == ShiftN(c7, 1) == ShiftN(c8, 0) == c8;
  }

  /** One step of the loop is eight steps of the bit register. */
  lemma UpdateIsSerial(c: bv32, b: bv8)
    ensures Update(c, b) == Serial(c, ByteBits(b))
  {
    hide Add, ByteAtTop, ShiftN, ShlN, Table, Index, Update, Serial, Bits;
    var i, lo := Index(c, b), LowBytes(c);
    ByteAtTopEnds(b);
    Absorb(c, ByteBits(b), ByteAtTop(b));
    IndexSplits(c, b);
    ShiftNAdd(ByteAtTop(i), lo, 8);
    TableIsShift(i);
    LowShifts(c);
    AddLaws(Table(i), c << 8, 0);
    UpdateIsAdd(c, b);
  }

  function LowBytes(c: bv32): bv32 {
    c & 0x00ffffff
  }

  lemma ByteAtTopEnds(b: bv8)
    ensures ShlN(ByteAtTop(b), 8) == 0
  {
    ShlEight(ByteAtTop(b));
    PureByteAtTop(b);
  }

  lemma IndexSplits(c: bv32, b: bv8)
    ensures Add(c, ByteAtTop(b)) == Add(ByteAtTop(Index(c, b)), LowBytes(c))
  {
    hide Add, IndexWord, Wide, Up, LowBytes, Narrow;
    IndexAsWord(c, b);
    IndexWordSplits(c, Wide(b));
  }

  lemma IndexWordSplits(c: bv32, w: bv32)
    ensures Add(c, Up(w)) == Add(Up(IndexWord(c, w)), LowBytes(c))
  {
    hide Add, IndexWord, Up, LowBytes, High;
    var (h, u, l) := (Up(High(c)), Up(w), LowBytes(c));
    SplitTop(c);
    UpIndex(c, w);
    AddLaws(h, l, u);
    AddLaws(l, u, 0);
    AddLaws(h, u, l);
  }

  function High(c: bv32): bv32 {
    c >> 24
  }

  lemma SplitTop(c: bv32)
    ensures c == Add(Up(High(c)), LowBytes(c))
  {
    PureSplitTop(c);
  }

  lemma PureSplitTop(c: bv32)
    ensures c == ((c >> 24) << 24) ^ (c & 0x00ffffff)
  {
  }

  lemma UpIndex(c: bv32, w: bv32)
    ensures Up(IndexWord(c, w)) == Add(Up(High(c)), Up(w))
  {
    PureUpIndex(c >> 24, w);
  }

  lemma PureUpIndex(h: bv32, w: bv32)
    ensures ((h ^ w) & 0xff) << 24 == (h << 24) ^ (w << 24)
  {
  }

  lemma IndexAsWord(c: bv32, b: bv8)
    ensures Wide(Index(c, b)) == IndexWord(c, Wide(b))
  {
    PureNarrow((c >> 24) ^ Wide(b));
  }

  lemma PureNarrow(x: bv32)
    ensures (((x & 0xff) & 0xff) as bv8) as bv32 == x & 0xff
  {
  }

  lemma LowShifts(c: bv32)
    ensures ShiftN(LowBytes(c), 8) == c << 8
    ensures Bits(LowBytes(c), 8) == Zeros(8)
  {
    PureClear(c);
    ShiftLow(LowBytes(c));
  }

  lemma UpdateIsAdd(c: bv32, b: bv8)
    ensures Update(c, b) == Add(c << 8, Table(Index(c, b)))
  {
    hide Table, Index;
  }

  lemma PureByteAtTop(b: bv8)
    ensures ((b as bv32) << 24) << 8 == 0
  {
  }

  lemma PureClear(c: bv32)
    ensures (c & 0x00ffffff) & 0xff000000 == 0 && (c & 0x00ffffff) << 8 == c << 8
  {
  }

  lemma {:induction false} FoldIsSerial(c: bv32, data: seq<bv8>)
    ensures Fold(c, data) == Serial(c, BitsOf(data))
    decreases |data|
  {
    hide Update, ByteBits, Serial;
    if data == [] {
      SerialEmpty(c);
    } else {
      UpdateIsSerial(c, data[0]);
      FoldIsSerial(Update(c, data[0]), data[1..]);
      SerialConcat(c, ByteBits(data[0]), BitsOf(data[1..]));
    }
  }

  lemma SerialEmpty(c: bv32)
    ensures Serial(c, []) == c
  {
  }

  lemma {:induction false} FoldConcat(c: bv32, a: seq<bv8>, b: seq<bv8>)
    ensures Fold(c, a + b) == Fold(Fold(c, a), b)
    decreases |a|
  {
    hide Update;
    if a == [] {
      assert a + b == b;
    } else {
      assert (a + b)[1..] == a[1..] + b;
      FoldConcat(Update(c, a[0]), a[1..], b);
    }
  }

  /** The table loop computes the remainder of long division by the generator, for every buffer. */
  lemma CrcIsRemainder(c: bv32, data: seq<bv8>)
    ensures Bits(Fold(c, data), 32) == Remainder(Dividend(c, BitsOf(data)))
  {
    hide Remainder, Dividend, Bits, Fold, Serial;
    FoldIsSerial(c, data);
    SerialDivides(c, BitsOf(data));
  }

  // ----- what the check accepts

  /** The four bytes of a word in network order. */
  function BigEndian(w: bv32): (r: seq<bv8>)
    ensures |r| == 4
  {
    [(w >> 24) as bv8, ((w >> 16) & 0xff) as bv8, ((w >> 8) & 0xff) as bv8, (w & 0xff) as bv8]
  }

  lemma BitsTopByte(w: bv32, b: bv8)
    requires b == (w >> 24) as bv8
    ensures Bits(w, 8) == ByteBits(b)
  {
    WordIsAdd(w, b);
    LowShifts(w);
    BitsAddLow(w, b, LowBytes(w));
  }

  lemma BitsAddLow(w: bv32, b: bv8, lo: bv32)
    requires w == Add(ByteAtTop(b), lo) && Bits(lo, 8) == Zeros(8)
    ensures Bits(w, 8) == ByteBits(b)
  {
    hide Bits, Add, ByteAtTop;
    BitsAdd(ByteAtTop(b), lo, 8);
    assert Bits(w, 8) == Xor(ByteBits(b), Zeros(8));
  }

  lemma WordIsAdd(w: bv32, b: bv8)
    requires b == (w >> 24) as bv8
    ensures w == Add(ByteAtTop(b), LowBytes(w))
  {
    PureTopByte(w);
  }

  lemma PureTopByte(w: bv32)
    ensures w == ((((w >> 24) as bv8) as bv32) << 24) ^ (w & 0x00ffffff)
  {
  }

  lemma BitsOfBigEndian(w: bv32)
    ensures BitsOf(BigEndian(w)) == Bits(w, 32)
  {
    var d := BigEndian(w);
    PureBytes(w);
    BitsTopByte(w, d[0]);
    BitsTopByte(w << 8, d[1]);
    BitsTopByte((w << 8) << 8, d[2]);
    BitsTopByte(((w << 8) << 8) << 8, d[3]);
    BitsByBytes(w);
    BitsOfFour(d[0], d[1], d[2], d[3]);
  }

  lemma BitsByBytes(w: bv32)
    ensures Bits(w, 32) == Bits(w, 8) + Bits(w << 8, 8) + Bits((w << 8) << 8, 8) + Bits(((w << 8) << 8) << 8, 8)
  {
    hide Bits, ShlN;
    ShlEight(w);
    ShlEight(w << 8);
    ShlEight((w << 8) << 8);
    BitsSplit(w, 8, 24);
    BitsSplit(w << 8, 8, 16);
    BitsSplit((w << 8) << 8, 8, 8);
    Assoc(Bits(w, 8), Bits(w << 8, 8), Bits((w << 8) << 8, 8), Bits(((w << 8) << 8) << 8, 8));
  }

  lemma Assoc(a: seq<bool>, b: seq<bool>, c: seq<bool>, d: seq<bool>)
    ensures a + (b + (c + d)) == a + b + c + d
  {
  }

  lemma BitsOfFour(a: bv8, b: bv8, c: bv8, d: bv8)
    ensures BitsOf([a, b, c, d]) == ByteBits(a) + ByteBits(b) + ByteBits(c) + ByteBits(d)
  {
    hide ByteBits;
    BitsOfConcat([a], [b, c, d]);
    BitsOfConcat([b], [c, d]);
    BitsOfConcat([c], [d]);
    assert [a] + [b, c, d] == [a, b, c, d] && [b] + [c, d] == [b, c, d] && [c] + [d] == [c, d];
    BitsOfOne(a);
    BitsOfOne(b);
    BitsOfOne(c);
    BitsOfOne(d);
    Assoc(ByteBits(a), ByteBits(b), ByteBits(c), ByteBits(d));
  }

  lemma BitsOfOne(a: bv8)
    ensures BitsOf([a]) == ByteBits(a)
  {
    hide ByteBits;
    assert BitsOf([a]) == ByteBits(a) + [];
  }

  lemma PureBytes(w: bv32)
    ensures ((w << 8) >> 24) == (w >> 16) & 0xff
    ensures (((w << 8) << 8) >> 24) == (w >> 8) & 0xff
    ensures ((((w << 8) << 8) << 8) >> 24) == w & 0xff
  {
  }

  /** A CRC over a buffer that ends in a 32-bit word is zero exactly when that word is the CRC of the rest. */
  lemma TrailerCancels(c: bv32, rest: seq<bv8>, v: bv32)
    ensures Fold(c, rest + BigEndian(v)) == 0 <==> v == Fold(c, rest)
  {
    hide BigEndian, Bits, Add, ShiftN, Fold, ShlN;
    var f := Fold(c, rest);
    FoldConcat(c, rest, BigEndian(v));
    FoldIsSerial(f, BigEndian(v));
    BitsOfBigEndian(v);
    ShlThirtyTwo(v);
    Absorb(f, Bits(v, 32), v);
    if ShiftN(Add(f, v), 32) == 0 {
      ShiftNZero(32);
      ShiftNInjective(Add(f, v), 0, 32);
      AddLaws(f, v, v);
      AddLaws(f, 0, 0);
      AddLaws(0, v, 0);
      AddLaws(v, v, 0);
    }
    if v == f {
      AddLaws(f, v, 0);
      ShiftNZero(32);
    }
  }

  lemma {:induction false} ShiftNZero(n: nat)
    ensures ShiftN(0, n) == 0
  {
    if n > 0 {
      ShiftNZero(n - 1);
    }
  }

  // ----- what the check detects

  lemma {:induction false} SerialInjective(a: bv32, b: bv32, m: seq<bool>)
    requires Serial(a, m) == Serial(b, m)
    ensures a == b
    decreases |m|
  {
    hide Shift, Add;
    if m != [] {
      var t := Top(m[0]);
      SerialInjective(Shift(Add(a, t)), Shift(Add(b, t)), m[1..]);
      ShiftInjective(Add(a, t), Add(b, t));
      AddLaws(a, t, t);
      AddLaws(b, t, t);
      AddLaws(a, 0, 0);
      AddLaws(b, 0, 0);
      AddLaws(t, t, t);
    }
  }

  /** Two messages that differ only inside one burst of at most 32 bits have different CRCs. */
  lemma BurstDetected(c: bv32, before: seq<bool>, x: seq<bool>, y: seq<bool>, after: seq<bool>)
    requires |x| == |y| <= 32 && x != y
    ensures Serial(c, before + x + after) != Serial(c, before + y + after)
  {
    hide Bits, Add, ShiftN, ShlN, Serial;
    SerialConcat(c, before + x, after);
    SerialConcat(c, before, x);
    SerialConcat(c, before + y, after);
    SerialConcat(c, before, y);
    var d := Serial(c, before);
    if Serial(Serial(d, x), after) == Serial(Serial(d, y), after) {
      SerialInjective(Serial(d, x), Serial(d, y), after);
      LoadBits(x);
      LoadBits(y);
      var (v, w) := (Load(x, 0), Load(y, 0));
      Absorb(d, x, v);
      Absorb(d, y, w);
      ShiftNInjective(Add(d, v), Add(d, w), |x|);
      AddCancel(d, v, w);
      assert false;
    }
  }

  lemma AddCancel(d: bv32, v: bv32, w: bv32)
    requires Add(d, v) == Add(d, w)
    ensures v == w
  {
    PureCancel(d, v, w);
  }

  lemma PureCancel(d: bv32, v: bv32, w: bv32)
    requires d ^ v == d ^ w
    ensures v == w
  {
  }

  lemma ByteBitsInjective(a: bv8, b: bv8)
    requires ByteBits(a) == ByteBits(b)
    ensures a == b
  {
    hide Bits, ShlN;
    ByteAtTopEnds(a);
    ByteAtTopEnds(b);
    BitsInjective(ByteAtTop(a), ByteAtTop(b), 8);
    PureByteAtTopInjective(a, b);
  }

  lemma PureByteAtTopInjective(a: bv8, b: bv8)
    requires (a as bv32) << 24 == (b as bv32) << 24
    ensures a == b
  {
  }

  lemma {:induction false} BitsOfInjective(a: seq<bv8>, b: seq<bv8>)
    requires |a| == |b| && BitsOf(a) == BitsOf(b)
    ensures a == b
    decreases |a|
  {
    hide ByteBits;
    if a != [] {
      assert ByteBits(a[0]) == BitsOf(a)[..8] == BitsOf(b)[..8] == ByteBits(b[0]);
      assert BitsOf(a[1..]) == BitsOf(a)[8..] == BitsOf(b)[8..] == BitsOf(b[1..]);
      ByteBitsInjective(a[0], b[0]);
      BitsOfInjective(a[1..], b[1..]);
      assert a == [a[0]] + a[1..] && b == [b[0]] + b[1..];
    }
  }

  /** Buffers of any one length that differ only inside a window of at most four bytes have different CRCs. */
  lemma WindowDetected(c: bv32, a: seq<bv8>, b: seq<bv8>, i: nat, k: nat)
    requires |a| == |b| && a != b && k <= 4 && i + k <= |a|
    requires a[..i] == b[..i] && a[i + k..] == b[i + k..]
    ensures Fold(c, a) != Fold(c, b)
  {
    hide BitsOf, Serial, Fold;
    var (x, y) := (a[i..i + k], b[i..i + k]);
    assert a == a[..i] + x + a[i + k..] && b == a[..i] + y + a[i + k..];
    assert x != y;
    BitsOfConcat(a[..i] + x, a[i + k..]);
    BitsOfConcat(a[..i], x);
    BitsOfConcat(a[..i] + y, a[i + k..]);
    BitsOfConcat(a[..i], y);
    if BitsOf(x) == BitsOf(y) {
      BitsOfInjective(x, y);
      assert false;
    }
    BurstDetected(c, BitsOf(a[..i]), BitsOf(x), BitsOf(y), BitsOf(a[i + k..]));
    FoldIsSerial(c, a);
    FoldIsSerial(c, b);
  }

  /** A buffer too short to hold a trailer never has CRC zero. */
  lemma ShortBufferNonZero(data: seq<bv8>)
    requires |data| < 4
    ensures Fold(CRC32_INIT, data) != 0
  {
    hide Bits, Add, ShiftN, ShlN, Fold, Serial, BitsOf, Load;
    var n := 8 * |data|;
    var w := BitsOf(data);
    FoldIsSerial(CRC32_INIT, data);
    LoadBits(w);
    var v := Load(w, 0);
    Absorb(CRC32_INIT, w, v);
    if ShiftN(Add(CRC32_INIT, v), n) == 0 {
      ShiftNZero(n);
      ShiftNInjective(Add(CRC32_INIT, v), 0, n);
      AddSelf(v);
      AddCancel(v, CRC32_INIT, v);
      InitNotShort(|data|);
      assert false;
    }
  }

  lemma AddSelf(v: bv32)
    ensures Add(v, v) == 0 && Add(CRC32_INIT, v) == Add(v, CRC32_INIT)
  {
    AddLaws(v, CRC32_INIT, 0);
  }

  lemma InitNotShort(k: nat)
    requires k < 4
    ensures ShlN(CRC32_INIT, 8 * k) != 0
  {
    hide ShlN;
    var i := CRC32_INIT;
    assert ShlN(i, 0) == i by {
      ShlNZero(i);
    }
    ShlEight(i);
    ShlEight(i << 8);
    ShlEight((i << 8) << 8);
    ShlNSplit(i, 8, 8);
    ShlNSplit(i, 8, 16);
    ShlNSplit(i << 8, 8, 8);
  }

  lemma ShlNZero(w: bv32)
    ensures ShlN(w, 0) == w
  {
  }

  // ----- the loop

  lemma FoldSnoc(c: bv32, data: seq<bv8>, b: bv8)
    ensures Fold(c, data + [b]) == Update(Fold(c, data), b)
  {
    hide Update;
    FoldConcat(c, data, [b]);
    assert Fold(Fold(c, data), [b]) == Fold(Update(Fold(c, data), b), []);
  }

  method Crc32(start: bv32, buf: array<bv8>, len: nat) returns (crc: bv32)
    requires len <= buf.Length
    ensures crc == Fold(start, buf[..len])
    ensures Bits(crc, 32) == Remainder(Dividend(start, BitsOf(buf[..len])))
  {
    hide Update, Remainder, Dividend, Bits, BitsOf;
    crc := start;
    var i := 0;
    while i < len
      invariant 0 <= i <= len
      invariant crc == Fold(start, buf[..i])
    {
      FoldSnoc(start, buf[..i], buf[i]);
      assert buf[..i + 1] == buf[..i] + [buf[i]];
      crc := Update(crc, buf[i]);
      i := i + 1;
    }
    CrcIsRemainder(start, buf[..len]);
  }
}
