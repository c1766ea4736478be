/**
 The pieces of a line of a configuration file, lib/libdvbcfg/dvbcfg_common.c: fields that end at a colon, numbers as
 `%i` prints and reads them, and settings that a table gives names to.
 */
module ConfigText {
  import opened Wrappers

  const NUL: char := '\0'

  // ----- C strings and fields

  /** The C string at a position of a buffer. */
  function CString(buf: string, pos: nat): string
    decreases |buf| - pos
  {
    if pos >= |buf| || buf[pos] == NUL then "" else [buf[pos]] + CString(buf, pos + 1)
  }

  /** Where the character first stands, or the end of the text. */
  function Find(t: string, c: char): (i: nat)
    ensures i <= |t| && (i < |t| ==> t[i] == c)
    ensures forall j :: 0 <= j < i ==> t[j] != c
  {
    if t == "" || t[0] == c then 0 else 1 + Find(t[1..], c)
  }

  /** The field in front of the first colon. */
  function Field(t: string): string {
    t[..Find(t, ':')]
  }

  /** What follows the first colon, if there is one. */
  function Rest(t: string): string {
    var i := Find(t, ':');
    if i < |t| then t[i + 1..] else ""
  }

  predicate Lacks(t: string, c: char) {
    forall i :: 0 <= i < |t| ==> t[i] != c
  }

  lemma FindIs(t: string, c: char, i: nat)
    requires i <= |t| && (i < |t| ==> t[i] == c) && forall j :: 0 <= j < i ==> t[j] != c
    ensures Find(t, c) == i
  {
  }

  /** A field with its colon, in front of the rest of the line. */
  function With(f: string, rest: string): string {
    f + ":" + rest
  }

  lemma FieldOf(f: string, rest: string)
    requires Lacks(f, ':')
    ensures Field(With(f, rest)) == f && Rest(With(f, rest)) == rest
  {
    FindIs(With(f, rest), ':', |f|);
  }

  lemma LastField(f: string)
    requires Lacks(f, ':')
    ensures Field(f) == f && Rest(f) == ""
  {
    FindIs(f, ':', |f|);
  }

  /** The C string at a position ends at the first NUL. */
  lemma {:induction false} CStringIs(buf: string, pos: nat, t: string, more: string)
    requires pos <= |buf| && buf[pos..] == t + [NUL] + more && Lacks(t, NUL)
    ensures CString(buf, pos) == t
    decreases |t|
  {
    if t != "" {
      assert buf[pos] == t[0] && buf[pos + 1..] == t[1..] + [NUL] + more;
      CStringIs(buf, pos + 1, t[1..], more);
      assert [t[0]] + t[1..] == t;
    } else {
      assert buf[pos] == buf[pos..][0];
    }
  }

  // ----- numbers

  function Wrap32(v: int): (w: int)
    ensures -0x8000_0000 <= w < 0x8000_0000
  {
    (v + 0x8000_0000) % 0x1_0000_0000 - 0x8000_0000
  }

  /** The conversion to an unsigned 32-bit field. */
  function Unsigned32(v: int): (u: int)
    ensures 0 <= u < 0x1_0000_0000
  {
    v % 0x1_0000_0000
  }

  lemma UnsignedWrap(u: int)
    requires 0 <= u < 0x1_0000_0000
    ensures Unsigned32(Wrap32(u)) == u
  {
  }

  /** Numbers are read with `strtol`, which stops at the limits of a 64-bit integer. */
  function Clamp64(v: int): int {
    if v < -0x8000_0000_0000_0000 then -0x8000_0000_0000_0000
    else if v > 0x7fff_ffff_ffff_ffff then 0x7fff_ffff_ffff_ffff
    else v
  }

  predicate IsSpace(c: char) {
    c == ' ' || '\t' <= c <= '\r'
  }

  function SkipSpace(t: string): string {
    if t != "" && IsSpace(t[0]) then SkipSpace(t[1..]) else t
  }

  /** The value of a digit; 36 for any other character. */
  function DigitValue(c: char): (d: nat)
    ensures d <= 36
  {
    if '0' <= c <= '9' then c as int - '0' as int
    else if 'a' <= c <= 'z' then c as int - 'a' as int + 10
    else if 'A' <= c <= 'Z' then c as int - 'A' as int + 10
    else 36
  }

  /** The number that the longest run of digits at the front stands for, behind what has been read of it. */
  function Number(t: string, base: nat, read: nat): nat {
    if t != "" && DigitValue(t[0]) < base then Number(t[1..], base, read * base + DigitValue(t[0])) else read
  }

  /** `sscanf` with `%i`: space, a sign, a base prefix and digits; what follows them is not looked at. */
  function ScanInt(s: string): Option<int> {
    var t := SkipSpace(s);
    var signed := t != "" && (t[0] == '-' || t[0] == '+');
    var u := if signed then t[1..] else t;
    if u == "" || DigitValue(u[0]) >= 10 then None
    else
      var v := if u[0] != '0' then Number(u, 10, 0)
               else if |u| > 1 && (u[1] == 'x' || u[1] == 'X') then Number(u[2..], 16, 0)
               else Number(u, 8, 0);
      Some(Wrap32(Clamp64(if signed && t[0] == '-' then -v else v)))
  }

  function Digit(d: nat): char
    requires d < 10
  {
    ('0' as int + d) as char
  }

  function Digits(n: nat): (s: string)
    ensures s != ""
  {
    if n < 10 then [Digit(n)] else Digits(n / 10) + [Digit(n % 10)]
  }

  /** `printf` with `%i`. */
  function PrintInt(v: int): string {
    if v < 0 then "-" + Digits(-v) else Digits(v)
  }

  predicate AllDigits(s: string) {
    forall i :: 0 <= i < |s| ==> '0' <= s[i] <= '9'
  }

  lemma {:induction false} DigitsAreDigits(n: nat)
    ensures AllDigits(Digits(n)) && (n > 0 ==> Digits(n)[0] != '0')
  {
    if n >= 10 {
      DigitsAreDigits(n / 10);
    }
  }

  lemma {:induction false} NumberSnoc(s: string, c: char, read: nat)
    requires AllDigits(s) && '0' <= c <= '9'
    ensures Number(s + [c], 10, read) == Number(s, 10, read) * 10 + DigitValue(c)
    decreases |s|
  {
    if s == "" {
      assert (s + [c])[1..] == "";
    } else {
      assert (s + [c])[1..] == s[1..] + [c];
      NumberSnoc(s[1..], c, read * 10 + DigitValue(s[0]));
    }
  }

  lemma {:induction false} NumberDigits(n: nat)
    ensures Number(Digits(n), 10, 0) == n
  {
    if n < 10 {
      assert Number([], 10, n) == n;
      assert [Digit(n)][1..] == [];
    } else {
      NumberDigits(n / 10);
      DigitsAreDigits(n / 10);
      NumberSnoc(Digits(n / 10), Digit(n % 10), 0);
    }
  }

  lemma ScanDigits(n: nat)
    requires n <= 0x8000_0000
    ensures Stands(Digits(n), n)
  {
    DigitsAreDigits(n);
    if n > 0 {
      NumberDigits(n);
    } else {
      assert Digits(0) == "0";
      assert Number("0"[1..], 8, 0) == 0;
    }
  }

  /** The other forms of a number: hexadecimal behind 0x, and octal behind another 0. */
  lemma ScanPrefixed(t: string)
    ensures ScanInt("0x" + t) == Some(Wrap32(Clamp64(Number(t, 16, 0))))
    ensures t != "" && t[0] != 'x' && t[0] != 'X' ==> ScanInt("0" + t) == Some(Wrap32(Clamp64(Number(t, 8, 0))))
  {
    assert SkipSpace("0x" + t) == "0x" + t && SkipSpace("0" + t) == "0" + t;
    assert ("0x" + t)[2..] == t && ("0" + t)[1..] == t;
    assert Number("0" + t, 8, 0) == Number(t, 8, 0);
    hide Number, Wrap32, Clamp64, SkipSpace;
  }

  /** Reading a printed 32-bit number gives the number back. */
  lemma ScanPrinted(v: int)
    requires -0x8000_0000 <= v < 0x8000_0000
    ensures ScanInt(PrintInt(v)) == Some(v)
  {
    var n := if v < 0 then -v else v;
    ScanDigits(n);
    hide Digits, Number;
    if v < 0 {
      ScanNegative(Digits(n), n);
    } else {
      ScanPlain(Digits(n), n);
    }
  }

  /** The text is a number without a sign that stands for `n`. */
  predicate Stands(u: string, n: nat) {
    && u != "" && DigitValue(u[0]) < 10 && !IsSpace(u[0]) && u[0] != '-' && u[0] != '+'
    && n == if u[0] != '0' then Number(u, 10, 0)
            else if |u| > 1 && (u[1] == 'x' || u[1] == 'X') then Number(u[2..], 16, 0)
            else Number(u, 8, 0)
  }

  lemma ScanPlain(u: string, n: nat)
    requires Stands(u, n) && n < 0x8000_0000
    ensures ScanInt(u) == Some(n)
  {
    hide Number;
  }

  lemma ScanNegative(u: string, n: nat)
    requires Stands(u, n) && n <= 0x8000_0000
    ensures ScanInt("-" + u) == Some(0 - n as int)
  {
    hide Number;
    assert ("-" + u)[1..] == u && SkipSpace("-" + u) == "-" + u;
  }

  lemma PrintedLacks(v: int, c: char)
    requires c != '-' && !('0' <= c <= '9')
    ensures Lacks(PrintInt(v), c)
  {
    DigitsAreDigits(if v < 0 then -v else v);
  }

  // ----- settings

  datatype Setting = Setting(name: string, value: int)

  /** The value of the first setting with a name. */
  function SettingValue(name: string, settings: seq<Setting>): Option<int> {
    if settings == [] then None
    else if settings[0].name == name then Some(settings[0].value)
    else SettingValue(name, settings[1..])
  }

  /** `dvbcfg_lookup_setting`: the name of the first setting with a value. */
  function LookupSetting(value: int, settings: seq<Setting>): Option<string> {
    if settings == [] then None
    else if settings[0].value == value then Some(settings[0].name)
    else LookupSetting(value, settings[1..])
  }

  predicate Listed(value: int, settings: seq<Setting>) {
    exists i :: 0 <= i < |settings| && settings[i].value == value
  }

  predicate NamesDiffer(settings: seq<Setting>) {
    forall i, j :: 0 <= i < j < |settings| ==> settings[i].name != settings[j].name
  }

  lemma {:induction false} LookupIsListed(value: int, settings: seq<Setting>) returns (i: nat)
    requires LookupSetting(value, settings).Some?
    ensures i < |settings| && settings[i] == Setting(LookupSetting(value, settings).value, value)
  {
    if settings[0].value == value {
      i := 0;
    } else {
      i := LookupIsListed(value, settings[1..]);
      i := i + 1;
    }
  }

  /** A value has a name exactly when the table lists it. */
  lemma {:induction false} LookupIff(value: int, settings: seq<Setting>)
    ensures LookupSetting(value, settings).Some? <==> Listed(value, settings)
  {
    if settings != [] && settings[0].value != value {
      LookupIff(value, settings[1..]);
      if Listed(value, settings) {
        var i :| 0 <= i < |settings| && settings[i].value == value;
        assert settings[1..][i - 1] == settings[i];
      }
    }
  }

  lemma {:induction false} ValueOfListed(settings: seq<Setting>, i: nat)
    requires NamesDiffer(settings) && i < |settings|
    ensures SettingValue(settings[i].name, settings) == Some(settings[i].value)
  {
    if i > 0 {
      ValueOfListed(settings[1..], i - 1);
    }
  }

  /** A printed setting is read as the value that was printed. */
  lemma SettingRoundTrip(value: int, settings: seq<Setting>)
    requires NamesDiffer(settings) && LookupSetting(value, settings).Some?
    ensures SettingValue(LookupSetting(value, settings).value, settings) == Some(value)
  {
    var i := LookupIsListed(value, settings);
    ValueOfListed(settings, i);
  }

  lemma {:induction false} ValueIsListed(name: string, settings: seq<Setting>)
    requires SettingValue(name, settings).Some?
    ensures Listed(SettingValue(name, settings).value, settings)
  {
    if settings[0].name != name {
      ValueIsListed(name, settings[1..]);
      var v := SettingValue(name, settings).value;
      var i :| 0 <= i < |settings[1..]| && settings[1..][i].value == v;
      assert settings[i + 1].value == v;
    }
  }

  // ----- reading one field; what is left of the text comes with the value

  datatype Got<T> = Got(value: T, rest: string)

  /** `dvbcfg_parse_int` */
  function ParseInt(t: string): Option<Got<int>> {
    var v := ScanInt(Field(t));
    if v.None? then None else Some(Got(v.value, Rest(t)))
  }

  /** `dvbcfg_parse_char` */
  function ParseChar(t: string): Option<Got<char>> {
    if Field(t) == "" then None else Some(Got(Field(t)[0], Rest(t)))
  }

  /** `dvbcfg_parse_setting` */
  function ParseSetting(t: string, settings: seq<Setting>): Option<Got<int>> {
    var v := SettingValue(Field(t), settings);
    if v.None? then None else Some(Got(v.value, Rest(t)))
  }
}
