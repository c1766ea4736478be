/**
 The parser of channel files as the library runs it: the line buffer is cut up in place, and a cursor moves through it
 or becomes null. Specified by the functions of `ConfigText` and `Zapchannel`.
 */
module ZapParser {
  import opened ConfigText
  import opened Wrappers
  import opened Zapchannel
  import opened ZapRoundTrip

  /** The text stands at the position, and ends there at a NUL or with the buffer. */
  predicate Stands(buf: string, pos: nat, t: string) {
    && pos + |t| <= |buf| && buf[pos..pos + |t|] == t && Lacks(t, NUL)
    && (pos + |t| < |buf| ==> buf[pos + |t|] == NUL)
  }

  /** The C string at a position is the text that stands there. */
  lemma {:induction false} CStringStands(buf: string, pos: nat)
    requires pos <= |buf|
    ensures Stands(buf, pos, CString(buf, pos))
    decreases |buf| - pos
  {
    if pos < |buf| && buf[pos] != NUL {
      CStringStands(buf, pos + 1);
      var (t, u) := (CString(buf, pos), CString(buf, pos + 1));
      assert t == [buf[pos]] + u;
      assert buf[pos..pos + |t|] == [buf[pos]] + buf[pos + 1..pos + 1 + |u|];
    }
  }

  lemma {:induction false} StandingIsCString(buf: string, pos: nat, t: string)
    requires Stands(buf, pos, t)
    ensures CString(buf, pos) == t
    decreases |t|
  {
    if t != "" {
      var u := t[1..];
      assert t[0] == buf[pos..pos + |t|][0] && buf[pos + 1..pos + |t|] == buf[pos..pos + |t|][1..];
      StandingIsCString(buf, pos + 1, u);
      assert t == [t[0]] + u;
    }
  }

  /** A NUL written over the first colon of a text leaves its field, and behind it the rest. */
  lemma CutAt(buf: string, pos: nat, k: nat)
    requires pos <= |buf| && k == Find(CString(buf, pos), ':') < |CString(buf, pos)|
    ensures
      var t := CString(buf, pos);
      && pos + |t| <= |buf|
      && var cut := buf[pos + k := NUL];
         CString(cut, pos) == Field(t) && CString(cut, pos + k + 1) == Rest(t)
  {
    var t := CString(buf, pos);
    CStringStands(buf, pos);
    CutStands(buf, pos, t, k);
    hide CString, Find, Stands;
    StandingIsCString(buf[pos + k := NUL], pos, t[..k]);
    StandingIsCString(buf[pos + k := NUL], pos + k + 1, t[k + 1..]);
  }

  lemma CutStands(buf: string, pos: nat, t: string, k: nat)
    requires Stands(buf, pos, t) && k < |t|
    ensures pos + k < |buf|
    ensures Stands(buf[pos + k := NUL], pos, t[..k]) && Stands(buf[pos + k := NUL], pos + k + 1, t[k + 1..])
  {
    CutFront(buf, pos, t, k);
    CutBehind(buf, pos, t, k);
  }

  lemma CutFront(buf: string, pos: nat, t: string, k: nat)
    requires Stands(buf, pos, t) && k < |t|
    ensures Stands(buf[pos + k := NUL], pos, t[..k])
  {
    assert buf[pos + k := NUL][pos..pos + k] == buf[pos..pos + |t|][..k];
  }

  lemma CutBehind(buf: string, pos: nat, t: string, k: nat)
    requires Stands(buf, pos, t) && k < |t|
    ensures Stands(buf[pos + k := NUL], pos + k + 1, t[k + 1..])
  {
    assert buf[pos + k := NUL][pos + k + 1..pos + |t|] == buf[pos..pos + |t|][k + 1..];
  }

  class Cursor {
    const buf: array<char>
    /** Negative for the null pointer. */
    var pos: int

    constructor (buf: array<char>, pos: nat)
      requires pos <= buf.Length
      ensures this.buf == buf && this.pos == pos
    {
      this.buf, this.pos := buf, pos;
    }

    predicate Live()
      reads this
    {
      0 <= pos <= buf.Length
    }

    function Text(): string
      requires Live()
      reads this, buf
    {
      CString(buf[..], pos)
    }

    /** What remains is `t`, or nothing can be read any more. */
    ghost predicate At(rest: Option<string>)
      reads this, buf
    {
      match rest
      case None => pos < 0
      case Some(t) => Live() && Text() == t
    }

    /** Runs to the first colon of the text, or to its end. */
    method FindColon() returns (stop: nat)
      requires Live()
      ensures pos + |Text()| <= buf.Length && stop == pos + Find(Text(), ':')
      ensures (stop < buf.Length && buf[stop] == ':') <==> Find(Text(), ':') < |Text()|
    {
      ghost var t := Text();
      TextAt(t);
      hide CString, Find;
      stop := pos;
      while stop < buf.Length && buf[stop] != NUL && buf[stop] != ':'
        invariant pos <= stop <= pos + |t|
        invariant forall j :: 0 <= j < stop - pos ==> t[j] != ':'
      {
        stop := stop + 1;
      }
      FindIs(t, ':', stop - pos);
    }

    lemma TextAt(t: string)
      requires Live() && t == Text()
      ensures pos + |t| <= buf.Length && forall j :: 0 <= j < |t| ==> t[j] == buf[pos + j] != NUL
      ensures pos + |t| < buf.Length ==> buf[pos + |t|] == NUL
    {
      var b := buf[..];
      CStringStands(b, pos);
      forall j | 0 <= j < |t|
        ensures t[j] == buf[pos + j] != NUL
      {
        assert b[pos + j] == t[pos + j - pos];
      }
    }

    /** The loop that every parse function begins with: the field is ended in place, `stop` is where the rest begins. */
    method CutField() returns (field: string, stop: nat)
      requires Live()
      modifies buf
      ensures field == Field(old(Text()))
      ensures stop <= buf.Length && CString(buf[..], stop) == Rest(old(Text()))
    {
      ghost var (b, t) := (buf[..], Text());
      stop := FindColon();
      hide CString;
      if stop < buf.Length && buf[stop] == ':' {
        CutAt(b, pos, stop - pos);
        buf[stop] := NUL;
        assert buf[..] == b[stop := NUL];
        stop := stop + 1;
      } else {
        NoColon(b, pos);
      }
      field := CString(buf[..], pos);
    }

    lemma NoColon(b: string, at: nat)
      requires at <= |b| && Find(CString(b, at), ':') == |CString(b, at)|
      ensures
        var t := CString(b, at);
        at + |t| <= |b| && CString(b, at + |t|) == Rest(t) == "" && Field(t) == t
    {
      CStringStands(b, at);
    }

    /** `dvbcfg_parse_int` */
    method ReadInt() returns (value: int)
      requires Live()
      modifies this`pos, buf
      ensures match ParseInt(old(Text()))
        case None => value == -1 && At(None)
        case Some(got) => value == got.value && At(Some(got.rest))
    {
      var field, stop := CutField();
      var scanned := ScanInt(field);
      if scanned.Some? {
        pos := stop;
        return scanned.value;
      }
      pos := -1;
      return -1;
    }

    /** `dvbcfg_parse_char`; the result is of no use when the cursor has become null. */
    method ReadChar() returns (value: char)
      requires Live()
      modifies this`pos, buf
      ensures match ParseChar(old(Text()))
        case None => At(None)
        case Some(got) => value == got.value && At(Some(got.rest))
    {
      var field, stop := CutField();
      if field != "" {
        pos := stop;
        return field[0];
      }
      pos := -1;
      return NUL;
    }

    /** `dvbcfg_parse_setting` */
    method ReadSetting(settings: seq<Setting>) returns (value: int)
      requires Live()
      modifies this`pos, buf
      ensures match ParseSetting(old(Text()), settings)
        case None => value == -1 && At(None)
        case Some(got) => value == got.value && At(Some(got.rest))
    {
      var field, stop := CutField();
      var i := 0;
      while i < |settings|
        invariant 0 <= i <= |settings| && pos == old(pos)
        invariant SettingValue(field, settings) == SettingValue(field, settings[i..])
        invariant CString(buf[..], stop) == Rest(old(Text()))
      {
        if settings[i].name == field {
          pos := stop;
          return settings[i].value;
        }
        i := i + 1;
      }
      pos := -1;
      return -1;
    }

    // ----- the four kinds of line

    method ParseAtsc(frequency: int) returns (tuned: Tuned)
      requires Live()
      modifies this`pos, buf
      ensures match ReadAtsc(frequency, old(Text()))
        case None => At(None)
        case Some(got) => tuned == got.value && At(Some(got.rest))
    {
      hide ParseSetting;
      var modulation := ReadSetting(ATSC_MODULATIONS);
      tuned := Tuned(frequency, INVERSION_AUTO, Atsc(modulation));
    }

    method ParseDvbc(frequency: int) returns (tuned: Tuned)
      requires Live()
      modifies this`pos, buf
      ensures match ReadDvbc(frequency, old(Text()))
        case None => At(None)
        case Some(got) => tuned == got.value && At(Some(got.rest))
    {
      hide ParseSetting, ParseInt;
      tuned := Tuned(frequency, 0, Atsc(0));
      var inversion := ReadSetting(INVERSIONS);
      if pos < 0 {
        return;
      }
      var rate := ReadInt();
      if pos < 0 {
        return;
      }
      var fec := ReadSetting(FECS);
      if pos < 0 {
        return;
      }
      var modulation := ReadSetting(DVBC_MODULATIONS);
      tuned := Tuned(frequency, inversion, Dvbc(Unsigned32(rate), fec, modulation));
    }

    method ParseDvbs(frequency: int) returns (tuned: Tuned)
      requires Live()
      modifies this`pos, buf
      ensures match ReadDvbs(frequency, old(Text()))
        case None => At(None)
        case Some(got) => tuned == got.value && At(Some(got.rest))
    {
      hide ParseChar, ParseInt, Unsigned32;
      tuned := Tuned(frequency, 0, Atsc(0));
      var polarization := ReadChar();
      if pos < 0 {
        return;
      }
      polarization := ToLower(polarization);
      if !IsPolarization(polarization) {
        pos := -1;
        return;
      }
      var switch := ReadInt();
      if pos < 0 {
        return;
      }
      var rate := ReadInt();
      tuned := Tuned(Unsigned32(frequency * 1000), INVERSION_AUTO,
                     Dvbs(polarization, switch, Unsigned32(rate * 1000), FEC_AUTO));
    }

    method ParseDvbt(frequency: int) returns (tuned: Tuned)
      requires Live()
      modifies this`pos, buf
      ensures match ReadDvbt(frequency, old(Text()))
        case None => At(None)
        case Some(got) => tuned == got.value && At(Some(got.rest))
    {
      hide ParseSetting;
      tuned := Tuned(frequency, 0, Atsc(0));
      var inversion := ReadSetting(INVERSIONS);
      if pos < 0 {
        return;
      }
      var bandwidth := ReadSetting(BANDWIDTHS);
      if pos < 0 {
        return;
      }
      var hp := ReadSetting(FECS);
      if pos < 0 {
        return;
      }
      var lp := ReadSetting(FECS);
      if pos < 0 {
        return;
      }
      var constellation := ReadSetting(CONSTELLATIONS);
      if pos < 0 {
        return;
      }
      var mode := ReadSetting(TRANSMISSION_MODES);
      if pos < 0 {
        return;
      }
      var guard := ReadSetting(GUARD_INTERVALS);
      if pos < 0 {
        return;
      }
      var hierarchy := ReadSetting(HIERARCHIES);
      tuned := Tuned(frequency, inversion, Dvbt(bandwidth, hp, lp, constellation, mode, guard, hierarchy));
    }

    /** The kind is determined on the text that is left, before any of it is cut. */
    method ParseFrontend(frequency: int) returns (tuned: Tuned)
      requires Live()
      modifies this`pos, buf
      ensures match ReadFrontend(frequency, old(Text()))
        case None => At(None)
        case Some(got) => tuned == got.value && At(Some(got.rest))
    {
      hide ReadAtsc, ReadDvbc, ReadDvbs, ReadDvbt, Classify;
      match Classify(Text())
      case KAtsc => tuned := ParseAtsc(frequency);
      case KDvbc => tuned := ParseDvbc(frequency);
      case KDvbs => tuned := ParseDvbs(frequency);
      case KDvbt => tuned := ParseDvbt(frequency);
    }

    method ParseBody(name: string) returns (r: Option<Channel>)
      requires Live()
      modifies this`pos, buf
      ensures r == ReadBody(name, old(Text()))
    {
      hide ParseInt, ReadFrontend, Unsigned32;
      var frequency := ReadInt();
      if pos < 0 {
        return None;
      }
      var tuned := ParseFrontend(Unsigned32(frequency));
      if pos < 0 {
        return None;
      }
      var video := ReadInt();
      if pos < 0 {
        return None;
      }
      var audio := ReadInt();
      if pos < 0 {
        return None;
      }
      var service := ReadInt();
      if pos < 0 {
        service := 0;
      }
      return Some(Channel(name, tuned.frequency, tuned.inversion, tuned.frontend, video, audio, service));
    }
  }

  /** One turn of the line loop of `dvbcfg_zapchannel_parse`. */
  method ParseLine(buf: array<char>) returns (r: Option<Channel>)
    requires NUL in buf[..]
    modifies buf
    ensures r == ReadLine(old(buf[..]))
  {
    ghost var was := buf[..];
    var e := FindLineEnd(buf);
    buf[e] := NUL;
    assert buf[..] == was[e := NUL];
    var stop := FindNameEnd(buf, e, was);
    if stop + 1 > NAME_SIZE {
      return None;
    }
    var name := buf[..stop];
    assert name == was[..stop];
    hide ReadBody;
    var cursor := new Cursor(buf, stop + 1);
    r := cursor.ParseBody(name);
  }

  /** The search of `dvbcfg_parse_string`, in a line that has been ended at `e`. */
  method FindNameEnd(buf: array<char>, ghost e: nat, ghost was: string) returns (stop: nat)
    requires e < buf.Length == |was| && buf[..] == was[e := NUL] && e == LineEnd(was)
    ensures stop == Find(was[..e], ':') <= e
  {
    ghost var line := was[..e];
    assert forall j :: 0 <= j < e ==> line[j] == buf[j] != NUL;
    assert buf[e] == was[e := NUL][e] == NUL;
    hide LineEnd;
    stop := 0;
    while buf[stop] != NUL && buf[stop] != ':'
      invariant 0 <= stop <= e
      invariant forall j :: 0 <= j < stop ==> line[j] != ':'
      decreases e - stop
    {
      stop := stop + 1;
    }
    FindIs(line, ':', stop);
  }

  /** Newlines and comments end the text of a line. */
  method FindLineEnd(buf: array<char>) returns (e: nat)
    requires NUL in buf[..]
    ensures e == LineEnd(buf[..]) < buf.Length
  {
    ghost var was := buf[..];
    e := 0;
    while buf[e] != NUL && buf[e] != '\n' && buf[e] != '#'
      invariant e <= LineEnd(was) < buf.Length
      decreases buf.Length - e
    {
      e := e + 1;
    }
  }

  /** The channels that the callback is called with, up to one at which it stops, and what it returned there. */
  function Called(cs: seq<Channel>, callback: Channel -> int): (seq<Channel>, int) {
    if cs == [] then ([], 0)
    else if callback(cs[0]) != 0 then ([cs[0]], if callback(cs[0]) < 0 then 0 else callback(cs[0]))
    else
      var (rest, ret) := Called(cs[1..], callback);
      ([cs[0]] + rest, ret)
  }

  /**
   The callback gets the channels in order, up to the first for which it does not return 0; what it returns there is
   returned, but for a negative value, which becomes 0.
   */
  lemma {:induction false} CalledUpTo(cs: seq<Channel>, callback: Channel -> int)
    ensures
      var (called, ret) := Called(cs, callback);
      && called <= cs && (forall k :: 0 <= k < |called| - 1 ==> callback(called[k]) == 0)
      && (if called == [] || callback(called[|called| - 1]) == 0 then called == cs && ret == 0
          else var r := callback(called[|called| - 1]); ret == if r < 0 then 0 else r)
  {
    if cs != [] && callback(cs[0]) == 0 {
      CalledUpTo(cs[1..], callback);
    }
  }

  /** `dvbcfg_zapchannel_parse` on the lines of a file. */
  method ParseFile(lines: seq<string>, stale: nat -> string, callback: Channel -> int)
    returns (called: seq<Channel>, ret: int)
    ensures (called, ret) == Called(ReadLines(lines, stale, 0), callback)
  {
    hide ReadLine, Buffer, Called, Behind, ReadLines;
    called, ret := [], 0;
    var i: nat := 0;
    ghost var goal := Called(ReadLines(lines, stale, 0), callback);
    assert lines[0..] == lines;
    BehindNothing(goal);
    while i < |lines|
      invariant i <= |lines| && ret == 0
      invariant goal == Behind(called, Called(ReadLines(lines[i..], stale, i), callback))
    {
      var c := ParseBuffer(lines[i], stale(i));
      assert lines[i..][1..] == lines[i + 1..];
      NextLine(lines[i..], stale, i);
      if c.Some? {
        NextCalled(called, c.value, ReadLines(lines[i + 1..], stale, i + 1), callback);
        called := called + [c.value];
        ret := callback(c.value);
        if ret != 0 {
          ret := if ret < 0 then 0 else ret;
          return;
        }
      }
      i := i + 1;
    }
    assert lines[i..] == [];
    LastCalled(called, stale, i, callback);
  }

  /** A line in a buffer of its own. */
  method ParseBuffer(line: string, stale: string) returns (c: Option<Channel>)
    ensures c == ReadLine(Buffer(line, stale))
  {
    hide ReadLine;
    var content := line + [NUL] + stale;
    var buf := new char[|content|](k requires 0 <= k < |content| => content[k]);
    assert buf[..] == content == Buffer(line, stale);
    c := ParseLine(buf);
  }

  /** Calls that come behind others. */
  function Behind(called: seq<Channel>, more: (seq<Channel>, int)): (seq<Channel>, int) {
    (called + more.0, more.1)
  }

  lemma BehindNothing(more: (seq<Channel>, int))
    ensures Behind([], more) == more
  {
    assert [] + more.0 == more.0;
  }

  lemma LastCalled(called: seq<Channel>, stale: nat -> string, i: nat, callback: Channel -> int)
    ensures Behind(called, Called(ReadLines([], stale, i), callback)) == (called, 0)
  {
    assert called + [] == called;
  }

  lemma NextLine(lines: seq<string>, stale: nat -> string, i: nat)
    requires lines != []
    ensures
      var c := ReadLine(Buffer(lines[0], stale(i)));
      var rest := ReadLines(lines[1..], stale, i + 1);
      ReadLines(lines, stale, i) == if c.Some? then [c.value] + rest else rest
  {
  }

  lemma NextCalled(called: seq<Channel>, c: Channel, more: seq<Channel>, callback: Channel -> int)
    ensures Behind(called, Called([c] + more, callback))
         == if callback(c) != 0 then (called + [c], if callback(c) < 0 then 0 else callback(c))
            else Behind(called + [c], Called(more, callback))
  {
    assert ([c] + more)[1..] == more;
    assert called + ([c] + Called(more, callback).0) == called + [c] + Called(more, callback).0;
  }

  /** `dvbcfg_zapchannel_save`: the callback hands out the channels one by one, and then returns `end`. */
  method SaveFile(cs: seq<Channel>, end: int) returns (text: string, ret: int)
    requires end != 0
    ensures text == SaveAll(cs)
    ensures ret == if end < 0 then 0 else end
  {
    hide PrintChannel;
    text := "";
    var i := 0;
    while i < |cs|
      invariant 0 <= i <= |cs| && text + SaveAll(cs[i..]) == SaveAll(cs)
    {
      assert cs[i..][1..] == cs[i + 1..];
      text := text + (PrintChannel(cs[i]) + "\n");
      i := i + 1;
    }
    ret := if end < 0 then 0 else end;
  }

  /** The search of `dvbcfg_lookup_setting`. */
  method LookupName(value: int, settings: seq<Setting>) returns (name: Option<string>)
    ensures name == LookupSetting(value, settings)
  {
    var i := 0;
    while i < |settings|
      invariant 0 <= i <= |settings| && LookupSetting(value, settings) == LookupSetting(value, settings[i..])
    {
      if settings[i].value == value {
        return Some(settings[i].name);
      }
      i := i + 1;
    }
    return None;
  }

  /** Saving channels and parsing the file calls back with all of them, in order, whatever ended the saving. */
  method SaveAndParse(cs: seq<Channel>, end: int, stale: nat -> string) returns (back: seq<Channel>)
    requires end != 0
    requires forall k :: 0 <= k < |cs| ==> InRange(cs[k]) && Saveable(cs[k])
    ensures back == NormalAll(cs)
  {
    var text, _ := SaveFile(cs, end);
    FileRoundTrip(cs, stale, 0);
    var ret;
    back, ret := ParseFile(Lines(text), stale, _ => 0);
    AllCalled(ReadLines(Lines(text), stale, 0));
  }

  lemma {:induction false} AllCalled(cs: seq<Channel>)
    ensures Called(cs, _ => 0).0 == cs
  {
    if cs != [] {
      AllCalled(cs[1..]);
    }
  }
}
