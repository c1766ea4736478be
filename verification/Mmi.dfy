/**
 Reassembly of MMI objects that a module sends in fragments, lib/libdvben50221/en50221_app_mmi.c: for every
 session a list node with one block chain per kind of object.
 */
module Mmi {
  import opened Asn1
  import opened Bytes
  import opened Framing
  import opened Wrappers

  // Object tags, section 8.6 of EN 50221.
  const TAG_TEXT_LAST: int := 0x9f8803
  const TAG_TEXT_MORE: int := 0x9f8804
  const TAG_MENU_LAST: int := 0x9f8809
  const TAG_MENU_MORE: int := 0x9f880a
  const TAG_LIST_LAST: int := 0x9f880c
  const TAG_LIST_MORE: int := 0x9f880d
  const TAG_SUBTITLE_SEGMENT_LAST: int := 0x9f880e
  const TAG_SUBTITLE_SEGMENT_MORE: int := 0x9f880f
  const TAG_SUBTITLE_DOWNLOAD_LAST: int := 0x9f8814
  const TAG_SUBTITLE_DOWNLOAD_MORE: int := 0x9f8815

  datatype Kind = Menu | List | SubtitleSegment | SubtitleDownload

  /** The block chains of a session; an absent chain is an empty one. */
  datatype Chains = Chains(menu: seq<byte>, list: seq<byte>, segment: seq<byte>, download: seq<byte>)

  const EMPTY: Chains := Chains([], [], [], [])

  function Get(c: Chains, kind: Kind): seq<byte> {
    match kind
    case Menu => c.menu
    case List => c.list
    case SubtitleSegment => c.segment
    case SubtitleDownload => c.download
  }

  function Set(c: Chains, kind: Kind, block: seq<byte>): Chains {
    match kind
    case Menu => c.(menu := block)
    case List => c.(list := block)
    case SubtitleSegment => c.(segment := block)
    case SubtitleDownload => c.(download := block)
  }

  function KindOf(tag: int): Option<Kind> {
    if tag == TAG_MENU_LAST || tag == TAG_MENU_MORE then Some(Menu)
    else if tag == TAG_LIST_LAST || tag == TAG_LIST_MORE then Some(List)
    else if tag == TAG_SUBTITLE_SEGMENT_LAST || tag == TAG_SUBTITLE_SEGMENT_MORE then Some(SubtitleSegment)
    else if tag == TAG_SUBTITLE_DOWNLOAD_LAST || tag == TAG_SUBTITLE_DOWNLOAD_MORE then Some(SubtitleDownload)
    else None
  }

  // ----- the session list as a value

  datatype Entry = Entry(number: nat, chains: Chains)

  /** The position of a session in the list, or the list's length. */
  function Index(es: seq<Entry>, n: nat): (i: nat)
    ensures i <= |es|
    ensures i < |es| ==> es[i].number == n
    ensures forall j :: 0 <= j < i ==> es[j].number != n
  {
    if es == [] || es[0].number == n then 0 else 1 + Index(es[1..], n)
  }

  predicate Known(es: seq<Entry>, n: nat) {
    Index(es, n) < |es|
  }

  predicate Unique(es: seq<Entry>) {
    forall i, j :: 0 <= i < j < |es| ==> es[i].number != es[j].number
  }

  /** The bytes waiting for the rest of an object. */
  function Pending(es: seq<Entry>, n: nat, kind: Kind): seq<byte> {
    if Known(es, n) then Get(es[Index(es, n)].chains, kind) else []
  }

  datatype Answer = Answer(entries: seq<Entry>, status: int, out: seq<byte>)

  /** A session's entry with one chain replaced. */
  function Replace(es: seq<Entry>, i: nat, kind: Kind, block: seq<byte>): seq<Entry>
    requires i < |es|
  {
    es[i := es[i].(chains := Set(es[i].chains, kind, block))]
  }

  /** `en50221_app_mmi_defragment`: 0 asks for more, 1 hands back the input, 2 a joined block, -1 is an error. */
  function Defragment(es: seq<Entry>, n: nat, tag: int, last: bool, data: seq<byte>): Answer {
    var kind := KindOf(tag);
    var es1 := if Known(es, n) || last then es else [Entry(n, EMPTY)] + es;
    if !Known(es1, n) then Answer(es, 1, data)
    else if kind.None? then Answer(es1, -1, [])
    else
      var i := Index(es1, n);
      var block := Get(es1[i].chains, kind.value) + data;
      if last then Answer(Replace(es1, i, kind.value, []), 2, block)
      else Answer(Replace(es1, i, kind.value, block), 0, [])
  }

  /** `en50221_app_mmi_clear_session` */
  function Clear(es: seq<Entry>, n: nat): seq<Entry> {
    if Known(es, n) then es[..Index(es, n)] + es[Index(es, n) + 1..] else es
  }

  lemma IndexIs(es: seq<Entry>, n: nat, i: nat)
    requires i <= |es| && (i < |es| ==> es[i].number == n)
    requires forall j :: 0 <= j < i ==> es[j].number != n
    ensures Index(es, n) == i
  {
  }

  /** A session's chain is replaced; the other chains and sessions keep theirs. */
  lemma ReplacePends(es: seq<Entry>, n: nat, kind: Kind, block: seq<byte>, m: nat, other: Kind)
    requires Known(es, n)
    ensures
      var es' := Replace(es, Index(es, n), kind, block);
      && (Unique(es) ==> Unique(es')) && (Known(es', m) <==> Known(es, m))
      && Pending(es', m, other) == if m == n && other == kind then block else Pending(es, m, other)
  {
    IndexIs(Replace(es, Index(es, n), kind, block), m, Index(es, m));
  }

  lemma AddPends(es: seq<Entry>, n: nat, m: nat, other: Kind)
    requires !Known(es, n)
    ensures
      var es' := [Entry(n, EMPTY)] + es;
      && (Unique(es) ==> Unique(es')) && (Known(es', m) <==> (Known(es, m) || m == n))
      && Pending(es', m, other) == Pending(es, m, other)
  {
    IndexIs([Entry(n, EMPTY)] + es, m, if m == n then 0 else 1 + Index(es, m));
  }

  /** Where session `m` is listed once the entry at `i` has gone. */
  lemma ClearedIndex(es: seq<Entry>, i: nat, m: nat)
    requires Unique(es) && i < |es|
    ensures
      var (es', k) := (es[..i] + es[i + 1..], Index(es, m));
      Index(es', m) == if k < i then k else if k == i then |es'| else k - 1
  {
    var (es', k) := (es[..i] + es[i + 1..], Index(es, m));
    hide Index;
    assert forall j :: 0 <= j < i ==> es'[j] == es[j];
    assert forall j :: i <= j < |es'| ==> es'[j] == es[j + 1];
    if k < |es| {
      assert forall j :: 0 <= j < |es| && j != k ==> es[j].number != m;
    }
    IndexIs(es', m, if k < i then k else if k == i then |es'| else k - 1);
  }

  /** Clearing a session empties its chains and no other's. */
  lemma ClearPends(es: seq<Entry>, n: nat, m: nat, other: Kind)
    requires Unique(es)
    ensures Unique(Clear(es, n)) && (Known(Clear(es, n), m) <==> Known(es, m) && m != n)
    ensures Pending(Clear(es, n), m, other) == if m == n then [] else Pending(es, m, other)
  {
    if Known(es, n) {
      ClearedUnique(es, Index(es, n));
      ClearedEntry(es, n, m);
      hide Index, Unique, Clear;
    }
  }

  lemma ClearedEntry(es: seq<Entry>, n: nat, m: nat)
    requires Unique(es) && Known(es, n)
    ensures Known(Clear(es, n), m) <==> Known(es, m) && m != n
    ensures Known(Clear(es, n), m) ==> Clear(es, n)[Index(Clear(es, n), m)] == es[Index(es, m)]
  {
    var (i, k) := (Index(es, n), Index(es, m));
    ClearedIndex(es, i, m);
    hide Index;
    var es' := es[..i] + es[i + 1..];
    if k < i {
      assert es'[k] == es[k];
    } else if i < k < |es| {
      assert es'[k - 1] == es[k];
    }
  }

  lemma ClearedUnique(es: seq<Entry>, i: nat)
    requires Unique(es) && i < |es|
    ensures Unique(es[..i] + es[i + 1..])
  {
    var es' := es[..i] + es[i + 1..];
    assert forall j :: 0 <= j < i ==> es'[j] == es[j];
    assert forall j :: i <= j < |es'| ==> es'[j] == es[j + 1];
  }

  /**
   One fragment: a last one returns what was pending for its key and then its own bytes, a further one joins the
   pending bytes, and every other key is left alone.
   */
  lemma DefragmentStep(es: seq<Entry>, n: nat, tag: int, last: bool, data: seq<byte>, m: nat,
      other: Kind)
    requires Unique(es)
    ensures
      var r := Defragment(es, n, tag, last, data);
      var here := m == n && KindOf(tag) == Some(other);
      && Unique(r.entries)
      && ((r.status == 2 || r.status == 1) ==> last) && (r.status == 0 ==> !last)
      && (r.status == -1 ==> KindOf(tag) == None)
      && (here && last ==> r.out == Pending(es, m, other) + data)
      && Pending(r.entries, m, other) == if !here then Pending(es, m, other)
                                         else if last then [] else Pending(es, m, other) + data
  {
    var es1 := if Known(es, n) || last then es else [Entry(n, EMPTY)] + es;
    if !Known(es, n) {
      AddPends(es, n, m, other);
      if last {
        assert [] + data == data;
      }
    }
    if Known(es1, n) && KindOf(tag).Some? {
      var block := if last then [] else Get(es1[Index(es1, n)].chains, KindOf(tag).value) + data;
      ReplacePends(es1, n, KindOf(tag).value, block, m, other);
    }
  }

  // ----- whole runs

  datatype Call = Fragment(number: nat, tag: int, last: bool, data: seq<byte>) | ClearSession(session: nat)

  function Take(es: seq<Entry>, c: Call): seq<Entry> {
    match c
    case Fragment(n, tag, last, data) => Defragment(es, n, tag, last, data).entries
    case ClearSession(n) => Clear(es, n)
  }

  /** The session list after the calls, starting from none. */
  function After(calls: seq<Call>): seq<Entry> {
    if calls == [] then [] else Take(After(calls[..|calls| - 1]), calls[|calls| - 1])
  }

  /** The further fragments for a key since its last one, or since its session was cleared, joined. */
  function Collected(calls: seq<Call>, n: nat, kind: Kind): seq<byte> {
    if calls == [] then []
    else
      var (before, c) := (calls[..|calls| - 1], calls[|calls| - 1]);
      match c
      case ClearSession(m) => if m == n then [] else Collected(before, n, kind)
      case Fragment(m, tag, last, data) =>
        if m != n || KindOf(tag) != Some(kind) then Collected(before, n, kind)
        else if last then []
        else Collected(before, n, kind) + data
  }

  /** In every run a session is listed at most once, and each key's pending bytes are those collected for it. */
  lemma {:induction false} RunPends(calls: seq<Call>, n: nat, kind: Kind)
    ensures Unique(After(calls)) && Pending(After(calls), n, kind) == Collected(calls, n, kind)
  {
    hide Pending, Unique, Defragment, Clear;
    if calls == [] {
      NothingPends(n, kind);
    } else {
      var before := calls[..|calls| - 1];
      RunPends(before, n, kind);
      match calls[|calls| - 1]
      case Fragment(m, tag, last, data) => DefragmentStep(After(before), m, tag, last, data, n, kind);
      case ClearSession(m) => ClearPends(After(before), m, n, kind);
    }
  }

  lemma NothingPends(n: nat, kind: Kind)
    ensures Unique([]) && Pending([], n, kind) == [] && !Known([], n)
  {
  }

  /** After any run, a last fragment is answered with all fragments of its key, in order. */
  lemma KindReturnsWhole(calls: seq<Call>, n: nat, tag: int, data: seq<byte>)
    requires KindOf(tag).Some?
    ensures
      var r := Defragment(After(calls), n, tag, true, data);
      (r.status == 1 || r.status == 2) && r.out == Collected(calls, n, KindOf(tag).value) + data
  {
    RunPends(calls, n, KindOf(tag).value);
    DefragmentStep(After(calls), n, tag, true, data, n, KindOf(tag).value);
  }

  // ----- which fragments belong together

  /** Of each kind of object, the tags of its further fragments and of its last one; section 8.6 of EN 50221. */
  predicate Belong(more: int, last: int) {
    || (more == 0x9f880a && last == 0x9f8809) // menu
    || (more == 0x9f880d && last == 0x9f880c) // list
    || (more == 0x9f880f && last == 0x9f880e) // subtitle segment
    || (more == 0x9f8815 && last == 0x9f8814) // subtitle download
  }

  /**
   The data of further fragments with these tags in a session since the last one, or since the session was cleared.
   */
  function Gathered(calls: seq<Call>, n: nat, tags: (int, int)): seq<byte> {
    if calls == [] then []
    else
      var (before, c) := (calls[..|calls| - 1], calls[|calls| - 1]);
      match c
      case ClearSession(m) => if m == n then [] else Gathered(before, n, tags)
      case Fragment(m, tag, last, data) =>
        if m != n || (tag != tags.0 && tag != tags.1) then Gathered(before, n, tags)
        else if last then []
        else Gathered(before, n, tags) + data
  }

  lemma {:induction false} GatheredIsCollected(calls: seq<Call>, n: nat, more: int, last: int)
    requires Belong(more, last)
    ensures KindOf(more).Some? && KindOf(last) == KindOf(more)
    ensures Collected(calls, n, KindOf(last).value) == Gathered(calls, n, (more, last))
  {
    if calls != [] {
      var (before, c) := (calls[..|calls| - 1], calls[|calls| - 1]);
      GatheredIsCollected(before, n, more, last);
      if c.Fragment? {
        assert KindOf(c.tag) == KindOf(last) <==> c.tag == more || c.tag == last;
      }
    }
  }

  /** A session has an entry once a further fragment has come for it, until it is cleared. */
  predicate Begun(calls: seq<Call>, n: nat) {
    calls != [] &&
    var (before, c) := (calls[..|calls| - 1], calls[|calls| - 1]);
    if c.ClearSession? then c.session != n && Begun(before, n)
    else (c.number == n && !c.last) || Begun(before, n)
  }

  lemma {:induction false} BegunIsKnown(calls: seq<Call>, n: nat)
    ensures Unique(After(calls)) && (Known(After(calls), n) <==> Begun(calls, n))
  {
    hide Index, Pending, Unique, Known;
    if calls == [] {
      NothingPends(n, Menu);
    } else {
      var before := calls[..|calls| - 1];
      BegunIsKnown(before, n);
      RunPends(calls, n, Menu);
      match calls[|calls| - 1]
      case ClearSession(m) => ClearPends(After(before), m, n, Menu);
      case Fragment(m, tag, last, data) => FragmentKnows(After(before), m, tag, last, data, n);
    }
  }

  lemma FragmentKnows(es: seq<Entry>, n: nat, tag: int, last: bool, data: seq<byte>, m: nat)
    requires Unique(es)
    ensures Known(Defragment(es, n, tag, last, data).entries, m) <==> Known(es, m) || (m == n && !last)
  {
    var es1 := if Known(es, n) || last then es else [Entry(n, EMPTY)] + es;
    if !Known(es, n) {
      AddPends(es, n, m, Menu);
    }
    if Known(es1, n) && KindOf(tag).Some? {
      var block := if last then [] else Get(es1[Index(es1, n)].chains, KindOf(tag).value) + data;
      ReplacePends(es1, n, KindOf(tag).value, block, m, Menu);
    }
  }

  /**
   After any run the last fragment of an object is answered with the data of all its further fragments and its own: as
   it came if no fragment has begun the session, and otherwise joined in a block of its own. Fragments with the tags of
   other objects, and those of other sessions, have no part in it.
   */
  lemma LastReturnsWhole(calls: seq<Call>, n: nat, more: int, last: int, tag: int, data: seq<byte>)
    requires Belong(more, last) && (tag == more || tag == last)
    ensures
      var r := Defragment(After(calls), n, tag, true, data);
      && r.status == (if Begun(calls, n) then 2 else 1)
      && r.out == Gathered(calls, n, (more, last)) + data
  {
    GatheredIsCollected(calls, n, more, last);
    KindReturnsWhole(calls, n, tag, data);
    BegunIsKnown(calls, n);
    hide Gathered, Collected, Begun, After;
  }

  /** A further fragment is kept and asks for more. */
  lemma MoreIsKept(calls: seq<Call>, n: nat, more: int, last: int, tag: int, data: seq<byte>)
    requires Belong(more, last) && (tag == more || tag == last)
    ensures
      var r := Defragment(After(calls), n, tag, false, data);
      r.status == 0 && r.out == []
  {
  }

  /** Any other tag is refused, unless a last fragment comes for a session that none has begun. */
  lemma OthersRefused(calls: seq<Call>, n: nat, tag: int, last: bool, data: seq<byte>)
    requires forall more, last :: Belong(more, last) ==> tag != more && tag != last
    ensures
      var r := Defragment(After(calls), n, tag, last, data);
      if last && !Begun(calls, n) then r.status == 1 && r.out == data else r.status == -1
  {
    BegunIsKnown(calls, n);
    assert Belong(0x9f880a, 0x9f8809) && Belong(0x9f880d, 0x9f880c) && Belong(0x9f880f, 0x9f880e) && Belong(0x9f8815, 0x9f8814);
    hide Begun, After;
  }

  // ----- text objects

  /** A text read from fragments; `Overrun` is a declared length that reaches behind the data. */
  datatype Text = BadText | Overrun | Text(status: int, text: seq<byte>, consumed: nat)

  function Joined(text: Option<seq<byte>>): seq<byte> {
    if text.Some? then text.value else []
  }

  /** The loop of `en50221_app_mmi_defragment_text`, with what it has collected and consumed so far. */
  function ReadText(data: seq<byte>, text: Option<seq<byte>>, consumed: nat): Text
    decreases |data|
  {
    if |data| < 3 then BadText
    else
      var tag := Word(Word(data[0], data[1]), data[2]);
      var length := Decode(data[3..]);
      if length.None? || (tag != TAG_TEXT_LAST && tag != TAG_TEXT_MORE) then BadText
      else
        var at := 3 + length.value.used;
        var end := at + length.value.value;
        if end > |data| then Overrun
        else if tag == TAG_TEXT_LAST then
          Text(if text.None? then 1 else 2, Joined(text) + data[at..end], consumed + end)
        else ReadText(data[end..], Some(Joined(text) + data[at..end]), consumed + end)
  }

  function TextFragment(last: bool, piece: seq<byte>): (f: seq<byte>)
    requires |piece| < 0x10000
    ensures |f| > 3
  {
    [0x9f, 0x88, if last then 0x03 else 0x04] + Field(|piece|) + piece
  }

  /** A text sent as any number of fragments and a last one. */
  function TextObject(pieces: seq<seq<byte>>, last: seq<byte>): seq<byte>
    requires |last| < 0x10000 && forall i :: 0 <= i < |pieces| ==> |pieces[i]| < 0x10000
  {
    if pieces == [] then TextFragment(true, last)
    else TextFragment(false, pieces[0]) + TextObject(pieces[1..], last)
  }

  /** A fragment in front of other data: its tag, its length and its piece. */
  lemma FragmentParts(last: bool, piece: seq<byte>, rest: seq<byte>)
    requires |piece| < 0x10000
    ensures
      var (f, n) := (TextFragment(last, piece), |Field(|piece|)|);
      var data := f + rest;
      && |f| == 3 + n + |piece| && data[..3] == [0x9f, 0x88, if last then 0x03 else 0x04]
      && Decode(data[3..]) == Some(Length(|piece|, n))
      && data[3 + n..|f|] == piece && data[|f|..] == rest
  {
    var f := TextFragment(last, piece);
    var data := f + rest;
    DecodeField(|piece|, piece + rest);
    hide Field, Decode;
    assert data[3..] == Field(|piece|) + (piece + rest);
  }

  lemma ReadFragment(last: bool, piece: seq<byte>, rest: seq<byte>, text: Option<seq<byte>>,
    consumed: nat)
    requires |piece| < 0x10000
    ensures
      var (f, joined) := (TextFragment(last, piece), Joined(text) + piece);
      ReadText(f + rest, text, consumed)
      == if last then Text(if text.None? then 1 else 2, joined, consumed + |f|)
         else ReadText(rest, Some(joined), consumed + |f|)
  {
    FragmentParts(last, piece, rest);
    hide Field, Decode, TextFragment, Joined;
    var data := TextFragment(last, piece) + rest;
    assert data[0] == data[..3][0] && data[1] == data[..3][1] && data[2] == data[..3][2];
  }

  /** Reading a fragmented text returns all of it, consumes exactly its fragments, and looks no further. */
  lemma {:induction false} TextRoundTrip(pieces: seq<seq<byte>>, last: seq<byte>, rest: seq<byte>,
      text: Option<seq<byte>>, consumed: nat)
    requires |last| < 0x10000 && forall i :: 0 <= i < |pieces| ==> |pieces[i]| < 0x10000
    ensures ReadText(TextObject(pieces, last) + rest, text, consumed)
         == Text(if text.None? && pieces == [] then 1 else 2, Joined(text) + Concat(pieces) + last,
                 consumed + |TextObject(pieces, last)|)
    decreases |pieces|
  {
    hide ReadText, TextFragment;
    if pieces == [] {
      assert Joined(text) + Concat(pieces) == Joined(text);
      ReadFragment(true, last, rest, text, consumed);
    } else {
      var (f, more) := (TextFragment(false, pieces[0]), TextObject(pieces[1..], last));
      assert TextObject(pieces, last) + rest == f + (more + rest);
      ReadFragment(false, pieces[0], more + rest, text, consumed);
      TextRoundTrip(pieces[1..], last, rest, Some(Joined(text) + pieces[0]), consumed + |f|);
      assert Joined(text) + pieces[0] + Concat(pieces[1..]) == Joined(text) + Concat(pieces);
    }
  }

  /** A fragment of a text, with its length in any of the forms that can be read. */
  predicate IsFragment(f: seq<byte>, last: bool, piece: seq<byte>) {
    && |f| > 3 && f[..3] == [0x9f, 0x88, if last then 0x03 else 0x04]
    && Decode(f[3..]).Some?
    && var l := Decode(f[3..]).value;
       l.value == |piece| && |f| == 3 + l.used + |piece| && f[3 + l.used..] == piece
  }

  /** The bytes are these fragments, the last of them marked as such. */
  ghost predicate AreFragments(bytes: seq<byte>, pieces: seq<seq<byte>>, last: seq<byte>)
    decreases |pieces|
  {
    if pieces == [] then IsFragment(bytes, true, last)
    else
      exists n :: 0 <= n <= |bytes| && IsFragment(bytes[..n], false, pieces[0]) && AreFragments(bytes[n..], pieces[1..], last)
  }

  /** The bytes are fragments that carry the text, behind what had been collected before. */
  ghost predicate Carries(bytes: seq<byte>, before: Option<seq<byte>>, status: int, text: seq<byte>) {
    exists pieces: seq<seq<byte>>, last: seq<byte> ::
      && AreFragments(bytes, pieces, last) && text == Joined(before) + Concat(pieces) + last
      && status == if before.None? && pieces == [] then 1 else 2
  }

  /** What the first turn of the loop finds, if a text comes out in the end. */
  lemma ReadStep(data: seq<byte>, text: Option<seq<byte>>, consumed: nat) returns (last: bool, piece: seq<byte>, end: nat)
    requires ReadText(data, text, consumed).Text?
    ensures 0 < end <= |data| && IsFragment(data[..end], last, piece)
    ensures ReadText(data, text, consumed)
         == if last then Text(if text.None? then 1 else 2, Joined(text) + piece, consumed + end)
            else ReadText(data[end..], Some(Joined(text) + piece), consumed + end)
  {
    var l := Decode(data[3..]).value;
    end := 3 + l.used + l.value;
    last, piece := data[2] == 0x03, data[3 + l.used..end];
    var f := data[..end];
    assert f[3..] == data[3..end];
    DecodeCut(data[3..], l.used + l.value);
    assert data[3..][..l.used + l.value] == f[3..];
    assert f[3 + l.used..] == piece;
  }

  lemma DecodeCut(s: seq<byte>, n: nat)
    requires Decode(s).Some? && Decode(s).value.used <= n <= |s|
    ensures Decode(s[..n]) == Decode(s)
  {
  }

  lemma CarriesLast(bytes: seq<byte>, piece: seq<byte>, before: Option<seq<byte>>)
    requires IsFragment(bytes, true, piece)
    ensures Carries(bytes, before, if before.None? then 1 else 2, Joined(before) + piece)
  {
    hide IsFragment;
    assert AreFragments(bytes, [], piece);
    assert Joined(before) + Concat([]) + piece == Joined(before) + piece;
  }

  lemma CarriesMore(bytes: seq<byte>, n: nat, piece: seq<byte>, before: Option<seq<byte>>, status: int, text: seq<byte>)
    requires n <= |bytes| && IsFragment(bytes[..n], false, piece)
    requires Carries(bytes[n..], Some(Joined(before) + piece), status, text)
    ensures Carries(bytes, before, status, text)
  {
    hide IsFragment;
    var so := Joined(before) + piece;
    var pieces: seq<seq<byte>>, last: seq<byte> :|
      AreFragments(bytes[n..], pieces, last) && text == so + Concat(pieces) + last && status == 2;
    assert ([piece] + pieces)[1..] == pieces;
    assert AreFragments(bytes, [piece] + pieces, last);
    assert so + Concat(pieces) == Joined(before) + Concat([piece] + pieces);
  }

  /** A text is read only from the fragments of one, and is what they carry. */
  lemma {:induction false} TextOnlyOf(data: seq<byte>, text: Option<seq<byte>>, consumed: nat)
    requires ReadText(data, text, consumed).Text?
    ensures
      var r := ReadText(data, text, consumed);
      && consumed <= r.consumed <= consumed + |data|
      && Carries(data[..r.consumed - consumed], text, r.status, r.text)
    decreases |data|
  {
    hide ReadText, IsFragment, Carries, Joined;
    var last, piece, end := ReadStep(data, text, consumed);
    if last {
      CarriesLast(data[..end], piece, text);
    } else {
      TextOnlyOf(data[end..], Some(Joined(text) + piece), consumed + end);
      var r := ReadText(data, text, consumed);
      var bytes := data[..r.consumed - consumed];
      assert bytes[..end] == data[..end] && bytes[end..] == data[end..][..r.consumed - consumed - end];
      CarriesMore(bytes, end, piece, text, r.status, r.text);
    }
  }

  method DefragmentText(bytes: seq<byte>) returns (r: Text)
    ensures r == ReadText(bytes, None, 0)
  {
    var (data, consumed) := (bytes, 0);
    var text: Option<seq<byte>> := None;
    while true
      invariant consumed >= 0 && ReadText(bytes, None, 0) == ReadText(data, text, consumed)
      decreases |data|
    {
      if |data| < 3 {
        return BadText;
      }
      var tag := Word(Word(data[0], data[1]), data[2]);
      var length := Decode(data[3..]);
      if length.None? || (tag != TAG_TEXT_LAST && tag != TAG_TEXT_MORE) {
        return BadText;
      }
      var at := 3 + length.value.used;
      var end := at + length.value.value;
      if end > |data| {
        return Overrun;
      }
      var joined := Joined(text) + data[at..end];
      if tag == TAG_TEXT_LAST {
        return Text(if text.None? then 1 else 2, joined, consumed + end);
      }
      data, text, consumed := data[end..], Some(joined), consumed + end;
    }
  }

  // ----- the session list as the library keeps it

  class Node {
    const number: nat
    var chains: Chains
    var next: Node?

    constructor (number: nat, next: Node?)
      ensures this.number == number && chains == EMPTY && this.next == next
    {
      this.number, this.chains, this.next := number, EMPTY, next;
    }
  }

  class SessionList {
    var head: Node?
    ghost var nodes: seq<Node>

    ghost predicate Valid()
      reads this, nodes
    {
      && (forall i, j :: 0 <= i < j < |nodes| ==> nodes[i] != nodes[j])
      && (forall i {:trigger nodes[i].next} :: 0 <= i < |nodes| ==> nodes[i].next == At(i + 1))
      && head == At(0)
    }

    /** The node at a position, and null behind the last. */
    ghost function At(i: nat): Node?
      reads this
    {
      if i < |nodes| then nodes[i] else null
    }

    ghost function Value(): (es: seq<Entry>)
      reads this, nodes
      ensures |es| == |nodes|
    {
      seq(|nodes|, i requires 0 <= i < |nodes| reads this, nodes => Entry(nodes[i].number, nodes[i].chains))
    }

    constructor ()
      ensures Valid() && Value() == After([]) && nodes == []
    {
      head, nodes := null, [];
    }

    /** The search of `en50221_app_mmi_defragment`. */
    method Find(n: nat) returns (cur: Node?)
      requires Valid()
      ensures cur == At(Index(Value(), n))
    {
      cur := head;
      ghost var i := 0;
      while cur != null && cur.number != n
        invariant 0 <= i <= |nodes| && cur == At(i)
        invariant forall j :: 0 <= j < i ==> nodes[j].number != n
        decreases |nodes| - i
      {
        cur := cur.next;
        i := i + 1;
      }
      IndexIs(Value(), n, i);
    }

    method DefragmentOne(n: nat, tag: int, last: bool, indata: seq<byte>) returns (status: int, outdata: seq<byte>)
      requires Valid()
      modifies this, nodes
      ensures Valid() && Answer(Value(), status, outdata) == Defragment(old(Value()), n, tag, last, indata)
      ensures nodes == old(nodes) || (nodes != [] && fresh(nodes[0]) && nodes[1..] == old(nodes))
    {
      outdata := [];
      var cur := Find(n);
      if cur == null {
        if last {
          return 1, indata;
        }
        cur := new Node(n, head);
        Insert(cur);
      }
      var kind := KindOf(tag);
      if kind.None? {
        return -1, outdata;
      }
      ghost var i := Index(Value(), n);
      assert cur == nodes[i];
      var block := Get(cur.chains, kind.value) + indata;
      if last {
        SetChain(cur, i, kind.value, []);
        return 2, block;
      }
      SetChain(cur, i, kind.value, block);
      return 0, outdata;
    }

    method Insert(node: Node)
      requires Valid() && node !in nodes && node.next == head && node.chains == EMPTY
      modifies this
      ensures Valid() && nodes == [node] + old(nodes)
      ensures Value() == [Entry(node.number, EMPTY)] + old(Value())
    {
      nodes := [node] + nodes;
      head := node;
    }

    method SetChain(node: Node, ghost i: nat, kind: Kind, block: seq<byte>)
      requires Valid() && i < |nodes| && nodes[i] == node
      modifies node
      ensures Valid() && nodes == old(nodes)
      ensures Value() == Replace(old(Value()), i, kind, block)
    {
      node.chains := Set(node.chains, kind, block);
    }

    method ClearOne(n: nat)
      requires Valid()
      modifies this, nodes
      ensures Valid() && Value() == Clear(old(Value()), n)
    {
      var cur, prev: Node? := head, null;
      ghost var i := 0;
      while cur != null
        invariant 0 <= i <= |nodes| && cur == At(i) && prev == if i == 0 then null else nodes[i - 1]
        invariant forall j :: 0 <= j < i ==> nodes[j].number != n
        decreases |nodes| - i
      {
        if cur.number == n {
          IndexIs(Value(), n, i);
          Unlink(prev, i);
          return;
        }
        prev := cur;
        cur := cur.next;
        i := i + 1;
      }
      IndexIs(Value(), n, |nodes|);
    }

    method Unlink(prev: Node?, ghost i: nat)
      requires Valid() && i < |nodes| && prev == if i == 0 then null else nodes[i - 1]
      modifies this, nodes
      ensures Valid() && nodes == old(nodes[..i] + nodes[i + 1..])
      ensures Value() == old(Value())[..i] + old(Value())[i + 1..]
    {
      if prev != null {
        assert prev.next == nodes[i];
        prev.next := prev.next.next;
      } else {
        assert head == nodes[0];
        head := head.next;
      }
      nodes := nodes[..i] + nodes[i + 1..];
    }
  }
}
