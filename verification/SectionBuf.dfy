/**
 Reassembly of PSI sections from transport stream payloads, lib/libucsi/section_buf.c and section_buf.h.

 `Add` and `AddPayload` say what one call does to the bytes accumulated so far; the class does it in place.
 */
module SectionBufs {
  import opened Bytes

  const HDR: nat := 3
  const PAD: byte := 0xff
  const MINUS_ERANGE: int := -34
  const MINUS_EINVAL: int := -22

  // ----- what the accumulated bytes say

  /** The size a section announces in its first three bytes. */
  function Target(c: seq<byte>): (n: nat)
    requires |c| >= HDR
    ensures n >= HDR
  {
    HDR + Length12(c[1], c[2])
  }

  /** What is known of the size of the section: its header, or all of it once the header is there. */
  function Announced(c: seq<byte>): nat {
    if |c| < HDR then HDR else Target(c)
  }

  predicate HeaderDone(max: nat, c: seq<byte>) {
    |c| >= HDR && Target(c) <= max
  }

  predicate Complete(max: nat, c: seq<byte>) {
    HeaderDone(max, c) && |c| == Target(c)
  }

  /** The contents a buffer can have: never more than announced, and an oversized section stops at its header. */
  predicate Reachable(max: nat, c: seq<byte>) {
    && HDR <= max
    && (|c| > HDR ==> HeaderDone(max, c) && |c| <= Target(c))
    && (c != [] ==> c[0] != PAD)
  }

  predicate IsSection(max: nat, s: seq<byte>) {
    Complete(max, s) && s[0] != PAD
  }

  /** The number of padding bytes at the front. */
  function Pads(frag: seq<byte>): (n: nat)
    ensures n <= |frag| && (forall i :: 0 <= i < n ==> frag[i] == PAD)
    ensures n < |frag| ==> frag[n] != PAD
  {
    if frag != [] && frag[0] == PAD then 1 + Pads(frag[1..]) else 0
  }

  // ----- what a call does

  datatype Added = Added(contents: seq<byte>, used: int, status: int)

  /** What becomes of all the section bytes seen so far: kept whole, cut at the announced size, or refused. */
  function Keep(max: nat, all: seq<byte>): (seq<byte>, int) {
    if |all| < HDR then (all, 0)
    else if Target(all) > max then (all[..HDR], MINUS_ERANGE)
    else if |all| < Target(all) then (all, 0)
    else (all[..Target(all)], 1)
  }

  /** `section_buf_add`: new contents, bytes consumed, and status (1 complete, 0 not yet, negative on error). */
  function Add(max: nat, c: seq<byte>, frag: seq<byte>): Added
    requires Reachable(max, c)
  {
    if Complete(max, c) then Added(c, 0, 1)
    else
      var all := c + frag[if c == [] then Pads(frag) else 0..];
      var (contents, status) := Keep(max, all);
      Added(contents, if status == 1 then |frag| - (|all| - |contents|) else |frag|, status)
  }

  datatype Fed = Fed(contents: seq<byte>, wait: bool, used: int, status: int)

  /** `section_buf_add_transport_payload`. */
  function AddPayload(max: nat, c: seq<byte>, wait: bool, payload: seq<byte>, start: bool): Fed
    requires Reachable(max, c)
  {
    if Complete(max, c) then Fed(c, wait, 0, 1)
    else if wait && !start then Fed(c, wait, |payload|, 0)
    else if !start then
      var r := Add(max, c, payload);
      Fed(r.contents, wait || r.status < 0, r.used, r.status)
    else if payload == [] || payload[0] + 1 > |payload| then Fed(c, true, |payload|, MINUS_EINVAL)
    else
      var offset: int := payload[0];
      if c != [] then
        var r := Add(max, c, payload[1..1 + offset]);
        if r.used == offset && r.status == 1 then Fed(r.contents, false, 1 + r.used, 1)
        else Fed(r.contents, true, 1 + r.used, MINUS_ERANGE)
      else
        var r := Add(max, c, payload[1 + offset..]);
        Fed(r.contents, r.status < 0, 1 + offset + r.used, r.status)
  }

  lemma AddReachable(max: nat, c: seq<byte>, frag: seq<byte>)
    requires Reachable(max, c)
    ensures var r := Add(max, c, frag);
      && Reachable(max, r.contents) && 0 <= r.used <= |frag|
      && (r.status == 1 <==> Complete(max, r.contents))
      && (r.status == 1 || r.status == 0 || r.status == MINUS_ERANGE)
      && (!Complete(max, c) && frag != [] ==> r.used > 0)
      && (r.status != 1 ==> r.used == |frag|)
  {
  }

  lemma KeepSplits(max: nat, all: seq<byte>, b: seq<byte>)
    ensures Keep(max, all).1 == 1 ==> Keep(max, all + b) == Keep(max, all)
    ensures Keep(max, all).1 != 1 ==> Keep(max, all + b) == Keep(max, Keep(max, all).0 + b)
  {
    if |all| >= HDR {
      assert Target(all + b) == Target(all);
      if Target(all) > max {
        assert Target(all[..HDR] + b) == Target(all);
        assert (all + b)[..HDR] == all[..HDR] == (all[..HDR] + b)[..HDR];
      } else if |all| >= Target(all) {
        assert (all + b)[..Target(all)] == all[..Target(all)];
      }
    }
  }

  /** `Add` once any padding has been dropped: `all` is everything seen of the section, ending in `frag`. */
  function AddAll(max: nat, all: seq<byte>, len: nat): Added {
    var (contents, status) := Keep(max, all);
    Added(contents, if status == 1 then len - (|all| - |contents|) else len, status)
  }

  lemma AddIsAddAll(max: nat, c: seq<byte>, frag: seq<byte>)
    requires Reachable(max, c) && !Complete(max, c)
    ensures c != [] ==> Add(max, c, frag) == AddAll(max, c + frag, |frag|)
    ensures c == [] ==> Add(max, c, frag) == AddAll(max, frag[Pads(frag)..], |frag|)
  {
    assert frag[0..] == frag;
    assert [] + frag[Pads(frag)..] == frag[Pads(frag)..];
  }

  lemma AddAllSplits(max: nat, all: seq<byte>, la: nat, b: seq<byte>)
    requires all != [] && Reachable(max, Keep(max, all).0)
    requires Complete(max, Keep(max, all).0) <==> Keep(max, all).1 == 1
    ensures var (first, whole) := (AddAll(max, all, la), AddAll(max, all + b, la + |b|));
      var second := Add(max, first.contents, b);
      whole == Added(second.contents, first.used + second.used, second.status)
  {
    hide Complete, Reachable, Target, Add, Keep;
    KeepSplits(max, all, b);
    KeepNonEmpty(max, all);
    var (c1, st) := Keep(max, all);
    if st == 1 {
      AddComplete(max, c1, b);
    } else {
      AddIsAddAll(max, c1, b);
      KeepLength(max, all);
    }
  }

  lemma AddComplete(max: nat, c: seq<byte>, b: seq<byte>)
    requires Reachable(max, c) && Complete(max, c)
    ensures Add(max, c, b) == Added(c, 0, 1)
  {
  }

  lemma KeepNonEmpty(max: nat, all: seq<byte>)
    requires all != []
    ensures Keep(max, all).0 != []
  {
  }

  lemma KeepLength(max: nat, all: seq<byte>)
    ensures Keep(max, all).1 == 0 ==> Keep(max, all).0 == all
    ensures Keep(max, all).1 == 1 || Keep(max, all).1 == 0 || Keep(max, all).1 == MINUS_ERANGE
    ensures forall b :: Keep(max, all).1 == MINUS_ERANGE ==> Keep(max, Keep(max, all).0 + b).1 == MINUS_ERANGE
  {
  }

  /** The two-step side of the law below. */
  function AddTwice(max: nat, c: seq<byte>, a: seq<byte>, b: seq<byte>): Added
    requires Reachable(max, c)
  {
    AddReachable(max, c, a);
    var first := Add(max, c, a);
    var second := Add(max, first.contents, b);
    Added(second.contents, first.used + second.used, second.status)
  }

  lemma AddOnlyPads(max: nat, a: seq<byte>)
    requires HDR <= max && Pads(a) == |a|
    ensures Add(max, [], a) == Added([], |a|, 0)
  {
    assert [] + a[|a|..] == [];
  }

  lemma DropConcat(a: seq<byte>, b: seq<byte>, n: nat)
    requires n <= |b|
    ensures (a + b)[|a| + n..] == b[n..]
  {
  }

  lemma AddPadded(max: nat, a: seq<byte>, b: seq<byte>)
    requires HDR <= max && Pads(a) == |a|
    ensures Add(max, [], a + b) == AddAll(max, b[Pads(b)..], |a| + |b|)
  {
    hide Add, AddAll, Pads;
    PadsConcat(a, b);
    DropConcat(a, b, Pads(b));
    AddIsAddAll(max, [], a + b);
  }

  lemma PaddingSplits(max: nat, a: seq<byte>, b: seq<byte>)
    requires HDR <= max && Pads(a) == |a|
    ensures Add(max, [], a + b) == AddTwice(max, [], a, b)
  {
    hide Keep, Target, Pads, Add, Complete;
    AddPadded(max, a, b);
    AddPadded(max, [], b);
    assert [] + b == b;
    AddOnlyPads(max, a);
  }

  lemma BytesSplit(max: nat, c: seq<byte>, a: seq<byte>, b: seq<byte>, all: seq<byte>)
    requires Reachable(max, c) && !Complete(max, c) && all != []
    requires Add(max, c, a) == AddAll(max, all, |a|)
    requires Add(max, c, a + b) == AddAll(max, all + b, |a + b|)
    ensures Add(max, c, a + b) == AddTwice(max, c, a, b)
  {
    AddReachable(max, c, a);
    hide Keep, Target, Add, Reachable, Complete;
    AddAllSplits(max, all, |a|, b);
  }

  /** Feeding a fragment whole or in two pieces is the same, for every reachable buffer and every split. */
  lemma AddSplits(max: nat, c: seq<byte>, a: seq<byte>, b: seq<byte>)
    requires Reachable(max, c)
    ensures Add(max, c, a + b) == AddTwice(max, c, a, b)
  {
    hide Keep, Target, Add, AddTwice;
    if Complete(max, c) {
      CompleteSplits(max, c, a, b);
    } else if c != [] {
      AddIsAddAll(max, c, a);
      AddIsAddAll(max, c, a + b);
      assert c + (a + b) == (c + a) + b;
      BytesSplit(max, c, a, b, c + a);
    } else if Pads(a) < |a| {
      AddIsAddAll(max, c, a);
      AddIsAddAll(max, c, a + b);
      PadsConcat(a, b);
      assert (a + b)[Pads(a)..] == a[Pads(a)..] + b;
      BytesSplit(max, c, a, b, a[Pads(a)..]);
    } else {
      PaddingSplits(max, a, b);
    }
  }

  lemma CompleteSplits(max: nat, c: seq<byte>, a: seq<byte>, b: seq<byte>)
    requires Reachable(max, c) && Complete(max, c)
    ensures Add(max, c, a + b) == AddTwice(max, c, a, b)
  {
  }

  lemma {:induction false} PadsConcat(a: seq<byte>, b: seq<byte>)
    ensures Pads(a + b) == if Pads(a) == |a| then |a| + Pads(b) else Pads(a)
  {
    if a == [] {
      assert a + b == b;
    } else if a[0] == PAD {
      assert (a + b)[1..] == a[1..] + b;
      PadsConcat(a[1..], b);
    }
  }

  /** Every call on an incomplete section with a non-empty payload consumes between one byte and all of it. */
  lemma AddPayloadProgress(max: nat, c: seq<byte>, wait: bool, payload: seq<byte>, start: bool)
    requires Reachable(max, c)
    ensures var r := AddPayload(max, c, wait, payload, start);
      && Reachable(max, r.contents) && 0 <= r.used <= |payload|
      && (!Complete(max, c) && payload != [] ==> r.used > 0)
      && (r.status == 0 ==> !Complete(max, r.contents))
      && (r.status == 1 ==> Complete(max, r.contents))
      && (r.status == 1 || r.status == 0 || r.status == MINUS_ERANGE || r.status == MINUS_EINVAL)
  {
    hide Complete, Reachable, Target, Add;
    AddReachable(max, c, payload);
    if start && payload != [] && payload[0] + 1 <= |payload| {
      AddReachable(max, c, payload[1..1 + payload[0]]);
      AddReachable(max, c, payload[1 + payload[0]..]);
    }
  }

  /**
   After `section_buf_reset` payloads without the start indicator are skipped exactly when the buffer was
   waiting before: resetting alone does not make it wait, though the header file says so.
   */
  lemma ResetWaitsIff(max: nat, wait: bool, payload: seq<byte>)
    requires HDR <= max && Pads(payload) < |payload|
    ensures AddPayload(max, [], wait, payload, false).contents == [] <==> wait
  {
    AddIsAddAll(max, [], payload);
    KeepNonEmpty(max, payload[Pads(payload)..]);
  }

  // ----- the buffer itself

  class SectionBuf {
    var max: nat
    var count: nat
    var len: nat
    var header: bool
    var waitPdu: bool
    const data: array<byte>

    ghost predicate Valid()
      reads this, data
    {
      && HDR <= max <= data.Length && count <= max
      && Reachable(max, data[..count])
      && (header <==> HeaderDone(max, data[..count]))
      && (header ==> len == Target(data[..count])) && len == Announced(data[..count])
    }

    function Contents(): (c: seq<byte>)
      requires count <= data.Length
      reads this, data
    {
      data[..count]
    }

    /** The caller provides room for `space` bytes behind the structure. */
    constructor (space: nat)
      ensures data.Length == space && fresh(data)
    {
      data := new byte[space](_ => 0);
    }

    method Init(newMax: int) returns (r: int)
      requires newMax <= data.Length
      modifies this
      ensures newMax < HDR ==> r == MINUS_EINVAL && unchanged(this)
      ensures newMax >= HDR ==> r == 0 && Valid() && Contents() == [] && waitPdu && max == newMax
    {
      if newMax < HDR {
        return MINUS_EINVAL;
      }
      count, header := 0, false;
      max := newMax;
      len := HDR;
      waitPdu := true;
      return 0;
    }

    method Reset()
      requires Valid()
      modifies this
      ensures Valid() && Contents() == [] && waitPdu == old(waitPdu) && max == old(max)
    {
      var tmp := waitPdu;
      var _ := Init(max);
      waitPdu := tmp;
    }

    /** `memcpy` behind the bytes already there. */
    method CopyIn(frag: seq<byte>, from: nat, n: nat)
      requires from + n <= |frag| && count + n <= data.Length
      modifies data, this`count
      ensures count == old(count) + n
      ensures Contents() == old(Contents()) + frag[from..from + n]
    {
      var i := 0;
      while i < n
        invariant 0 <= i <= n && count == old(count)
        invariant data[..count] == old(data[..count])
        invariant data[count..count + i] == frag[from..from + i]
      {
        data[count + i] := frag[from + i];
        assert data[count..count + i + 1] == data[count..count + i] + [frag[from + i]];
        assert frag[from..from + i + 1] == frag[from..from + i] + [frag[from + i]];
        i := i + 1;
      }
      assert data[..count + n] == data[..count] + data[count..count + n];
      count := count + n;
    }

    /** `section_buf_remaining`: as long as the header is incomplete, what is missing of it. */
    method Remaining() returns (r: int)
      requires Valid()
      ensures r == Announced(Contents()) - |Contents()|
    {
      r := len - count;
    }

    /** Drops padding in front of a section. */
    method SkipPadding(frag: seq<byte>) returns (pos: nat)
      ensures pos == Pads(frag)
    {
      pos := 0;
      while pos < |frag| && frag[pos] == PAD
        invariant 0 <= pos <= |frag|
        invariant Pads(frag) == pos + Pads(frag[pos..])
      {
        assert frag[pos..][1..] == frag[pos + 1..];
        pos := pos + 1;
      }
    }

    /** Takes bytes from `frag` until `upTo` have been accumulated or none are left. */
    method Take(frag: seq<byte>, pos: nat, upTo: nat, ghost all: seq<byte>) returns (next: nat)
      requires pos <= |frag| && count <= upTo <= data.Length
      requires all == Contents() + frag[pos..]
      modifies data, this`count
      ensures pos <= next <= |frag| && next - pos == count - old(count)
      ensures count == Min(upTo, |all|) && Contents() == all[..count] && all == Contents() + frag[next..]
    {
      var copy := Min(upTo - count, |frag| - pos);
      CopyIn(frag, pos, copy);
      next := pos + copy;
    }

    method AddFragment(frag: seq<byte>) returns (used: int, status: int)
      requires Valid()
      modifies this, data
      ensures Valid() && max == old(max) && waitPdu == old(waitPdu)
      ensures Added(Contents(), used, status) == Add(max, old(Contents()), frag)
    {
      hide Add, Keep, Pads, Target, Reachable, HeaderDone, Announced;
      ghost var c := Contents();
      AnnouncedIs(c);
      if header && len == count {
        AddFinished(max, c, frag);
        return 0, 1;
      }
      status := 0;
      var pos := 0;
      if count == 0 {
        pos := SkipPadding(frag);
      }
      ghost var all, skip := c + frag[pos..], pos;
      GatheredTarget(max, c, frag, skip, all);
      if count == 0 && pos == |frag| {
        AddShort(max, c, frag, skip, all);
        return pos, 0;
      }
      if !header {
        pos, status := GrabHeader(frag, pos, c, skip, all);
        if !header {
          return pos, status;
        }
      }
      used, status := Accumulate(frag, pos, c, skip, all);
    }

    /** The header is completed as far as `frag` reaches, and the size that it announces is checked. */
    method GrabHeader(frag: seq<byte>, pos: nat, ghost c: seq<byte>, ghost skip: nat, ghost all: seq<byte>)
      returns (next: nat, status: int)
      requires pos <= |frag| && pos == skip && !header && HDR <= max <= data.Length && count <= HDR
      requires c == Contents() && len == Announced(c) && Gathered(max, c, frag, skip, all)
      modifies data, this`count, this`len, this`header
      ensures count <= max
      ensures !header ==> Valid() && Added(Contents(), next, status) == Add(max, c, frag)
      ensures header ==>
        && next <= |frag| && count <= len <= max && |all| >= HDR && len == Target(all)
        && all == Contents() + frag[next..] && next - skip == count - |c|
    {
      hide Add, Keep, Pads, Target, Reachable, HeaderDone, Announced;
      AnnouncedIs(c);
      next := Take(frag, pos, HDR, all);
      AnnouncedIs(Contents());
      if count != HDR {
        assert all[..|all|] == all;
        AddShort(max, c, frag, skip, all);
        return next, 0;
      }
      len := HDR + Length12(data[1], data[2]);
      TargetIs(data[..count], all);
      if len > max {
        AddOversize(max, c, frag, skip, all);
        return |frag|, MINUS_ERANGE;
      }
      header, status := true, 0;
    }

    /** The header is there and announces a size that fits: the rest of the fragment is accumulated up to that size. */
    method Accumulate(frag: seq<byte>, pos: nat, ghost c: seq<byte>, ghost skip: nat, ghost all: seq<byte>)
      returns (used: int, status: int)
      requires pos <= |frag| && count <= len <= max <= data.Length && header && Gathered(max, c, frag, skip, all)
      requires all == Contents() + frag[pos..] && |all| >= HDR && len == Target(all)
      requires pos - skip == count - |c|
      modifies this`count, data
      ensures Valid() && Added(Contents(), used, status) == Add(max, c, frag)
    {
      hide Add, Keep, Pads, Target, Reachable, HeaderDone, Announced;
      var next := Take(frag, pos, len, all);
      AddTake(max, c, frag, skip, all, count);
      AnnouncedIs(Contents());
      status := if header && len == count then 1 else 0;
      used := next;
    }

    method AddTransportPayload(payload: seq<byte>, pduStart: bool) returns (used: int, status: int)
      requires Valid()
      modifies this, data
      ensures Valid() && max == old(max)
      ensures Fed(Contents(), waitPdu, used, status)
           == AddPayload(max, old(Contents()), old(waitPdu), payload, pduStart)
    {
      hide Add, Target, Reachable, HeaderDone;
      used := 0;
      if header && len == count {
        return 0, 1;
      }
      if waitPdu && !pduStart {
        return |payload|, 0;
      }
      if pduStart {
        waitPdu := false;
        if |payload| == 0 || payload[0] + 1 > |payload| {
          waitPdu := true;
          return |payload|, MINUS_EINVAL;
        }
        var offset: int := payload[0];
        if count != 0 {
          var tmp, st := AddFragment(payload[1..1 + offset]);
          AddReachable(max, old(Contents()), payload[1..1 + offset]);
          if tmp != offset || len != count || st != 1 {
            waitPdu := true;
            return 1 + tmp, MINUS_ERANGE;
          }
          return 1 + tmp, 1;
        }
        used := 1 + offset;
      }
      var tmp, st := AddFragment(payload[used..]);
      assert payload[0..] == payload;
      if st < 0 {
        waitPdu := true;
      }
      return used + tmp, st;
    }
  }

  // ----- the exits of AddFragment

  lemma AddFinished(max: nat, c: seq<byte>, frag: seq<byte>)
    requires HeaderDone(max, c) && |c| == Target(c) && Reachable(max, c)
    ensures Add(max, c, frag) == Added(c, 0, 1)
  {
  }

  lemma TargetIs(c: seq<byte>, all: seq<byte>)
    requires HDR <= |c| <= |all| && c == all[..|c|]
    ensures Target(c) == Target(all) == HDR + Length12(c[1], c[2])
  {
  }

  /** `all` is what remains of `frag` behind the contents `c`, once padding has been dropped. */
  ghost predicate Gathered(max: nat, c: seq<byte>, frag: seq<byte>, skip: nat, all: seq<byte>) {
    && Reachable(max, c) && !Complete(max, c)
    && skip == (if c == [] then Pads(frag) else 0)
    && all == c + frag[skip..]
  }

  lemma AnnouncedIs(c: seq<byte>)
    ensures Announced(c) == if |c| < HDR then HDR else Target(c)
  {
  }

  lemma GatheredTarget(max: nat, c: seq<byte>, frag: seq<byte>, skip: nat, all: seq<byte>)
    requires Gathered(max, c, frag, skip, all)
    ensures HeaderDone(max, c) ==> |c| <= Target(c) && |all| >= HDR && Target(all) == Target(c) <= max
    ensures !HeaderDone(max, c) ==> |c| <= HDR
  {
  }

  lemma AddShort(max: nat, c: seq<byte>, frag: seq<byte>, skip: nat, all: seq<byte>)
    requires Gathered(max, c, frag, skip, all) && |all| < HDR
    ensures Add(max, c, frag) == Added(all, |frag|, 0)
    ensures Reachable(max, all) && !HeaderDone(max, all)
  {
  }

  lemma AddOversize(max: nat, c: seq<byte>, frag: seq<byte>, skip: nat, all: seq<byte>)
    requires Gathered(max, c, frag, skip, all) && |all| >= HDR && Target(all) > max
    ensures Add(max, c, frag) == Added(all[..HDR], |frag|, MINUS_ERANGE)
    ensures Reachable(max, all[..HDR]) && !HeaderDone(max, all[..HDR])
  {
  }

  lemma AddTake(max: nat, c: seq<byte>, frag: seq<byte>, skip: nat, all: seq<byte>, m: nat)
    requires Gathered(max, c, frag, skip, all) && |all| >= HDR && Target(all) <= max
    requires m == Min(Target(all), |all|)
    ensures Add(max, c, frag) == Added(all[..m], skip + m - |c|, if m == Target(all) then 1 else 0)
    ensures Reachable(max, all[..m]) && HeaderDone(max, all[..m]) && Target(all[..m]) == Target(all)
  {
  }
}
