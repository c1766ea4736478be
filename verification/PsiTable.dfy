/**
 Which sections of a PSI table are worth processing: `section_ext_useful` and its `psi_table_state`,
 lib/libucsi/section.h.
 */
module PsiTable {

  /** The fields of an extended section header that table tracking looks at. */
  datatype Header = Header(version: nat, number: nat, last: nat) {
    predicate Valid() {
      version < 32 && number < 256 && last < 256
    }

    /** Section numbers of a table run from 0 to `last`. */
    predicate Final() {
      last <= number
    }
  }

  datatype State = State(version: nat, next: nat, complete: bool, newTable: bool)

  /** No section has this version: it does not fit the five bits of the field. */
  const NO_VERSION: nat := 0xff

  function Step(st: State, h: Header): (State, bool) {
    if h.version == st.version && st.complete then (st, false)
    else if h.version != st.version && h.number != 0 then (st, false)
    else if h.version != st.version || h.number == st.next then
      var next := ((if h.version != st.version then 0 else st.next) + 1) % 0x10000;
      var complete := (h.version == st.version && st.complete) || h.last < next;
      (State(h.version, next, complete, h.version != st.version), true)
    else (st, false)
  }

  class PsiTableState {
    var versionNumber: nat
    var nextSectionNumber: nat
    var complete: bool
    var newTable: bool

    function Value(): State
      reads this
    {
      State(versionNumber, nextSectionNumber, complete, newTable)
    }

    method Reset()
      modifies this`versionNumber
      ensures versionNumber == NO_VERSION
    {
      versionNumber := NO_VERSION;
    }

    method SectionExtUseful(h: Header) returns (useful: bool)
      modifies this
      ensures (Value(), useful) == Step(old(Value()), h)
    {
      if h.version == versionNumber && complete {
        return false;
      }
      if h.version != versionNumber {
        if h.number != 0 {
          return false;
        }
        nextSectionNumber := 0;
        complete := false;
        versionNumber := h.version;
        newTable := true;
      } else if h.number == nextSectionNumber {
        newTable := false;
      } else {
        return false;
      }
      nextSectionNumber := (nextSectionNumber + 1) % 0x10000;
      if h.last < nextSectionNumber {
        complete := true;
      }
      return true;
    }
  }

  // ----- whole runs

  predicate AllValid(hs: seq<Header>) {
    forall i :: 0 <= i < |hs| ==> hs[i].Valid()
  }

  /** The state after a run, and the sections accepted during it. */
  function Run(st: State, hs: seq<Header>): (State, seq<Header>) {
    if hs == [] then (st, [])
    else
      var (mid, accepted) := Run(st, hs[..|hs| - 1]);
      var h := hs[|hs| - 1];
      var (end, useful) := Step(mid, h);
      (end, if useful then accepted + [h] else accepted)
  }

  /**
   What a run may accept next, in terms of what it has accepted and nothing else: the first section of
   another version, or the successor of the last accepted section unless that one ended its table.
   */
  predicate Wanted(accepted: seq<Header>, h: Header) {
    if accepted == [] || accepted[|accepted| - 1].version != h.version then h.number == 0
    else var previous := accepted[|accepted| - 1];
      !previous.Final() && h.number == previous.number + 1
  }

  function Wanting(hs: seq<Header>): seq<Header> {
    if hs == [] then []
    else
      var accepted := Wanting(hs[..|hs| - 1]);
      var h := hs[|hs| - 1];
      if Wanted(accepted, h) then accepted + [h] else accepted
  }

  /** How the state of a run that began with a reset mirrors its accepted sections. */
  predicate Mirrors(st: State, accepted: seq<Header>) {
    if accepted == [] then st.version == NO_VERSION
    else
      var previous := accepted[|accepted| - 1];
      && st.version == previous.version < 32
      && st.next == previous.number + 1 <= 256
      && st.complete == previous.Final()
      && st.newTable == (|accepted| == 1 || accepted[|accepted| - 2].version != previous.version)
  }

  /** Every accepted section continues its table, or is the first of another version. */
  predicate InBlocks(accepted: seq<Header>) {
    forall i :: 0 <= i < |accepted| ==>
      if i == 0 || accepted[i - 1].version != accepted[i].version then accepted[i].number == 0
      else !accepted[i - 1].Final() && accepted[i].number == accepted[i - 1].number + 1
  }

  lemma StepMirrors(st: State, accepted: seq<Header>, h: Header)
    requires Mirrors(st, accepted) && h.Valid()
    ensures Step(st, h).1 == Wanted(accepted, h)
    ensures Mirrors(Step(st, h).0, if Step(st, h).1 then accepted + [h] else accepted)
  {
    if accepted != [] && Step(st, h).1 {
      assert (accepted + [h])[|accepted| - 1] == accepted[|accepted| - 1];
    }
  }

  /** Every run from a reset, whatever the other fields held, accepts exactly the wanted sections. */
  lemma {:induction false} RunAcceptsWanted(st: State, hs: seq<Header>)
    requires st.version == NO_VERSION && AllValid(hs)
    ensures Run(st, hs).1 == Wanting(hs)
    ensures Mirrors(Run(st, hs).0, Wanting(hs))
  {
    if hs != [] {
      var (front, h) := (hs[..|hs| - 1], hs[|hs| - 1]);
      RunAcceptsWanted(st, front);
      StepMirrors(Run(st, front).0, Wanting(front), h);
    }
  }

  lemma {:induction false} WantingInBlocks(hs: seq<Header>)
    ensures InBlocks(Wanting(hs))
  {
    if hs != [] {
      WantingInBlocks(hs[..|hs| - 1]);
    }
  }

  /**
   The accepted sections of any run from a reset fall into blocks, one for each version change, numbered
   0, 1, 2, ... without gap or repeat; a block is complete exactly when a number has reached its
   last_section_number; after that nothing of its version is accepted; next_section_number is at most 256.
   */
  lemma RunInBlocks(st: State, hs: seq<Header>)
    requires st.version == NO_VERSION && AllValid(hs)
    ensures var (end, accepted) := Run(st, hs);
      && InBlocks(accepted)
      && (accepted != [] ==>
            && end.version == accepted[|accepted| - 1].version
            && end.next == accepted[|accepted| - 1].number + 1 <= 256
            && (end.complete <==> accepted[|accepted| - 1].Final()))
  {
    RunAcceptsWanted(st, hs);
    WantingInBlocks(hs);
  }

  // ----- a repeated table is collected once

  /** The sections of one table, in the order in which a carousel repeats them. */
  function Table(version: nat, last: nat): (t: seq<Header>)
    ensures |t| == last + 1
    ensures forall k :: 0 <= k <= last ==> t[k] == Header(version, k, last)
  {
    seq(last + 1, k requires 0 <= k <= last => Header(version, k, last))
  }

  lemma {:induction false} RunConcat(st: State, a: seq<Header>, b: seq<Header>)
    ensures Run(st, a + b).0 == Run(Run(st, a).0, b).0
    ensures Run(st, a + b).1 == Run(st, a).1 + Run(Run(st, a).0, b).1
    decreases |b|
  {
    if b == [] {
      assert a + b == a;
    } else {
      RunConcat(st, a, b[..|b| - 1]);
      assert (a + b)[..|a + b| - 1] == a + b[..|b| - 1];
    }
  }

  lemma {:induction false} TailIgnored(st: State, hs: seq<Header>)
    requires forall i :: 0 <= i < |hs| ==>
      if hs[i].version == st.version then st.complete else hs[i].number != 0
    ensures Run(st, hs) == (st, [])
  {
    if hs != [] {
      TailIgnored(st, hs[..|hs| - 1]);
    }
  }

  lemma {:induction false} PrefixCollected(st: State, version: nat, last: nat, k: nat)
    requires version != st.version && last < 256 && k <= last + 1
    ensures Run(st, Table(version, last)[..k]).1 == Table(version, last)[..k]
    ensures k > 0 ==> var end := Run(st, Table(version, last)[..k]).0;
      end.version == version && end.next == k && (end.complete <==> k == last + 1)
  {
    if k > 0 {
      PrefixCollected(st, version, last, k - 1);
      assert Table(version, last)[..k][..k - 1] == Table(version, last)[..k - 1];
    } else {
      assert Table(version, last)[..0] == [];
    }
  }

  /**
   Tuning in anywhere in a carousel of a new version, listening to its end and then to `cycles` whole
   repetitions, collects every section of the table once and in order.
   */
  lemma CarouselCollected(st: State, version: nat, last: nat, from: nat, cycles: nat)
    requires version != st.version && last < 256 && 0 < from <= last + 1
    ensures var t := Table(version, last);
      var (end, accepted) := Run(st, t[from..] + t + Repeat(t, cycles));
      accepted == t && end.complete && end.version == version
  {
    hide Run;
    var t := Table(version, last);
    TailIgnored(st, t[from..]);
    PrefixCollected(st, version, last, last + 1);
    assert t[..last + 1] == t;
    var done := Run(st, t).0;
    RepeatVersions(t, version, cycles);
    TailIgnored(done, Repeat(t, cycles));
    RunConcat(st, t[from..], t);
    RunConcat(st, t[from..] + t, Repeat(t, cycles));
  }

  function Repeat(t: seq<Header>, cycles: nat): seq<Header> {
    if cycles == 0 then [] else t + Repeat(t, cycles - 1)
  }

  lemma {:induction false} RepeatVersions(t: seq<Header>, version: nat, cycles: nat)
    requires forall i :: 0 <= i < |t| ==> t[i].version == version
    ensures forall i :: 0 <= i < |Repeat(t, cycles)| ==> Repeat(t, cycles)[i].version == version
  {
    if cycles > 0 {
      RepeatVersions(t, version, cycles - 1);
    }
  }
}
