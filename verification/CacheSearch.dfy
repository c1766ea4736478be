/**
 The search of `cache_foreach_pg`, util/alevt/cache.c: positions (page number, subpage number) are visited in
 cyclic order from the start, up or down, over those that the subpage index covers.
 */
module CacheSearch {
  import opened CacheModel
  import opened Pages
  import opened Wrappers

  const SPAN: int := 0x10000
  const ROUND: int := 0x900 * 0x10000

  predicate IsDir(dir: int) {
    dir == 1 || dir == -1
  }

  predicate IsCode(c: int) {
    0 <= c < ROUND
  }

  /** Positions in one row: page by page, and within a page subpage by subpage. */
  function Code(pgno: int, subno: int): int {
    (pgno - FIRST_PAGE) * SPAN + subno
  }

  function Signed(dir: int, c: int): int {
    if dir > 0 then c else -c
  }

  /** When a walk that starts at `from` first gets to `c`; the start itself comes last, after a whole round. */
  function Reach(dir: int, from: int, c: int): int {
    if Signed(dir, c) > Signed(dir, from) then Signed(dir, c) else Signed(dir, c) + ROUND
  }

  /** The position is one that the index covers. */
  predicate Covered(hi: seq<nat>, pgno: int, subno: int) {
    FIRST_PAGE <= pgno <= LAST_PAGE < |hi| && 0 <= subno < hi[pgno] < SPAN
  }

  lemma CodeOfCovered(hi: seq<nat>, p: int, s: int)
    requires Covered(hi, p, s)
    ensures IsCode(Code(p, s))
  {
  }

  lemma SameCode(hi: seq<nat>, p: int, s: int, q: int, r: int)
    requires Covered(hi, p, s) && Covered(hi, q, r) && Code(p, s) == Code(q, r)
    ensures p == q && s == r
  {
  }

  /** A walk starting at `from` comes to no covered position before the time `t`. */
  ghost predicate Clear(hi: seq<nat>, dir: int, from: int, t: int) {
    forall p, s :: Covered(hi, p, s) ==> Reach(dir, from, Code(p, s)) >= t
  }

  /**
   Where the walk of the code really starts. Going down from a subpage number above the index, its first step
   leaves the page, whose subpages therefore come last.
   */
  function Effective(hi: seq<nat>, dir: int, pgno: int, subno: int): int
    requires FIRST_PAGE <= pgno <= LAST_PAGE < |hi|
  {
    if dir < 0 && subno - 1 >= hi[pgno] then Code(pgno, 0) else Code(pgno, subno)
  }

  /**
   The walk visits positions in the order that its nominal start implies, unless it goes down from a subpage number
   above those of a page that has some: then those are skipped, to come last.
   */
  lemma StartsThereIff(hi: seq<nat>, dir: int, p: int, s: int)
    requires IsDir(dir) && FIRST_PAGE <= p <= LAST_PAGE < |hi| && 0 <= s < SPAN && hi[p] < SPAN
    ensures
      (forall q, r :: Covered(hi, q, r) ==>
         Reach(dir, Effective(hi, dir, p, s), Code(q, r)) == Reach(dir, Code(p, s), Code(q, r)))
      <==> dir > 0 || s <= hi[p] || hi[p] == 0
  {
    if dir < 0 && s > hi[p] > 0 {
      assert Covered(hi, p, 0);
    } else {
      forall q, r | Covered(hi, q, r)
        ensures Reach(dir, Effective(hi, dir, p, s), Code(q, r)) == Reach(dir, Code(p, s), Code(q, r))
      {
        CodeOfCovered(hi, q, r);
      }
    }
  }

  /** The time at which the candidate position of the inner loop stands, but for whole rounds. */
  function Front(hi: seq<nat>, dir: int, p: int, s: int): int
    requires FIRST_PAGE <= p <= LAST_PAGE < |hi|
  {
    if dir > 0 then Code(p, s) else if s >= hi[p] then -Code(p, -1) else -Code(p, s)
  }

  function NextPage(dir: int, p: int): (q: int)
    requires FIRST_PAGE <= p <= LAST_PAGE && IsDir(dir)
    ensures FIRST_PAGE <= q <= LAST_PAGE
  {
    if p + dir < FIRST_PAGE then LAST_PAGE else if p + dir > LAST_PAGE then FIRST_PAGE else p + dir
  }

  /** The first subpage to try in a page, going up or down; -1 when there is none. */
  function Entry(hi: seq<nat>, dir: int, p: int): int
    requires 0 <= p < |hi|
  {
    var size: int := hi[p];
    if dir < 0 then size - 1 else 0
  }

  function Rounds(dir: int, p: int): int {
    if p + dir < FIRST_PAGE || p + dir > LAST_PAGE then 1 else 0
  }

  /** A candidate outside the index, as the inner loop meets it. */
  predicate Outside(hi: seq<nat>, dir: int, p: int, s: int) {
    && FIRST_PAGE <= p <= LAST_PAGE < |hi| && hi[p] < SPAN
    && (if dir > 0 then hi[p] <= s <= SPAN else s == -1 || hi[p] <= s < SPAN)
  }

  lemma NextPageClearAt(hi: seq<nat>, dir: int, from: int, p: int, s: int, k: int, q: int, r: int)
    requires IsDir(dir) && IsCode(from) && k >= 0 && Outside(hi, dir, p, s) && Covered(hi, q, r)
    requires hi[NextPage(dir, p)] < SPAN
    requires Reach(dir, from, Code(q, r)) >= Front(hi, dir, p, s) + ROUND * k
    ensures
      var (p', k') := (NextPage(dir, p), k + Rounds(dir, p));
      var s' := Entry(hi, dir, p');
      Reach(dir, from, Code(q, r)) >= Front(hi, dir, p', s') + ROUND * k' >= Front(hi, dir, p, s) + ROUND * k
  {
    if dir > 0 {
      UpClearAt(hi, from, p, s, k, q, r);
    } else {
      DownClearAt(hi, from, p, s, k, q, r);
    }
  }

  lemma UpClearAt(hi: seq<nat>, from: int, p: int, s: int, k: int, q: int, r: int)
    requires IsCode(from) && k >= 0 && Outside(hi, 1, p, s) && Covered(hi, q, r)
    requires Reach(1, from, Code(q, r)) >= Code(p, s) + ROUND * k
    ensures Reach(1, from, Code(q, r)) >= Code(NextPage(1, p), 0) + ROUND * (k + Rounds(1, p)) >= Code(p, s) + ROUND * k
  {
  }

  lemma DownClearAt(hi: seq<nat>, from: int, p: int, s: int, k: int, q: int, r: int)
    requires IsCode(from) && k >= 0 && Outside(hi, -1, p, s) && Covered(hi, q, r)
    requires hi[NextPage(-1, p)] < SPAN
    requires Reach(-1, from, Code(q, r)) >= -Code(p, -1) + ROUND * k
    ensures
      var (p', k') := (NextPage(-1, p), k + Rounds(-1, p));
      Reach(-1, from, Code(q, r)) >= -Code(p', Entry(hi, -1, p')) + ROUND * k' >= -Code(p, -1) + ROUND * k
  {
  }

  lemma NextPageClear(hi: seq<nat>, dir: int, from: int, p: int, s: int, k: int)
    requires IsDir(dir) && IsCode(from) && k >= 0 && Outside(hi, dir, p, s)
    requires hi[NextPage(dir, p)] < SPAN
    requires Clear(hi, dir, from, Front(hi, dir, p, s) + ROUND * k)
    ensures
      var (p', k') := (NextPage(dir, p), k + Rounds(dir, p));
      var s' := Entry(hi, dir, p');
      Clear(hi, dir, from, Front(hi, dir, p', s') + ROUND * k')
  {
    forall q, r | Covered(hi, q, r)
      ensures
        var (p', k') := (NextPage(dir, p), k + Rounds(dir, p));
        var s' := Entry(hi, dir, p');
        Reach(dir, from, Code(q, r)) >= Front(hi, dir, p', s') + ROUND * k'
    {
      NextPageClearAt(hi, dir, from, p, s, k, q, r);
    }
  }

  lemma FirstClear(hi: seq<nat>, dir: int, p: int, s: int)
    requires IsDir(dir) && FIRST_PAGE <= p <= LAST_PAGE < |hi| && 0 <= s < SPAN && hi[p] < SPAN
    ensures
      var from := Effective(hi, dir, p, s);
      && IsCode(from) && Front(hi, dir, p, s + dir) == Signed(dir, from) + 1
      && Clear(hi, dir, from, Front(hi, dir, p, s + dir))
  {
    forall q, r | Covered(hi, q, r)
      ensures Reach(dir, Effective(hi, dir, p, s), Code(q, r)) > Signed(dir, Effective(hi, dir, p, s))
    {
      CodeOfCovered(hi, q, r);
    }
  }

  /** A covered candidate is the first position that the walk comes to. */
  lemma Arrived(hi: seq<nat>, dir: int, from: int, p: int, s: int, k: int)
    requires IsDir(dir) && IsCode(from) && k >= 0 && Covered(hi, p, s)
    requires Front(hi, dir, p, s) + ROUND * k > Signed(dir, from)
    requires Clear(hi, dir, from, Front(hi, dir, p, s) + ROUND * k)
    ensures Clear(hi, dir, from, Reach(dir, from, Code(p, s)))
  {
    CodeOfCovered(hi, p, s);
    assert Reach(dir, from, Code(p, s)) == Front(hi, dir, p, s) + ROUND * k;
  }

  /** One step and the inner loop of `cache_foreach_pg`; page `n` is one that the index covers. */
  method NextPosition(hi: array<nat>, pgno: int, subno: int, dir: int, ghost n: int) returns (p: int, s: int)
    requires IsDir(dir) && hi.Length == LAST_PAGE + 1 && FIRST_PAGE <= pgno <= LAST_PAGE && 0 <= subno < SPAN
    requires forall q :: 0 <= q <= LAST_PAGE ==> hi[q] < SPAN
    requires Covered(hi[..], n, 0)
    ensures Covered(hi[..], p, s)
    ensures
      var from := Effective(hi[..], dir, pgno, subno);
      IsCode(from) && Clear(hi[..], dir, from, Reach(dir, from, Code(p, s)))
  {
    hide Clear, Effective, Reach, NextPage;
    ghost var index := hi[..];
    ghost var (from, k) := (Effective(index, dir, pgno, subno), 0);
    FirstClear(index, dir, pgno, subno);
    p, s := pgno, subno + dir;
    while s < 0 || s >= hi[p]
      invariant FIRST_PAGE <= p <= LAST_PAGE && k >= 0
      invariant Covered(index, p, s) || Outside(index, dir, p, s)
      invariant Front(index, dir, p, s) + ROUND * k > Signed(dir, from)
      invariant Clear(index, dir, from, Front(index, dir, p, s) + ROUND * k)
      decreases Reach(dir, from, Code(n, 0)) - (Front(index, dir, p, s) + ROUND * k), if s == SPAN then 1 else 0
    {
      NextPageStep(index, dir, from, p, s, k, n);
      k := k + Rounds(dir, p);
      p := p + dir;
      if p < FIRST_PAGE {
        p := LAST_PAGE;
      }
      if p > LAST_PAGE {
        p := FIRST_PAGE;
      }
      var size: int := hi[p];
      s := if dir < 0 then size - 1 else 0;
    }
    Arrived(index, dir, from, p, s, k);
  }

  lemma NextPageStep(hi: seq<nat>, dir: int, from: int, p: int, s: int, k: int, n: int)
    requires IsDir(dir) && IsCode(from) && k >= 0 && Outside(hi, dir, p, s) && Covered(hi, n, 0)
    requires hi[NextPage(dir, p)] < SPAN
    requires Clear(hi, dir, from, Front(hi, dir, p, s) + ROUND * k)
    ensures
      var (p', k') := (NextPage(dir, p), k + Rounds(dir, p));
      var s' := Entry(hi, dir, p');
      var (t, t') := (Front(hi, dir, p, s) + ROUND * k, Front(hi, dir, p', s') + ROUND * k');
      && (Covered(hi, p', s') || Outside(hi, dir, p', s'))
      && Clear(hi, dir, from, t') && t <= t' <= Reach(dir, from, Code(n, 0))
      && (t == t' ==> s == SPAN && s' != SPAN)
      && p' == (if p + dir < FIRST_PAGE then LAST_PAGE else if p + dir > LAST_PAGE then FIRST_PAGE else p + dir)
  {
    NextPageClear(hi, dir, from, p, s, k);
    assert Covered(hi, n, 0);
  }

  // ----- the pages that a walk meets

  /** A page as it is in the cache. */
  predicate Cached(st: State, p: Page)
    requires Formed(st)
  {
    p.pgno >= 0 && Find(st, p.pgno, p.subno) == Some(p)
  }

  /**
   Every lookup at a covered position gives the page of that position. Only a lookup with ANY_SUB could do
   otherwise.
   */
  ghost predicate Exact(st: State)
    requires Formed(st)
  {
    forall p, s :: Covered(st.hi, p, s) ==> Lookup(st, p, s) == Find(st, p, s)
  }

  /** The subpage number from which the code walks, and the position at which the walk then starts. */
  function StartSubno(st: State, pgno: int, subno: int, dir: int): int
    requires Formed(st) && pgno >= 0
  {
    var page := Lookup(st, pgno, subno);
    if page.Some? then page.value.subno
    else if subno == ANY_SUB then (if dir < 0 then 0 else 0xffff)
    else subno
  }

  function Start(st: State, pgno: int, subno: int, dir: int): int
    requires Formed(st) && FIRST_PAGE <= pgno <= LAST_PAGE
  {
    Effective(st.hi, dir, pgno, StartSubno(st, pgno, subno, dir))
  }

  function When(dir: int, from: int, p: Page): int {
    Reach(dir, from, Code(p.pgno, p.subno))
  }

  /** The walk has tried these pages, in its order: all that it has met by the time `t`, and none was accepted. */
  ghost predicate Tried(st: State, dir: int, from: int, t: int, accept: RawPage -> bool, trace: seq<Page>)
    requires Formed(st)
  {
    && (forall i :: 0 <= i < |trace| ==> Cached(st, trace[i]) && !accept(trace[i]) && When(dir, from, trace[i]) <= t)
    && (forall i, j :: 0 <= i < j < |trace| ==> When(dir, from, trace[i]) < When(dir, from, trace[j]))
    && (forall q: Page :: Cached(st, q) && When(dir, from, q) <= t ==> q in trace)
  }

  /** The outcome of a search: the tried pages, with the accepted one at their end, or all pages and none accepted. */
  ghost predicate Searched(st: State, dir: int, from: int, accept: RawPage -> bool, r: Option<Page>, trace: seq<Page>)
    requires Formed(st)
  {
    match r
    case None => exists t :: Tried(st, dir, from, t, accept, trace) && forall q :: Cached(st, q) ==> q in trace
    case Some(p) =>
      && trace != [] && trace[|trace| - 1] == p && accept(p) && Cached(st, p)
      && Tried(st, dir, from, When(dir, from, p) - 1, accept, trace[..|trace| - 1])
  }

  /** A search finds the first acceptable page on its way, and nothing exactly when no page is acceptable. */
  lemma SearchedFirst(st: State, dir: int, from: int, accept: RawPage -> bool, r: Option<Page>,
      trace: seq<Page>, q: Page)
    requires Formed(st) && Searched(st, dir, from, accept, r, trace) && Cached(st, q)
    ensures r.None? ==> !accept(q)
    ensures r.Some? && accept(q) ==> When(dir, from, r.value) <= When(dir, from, q)
  {
  }

  lemma FoundIsCached(st: State, pgno: int, subno: int)
    requires Inv(st) && pgno >= 0 && Lookup(st, pgno, subno).Some?
    ensures var p := Lookup(st, pgno, subno).value; p.pgno == pgno && Cached(st, p)
  {
    var p := Lookup(st, pgno, subno).value;
    FindIff(st, pgno, p.subno, p);
  }

  /** The page that the start of a search names, or that it finds for ANY_SUB, is met last. */
  lemma StartComesLast(st: State, dir: int, pgno: int, subno: int, q: Page)
    requires Inv(st) && IsDir(dir) && FIRST_PAGE <= pgno <= LAST_PAGE
    requires Lookup(st, pgno, subno).Some? && Cached(st, q)
    ensures
      var (from, p) := (Start(st, pgno, subno, dir), Lookup(st, pgno, subno).value);
      && from == Code(p.pgno, p.subno)
      && When(dir, from, q) <= When(dir, from, p)
      && (When(dir, from, q) == When(dir, from, p) ==> q == p)
  {
    var p := Lookup(st, pgno, subno).value;
    FoundIsCached(st, pgno, subno);
    FindCovered(st, p);
    FindCovered(st, q);
    CodeOfCovered(st.hi, q.pgno, q.subno);
    if Code(q.pgno, q.subno) == Code(p.pgno, p.subno) {
      OnePage(st, p, q);
    }
  }

  /** What is in the cache is covered by the index. */
  lemma FindCovered(st: State, p: Page)
    requires Inv(st) && Cached(st, p)
    ensures Covered(st.hi, p.pgno, p.subno) && Lookup(st, p.pgno, p.subno).Some?
  {
    FindIff(st, p.pgno, p.subno, p);
    var b := st.buckets[Hash(p.pgno)];
    assert BucketOk(b, Hash(p.pgno), st.hi);
    var i :| 0 <= i < |b| && b[i] == p;
    assert Matches(b[i], p.pgno, p.subno);
  }

  /** Two cached pages at one position are one page. */
  lemma OnePage(st: State, p: Page, q: Page)
    requires Inv(st) && Cached(st, p) && Cached(st, q) && Code(p.pgno, p.subno) == Code(q.pgno, q.subno)
    ensures p == q
  {
    FindCovered(st, p);
    FindCovered(st, q);
    SameCode(st.hi, p.pgno, p.subno, q.pgno, q.subno);
  }

  /**
   A walk: it stands at the code `c` in its round `m`, at the time `t`; `first` is the position at which it met its
   first page.
   */
  datatype Walk = Walk(c: int, m: nat, t: int, first: Option<(int, int)>)

  predicate Hit(st: State, p: int, s: int)
    requires Formed(st)
  {
    Covered(st.hi, p, s) && Lookup(st, p, s).Some?
  }

  ghost predicate Walking(st: State, dir: int, from: int, w: Walk)
    requires Formed(st)
  {
    && IsCode(from) && IsCode(w.c) && w.t == Signed(dir, w.c) + ROUND * w.m && Signed(dir, from) <= w.t
    && match w.first
       case None => forall p, s :: Hit(st, p, s) ==> Reach(dir, from, Code(p, s)) > w.t
       case Some(f) =>
         && Hit(st, f.0, f.1) && Reach(dir, from, Code(f.0, f.1)) <= w.t < Reach(dir, from, Code(f.0, f.1)) + ROUND
         && forall p, s :: Hit(st, p, s) ==> Reach(dir, from, Code(p, s)) >= Reach(dir, from, Code(f.0, f.1))
  }

  /** The walk after the next position. */
  function Moved(dir: int, w: Walk, p: int, s: int): Walk {
    var c := Code(p, s);
    var t := Reach(dir, w.c, c) + ROUND * w.m;
    Walk(c, if Signed(dir, c) > Signed(dir, w.c) then w.m else w.m + 1, t, w.first)
  }

  /** `Reach` is the least of the times of a code that lie after the start. */
  lemma ReachLeast(dir: int, from: int, c: int, d: int)
    requires IsDir(dir) && IsCode(from) && IsCode(c) && Signed(dir, c) + ROUND * d > Signed(dir, from)
    ensures Signed(dir, c) + ROUND * d >= Reach(dir, from, c)
  {
  }

  /** No covered position is met between two positions of a walk, in whichever round. */
  lemma NoneBetween(hi: seq<nat>, dir: int, w: Walk, p: int, s: int, q: int, r: int, j: int)
    requires IsDir(dir) && IsCode(w.c) && w.t == Signed(dir, w.c) + ROUND * w.m && Covered(hi, p, s) && Covered(hi, q, r)
    requires Reach(dir, w.c, Code(q, r)) >= Reach(dir, w.c, Code(p, s))
    requires Signed(dir, Code(q, r)) + ROUND * j > w.t
    ensures Signed(dir, Code(q, r)) + ROUND * j >= Moved(dir, w, p, s).t
  {
    CodeOfCovered(hi, p, s);
    CodeOfCovered(hi, q, r);
    var d := j - w.m;
    hide Signed, Reach, Code, IsCode, Covered;
    ReachLeast(dir, w.c, Code(q, r), d);
  }

  /** Times of first arrival lie in the first round. */
  lemma ReachRange(hi: seq<nat>, dir: int, from: int, q: int, r: int) returns (j: int)
    requires IsDir(dir) && IsCode(from) && Covered(hi, q, r)
    ensures Reach(dir, from, Code(q, r)) == Signed(dir, Code(q, r)) + ROUND * j && 0 <= j <= 1
    ensures Signed(dir, from) < Reach(dir, from, Code(q, r)) <= Signed(dir, from) + ROUND
  {
    CodeOfCovered(hi, q, r);
    j := if Signed(dir, Code(q, r)) > Signed(dir, from) then 0 else 1;
  }

  lemma Begin(st: State, dir: int, from: int)
    requires Formed(st) && IsDir(dir) && IsCode(from)
    ensures Walking(st, dir, from, Walk(from, 0, Signed(dir, from), None))
  {
  }

  /** The walk is bounded while some page is stored. */
  lemma Bounded(st: State, dir: int, from: int, w: Walk, p: int, s: int)
    requires Formed(st) && IsDir(dir) && Walking(st, dir, from, w) && Hit(st, p, s)
    ensures w.t < Signed(dir, from) + 2 * ROUND
  {
    var _ := ReachRange(st.hi, dir, from, p, s);
    if w.first.Some? {
      var _ := ReachRange(st.hi, dir, from, w.first.value.0, w.first.value.1);
    }
  }

  /** What is first met between two positions of a walk, and at the second, is the second. */
  lemma MetAt(st: State, dir: int, from: int, w: Walk, p: int, s: int, q: int, r: int)
    requires Formed(st) && IsDir(dir) && IsCode(from) && IsCode(w.c) && w.t == Signed(dir, w.c) + ROUND * w.m
    requires Covered(st.hi, p, s) && Clear(st.hi, dir, w.c, Reach(dir, w.c, Code(p, s)))
    requires Covered(st.hi, q, r) && w.t < Reach(dir, from, Code(q, r)) <= Moved(dir, w, p, s).t
    ensures q == p && r == s && Reach(dir, from, Code(q, r)) == Moved(dir, w, p, s).t
  {
    var j := ReachRange(st.hi, dir, from, q, r);
    NoneBetween(st.hi, dir, w, p, s, q, r, j);
    CodeOfCovered(st.hi, p, s);
    CodeOfCovered(st.hi, q, r);
    SameTime(dir, Code(q, r), j, Code(p, s), Moved(dir, w, p, s).m);
    SameCode(st.hi, p, s, q, r);
  }

  lemma SameTime(dir: int, c: int, j: int, d: int, m: int)
    requires IsDir(dir) && IsCode(c) && IsCode(d) && Signed(dir, c) + ROUND * j == Signed(dir, d) + ROUND * m
    ensures c == d && j == m
  {
  }

  /** The arithmetic of `BeforeReturn`: `r` is when the first page was met, `t` when the next position is. */
  lemma TimesApart(dir: int, cf: int, j: int, c: int, i: int, m: int, r: int, t: int, start: int,
      now: int)
    requires IsDir(dir) && IsCode(cf) && IsCode(c) && start < r <= now < t <= r + ROUND
    requires r == Signed(dir, cf) + ROUND * j && t == Signed(dir, c) + ROUND * m
    ensures c == cf <==> t == r + ROUND
    ensures
      var u := Signed(dir, c) + ROUND * i;
      c != cf && r <= u <= start + ROUND ==> t == u
  {
  }

  /** Before the first page is met again, nothing is met twice. */
  lemma BeforeReturn(st: State, dir: int, from: int, w: Walk, p: int, s: int)
    requires Formed(st) && IsDir(dir) && Walking(st, dir, from, w) && w.first.Some? && Covered(st.hi, p, s)
    requires Clear(st.hi, dir, w.c, Reach(dir, w.c, Code(p, s)))
    ensures
      var (f, t) := (w.first.value, Moved(dir, w, p, s).t);
      && w.t < t <= Reach(dir, from, Code(f.0, f.1)) + ROUND
      && ((p, s) == f <==> t == Reach(dir, from, Code(f.0, f.1)) + ROUND)
      && ((p, s) != f && Hit(st, p, s) ==> t == Reach(dir, from, Code(p, s)))
  {
    var f := w.first.value;
    var (t, m) := (Moved(dir, w, p, s).t, Moved(dir, w, p, s).m);
    var j := ReachRange(st.hi, dir, from, f.0, f.1);
    var i := ReachRange(st.hi, dir, from, p, s);
    CodeOfCovered(st.hi, p, s);
    CodeOfCovered(st.hi, f.0, f.1);
    NoneBetween(st.hi, dir, w, p, s, f.0, f.1, j + 1);
    if Code(p, s) == Code(f.0, f.1) {
      SameCode(st.hi, p, s, f.0, f.1);
    }
    MovedTime(st.hi, dir, w, p, s);
    hide Reach, Signed, Moved, Code;
    TimesApart(dir, Code(f.0, f.1), j, Code(p, s), i, m, Reach(dir, from, Code(f.0, f.1)), t, Signed(dir, from), w.t);
  }

  lemma MovedTime(hi: seq<nat>, dir: int, w: Walk, p: int, s: int)
    requires IsDir(dir) && IsCode(w.c) && w.t == Signed(dir, w.c) + ROUND * w.m && Covered(hi, p, s)
    ensures var w' := Moved(dir, w, p, s);
      w'.t > w.t && w'.c == Code(p, s) && IsCode(w'.c) && w'.t == Signed(dir, w'.c) + ROUND * w'.m && w'.first == w.first
  {
    CodeOfCovered(hi, p, s);
  }

  /** No page at the next position. */
  lemma Miss(st: State, dir: int, from: int, w: Walk, p: int, s: int)
    requires Formed(st) && IsDir(dir) && Walking(st, dir, from, w) && Covered(st.hi, p, s) && !Hit(st, p, s)
    requires Clear(st.hi, dir, w.c, Reach(dir, w.c, Code(p, s)))
    ensures Walking(st, dir, from, Moved(dir, w, p, s)) && Moved(dir, w, p, s).t > w.t
  {
    MovedTime(st.hi, dir, w, p, s);
    if w.first.Some? {
      BeforeReturn(st, dir, from, w, p, s);
      hide Reach, Signed, Moved, Code, Covered;
    } else {
      hide Signed, Moved, Code, Covered;
      forall q, r | Hit(st, q, r)
        ensures Reach(dir, from, Code(q, r)) > Moved(dir, w, p, s).t
      {
        NotYet(st, dir, from, w, p, s, q, r);
      }
    }
  }

  lemma NotYet(st: State, dir: int, from: int, w: Walk, p: int, s: int, q: int, r: int)
    requires Formed(st) && IsDir(dir) && Walking(st, dir, from, w) && w.first.None? && Covered(st.hi, p, s)
    requires Clear(st.hi, dir, w.c, Reach(dir, w.c, Code(p, s))) && Hit(st, q, r)
    ensures Reach(dir, from, Code(q, r)) > Moved(dir, w, p, s).t || (q == p && r == s)
  {
    if Reach(dir, from, Code(q, r)) <= Moved(dir, w, p, s).t {
      MetAt(st, dir, from, w, p, s, q, r);
    }
  }

  function FirstMet(w: Walk, p: int, s: int): Walk {
    if w.first.Some? then w else w.(first := Some((p, s)))
  }

  /** A page at the next position, which is not the first page again. */
  lemma Meet(st: State, dir: int, from: int, w: Walk, p: int, s: int)
    requires Formed(st) && IsDir(dir) && Walking(st, dir, from, w) && Hit(st, p, s) && w.first != Some((p, s))
    requires Clear(st.hi, dir, w.c, Reach(dir, w.c, Code(p, s)))
    ensures
      var w' := FirstMet(Moved(dir, w, p, s), p, s);
      Walking(st, dir, from, w') && w'.t > w.t && w'.t == Reach(dir, from, Code(p, s))
  {
    CodeOfCovered(st.hi, p, s);
    if w.first.Some? {
      BeforeReturn(st, dir, from, w, p, s);
    } else {
      FirstTime(st, dir, from, w, p, s);
      forall q, r | Hit(st, q, r)
        ensures Reach(dir, from, Code(q, r)) >= Moved(dir, w, p, s).t
      {
        if Reach(dir, from, Code(q, r)) <= Moved(dir, w, p, s).t {
          MetAt(st, dir, from, w, p, s, q, r);
        }
      }
    }
  }

  lemma FirstTime(st: State, dir: int, from: int, w: Walk, p: int, s: int)
    requires Formed(st) && IsDir(dir) && Walking(st, dir, from, w) && w.first.None? && Hit(st, p, s)
    requires Clear(st.hi, dir, w.c, Reach(dir, w.c, Code(p, s)))
    ensures Moved(dir, w, p, s).t == Reach(dir, from, Code(p, s)) > w.t
  {
    CodeOfCovered(st.hi, p, s);
    var j := ReachRange(st.hi, dir, from, p, s);
    NoneBetween(st.hi, dir, w, p, s, p, s, j);
  }

  // ----- what has been tried

  lemma TriedNone(st: State, dir: int, from: int, accept: RawPage -> bool)
    requires Inv(st) && IsDir(dir) && IsCode(from)
    ensures Tried(st, dir, from, Signed(dir, from), accept, [])
  {
    forall q: Page | Cached(st, q)
      ensures When(dir, from, q) > Signed(dir, from)
    {
      FindCovered(st, q);
      var _ := ReachRange(st.hi, dir, from, q.pgno, q.subno);
    }
  }

  /** A cached page met after `w.t` and by the time of the next position is the page there. */
  lemma MetPage(st: State, dir: int, from: int, w: Walk, p: int, s: int, q: Page)
    requires Inv(st) && IsDir(dir) && Walking(st, dir, from, w) && Covered(st.hi, p, s) && Exact(st)
    requires Clear(st.hi, dir, w.c, Reach(dir, w.c, Code(p, s)))
    requires Cached(st, q) && w.t < When(dir, from, q) <= Moved(dir, w, p, s).t
    ensures Lookup(st, p, s) == Some(q) && When(dir, from, q) == Moved(dir, w, p, s).t
  {
    FindCovered(st, q);
    MetAt(st, dir, from, w, p, s, q.pgno, q.subno);
  }

  lemma TriedMiss(st: State, dir: int, from: int, w: Walk, p: int, s: int,
      accept: RawPage -> bool, trace: seq<Page>)
    requires Inv(st) && IsDir(dir) && Walking(st, dir, from, w) && Covered(st.hi, p, s) && Exact(st)
    requires Clear(st.hi, dir, w.c, Reach(dir, w.c, Code(p, s))) && Lookup(st, p, s) == None
    requires Tried(st, dir, from, w.t, accept, trace) && Moved(dir, w, p, s).t > w.t
    ensures Tried(st, dir, from, Moved(dir, w, p, s).t, accept, trace)
  {
    forall q: Page | Cached(st, q) && When(dir, from, q) <= Moved(dir, w, p, s).t
      ensures q in trace
    {
      if When(dir, from, q) > w.t {
        MetPage(st, dir, from, w, p, s, q);
      }
    }
  }

  /** All that was to be tried before the page at the next position has been. */
  lemma TriedBefore(st: State, dir: int, from: int, w: Walk, p: int, s: int,
      accept: RawPage -> bool, trace: seq<Page>)
    requires Inv(st) && IsDir(dir) && Walking(st, dir, from, w) && Covered(st.hi, p, s) && Exact(st)
    requires Clear(st.hi, dir, w.c, Reach(dir, w.c, Code(p, s))) && Lookup(st, p, s).Some?
    requires Tried(st, dir, from, w.t, accept, trace) && Moved(dir, w, p, s).t == Reach(dir, from, Code(p, s)) > w.t
    ensures
      var page := Lookup(st, p, s).value;
      && Cached(st, page) && When(dir, from, page) == Moved(dir, w, p, s).t
      && Tried(st, dir, from, When(dir, from, page) - 1, accept, trace)
  {
    FoundThere(st, p, s);
    forall q: Page | Cached(st, q) && When(dir, from, q) < Moved(dir, w, p, s).t
      ensures q in trace
    {
      if When(dir, from, q) > w.t {
        MetPage(st, dir, from, w, p, s, q);
      }
    }
  }

  lemma FoundThere(st: State, p: int, s: int)
    requires Inv(st) && Covered(st.hi, p, s) && Exact(st) && Lookup(st, p, s).Some?
    ensures var page := Lookup(st, p, s).value; Cached(st, page) && page.pgno == p && page.subno == s
  {
    assert Lookup(st, p, s) == Find(st, p, s);
  }

  /** A rejected page joins the tried ones. */
  lemma TriedMore(st: State, dir: int, from: int, accept: RawPage -> bool, trace: seq<Page>,
      page: Page)
    requires Inv(st) && Cached(st, page) && !accept(page) && IsDir(dir)
    requires Tried(st, dir, from, When(dir, from, page) - 1, accept, trace)
    ensures Tried(st, dir, from, When(dir, from, page), accept, trace + [page])
  {
    var more := trace + [page];
    assert more[|trace|] == page && forall i :: 0 <= i < |trace| ==> more[i] == trace[i];
    forall q: Page | Cached(st, q) && When(dir, from, q) <= When(dir, from, page)
      ensures q in more
    {
      if When(dir, from, q) == When(dir, from, page) {
        SameWhen(st, dir, from, q, page);
      }
    }
    hide Cached, Inv, When;
  }

  lemma SameWhen(st: State, dir: int, from: int, p: Page, q: Page)
    requires Inv(st) && Cached(st, p) && Cached(st, q) && When(dir, from, p) == When(dir, from, q) && IsDir(dir)
    ensures p == q
  {
    FindCovered(st, p);
    FindCovered(st, q);
    CodeOfCovered(st.hi, p.pgno, p.subno);
    CodeOfCovered(st.hi, q.pgno, q.subno);
    OnePage(st, p, q);
  }

  /** When the first page is met again, every page has been tried. */
  lemma TriedAll(st: State, dir: int, from: int, w: Walk, p: int, s: int, accept: RawPage -> bool,
      trace: seq<Page>)
    requires Inv(st) && IsDir(dir) && Walking(st, dir, from, w) && Exact(st) && w.first == Some((p, s))
    requires Clear(st.hi, dir, w.c, Reach(dir, w.c, Code(p, s))) && Tried(st, dir, from, w.t, accept, trace)
    ensures Searched(st, dir, from, accept, None, trace)
  {
    BeforeReturn(st, dir, from, w, p, s);
    forall q: Page | Cached(st, q)
      ensures q in trace
    {
      FindCovered(st, q);
      var _ := ReachRange(st.hi, dir, from, q.pgno, q.subno);
      var _ := ReachRange(st.hi, dir, from, p, s);
      if When(dir, from, q) > w.t {
        MetAt(st, dir, from, w, p, s, q.pgno, q.subno);
      }
    }
  }

  /** While the cache counts no page it holds none, and otherwise it holds some. */
  lemma EmptyIff(st: State)
    requires Inv(st)
    ensures st.npages == 0 <==> forall q :: !Cached(st, q)
  {
    if st.npages == 0 {
      forall q | Cached(st, q)
        ensures false
      {
        FindIff(st, q.pgno, q.subno, q);
        TotalAtLeast(st.buckets, Hash(q.pgno));
      }
    } else {
      var h := SomeBucket(st.buckets);
      var q := st.buckets[h][0];
      assert BucketOk(st.buckets[h], h, st.hi);
      FindIff(st, q.pgno, q.subno, q);
      assert Cached(st, q);
    }
  }

  lemma {:induction false} TotalAtLeast(buckets: seq<seq<Page>>, h: nat)
    requires h < |buckets|
    ensures Total(buckets) >= |buckets[h]|
  {
    if h > 0 {
      TotalAtLeast(buckets[1..], h - 1);
    }
  }

  lemma {:induction false} SomeBucket(buckets: seq<seq<Page>>) returns (h: nat)
    requires Total(buckets) > 0
    ensures h < |buckets| && buckets[h] != []
  {
    if buckets[0] != [] {
      h := 0;
    } else {
      h := SomeBucket(buckets[1..]);
      h := h + 1;
    }
  }

  // ----- the loop of the search

  /** What the loop keeps: the walk, and on an exact cache the tried pages. */
  ghost predicate Going(st: State, dir: int, from: int, accept: RawPage -> bool, w: Walk, trace: seq<Page>)
    requires Formed(st)
  {
    Walking(st, dir, from, w) && (Exact(st) ==> Tried(st, dir, from, w.t, accept, trace))
  }

  function NextWalk(st: State, dir: int, w: Walk, p: int, s: int): Walk
    requires Formed(st) && p >= 0
  {
    if Lookup(st, p, s).Some? then FirstMet(Moved(dir, w, p, s), p, s) else Moved(dir, w, p, s)
  }

  function NextTrace(st: State, trace: seq<Page>, p: int, s: int): seq<Page>
    requires Formed(st) && p >= 0
  {
    if Lookup(st, p, s).Some? then trace + [Lookup(st, p, s).value] else trace
  }

  lemma GoingBegins(st: State, dir: int, from: int, accept: RawPage -> bool)
    requires Inv(st) && IsDir(dir) && IsCode(from)
    ensures Going(st, dir, from, accept, Walk(from, 0, Signed(dir, from), None), [])
  {
    Begin(st, dir, from);
    TriedNone(st, dir, from, accept);
  }

  lemma GoingOn(st: State, dir: int, from: int, accept: RawPage -> bool, w: Walk,
      trace: seq<Page>, p: int, s: int)
    requires Inv(st) && IsDir(dir) && Going(st, dir, from, accept, w, trace) && Covered(st.hi, p, s)
    requires Clear(st.hi, dir, w.c, Reach(dir, w.c, Code(p, s)))
    requires Lookup(st, p, s).Some? ==> w.first != Some((p, s)) && !accept(Lookup(st, p, s).value)
    ensures
      var (w', trace') := (NextWalk(st, dir, w, p, s), NextTrace(st, trace, p, s));
      && Going(st, dir, from, accept, w', trace') && w'.t > w.t && w'.c == Code(p, s)
      && w'.first == if Lookup(st, p, s).Some? && w.first.None? then Some((p, s)) else w.first
  {
    var page := Lookup(st, p, s);
    if page.Some? {
      Meet(st, dir, from, w, p, s);
      if Exact(st) {
        TriedBefore(st, dir, from, w, p, s, accept, trace);
        TriedMore(st, dir, from, accept, trace, page.value);
      }
    } else {
      Miss(st, dir, from, w, p, s);
      if Exact(st) {
        TriedMiss(st, dir, from, w, p, s, accept, trace);
      }
    }
  }

  lemma AcceptedEnds(st: State, dir: int, from: int, accept: RawPage -> bool, w: Walk,
      trace: seq<Page>, p: int, s: int)
    requires Inv(st) && IsDir(dir) && Going(st, dir, from, accept, w, trace) && Covered(st.hi, p, s)
    requires Clear(st.hi, dir, w.c, Reach(dir, w.c, Code(p, s)))
    requires Lookup(st, p, s).Some? && w.first != Some((p, s)) && accept(Lookup(st, p, s).value)
    ensures Exact(st) ==> Searched(st, dir, from, accept, Lookup(st, p, s), NextTrace(st, trace, p, s))
  {
    if Exact(st) {
      Meet(st, dir, from, w, p, s);
      TriedBefore(st, dir, from, w, p, s, accept, trace);
      var more := NextTrace(st, trace, p, s);
      assert more[..|more| - 1] == trace;
    }
  }

  /** The page at the next position is the first one again. */
  lemma ReturnEnds(st: State, dir: int, from: int, accept: RawPage -> bool, w: Walk,
      trace: seq<Page>, p: int, s: int)
    requires Inv(st) && IsDir(dir) && Going(st, dir, from, accept, w, trace) && Covered(st.hi, p, s)
    requires Clear(st.hi, dir, w.c, Reach(dir, w.c, Code(p, s)))
    requires w.first.Some? && w.first.value.0 >= 0
    requires Lookup(st, p, s).Some? && Lookup(st, p, s) == Lookup(st, w.first.value.0, w.first.value.1)
    ensures Exact(st) ==> Searched(st, dir, from, accept, None, trace)
  {
    if Exact(st) {
      FoundThere(st, p, s);
      FoundThere(st, w.first.value.0, w.first.value.1);
      TriedAll(st, dir, from, w, p, s, accept, trace);
    }
  }

  /** One turn of the loop; `again` says that the page at the next position is the first one again. */
  lemma Turn(st: State, dir: int, from: int, accept: RawPage -> bool, w: Walk, trace: seq<Page>,
      p: int, s: int, again: bool)
    requires Inv(st) && IsDir(dir) && Going(st, dir, from, accept, w, trace) && Covered(st.hi, p, s)
    requires Clear(st.hi, dir, w.c, Reach(dir, w.c, Code(p, s)))
    requires again ==> w.first.Some? && w.first.value.0 >= 0 && Lookup(st, p, s).Some?
                       && Lookup(st, p, s) == Lookup(st, w.first.value.0, w.first.value.1)
    requires !again && Lookup(st, p, s).Some? ==> w.first != Some((p, s))
    ensures
      var (page, w', trace') := (Lookup(st, p, s), NextWalk(st, dir, w, p, s), NextTrace(st, trace, p, s));
      if again then Exact(st) ==> Searched(st, dir, from, accept, None, trace)
      else if page.Some? && accept(page.value) then Exact(st) ==> Searched(st, dir, from, accept, page, trace')
      else
        && Going(st, dir, from, accept, w', trace') && w'.t > w.t && w'.c == Code(p, s)
        && w'.first == if page.Some? && w.first.None? then Some((p, s)) else w.first
  {
    var page := Lookup(st, p, s);
    hide Going, Exact, Searched, Clear, Inv, Covered, Signed, Code, Lookup, Reach, Cached;
    if again {
      ReturnEnds(st, dir, from, accept, w, trace, p, s);
    } else if page.Some? && accept(page.value) {
      AcceptedEnds(st, dir, from, accept, w, trace, p, s);
    } else {
      GoingOn(st, dir, from, accept, w, trace, p, s);
    }
  }

  lemma NothingToSearch(st: State, dir: int, from: int, accept: RawPage -> bool)
    requires Inv(st) && st.npages == 0
    ensures Searched(st, dir, from, accept, None, [])
  {
    EmptyIff(st);
    assert Tried(st, dir, from, 0, accept, []);
  }

  /** A cache that counts pages has one, and the index covers its page number. */
  lemma SomePage(st: State) returns (q: Page)
    requires Inv(st) && st.npages != 0
    ensures Hit(st, q.pgno, q.subno) && Covered(st.hi, q.pgno, 0)
  {
    EmptyIff(st);
    q :| Cached(st, q);
    FindCovered(st, q);
  }

  lemma GoingBounded(st: State, dir: int, from: int, accept: RawPage -> bool, w: Walk,
      trace: seq<Page>, p: int, s: int)
    requires Formed(st) && IsDir(dir) && Going(st, dir, from, accept, w, trace) && Hit(st, p, s)
    ensures w.t < Signed(dir, from) + 2 * ROUND
    ensures w.first.Some? ==> FIRST_PAGE <= w.first.value.0 <= LAST_PAGE
  {
    Bounded(st, dir, from, w, p, s);
  }

  lemma EffectiveThere(hi: seq<nat>, dir: int, p: int, s: int)
    requires Covered(hi, p, s)
    ensures Effective(hi, dir, p, s) == Code(p, s) && s < SPAN
  {
  }

  // ----- when a search is exact

  /** Each page numbered ANY_SUB, if there are any, is the newest one of its page number. */
  ghost predicate AnySubNewest(st: State)
    requires Formed(st)
  {
    forall n :: FIRST_PAGE <= n <= LAST_PAGE && Find(st, n, ANY_SUB).Some? ==>
      Lookup(st, n, ANY_SUB) == Find(st, n, ANY_SUB)
  }

  /** Every position gives its own page exactly when no page numbered ANY_SUB is behind another one of its number. */
  lemma ExactIff(st: State)
    requires Inv(st) && Tight(st)
    ensures Exact(st) <==> AnySubNewest(st)
  {
    if AnySubNewest(st) {
      forall p, s | Covered(st.hi, p, s)
        ensures Lookup(st, p, s) == Find(st, p, s)
      {
        if s != ANY_SUB {
          LookupIsFind(st, p, s);
        } else {
          AnySubTop(st, p);
        }
      }
    } else {
      var n :| FIRST_PAGE <= n <= LAST_PAGE && Find(st, n, ANY_SUB).Some?
        && Lookup(st, n, ANY_SUB) != Find(st, n, ANY_SUB);
      FoundUnder(st, n, ANY_SUB);
      FindCovered(st, Find(st, n, ANY_SUB).value);
    }
  }

  lemma FoundUnder(st: State, n: int, s: int)
    requires Inv(st) && n >= 0 && Find(st, n, s).Some?
    ensures Cached(st, Find(st, n, s).value) && Is(Find(st, n, s).value, n, s)
  {
    FindIff(st, n, s, Find(st, n, s).value);
  }

  /** The index reaches up to ANY_SUB only where a page with that number is stored. */
  lemma AnySubTop(st: State, n: int)
    requires Inv(st) && Tight(st) && Covered(st.hi, n, ANY_SUB)
    ensures Find(st, n, ANY_SUB).Some?
  {
    assert TightAt(st, n);
    var top: int := st.hi[n];
    FoundUnder(st, n, top - 1);
    var p := Find(st, n, top - 1).value;
    FindIff(st, n, top - 1, p);
    assert BucketOk(st.buckets[Hash(n)], Hash(n), st.hi);
    assert Storable(p);
  }

  /** A page numbered ANY_SUB that is not the newest of its page number is returned by no lookup at all. */
  lemma HiddenPage(st: State, q: Page, n: int, s: int)
    requires Inv(st) && Cached(st, q) && q.subno == ANY_SUB && Lookup(st, q.pgno, ANY_SUB) != Some(q) && n >= 0
    ensures Lookup(st, n, s) != Some(q)
  {
    if Lookup(st, n, s) == Some(q) && s != ANY_SUB {
      LookupIsFind(st, n, s);
      FindIff(st, n, s, q);
    }
  }

  /** A search that starts from a page that is not there goes on from its number. */
  lemma StartIsNominal(st: State, dir: int, pgno: int, subno: int, q: Page)
    requires Inv(st) && IsDir(dir) && FIRST_PAGE <= pgno <= LAST_PAGE && 0 <= subno < SPAN && Cached(st, q)
    requires Lookup(st, pgno, subno).None? && subno != 0x3f7f
    requires dir > 0 || subno <= st.hi[pgno] || st.hi[pgno] == 0
    ensures When(dir, Start(st, pgno, subno, dir), q) == Reach(dir, Code(pgno, subno), Code(q.pgno, q.subno))
  {
    FindCovered(st, q);
    StartsThereIff(st.hi, dir, pgno, subno);
  }

  // ----- which pages a search can find

  /** Some position that the index covers gives the page. */
  ghost predicate Findable(st: State, q: Page)
    requires Formed(st)
  {
    exists p, s :: Covered(st.hi, p, s) && Lookup(st, p, s) == Some(q)
  }

  /** What is known of a search that has ended: its result comes from a position, and is the first if all are exact. */
  ghost predicate Ends(st: State, dir: int, from: int, accept: RawPage -> bool, r: Option<Page>, trace: seq<Page>) {
    && Formed(st) && (r.Some? ==> accept(r.value) && Findable(st, r.value))
    && (Exact(st) ==> Searched(st, dir, from, accept, r, trace))
  }

  /** Every cached page can be found exactly when each page numbered ANY_SUB is the newest of its page number. */
  lemma AllFindableIff(st: State)
    requires Inv(st) && Tight(st)
    ensures (forall q: Page :: Cached(st, q) ==> Findable(st, q)) <==> AnySubNewest(st)
  {
    ExactIff(st);
    if AnySubNewest(st) {
      forall q: Page | Cached(st, q)
        ensures Findable(st, q)
      {
        FindCovered(st, q);
        assert Lookup(st, q.pgno, q.subno) == Find(st, q.pgno, q.subno);
      }
    } else {
      var n :| FIRST_PAGE <= n <= LAST_PAGE && Find(st, n, ANY_SUB).Some?
        && Lookup(st, n, ANY_SUB) != Find(st, n, ANY_SUB);
      var q := Find(st, n, ANY_SUB).value;
      FoundUnder(st, n, ANY_SUB);
      NotFindable(st, q);
      assert Cached(st, q) && !Findable(st, q);
    }
  }

  lemma NotFindable(st: State, q: Page)
    requires Inv(st) && Cached(st, q) && q.subno == ANY_SUB && Lookup(st, q.pgno, ANY_SUB) != Some(q)
    ensures !Findable(st, q)
  {
    forall p, s | Covered(st.hi, p, s)
      ensures Lookup(st, p, s) != Some(q)
    {
      HiddenPage(st, q, p, s);
    }
  }

  /** A search for one cached page finds it on an exact cache, and ends without a result if it cannot be found. */
  lemma SearchFinds(st: State, dir: int, from: int, q: Page, r: Option<Page>, trace: seq<Page>)
    requires Inv(st) && Tight(st) && Cached(st, q) && Ends(st, dir, from, (p: RawPage) => p == q, r, trace)
    ensures AnySubNewest(st) ==> r == Some(q)
    ensures !Findable(st, q) ==> r == None
  {
    if AnySubNewest(st) {
      ExactIff(st);
      SearchedFirst(st, dir, from, (p: RawPage) => p == q, r, trace, q);
    }
  }

  /**
   How a page gets lost: it is stored under ANY_SUB, and then any other subpage of its page number is. From then on,
   until it is touched again, no search finds it.
   */
  lemma PutHides(ops: seq<Op>, p: Page, q: Page)
    requires AllAllowed(ops) && Storable(p) && Storable(q)
    requires p.pgno == q.pgno && p.subno == ANY_SUB && q.subno != ANY_SUB
    ensures
      var st := After(ops + [DoPut(p), DoPut(q)]);
      && Find(st, p.pgno, ANY_SUB).Some? && !Findable(st, Find(st, p.pgno, ANY_SUB).value)
      && Inv(st) && !AnySubNewest(st)
  {
    var one := ops + [DoPut(p)];
    assert ops + [DoPut(p), DoPut(q)] == one + [DoPut(q)];
    PutLast(ops, p);
    PutLast(one, q);
    RunInv(ops);
    RunInv(one);
    RunInv(one + [DoPut(q)]);
    PutUpdatesMap(After(ops), p, p.pgno, ANY_SUB);
    PutUpdatesMap(After(one), q, p.pgno, ANY_SUB);
    FrontIsPut(After(one), q);
    hide After, Inv, Put;
    var st := After(one + [DoPut(q)]);
    FoundUnder(st, p.pgno, ANY_SUB);
    NotFindable(st, Find(st, p.pgno, ANY_SUB).value);
  }

  lemma PutLast(ops: seq<Op>, p: Page)
    requires AllAllowed(ops) && Storable(p)
    ensures AllAllowed(ops + [DoPut(p)]) && After(ops + [DoPut(p)]) == Put(After(ops), p)
  {
    var all := ops + [DoPut(p)];
    assert all[..|all| - 1] == ops;
  }

  /** A lookup of any subpage gives the page that was put last. */
  lemma FrontIsPut(st: State, q: Page)
    requires Formed(st) && Storable(q)
    ensures Lookup(Put(st, q), q.pgno, ANY_SUB).Some? && Lookup(Put(st, q), q.pgno, ANY_SUB).value.subno == q.subno
  {
    var r := PutFronts(st, q);
    var b := Put(st, q).buckets[Hash(q.pgno)];
    assert b[0] == r && Matches(b[0], q.pgno, ANY_SUB);
    hide Put, Fronted, Hash;
    FirstIs(b, Wanted(q.pgno, ANY_SUB), 0);
  }
}
