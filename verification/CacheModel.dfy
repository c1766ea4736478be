/**
 The teletext page cache as a value, util/alevt/cache.c: 113 buckets of pages, the most recently touched first, and
 for every page number one more than the highest subpage number that was stored.
 */
module CacheModel {
  import opened Pages
  import opened Wrappers

  const HASH_SIZE: nat := 113
  const FIRST_PAGE: int := 0x100
  const LAST_PAGE: int := 0x9ff
  const ANY_SUB: int := 0x3f7f
  /** Page numbers from here on, those of the help pages, survive a reset. */
  const HELP_PAGES: int := 0x900

  datatype State = State(buckets: seq<seq<Page>>, hi: seq<nat>, npages: int, erc: bool)

  /** Pages that can be stored: those whose numbers a received page can have, and the help pages. */
  predicate Storable(p: RawPage) {
    FIRST_PAGE <= p.pgno <= LAST_PAGE && 0 <= p.subno <= ANY_SUB
  }

  predicate Is(p: RawPage, pgno: int, subno: int) {
    p.pgno == pgno && p.subno == subno
  }

  predicate Matches(p: RawPage, pgno: int, subno: int) {
    p.pgno == pgno && (subno == ANY_SUB || p.subno == subno)
  }

  function Hash(pgno: int): (h: nat)
    requires pgno >= 0
    ensures h < HASH_SIZE
  {
    pgno % HASH_SIZE
  }

  /** The first page that passes the test, or the end of the bucket. */
  function First(b: seq<Page>, test: Page -> bool): (i: nat)
    ensures i <= |b|
    ensures i < |b| ==> test(b[i])
    ensures forall j :: 0 <= j < i ==> !test(b[j])
  {
    if b == [] || test(b[0]) then 0 else 1 + First(b[1..], test)
  }

  function Wanted(pgno: int, subno: int): Page -> bool {
    (p: Page) => Matches(p, pgno, subno)
  }

  function Keyed(pgno: int, subno: int): Page -> bool {
    (p: Page) => Is(p, pgno, subno)
  }

  function ToFront(b: seq<Page>, i: nat): seq<Page>
    requires i < |b|
  {
    [b[i]] + b[..i] + b[i + 1..]
  }

  predicate Formed(st: State) {
    |st.buckets| == HASH_SIZE && |st.hi| == LAST_PAGE + 1
  }

  /** The position of the page that `cache_get` and `cache_lookup` find in a bucket. */
  function Position(st: State, pgno: int, subno: int): (i: nat)
    requires Formed(st) && pgno >= 0
    ensures i <= |st.buckets[Hash(pgno)]|
  {
    First(st.buckets[Hash(pgno)], Wanted(pgno, subno))
  }

  /** `cache_lookup` */
  function Lookup(st: State, pgno: int, subno: int): Option<Page>
    requires Formed(st) && pgno >= 0
  {
    var (b, i) := (st.buckets[Hash(pgno)], Position(st, pgno, subno));
    if i < |b| then Some(b[i]) else None
  }

  /** `cache_get`: a lookup that makes the page the newest of its bucket. */
  function Get(st: State, pgno: int, subno: int): (State, Option<Page>)
    requires Formed(st) && pgno >= 0
  {
    var (h, i) := (Hash(pgno), Position(st, pgno, subno));
    var b := st.buckets[h];
    if i == |b| then (st, None) else (st.(buckets := st.buckets[h := ToFront(b, i)]), Some(b[i]))
  }

  function KeyPosition(st: State, pgno: int, subno: int): (i: nat)
    requires Formed(st) && pgno >= 0
    ensures i <= |st.buckets[Hash(pgno)]|
  {
    First(st.buckets[Hash(pgno)], Keyed(pgno, subno))
  }

  /** The page with a number and a subpage number. */
  function Find(st: State, pgno: int, subno: int): Option<Page>
    requires Formed(st) && pgno >= 0
  {
    var (b, i) := (st.buckets[Hash(pgno)], KeyPosition(st, pgno, subno));
    if i < |b| then Some(b[i]) else None
  }

  /** `cache_put`: the page in store is merged into the new one, which then takes its place at the front. */
  function Put(st: State, p: Page): State
    requires Formed(st) && Storable(p)
  {
    var (h, i) := (Hash(p.pgno), KeyPosition(st, p.pgno, p.subno));
    var b := st.buckets[h];
    if i < |b| then
      var merged := if st.erc then Merge(b[i], p) else p;
      st.(buckets := st.buckets[h := [merged] + b[..i] + b[i + 1..]])
    else
      var hi := if p.subno >= st.hi[p.pgno] then st.hi[p.pgno := p.subno + 1] else st.hi;
      st.(buckets := st.buckets[h := [p] + b], hi := hi, npages := st.npages + 1)
  }

  lemma PutKnown(st: State, p: Page)
    requires Formed(st) && Storable(p) && KeyPosition(st, p.pgno, p.subno) < |st.buckets[Hash(p.pgno)]|
    ensures
      var (h, i) := (Hash(p.pgno), KeyPosition(st, p.pgno, p.subno));
      var b := st.buckets[h];
      var merged := if st.erc then Merge(b[i], p) else p;
      Put(st, p) == st.(buckets := st.buckets[h := [merged] + b[..i] + b[i + 1..]])
  {
  }

  lemma PutNew(st: State, p: Page)
    requires Formed(st) && Storable(p) && KeyPosition(st, p.pgno, p.subno) == |st.buckets[Hash(p.pgno)]|
    ensures
      var h := Hash(p.pgno);
      var hi := if p.subno >= st.hi[p.pgno] then st.hi[p.pgno := p.subno + 1] else st.hi;
      Put(st, p) == st.(buckets := st.buckets[h := [p] + st.buckets[h]], hi := hi, npages := st.npages + 1)
  {
  }

  function HelpOnly(b: seq<Page>): (r: seq<Page>)
    ensures |r| <= |b|
  {
    if b == [] then []
    else if b[0].pgno / 0x100 == 9 then [b[0]] + HelpOnly(b[1..])
    else HelpOnly(b[1..])
  }

  function Total(buckets: seq<seq<Page>>): nat {
    if buckets == [] then 0 else |buckets[0]| + Total(buckets[1..])
  }

  lemma {:induction false} HelpOnlyIn(b: seq<Page>, p: Page)
    ensures p in HelpOnly(b) <==> p in b && p.pgno / 0x100 == 9
  {
    if b != [] {
      HelpOnlyIn(b[1..], p);
    }
  }

  function HelpPages(buckets: seq<seq<Page>>): (r: seq<seq<Page>>)
    ensures |r| == |buckets|
    ensures forall h :: 0 <= h < |r| ==> r[h] == HelpOnly(buckets[h])
  {
    seq(|buckets|, h requires 0 <= h < |buckets| => HelpOnly(buckets[h]))
  }

  /** `cache_reset` */
  function Reset(st: State): State
    requires Formed(st)
  {
    var kept := HelpPages(st.buckets);
    State(kept, seq(HELP_PAGES, _ => 0) + st.hi[HELP_PAGES..], st.npages - (Total(st.buckets) - Total(kept)), st.erc)
  }

  function Empty(): (st: State)
    ensures Formed(st)
  {
    State(seq(HASH_SIZE, _ => []), seq(LAST_PAGE + 1, _ => 0), 0, true)
  }

  // ----- what every operation keeps

  /** The pages of a bucket belong there, lie below the highest subpage number, and differ in number or subnumber. */
  ghost predicate BucketOk(b: seq<Page>, h: nat, hi: seq<nat>) {
    && |hi| == LAST_PAGE + 1
    && (forall i :: 0 <= i < |b| ==> Storable(b[i]) && Hash(b[i].pgno) == h && b[i].subno < hi[b[i].pgno])
    && forall i, j :: 0 <= i < j < |b| ==> !Is(b[j], b[i].pgno, b[i].subno)
  }

  ghost predicate Inv(st: State) {
    && Formed(st) && st.npages == Total(st.buckets)
    && (forall h :: 0 <= h < HASH_SIZE ==> BucketOk(st.buckets[h], h, st.hi))
    && (forall p :: 0 <= p <= LAST_PAGE ==> st.hi[p] < 0x10000)
    && (forall p :: 0 <= p < FIRST_PAGE ==> st.hi[p] == 0)
  }

  lemma EmptyOk()
    ensures Inv(Empty())
  {
    var st := Empty();
    assert forall h :: 0 <= h < HASH_SIZE ==> st.buckets[h] == [];
    assert |st.hi| == LAST_PAGE + 1 && forall p :: 0 <= p <= LAST_PAGE ==> st.hi[p] == 0;
    hide Empty;
    NoneStored(st.buckets);
  }

  lemma {:induction false} NoneStored(buckets: seq<seq<Page>>)
    requires forall h :: 0 <= h < |buckets| ==> buckets[h] == []
    ensures Total(buckets) == 0
  {
    if buckets != [] {
      NoneStored(buckets[1..]);
    }
  }

  lemma {:induction false} TotalOfUpdate(buckets: seq<seq<Page>>, h: nat, b: seq<Page>)
    requires h < |buckets|
    ensures Total(buckets[h := b]) == Total(buckets) - |buckets[h]| + |b|
  {
    if h > 0 {
      assert buckets[h := b][1..] == buckets[1..][h - 1 := b];
      TotalOfUpdate(buckets[1..], h - 1, b);
    }
  }

  /** A bucket stays in order when one of its entries goes to the front, with its key. */
  lemma FrontOk(b: seq<Page>, h: nat, hi: seq<nat>, i: nat, p: Page)
    requires BucketOk(b, h, hi) && i < |b| && Is(p, b[i].pgno, b[i].subno) && Storable(p)
    ensures BucketOk([p] + b[..i] + b[i + 1..], h, hi)
  {
    var r := [p] + b[..i] + b[i + 1..];
    forall k | 0 <= k < |r|
      ensures r[k] == if k == 0 then p else if k <= i then b[k - 1] else b[k]
    {
    }
  }

  /** Entries may have been raised, within the pages and the width of the index. */
  ghost predicate Raised(hi: seq<nat>, hi': seq<nat>) {
    && |hi'| == |hi|
    && forall p :: 0 <= p < |hi| ==> hi'[p] == hi[p] || (p >= FIRST_PAGE && hi[p] <= hi'[p] < 0x10000)
  }

  lemma UpdateOk(st: State, h: nat, b: seq<Page>, hi: seq<nat>, npages: int)
    requires Inv(st) && h < HASH_SIZE && BucketOk(b, h, hi) && npages == st.npages - |st.buckets[h]| + |b|
    requires Raised(st.hi, hi)
    ensures Inv(st.(buckets := st.buckets[h := b], hi := hi, npages := npages))
  {
    TotalOfUpdate(st.buckets, h, b);
    var buckets := st.buckets[h := b];
    forall g | 0 <= g < HASH_SIZE
      ensures BucketOk(buckets[g], g, hi)
    {
      assert BucketOk(st.buckets[g], g, st.hi);
    }
  }

  lemma GetKeepsInv(st: State, pgno: int, subno: int)
    requires Inv(st) && pgno >= 0
    ensures Inv(Get(st, pgno, subno).0)
  {
    var (h, i) := (Hash(pgno), Position(st, pgno, subno));
    var b := st.buckets[h];
    if i < |b| {
      FrontOk(b, h, st.hi, i, b[i]);
      UpdateOk(st, h, ToFront(b, i), st.hi, st.npages);
    }
  }

  lemma PutKeepsInv(st: State, p: Page)
    requires Inv(st) && Storable(p)
    ensures Inv(Put(st, p))
  {
    var (h, i) := (Hash(p.pgno), KeyPosition(st, p.pgno, p.subno));
    var b := st.buckets[h];
    assert BucketOk(b, h, st.hi);
    hide BucketOk, Inv, Hash;
    if i < |b| {
      var merged := if st.erc then Merge(b[i], p) else p;
      FrontOk(b, h, st.hi, i, merged);
      UpdateOk(st, h, [merged] + b[..i] + b[i + 1..], st.hi, st.npages);
    } else {
      PutNewKeepsInv(st, p, h);
    }
  }

  lemma PutNewKeepsInv(st: State, p: Page, h: nat)
    requires Inv(st) && Storable(p) && h == Hash(p.pgno) && KeyPosition(st, p.pgno, p.subno) == |st.buckets[h]|
    ensures Inv(Put(st, p))
  {
    var b := st.buckets[h];
    var hi := if p.subno >= st.hi[p.pgno] then st.hi[p.pgno := p.subno + 1] else st.hi;
    assert BucketOk(b, h, st.hi);
    NewOk(b, h, st.hi, hi, p);
    assert Raised(st.hi, hi);
    hide BucketOk, Inv, Hash, Raised;
    UpdateOk(st, h, [p] + b, hi, st.npages + 1);
  }

  lemma NewOk(b: seq<Page>, h: nat, hi: seq<nat>, hi': seq<nat>, p: Page)
    requires BucketOk(b, h, hi) && Storable(p) && Hash(p.pgno) == h && |hi'| == |hi| && p.subno < hi'[p.pgno]
    requires forall q :: 0 <= q < |hi| ==> hi[q] <= hi'[q]
    requires forall j :: 0 <= j < |b| ==> !Is(b[j], p.pgno, p.subno)
    ensures BucketOk([p] + b, h, hi')
  {
    var r := [p] + b;
    assert forall k :: 1 <= k < |r| ==> r[k] == b[k - 1];
  }

  /** The relation holds between every two pages of the bucket, in their order. */
  ghost predicate Pairwise(b: seq<Page>, r: (Page, Page) -> bool) {
    forall i, j :: 0 <= i < j < |b| ==> r(b[i], b[j])
  }

  /** The pages that survive a reset keep their order. */
  lemma {:induction false} HelpPairwise(b: seq<Page>, r: (Page, Page) -> bool)
    requires Pairwise(b, r)
    ensures Pairwise(HelpOnly(b), r)
  {
    if b != [] {
      var rest := HelpOnly(b[1..]);
      HelpPairwise(b[1..], r);
      forall j | 0 <= j < |rest|
        ensures r(b[0], rest[j])
      {
        HelpOnlyIn(b[1..], rest[j]);
      }
    }
  }

  lemma HelpOnlyOk(b: seq<Page>, h: nat, hi: seq<nat>, hi': seq<nat>)
    requires BucketOk(b, h, hi) && |hi'| == |hi| && hi'[HELP_PAGES..] == hi[HELP_PAGES..]
    ensures BucketOk(HelpOnly(b), h, hi')
  {
    var r := HelpOnly(b);
    forall i | 0 <= i < |r|
      ensures Storable(r[i]) && Hash(r[i].pgno) == h && r[i].subno < hi'[r[i].pgno]
    {
      HelpOnlyIn(b, r[i]);
      assert hi'[r[i].pgno] == hi'[HELP_PAGES..][r[i].pgno - HELP_PAGES];
    }
    HelpPairwise(b, Differ);
    forall i, j | 0 <= i < j < |r|
      ensures !Is(r[j], r[i].pgno, r[i].subno)
    {
      assert Differ(r[i], r[j]);
    }
  }

  function Differ(p: Page, q: Page): bool {
    !Is(q, p.pgno, p.subno)
  }

  lemma ResetKeepsInv(st: State)
    requires Inv(st)
    ensures Inv(Reset(st))
  {
    var r := Reset(st);
    assert r.hi[HELP_PAGES..] == st.hi[HELP_PAGES..];
    forall h | 0 <= h < HASH_SIZE
      ensures BucketOk(r.buckets[h], h, r.hi)
    {
      HelpOnlyOk(st.buckets[h], h, st.hi, r.hi);
    }
  }

  // ----- the cache as a map

  lemma FirstIs(b: seq<Page>, test: Page -> bool, i: nat)
    requires i <= |b| && (i < |b| ==> test(b[i])) && forall j :: 0 <= j < i ==> !test(b[j])
    ensures First(b, test) == i
  {
  }

  /** A page is found under its own key, and under no other. */
  lemma FindIff(st: State, pgno: int, subno: int, p: Page)
    requires Inv(st) && pgno >= 0
    ensures Find(st, pgno, subno) == Some(p) <==> p in st.buckets[Hash(pgno)] && Is(p, pgno, subno)
  {
    var b := st.buckets[Hash(pgno)];
    assert BucketOk(b, Hash(pgno), st.hi);
    if p in b && Is(p, pgno, subno) {
      var i :| 0 <= i < |b| && b[i] == p;
      FirstIs(b, Keyed(pgno, subno), i);
    }
  }

  lemma FrontSame(b: seq<Page>, i: nat, p: Page, q: Page)
    requires i < |b|
    ensures q in [p] + b[..i] + b[i + 1..] ==> q == p || q in b
    ensures q == p || (q in b && q != b[i]) ==> q in [p] + b[..i] + b[i + 1..]
  {
    var r := [p] + b[..i] + b[i + 1..];
    assert r[0] == p;
    assert forall k :: 0 <= k < i ==> r[k + 1] == b[k];
    assert forall k :: i < k < |b| ==> r[k] == b[k];
  }

  /** Getting a page changes no entry of the map. */
  lemma GetKeepsMap(st: State, pgno: int, subno: int, n: int, s: int)
    requires Inv(st) && pgno >= 0 && n >= 0
    ensures Find(Get(st, pgno, subno).0, n, s) == Find(st, n, s)
  {
    GetKeepsInv(st, pgno, subno);
    var (h, i) := (Hash(pgno), Position(st, pgno, subno));
    var b := st.buckets[h];
    if i < |b| && Hash(n) == h {
      var st' := Get(st, pgno, subno).0;
      var found := if Find(st, n, s).Some? then Find(st, n, s) else Find(st', n, s);
      if found.Some? {
        FrontSame(b, i, b[i], found.value);
        FindIff(st, n, s, found.value);
        FindIff(st', n, s, found.value);
      }
    }
  }

  /** Putting a page updates the map at its key, with the merge where there was a page, and nowhere else. */
  lemma PutUpdatesMap(st: State, p: Page, n: int, s: int)
    requires Inv(st) && Storable(p) && n >= 0
    ensures Find(Put(st, p), n, s)
         == if !Is(p, n, s) then Find(st, n, s)
            else if Find(st, n, s).Some? && st.erc then Some(Merge(Find(st, n, s).value, p))
            else Some(p)
  {
    PutKeepsInv(st, p);
    var st' := Put(st, p);
    var (h, i) := (Hash(p.pgno), KeyPosition(st, p.pgno, p.subno));
    var b := st.buckets[h];
    assert BucketOk(b, h, st.hi);
    if Is(p, n, s) {
      FindIff(st', n, s, st'.buckets[h][0]);
    } else if Hash(n) == h {
      PutElsewhere(st, p, n, s);
    }
  }

  lemma PutElsewhere(st: State, p: Page, n: int, s: int)
    requires Inv(st) && Storable(p) && Inv(Put(st, p)) && n >= 0 && !Is(p, n, s) && Hash(n) == Hash(p.pgno)
    ensures Find(Put(st, p), n, s) == Find(st, n, s)
  {
    var st' := Put(st, p);
    var (h, i) := (Hash(p.pgno), KeyPosition(st, p.pgno, p.subno));
    var b := st.buckets[h];
    var found := if Find(st, n, s).Some? then Find(st, n, s) else Find(st', n, s);
    if found.Some? {
      FindIff(st, n, s, found.value);
      FindIff(st', n, s, found.value);
      if i < |b| {
        FrontSame(b, i, st'.buckets[h][0], found.value);
      }
    }
  }

  /** A reset drops the entries of the map outside the help pages, and only those. */
  lemma ResetFiltersMap(st: State, n: int, s: int)
    requires Inv(st) && n >= 0
    ensures Find(Reset(st), n, s) == if n / 0x100 == 9 then Find(st, n, s) else None
  {
    ResetKeepsInv(st);
    var found := if Find(st, n, s).Some? then Find(st, n, s) else Find(Reset(st), n, s);
    if found.Some? {
      FindIff(st, n, s, found.value);
      FindIff(Reset(st), n, s, found.value);
      HelpOnlyIn(st.buckets[Hash(n)], found.value);
    }
  }

  /** A lookup of one subpage is a lookup in the map. */
  lemma LookupIsFind(st: State, pgno: int, subno: int)
    requires Formed(st) && pgno >= 0 && subno != ANY_SUB
    ensures Lookup(st, pgno, subno) == Find(st, pgno, subno)
  {
    var b := st.buckets[Hash(pgno)];
    FirstIs(b, Wanted(pgno, subno), KeyPosition(st, pgno, subno));
  }

  predicate TightAt(st: State, n: nat)
    requires Formed(st) && n <= LAST_PAGE
  {
    st.hi[n] > 0 ==> Find(st, n, st.hi[n] - 1).Some?
  }

  /** The index is exact: where it is not 0, the subpage it names is stored, and it is the highest. */
  ghost predicate Tight(st: State)
    requires Formed(st)
  {
    forall n: nat :: n <= LAST_PAGE ==> TightAt(st, n)
  }

  lemma GetTightAt(st: State, pgno: int, subno: int, n: nat)
    requires n <= LAST_PAGE && Inv(st) && TightAt(st, n) && pgno >= 0
    ensures TightAt(Get(st, pgno, subno).0, n)
  {
    hide Find;
    if st.hi[n] > 0 {
      GetKeepsMap(st, pgno, subno, n, st.hi[n] - 1);
    }
  }

  lemma PutIndex(st: State, p: Page, n: nat)
    requires Formed(st) && Storable(p) && n <= LAST_PAGE
    ensures Formed(Put(st, p)) && |Put(st, p).hi| == LAST_PAGE + 1
    ensures Put(st, p).hi[n] == st.hi[n] || (n == p.pgno && Put(st, p).hi[n] == p.subno + 1)
  {
  }

  lemma PutTightAt(st: State, p: Page, n: nat)
    requires n <= LAST_PAGE && Inv(st) && TightAt(st, n) && Storable(p)
    ensures TightAt(Put(st, p), n)
  {
    PutIndex(st, p, n);
    hide Find, Inv, Put, Formed;
    var top: int := Put(st, p).hi[n];
    PutUpdatesMap(st, p, n, top - 1);
  }

  lemma ResetTightAt(st: State, n: nat)
    requires n <= LAST_PAGE && Inv(st) && TightAt(st, n)
    ensures TightAt(Reset(st), n)
  {
    assert Formed(st);
    hide Find, Inv;
    var tail := st.hi[HELP_PAGES..];
    assert n >= HELP_PAGES ==> tail[n - HELP_PAGES] == st.hi[n];
    if st.hi[n] > 0 {
      ResetFiltersMap(st, n, st.hi[n] - 1);
    }
  }

  // ----- whole runs

  datatype Op = DoGet(pgno: int, subno: int) | DoPut(page: Page) | DoReset | DoMode(erc: bool)

  predicate Allowed(op: Op) {
    match op
    case DoGet(pgno, _) => pgno >= 0
    case DoPut(p) => Storable(p)
    case DoReset => true
    case DoMode(_) => true
  }

  predicate AllAllowed(ops: seq<Op>) {
    forall i :: 0 <= i < |ops| ==> Allowed(ops[i])
  }

  function Take(st: State, op: Op): (r: State)
    requires Formed(st) && Allowed(op)
    ensures Formed(r)
  {
    match op
    case DoGet(pgno, subno) => Get(st, pgno, subno).0
    case DoPut(p) => Put(st, p)
    case DoReset => Reset(st)
    case DoMode(erc) => st.(erc := erc)
  }

  /** The cache after the operations, from the empty one on. */
  function After(ops: seq<Op>): (r: State)
    requires AllAllowed(ops)
    ensures Formed(r)
  {
    if ops == [] then Empty() else Take(After(ops[..|ops| - 1]), ops[|ops| - 1])
  }

  /** Every run keeps the cache's invariant. */
  lemma {:induction false} RunInv(ops: seq<Op>)
    requires AllAllowed(ops)
    ensures Inv(After(ops))
  {
    hide Inv;
    if ops == [] {
      EmptyOk();
    } else {
      var st := After(ops[..|ops| - 1]);
      RunInv(ops[..|ops| - 1]);
      match ops[|ops| - 1]
      case DoGet(pgno, subno) => GetKeepsInv(st, pgno, subno);
      case DoPut(p) => PutKeepsInv(st, p);
      case DoReset => ResetKeepsInv(st);
      case DoMode(erc) => ModeKeeps(st, erc);
    }
  }

  /** A page stands in the bucket that its number gives, and nowhere else. */
  lemma RunBuckets(ops: seq<Op>, h: nat, i: nat)
    requires AllAllowed(ops) && h < |After(ops).buckets| && i < |After(ops).buckets[h]|
    ensures After(ops).buckets[h][i].pgno % 113 == h
  {
    RunInv(ops);
    assert BucketOk(After(ops).buckets[h], h, After(ops).hi);
  }

  lemma ModeKeeps(st: State, erc: bool)
    requires Inv(st)
    ensures Inv(st.(erc := erc))
  {
  }

  lemma TakeTightAt(st: State, op: Op, n: nat)
    requires n <= LAST_PAGE && Inv(st) && TightAt(st, n) && Allowed(op)
    ensures TightAt(Take(st, op), n)
  {
    assert Formed(st);
    hide TightAt, Inv, Get, Put, Reset;
    match op
    case DoGet(pgno, subno) => GetTightAt(st, pgno, subno, n);
    case DoPut(p) => PutTightAt(st, p, n);
    case DoReset => ResetTightAt(st, n);
    case DoMode(erc) => ModeTightAt(st, erc, n);
  }

  lemma ModeTightAt(st: State, erc: bool, n: nat)
    requires n <= LAST_PAGE && Inv(st) && TightAt(st, n)
    ensures TightAt(st.(erc := erc), n)
  {
  }

  lemma EmptyTightAt(n: nat)
    requires n <= LAST_PAGE
    ensures TightAt(Empty(), n)
  {
  }

  /** In every run the index is exact: no stored page lies outside it, and it points to no page that is not stored. */
  lemma {:induction false} RunTight(ops: seq<Op>, n: nat)
    requires AllAllowed(ops) && n <= LAST_PAGE
    ensures TightAt(After(ops), n)
  {
    hide TightAt, Inv, Take, Empty;
    if ops == [] {
      EmptyTightAt(n);
    } else {
      RunTight(ops[..|ops| - 1], n);
      RunInv(ops[..|ops| - 1]);
      TakeTightAt(After(ops[..|ops| - 1]), ops[|ops| - 1], n);
    }
  }

  /** The operation stores the page of that key, or finds it. */
  predicate Touches(st: State, op: Op, pgno: int, subno: int)
    requires Formed(st) && Allowed(op)
  {
    match op
    case DoGet(n, s) => Lookup(st, n, s).Some? && Is(Lookup(st, n, s).value, pgno, subno)
    case DoPut(p) => Is(p, pgno, subno)
    case DoReset => false
    case DoMode(_) => false
  }

  /** How many operations there have been up to the last that touched the key; 0 when none has. */
  function LastTouch(ops: seq<Op>, pgno: int, subno: int): (t: nat)
    requires AllAllowed(ops)
    ensures t <= |ops|
  {
    if ops == [] then 0
    else if Touches(After(ops[..|ops| - 1]), ops[|ops| - 1], pgno, subno) then |ops|
    else LastTouch(ops[..|ops| - 1], pgno, subno)
  }

  lemma LastStep(ops: seq<Op>)
    requires AllAllowed(ops) && ops != []
    ensures
      var (before, op) := (ops[..|ops| - 1], ops[|ops| - 1]);
      && After(ops) == Take(After(before), op)
      && forall n, s :: LastTouch(ops, n, s) == if Touches(After(before), op, n, s) then |ops| else LastTouch(before, n, s)
  {
  }

  /** Each page of the bucket was touched later than the pages behind it. */
  ghost predicate NewestFirst(b: seq<Page>, ops: seq<Op>)
    requires AllAllowed(ops)
  {
    forall i, j :: 0 <= i < j < |b| ==> LastTouch(ops, b[i].pgno, b[i].subno) > LastTouch(ops, b[j].pgno, b[j].subno)
  }

  /** In every run each bucket is ordered by the last put or get of its pages, the latest first. */
  lemma {:induction false} RunNewestFirst(ops: seq<Op>, h: nat)
    requires AllAllowed(ops) && h < HASH_SIZE
    ensures NewestFirst(After(ops).buckets[h], ops)
  {
    if ops != [] {
      var (before, op) := (ops[..|ops| - 1], ops[|ops| - 1]);
      RunNewestFirst(before, h);
      match op
      case DoGet(n, s) => GetNewest(before, ops, n, s, h);
      case DoPut(p) => PutNewest(before, ops, p, h);
      case DoReset => ResetNewest(before, ops, h);
      case DoMode(_) =>
    }
  }

  /** A bucket with the page at `i` replaced by another one at the front; nothing is replaced at the end. */
  function Fronted(b: seq<Page>, i: nat, p: Page): (r: seq<Page>)
    requires i <= |b|
    ensures |r| == if i < |b| then |b| else |b| + 1
    ensures r[0] == p
    ensures forall k :: 1 <= k < |r| ==> r[k] == if k <= i then b[k - 1] else b[k]
  {
    [p] + b[..i] + if i < |b| then b[i + 1..] else []
  }

  /** The pages but the one that comes to the front keep their order and their last touch. */
  lemma FrontNewest(b: seq<Page>, i: nat, p: Page, before: seq<Op>, ops: seq<Op>)
    requires AllAllowed(ops) && ops != [] && before == ops[..|ops| - 1] && i <= |b| && NewestFirst(b, before)
    requires forall j :: 0 <= j < |b| && j != i ==>
      LastTouch(ops, b[j].pgno, b[j].subno) == LastTouch(before, b[j].pgno, b[j].subno)
    requires LastTouch(ops, p.pgno, p.subno) == |ops|
    ensures NewestFirst(Fronted(b, i, p), ops)
  {
    hide LastTouch;
    var r := Fronted(b, i, p);
    forall x, y | 0 <= x < y < |r|
      ensures LastTouch(ops, r[x].pgno, r[x].subno) > LastTouch(ops, r[y].pgno, r[y].subno)
    {
      var v := if y <= i then y - 1 else y;
      assert r[y] == b[v];
      if x > 0 {
        var u := if x <= i then x - 1 else x;
        assert r[x] == b[u] && u < v;
      }
    }
  }

  /** A get touches no page but the one at its position. */
  lemma GetTouchesOne(st: State, n: int, s: int, h: nat, j: nat)
    requires Inv(st) && n >= 0 && h < HASH_SIZE && j < |st.buckets[h]| && !(h == Hash(n) && j == Position(st, n, s))
    ensures !Touches(st, DoGet(n, s), st.buckets[h][j].pgno, st.buckets[h][j].subno)
  {
    var b := st.buckets[h];
    assert BucketOk(b, h, st.hi);
    if h == Hash(n) {
      var i := Position(st, n, s);
      hide Hash;
      if i < |b| {
        assert i < j || j < i;
      }
    }
  }

  lemma PutTouchesOne(st: State, p: Page, h: nat, j: nat)
    requires Inv(st) && Storable(p) && h < HASH_SIZE && j < |st.buckets[h]|
    requires !(h == Hash(p.pgno) && j == KeyPosition(st, p.pgno, p.subno))
    ensures !Touches(st, DoPut(p), st.buckets[h][j].pgno, st.buckets[h][j].subno)
  {
    var b := st.buckets[h];
    assert BucketOk(b, h, st.hi);
    if h == Hash(p.pgno) {
      var i := KeyPosition(st, p.pgno, p.subno);
      hide Hash;
      if i < |b| {
        assert i < j || j < i;
      }
    }
  }

  lemma {:induction false} GetNewest(before: seq<Op>, ops: seq<Op>, n: int, s: int, h: nat)
    requires AllAllowed(ops) && ops != [] && before == ops[..|ops| - 1] && ops[|ops| - 1] == DoGet(n, s) && h < HASH_SIZE
    requires NewestFirst(After(before).buckets[h], before)
    ensures NewestFirst(After(ops).buckets[h], ops)
  {
    LastStep(ops);
    RunInv(before);
    hide After, LastTouch, Hash, Touches, Inv;
    var st := After(before);
    var b := st.buckets[h];
    forall j | 0 <= j < |b| && !(h == Hash(n) && j == Position(st, n, s))
      ensures LastTouch(ops, b[j].pgno, b[j].subno) == LastTouch(before, b[j].pgno, b[j].subno)
    {
      GetTouchesOne(st, n, s, h, j);
    }
    if h == Hash(n) && Position(st, n, s) < |b| {
      var i := Position(st, n, s);
      GetTouches(st, n, s);
      FrontNewest(b, i, b[i], before, ops);
      assert ToFront(b, i) == Fronted(b, i, b[i]);
    }
  }

  lemma GetTouches(st: State, n: int, s: int)
    requires Formed(st) && n >= 0 && Position(st, n, s) < |st.buckets[Hash(n)]|
    ensures var p := st.buckets[Hash(n)][Position(st, n, s)]; Touches(st, DoGet(n, s), p.pgno, p.subno)
  {
  }

  lemma PutNewest(before: seq<Op>, ops: seq<Op>, p: Page, h: nat)
    requires AllAllowed(ops) && ops != [] && before == ops[..|ops| - 1] && ops[|ops| - 1] == DoPut(p) && h < HASH_SIZE
    requires NewestFirst(After(before).buckets[h], before)
    ensures NewestFirst(After(ops).buckets[h], ops)
  {
    LastStep(ops);
    RunInv(before);
    hide After, LastTouch, Hash, Touches, Inv;
    var st := After(before);
    var b := st.buckets[h];
    forall j | 0 <= j < |b| && !(h == Hash(p.pgno) && j == KeyPosition(st, p.pgno, p.subno))
      ensures LastTouch(ops, b[j].pgno, b[j].subno) == LastTouch(before, b[j].pgno, b[j].subno)
    {
      PutTouchesOne(st, p, h, j);
    }
    if h == Hash(p.pgno) {
      var i := KeyPosition(st, p.pgno, p.subno);
      var r := PutFronts(st, p);
      PutTouches(st, p, r);
      FrontNewest(b, i, r, before, ops);
    }
  }

  lemma PutFronts(st: State, p: Page) returns (r: Page)
    requires Formed(st) && Storable(p)
    ensures Is(r, p.pgno, p.subno)
    ensures Put(st, p).buckets[Hash(p.pgno)]
         == Fronted(st.buckets[Hash(p.pgno)], KeyPosition(st, p.pgno, p.subno), r)
  {
    var (b, i) := (st.buckets[Hash(p.pgno)], KeyPosition(st, p.pgno, p.subno));
    r := if i < |b| && st.erc then Merge(b[i], p) else p;
    assert Put(st, p).buckets[Hash(p.pgno)] == Fronted(b, i, r);
  }

  lemma PutTouches(st: State, p: Page, r: Page)
    requires Formed(st) && Storable(p) && Is(r, p.pgno, p.subno)
    ensures Touches(st, DoPut(p), r.pgno, r.subno)
  {
  }

  lemma ResetNewest(before: seq<Op>, ops: seq<Op>, h: nat)
    requires AllAllowed(ops) && ops != [] && before == ops[..|ops| - 1] && ops[|ops| - 1] == DoReset && h < HASH_SIZE
    requires NewestFirst(After(before).buckets[h], before)
    ensures NewestFirst(After(ops).buckets[h], ops)
  {
    LastStep(ops);
    hide After, LastTouch, Hash;
    var (b, r) := (After(before).buckets[h], After(ops).buckets[h]);
    var later := (p: Page, q: Page) =>
      AllAllowed(ops) && LastTouch(ops, p.pgno, p.subno) > LastTouch(ops, q.pgno, q.subno);
    HelpPairwise(b, later);
    forall i, j | 0 <= i < j < |r|
      ensures LastTouch(ops, r[i].pgno, r[i].subno) > LastTouch(ops, r[j].pgno, r[j].subno)
    {
      assert later(r[i], r[j]);
    }
  }

  /** Of the pages with a number, a lookup of any subpage gives the one nearest to the front. */
  lemma AnySubpageIsFirst(st: State, pgno: int, j: nat)
    requires Inv(st) && pgno >= 0 && j < |st.buckets[Hash(pgno)]| && st.buckets[Hash(pgno)][j].pgno == pgno
    ensures
      var (b, i) := (st.buckets[Hash(pgno)], Position(st, pgno, ANY_SUB));
      && i <= j && b[i].pgno == pgno && Find(st, pgno, b[i].subno) == Some(b[i])
      && Get(st, pgno, ANY_SUB).1 == Some(b[i])
  {
    var (b, i) := (st.buckets[Hash(pgno)], Position(st, pgno, ANY_SUB));
    assert Matches(b[j], pgno, ANY_SUB);
    hide Inv, Hash;
    FindIff(st, pgno, b[i].subno, b[i]);
  }

  lemma NearerIsNewer(b: seq<Page>, ops: seq<Op>, i: nat, j: nat)
    requires AllAllowed(ops) && i <= j < |b| && NewestFirst(b, ops)
    ensures i == j || LastTouch(ops, b[j].pgno, b[j].subno) < LastTouch(ops, b[i].pgno, b[i].subno)
  {
  }

  /** After any run, asking for any subpage gives the one touched last, if any is stored. */
  lemma AnySubpageIsNewest(ops: seq<Op>, pgno: int, j: nat)
    requires AllAllowed(ops) && pgno >= 0
    requires j < |After(ops).buckets[Hash(pgno)]| && After(ops).buckets[Hash(pgno)][j].pgno == pgno
    ensures
      var (q, r) := (After(ops).buckets[Hash(pgno)][j], Get(After(ops), pgno, 0x3f7f).1);
      && r.Some? && r.value.pgno == pgno && Find(After(ops), pgno, r.value.subno) == r
      && (q == r.value || LastTouch(ops, pgno, q.subno) < LastTouch(ops, pgno, r.value.subno))
  {
    var (st, h) := (After(ops), Hash(pgno));
    RunInv(ops);
    RunNewestFirst(ops, h);
    AnySubpageIsFirst(st, pgno, j);
    NearerIsNewer(st.buckets[h], ops, Position(st, pgno, ANY_SUB), j);
  }
}
