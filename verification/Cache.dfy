/** The page cache as the program keeps it, util/alevt/cache.c, specified by the functions of `CacheModel`. */
module Caches {
  import opened CacheModel
  import opened CacheSearch
  import opened DlLists
  import opened Pages
  import opened Wrappers

  function WithBucket(st: State, h: nat, b: seq<Page>): State
    requires h < |st.buckets|
  {
    st.(buckets := st.buckets[h := b])
  }

  /** The node that a lookup finds. */
  ghost function NodeIn(alls: seq<seq<Node>>, st: State, pgno: int, subno: int): Node
    requires Formed(st) && pgno >= 0 && |alls| == HASH_SIZE && |alls[Hash(pgno)]| == |st.buckets[Hash(pgno)]| + 2
  {
    alls[Hash(pgno)][Position(st, pgno, subno) + 1]
  }

  ghost predicate Placed(alls: seq<seq<Node>>, st: State) {
    Formed(st) && |alls| == HASH_SIZE && forall h :: 0 <= h < HASH_SIZE ==> |alls[h]| == |st.buckets[h]| + 2
  }

  /** A lookup has come to the node `cp`, and found a page there or not. */
  ghost predicate Shown(alls: seq<seq<Node>>, st: State, p: int, s: int, cp: Node, found: bool)
    reads cp
  {
    && p >= 0 && Placed(alls, st) && cp == NodeIn(alls, st, p, s)
    && Lookup(st, p, s) == if found then Some(cp.page) else None
  }

  /** The position that the walk comes to next. */
  ghost predicate Next(hi: seq<nat>, dir: int, pgno: int, subno: int, p: int, s: int) {
    && Covered(hi, p, s) && 0 <= s < SPAN && Effective(hi, dir, p, s) == Code(p, s)
    && FIRST_PAGE <= pgno <= LAST_PAGE < |hi|
    && var from := Effective(hi, dir, pgno, subno);
       Clear(hi, dir, from, Reach(dir, from, Code(p, s)))
  }

  /** What the loop of the search keeps; `first` is the node it met first. */
  ghost predicate Searching(st: State, alls: seq<seq<Node>>, dir: int, from: int, accept: RawPage -> bool,
                            pgno: int, subno: int, first: Node?, w: Walk, trace: seq<Page>) {
    && Placed(alls, st) && FIRST_PAGE <= pgno <= LAST_PAGE && 0 <= subno < SPAN
    && Effective(st.hi, dir, pgno, subno) == w.c
    && Going(st, dir, from, accept, w, trace)
    && (first == null <==> w.first.None?)
    && (w.first.Some? ==>
          var (p, s) := w.first.value;
          p >= 0 && first == NodeIn(alls, st, p, s) && Lookup(st, p, s).Some?)
  }

  lemma SearchingRange(st: State, alls: seq<seq<Node>>, dir: int, from: int, accept: RawPage -> bool,
                       pgno: int, subno: int, first: Node?, w: Walk, trace: seq<Page>)
    requires Searching(st, alls, dir, from, accept, pgno, subno, first, w, trace)
    ensures FIRST_PAGE <= pgno <= LAST_PAGE && 0 <= subno < SPAN
  {
  }

  lemma SearchBegins(st: State, alls: seq<seq<Node>>, dir: int, from: int, accept: RawPage -> bool, pgno: int,
      subno: int)
    requires Inv(st) && Placed(alls, st) && IsDir(dir) && FIRST_PAGE <= pgno <= LAST_PAGE && 0 <= subno < SPAN
    requires from == Effective(st.hi, dir, pgno, subno) && IsCode(from)
    ensures Searching(st, alls, dir, from, accept, pgno, subno, null, Walk(from, 0, Signed(dir, from), None), [])
  {
    GoingBegins(st, dir, from, accept);
  }

  lemma SearchBounded(st: State, alls: seq<seq<Node>>, dir: int, from: int, accept: RawPage -> bool,
                      pgno: int, subno: int, first: Node?, w: Walk, trace: seq<Page>, q: Page)
    requires IsDir(dir) && Searching(st, alls, dir, from, accept, pgno, subno, first, w, trace) && Hit(st, q.pgno, q.subno)
    ensures w.t < Signed(dir, from) + 2 * ROUND
  {
    GoingBounded(st, dir, from, accept, w, trace, q.pgno, q.subno);
  }

  class Cache {
    const hash: array<DlList>
    const hi: array<nat>
    var npages: int
    var erc: bool
    ghost var Repr: set<object>

    ghost predicate Valid()
      reads this, Repr
    {
      && this in Repr && hash in Repr && hi in Repr && hash.Length == HASH_SIZE && hi.Length == LAST_PAGE + 1
      && (forall h :: 0 <= h < HASH_SIZE ==>
            && hash[h] in Repr
            && (forall k :: 0 <= k < |hash[h].all| ==> hash[h].all[k] in Repr)
            && hash[h].Valid())
      && (forall g, h :: 0 <= g < h < HASH_SIZE ==> hash[g] != hash[h])
    }

    ghost function Buckets(): (b: seq<seq<Page>>)
      requires Valid()
      reads this, Repr
      ensures |b| == HASH_SIZE && forall h :: 0 <= h < HASH_SIZE ==> b[h] == hash[h].Pages()
    {
      seq(HASH_SIZE, h requires 0 <= h < HASH_SIZE && Valid() reads this, Repr => hash[h].Pages())
    }

    ghost function Value(): (st: State)
      requires Valid()
      reads this, Repr
      ensures Formed(st)
    {
      State(Buckets(), hi[..], npages, erc)
    }

    /** The empty cache of `cache_open`, before the help pages are put into it. */
    constructor ()
      ensures Valid() && Value() == Empty() && fresh(Repr)
    {
      hide DlList.Valid, DlList.Pages;
      var lists, footprint := NewLists();
      hash := lists;
      hi := new nat[LAST_PAGE + 1](_ => 0);
      npages, erc := 0, true;
      new;
      Repr := {this, hash, hi} + footprint;
      assert Buckets() == Empty().buckets && hi[..] == Empty().hi;
    }

    /** List `h` alone has changed, with its nodes. */
    twostate lemma BucketChanged(h: nat)
      requires h < HASH_SIZE && old(Valid()) && unchanged(hash) && old(Repr) <= Repr && hash[h].Valid()
      requires forall k :: 0 <= k < |hash[h].all| ==> hash[h].all[k] in Repr
      requires forall g :: 0 <= g < HASH_SIZE && g != h ==> unchanged(hash[g]) && unchanged(old(hash[g].all))
      ensures Valid() && Buckets() == old(Buckets())[h := hash[h].Pages()]
    {
      forall g | 0 <= g < HASH_SIZE && g != h
        ensures hash[g].Valid() && hash[g].Pages() == old(hash[g].Pages())
        ensures forall k :: 0 <= k < |hash[g].all| ==> hash[g].all[k] in Repr
      {
        assert old(hash[g].Valid()) && hash[g].all == old(hash[g].all);
      }
    }

    /** No node of another list is one of list `h`, and every node has an owner. */
    lemma Apart(h: nat)
      requires Valid() && h < HASH_SIZE
      ensures forall g, k :: 0 <= g < HASH_SIZE && g != h && 0 <= k < |hash[g].all| ==>
        hash[g].all[k] !in hash[h].all && hash[g].all[k].owner != null
    {
      forall g, k | 0 <= g < HASH_SIZE && g != h && 0 <= k < |hash[g].all|
        ensures hash[g].all[k] !in hash[h].all && hash[g].all[k].owner != null
      {
        assert hash[g].Valid() && hash[h].Valid() && hash[g].all[k].owner == hash[g];
      }
    }

    /** The node that `cache_lookup` finds, or the tail of its bucket. */
    method LookupNode(pgno: int, subno: int) returns (cp: Node, found: bool)
      requires Valid() && pgno >= 0
      ensures cp == hash[Hash(pgno)].all[Position(Value(), pgno, subno) + 1]
      ensures if found then Lookup(Value(), pgno, subno) == Some(cp.page) else Lookup(Value(), pgno, subno) == None
    {
      ghost var i;
      cp, i := hash[Hash(pgno)].Search(Wanted(pgno, subno));
      found := cp.next != null;
    }

    method Touch(h: nat, cp: Node, ghost i: nat)
      requires Valid() && h < HASH_SIZE && i < |hash[h].Pages()| && hash[h].all[i + 1] == cp
      modifies hash[h], hash[h].all
      ensures Valid() && Repr == old(Repr) && hash[h].all[1] == cp && cp.page == old(cp.page)
      ensures Value() == WithBucket(old(Value()), h, ToFront(old(Value()).buckets[h], i))
    {
      Apart(h);
      hash[h].MoveToFront(cp, i);
      BucketChanged(h);
    }

    method Store(h: nat, cp: Node, page: Page)
      requires Valid() && h < HASH_SIZE && Value().buckets[h] != [] && hash[h].all[1] == cp
      modifies cp
      ensures Valid() && Repr == old(Repr)
      ensures Value() == WithBucket(old(Value()), h, [page] + old(Value()).buckets[h][1..])
    {
      Apart(h);
      hash[h].StoreFirst(cp, page);
      BucketChanged(h);
    }

    method Add(h: nat, page: Page)
      requires Valid() && h < HASH_SIZE
      modifies this`Repr, hash[h], hash[h].all
      ensures Valid() && fresh(Repr - old(Repr))
      ensures Value() == WithBucket(old(Value()), h, [page] + old(Value()).buckets[h])
    {
      Apart(h);
      var cp := new Node(page);
      hash[h].InsertFirst(cp);
      Repr := Repr + {cp};
      BucketChanged(h);
    }

    /** `cache_get` */
    method GetPage(pgno: int, subno: int) returns (r: Option<Page>)
      requires Valid() && pgno >= 0
      modifies Repr
      ensures Valid() && Repr == old(Repr)
      ensures (Value(), r) == Get(old(Value()), pgno, subno)
    {
      var h := Hash(pgno);
      var cp, i := hash[h].Search(Wanted(pgno, subno));
      if cp.next == null {
        return None;
      }
      Touch(h, cp, i);
      return Some(cp.page);
    }

    /** `cache_put` */
    method PutPage(vtp: Page) returns (stored: Page)
      requires Valid() && Storable(vtp)
      modifies Repr
      ensures Valid() && fresh(Repr - old(Repr))
      ensures Value() == Put(old(Value()), vtp) && Value().buckets[Hash(vtp.pgno)][..1] == [stored]
    {
      hide Put, Merge, Value, Valid;
      var cp, i := SearchKey(vtp.pgno, vtp.subno);
      if cp.next != null {
        stored := PutOld(cp, i, vtp);
      } else {
        stored := vtp;
        PutFirst(vtp);
      }
    }

    method SearchKey(pgno: int, subno: int) returns (cp: Node, ghost i: nat)
      requires Valid() && pgno >= 0
      ensures Formed(Value()) && i == KeyPosition(Value(), pgno, subno) && cp == hash[Hash(pgno)].all[i + 1]
      ensures cp.next == null <==> i == |Value().buckets[Hash(pgno)]|
    {
      cp, i := hash[Hash(pgno)].Search(Keyed(pgno, subno));
    }

    method PutOld(cp: Node, ghost i: nat, vtp: Page) returns (stored: Page)
      requires Valid() && Storable(vtp) && i == KeyPosition(Value(), vtp.pgno, vtp.subno)
      requires i < |Value().buckets[Hash(vtp.pgno)]| && cp == hash[Hash(vtp.pgno)].all[i + 1]
      modifies Repr
      ensures Valid() && Repr == old(Repr)
      ensures Value() == Put(old(Value()), vtp) && Value().buckets[Hash(vtp.pgno)][..1] == [stored]
    {
      PutKnown(Value(), vtp);
      assert hash.Length == HASH_SIZE;
      hide Put, Merge, Value;
      stored := Update(Hash(vtp.pgno), cp, i, vtp);
    }

    method PutFirst(vtp: Page)
      requires Valid() && Storable(vtp)
      requires KeyPosition(Value(), vtp.pgno, vtp.subno) == |Value().buckets[Hash(vtp.pgno)]|
      modifies Repr
      ensures Valid() && fresh(Repr - old(Repr))
      ensures Value() == Put(old(Value()), vtp) && Value().buckets[Hash(vtp.pgno)][..1] == [vtp]
    {
      PutNew(Value(), vtp);
      assert hash.Length == HASH_SIZE;
      hide Put, Value, Valid;
      Index(vtp.pgno, vtp.subno);
      Add(Hash(vtp.pgno), vtp);
    }

    /** The page is in the cache: the node comes to the front and takes the merged page. */
    method Update(h: nat, cp: Node, ghost i: nat, vtp: Page) returns (stored: Page)
      requires Valid() && h < HASH_SIZE && i < |Value().buckets[h]| && hash[h].all[i + 1] == cp
      modifies hash[h], hash[h].all
      ensures Valid() && Repr == old(Repr)
      ensures stored == if old(Value()).erc then Merge(old(Value()).buckets[h][i], vtp) else vtp
      ensures Value()
           == WithBucket(old(Value()), h, [stored] + old(Value()).buckets[h][..i] + old(Value()).buckets[h][i + 1..])
    {
      hide Merge;
      stored := vtp;
      Touch(h, cp, i);
      if erc {
        stored := DoErc(cp.page, vtp);
      }
      Store(h, cp, stored);
      FrontStored(old(Value()).buckets[h], i, stored);
    }

    /** A new page is counted and indexed. */
    method Index(pgno: nat, subno: nat)
      requires Valid() && pgno <= LAST_PAGE
      modifies this`npages, hi
      ensures Valid() && Repr == old(Repr)
      ensures
        var was := old(Value());
        Value() == was.(npages := was.npages + 1,
                        hi := if subno >= was.hi[pgno] then was.hi[pgno := subno + 1] else was.hi)
    {
      npages := npages + 1;
      if subno >= hi[pgno] {
        hi[pgno] := subno + 1;
      }
      ListsKept();
    }

    lemma FrontStored(b: seq<Page>, i: nat, page: Page)
      requires i < |b|
      ensures [page] + ToFront(b, i)[1..] == [page] + b[..i] + b[i + 1..]
    {
    }

    /** No list and no node has changed. */
    twostate lemma ListsKept()
      requires old(Valid()) && unchanged(hash) && Repr == old(Repr)
      requires forall g :: 0 <= g < HASH_SIZE ==> unchanged(hash[g]) && unchanged(old(hash[g].all))
      ensures Valid() && Buckets() == old(Buckets())
    {
      BucketChanged(0);
    }

    /** The `memset` of `cache_reset` */
    method ClearIndex()
      requires Valid()
      modifies hi
      ensures Valid() && Buckets() == old(Buckets()) && hi[..] == seq(HELP_PAGES, _ => 0) + old(hi[..])[HELP_PAGES..]
    {
      var n := 0;
      while n < HELP_PAGES
        invariant 0 <= n <= HELP_PAGES
        invariant forall k :: 0 <= k < n ==> hi[k] == 0
        invariant forall k :: n <= k < hi.Length ==> hi[k] == old(hi[k])
      {
        hi[n] := 0;
        n := n + 1;
      }
      ListsKept();
    }

    /** `cache_reset` */
    method ResetAll()
      requires Valid()
      modifies Repr
      ensures Valid() && Repr == old(Repr) && Value() == Reset(old(Value()))
    {
      DropPages();
      hide HelpPages, Total;
      ClearIndex();
    }

    /** The loop of `cache_reset` over the buckets. */
    method DropPages()
      requires Valid()
      modifies Repr
      ensures Valid() && Repr == old(Repr) && erc == old(erc) && unchanged(hi)
      ensures Buckets() == HelpPages(old(Buckets()))
      ensures npages == old(npages) - (Total(old(Buckets())) - Total(Buckets()))
    {
      hide HelpOnly, Total;
      ghost var was := Buckets();
      var h: nat := 0;
      while h < HASH_SIZE
        invariant h <= HASH_SIZE && Valid() && Repr == old(Repr) && erc == old(erc) && unchanged(hi) && unchanged(hash)
        invariant forall g :: 0 <= g < HASH_SIZE ==> Buckets()[g] == if g < h then HelpOnly(was[g]) else was[g]
        invariant npages == old(npages) - (Total(was) - Total(Buckets()))
      {
        DropFrom(h);
        h := h + 1;
      }
    }

    method DropFrom(h: nat)
      requires Valid() && h < HASH_SIZE
      modifies this`npages, hash[h], hash[h].all
      ensures Valid() && Repr == old(Repr)
      ensures Buckets() == old(Buckets())[h := HelpOnly(old(Buckets())[h])]
      ensures npages == old(npages) - (Total(old(Buckets())) - Total(Buckets()))
    {
      hide Total, HelpOnly;
      Apart(h);
      var removed := hash[h].KeepHelp();
      npages := npages - removed;
      BucketChanged(h);
      TotalOfUpdate(old(Buckets()), h, hash[h].Pages());
    }

    /** `cache_mode` with CACHE_MODE_ERC */
    method SetErc(on: bool) returns (was: bool)
      requires Valid()
      modifies this`erc
      ensures Valid() && was == old(erc) && Value() == old(Value()).(erc := on)
    {
      was := erc;
      erc := on;
      assert Buckets() == old(Buckets());
    }

    ghost function Nodes(): (alls: seq<seq<Node>>)
      requires Valid()
      reads this, Repr
      ensures |alls| == HASH_SIZE && forall h :: 0 <= h < HASH_SIZE ==> alls[h] == hash[h].all
    {
      seq(HASH_SIZE, h requires 0 <= h < HASH_SIZE && Valid() reads this, Repr => hash[h].all)
    }

    /** The cache stands for a value, in these nodes. */
    ghost predicate Stands(st: State, alls: seq<seq<Node>>)
      reads this, Repr
    {
      Valid() && st == Value() && alls == Nodes() && Inv(st)
    }

    /** The next position of a search, and the lookup there. */
    method NextLookup(pgno: int, subno: int, dir: int, ghost n: int, ghost st: State, ghost alls: seq<seq<Node>>)
      returns (p: int, s: int, cp: Node, found: bool)
      requires Stands(st, alls) && IsDir(dir) && FIRST_PAGE <= pgno <= LAST_PAGE && 0 <= subno < SPAN
      requires Covered(st.hi, n, 0)
      ensures Stands(st, alls) && Shown(alls, st, p, s, cp, found) && Next(st.hi, dir, pgno, subno, p, s)
    {
      p, s := NextCovered(pgno, subno, dir, n, st, alls);
      NextPlaced(st, alls);
      hide Next;
      cp, found := LookupNode(p, s);
    }

    lemma NextPlaced(st: State, alls: seq<seq<Node>>)
      requires Stands(st, alls)
      ensures Placed(alls, st)
    {
    }

    method NextCovered(pgno: int, subno: int, dir: int, ghost n: int, ghost st: State, ghost alls: seq<seq<Node>>)
      returns (p: int, s: int)
      requires Stands(st, alls) && IsDir(dir) && FIRST_PAGE <= pgno <= LAST_PAGE && 0 <= subno < SPAN
      requires Covered(st.hi, n, 0)
      ensures Stands(st, alls) && FIRST_PAGE <= p <= LAST_PAGE && Next(st.hi, dir, pgno, subno, p, s)
    {
      IndexRange(st);
      hide Clear, Inv, Covered, Effective, Reach;
      p, s := NextPosition(hi, pgno, subno, dir, n);
      EffectiveThere(st.hi, dir, p, s);
    }

    /** Where `cache_foreach_pg` starts. */
    method StartPosition(pgno: int, subno0: int, dir: int, ghost st: State, ghost alls: seq<seq<Node>>)
      returns (subno: int)
      requires Stands(st, alls) && IsDir(dir) && FIRST_PAGE <= pgno <= LAST_PAGE && 0 <= subno0 < SPAN
      ensures Stands(st, alls)
      ensures 0 <= subno < SPAN && Effective(st.hi, dir, pgno, subno) == Start(st, pgno, subno0, dir)
      ensures IsCode(Start(st, pgno, subno0, dir))
    {
      subno := subno0;
      var cp, found := LookupNode(pgno, subno);
      if found {
        subno := cp.page.subno;
        LookupStorable(st, pgno, subno0);
      } else if subno == ANY_SUB {
        subno := if dir < 0 then 0 else 0xffff;
      }
      IndexRange(st);
      FirstClear(st.hi, dir, pgno, subno);
    }

    /** One turn of the loop: the next position, and what is found there. */
    method TryNext(dir: int, accept: RawPage -> bool, pgno: int, subno: int, first: Node?,
                   ghost n: int, ghost st: State, ghost alls: seq<seq<Node>>, ghost from: int, ghost w: Walk,
                   ghost trace: seq<Page>)
      returns (p: int, s: int, met: Node?, end: bool, r: Option<Page>, ghost w': Walk, ghost trace': seq<Page>)
      requires Stands(st, alls) && IsDir(dir) && Covered(st.hi, n, 0)
      requires Searching(st, alls, dir, from, accept, pgno, subno, first, w, trace)
      ensures Stands(st, alls)
      ensures if end then Ends(st, dir, from, accept, r, trace')
              else Searching(st, alls, dir, from, accept, p, s, met, w', trace') && w'.t > w.t
    {
      hide *;
      SearchingRange(st, alls, dir, from, accept, pgno, subno, first, w, trace);
      var cp, found;
      p, s, cp, found := NextLookup(pgno, subno, dir, n, st, alls);
      OneTurn(st, alls, dir, from, accept, pgno, subno, first, w, trace, p, s, cp, found);
      met, end, r := first, false, None;
      w', trace' := w, trace;
      if found && first == cp {
        end := true;
      } else if found && accept(cp.page) {
        end, r, trace' := true, Some(cp.page), trace + [cp.page];
      } else {
        met := if found && first == null then cp else first;
        w', trace' := NextWalk(st, dir, w, p, s), NextTrace(st, trace, p, s);
      }
    }

    /** What a turn of the loop comes to, in each of its three branches. */
    lemma OneTurn(st: State, alls: seq<seq<Node>>, dir: int, from: int, accept: RawPage -> bool, pgno: int, subno: int,
                  first: Node?, w: Walk, trace: seq<Page>, p: int, s: int, cp: Node, found: bool)
      requires Stands(st, alls) && IsDir(dir) && Searching(st, alls, dir, from, accept, pgno, subno, first, w, trace)
      requires Shown(alls, st, p, s, cp, found) && Next(st.hi, dir, pgno, subno, p, s)
      ensures Formed(st) && p >= 0
      ensures
        if found && first == cp then Ends(st, dir, from, accept, None, trace)
        else if found && accept(cp.page) then Ends(st, dir, from, accept, Some(cp.page), trace + [cp.page])
        else
          var (w', trace') := (NextWalk(st, dir, w, p, s), NextTrace(st, trace, p, s));
          && Searching(st, alls, dir, from, accept, p, s, if found && first == null then cp else first, w', trace')
          && w'.t > w.t
    {
      if first != null {
        PageShown(st, alls, w.first.value.0, w.first.value.1);
      }
      hide Going, Exact, Searched, Clear, Inv, Valid, Value, Nodes, Covered, Effective, Signed, Code, Reach;
      Turn(st, dir, from, accept, w, trace, p, s, found && first == cp);
    }

    lemma PageShown(st: State, alls: seq<seq<Node>>, p: int, s: int)
      requires Stands(st, alls) && p >= 0 && Lookup(st, p, s).Some?
      ensures Lookup(st, p, s).value == NodeIn(alls, st, p, s).page
    {
    }

    /**
     `cache_foreach_pg`. It ends on every cache; the pages are tried in the order of `Searched` when every position
     gives its own page.
     */
    method ForEachPage(pgno0: int, subno0: int, dir: int, accept: RawPage -> bool) returns (r: Option<Page>,
        ghost trace: seq<Page>)
      requires Valid() && Inv(Value()) && IsDir(dir) && FIRST_PAGE <= pgno0 <= LAST_PAGE && 0 <= subno0 < SPAN
      ensures r.Some? ==> accept(r.value) && Findable(old(Value()), r.value)
      ensures Exact(old(Value())) ==> Searched(old(Value()), dir, Start(old(Value()), pgno0, subno0, dir), accept, r, trace)
    {
      ghost var (st, alls) := (Value(), Nodes());
      ghost var from := Start(st, pgno0, subno0, dir);
      if npages == 0 {
        NothingToSearch(st, dir, from, accept);
        return None, [];
      }
      r, trace := SearchLoop(pgno0, subno0, dir, accept, st, alls);
    }

    method SearchLoop(pgno0: int, subno0: int, dir: int, accept: RawPage -> bool, ghost st: State,
        ghost alls: seq<seq<Node>>)
      returns (r: Option<Page>, ghost trace: seq<Page>)
      requires Stands(st, alls) && IsDir(dir) && FIRST_PAGE <= pgno0 <= LAST_PAGE && 0 <= subno0 < SPAN && st.npages != 0
      ensures Ends(st, dir, Start(st, pgno0, subno0, dir), accept, r, trace)
    {
      ghost var from := Start(st, pgno0, subno0, dir);
      ghost var q := SomePage(st);
      hide *;
      var (pgno, subno) := (pgno0, subno0);
      subno := StartPosition(pgno, subno, dir, st, alls);
      var first: Node? := null;
      ghost var w := Walk(from, 0, Signed(dir, from), None);
      trace := [];
      SearchBegins(st, alls, dir, from, accept, pgno, subno);
      while true
        invariant Stands(st, alls) && Searching(st, alls, dir, from, accept, pgno, subno, first, w, trace)
        decreases Signed(dir, from) + 2 * ROUND - w.t
      {
        SearchBounded(st, alls, dir, from, accept, pgno, subno, first, w, trace, q);
        var end;
        pgno, subno, first, end, r, w, trace := TryNext(dir, accept, pgno, subno, first, q.pgno, st, alls, from, w, trace);
        if end {
          return;
        }
      }
    }

    lemma IndexRange(st: State)
      requires Inv(st)
      ensures |st.hi| == LAST_PAGE + 1 && forall n :: 0 <= n <= LAST_PAGE ==> st.hi[n] < SPAN
    {
    }

    lemma LookupStorable(st: State, pgno: int, subno: int)
      requires Inv(st) && pgno >= 0 && Lookup(st, pgno, subno).Some?
      ensures Storable(Lookup(st, pgno, subno).value)
    {
      assert BucketOk(st.buckets[Hash(pgno)], Hash(pgno), st.hi);
    }
  }

  method NewLists() returns (lists: array<DlList>, ghost footprint: set<object>)
    ensures lists.Length == HASH_SIZE && fresh(lists) && fresh(footprint) && lists !in footprint
    ensures forall h :: 0 <= h < HASH_SIZE ==>
      && lists[h] in footprint && lists[h].Valid() && lists[h].Pages() == []
      && forall k :: 0 <= k < |lists[h].all| ==> lists[h].all[k] in footprint
    ensures forall g, h :: 0 <= g < h < HASH_SIZE ==> lists[g] != lists[h]
  {
    hide DlList.Valid, DlList.Pages;
    var first := new DlList();
    lists := new DlList[HASH_SIZE](_ => first);
    footprint := {};
    var i := 0;
    while i < HASH_SIZE
      invariant 0 <= i <= HASH_SIZE && fresh(footprint) && lists !in footprint
      invariant forall h :: 0 <= h < i ==>
        && lists[h] in footprint && lists[h].Valid() && lists[h].Pages() == []
        && forall k :: 0 <= k < |lists[h].all| ==> lists[h].all[k] in footprint
      invariant forall g, h :: 0 <= g < h < i ==> lists[g] != lists[h]
    {
      var list := new DlList();
      lists[i] := list;
      footprint := footprint + {list} + set n | n in list.all;
      i := i + 1;
    }
  }
}
