/** What the cache holds after any run: for each key the merge of its receptions, util/alevt/cache.c. */
module CacheStores {
  import opened CacheModel
  import opened Pages
  import opened Wrappers

  /**
   The receptions of a page that make up what is stored of it: all since a reset has dropped it, or since one that
   replaced it while error reduction was off.
   */
  function Receptions(ops: seq<Op>, n: int, s: int): seq<Page>
    requires AllAllowed(ops)
  {
    if ops == [] then []
    else
      var (before, op) := (ops[..|ops| - 1], ops[|ops| - 1]);
      match op
      case DoPut(p) =>
        if p.pgno != n || p.subno != s then Receptions(before, n, s)
        else if Switched(before) then Receptions(before, n, s) + [p]
        else [p]
      case DoReset => if n / 0x100 == 9 then Receptions(before, n, s) else []
      case DoGet(_, _) => Receptions(before, n, s)
      case DoMode(_) => Receptions(before, n, s)
  }

  lemma StoredSnoc(rs: seq<Page>, p: Page)
    ensures Stored(rs + [p]) == if rs == [] then p else Merge(Stored(rs), p)
  {
    assert (rs + [p])[..|rs|] == rs;
  }

  /** The map entry after one more operation. */
  function Entry(st: State, op: Op, n: int, s: int): Option<Page>
    requires Formed(st) && Allowed(op) && n >= 0
  {
    match op
    case DoPut(p) =>
      if !Is(p, n, s) then Find(st, n, s)
      else if Find(st, n, s).Some? && st.erc then Some(Merge(Find(st, n, s).value, p))
      else Some(p)
    case DoReset => if n / 0x100 == 9 then Find(st, n, s) else None
    case DoGet(_, _) => Find(st, n, s)
    case DoMode(_) => Find(st, n, s)
  }

  lemma TakeEntry(st: State, op: Op, n: int, s: int)
    requires Inv(st) && Allowed(op) && n >= 0
    ensures Find(Take(st, op), n, s) == Entry(st, op, n, s)
  {
    match op
    case DoGet(pgno, subno) => GetKeepsMap(st, pgno, subno, n, s);
    case DoPut(p) => PutUpdatesMap(st, p, n, s);
    case DoReset => ResetFiltersMap(st, n, s);
    case DoMode(_) =>
  }

  /** In every run a key that has no reception is not in the cache, and any other holds the merge of its receptions. */
  lemma {:induction false} CacheHolds(ops: seq<Op>, n: int, s: int)
    requires AllAllowed(ops) && n >= 0
    ensures Find(After(ops), n, s) == if Receptions(ops, n, s) == [] then None else Some(Stored(Receptions(ops, n, s)))
  {
    if ops == [] {
      NothingHeld(n, s);
    } else {
      var (before, op) := (ops[..|ops| - 1], ops[|ops| - 1]);
      CacheHolds(before, n, s);
      RunInv(before);
      TakeEntry(After(before), op, n, s);
      ModeHolds(before);
      var rs := Receptions(before, n, s);
      if op.DoPut? {
        StoredSnoc(rs, op.page);
        StoredSnoc([], op.page);
        assert [] + [op.page] == [op.page];
      }
      hide After, Take, Find, Stored, Merge, Inv;
      assert After(ops) == Take(After(before), op) by {
        LastStep(ops);
      }
    }
  }

  lemma NothingHeld(n: int, s: int)
    requires n >= 0
    ensures Find(After([]), n, s) == None
  {
  }

  /** Asking for a page gives just that; 0x3f7f alone asks for any subpage. */
  lemma GetGives(ops: seq<Op>, n: int, s: int)
    requires AllAllowed(ops) && n >= 0 && s != 0x3f7f
    ensures Get(After(ops), n, s).1
         == if Receptions(ops, n, s) == [] then None else Some(Stored(Receptions(ops, n, s)))
  {
    CacheHolds(ops, n, s);
    LookupIsFind(After(ops), n, s);
  }

  /** Error reduction is on at first, and then as it was last switched. */
  function Switched(ops: seq<Op>): bool {
    if ops == [] then true
    else if ops[|ops| - 1].DoMode? then ops[|ops| - 1].erc
    else Switched(ops[..|ops| - 1])
  }

  lemma {:induction false} ModeHolds(ops: seq<Op>)
    requires AllAllowed(ops)
    ensures After(ops).erc == Switched(ops)
  {
    if ops != [] {
      ModeHolds(ops[..|ops| - 1]);
    }
  }

  /**
   The cache holds a row if and only if it was received, and a good character if and only if one was received there.
   */
  lemma CacheGoodIff(ops: seq<Op>, n: int, s: int, l: nat, c: nat)
    requires AllAllowed(ops) && n >= 0 && l < H && c < W
    requires Receptions(ops, n, s) != [] && AllHonest(Receptions(ops, n, s))
    ensures var (rs, held) := (Receptions(ops, n, s), Find(After(ops), n, s));
      && held.Some?
      && (l in held.value.lines <==> exists i :: 0 <= i < |rs| && l in rs[i].lines)
      && (Good(held.value, l, c) <==> GoodIn(rs, l, c))
  {
    CacheHolds(ops, n, s);
    StoredGoodIff(Receptions(ops, n, s), l, c);
  }

  /** At every received position the cache holds the good character that was received last. */
  lemma CacheLastGood(ops: seq<Op>, n: int, s: int, l: nat, c: nat)
    requires AllAllowed(ops) && n >= 0 && l < H && c < W
    requires AllHonest(Receptions(ops, n, s)) && l in Rows(Receptions(ops, n, s))
    ensures var held := Find(After(ops), n, s);
      held.Some? && held.value.data[l][c] == LastGood(Receptions(ops, n, s), l, c)
  {
    CacheHolds(ops, n, s);
    StoredLastGood(Receptions(ops, n, s), l, c);
  }

  /** Everything but the rows and their characters is that of the last reception. */
  lemma CacheLastFields(ops: seq<Op>, n: int, s: int)
    requires AllAllowed(ops) && n >= 0 && Receptions(ops, n, s) != []
    ensures
      var (rs, held) := (Receptions(ops, n, s), Find(After(ops), n, s));
      && held.Some?
      && var (p, q) := (held.value, rs[|rs| - 1]);
         && p.pgno == q.pgno && p.subno == q.subno && p.lang == q.lang && p.flags == q.flags && p.errors == q.errors
         && p.flof == q.flof && p.links == q.links
  {
    CacheHolds(ops, n, s);
    StoredFields(Receptions(ops, n, s));
  }

  /**
   Two runs that receive the same agreeing versions of a page, in any order and any number of times, hold the same
   rows and characters of it.
   */
  lemma CacheOrderFree(ops: seq<Op>, others: seq<Op>, n: int, s: int, l: nat, c: nat)
    requires AllAllowed(ops) && AllAllowed(others) && n >= 0 && l < H && c < W
    requires var (rs, ss) := (Receptions(ops, n, s), Receptions(others, n, s));
      rs != [] && AllHonest(rs) && AllHonest(ss) && Agree(rs) && forall p :: p in rs <==> p in ss
    ensures var (held, held') := (Find(After(ops), n, s), Find(After(others), n, s));
      && held.Some? && held'.Some?
      && (l in held.value.lines <==> l in held'.value.lines)
      && (l in held.value.lines ==> held.value.data[l][c] == held'.value.data[l][c])
  {
    var (rs, ss) := (Receptions(ops, n, s), Receptions(others, n, s));
    assert rs[0] in ss;
    CacheHolds(ops, n, s);
    CacheHolds(others, n, s);
    StoredOrderFree(rs, ss, l, c);
  }
}
