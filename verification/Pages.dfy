/** Teletext pages, and the merge of two receptions of one page: util/alevt/vt.h and `do_erc` of util/alevt/cache.c. */
module Pages {
  import opened Bytes

  const BAD_CHAR: byte := 0xb8
  const H: nat := 25
  const W: nat := 40

  /** `lines` holds the rows that were received. */
  datatype RawPage = RawPage(pgno: int, subno: int, lang: int, flags: int, errors: int, lines: set<nat>,
                             data: seq<seq<byte>>, flof: int, links: seq<(int, int)>)

  predicate Shaped(p: RawPage) {
    |p.data| == H && forall l :: 0 <= l < H ==> |p.data[l]| == W
  }

  const BLANK: RawPage := RawPage(0, 0, 0, 0, 0, {}, seq(H, _ => seq(W, _ => 0x20)), 0, [])

  type Page = p: RawPage | Shaped(p) witness BLANK

  function MergeRow(o: seq<byte>, n: seq<byte>): (r: seq<byte>)
    requires |o| == |n|
    ensures |r| == |n|
    ensures forall c :: 0 <= c < |n| ==> r[c] == if n[c] == BAD_CHAR then o[c] else n[c]
  {
    seq(|n|, c requires 0 <= c < |n| => if n[c] == BAD_CHAR then o[c] else n[c])
  }

  function MergedRow(o: Page, n: Page, l: nat): (r: seq<byte>)
    requires l < H
    ensures |r| == W
  {
    if l !in n.lines then o.data[l]
    else if l in o.lines then MergeRow(o.data[l], n.data[l])
    else n.data[l]
  }

  /** What `do_erc` makes of a new reception, given the old one. */
  function Merge(o: Page, n: Page): Page
  {
    if n.errors == 0 && o.lines == n.lines then n
    else n.(data := seq(H, l requires 0 <= l < H => MergedRow(o, n, l)), lines := n.lines + o.lines)
  }

  /** `do_erc`: the new reception is completed row by row, character by character. */
  method DoErc(o: Page, n: Page) returns (r: Page)
    ensures r == Merge(o, n)
  {
    r := n;
    if n.errors == 0 && o.lines == n.lines {
      return;
    }
    var data := n.data;
    var l: nat := 0;
    while l < H
      invariant l <= H && |data| == H
      invariant forall k :: 0 <= k < l ==> data[k] == MergedRow(o, n, k)
      invariant forall k :: l <= k < H ==> data[k] == n.data[k]
    {
      if l !in n.lines {
        data := data[l := o.data[l]];
      } else if l in o.lines {
        var row := MergeChars(o.data[l], n.data[l]);
        data := data[l := row];
      }
      l := l + 1;
    }
    r := n.(data := data, lines := n.lines + o.lines);
    assert data == Merge(o, n).data;
  }

  method MergeChars(o: seq<byte>, n: seq<byte>) returns (r: seq<byte>)
    requires |o| == |n|
    ensures r == MergeRow(o, n)
  {
    r := n;
    var c := 0;
    while c < |n|
      invariant 0 <= c <= |n| && |r| == |n|
      invariant forall k :: 0 <= k < c ==> r[k] == MergeRow(o, n)[k]
      invariant forall k :: c <= k < |n| ==> r[k] == n[k]
    {
      if r[c] == BAD_CHAR {
        r := r[c := o[c]];
      }
      c := c + 1;
    }
  }

  // ----- many receptions of one page

  /** What is stored after the receptions, each merged into what was stored before. */
  function Stored(rs: seq<Page>): Page
    requires rs != []
  {
    if |rs| == 1 then rs[0] else Merge(Stored(rs[..|rs| - 1]), rs[|rs| - 1])
  }

  /** A page without errors has no bad character. */
  predicate Honest(p: Page) {
    p.errors == 0 ==> forall l, c :: l in p.lines && l < H && 0 <= c < W ==> p.data[l][c] != BAD_CHAR
  }

  predicate Good(p: Page, l: nat, c: nat)
    requires l < H && c < W
  {
    l in p.lines && p.data[l][c] != 0xb8
  }

  predicate AllHonest(rs: seq<Page>) {
    forall i :: 0 <= i < |rs| ==> Honest(rs[i])
  }

  /** The character of the latest reception that has a good one. */
  function LastGood(rs: seq<Page>, l: nat, c: nat): byte
    requires l < H && c < W
  {
    if rs == [] then BAD_CHAR
    else if Good(rs[|rs| - 1], l, c) then rs[|rs| - 1].data[l][c]
    else LastGood(rs[..|rs| - 1], l, c)
  }

  function Rows(rs: seq<Page>): set<nat> {
    if rs == [] then {} else Rows(rs[..|rs| - 1]) + rs[|rs| - 1].lines
  }

  lemma {:induction false} StoredRows(rs: seq<Page>)
    requires rs != [] && AllHonest(rs)
    ensures Stored(rs).lines == Rows(rs)
  {
    if |rs| > 1 {
      StoredRows(rs[..|rs| - 1]);
    } else {
      assert rs[..0] == [];
    }
  }

  lemma MergeChar(o: Page, n: Page, l: nat, c: nat)
    requires Honest(n) && l < H && c < W && l in o.lines + n.lines
    ensures Merge(o, n).data[l][c] == if Good(n, l, c) then n.data[l][c] else if l in o.lines then o.data[l][c] else BAD_CHAR
  {
  }

  /** At every received position the store holds the latest good character, and a bad one only if there was none. */
  lemma {:induction false} StoredLastGood(rs: seq<Page>, l: nat, c: nat)
    requires rs != [] && AllHonest(rs) && l < H && c < W && l in Rows(rs)
    ensures Stored(rs).data[l][c] == LastGood(rs, l, c)
  {
    var (front, last) := (rs[..|rs| - 1], rs[|rs| - 1]);
    if |rs| == 1 {
      assert LastGood([], l, c) == BAD_CHAR;
    } else {
      StoredRows(front);
      MergeChar(Stored(front), last, l, c);
      if l in Rows(front) {
        StoredLastGood(front, l, c);
      } else {
        NeverGood(front, l, c);
      }
    }
  }

  lemma {:induction false} NeverGood(rs: seq<Page>, l: nat, c: nat)
    requires l < H && c < W && l !in Rows(rs)
    ensures LastGood(rs, l, c) == BAD_CHAR
  {
    if rs != [] {
      NeverGood(rs[..|rs| - 1], l, c);
    }
  }

  predicate GoodIn(rs: seq<Page>, l: nat, c: nat)
    requires l < H && c < W
  {
    exists i :: 0 <= i < |rs| && Good(rs[i], l, c)
  }

  lemma {:induction false} LastGoodIsSome(rs: seq<Page>, l: nat, c: nat)
    requires l < H && c < W
    ensures LastGood(rs, l, c) != BAD_CHAR <==> GoodIn(rs, l, c)
    ensures GoodIn(rs, l, c) ==>
      exists i :: 0 <= i < |rs| && Good(rs[i], l, c) && rs[i].data[l][c] == LastGood(rs, l, c)
  {
    if rs != [] {
      var front := rs[..|rs| - 1];
      LastGoodIsSome(front, l, c);
      if Good(rs[|rs| - 1], l, c) {
        assert GoodIn(rs, l, c);
      } else if GoodIn(front, l, c) {
        var i :| 0 <= i < |front| && Good(front[i], l, c) && front[i].data[l][c] == LastGood(front, l, c);
        assert rs[i] == front[i];
      }
    }
  }

  lemma {:induction false} RowsAreUnion(rs: seq<Page>, l: nat)
    ensures l in Rows(rs) <==> exists i :: 0 <= i < |rs| && l in rs[i].lines
  {
    if rs != [] {
      var front := rs[..|rs| - 1];
      RowsAreUnion(front, l);
      if l in Rows(front) {
        var i :| 0 <= i < |front| && l in front[i].lines;
        assert rs[i] == front[i];
      }
    }
  }

  /** Receptions that agree wherever two of them are good. */
  predicate Agree(rs: seq<Page>) {
    forall i, j, l, c ::
      0 <= i < |rs| && 0 <= j < |rs| && 0 <= l < H && 0 <= c < W && Good(rs[i], l, c) && Good(rs[j], l, c) ==>
        rs[i].data[l][c] == rs[j].data[l][c]
  }

  /** The stored page, in its own terms: its rows are those received, and it is as good as all receptions together. */
  lemma StoredGoodIff(rs: seq<Page>, l: nat, c: nat)
    requires rs != [] && AllHonest(rs) && l < H && c < W
    ensures l in Stored(rs).lines <==> exists i :: 0 <= i < |rs| && l in rs[i].lines
    ensures Good(Stored(rs), l, c) <==> GoodIn(rs, l, c)
  {
    StoredRows(rs);
    RowsAreUnion(rs, l);
    if l in Rows(rs) {
      StoredLastGood(rs, l, c);
      LastGoodIsSome(rs, l, c);
    }
  }

  /** Neither the order of agreeing receptions nor their number matters to the stored rows and characters. */
  lemma StoredOrderFree(rs: seq<Page>, ss: seq<Page>, l: nat, c: nat)
    requires rs != [] && ss != [] && AllHonest(rs) && AllHonest(ss) && Agree(rs) && l < H && c < W
    requires forall p :: p in rs <==> p in ss
    ensures l in Stored(rs).lines <==> l in Stored(ss).lines
    ensures l in Stored(rs).lines ==> Stored(rs).data[l][c] == Stored(ss).data[l][c]
  {
    forall i | 0 <= i < |rs|
      ensures rs[i] in ss
    {
    }
    forall i | 0 <= i < |ss|
      ensures ss[i] in rs
    {
    }
    StoredRows(rs);
    StoredRows(ss);
    RowsAreUnion(rs, l);
    RowsAreUnion(ss, l);
    if l in Rows(rs) {
      StoredLastGood(rs, l, c);
      StoredLastGood(ss, l, c);
      SameLastGood(rs, ss, l, c);
    }
  }

  lemma GoodThere(rs: seq<Page>, p: Page, l: nat, c: nat)
    requires p in rs && l < H && c < W && Good(p, l, c)
    ensures GoodIn(rs, l, c)
  {
    var i :| 0 <= i < |rs| && rs[i] == p;
  }

  lemma SameLastGood(rs: seq<Page>, ss: seq<Page>, l: nat, c: nat)
    requires Agree(rs) && l < H && c < W
    requires forall p :: p in rs <==> p in ss
    ensures LastGood(rs, l, c) == LastGood(ss, l, c)
  {
    LastGoodIsSome(rs, l, c);
    LastGoodIsSome(ss, l, c);
    if GoodIn(rs, l, c) {
      var i :| 0 <= i < |rs| && Good(rs[i], l, c) && rs[i].data[l][c] == LastGood(rs, l, c);
      assert rs[i] in ss;
      var k :| 0 <= k < |ss| && ss[k] == rs[i];
      assert GoodIn(ss, l, c);
      var j :| 0 <= j < |ss| && Good(ss[j], l, c) && ss[j].data[l][c] == LastGood(ss, l, c);
      assert ss[j] in rs;
      var m :| 0 <= m < |rs| && rs[m] == ss[j];
    } else if GoodIn(ss, l, c) {
      var j :| 0 <= j < |ss| && Good(ss[j], l, c);
      GoodThere(rs, ss[j], l, c);
    }
  }

  /** A merge leaves a row that the new reception lacks as it was, and another one where only the new one has it. */
  lemma MergedRows(o: Page, n: Page, l: nat)
    requires l < H
    ensures Merge(o, n).lines == o.lines + n.lines
    ensures l !in n.lines && !(n.errors == 0 && o.lines == n.lines) ==> Merge(o, n).data[l] == o.data[l]
    ensures l in n.lines && l !in o.lines ==> Merge(o, n).data[l] == n.data[l]
  {
  }

  /** Everything but the rows and their characters is that of the last reception. */
  lemma StoredFields(rs: seq<Page>)
    requires rs != []
    ensures var (p, n) := (Stored(rs), rs[|rs| - 1]);
      && p.pgno == n.pgno && p.subno == n.subno && p.lang == n.lang && p.flags == n.flags && p.errors == n.errors
      && p.flof == n.flof && p.links == n.links
  {
  }

  /**
   A page whose error count is wrong: with no errors counted and the rows of the old page, a bad character of the
   new reception replaces a good one. That is the only case in which a merge loses a good character.
   */
  lemma MergeLosesIff(o: Page, n: Page, l: nat, c: nat)
    requires l < H && c < W && Good(o, l, c)
    ensures !Good(Merge(o, n), l, c) <==> n.errors == 0 && o.lines == n.lines && n.data[l][c] == BAD_CHAR
  {
  }
}
