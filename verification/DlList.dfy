/**
 The doubly linked list of util/alevt/dllist.h with the cache's pages in its nodes: a head and a tail sentinel, which
 the library overlays in one struct, and between them the pages of one bucket.
 */
module DlLists {
  import opened CacheModel
  import opened Pages

  class Node {
    var next: Node?
    var prev: Node?
    var page: Page
    ghost var owner: DlList?

    constructor (page: Page)
      ensures this.page == page && owner == null
    {
      next, prev, this.page, owner := null, null, page, null;
    }
  }

  class DlList {
    const head: Node
    const tail: Node
    ghost var all: seq<Node>

    /** `all` is the chain from the head to the tail, in both directions. */
    ghost predicate Valid()
      reads this, all
    {
      && |all| >= 2 && all[0] == head && all[|all| - 1] == tail
      && (forall i :: 0 <= i < |all| ==> all[i].owner == this)
      && (forall i, j :: 0 <= i < j < |all| ==> all[i] != all[j])
      && (forall i {:trigger all[i].next} :: 0 <= i < |all| - 1 ==> all[i].next == all[i + 1])
      && (forall i {:trigger all[i].prev} :: 1 <= i < |all| ==> all[i].prev == all[i - 1])
      && head.prev == null && tail.next == null
    }

    ghost function Pages(): (b: seq<Page>)
      requires Valid()
      reads this, all
      ensures |b| == |all| - 2
      ensures forall i :: 0 <= i < |b| ==> b[i] == all[i + 1].page
    {
      seq(|all| - 2, i requires 0 <= i < |all| - 2 && Valid() reads this, all => all[i + 1].page)
    }

    /** `dl_init` */
    constructor ()
      ensures Valid() && Pages() == [] && fresh(all)
    {
      head := new Node(BLANK);
      tail := new Node(BLANK);
      new;
      head.next, tail.prev := tail, head;
      head.prev, tail.next := null, null;
      head.owner, tail.owner := this, this;
      all := [head, tail];
    }

    /** `dl_remove` */
    method Remove(n: Node, ghost i: nat)
      requires Valid() && 1 <= i < |all| - 1 && all[i] == n
      modifies this, all
      ensures Valid() && all == old(all[..i] + all[i + 1..])
      ensures n.owner == null && n.page == old(n.page) && n.next == old(n.next)
      ensures Pages() == old(Pages())[..i - 1] + old(Pages())[i..]
    {
      n.prev.next := n.next;
      n.next.prev := n.prev;
      n.owner := null;
      all := all[..i] + all[i + 1..];
    }

    /** `dl_insert_first` */
    method InsertFirst(n: Node)
      requires Valid() && n.owner == null
      modifies this, all, n
      ensures Valid() && all == [old(all)[0], n] + old(all)[1..] && n.page == old(n.page)
      ensures Pages() == [old(n.page)] + old(Pages())
    {
      var p := head;
      n.next := p.next;
      n.prev := p;
      p.next := n;
      n.next.prev := n;
      n.owner := this;
      all := [all[0], n] + all[1..];
    }

    method MoveToFront(n: Node, ghost i: nat)
      requires Valid() && i < |Pages()| && all[i + 1] == n
      modifies this, all
      ensures Valid() && (forall k :: 0 <= k < |all| ==> all[k] in old(all))
      ensures all[1] == n && n.page == old(n.page) && Pages() == ToFront(old(Pages()), i)
    {
      ghost var was := all;
      Remove(n, i + 1);
      ghost var mid := all;
      InsertFirst(n);
      forall k | 0 <= k < |all|
        ensures all[k] in was
      {
        if k >= 2 {
          assert all[k] == mid[k - 1];
        }
      }
    }

    /** Overwrites the page of the first node. */
    method StoreFirst(n: Node, page: Page)
      requires Valid() && |Pages()| > 0 && all[1] == n
      modifies n
      ensures Valid() && Pages() == [page] + old(Pages())[1..]
    {
      n.page := page;
    }

    /** The walk that every search of the cache makes; it ends at the tail when no page passes. */
    method Search(test: Page -> bool) returns (cp: Node, ghost i: nat)
      requires Valid()
      ensures i == First(Pages(), test) && cp == all[i + 1]
      ensures cp.next == null <==> i == |Pages()|
    {
      cp, i := head.next, 0;
      while cp.next != null && !test(cp.page)
        invariant i <= |Pages()| && cp == all[i + 1]
        invariant forall j :: 0 <= j < i ==> !test(Pages()[j])
        decreases |Pages()| - i
      {
        cp := cp.next;
        i := i + 1;
      }
      FirstIs(Pages(), test, i);
    }

    /** One page of the inner loop of `cache_reset`; the successor is read before a node is removed. */
    method KeepIfHelp(cp: Node, ghost i: nat) returns (cpn: Node, kept: bool)
      requires Valid() && i < |Pages()| && cp == all[i + 1]
      modifies this, all
      ensures Valid() && |all| >= 2 && (forall k :: 0 <= k < |all| ==> all[k] in old(all))
      ensures cpn.next == null <==> i + (if kept then 1 else 0) == |Pages()|
      ensures kept <==> old(Pages())[i].pgno / 0x100 == 9
      ensures if kept then Pages() == old(Pages()) && cpn == all[i + 2]
              else Pages() == old(Pages())[..i] + old(Pages())[i + 1..] && cpn == all[i + 1]
    {
      cpn := cp.next;
      kept := cp.page.pgno / 0x100 == 9;
      if !kept {
        Remove(cp, i + 1);
        assert cpn == all[i + 1];
      }
      EndsAtTail(cpn, if kept then i + 2 else i + 1);
    }

    lemma EndsAtTail(n: Node, i: nat)
      requires Valid() && 1 <= i < |all| && all[i] == n
      ensures n.next == null <==> i == |all| - 1
    {
      if i < |all| - 1 {
        assert all[i].next == all[i + 1];
      }
    }

    /** The inner loop of `cache_reset` */
    method KeepHelp() returns (removed: nat)
      requires Valid()
      modifies this, all
      ensures Valid() && Pages() == HelpOnly(old(Pages())) && removed == |old(Pages())| - |Pages()|
      ensures forall k :: 0 <= k < |all| ==> all[k] in old(all)
    {
      ghost var was := Pages();
      ghost var i: nat := 0;
      removed := 0;
      var cp := head.next;
      EndsAtTail(cp, 1);
      hide Valid, Passed;
      PassNone(was);
      while cp.next != null
        invariant Valid() && |all| >= 2 && i <= |Pages()| && cp == all[i + 1]
        invariant cp.next == null <==> i == |Pages()|
        invariant Passed(Pages(), i, was, removed)
        invariant forall k :: 0 <= k < |all| ==> all[k] in old(all)
        decreases |Pages()| - i
      {
        ghost var b := Pages();
        var kept;
        cp, kept := KeepIfHelp(cp, i);
        PassOne(b, i, was, removed);
        if kept {
          i := i + 1;
        } else {
          removed := removed + 1;
        }
      }
      PassAll(Pages(), was, removed);
    }
  }

  /** The first `i` pages that remain in the bucket have survived, and those behind them have yet to be looked at. */
  ghost predicate Passed(b: seq<Page>, i: nat, was: seq<Page>, removed: nat) {
    i <= |b| && b[..i] + HelpOnly(b[i..]) == HelpOnly(was) && removed == |was| - |b|
  }

  lemma PassNone(was: seq<Page>)
    ensures Passed(was, 0, was, 0)
  {
    assert was[0..] == was;
  }

  lemma PassAll(b: seq<Page>, was: seq<Page>, removed: nat)
    requires Passed(b, |b|, was, removed)
    ensures b == HelpOnly(was) && removed == |was| - |b|
  {
    assert b[..|b|] + [] == b;
  }

  lemma PassOne(b: seq<Page>, i: nat, was: seq<Page>, removed: nat)
    requires i < |b| && Passed(b, i, was, removed)
    ensures if b[i].pgno / 0x100 == 9 then Passed(b, i + 1, was, removed)
            else Passed(b[..i] + b[i + 1..], i, was, removed + 1)
  {
    assert b[i..][1..] == b[i + 1..] && b[..i + 1] == b[..i] + [b[i]];
    var c := b[..i] + b[i + 1..];
    assert c[..i] == b[..i] && c[i..] == b[i + 1..];
  }
}
