/** The intrusive circular lists of list.h, on the heap, and the node_* wrappers of dmx_adv.c.

    `Ring(head, s)` says that the cells of `s`, in that order, hang on `head`. Every operation is
    specified by what it does to that sequence. */
module HeapList {
  import opened Select

  /** struct list_head as the first member of BUF_NODE; a bare list head leaves fltId unused. */
  class ListHead {
    var next: ListHead
    var prev: ListHead
    var fltId: nat

    /** INIT_LIST_HEAD */
    constructor ()
      ensures Ring(this, [])
      ensures fresh(this)
    {
      next := this;
      prev := this;
    }
  }

  /** Cell k of the circle: the head at both ends, the k-th list entry (from 1) in between. */
  function At(head: ListHead, s: seq<ListHead>, k: int): ListHead {
    if 0 < k <= |s| then s[k-1] else head
  }

  ghost predicate Distinct(s: seq<ListHead>) {
    forall i, j :: 0 <= i < j < |s| ==> s[i] != s[j]
  }

  /** The circle head -> s[0] -> ... -> s[|s|-1] -> head, linked in both directions. */
  ghost predicate Ring(head: ListHead, s: seq<ListHead>)
    reads head, s
  {
    && head !in s
    && Distinct(s)
    && (forall k {:trigger At(head, s, k).next} :: 0 <= k <= |s| ==> At(head, s, k).next == At(head, s, k+1))
    && (forall k {:trigger At(head, s, k).prev} :: 1 <= k <= |s|+1 ==> At(head, s, k).prev == At(head, s, k-1))
  }

  /** No cell is shared by the two circles. */
  ghost predicate Apart(h0: ListHead, s0: seq<ListHead>, h1: ListHead, s1: seq<ListHead>) {
    && h0 != h1 && h0 !in s1 && h1 !in s0
    && (forall i :: 0 <= i < |s0| ==> s0[i] !in s1)
  }

  /** A heap with a ring of these cells represents no other sequence: the heap determines s. */
  lemma {:induction false} RingDetermines(head: ListHead, s: seq<ListHead>, t: seq<ListHead>)
    requires Ring(head, s) && Ring(head, t)
    ensures s == t
  {
    if |s| <= |t| {
      RingPrefix(head, s, t, |s|);
    } else {
      RingPrefix(head, t, s, |t|);
    }
  }

  lemma {:induction false} RingPrefix(head: ListHead, s: seq<ListHead>, t: seq<ListHead>, n: nat)
    requires Ring(head, s) && Ring(head, t) && n <= |s| <= |t|
    ensures s[..n] == t[..n]
    ensures n == |s| ==> |t| == |s|
  {
    if n > 0 {
      RingPrefix(head, s, t, n-1);
      assert At(head, s, n-1).next == At(head, s, n) && At(head, t, n-1).next == At(head, t, n);
      assert At(head, s, n-1) == At(head, t, n-1);
    }
    if n == |s| {
      assert At(head, s, n).next == At(head, s, n+1) == head;
      assert At(head, t, n).next == At(head, t, n+1);
      assert At(head, s, n) == At(head, t, n);
    }
  }

  /** __list_add */
  method LinkBetween(new_: ListHead, prev: ListHead, next: ListHead)
    requires new_ != prev && new_ != next
    modifies new_`next, new_`prev, prev`next, prev`prev, next`next, next`prev
    ensures new_.next == next && new_.prev == prev && prev.next == new_ && next.prev == new_
    ensures prev != next ==> next.next == old(next.next) && prev.prev == old(prev.prev)
  {
    next.prev := new_;
    new_.next := next;
    new_.prev := prev;
    prev.next := new_;
  }

  /** list_add: behind the head. */
  method ListAdd(new_: ListHead, head: ListHead, ghost s: seq<ListHead>)
    requires Ring(head, s) && new_ != head && new_ !in s
    modifies head`next, head`prev, s`next, s`prev, new_`next, new_`prev
    ensures Ring(head, [new_] + s)
  {
    assert At(head, s, 0).next == At(head, s, 1);
    LinkBetween(new_, head, head.next);
    ghost var t := [new_] + s;
    forall k {:trigger At(head, t, k)} | 0 <= k <= |t|
      ensures At(head, t, k).next == At(head, t, k+1) && At(head, t, k+1).prev == At(head, t, k)
    {
      if k >= 2 {
        assert At(head, t, k) == At(head, s, k-1) && At(head, t, k+1) == At(head, s, k);
      }
    }
  }

  /** list_add_tail: in front of the head, that is, at the end of the sequence. */
  method ListAddTail(new_: ListHead, head: ListHead, ghost s: seq<ListHead>)
    requires Ring(head, s) && new_ != head && new_ !in s
    modifies head`next, head`prev, s`next, s`prev, new_`next, new_`prev
    ensures Ring(head, s + [new_])
  {
    assert At(head, s, |s|+1).prev == At(head, s, |s|);
    LinkBetween(new_, head.prev, head);
    ghost var t := s + [new_];
    forall k {:trigger At(head, t, k)} | 0 <= k <= |t|
      ensures At(head, t, k).next == At(head, t, k+1) && At(head, t, k+1).prev == At(head, t, k)
    {
      if k < |s| {
        assert At(head, t, k) == At(head, s, k) && At(head, t, k+1) == At(head, s, k+1);
      }
    }
  }

  /** list_del: takes one cell out and keeps the order of the others; the cell's own links stay. */
  method ListDel(entry: ListHead, ghost head: ListHead, ghost s: seq<ListHead>, ghost k: nat)
    requires Ring(head, s) && k < |s| && entry == s[k]
    modifies head`next, head`prev, s`next, s`prev
    ensures Ring(head, Without(s, k))
    ensures entry.next == old(entry.next) && entry.prev == old(entry.prev)
  {
    assert At(head, s, k+1) == entry;
    assert At(head, s, k).next == entry && entry.prev == At(head, s, k);
    assert entry.next == At(head, s, k+2) && At(head, s, k+2).prev == entry;
    entry.next.prev := entry.prev;
    entry.prev.next := entry.next;
    ghost var t := Without(s, k);
    assert forall j :: 0 <= j < |t| ==> t[j] == if j < k then s[j] else s[j+1];
    forall j {:trigger At(head, t, j)} | 0 <= j <= |t|
      ensures At(head, t, j).next == At(head, t, j+1) && At(head, t, j+1).prev == At(head, t, j)
    {
      assert At(head, t, j) == (if j <= k then At(head, s, j) else At(head, s, j+1));
      assert At(head, t, j+1) == (if j < k then At(head, s, j+1) else At(head, s, j+2));
    }
  }

  /** list_empty */
  method ListEmpty(head: ListHead, ghost s: seq<ListHead>) returns (empty: bool)
    requires Ring(head, s)
    ensures empty <==> s == []
  {
    assert At(head, s, 0).next == At(head, s, 1);
    empty := head.next == head;
  }

  /** list_splice: the whole source sequence goes directly behind the destination head. */
  method ListSplice(list: ListHead, head: ListHead, ghost src: seq<ListHead>, ghost dst: seq<ListHead>)
    requires Ring(list, src) && Ring(head, dst) && Apart(list, src, head, dst)
    modifies src`next, src`prev, head`next, head`prev, dst`next, dst`prev
    ensures Ring(head, src + dst)
    ensures src == [] ==> Ring(list, [])
  {
    assert At(list, src, 0).next == At(list, src, 1) && At(list, src, |src|+1).prev == At(list, src, |src|);
    assert At(head, dst, 0).next == At(head, dst, 1);
    var first := list.next;
    if first != list {
      var last := list.prev;
      var at := head.next;
      first.prev := head;
      head.next := first;
      last.next := at;
      at.prev := last;
      ghost var t := src + dst;
      assert forall i, j :: 0 <= i < |src| <= j < |t| ==> t[i] in src && t[j] in dst;
      forall k {:trigger At(head, t, k)} | 0 <= k <= |t|
        ensures At(head, t, k).next == At(head, t, k+1) && At(head, t, k+1).prev == At(head, t, k)
      {
        if 0 < k < |src| {
          assert At(head, t, k) == At(list, src, k) && At(head, t, k+1) == At(list, src, k+1);
        } else if k > |src| {
          assert At(head, t, k) == At(head, dst, k - |src|) && At(head, t, k+1) == At(head, dst, k - |src| + 1);
        }
      }
    } else {
      assert src + dst == dst;
    }
  }

  /** list_valid_check: terminates on every well-formed list and never reports corruption. */
  method ListValidCheck(head: ListHead, ghost s: seq<ListHead>) returns (r: int)
    requires Ring(head, s)
    ensures r == if s == [] then 0 else 1
  {
    assert At(head, s, 0).next == At(head, s, 1);
    var next := head.next;
    if next == head {
      return 0;
    }
    ghost var k := 1;
    while next != head
      invariant 1 <= k <= |s| + 1 && next == At(head, s, k)
      decreases |s| + 1 - k
    {
      assert At(head, s, k).next == At(head, s, k+1) && At(head, s, k+1).prev == At(head, s, k);
      next := next.next;
      if next == next.prev {
        return -1;
      }
      k := k + 1;
    }
    return 1;
  }

  /** node_return: the node goes to the tail. */
  method NodeReturn(new_: ListHead, head: ListHead, ghost s: seq<ListHead>)
    requires Ring(head, s) && new_ != head && new_ !in s
    modifies head`next, head`prev, s`next, s`prev, new_`next, new_`prev
    ensures Ring(head, s + [new_])
  {
    ListAddTail(new_, head, s);
  }

  /** node_try_get: the first node, left in place. */
  method NodeTryGet(head: ListHead, ghost s: seq<ListHead>) returns (node: ListHead?)
    requires Ring(head, s)
    ensures node == if s == [] then null else s[0]
  {
    assert At(head, s, 0).next == At(head, s, 1);
    var empty := ListEmpty(head, s);
    node := if empty then null else head.next;
  }

  /** node_get: the first node, taken out. */
  method NodeGet(head: ListHead, ghost s: seq<ListHead>) returns (node: ListHead?)
    requires Ring(head, s)
    modifies head`next, head`prev, s`next, s`prev
    ensures s == [] ==> node == null && Ring(head, [])
    ensures s != [] ==> node == s[0] && Ring(head, s[1..])
  {
    node := NodeTryGet(head, s);
    if node != null {
      ListDel(node, head, s, 0);
      assert Without(s, 0) == s[1..];
    }
  }

  /** The filter ids of the cells, in order. */
  ghost function Ids(s: seq<ListHead>): (ids: seq<nat>)
    reads s`fltId
    ensures |ids| == |s| && forall i :: 0 <= i < |s| ==> ids[i] == s[i].fltId
  {
    if s == [] then [] else [s[0].fltId] + Ids(s[1..])
  }

  /** node_try_get_one: the list_for_each scan for the first node of one filter. */
  method NodeTryGetOne(head: ListHead, flt: nat, ghost s: seq<ListHead>) returns (node: ListHead?)
    requires Ring(head, s)
    ensures node == var k := FirstAt(Ids(s), flt); if k < |s| then s[k] else null
  {
    assert At(head, s, 0).next == At(head, s, 1);
    var pos := head.next;
    ghost var k := 0;
    while pos != head && pos.fltId != flt
      invariant 0 <= k <= |s| && pos == At(head, s, k+1)
      invariant forall i :: 0 <= i < k ==> s[i].fltId != flt
      decreases |s| - k
    {
      assert At(head, s, k+1).next == At(head, s, k+2);
      pos := pos.next;
      k := k + 1;
    }
    node := if pos == head then null else pos;
  }

  /** node_get_one: the first node of one filter, taken out; the others keep their order. */
  method NodeGetOne(head: ListHead, flt: nat, ghost s: seq<ListHead>) returns (node: ListHead?)
    requires Ring(head, s)
    modifies head`next, head`prev, s`next, s`prev
    ensures var k := FirstAt(Ids(s), flt);
      if k < |s| then node == s[k] && Ring(head, Without(s, k)) else node == null && Ring(head, s)
  {
    node := NodeTryGetOne(head, flt, s);
    if node != null {
      ListDel(node, head, s, FirstAt(Ids(s), flt));
    }
  }

  lemma {:induction false} ApartAfterMove(list: ListHead, s: seq<ListHead>, free: ListHead, f: seq<ListHead>, k: nat)
    requires Apart(list, s, free, f) && Distinct(s) && list !in s && k < |s|
    ensures Apart(list, Without(s, k), free, f + [s[k]])
  {
  }

  /** node_get from one list, node_return to the other. */
  method MoveFirst(list: ListHead, free: ListHead, ghost s: seq<ListHead>, ghost f: seq<ListHead>) returns (moved: bool)
    requires Ring(list, s) && Ring(free, f) && Apart(list, s, free, f)
    modifies list`next, list`prev, s`next, s`prev, free`next, free`prev, f`next, f`prev
    ensures moved <==> s != []
    ensures !moved ==> Ring(list, s) && Ring(free, f)
    ensures moved ==> Ring(list, Without(s, 0)) && Ring(free, f + [s[0]])
  {
    var node := NodeGet(list, s);
    moved := node != null;
    if moved {
      ApartAfterMove(list, s, free, f, 0);
      assert Without(s, 0) == s[1..];
      assert Ring(free, f) && Apart(list, s[1..], free, f + [node]);
      NodeReturn(node, free, f);
      assert Ring(list, s[1..]);
    }
  }

  /** The flush loop of adv_dmx_free_channel, set_pid, get_pid and rst_channel: every node of one
      list moves, in order, behind the nodes of the other; both lists stay well formed. */
  method FlushAll(list: ListHead, free: ListHead, ghost s: seq<ListHead>, ghost f: seq<ListHead>)
    requires Ring(list, s) && Ring(free, f) && Apart(list, s, free, f)
    modifies list`next, list`prev, s`next, s`prev, free`next, free`prev, f`next, f`prev
    ensures Ring(list, []) && Ring(free, f + s)
  {
    ghost var k, rest, all := 0, s, f;
    while true
      invariant 0 <= k <= |s| && rest == s[k..] && all == f + s[..k]
      invariant Ring(list, rest) && Ring(free, all) && Apart(list, rest, free, all)
      decreases |s| - k
    {
      var moved := MoveFirst(list, free, rest, all);
      if !moved {
        break;
      }
      ApartAfterMove(list, rest, free, all, 0);
      rest, all, k := Without(rest, 0), all + [rest[0]], k + 1;
    }
    assert all == f + s;
  }

  /** One round of a flush: node_get_one from one list, node_return to the other. */
  method MoveOne(list: ListHead, free: ListHead, flt: nat, ghost s: seq<ListHead>, ghost f: seq<ListHead>)
    returns (moved: bool)
    requires Ring(list, s) && Ring(free, f) && Apart(list, s, free, f)
    modifies list`next, list`prev, s`next, s`prev, free`next, free`prev, f`next, f`prev
    ensures !moved ==> flt !in Ids(s) && Ring(list, s) && Ring(free, f)
    ensures moved ==> flt in Ids(s) && FirstAt(Ids(s), flt) < |s|
    ensures moved ==> Ring(list, Without(s, FirstAt(Ids(s), flt))) && Ring(free, f + [s[FirstAt(Ids(s), flt)]])
  {
    var node := NodeGetOne(list, flt, s);
    moved := node != null;
    if moved {
      ghost var t := Without(s, FirstAt(Ids(s), flt));
      ApartAfterMove(list, s, free, f, FirstAt(Ids(s), flt));
      assert Ring(free, f) && Apart(list, t, free, f + [node]);
      NodeReturn(node, free, f);
      assert Ring(list, t);
    }
  }

  ghost predicate Inside(s: seq<ListHead>, u: seq<ListHead>) {
    forall i :: 0 <= i < |s| ==> s[i] in u
  }

  lemma {:induction false} InsideAfterMove(s: seq<ListHead>, f: seq<ListHead>, u: seq<ListHead>, k: nat)
    requires Inside(s, u) && Inside(f, u) && k < |s|
    ensures Inside(Without(s, k), u) && Inside(f + [s[k]], u)
  {
  }

  lemma {:induction false} IdsWithout(s: seq<ListHead>, k: nat)
    requires k < |s|
    ensures Ids(Without(s, k)) == Without(Ids(s), k)
  {
  }

  lemma {:induction false} SelectAfterMove(s: seq<ListHead>, flt: nat)
    requires flt in Ids(s)
    ensures var k := FirstAt(Ids(s), flt);
      && k < |s|
      && Skipped(Without(s, k), Ids(Without(s, k)), flt) == Skipped(s, Ids(s), flt)
      && [s[k]] + Picked(Without(s, k), Ids(Without(s, k)), flt) == Picked(s, Ids(s), flt)
  {
    TakeFirst(s, Ids(s), flt);
    IdsWithout(s, FirstAt(Ids(s), flt));
  }

  /** What is left to flush and what is flushed so far, against the lists at the start. */
  ghost predicate Flushing(s: seq<ListHead>, f: seq<ListHead>, rest: seq<ListHead>, all: seq<ListHead>, flt: nat)
    reads s`fltId, rest`fltId
  {
    && Inside(rest, s + f)
    && Inside(all, s + f)
    && Skipped(rest, Ids(rest), flt) == Skipped(s, Ids(s), flt)
    && all + Picked(rest, Ids(rest), flt) == f + Picked(s, Ids(s), flt)
  }

  lemma {:induction false} FlushingStep(s: seq<ListHead>, f: seq<ListHead>, rest: seq<ListHead>, all: seq<ListHead>, flt: nat)
    requires Flushing(s, f, rest, all, flt) && flt in Ids(rest)
    ensures var k := FirstAt(Ids(rest), flt);
      k < |rest| && Flushing(s, f, Without(rest, k), all + [rest[k]], flt)
  {
    var k := FirstAt(Ids(rest), flt);
    SelectAfterMove(rest, flt);
    InsideAfterMove(rest, all, s + f, k);
    calc {
      all + [rest[k]] + Picked(Without(rest, k), Ids(Without(rest, k)), flt);
      all + ([rest[k]] + Picked(Without(rest, k), Ids(Without(rest, k)), flt));
      all + Picked(rest, Ids(rest), flt);
    }
  }

  /** The flush loop of adv_dmx_free_filter and set_filter: the nodes of one filter move, in order,
      behind the nodes of the free list; the nodes of all other filters keep their order. */
  method FlushFilter(list: ListHead, free: ListHead, flt: nat, ghost s: seq<ListHead>, ghost f: seq<ListHead>)
    requires Ring(list, s) && Ring(free, f) && Apart(list, s, free, f)
    modifies list`next, list`prev, s`next, s`prev, free`next, free`prev, f`next, f`prev
    ensures Ring(list, Skipped(s, Ids(s), flt))
    ensures Ring(free, f + Picked(s, Ids(s), flt))
  {
    ghost var rest: seq<ListHead>, all: seq<ListHead> := s, f;
    var moved := true;
    while moved
      invariant Ring(list, rest) && Ring(free, all) && Apart(list, rest, free, all)
      invariant Flushing(s, f, rest, all, flt)
      invariant !moved ==> flt !in Ids(rest)
      decreases |rest|, moved
    {
      moved := MoveOne(list, free, flt, rest, all);
      if moved {
        FlushingStep(s, f, rest, all, flt);
        ghost var k := FirstAt(Ids(rest), flt);
        ApartAfterMove(list, rest, free, all, k);
        rest, all := Without(rest, k), all + [rest[k]];
      }
    }
    NoneSelected(rest, Ids(rest), flt);
    assert all + [] == all;
  }
}
