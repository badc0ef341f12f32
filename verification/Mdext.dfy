/**
 Module data extensions: modules reserve slots in a block of bytes that hangs off every object of
 some kind, and the slots are packed again when one is given up (source/module.c).
 */
module Mdext {
  import opened Common

  class Item {
    var offset: nat
    const size: nat

    constructor (offset: nat, size: nat)
      ensures this.offset == offset && this.size == size
    {
      this.offset, this.size := offset, size;
    }
  }

  /** The owner of one block; an empty block is a null pointer in the original. */
  class Holder {
    var data: seq<byte>

    constructor (data: seq<byte>)
      ensures this.data == data
    {
      this.data := data;
    }
  }

  function Zeros(n: nat): (s: seq<byte>)
    ensures |s| == n && forall i :: 0 <= i < n ==> s[i] == 0
  {
    if n == 0 then [] else [0] + Zeros(n - 1)
  }

  /** What is left when the bytes of one slot are taken out. */
  function Cut(data: seq<byte>, offset: nat, size: nat): seq<byte>
    requires offset + size <= |data|
  {
    data[..offset] + data[offset + size..]
  }

  /** The offsets of a newest-first list whose sizes are `sizes`: each slot sits on all the older ones. */
  function Total(sizes: seq<nat>): nat {
    if sizes == [] then 0 else sizes[0] + Total(sizes[1..])
  }

  lemma {:induction false} TotalRemove(sizes: seq<nat>, k: nat, i: nat)
    requires k < |sizes| && i <= |sizes|
    ensures i <= k ==> Total(sizes[i..]) == Total((sizes[..k] + sizes[k + 1..])[i..]) + sizes[k]
    ensures k < i ==> Total(sizes[i..]) == Total((sizes[..k] + sizes[k + 1..])[i - 1..])
    decreases |sizes| - i
  {
    var s' := sizes[..k] + sizes[k + 1..];
    if i < k {
      TotalRemove(sizes, k, i + 1);
      assert sizes[i..][1..] == sizes[i + 1..] && s'[i..][1..] == s'[i + 1..];
    } else if i == k {
      assert sizes[k..][1..] == sizes[k + 1..] == s'[k..];
    } else {
      assert sizes[i..] == s'[i - 1..];
    }
  }

  lemma {:induction false} TotalOrder(sizes: seq<nat>, i: nat, j: nat)
    requires i <= j <= |sizes|
    ensures Total(sizes[j..]) <= Total(sizes[i..])
    ensures i < j ==> Total(sizes[j..]) + sizes[i] <= Total(sizes[i..])
    decreases j - i
  {
    if i < j {
      TotalOrder(sizes, i + 1, j);
      assert sizes[i..][1..] == sizes[i + 1..];
    }
  }

  function SizesOf(items: seq<Item>): (s: seq<nat>)
    ensures |s| == |items| && forall i :: 0 <= i < |items| ==> s[i] == items[i].size
  {
    if items == [] then [] else [items[0].size] + SizesOf(items[1..])
  }

  /** The offset of slot `i`: the sizes of all older slots. */
  function OffsetIn(sizes: seq<nat>, i: nat): nat
    requires i < |sizes|
  {
    Total(sizes[i + 1..])
  }

  /** Where an element stood before element `k` was taken out. */
  function WasAt(k: nat, j: nat): nat {
    if j < k then j else j + 1
  }

  /** Every slot but `k` holds in `now` the bytes it held in `was`. */
  ghost predicate SlotsKept(sizes: seq<nat>, k: nat, was: seq<byte>, now: seq<byte>)
    requires k < |sizes| && |was| == Total(sizes)
  {
    forall j :: 0 <= j < |sizes| - 1 ==>
      var (at, at', n) := (OffsetIn(sizes, WasAt(k, j)), OffsetIn(Remove(sizes, k), j), sizes[WasAt(k, j)]);
      at + n <= |was| && at' + n <= |now| && now[at'..at' + n] == was[at..at + n]
  }

  /** A slot that begins where all the others end. */
  lemma NewestOnTop(it: Item, items: seq<Item>)
    ensures SizesOf([it] + items) == [it.size] + SizesOf(items)
    ensures Total(SizesOf([it] + items)) == it.size + Total(SizesOf(items))
    ensures OffsetIn(SizesOf([it] + items), 0) == Total(SizesOf(items))
    ensures forall i :: 0 <= i < |items| ==> OffsetIn(SizesOf([it] + items), i + 1) == OffsetIn(SizesOf(items), i)
  {
    var s := SizesOf(items);
    assert ([it] + items)[1..] == items;
    var all := [it.size] + s;
    assert all[1..] == s;
    forall i | 0 <= i < |items|
      ensures OffsetIn(SizesOf([it] + items), i + 1) == OffsetIn(s, i)
    {
      assert all[i + 2..] == s[i + 1..];
    }
  }

  class Header {
    var size: nat
    // newest first
    var items: seq<Item>
    // every object whose block this header describes
    var holders: seq<Holder>

    constructor ()
      ensures Valid() && size == 0 && items == [] && holders == []
    {
      size, items, holders := 0, [], [];
    }

    /**
     The slots tile the block: newest first, each begins where the older ones end, and the newest
     ends at the size of the block.
     */
    ghost predicate Tiled()
      reads this, items
    {
      && (forall i, j :: 0 <= i < j < |items| ==> items[i] != items[j])
      && (forall i :: 0 <= i < |items| ==> items[i].offset == OffsetIn(SizesOf(items), i))
      && size == Total(SizesOf(items))
    }

    ghost predicate Valid()
      reads this, items, holders
    {
      && Tiled()
      && (forall i, j :: 0 <= i < j < |holders| ==> holders[i] != holders[j])
      && (forall i :: 0 <= i < |holders| ==> |holders[i].data| == size)
    }

    /** No gap and no overlap: every byte of the block is in exactly one slot. */
    lemma TilesExactly(x: nat)
      requires Valid() && x < size
      ensures exists k :: 0 <= k < |items| && items[k].offset <= x < items[k].offset + items[k].size
      ensures forall j, k :: 0 <= j < k < |items| ==> items[k].offset + items[k].size <= items[j].offset
    {
      hide Total, OffsetIn;
      assert SizesOf(items)[0..] == SizesOf(items);
      var k := Covering(x, 0);
      hide Valid;
      forall i, j | 0 <= i < j < |items|
        ensures items[j].offset + items[j].size <= items[i].offset
      {
        SlotBelow(i, j);
      }
    }

    lemma SlotBelow(i: nat, j: nat)
      requires Valid() && i < j < |items|
      ensures items[j].offset + items[j].size <= items[i].offset
    {
      TotalOrder(SizesOf(items), i + 1, j);
      assert SizesOf(items)[j..][1..] == SizesOf(items)[j + 1..];
    }

    lemma Covering(x: nat, i: nat) returns (k: nat)
      requires Valid() && i <= |items| && x < Total(SizesOf(items)[i..])
      ensures k < |items| && items[k].offset <= x < items[k].offset + items[k].size
      decreases |items| - i
    {
      assert i < |items| ==> SizesOf(items)[i..][1..] == SizesOf(items)[i + 1..];
      if x < Total(SizesOf(items)[i + 1..]) {
        k := Covering(x, i + 1);
      } else {
        k := i;
      }
    }

    /** `mdext_alloc`, for an object that is then part of what the header iterates over. */
    method Alloc() returns (h: Holder)
      requires Valid()
      modifies this`holders
      ensures Valid() && fresh(h) && h.data == Zeros(size) && holders == old(holders) + [h]
    {
      h := new Holder(Zeros(size));
      holders := holders + [h];
    }

    /** `realloc`: the common part is kept, any new bytes are arbitrary. */
    method Realloc(data: seq<byte>, n: nat) returns (r: seq<byte>)
      ensures |r| == n
      ensures if n <= |data| then r == data[..n] else r[..|data|] == data
    {
      if n <= |data| {
        r := data[..n];
      } else {
        var junk: seq<byte> := *;
        var grown := data + junk + Zeros(n);
        r := grown[..n];
      }
    }

    /** `create_mdext_item`: a zeroed slot at the end of every block; no other byte changes. */
    method CreateItem(n: nat) returns (it: Item)
      requires Valid()
      modifies this`size, this`items, holders
      ensures Valid() && fresh(it) && items == [it] + old(items) && holders == old(holders)
      ensures it.offset == old(size) && it.size == n && size == old(size) + n
      ensures forall h <- holders :: h.data == old(h.data) + Zeros(n)
    {
      hide Zeros, Total;
      it := new Item(size, n);
      ghost var sizes := SizesOf(items);
      var offset := size;
      size := size + n;
      Widen(offset, n);
      NewestOnTop(it, items);
      items := [it] + items;
    }

    /** Every block grows by a zeroed slot. */
    method Widen(offset: nat, n: nat)
      requires size == offset + n
      requires forall i, j :: 0 <= i < j < |holders| ==> holders[i] != holders[j]
      requires forall i :: 0 <= i < |holders| ==> |holders[i].data| == offset
      modifies holders
      ensures forall i :: 0 <= i < |holders| ==> holders[i].data == old(holders[i].data) + Zeros(n)
    {
      hide Zeros;
      var k := 0;
      while k < |holders|
        invariant 0 <= k <= |holders|
        invariant forall i :: 0 <= i < k ==> holders[i].data == old(holders[i].data) + Zeros(n)
        invariant forall i :: k <= i < |holders| ==> holders[i].data == old(holders[i].data)
      {
        var data := Realloc(holders[k].data, size);
        ghost var was := holders[k].data;
        data := data[..offset] + Zeros(n) + data[offset + n..];
        assert data == was + Zeros(n);
        holders[k].data := data;
        k := k + 1;
      }
    }

    /** `memmove` inside one block. */
    method MoveDown(h: Holder, to: nat, from: nat, n: nat)
      requires to <= from && from + n <= |h.data|
      modifies h
      ensures h.data == old(h.data)[..to] + old(h.data)[from..from + n] + old(h.data)[to + n..]
    {
      h.data := h.data[..to] + h.data[from..from + n] + h.data[to + n..];
    }

    /**
     `destroy_mdext_item`: the slot's bytes are cut out of every block, later slots move down, and
     every other item keeps its bytes in every object.  An item of another header is left alone.
     `k` is the item's place in the list.
     */
    method DestroyItem(item: Item) returns (ghost k: nat)
      requires Valid()
      modifies this`size, this`items, items, holders
      ensures Valid() && holders == old(holders)
      ensures k == old(|items|) <==> item !in old(items)
      ensures k == old(|items|) ==>
                && items == old(items) && size == old(size) &&
                    (forall i :: 0 <= i < |items| ==> items[i].offset == old(items[i].offset))
                && forall i :: 0 <= i < |holders| ==> holders[i].data == old(holders[i].data)
      ensures k != old(|items|) ==>
                && k < old(|items|) && old(items)[k] == item && items == Remove(old(items), k) &&
                    size == old(size) - item.size
                && old(item.offset) == OffsetIn(SizesOf(old(items)), k) && old(item.offset) + item.size <= old(size)
                && old(size) == Total(SizesOf(old(items)))
                && forall i :: 0 <= i < |holders| ==>
                     && |old(holders[i].data)| == old(size)
                     && holders[i].data == Cut(old(holders[i].data), old(item.offset), item.size)
                     && SlotsKept(SizesOf(old(items)), k, old(holders[i].data), holders[i].data)
    {
      hide Total, SizesOf, SlotsKept;
      var at := 0;
      while at < |items| && items[at] != item
        invariant 0 <= at <= |items| && item !in items[..at]
      {
        at := at + 1;
      }
      k := at;
      if at == |items| {
        assert items[..at] == items;
        return;
      }
      ghost var sizes := SizesOf(items);
      CutIsInside(sizes, at);
      var offset, cut, whole := item.offset, item.size, size;
      size := size - cut;
      CutBlocks(offset, cut, whole);
      RemoveAt(at);
      forall i | 0 <= i < |holders|
        ensures SlotsKept(sizes, k, old(holders[i].data), holders[i].data)
      {
        CutKeepsSlots(sizes, k, old(holders[i].data));
      }
    }

    /** The two passes over the blocks: shift the tail down, then shrink. */
    method CutBlocks(offset: nat, cut: nat, whole: nat)
      requires offset + cut <= whole && size == whole - cut
      requires forall i, j :: 0 <= i < j < |holders| ==> holders[i] != holders[j]
      requires forall i :: 0 <= i < |holders| ==> |holders[i].data| == whole
      modifies holders
      ensures forall i :: 0 <= i < |holders| ==>
                |old(holders[i].data)| == whole && holders[i].data == Cut(old(holders[i].data), offset, cut)
    {
      if offset + cut != whole {
        CloseGaps(offset, cut, whole);
      } else {
        assert forall d: seq<byte> :: |d| == whole ==> d[..size] == Cut(d, offset, cut);
      }
      var k := 0;
      while k < |holders|
        invariant 0 <= k <= |holders|
        invariant forall i :: 0 <= i < k ==> holders[i].data == Cut(old(holders[i].data), offset, cut)
        invariant forall i :: k <= i < |holders| ==>
          |holders[i].data| == whole && holders[i].data[..size] == Cut(old(holders[i].data), offset, cut)
      {
        var data := Realloc(holders[k].data, size);
        holders[k].data := data;
        k := k + 1;
      }
    }

    /** Moves the bytes behind the slot down over it, in every block. */
    method CloseGaps(offset: nat, cut: nat, whole: nat)
      requires offset + cut < whole
      requires forall i, j :: 0 <= i < j < |holders| ==> holders[i] != holders[j]
      requires forall i :: 0 <= i < |holders| ==> |holders[i].data| == whole
      modifies holders
      ensures forall i :: 0 <= i < |holders| ==>
                |old(holders[i].data)| == whole == |holders[i].data| &&
                    holders[i].data[..whole - cut] == Cut(old(holders[i].data), offset, cut)
    {
      var k := 0;
      while k < |holders|
        invariant 0 <= k <= |holders|
        invariant forall i :: 0 <= i < k ==>
          |holders[i].data| == whole && holders[i].data[..whole - cut] == Cut(old(holders[i].data), offset, cut)
        invariant forall i :: k <= i < |holders| ==> holders[i].data == old(holders[i].data)
      {
        ghost var was := holders[k].data;
        MoveDown(holders[k], offset, offset + cut, whole - offset - cut);
        assert holders[k].data[..whole - cut] == Cut(was, offset, cut);
        k := k + 1;
      }
    }

    /** Takes item `k` out of the list and lowers the offsets of the slots behind it. */
    method RemoveAt(k: nat)
      requires k < |items| && size == Total(SizesOf(items)) - items[k].size
      requires forall i, j :: 0 <= i < j < |items| ==> items[i] != items[j]
      requires forall i :: 0 <= i < |items| ==> items[i].offset == OffsetIn(SizesOf(items), i)
      modifies this`items, items
      ensures Tiled() && items == Remove(old(items), k)
    {
      hide Total, SizesOf, Remove, OffsetIn;
      ghost var sizes := SizesOf(items);
      var old_ := items[k];
      var offset, cut := old_.offset, old_.size;
      SizesRemoved(items, k);
      items := RemoveElement(items, k);
      ghost var left := items;
      forall i, j | 0 <= i < j < |left|
        ensures left[i] != left[j]
      {
        assert left[i] == old(items)[WasAt(k, i)] && left[j] == old(items)[WasAt(k, j)];
      }
      var i := 0;
      while i < |items|
        invariant 0 <= i <= |items| && items == left
        invariant forall j :: 0 <= j < |left| ==>
                    left[j].offset == if j < i then OffsetIn(Remove(sizes, k), j) else OffsetIn(sizes, WasAt(k, j))
      {
        Shifted(sizes, k, i);
        if items[i].offset > offset {
          items[i].offset := items[i].offset - cut;
        }
        i := i + 1;
      }
      TotalOfRest(sizes, k);
    }

    method RemoveElement(s: seq<Item>, k: nat) returns (r: seq<Item>)
      requires k < |s|
      ensures r == Remove(s, k)
    {
      r := s[..k] + s[k + 1..];
    }
  }

  lemma {:induction false} SizesRemoved(items: seq<Item>, k: nat)
    requires k < |items|
    ensures SizesOf(Remove(items, k)) == Remove(SizesOf(items), k)
  {
  }

  lemma TotalOfRest(sizes: seq<nat>, k: nat)
    requires k < |sizes|
    ensures Total(Remove(sizes, k)) == Total(sizes) - sizes[k]
  {
    TotalRemove(sizes, k, 0);
    assert sizes[0..] == sizes && Remove(sizes, k)[0..] == Remove(sizes, k);
  }

  lemma CutIsInside(sizes: seq<nat>, k: nat)
    requires k < |sizes|
    ensures OffsetIn(sizes, k) + sizes[k] <= Total(sizes)
  {
    TotalOrder(sizes, 0, k);
    assert sizes[0..] == sizes && sizes[k..][1..] == sizes[k + 1..];
  }

  /** Slots do not overlap: newer ones lie wholly behind older ones. */
  lemma SlotsApart(sizes: seq<nat>, i: nat, j: nat)
    requires i < j < |sizes|
    ensures OffsetIn(sizes, j) + sizes[j] <= OffsetIn(sizes, i)
  {
    TotalOrder(sizes, i + 1, j);
    assert sizes[j..][1..] == sizes[j + 1..];
  }

  /** Lowering every larger offset by the size of the slot cut out is the right new layout. */
  lemma Shifted(sizes: seq<nat>, k: nat, j: nat)
    requires k < |sizes| && j + 1 < |sizes|
    ensures var was, cut := OffsetIn(sizes, WasAt(k, j)), OffsetIn(sizes, k);
            OffsetIn(Remove(sizes, k), j) == was - if was > cut then sizes[k] else 0
  {
    if j < k {
      TotalRemove(sizes, k, j + 1);
      TotalOrder(sizes, j + 1, k);
      assert sizes[k..][1..] == sizes[k + 1..];
    } else {
      TotalRemove(sizes, k, j + 2);
      TotalOrder(sizes, k + 1, j + 2);
    }
  }

  lemma CutKeepsSlots(sizes: seq<nat>, k: nat, data: seq<byte>)
    requires k < |sizes| && |data| == Total(sizes)
    ensures OffsetIn(sizes, k) + sizes[k] <= |data|
    ensures SlotsKept(sizes, k, data, Cut(data, OffsetIn(sizes, k), sizes[k]))
  {
    hide Total, Cut, OffsetIn;
    CutIsInside(sizes, k);
    var now := Cut(data, OffsetIn(sizes, k), sizes[k]);
    forall j | 0 <= j < |sizes| - 1
      ensures var (at, at', n) := (OffsetIn(sizes, WasAt(k, j)), OffsetIn(Remove(sizes, k), j), sizes[WasAt(k, j)]);
              at + n <= |data| && at' + n <= |now| && now[at'..at' + n] == data[at..at + n]
    {
      var w := WasAt(k, j);
      CutIsInside(sizes, w);
      Shifted(sizes, k, j);
      if j < k {
        SlotsApart(sizes, j, k);
      } else {
        SlotsApart(sizes, k, w);
      }
      SlotKept(data, OffsetIn(sizes, k), sizes[k], OffsetIn(sizes, w), sizes[w]);
    }
  }

  /** A slot on either side of the cut keeps its bytes. */
  lemma SlotKept(data: seq<byte>, offset: nat, cut: nat, at: nat, n: nat)
    requires offset + cut <= |data| && at + n <= |data|
    requires at + n <= offset || offset + cut <= at
    ensures var at' := at - if at > offset then cut else 0;
            var out := Cut(data, offset, cut);
            0 <= at' && at' + n <= |out| && out[at'..at' + n] == data[at..at + n]
  {
  }

  function UpTo(n: nat): (s: seq<nat>)
    ensures |s| == n
  {
    if n == 0 then [] else UpTo(n - 1) + [n - 1]
  }

  /**
   `client_mdext_iter`, the iteration function of the client list, with its static flag.  A place in
   the list is an index; None is the null pointer that both starts and ends a pass.
   */
  class ClientIterator {
    var clients: nat
    var started: bool

    constructor (clients: nat)
      ensures this.clients == clients && !started
    {
      this.clients, started := clients, false;
    }

    method Next(last: Option<nat>) returns (visit: Option<nat>, last': Option<nat>)
      requires last.Some? ==> last.value < clients
      modifies this`started
      ensures last.Some? ==> started == old(started) && visit == last
      ensures last == None && old(started) ==> !started && visit == None
      ensures last == None && !old(started) ==> started && visit == if clients > 0 then Some(0) else None
      ensures last' == if visit.Some? then (if visit.value + 1 < clients then Some(visit.value + 1) else None) else last
    {
      var cp := last;
      if cp == None {
        if started {
          started := false;
          return None, last;
        }
        cp := if clients > 0 then Some(0) else None;
        started := true;
      }
      if cp == None {
        return None, last;
      }
      return cp, if cp.value + 1 < clients then Some(cp.value + 1) else None;
    }

    /**
     The loop that callers wrap around it.  Each object is visited once if the flag is clear and the
     list is not empty.  A pass over an empty list leaves the flag set, and then the next pass
     visits nothing at all, whatever the list holds by that time.
     */
    method Pass() returns (visited: seq<nat>)
      modifies this`started
      ensures visited == if old(started) then [] else UpTo(clients)
      ensures started == (!old(started) && clients == 0)
    {
      visited := [];
      var visit, rhold := Next(None);
      while visit.Some?
        invariant visit.Some? ==> visited == UpTo(visit.value) && visit.value < clients && started && !old(started)
        invariant visit.Some? ==> rhold == if visit.value + 1 < clients then Some(visit.value + 1) else None
        invariant visit == None ==>
          visited == (if old(started) then [] else UpTo(clients)) && started == (!old(started) && clients == 0)
        decreases if visit.Some? then clients - visit.value else 0
      {
        visited := visited + [visit.value];
        visit, rhold := Next(rhold);
      }
    }
  }
}
