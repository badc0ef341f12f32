/**
 Send queues: each connection has a queue of items, and an item points into a message block that
 several queues may share (modules/ircd/send.c, modules/ircd/connection.c).
 */
module SendQueue {
  import opened Common

  class Block {
    const msg: seq<byte>
    var refs: nat

    constructor (msg: seq<byte>)
      ensures this.msg == msg && refs == 0
    {
      this.msg := msg;
      refs := 0;
    }
  }

  datatype Item = Item(block: Block, offset: nat)

  class Connection {
    const fd: nat
    // the connection class's limit on queued items
    const limit: nat
    var sendq: seq<Item>
    var sendqItems: nat
    var writeable: bool
    var noSendq: bool
    var sent: nat
    var psent: nat
    // false once the connection is destroyed
    var open: bool
    ghost var enqueued: seq<byte>
    ghost var written: seq<byte>
    // what each write offered to the socket
    ghost var offers: seq<seq<byte>>

    constructor (fd: nat, limit: nat)
      ensures this.fd == fd && this.limit == limit && sendq == [] && sendqItems == 0
      ensures enqueued == written == [] && offers == [] && open && Valid()
    {
      this.fd, this.limit := fd, limit;
      sendq, sendqItems, writeable, noSendq, sent, psent := [], 0, false, false, 0, 0;
      open, enqueued, written, offers := true, [], [], [];
    }

    ghost predicate Valid()
      reads this
    {
      StreamOk(sendq, open, enqueued, written, sent)
    }
  }

  /** Nothing is lost, repeated or reordered on the way to the socket, and the byte counter agrees. */
  ghost predicate StreamOk(q: seq<Item>, open: bool, enqueued: seq<byte>, written: seq<byte>, sent: nat) {
    && (!open ==> q == [])
    && Offsets(q)
    && (open ==> written + Pending(q) == enqueued && |written| == sent + Started(q))
  }

  /** Only the first item can be partly sent. */
  ghost predicate Offsets(q: seq<Item>) {
    && (forall i :: 0 <= i < |q| ==> q[i].offset <= |q[i].block.msg|)
    && (forall i :: 1 <= i < |q| ==> q[i].offset == 0)
  }

  /** The bytes still queued. */
  ghost function Pending(q: seq<Item>): seq<byte>
    requires forall i :: 0 <= i < |q| ==> q[i].offset <= |q[i].block.msg|
  {
    if q == [] then [] else q[0].block.msg[q[0].offset..] + Pending(q[1..])
  }

  /** The part of the first block that is already out. */
  ghost function Started(q: seq<Item>): nat {
    if q == [] then 0 else q[0].offset
  }

  // ----- what the socket takes

  /** What is left of an item. */
  ghost function Left(it: Item): seq<byte>
    requires it.offset <= |it.block.msg|
  {
    it.block.msg[it.offset..]
  }

  /** How many of the bytes offered `socket_write` takes, where it has room for so many or fails. */
  function Taken(answer: int, offered: nat): (ret: int)
    ensures ret <= offered && ret <= answer
  {
    if answer > offered then offered else answer
  }

  /** The whole rest of the item goes out, and the loop goes on. */
  ghost predicate TookAll(it: Item, answer: int)
    requires it.offset <= |it.block.msg|
  {
    0 < |Left(it)| <= answer
  }

  /** What the first n answers take, if each write offers the rest of the next item. */
  ghost function Took(q: seq<Item>, net: nat -> int, n: nat): seq<byte>
    requires n <= |q| && forall i :: 0 <= i < |q| ==> q[i].offset <= |q[i].block.msg|
  {
    if n == 0 then []
    else
      var ret := Taken(net(n - 1), |Left(q[n - 1])|);
      Took(q, net, n - 1) + if ret > 0 then Left(q[n - 1])[..ret] else []
  }

  ghost function Offered(q: seq<Item>, n: nat): (r: seq<seq<byte>>)
    requires n <= |q| && forall i :: 0 <= i < |q| ==> q[i].offset <= |q[i].block.msg|
    ensures |r| == n
  {
    seq(n, i requires 0 <= i < n => Left(q[i]))
  }

  /**
   The loop makes n writes: all but the last took all, and it stops because nothing is left, or the last write
   failed or was short.
   */
  ghost predicate Stops(q: seq<Item>, net: nat -> int, n: nat)
    requires forall i :: 0 <= i < |q| ==> q[i].offset <= |q[i].block.msg|
  {
    && n <= |q| && (forall i :: 0 <= i < n - 1 ==> TookAll(q[i], net(i)))
    && (n == |q| || (n > 0 && !TookAll(q[n - 1], net(n - 1))))
  }

  /** How many items are gone after n writes. */
  ghost function Done(q: seq<Item>, net: nat -> int, n: nat): (done: nat)
    requires n <= |q| && forall i :: 0 <= i < |q| ==> q[i].offset <= |q[i].block.msg|
    ensures done <= n
  {
    if n > 0 && !TookAll(q[n - 1], net(n - 1)) then n - 1 else n
  }

  /** The loop has made n writes and has `rest` to send; with `more` it goes on. */
  ghost predicate Writing(q: seq<Item>, net: nat -> int, n: nat, more: bool, rest: seq<Item>)
    requires n <= |q| && forall i :: 0 <= i < |q| ==> q[i].offset <= |q[i].block.msg|
  {
    && (forall i :: 0 <= i < n - 1 ==> TookAll(q[i], net(i)))
    && (if n > 0 then more <==> TookAll(q[n - 1], net(n - 1)) else more)
    && (if more then rest == q[n..] else Blocks(rest) == Blocks(q[n - 1..]))
  }

  /** What answers that took all took is the queue up to there; so a socket that takes everything gets everything. */
  lemma {:induction false} AllTaken(q: seq<Item>, net: nat -> int, n: nat)
    requires n <= |q| && forall i :: 0 <= i < |q| ==> q[i].offset <= |q[i].block.msg|
    requires forall i :: 0 <= i < n ==> TookAll(q[i], net(i))
    ensures Took(q, net, n) == Pending(q[..n])
    ensures n == |q| ==> Took(q, net, n) == Pending(q)
  {
    if n == 0 {
      assert q[..0] == [];
    } else {
      AllTaken(q, net, n - 1);
      assert Left(q[n - 1])[..|Left(q[n - 1])|] == Left(q[n - 1]);
      PendingSnoc(q[..n - 1], q[n - 1]);
      assert q[..n] == q[..n - 1] + [q[n - 1]];
    }
    assert q[..|q|] == q;
  }

  lemma {:induction false} PendingSnoc(q: seq<Item>, it: Item)
    requires it.offset <= |it.block.msg| && forall i :: 0 <= i < |q| ==> q[i].offset <= |q[i].block.msg|
    ensures Pending(q + [it]) == Pending(q) + Left(it)
  {
    if q == [] {
      assert q + [it] == [it];
      assert Pending([it]) == Left(it) + Pending([]);
    } else {
      assert (q + [it])[1..] == q[1..] + [it];
      PendingSnoc(q[1..], it);
    }
  }

  // ----- counting references

  ghost function Occurrences(q: seq<Item>, b: Block): nat {
    if q == [] then 0 else (if q[0].block == b then 1 else 0) + Occurrences(q[1..], b)
  }

  ghost predicate On(q: seq<Item>, b: Block) {
    exists it <- q :: it.block == b
  }

  /** Some queue holds the block. */
  ghost predicate Held(qs: seq<seq<Item>>, b: Block) {
    exists i :: 0 <= i < |qs| && On(qs[i], b)
  }

  /** Of the blocks before, exactly those are gone that an item now gone was on and no queue holds any more. */
  ghost predicate Freed(before: set<Block>, gone: seq<Item>, qs: seq<seq<Item>>, after: set<Block>) {
    after <= before && forall b <- before :: b !in after <==> On(gone, b) && !Held(qs, b)
  }

  /** The block of each item. */
  ghost function Blocks(q: seq<Item>): seq<Block> {
    seq(|q|, i requires 0 <= i < |q| => q[i].block)
  }

  lemma SameBlocks(q: seq<Item>, offset: nat)
    requires q != []
    ensures Blocks(q[0 := Item(q[0].block, offset)]) == Blocks(q)
  {
  }

  /** The number of items on a block over all queues. */
  ghost function Count(qs: seq<seq<Item>>, b: Block): nat {
    if qs == [] then 0 else Occurrences(qs[0], b) + Count(qs[1..], b)
  }

  lemma {:induction false} OccurrencesPush(q: seq<Item>, it: Item, b: Block)
    ensures Occurrences(q + [it], b) == Occurrences(q, b) + if it.block == b then 1 else 0
  {
    if q == [] {
      assert q + [it] == [it];
    } else {
      assert (q + [it])[1..] == q[1..] + [it];
      OccurrencesPush(q[1..], it, b);
    }
  }

  lemma {:induction false} OccurrencesZero(q: seq<Item>, b: Block)
    ensures Occurrences(q, b) == 0 <==> forall it <- q :: it.block != b
  {
    if q != [] {
      OccurrencesZero(q[1..], b);
      assert q == [q[0]] + q[1..];
    }
  }

  lemma {:induction false} CountUpdate(qs: seq<seq<Item>>, k: nat, q: seq<Item>, b: Block)
    requires k < |qs|
    ensures Count(qs[k := q], b) == Count(qs, b) - Occurrences(qs[k], b) + Occurrences(q, b)
    ensures Count(qs, b) >= Occurrences(qs[k], b)
  {
    if k > 0 {
      assert qs[k := q][1..] == qs[1..][k - 1 := q];
      CountUpdate(qs[1..], k - 1, q, b);
    } else {
      assert qs[0 := q][1..] == qs[1..];
    }
  }

  /** A block is on no queue exactly if no item is counted for it. */
  lemma {:induction false} CountZero(qs: seq<seq<Item>>, b: Block)
    ensures Count(qs, b) == 0 <==> !Held(qs, b)
  {
    if qs != [] {
      OccurrencesZero(qs[0], b);
      CountZero(qs[1..], b);
      assert Held(qs, b) <==> On(qs[0], b) || Held(qs[1..], b) by {
        if Held(qs[1..], b) {
          var i :| 0 <= i < |qs| - 1 && On(qs[1..][i], b);
          assert On(qs[i + 1], b);
        }
      }
    }
  }

  lemma HeldSplit(qs: seq<seq<Item>>, k: nat, n: nat, b: Block)
    requires k < |qs| && n <= |qs[k]|
    ensures Held(qs, b) <==> Held(qs[k := qs[k][n..]], b) || On(qs[k][..n], b)
  {
    var qs' := qs[k := qs[k][n..]];
    assert On(qs[k], b) <==> On(qs[k][n..], b) || On(qs[k][..n], b) by {
      assert qs[k] == qs[k][..n] + qs[k][n..];
    }
    if Held(qs, b) {
      var i :| 0 <= i < |qs| && On(qs[i], b);
      assert i != k ==> On(qs'[i], b);
    }
    if Held(qs', b) {
      var i :| 0 <= i < |qs| && On(qs'[i], b);
      assert On(qs[i], b);
    }
  }

  lemma FreedMore(before: set<Block>, gone: seq<Item>, qs: seq<seq<Item>>, k: nat, n: nat, middle: set<Block>,
                  after: set<Block>)
    requires k < |qs| && n <= |qs[k]| && Freed(before, gone, qs, middle)
    requires Freed(middle, qs[k][..n], qs[k := qs[k][n..]], after)
    ensures Freed(before, gone + qs[k][..n], qs[k := qs[k][n..]], after) && after <= before
  {
    hide Held;
    forall b | b in before
      ensures b !in after <==> On(gone + qs[k][..n], b) && !Held(qs[k := qs[k][n..]], b)
    {
      HeldSplit(qs, k, n, b);
    }
  }

  /** Only the blocks of the items matter. */
  lemma FreedLike(before: set<Block>, gone: seq<Item>, gone': seq<Item>, qs: seq<seq<Item>>, qs': seq<seq<Item>>,
                  after: set<Block>)
    requires Freed(before, gone, qs, after) && Blocks(gone) == Blocks(gone')
    requires |qs| == |qs'| && forall i :: 0 <= i < |qs| ==> Blocks(qs[i]) == Blocks(qs'[i])
    ensures Freed(before, gone', qs', after)
  {
    forall b
      ensures On(gone, b) <==> On(gone', b)
      ensures Held(qs, b) <==> Held(qs', b)
    {
      OnBlocks(gone, b);
      OnBlocks(gone', b);
      forall i | 0 <= i < |qs|
        ensures On(qs[i], b) <==> On(qs'[i], b)
      {
        OnBlocks(qs[i], b);
        OnBlocks(qs'[i], b);
      }
      hide On;
    }
  }

  lemma OnBlocks(q: seq<Item>, b: Block)
    ensures On(q, b) <==> b in Blocks(q)
  {
    if On(q, b) {
      var it :| it in q && it.block == b;
      var i :| 0 <= i < |q| && q[i] == it;
      assert Blocks(q)[i] == b;
    }
  }

  /** All connections, and the blocks that are allocated. */
  class Sender {
    const conns: seq<Connection>
    ghost var blocks: set<Block>

    constructor (conns: seq<Connection>)
      requires forall i, j :: 0 <= i < j < |conns| ==> conns[i] != conns[j]
      requires forall c <- conns :: c.Valid() && c.sendq == [] && c.sendqItems == 0
      ensures this.conns == conns && Valid()
    {
      this.conns := conns;
      blocks := {};
    }

    ghost function Queues(): (qs: seq<seq<Item>>)
      reads conns`sendq
      ensures |qs| == |conns| && forall i :: 0 <= i < |conns| ==> qs[i] == conns[i].sendq
    {
      FirstQueues(|conns|)
    }

    ghost function FirstQueues(n: nat): (qs: seq<seq<Item>>)
      requires n <= |conns|
      reads conns`sendq
      ensures |qs| == n && forall i :: 0 <= i < n ==> qs[i] == conns[i].sendq
    {
      if n == 0 then [] else FirstQueues(n - 1) + [conns[n - 1].sendq]
    }

    /** Every item points to an allocated block, and a block's references are its items on all queues. */
    ghost predicate RefsOk()
      reads this`blocks, conns`sendq, conns`sendqItems, blocks`refs
    {
      && (forall i, j :: 0 <= i < j < |conns| ==> conns[i] != conns[j])
      && (forall c <- conns :: c.sendqItems == |c.sendq| && forall it <- c.sendq :: it.block in blocks)
      && (forall b <- blocks :: b.refs == Count(Queues(), b))
    }

    ghost predicate Valid()
      reads this, conns, blocks
    {
      RefsOk() && forall c <- conns :: c.Valid()
    }

    /** `create_sendq_block` */
    method CreateBlock(msg: seq<byte>) returns (b: Block)
      requires Valid()
      modifies this`blocks
      ensures Valid() && fresh(b) && b.msg == msg && b.refs == 0 && blocks == old(blocks) + {b}
    {
      b := new Block(msg);
      BlockIsNew(b);
      blocks := blocks + {b};
    }

    lemma BlockIsNew(b: Block)
      requires RefsOk() && b !in blocks
      ensures Count(Queues(), b) == 0
    {
      forall i | 0 <= i < |conns|
        ensures !On(Queues()[i], b)
      {
        assert conns[i] in conns;
      }
      CountZero(Queues(), b);
    }

    /** One queue of the snapshot replaced. */
    twostate lemma QueueChanged(k: nat)
      requires k < |conns| && forall j :: 0 <= j < |conns| && j != k ==> conns[j].sendq == old(conns[j].sendq)
      ensures Queues() == old(Queues())[k := conns[k].sendq]
    {
    }

    ghost function IndexOf(c: Connection): (k: nat)
      requires c in conns
      ensures k < |conns| && conns[k] == c
    {
      var k :| 0 <= k < |conns| && conns[k] == c; k
    }

    lemma PushCounts(k: nat, b: Block)
      requires k < |conns|
      ensures forall x :: x in blocks ==>
                Count(Queues()[k := conns[k].sendq + [Item(b, 0)]], x) == Count(Queues(), x) + if x == b then 1 else 0
    {
      forall x | x in blocks
        ensures Count(Queues()[k := conns[k].sendq + [Item(b, 0)]], x) == Count(Queues(), x) + if x == b then 1 else 0
      {
        CountUpdate(Queues(), k, conns[k].sendq + [Item(b, 0)], x);
        OccurrencesPush(conns[k].sendq, Item(b, 0), x);
      }
    }

    lemma PopCounts(k: nat)
      requires k < |conns| && conns[k].sendq != []
      ensures forall x :: x in blocks ==>
                && Count(Queues(), x) >= (if x == conns[k].sendq[0].block then 1 else 0)
                && Count(Queues()[k := conns[k].sendq[1..]], x)
                   == Count(Queues(), x) - if x == conns[k].sendq[0].block then 1 else 0
    {
      forall x | x in blocks
        ensures Count(Queues(), x) >= Occurrences(conns[k].sendq, x)
        ensures Count(Queues()[k := conns[k].sendq[1..]], x)
             == Count(Queues(), x) - Occurrences(conns[k].sendq, x) + Occurrences(conns[k].sendq[1..], x)
      {
        CountUpdate(Queues(), k, conns[k].sendq[1..], x);
      }
    }

    lemma OffsetCounts(k: nat, offset: nat)
      requires k < |conns| && conns[k].sendq != []
      ensures forall x :: x in blocks ==>
                Count(Queues()[k := conns[k].sendq[0 := Item(conns[k].sendq[0].block, offset)]], x) ==
                    Count(Queues(), x)
    {
      var q := conns[k].sendq;
      var q' := q[0 := Item(q[0].block, offset)];
      assert q'[1..] == q[1..];
      forall x | x in blocks
        ensures Count(Queues()[k := q'], x) == Count(Queues(), x)
      {
        CountUpdate(Queues(), k, q', x);
      }
    }

    lemma NotOn(b: Block)
      requires !Held(Queues(), b)
      ensures forall c <- conns :: forall it <- c.sendq :: it.block != b
    {
      forall c | c in conns
        ensures forall it <- c.sendq :: it.block != b
      {
        assert !On(Queues()[IndexOf(c)], b);
      }
    }

    /** `sendq_push`: the block goes to the end of the queue and gains a reference. */
    method Push(b: Block, c: Connection)
      requires Valid() && c in conns && b in blocks && c.open
      modifies c`sendq, c`sendqItems, c`enqueued, b`refs
      ensures Valid() && b.refs == old(b.refs) + 1
      ensures c.sendq == old(c.sendq) + [Item(b, 0)] && c.sendqItems == old(c.sendqItems) + 1
      ensures c.enqueued == old(c.enqueued) + b.msg
    {
      hide StreamOk, Occurrences, Count, Queues;
      ghost var k := IndexOf(c);
      ghost var q := c.sendq;
      StreamPush(q, c.enqueued, c.written, c.sent, b);
      PushCounts(k, b);
      c.sendq := c.sendq + [Item(b, 0)];
      b.refs := b.refs + 1;
      c.sendqItems := c.sendqItems + 1;
      c.enqueued := c.enqueued + b.msg;
      QueueChanged(k);
    }

    /**
     `sendq_pop`: drops the first item and its reference; the block is freed exactly when that was
     the last one.
     */
    method Pop(c: Connection)
      requires RefsOk() && c in conns && c.sendq != []
      modifies c`sendq, c`sendqItems, c.sendq[0].block`refs, this`blocks
      ensures RefsOk()
      ensures c.sendq == old(c.sendq)[1..]
      ensures old(c.sendq)[0].block.refs == old(c.sendq[0].block.refs) - 1
      ensures Queues() == old(Queues())[IndexOf(c) := c.sendq]
      ensures Freed(old(blocks), old(c.sendq)[..1], Queues(), blocks)
    {
      hide StreamOk, Occurrences, Count, Queues, Held;
      ghost var k := IndexOf(c);
      var bp := c.sendq[0].block;
      assert c.sendq[0] in c.sendq;
      PopCounts(k);
      c.sendq := c.sendq[1..];
      QueueChanged(k);
      bp.refs := bp.refs - 1;
      c.sendqItems := c.sendqItems - 1;
      CountZero(Queues(), bp);
      assert old(c.sendq)[..1] == [old(c.sendq)[0]];
      if bp.refs == 0 {
        NotOn(bp);
        blocks := blocks - {bp};
      }
    }

    /** The socket takes as much of the data as it has room for, or fails. */
    method SocketWrite(c: Connection, data: seq<byte>, answer: int) returns (ret: int)
      modifies c`written, c`offers
      ensures ret == Taken(answer, |data|) && c.offers == old(c.offers) + [data]
      ensures c.written == old(c.written) + if ret > 0 then data[..ret] else []
    {
      ret := Taken(answer, |data|);
      c.written := c.written + if ret > 0 then data[..ret] else [];
      c.offers := c.offers + [data];
    }

    /** One turn of the loop that drops what is queued; `gone` are the items dropped so far. */
    method DropFirst(c: Connection, ghost before: set<Block>, ghost gone: seq<Item>) returns (ghost gone': seq<Item>)
      requires RefsOk() && c in conns && c.sendq != [] && Freed(before, gone, Queues(), blocks)
      modifies c`sendq, c`sendqItems, c.sendq[0].block`refs, this`blocks
      ensures RefsOk() && c.sendq == old(c.sendq)[1..] && gone' == gone + old(c.sendq)[..1]
      ensures Freed(before, gone', Queues(), blocks) && blocks <= before && blocks <= old(blocks)
    {
      hide Occurrences, Count, Queues, Held, Freed, On, RefsOk;
      ghost var qs, middle, first := Queues(), blocks, c.sendq[..1];
      Pop(c);
      FreedMore(before, gone, qs, IndexOf(c), 1, middle, blocks);
      FreedFewer(middle, first, Queues(), blocks);
      gone' := gone + first;
    }

    lemma HeadBlock(c: Connection)
      requires RefsOk() && c in conns && c.sendq != []
      ensures c.sendq[0].block in blocks
    {
      assert c.sendq[0] in c.sendq;
    }

    lemma Apart()
      requires RefsOk()
      ensures forall i, j :: 0 <= i < j < |conns| ==> conns[i] != conns[j]
    {
    }

    lemma FreedFewer(before: set<Block>, gone: seq<Item>, qs: seq<seq<Item>>, after: set<Block>)
      requires Freed(before, gone, qs, after)
      ensures after <= before
    {
    }

    /** The end of `destroy_connection`: whatever is queued is dropped. */
    method Close(c: Connection)
      requires Valid() && c in conns
      modifies c`sendq, c`sendqItems, c`open, blocks, this`blocks
      ensures Valid() && !c.open && c.sendq == [] && Queues() == old(Queues())[IndexOf(c) := []]
      ensures Freed(old(blocks), old(c.sendq), Queues(), blocks)
    {
      hide StreamOk, Occurrences, Count, Queues, Held, Freed, On, RefsOk;
      Apart();
      c.open := false;
      ghost var gone: seq<Item> := [];
      NothingFreed(blocks, Queues());
      while c.sendq != []
        invariant RefsOk() && !c.open && blocks <= old(blocks) && gone + c.sendq == old(c.sendq)
        invariant Freed(old(blocks), gone, Queues(), blocks)
        invariant forall d <- conns :: d != c ==> d.Valid()
        decreases |c.sendq|
      {
        HeadBlock(c);
        gone := DropFirst(c, old(blocks), gone);
      }
      assert gone == old(c.sendq);
      QueueChanged(IndexOf(c));
      StreamClosed(c.enqueued, c.written, c.sent);
    }

    /** The first item is sent up to `offset`. */
    method Advance(c: Connection, offset: nat)
      requires RefsOk() && c in conns && c.sendq != []
      modifies c`sendq
      ensures RefsOk() && c.sendq == old(c.sendq)[0 := Item(old(c.sendq)[0].block, offset)]
      ensures Queues() == old(Queues())[IndexOf(c) := c.sendq]
    {
      hide Occurrences, Count, Queues;
      ghost var k := IndexOf(c);
      OffsetCounts(k, offset);
      assert c.sendq[0] in c.sendq;
      c.sendq := c.sendq[0 := Item(c.sendq[0].block, offset)];
      QueueChanged(k);
    }

    /** One turn of the loop of `sendq_flush`; `more` is false where it leaves the loop. */
    method WriteHead(c: Connection, answer: int) returns (more: bool)
      requires Valid() && c in conns && c.open && c.sendq != []
      modifies c, c.sendq[0].block`refs, this`blocks
      ensures Valid() && c.open && old(c.sendq)[0].offset <= |old(c.sendq)[0].block.msg|
      ensures Queues() == old(Queues())[IndexOf(c) := c.sendq]
      ensures more <==> TookAll(old(c.sendq)[0], answer)
      ensures more ==> c.sendq == old(c.sendq)[1..] && Freed(old(blocks), old(c.sendq)[..1], Queues(), blocks)
      ensures !more ==> Blocks(c.sendq) == Blocks(old(c.sendq)) && blocks == old(blocks)
      ensures c.enqueued == old(c.enqueued)
      ensures
        var left := Left(old(c.sendq)[0]);
        var ret := Taken(answer, |left|);
        c.offers == old(c.offers) + [left] && c.written == old(c.written) + if ret > 0 then left[..ret] else []
      ensures c.noSendq == old(c.noSendq) && c.writeable == old(c.writeable)
      ensures |c.sendq| == old(|c.sendq|) - (if more then 1 else 0) && c.psent == old(c.psent) + (if more then 1 else 0)
    {
      hide StreamOk, Occurrences, Count, Queues, Held, Freed, RefsOk;
      HeadBlock(c);
      var sip := c.sendq[0];
      var len := |sip.block.msg|;
      StreamPop(c.sendq, c.enqueued, c.written, c.sent);
      ghost var written0 := c.written;
      var ret := SocketWrite(c, sip.block.msg[sip.offset..], answer);
      if ret <= 0 {
        assert c.written == written0;
        more := false;
      } else if ret != len - sip.offset {
        StreamAdvance(c.sendq, c.enqueued, written0, c.sent, ret);
        SameBlocks(c.sendq, sip.offset + ret);
        Advance(c, sip.offset + ret);
        more := false;
      } else {
        assert sip.block.msg[sip.offset..][..ret] == sip.block.msg[sip.offset..];
        c.sent := c.sent + len;
        c.psent := c.psent + 1;
        Pop(c);
        more := true;
      }
    }

    /** The loop of `sendq_flush`. */
    method FlushSome(c: Connection, net: nat -> int) returns (n: nat)
      requires Valid() && c in conns && c.open
      modifies c, blocks, this`blocks
      ensures Valid() && c.open && c.enqueued == old(c.enqueued) && c.noSendq == old(c.noSendq)
      ensures blocks <= old(blocks) && Offsets(old(c.sendq)) && Stops(old(c.sendq), net, n)
      ensures c.offers == old(c.offers) + Offered(old(c.sendq), n)
      ensures c.written == old(c.written) + Took(old(c.sendq), net, n)
      ensures
        var done := Done(old(c.sendq), net, n);
        && c.psent == old(c.psent) + done && Blocks(c.sendq) == Blocks(old(c.sendq)[done..])
        && Queues() == old(Queues())[IndexOf(c) := c.sendq]
        && Freed(old(blocks), old(c.sendq)[..done], Queues(), blocks)
    {
      hide StreamOk, Occurrences, Count, Queues, Held, Freed, On, RefsOk, Left, Offsets, Took, Offered, Writing;
      ghost var k, q, blocks0 := IndexOf(c), c.sendq, blocks;
      InBounds(c);
      NothingFreed(blocks, Queues());
      NothingWritten(q, net);
      n := 0;
      var more := true;
      while more && c.sendq != []
        invariant Valid() && c.open && blocks <= blocks0 && n <= |q| && Writing(q, net, n, more, c.sendq)
        invariant c.psent == old(c.psent) + Done(q, net, n) && Freed(blocks0, q[..Done(q, net, n)], Queues(), blocks)
        invariant Queues() == old(Queues())[k := c.sendq]
        invariant c.offers == old(c.offers) + Offered(q, n) && c.written == old(c.written) + Took(q, net, n)
        invariant c.enqueued == old(c.enqueued) && c.noSendq == old(c.noSendq)
        decreases |c.sendq|, more
      {
        HeadBlock(c);
        ghost var rest, qs, middle := c.sendq, Queues(), blocks;
        more := WriteHead(c, net(n));
        OneWrite(q, net, n, rest, more, c.sendq);
        FreedOne(blocks0, q, net, n, more, qs, k, middle, Queues(), blocks);
        n := n + 1;
      }
      AllWrites(q, net, n, more, c.sendq);
    }

    /** One more write, and the item is popped if it went out whole. */
    lemma FreedOne(before: set<Block>, q: seq<Item>, net: nat -> int, n: nat, more: bool, qs: seq<seq<Item>>, k: nat,
                   middle: set<Block>, qs': seq<seq<Item>>, after: set<Block>)
      requires n < |q| && Offsets(q) && k < |qs| == |qs'| && qs' == qs[k := qs'[k]] && qs[k] == q[n..]
      requires Done(q, net, n) == n && (more <==> TookAll(q[n], net(n))) && Freed(before, q[..n], qs, middle)
      requires more ==> qs'[k] == qs[k][1..] && Freed(middle, qs[k][..1], qs', after)
      requires !more ==> Blocks(qs'[k]) == Blocks(qs[k]) && after == middle
      ensures Freed(before, q[..Done(q, net, n + 1)], qs', after) && after <= before
    {
      hide Freed, Held, On, Blocks;
      if more {
        FreedMore(before, q[..n], qs, k, 1, middle, after);
        assert q[..n] + qs[k][..1] == q[..n + 1];
      } else {
        FreedLike(before, q[..n], q[..n], qs, qs', after);
        FreedFewer(before, q[..n], qs', after);
      }
    }

    lemma InBounds(c: Connection)
      requires Valid() && c in conns
      ensures Offsets(c.sendq) && c.sendqItems == |c.sendq|
    {
    }

    /**
     `sendq_flush`: if the connection is writeable, items are offered to the socket in order, one write each, up to
     the first that it does not take whole; what it took is written.  The connection is destroyed exactly when more
     items are left than its class allows and the limit is in force.
     */
    method Flush(c: Connection, net: nat -> int) returns (r: int, n: nat)
      requires Valid() && c in conns && c.open
      modifies c, blocks, this`blocks
      ensures Valid() && c.enqueued == old(c.enqueued) && Offsets(old(c.sendq))
      ensures if old(c.writeable) then Stops(old(c.sendq), net, n) else n == 0
      ensures c.offers == old(c.offers) + Offered(old(c.sendq), n)
      ensures c.written == old(c.written) + Took(old(c.sendq), net, n)
      ensures r == (if c.open then 1 else 0)
      ensures
        var done := Done(old(c.sendq), net, n);
        var left := |old(c.sendq)| - done;
        && c.psent == old(c.psent) + done && Blocks(c.sendq) == Blocks(if c.open then old(c.sendq)[done..] else [])
        && (c.open <==> old(c.noSendq) || left <= c.limit)
        && c.noSendq == (old(c.noSendq) && left > 0)
        && Freed(old(blocks), if c.open then old(c.sendq)[..done] else old(c.sendq), Queues(), blocks)
      ensures
        var q := old(c.sendq);
        old(c.writeable) && (forall i :: 0 <= i < |q| ==> TookAll(q[i], net(i))) ==>
          c.open && c.sendq == [] && c.written == c.enqueued == old(c.written) + Pending(q)
    {
      hide StreamOk, Occurrences, Count, Queues, Held, Freed, On, Took, Offered, RefsOk;
      ghost var q := c.sendq;
      NothingFreed(blocks, Queues());
      InBounds(c);
      n := 0;
      if c.writeable {
        n := FlushSome(c, net);
      } else {
        NothingWritten(q, net);
      }
      ghost var done := Done(q, net, n);
      ghost var rest, qs, middle := c.sendq, Queues(), blocks;
      r := Settle(c);
      if !c.open {
        FreedRest(old(blocks), q, done, rest, qs, IndexOf(c), middle, Queues(), blocks);
      }
      if old(c.writeable) && forall i :: 0 <= i < |q| ==> TookAll(q[i], net(i)) {
        Everything(q, net, n);
        StreamOver(c.enqueued, c.written, c.sent);
      }
    }

    /** The end of `sendq_flush`. */
    method Settle(c: Connection) returns (r: int)
      requires Valid() && c in conns && c.open
      modifies c`sendq, c`sendqItems, c`open, c`noSendq, blocks, this`blocks
      ensures Valid() && r == (if c.open then 1 else 0)
      ensures c.open <==> old(c.noSendq) || |old(c.sendq)| <= c.limit
      ensures c.noSendq == (old(c.noSendq) && old(c.sendq) != [])
      ensures c.open ==> c.sendq == old(c.sendq) && blocks == old(blocks) && Queues() == old(Queues())
      ensures !c.open ==> c.sendq == [] && Queues() == old(Queues())[IndexOf(c) := []]
      ensures !c.open ==> Freed(old(blocks), old(c.sendq), Queues(), blocks)
    {
      hide StreamOk, Occurrences, Count, Queues, Held, Freed, On, RefsOk;
      InBounds(c);
      if c.noSendq && c.sendqItems == 0 {
        c.noSendq := false;
      } else if !c.noSendq && c.sendqItems > c.limit {
        Close(c);
        return 0;
      }
      return 1;
    }
  }

  /** What is left of the queue goes with the connection. */
  lemma FreedRest(before: set<Block>, q: seq<Item>, done: nat, rest: seq<Item>, qs: seq<seq<Item>>, k: nat,
                  middle: set<Block>, qs': seq<seq<Item>>, after: set<Block>)
    requires done <= |q| && Blocks(rest) == Blocks(q[done..]) && k < |qs| && qs[k] == rest && qs' == qs[k := []]
    requires Freed(before, q[..done], qs, middle) && Freed(middle, rest, qs', after)
    ensures Freed(before, q, qs', after)
  {
    hide Freed, Held, On;
    AllBlocks(q, done, rest);
    assert rest[|rest|..] == [];
    FreedMore(before, q[..done], qs, k, |rest|, middle, after);
    FreedLike(before, q[..done] + rest, q, qs', qs', after);
  }

  lemma StreamOver(enqueued: seq<byte>, written: seq<byte>, sent: nat)
    requires StreamOk([], true, enqueued, written, sent)
    ensures written == enqueued
  {
  }

  lemma NothingWritten(q: seq<Item>, net: nat -> int)
    requires Offsets(q)
    ensures Writing(q, net, 0, true, q) && Offered(q, 0) == [] && Took(q, net, 0) == [] && q[..0] == []
  {
    assert q[0..] == q;
  }

  /** One more write of the loop. */
  lemma OneWrite(q: seq<Item>, net: nat -> int, n: nat, rest: seq<Item>, more: bool, rest': seq<Item>)
    requires Offsets(q) && n <= |q| && rest != [] && Writing(q, net, n, true, rest)
    ensures n < |q| && rest == q[n..] && rest[0] == q[n] && Done(q, net, n) == n
    ensures Offered(q, n + 1) == Offered(q, n) + [Left(q[n])]
    ensures
      var ret := Taken(net(n), |Left(q[n])|);
      Took(q, net, n + 1) == Took(q, net, n) + if ret > 0 then Left(q[n])[..ret] else []
    ensures Done(q, net, n + 1) == if TookAll(q[n], net(n)) then n + 1 else n
    ensures
      && (more <==> TookAll(q[n], net(n)))
      && (if more then rest' == rest[1..] else Blocks(rest') == Blocks(rest))
      ==> Writing(q, net, n + 1, more, rest')
  {
    assert q[n..][1..] == q[n + 1..];
  }

  lemma AllWrites(q: seq<Item>, net: nat -> int, n: nat, more: bool, rest: seq<Item>)
    requires Offsets(q) && n <= |q| && Writing(q, net, n, more, rest) && (!more || rest == [])
    ensures Stops(q, net, n) && Blocks(rest) == Blocks(q[Done(q, net, n)..])
  {
  }

  /** A socket that takes every item whole. */
  lemma Everything(q: seq<Item>, net: nat -> int, n: nat)
    requires Offsets(q) && Stops(q, net, n) && forall i :: 0 <= i < |q| ==> TookAll(q[i], net(i))
    ensures n == |q| == Done(q, net, n) && Took(q, net, n) == Pending(q)
  {
    AllTaken(q, net, n);
  }

  lemma AllBlocks(q: seq<Item>, n: nat, rest: seq<Item>)
    requires n <= |q| && Blocks(rest) == Blocks(q[n..])
    ensures Blocks(q[..n] + rest) == Blocks(q) && rest[..|rest|] == rest && q[..|q|] == q
  {
    assert |Blocks(rest)| == |Blocks(q[n..])|;
    forall i | n <= i < |q|
      ensures rest[i - n].block == q[i].block
    {
      assert Blocks(rest)[i - n] == Blocks(q[n..])[i - n];
    }
  }

  lemma NothingFreed(blocks: set<Block>, qs: seq<seq<Item>>)
    ensures Freed(blocks, [], qs, blocks)
  {
  }

  lemma StreamClosed(enqueued: seq<byte>, written: seq<byte>, sent: nat)
    ensures StreamOk([], false, enqueued, written, sent)
  {
  }

  lemma StreamPush(q: seq<Item>, enqueued: seq<byte>, written: seq<byte>, sent: nat, b: Block)
    requires StreamOk(q, true, enqueued, written, sent)
    ensures StreamOk(q + [Item(b, 0)], true, enqueued + b.msg, written, sent)
  {
    PendingSnoc(q, Item(b, 0));
    assert b.msg[0..] == b.msg;
  }

  /** The socket took all that was left of the first item. */
  lemma StreamPop(q: seq<Item>, enqueued: seq<byte>, written: seq<byte>, sent: nat)
    requires q != [] && StreamOk(q, true, enqueued, written, sent)
    ensures q[0].offset <= |q[0].block.msg|
    ensures StreamOk(q[1..], true, enqueued, written + q[0].block.msg[q[0].offset..], sent + |q[0].block.msg|)
  {
    var rest := q[0].block.msg[q[0].offset..];
    assert Pending(q) == rest + Pending(q[1..]);
  }

  /** The socket took `n` more bytes of the first item. */
  lemma StreamAdvance(q: seq<Item>, enqueued: seq<byte>, written: seq<byte>, sent: nat, n: nat)
    requires q != [] && StreamOk(q, true, enqueued, written, sent) && q[0].offset + n <= |q[0].block.msg|
    ensures StreamOk(q[0 := Item(q[0].block, q[0].offset + n)], true, enqueued,
                     written + q[0].block.msg[q[0].offset..][..n], sent)
  {
    var q' := q[0 := Item(q[0].block, q[0].offset + n)];
    var taken, left := q[0].block.msg[q[0].offset..][..n], q[0].block.msg[q[0].offset + n..];
    assert q'[1..] == q[1..];
    assert taken + left == q[0].block.msg[q[0].offset..];
    assert Pending(q') == left + Pending(q[1..]);
    assert written + taken + (left + Pending(q[1..])) == written + (taken + left + Pending(q[1..]));
  }
}
