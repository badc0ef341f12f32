/**
 The generic hash table: chained buckets that double when the table is 1.2 times full
 (source/hash.c).

 The table is specified by the list of its entries in the order they were inserted.  The 32-bit hash
 of a key and the comparison are parameters; `size - 1` used as a mask on a power of two is written
 as a remainder.
 */
module HashTable {
  import opened Common

  // ----- sizes

  ghost predicate IsPow2(n: nat) {
    n == 1 || (n > 1 && n % 2 == 0 && IsPow2(n / 2))
  }

  /** The number of entries at which a table of this size grows; the product is a 32-bit one. */
  function Threshold(size: nat): nat {
    (size * 6) % WORD / 5
  }

  /** Powers of two at least double. */
  lemma {:induction false} Pow2Double(s: nat, t: nat)
    requires IsPow2(s) && IsPow2(t) && s < t
    ensures 2 * s <= t
  {
    if s > 1 {
      Pow2Double(s / 2, t / 2);
    }
  }

  lemma Pow2Next(s: nat)
    requires IsPow2(s)
    ensures IsPow2(2 * s)
  {
    assert 2 * s / 2 == s;
  }

  lemma PowersOfTwo()
    ensures IsPow2(0x40) && IsPow2(0x80) && IsPow2(0x400) && IsPow2(0x1000_0000) && IsPow2(0x2000_0000) &&
        IsPow2(0x4000_0000)
    ensures IsPow2(0x8000_0000)
  {
    Pow2Next(1); Pow2Next(2); Pow2Next(4); Pow2Next(8); Pow2Next(0x10); Pow2Next(0x20); Pow2Next(0x40); Pow2Next(0x80);
    Pow2Next(0x100); Pow2Next(0x200); Pow2Next(0x400); Pow2Next(0x800); Pow2Next(0x1000); Pow2Next(0x2000);
    Pow2Next(0x4000); Pow2Next(0x8000); Pow2Next(0x1_0000); Pow2Next(0x2_0000); Pow2Next(0x4_0000); Pow2Next(0x8_0000);
    Pow2Next(0x10_0000); Pow2Next(0x20_0000); Pow2Next(0x40_0000); Pow2Next(0x80_0000); Pow2Next(0x100_0000);
    Pow2Next(0x200_0000); Pow2Next(0x400_0000); Pow2Next(0x800_0000); Pow2Next(0x1000_0000); Pow2Next(0x2000_0000);
    Pow2Next(0x4000_0000);
  }

  /** `size * 2` in the 32 bits of the size field. */
  function Doubled(size: nat): nat {
    size * 2 % WORD
  }

  lemma ThresholdExact(s: nat)
    requires s <= 0x2000_0000
    ensures Threshold(s) == s * 6 / 5 && s <= Threshold(s) && 5 * Threshold(s) <= 6 * s < 5 * Threshold(s) + 5
  {
  }

  lemma GrowthIsSafeBelow(s: nat)
    requires 0 < s <= 0x1000_0000
    ensures Doubled(s) == 2 * s && Threshold(s) < Threshold(Doubled(s))
  {
    hide Threshold;
    ThresholdExact(s);
    ThresholdExact(2 * s);
  }

  lemma GrowthIsUnsafeAbove()
    ensures Threshold(0x2000_0000) >= Threshold(Doubled(0x2000_0000))
    ensures Threshold(0x4000_0000) >= Threshold(Doubled(0x4000_0000))
    ensures Threshold(0x8000_0000) >= Threshold(Doubled(0x8000_0000))
  {
  }

  /** A power of two is at most 2^28 or one of the next three, if it is at most 2^31. */
  lemma LargePowers(s: nat)
    requires IsPow2(s) && 0x1000_0000 < s <= 0x8000_0000
    ensures s == 0x2000_0000 || s == 0x4000_0000 || s == 0x8000_0000
  {
    hide IsPow2;
    PowersOfTwo();
    Pow2Double(0x1000_0000, s);
    if s > 0x2000_0000 {
      Pow2Double(0x2000_0000, s);
      if s > 0x4000_0000 {
        Pow2Double(0x4000_0000, s);
      }
    }
  }

  /**
   Growing is safe, in that refilling the doubled table cannot make it grow again, exactly up to 2^28
   buckets.  Beyond that the 32-bit product in the threshold wraps round.
   */
  lemma GrowthIsSafeExactly(s: nat)
    requires IsPow2(s) && s <= 0x8000_0000
    ensures Threshold(s) < Threshold(Doubled(s)) <==> s <= 0x1000_0000
  {
    assert s > 0;
    hide IsPow2, Threshold, Doubled;
    if s <= 0x1000_0000 {
      GrowthIsSafeBelow(s);
    } else {
      LargePowers(s);
      GrowthIsUnsafeAbove();
    }
  }

  /** The bucket count `create_hash_table` settles on. */
  method RoundSize(elems: nat) returns (r: Option<nat>)
    requires elems < WORD
    ensures r == None <==> elems > 0x8000_0000
    ensures r.Some? ==> IsPow2(r.value) && r.value >= 64
    ensures r.Some? && elems >= 128 ==> r.value <= elems < 2 * r.value
    // the comment promises never fewer than 128 buckets; fewer elements give 64
    ensures r.Some? && elems < 128 ==> r.value == 64
  {
    if elems > 0x8000_0000 {
      return None;
    }
    PowersOfTwo();
    var buckets: nat := 0x80;
    while buckets < elems
      invariant (elems <= 128 ==> buckets == 0x80) && IsPow2(buckets) && buckets >= 0x80 &&
          (buckets > 0x80 ==> buckets / 2 < elems) && buckets <= 0x8000_0000
      decreases 2 * elems - buckets
    {
      Pow2Next(buckets);
      if buckets < 0x8000_0000 {
        Pow2Double(buckets, 0x8000_0000);
      }
      buckets := buckets * 2;
    }
    if buckets > elems {
      buckets := buckets / 2;
    }
    return Some(buckets);
  }

  // ----- what the buckets hold

  datatype Hashent<E> = Hashent(ent: E, hv: nat)

  ghost function Ents<E>(chain: seq<Hashent<E>>): (r: seq<E>)
    ensures |r| == |chain| && forall i :: 0 <= i < |r| ==> r[i] == chain[i].ent
  {
    seq(|chain|, i requires 0 <= i < |chain| => chain[i].ent)
  }

  lemma EntsHead<E>(chain: seq<Hashent<E>>)
    requires chain != []
    ensures Ents(chain) == [chain[0].ent] + Ents(chain[1..])
  {
  }

  /** The bucket an entry with this hash function belongs in. */
  ghost function Slot<E>(hash: E -> nat, e: E, n: nat): (b: nat)
    requires n > 0
    ensures b < n
  {
    hash(e) % n
  }

  /** The entries that belong in bucket `b` of `n`, oldest first. */
  ghost function Chain<E>(hash: E -> nat, h: seq<E>, n: nat, b: nat): (r: seq<E>)
    requires n > 0
  {
    if h == [] then []
    else
      var front, e := h[..|h| - 1], h[|h| - 1];
      if Slot(hash, e, n) == b then Chain(hash, front, n, b) + [e] else Chain(hash, front, n, b)
  }

  /** The list without the first occurrence of `e`. */
  ghost function RemoveFirst<E>(h: seq<E>, e: E): (r: seq<E>) {
    if h == [] then []
    else
      var front, last := h[..|h| - 1], h[|h| - 1];
      if e in front then RemoveFirst(front, e) + [last]
      else if last == e then front else h
  }

  ghost predicate BucketOk<E>(chain: seq<Hashent<E>>, b: nat, want: seq<E>, tail: bool) {
    && (forall i :: 0 <= i < |chain| ==> chain[i].hv == b)
    && multiset(Ents(chain)) == multiset(want)
    && (tail ==> Ents(chain) == want)
  }

  /** Every entry of `h`, and nothing else, is in the bucket of its key. */
  ghost predicate Filed<E>(hash: E -> nat, tail: bool, buckets: seq<seq<Hashent<E>>>, h: seq<E>) {
    forall b :: 0 <= b < |buckets| ==> BucketOk(buckets[b], b, Chain(hash, h, |buckets|, b), tail)
  }

  // ----- insertion and deletion keep entries filed

  function Linked<E>(tail: bool, chain: seq<Hashent<E>>, x: Hashent<E>): seq<Hashent<E>> {
    if tail then chain + [x] else [x] + chain
  }

  lemma BucketInsert<E>(chain: seq<Hashent<E>>, b: nat, want: seq<E>, tail: bool, e: E)
    requires BucketOk(chain, b, want, tail)
    ensures BucketOk(Linked(tail, chain, Hashent(e, b)), b, want + [e], tail)
  {
    var x := Hashent(e, b);
    assert Ents(chain + [x]) == Ents(chain) + [e];
    assert Ents([x] + chain) == [e] + Ents(chain);
  }

  lemma ChainSnoc<E>(hash: E -> nat, h: seq<E>, e: E, n: nat, b: nat)
    requires n > 0
    ensures Slot(hash, e, n) == b ==> Chain(hash, h + [e], n, b) == Chain(hash, h, n, b) + [e]
    ensures Slot(hash, e, n) != b ==> Chain(hash, h + [e], n, b) == Chain(hash, h, n, b)
  {
    assert (h + [e])[..|h|] == h;
  }

  lemma FiledInsert<E>(hash: E -> nat, tail: bool, buckets: seq<seq<Hashent<E>>>, h: seq<E>, e: E)
    requires buckets != [] && Filed(hash, tail, buckets, h)
    ensures
      var b := Slot(hash, e, |buckets|);
      Filed(hash, tail, buckets[b := Linked(tail, buckets[b], Hashent(e, b))], h + [e])
  {
    var n := |buckets|;
    var b := Slot(hash, e, n);
    forall k | 0 <= k < n
      ensures BucketOk(buckets[b := Linked(tail, buckets[b], Hashent(e, b))][k], k, Chain(hash, h + [e], n, k), tail)
    {
      hide Slot, Chain, BucketOk, Linked;
      ChainSnoc(hash, h, e, n, k);
      assert BucketOk(buckets[k], k, Chain(hash, h, n, k), tail);
      if k == b {
        BucketInsert(buckets[b], b, Chain(hash, h, n, b), tail, e);
      }
    }
  }

  lemma {:induction false} ChainRemove<E>(hash: E -> nat, h: seq<E>, n: nat, b: nat, e: E)
    requires n > 0
    ensures Chain(hash, RemoveFirst(h, e), n, b) == RemoveFirst(Chain(hash, h, n, b), e)
    ensures e in Chain(hash, h, n, b) <==> e in h && Slot(hash, e, n) == b
  {
    hide Slot;
    if h != [] {
      var front, last := h[..|h| - 1], h[|h| - 1];
      ChainRemove(hash, front, n, b, e);
      var c := Chain(hash, front, n, b);
      assert h == front + [last];
      hide Chain, RemoveFirst;
      ChainSnoc(hash, front, last, n, b);
      RemoveSnoc(front, last, e);
      RemoveSnoc(c, last, e);
      ChainSnoc(hash, RemoveFirst(front, e), last, n, b);
      if e !in c {
        RemoveAbsent(c, e);
      }
      if e !in front {
        RemoveAbsent(front, e);
      }
    }
  }

  lemma RemoveSnoc<E>(h: seq<E>, last: E, e: E)
    ensures RemoveFirst(h + [last], e) ==
      if e in h then RemoveFirst(h, e) + [last] else if last == e then h else h + [last]
  {
    assert (h + [last])[..|h|] == h;
  }

  lemma {:induction false} RemoveBag<E>(h: seq<E>, e: E)
    ensures multiset(RemoveFirst(h, e)) == multiset(h) - multiset{e}
    ensures |RemoveFirst(h, e)| == if e in h then |h| - 1 else |h|
  {
    if h != [] {
      var front, last := h[..|h| - 1], h[|h| - 1];
      assert h == front + [last];
      RemoveBag(front, e);
    }
  }

  lemma RemoveAbsent<E>(h: seq<E>, e: E)
    requires e !in h
    ensures RemoveFirst(h, e) == h
  {
  }

  lemma {:induction false} RemoveAt<E>(h: seq<E>, e: E, i: nat)
    requires i < |h| && h[i] == e && e !in h[..i]
    ensures RemoveFirst(h, e) == h[..i] + h[i + 1..]
  {
    var front, last := h[..|h| - 1], h[|h| - 1];
    if i < |h| - 1 {
      assert front[i] == e && front[..i] == h[..i];
      RemoveAt(front, e, i);
      assert front[i + 1..] + [last] == h[i + 1..];
    } else {
      assert front == h[..i] && h[i + 1..] == [];
    }
  }

  lemma EntsRemove<E>(chain: seq<Hashent<E>>, e: E, i: nat)
    requires i < |chain| && chain[i].ent == e && forall j :: 0 <= j < i ==> chain[j].ent != e
    ensures Ents(chain[..i] + chain[i + 1..]) == RemoveFirst(Ents(chain), e)
    ensures multiset(Ents(chain[..i] + chain[i + 1..])) == multiset(Ents(chain)) - multiset{e} &&
        e in multiset(Ents(chain))
  {
    var was := Ents(chain);
    assert was[..i] + was[i + 1..] == Ents(chain[..i] + chain[i + 1..]);
    RemoveAt(was, e, i);
    RemoveBag(was, e);
    assert was[i] == e;
  }

  lemma BucketDelete<E>(chain: seq<Hashent<E>>, b: nat, want: seq<E>, tail: bool, e: E, i: nat)
    requires BucketOk(chain, b, want, tail)
    requires i < |chain| && chain[i].ent == e && forall j :: 0 <= j < i ==> chain[j].ent != e
    ensures BucketOk(chain[..i] + chain[i + 1..], b, RemoveFirst(want, e), tail) && e in want
  {
    hide Ents, RemoveFirst;
    var rest := chain[..i] + chain[i + 1..];
    EntsRemove(chain, e, i);
    RemoveBag(want, e);
    assert forall k :: 0 <= k < |rest| ==> rest[k].hv == b;
    assert e in multiset(want);
  }

  lemma FiledDelete<E>(hash: E -> nat, tail: bool, buckets: seq<seq<Hashent<E>>>, h: seq<E>, e: E, i: nat)
    requires buckets != [] && Filed(hash, tail, buckets, h)
    requires
      var c := buckets[Slot(hash, e, |buckets|)];
      i < |c| && c[i].ent == e && forall j :: 0 <= j < i ==> c[j].ent != e
    ensures
      var b := Slot(hash, e, |buckets|);
      var c := buckets[b];
      Filed(hash, tail, buckets[b := c[..i] + c[i + 1..]], RemoveFirst(h, e)) && e in h
  {
    var n := |buckets|;
    var b := Slot(hash, e, n);
    var c := buckets[b];
    var rest := c[..i] + c[i + 1..];
    hide Slot, Chain, BucketOk, RemoveFirst;
    forall k | 0 <= k < n
      ensures BucketOk(buckets[b := rest][k], k, Chain(hash, RemoveFirst(h, e), n, k), tail)
      ensures k == b ==> e in h
    {
      ChainRemove(hash, h, n, k, e);
      var want := Chain(hash, h, n, k);
      assert BucketOk(buckets[k], k, want, tail);
      if k == b {
        BucketDelete(c, b, want, tail, e, i);
      } else {
        RemoveAbsent(want, e);
      }
    }
  }

  lemma NotFiled<E>(hash: E -> nat, tail: bool, buckets: seq<seq<Hashent<E>>>, h: seq<E>, e: E)
    requires buckets != [] && Filed(hash, tail, buckets, h)
    requires
      var c := buckets[Slot(hash, e, |buckets|)];
      forall j :: 0 <= j < |c| ==> c[j].ent != e
    ensures e !in h
  {
    var n := |buckets|;
    var b := Slot(hash, e, n);
    hide Slot, Chain, RemoveFirst;
    ChainRemove(hash, h, n, b, e);
    assert BucketOk(buckets[b], b, Chain(hash, h, n, b), tail);
    assert e !in multiset(Ents(buckets[b]));
  }

  // ----- refilling a doubled table

  /** What the refill inserts, in its order: bucket after bucket. */
  ghost function Flatten<E>(buckets: seq<seq<Hashent<E>>>): (r: seq<E>) {
    if buckets == [] then [] else Ents(buckets[0]) + Flatten(buckets[1..])
  }

  lemma FlattenNothing<E>()
    ensures Flatten<E>([]) == []
  {
  }

  lemma FlattenHead<E>(buckets: seq<seq<Hashent<E>>>, i: nat)
    requires i < |buckets|
    ensures Flatten(buckets[i..]) == Ents(buckets[i]) + Flatten(buckets[i + 1..])
  {
    assert buckets[i..][1..] == buckets[i + 1..];
  }

  lemma {:induction false} ChainConcat<E>(hash: E -> nat, h: seq<E>, g: seq<E>, n: nat, b: nat)
    requires n > 0
    ensures Chain(hash, h + g, n, b) == Chain(hash, h, n, b) + Chain(hash, g, n, b)
  {
    hide Slot;
    if g == [] {
      assert h + g == h;
    } else {
      var front := g[..|g| - 1];
      ChainConcat(hash, h, front, n, b);
      assert (h + g)[..|h + g| - 1] == h + front;
    }
  }

  /** How often an entry is in a bucket's list depends only on how often it was inserted. */
  lemma {:induction false} ChainCount<E>(hash: E -> nat, h: seq<E>, n: nat, b: nat, e: E)
    requires n > 0
    ensures multiset(Chain(hash, h, n, b))[e] == if Slot(hash, e, n) == b then multiset(h)[e] else 0
  {
    hide Slot;
    if h != [] {
      ChainCount(hash, h[..|h| - 1], n, b, e);
      assert h == h[..|h| - 1] + [h[|h| - 1]];
    }
  }

  /** The bucket in the doubled table determines the old bucket. */
  lemma HalfMod(c: nat, s: nat)
    requires s > 0
    ensures c % (2 * s) % s == c % s
  {
    var q, r := c / (2 * s), c % (2 * s);
    var p := q * s;
    assert c == 2 * p + r;
    assert (2 * q) * s == 2 * p && (2 * q + 1) * s == 2 * p + s;
    if r < s {
      ModIs(c, s, 2 * q, r);
      ModIs(r, s, 0, r);
    } else {
      ModIs(c, s, 2 * q + 1, r - s);
      ModIs(r, s, 1, r - s);
    }
  }

  lemma SlotHalves<E>(hash: E -> nat, e: E, s: nat)
    requires s > 0
    ensures Slot(hash, e, 2 * s) % s == Slot(hash, e, s)
  {
    HalfMod(hash(e), s);
  }

  /** Filtering for the bucket in the doubled table may start from the old bucket. */
  lemma {:induction false} ChainOfChain<E>(hash: E -> nat, h: seq<E>, s: nat, b: nat)
    requires s > 0
    ensures Chain(hash, Chain(hash, h, s, b % s), 2 * s, b) == Chain(hash, h, 2 * s, b)
  {
    hide Slot;
    if h != [] {
      var front, e := h[..|h| - 1], h[|h| - 1];
      ChainOfChain(hash, front, s, b);
      SlotHalves(hash, e, s);
      ChainSnoc(hash, Chain(hash, front, s, b % s), e, 2 * s, b);
    }
  }

  lemma {:induction false} ChainElsewhere<E>(hash: E -> nat, h: seq<E>, n: nat, b: nat)
    requires n > 0 && forall i :: 0 <= i < |h| ==> Slot(hash, h[i], n) != b
    ensures Chain(hash, h, n, b) == []
  {
    if h != [] {
      ChainElsewhere(hash, h[..|h| - 1], n, b);
    }
  }

  /** An entry is in its own bucket and in no other. */
  lemma FiledAt<E>(hash: E -> nat, tail: bool, buckets: seq<seq<Hashent<E>>>, h: seq<E>, k: nat, e: E)
    requires k < |buckets| && Filed(hash, tail, buckets, h)
    ensures multiset(Ents(buckets[k]))[e] == if Slot(hash, e, |buckets|) == k then multiset(h)[e] else 0
  {
    var n := |buckets|;
    ChainCount(hash, h, n, k, e);
    hide Slot, Chain, Ents;
    assert BucketOk(buckets[k], k, Chain(hash, h, n, k), tail);
  }

  lemma {:induction false} FlattenCount<E>(hash: E -> nat, tail: bool, buckets: seq<seq<Hashent<E>>>, h: seq<E>,
                                           i: nat, e: E)
    requires i <= |buckets| && |buckets| > 0 && Filed(hash, tail, buckets, h)
    ensures multiset(Flatten(buckets[i..]))[e] == if i <= Slot(hash, e, |buckets|) then multiset(h)[e] else 0
    decreases |buckets| - i
  {
    hide Slot, Chain, Ents, Filed;
    if i < |buckets| {
      FlattenCount(hash, tail, buckets, h, i + 1, e);
      FiledAt(hash, tail, buckets, h, i, e);
      assert buckets[i..][1..] == buckets[i + 1..];
    }
  }

  lemma SameBag<E>(g: seq<E>, h: seq<E>)
    requires forall e <- multiset(g) + multiset(h) :: multiset(g)[e] == multiset(h)[e]
    ensures multiset(g) == multiset(h) && |g| == |h|
  {
    assert multiset(g) == multiset(h);
    assert |multiset(g)| == |multiset(h)|;
  }

  /** A refill loses and duplicates nothing. */
  lemma FlattenKeepsAll<E>(hash: E -> nat, tail: bool, buckets: seq<seq<Hashent<E>>>, h: seq<E>)
    requires buckets != [] && Filed(hash, tail, buckets, h)
    ensures multiset(Flatten(buckets)) == multiset(h) && |Flatten(buckets)| == |h|
  {
    var g := Flatten(buckets);
    forall e | e in multiset(g) + multiset(h)
      ensures multiset(g)[e] == multiset(h)[e]
    {
      FlattenCount(hash, tail, buckets, h, 0, e);
      assert buckets[0..] == buckets;
    }
    SameBag(g, h);
  }

  /** The entries for a bucket of the doubled table all come out of one old bucket, in order. */
  lemma {:induction false} FlattenChain<E>(hash: E -> nat, tail: bool, buckets: seq<seq<Hashent<E>>>, h: seq<E>,
                                           i: nat, b: nat)
    requires i <= |buckets| && |buckets| > 0 && Filed(hash, tail, buckets, h)
    ensures
      var s := |buckets|;
      Chain(hash, Flatten(buckets[i..]), 2 * s, b) ==
      if i <= b % s then Chain(hash, Ents(buckets[b % s]), 2 * s, b) else []
    decreases |buckets| - i
  {
    hide Slot, Ents, Filed;
    var s := |buckets|;
    if i < s {
      FlattenChain(hash, tail, buckets, h, i + 1, b);
      assert buckets[i..][1..] == buckets[i + 1..];
      var c := Ents(buckets[i]);
      ChainConcat(hash, c, Flatten(buckets[i + 1..]), 2 * s, b);
      if b % s != i {
        forall j | 0 <= j < |c|
          ensures Slot(hash, c[j], 2 * s) != b
        {
          FiledAt(hash, tail, buckets, h, i, c[j]);
          assert c[j] in multiset(c);
          SlotHalves(hash, c[j], s);
        }
        ChainElsewhere(hash, c, 2 * s, b);
      }
    }
  }

  /** Buckets filed in refill order are filed in the original order too. */
  lemma Refiled<E>(hash: E -> nat, tail: bool, buckets: seq<seq<Hashent<E>>>, h: seq<E>, doubled: seq<seq<Hashent<E>>>)
    requires buckets != [] && Filed(hash, tail, buckets, h)
    requires |doubled| == 2 * |buckets| && Filed(hash, tail, doubled, Flatten(buckets))
    ensures Filed(hash, tail, doubled, h)
  {
    var s := |buckets|;
    var g := Flatten(buckets);
    FlattenKeepsAll(hash, tail, buckets, h);
    forall b | 0 <= b < 2 * s
      ensures BucketOk(doubled[b], b, Chain(hash, h, 2 * s, b), tail)
    {
      hide Slot, Chain, Ents, Flatten;
      assert BucketOk(doubled[b], b, Chain(hash, g, 2 * s, b), tail);
      var before, after := Chain(hash, g, 2 * s, b), Chain(hash, h, 2 * s, b);
      forall e | e in multiset(before) + multiset(after)
        ensures multiset(before)[e] == multiset(after)[e]
      {
        ChainCount(hash, g, 2 * s, b, e);
        ChainCount(hash, h, 2 * s, b, e);
      }
      SameBag(before, after);
      if tail {
        FlattenChain(hash, tail, buckets, h, 0, b);
        assert buckets[0..] == buckets;
        assert BucketOk(buckets[b % s], b % s, Chain(hash, h, s, b % s), tail);
        ChainOfChain(hash, h, s, b);
      }
    }
  }

  // ----- search

  /** An entry at some place of a bucket's list stands behind exactly the earlier ones in the whole list. */
  lemma {:induction false} ChainPlace<E>(hash: E -> nat, h: seq<E>, n: nat, b: nat, i: nat) returns (m: nat)
    requires n > 0 && i < |Chain(hash, h, n, b)|
    ensures m < |h| && h[m] == Chain(hash, h, n, b)[i] && Chain(hash, h[..m], n, b) == Chain(hash, h, n, b)[..i]
  {
    hide Slot;
    var front := h[..|h| - 1];
    var c := Chain(hash, front, n, b);
    if i < |c| {
      m := ChainPlace(hash, front, n, b, i);
      assert h[..m] == front[..m];
    } else {
      m := |h| - 1;
    }
  }

  lemma NothingFiled<E>(hash: E -> nat, tail: bool, buckets: seq<seq<Hashent<E>>>)
    requires forall b :: 0 <= b < |buckets| ==> buckets[b] == []
    ensures Filed(hash, tail, buckets, [])
  {
  }

  class Table<E(==), K> {
    const key: E -> K
    const code: K -> nat
    const same: (K, K) -> bool
    const tail: bool
    var table: array<seq<Hashent<E>>>
    var size: nat
    var entries: nat
    // the entries, oldest first
    ghost var entered: seq<E>

    /** The full hash of an entry. */
    ghost function Hash(): E -> nat {
      e => code(key(e))
    }

    ghost predicate Valid()
      reads this, table
    {
      && IsPow2(size) && size <= 0x2000_0000 && table.Length == size
      && entries == |entered| && entries < Threshold(size)
      && Filed(Hash(), tail, table[..], entered)
    }

    constructor (key: E -> K, code: K -> nat, same: (K, K) -> bool, tail: bool, elems: nat)
      requires elems <= 0x2000_0000
      ensures Valid() && fresh(table) && entered == []
      ensures size >= 64 && (elems >= 128 ==> size <= elems < 2 * size)
      ensures IsPow2(elems) && elems >= 128 ==> size == elems
      ensures this.key == key && this.code == code && this.same == same && this.tail == tail
    {
      var r := RoundSize(elems);
      this.key, this.code, this.same, this.tail := key, code, same, tail;
      size, entries, entered := r.value, 0, [];
      table := new seq<Hashent<E>>[r.value](_ => []);
      new;
      if IsPow2(elems) && size < elems {
        Pow2Double(size, elems);
      }
      ThresholdExact(size);
      NothingFiled(Hash(), tail, table[..]);
    }

    /** Whether one more entry makes the table grow. */
    ghost predicate Full()
      reads this
    {
      Threshold(size) <= entries + 1
    }

    /**
     The new entry is filed under its key.  The table doubles when the entries reach 1.2 times the
     buckets; while it is being refilled it does not grow again.
     */
    method Insert(e: E, ghost refill: bool)
      requires Valid()
      requires Full() ==> !refill && size <= 0x1000_0000
      modifies this, table
      ensures Valid() && (if old(Full()) then fresh(table) else table == old(table))
      ensures entered == old(entered) + [e]
      ensures size == if old(Full()) then 2 * old(size) else old(size)
      ensures entries == old(entries) + 1
      decreases !refill, 1
    {
      var hash := code(key(e)) % size;
      var hep := Hashent(e, hash);
      FiledInsert(Hash(), tail, table[..], entered, e);
      hide Threshold, IsPow2, Filed;
      entries := entries + 1;
      table[hash] := Linked(tail, table[hash], hep);
      entered := entered + [e];
      assert table[..] == old(table[..])[hash := Linked(tail, old(table[hash]), hep)];
      if Threshold(size) <= entries {
        Resize(size * 2);
      }
    }

    method Resize(elems: nat)
      requires IsPow2(size) && size <= 0x1000_0000 && table.Length == size && elems == 2 * size
      requires entries == |entered| && entries == Threshold(size) && Filed(Hash(), tail, table[..], entered)
      modifies this
      ensures Valid() && fresh(table) && entered == old(entered) && size == elems && entries == old(entries)
      decreases true, 0
    {
      var oldtable := table;
      ghost var was, h := table[..], entered;
      Pow2Next(size);
      GrowthIsSafeBelow(size);
      FlattenKeepsAll(Hash(), tail, was, h);
      Clear(elems);
      hide Threshold, IsPow2, Filed, Hash, Flatten;
      Refill(oldtable);
      Refiled(Hash(), tail, was, h, table[..]);
      entered := h;
    }

    method Clear(elems: nat)
      requires IsPow2(elems) && elems <= 0x2000_0000
      modifies this
      ensures Valid() && fresh(table) && entered == [] && size == elems
    {
      size := elems;
      entries, entered := 0, [];
      table := new seq<Hashent<E>>[size](_ => []);
      ThresholdExact(size);
      NothingFiled(Hash(), tail, table[..]);
    }

    /** Walks the old buckets, inserting their entries into the new table. */
    method Refill(oldtable: array<seq<Hashent<E>>>)
      requires Valid() && oldtable != table && entered == [] && |Flatten(oldtable[..])| < Threshold(size)
      modifies this, table
      ensures Valid() && table == old(table) && size == old(size) && entered == Flatten(oldtable[..])
      decreases false, 3
    {
      hide Threshold, IsPow2, Filed, Hash, Ents, Flatten;
      ghost var was, all := oldtable[..], Flatten(oldtable[..]);
      FlattenNothing<E>();
      var i := 0;
      while i < oldtable.Length
        invariant i <= oldtable.Length == |was| && oldtable[..] == was
        invariant Valid() && table == old(table) && size == old(size)
        invariant entered + Flatten(was[i..]) == all
      {
        var bucket := oldtable[i];
        FlattenHead(was, i);
        ghost var before, rest := entered, Flatten(was[i + 1..]);
        assert before + (Ents(bucket) + rest) == before + Ents(bucket) + rest;
        Drain(bucket);
        i := i + 1;
      }
      assert was[i..] == [];
    }

    /** Refills the table with one old bucket. */
    method Drain(chain: seq<Hashent<E>>)
      requires Valid() && entries + |chain| < Threshold(size)
      modifies this, table
      ensures Valid() && table == old(table) && size == old(size)
      ensures entered == old(entered) + Ents(chain)
      decreases false, 2
    {
      hide Table.Valid, Threshold, IsPow2, Filed, Hash, Ents;
      var bucket := chain;
      while bucket != []
        invariant Valid() && table == old(table) && size == old(size)
        invariant entered + Ents(bucket) == old(entered) + Ents(chain)
        invariant entries + |bucket| == old(entries) + |chain|
      {
        var hep := bucket[0];
        EntsHead(bucket);
        ghost var before, rest := entered, Ents(bucket[1..]);
        Insert(hep.ent, true);
        assert before + ([hep.ent] + rest) == before + [hep.ent] + rest;
        bucket := bucket[1..];
      }
    }

    /** Removes the entry itself, not one with the same key; one bucket is searched and that is enough. */
    method Delete(e: E) returns (found: bool)
      requires Valid()
      modifies this, table
      ensures Valid() && table == old(table) && size == old(size)
      ensures (found <==> e in old(entered)) && entries == old(entries) - if found then 1 else 0
      ensures entered == RemoveFirst(old(entered), e)
    {
      var hash := code(key(e)) % size;
      var chain := table[hash];
      var i := 0;
      while i < |chain| && chain[i].ent != e
        invariant i <= |chain| && forall j :: 0 <= j < i ==> chain[j].ent != e
      {
        i := i + 1;
      }
      if i == |chain| {
        NotFiled(Hash(), tail, table[..], entered, e);
        RemoveAbsent(entered, e);
        return false;
      }
      FiledDelete(Hash(), tail, table[..], entered, e, i);
      RemoveBag(entered, e);
      hide Threshold, IsPow2, Filed, RemoveFirst;
      entries := entries - 1;
      table[hash] := chain[..i] + chain[i + 1..];
      entered := RemoveFirst(entered, e);
      assert table[..] == old(table[..])[hash := chain[..i] + chain[i + 1..]];
      return true;
    }

    /** The entry is looked for by its key and has the key's bucket. */
    predicate Hit(e: E, k: K)
      reads this`size
      requires size > 0
    {
      code(key(e)) % size == code(k) % size && same(key(e), k)
    }

    /**
     What is found is the entry that compares equal and shares the bucket, the oldest such entry if the
     table inserts at the tail; without a comparison that respects the hash the second condition counts.
     */
    method Find(k: K) returns (r: Option<E>)
      requires Valid()
      ensures r == None <==> forall e <- entered :: !Hit(e, k)
      ensures r.Some? ==> r.value in entered && Hit(r.value, k)
      ensures r.Some? && tail ==>
                exists m :: 0 <= m < |entered| && entered[m] == r.value && forall e <- entered[..m] :: !Hit(e, k)
      // a comparison that never holds of keys with different hashes finds an entry iff there is one
      ensures (forall e <- entered :: same(key(e), k) ==> code(key(e)) == code(k))
        ==> (r == None <==> forall e <- entered :: !same(key(e), k))
    {
      var hash := code(k) % size;
      var bucket := table[hash];
      ghost var want := Chain(Hash(), entered, size, hash);
      assert BucketOk(bucket, hash, want, tail);
      var i := 0;
      while i < |bucket|
        invariant i <= |bucket| && forall j :: 0 <= j < i ==> !same(key(bucket[j].ent), k)
      {
        var hep := bucket[i];
        if hep.hv == hash && same(key(hep.ent), k) {
          Found(bucket, k, i);
          return Some(hep.ent);
        }
        i := i + 1;
      }
      NotFound(bucket, k);
      return None;
    }

    lemma Found(bucket: seq<Hashent<E>>, k: K, i: nat)
      requires Valid() && bucket == table[code(k) % size]
      requires i < |bucket| && same(key(bucket[i].ent), k) && forall j :: 0 <= j < i ==> !same(key(bucket[j].ent), k)
      ensures bucket[i].ent in entered && Hit(bucket[i].ent, k)
      ensures tail ==>
                exists m ::
                  0 <= m < |entered| && entered[m] == bucket[i].ent && forall e <- entered[..m] :: !Hit(e, k)
    {
      var n, b := size, code(k) % size;
      var want, e := Chain(Hash(), entered, n, b), bucket[i].ent;
      hide IsPow2, Threshold, Chain;
      assert BucketOk(bucket, b, want, tail);
      assert Ents(bucket)[i] in multiset(Ents(bucket));
      ChainRemove(Hash(), entered, n, b, e);
      if tail {
        var m := ChainPlace(Hash(), entered, n, b, i);
        ghost var early := want[..i];
        assert forall j :: 0 <= j < i ==> early[j] == bucket[j].ent;
        forall x | x in entered[..m]
          ensures !Hit(x, k)
        {
          ChainRemove(Hash(), entered[..m], n, b, x);
          assert Hit(x, k) ==> x in early;
        }
      }
    }

    lemma NotFound(bucket: seq<Hashent<E>>, k: K)
      requires Valid() && bucket == table[code(k) % size]
      requires forall j :: 0 <= j < |bucket| ==> !same(key(bucket[j].ent), k)
      ensures forall e <- entered :: !Hit(e, k)
    {
      var n, b := size, code(k) % size;
      var held := Ents(bucket);
      assert forall e <- multiset(held) :: !same(key(e), k);
      forall e | e in entered
        ensures !Hit(e, k)
      {
        FiledAt(Hash(), tail, table[..], entered, b, e);
      }
    }
  }
}
