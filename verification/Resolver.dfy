/**
 The resolver's queues: lookups wait to be sent, are pending an answer, or are cached
 (modules/dns/lookup.c, modules/dns/packet.c, modules/dns/dns.c).

 The limits are fixed for a run.  What `socket_write`, `inet_pton` and the size of a query say are
 parameters of a send; a timer is the interval it was armed with; callbacks do not call the resolver.
 */
module Resolver {
  import opened Common

  datatype Flag = Waiting | Pending | Cache | Failed | Again | Timeout | Nxdomain

  const PLACES: set<Flag> := {Waiting, Pending, Cache}

  const CLASS_IN: nat := 1
  const TYPE_PTR: nat := 12
  const RCODE_OK: nat := 0
  const RCODE_NXDOMAIN: nat := 3
  const MAX_NAMELEN: nat := 1024

  datatype Config = Config(timeout: nat, retries: nat, max: nat, cacheMax: nat, expire: nat, cacheFailures: bool)

  // ----- backoff

  /** The wait for an answer with this many retries left. */
  ghost function Wait(cfg: Config, retry: nat): nat
    requires retry <= cfg.retries
  {
    cfg.timeout * Pow2(cfg.retries - retry)
  }

  /** The waits of all the timers that fire while `retry` goes down from its first value to this one. */
  ghost function Spent(cfg: Config, retry: int): nat
    requires -1 <= retry <= cfg.retries
    decreases cfg.retries - retry
  {
    if retry == cfg.retries then 0 else Wait(cfg, retry + 1) + Spent(cfg, retry + 1)
  }

  lemma {:induction false} SpentClosed(cfg: Config, retry: int)
    requires -1 <= retry <= cfg.retries
    ensures Spent(cfg, retry) == cfg.timeout * (Pow2(cfg.retries - retry) - 1)
    decreases cfg.retries - retry
  {
    if retry < cfg.retries {
      SpentClosed(cfg, retry + 1);
      var t: int, p: int := cfg.timeout, Pow2(cfg.retries - retry - 1);
      assert Pow2(cfg.retries - retry) == 2 * p;
      assert t * p + t * (p - 1) == t * (2 * p - 1);
    }
  }

  /** The table of waits, filled from its end. */
  method RetryTimes(cfg: Config) returns (times: array<nat>)
    ensures fresh(times) && times.Length == cfg.retries + 1
    ensures forall i :: 0 <= i <= cfg.retries ==> times[i] == Wait(cfg, i)
  {
    times := new nat[cfg.retries + 1];
    times[cfg.retries] := cfg.timeout;
    var i: int := cfg.retries - 1;
    while i >= 0
      invariant -1 <= i < cfg.retries
      invariant forall j :: i < j <= cfg.retries ==> times[j] == Wait(cfg, j)
    {
      WaitDoubles(cfg, i);
      times[i] := times[i + 1] * 2;
      i := i - 1;
    }
  }

  lemma WaitDoubles(cfg: Config, i: nat)
    requires i < cfg.retries
    ensures Wait(cfg, i) == Wait(cfg, i + 1) * 2
  {
    var p := Pow2(cfg.retries - i - 1);
    assert cfg.timeout * (2 * p) == cfg.timeout * p * 2;
  }

  // ----- lookups

  class Lookup {
    const qclass: nat
    const qtype: nat
    const data: string
    const id: nat
    var flags: set<Flag>
    var retry: nat
    var timer: Option<nat>
    var ttl: nat
    // the callbacks hooked on `finished`, next to be called first
    var hooks: seq<nat>
    // the TTLs of the answer section, and the minimum of an SOA first in the authority section
    var answers: seq<nat>
    var soa: Option<nat>
    // how often it was sent and finished, what its expired timers waited, and what else accounts for its sends
    ghost var sends: nat
    ghost var finishes: nat
    ghost var spent: nat
    ghost var account: Account

    constructor (qclass: nat, qtype: nat, data: string, id: nat, retry: nat, hook: nat)
      ensures this.qclass == qclass && this.qtype == qtype && this.data == data && this.id == id
      ensures ViewOf(this) == NewView(retry, hook)
    {
      this.qclass, this.qtype, this.data, this.id := qclass, qtype, data, id;
      flags, this.retry, timer, ttl, hooks, answers, soa := {}, retry, None, 0, [hook], [], None;
      sends, finishes, spent, account := 0, 0, 0, NO_ACCOUNT;
    }
  }

  /**
   What the sends and the waits of a lookup are accounted for by, besides its retries: replies to try again
   that met it pending (`agains`), timers that ran out while it waited (`expired`), and second tries that could
   not be written and were forgotten (`lost`, at waits of `lostWait` together).  All timers it was given were for
   `armed` together, those that a send replaced before they ran out for `cut`.  `second` says that its last query
   was a second try, and `strayed` that one of the replies counted did not echo the query that was pending.
   */
  datatype Account = Account(agains: nat, expired: nat, lost: nat, armed: nat, cut: nat, lostWait: nat, second: bool,
                             strayed: bool)

  const NO_ACCOUNT: Account := Account(0, 0, 0, 0, 0, 0, false, false)

  datatype View = View(flags: set<Flag>, retry: nat, timer: Option<nat>, hooks: seq<nat>, answers: seq<nat>,
                       soa: Option<nat>, sends: nat, finishes: nat, spent: nat, account: Account)

  ghost function ViewOf(l: Lookup): View
    reads l
  {
    View(l.flags, l.retry, l.timer, l.hooks, l.answers, l.soa, l.sends, l.finishes, l.spent, l.account)
  }

  function NewView(retry: nat, hook: nat): View {
    View({}, retry, None, [hook], [], None, 0, 0, 0, NO_ACCOUNT)
  }

  /** An IPv6 pointer query; one colon is enough, for the second search starts at the first. */
  predicate IsV6Pointer(l: Lookup) {
    l.qclass == CLASS_IN && l.qtype == TYPE_PTR && ':' in l.data
  }

  /** An IPv6 pointer whose next query is its second try, in the other domain. */
  predicate Marked(l: Lookup, flags: set<Flag>) {
    IsV6Pointer(l) && Failed in flags && Again in flags
  }

  /** The second try takes the marks off. */
  function Retried(l: Lookup, flags: set<Flag>): set<Flag> {
    if Marked(l, flags) then flags - {Failed, Again} else flags
  }

  function Lower(c: char): char {
    if 'A' <= c <= 'Z' then ((c as int) + 32) as char else c
  }

  function Lowered(s: string): string {
    seq(|s|, i requires 0 <= i < |s| => Lower(s[i]))
  }

  /** What two lookups must not share. */
  function KeyOf(l: Lookup): (nat, nat, string) {
    (l.qclass, l.qtype, Lowered(l.data))
  }

  // ----- the queues as values

  datatype State = State(w: seq<Lookup>, a: seq<Lookup>, c: seq<Lookup>, v: map<Lookup, View>)

  ghost predicate AllAt(list: seq<Lookup>, v: map<Lookup, View>, p: Flag) {
    Distinct(list) && forall l <- list :: l in v && v[l].flags * PLACES == {p}
  }

  /** The next query, or the one that is pending, is a second try. */
  predicate SecondTry(l: Lookup, v: View) {
    if Pending in v.flags then v.account.second else Marked(l, v.flags)
  }

  /** The timer that still runs while the lookup waits: one that met it pending, and a reply to try again came. */
  predicate StillRuns(v: View) {
    Waiting in v.flags && v.timer.Some?
  }

  function Running(v: View): nat {
    if v.timer.Some? then v.timer.value else 0
  }

  /**
   The sends of a lookup are those of its retries, with one more for each reply to try again that met it
   pending, and one less for each timer that ran out while it waited.  If all those replies echo the query,
   only an IPv6 pointer has any, and then at most one for each retry and each second try lost.
   */
  ghost predicate SendsOk(cfg: Config, l: Lookup, v: View) {
    var a, used := v.account, cfg.retries - v.retry;
    && v.sends + a.expired == used + a.agains + (if Pending in v.flags then 1 else 0)
    && a.expired + (if StillRuns(v) then 1 else 0) <= a.agains
    && (!a.strayed ==>
          if IsV6Pointer(l) then a.agains + a.expired <= used + a.lost + (if SecondTry(l, v) then 1 else 0)
          else a.agains == 0)
  }

  /**
   Every timer ran out, was cut short by the next send, or is running.  Timers are cut short exactly if there
   were more replies to try again than timers that ran out, or still run, while the lookup waits.  For an IPv6
   pointer whose replies echo, those are at most the waits of each try once, and of each second try lost.
   */
  ghost predicate WaitsOk(cfg: Config, l: Lookup, v: View)
    requires v.retry <= cfg.retries
  {
    var a, still := v.account, if StillRuns(v) then 1 else 0;
    && a.armed == v.spent + a.cut + Running(v)
    && (a.agains == a.expired + still ==> a.cut == 0)
    && (cfg.timeout > 0 && a.cut == 0 ==> a.agains == a.expired + still)
    && (!a.strayed && IsV6Pointer(l) ==>
          a.cut + (if StillRuns(v) then Running(v) else 0)
          <= v.spent + (if SecondTry(l, v) then Wait(cfg, v.retry) else 0) + a.lostWait)
  }

  /**
   What is true of a lookup between calls.  A pending one has its timer running, and the timers that ran out
   add up to the waits of the retries used.
   */
  ghost predicate Ok(cfg: Config, l: Lookup, v: View) {
    if Cache in v.flags then v.finishes == 1 && v.timer.Some?
    else
      && v.finishes == 0 && v.retry <= cfg.retries && v.spent == Spent(cfg, v.retry)
      && (v.timer.Some? ==> v.timer.value == Wait(cfg, v.retry))
      && (Pending in v.flags ==> v.timer.Some?)
      && v.answers == [] && v.soa == None && SendsOk(cfg, l, v) && WaitsOk(cfg, l, v)
  }

  /** The invariant of the queues; the lookups in `busy` are being worked on. */
  ghost predicate Inv(cfg: Config, s: State, busy: set<Lookup>) {
    && AllAt(s.w, s.v, Waiting) && AllAt(s.a, s.v, Pending) && AllAt(s.c, s.v, Cache)
    && |s.a| <= cfg.max && |s.c| <= cfg.cacheMax
    && (forall l <- s.v :: l in s.w || l in s.a || l in s.c)
    && (forall l, m :: l in s.v && m in s.v && l != m ==> KeyOf(l) != KeyOf(m))
    && (forall l <- s.v :: l in busy || Ok(cfg, l, s.v[l]))
  }

  function Put<T>(list: seq<T>, x: T, head: bool): seq<T> {
    if head then [x] + list else list + [x]
  }

  ghost function Relisted(list: seq<Lookup>, l: Lookup, here: bool, head: bool): seq<Lookup> {
    var rest := Without(list, {l});
    if here then Put(rest, l, head) else rest
  }

  /** A lookup moved to one of the lists, or to none. */
  ghost function Moved(s: State, l: Lookup, to: Option<Flag>, head: bool): State
    requires l in s.v
  {
    State(Relisted(s.w, l, to == Some(Waiting), head),
          Relisted(s.a, l, to == Some(Pending), head),
          Relisted(s.c, l, to == Some(Cache), head),
          s.v[l := s.v[l].(flags := s.v[l].flags - PLACES + if to.Some? then {to.value} else {})])
  }

  ghost function Gone(s: State, l: Lookup): State {
    State(Without(s.w, {l}), Without(s.a, {l}), Without(s.c, {l}), s.v - {l})
  }

  lemma {:induction false} WithoutDistinct(list: seq<Lookup>, l: Lookup)
    requires Distinct(list)
    ensures Distinct(Without(list, {l}))
    ensures |Without(list, {l})| == if l in list then |list| - 1 else |list|
  {
    if l in list {
      var i :| 0 <= i < |list| && list[i] == l;
      WithoutOne(list, i);
    } else {
      WithoutNothing(list, {l});
    }
  }

  lemma PutDistinct(list: seq<Lookup>, l: Lookup, head: bool)
    requires Distinct(list) && l !in list
    ensures Distinct(Put(list, l, head)) && |Put(list, l, head)| == |list| + 1
    ensures forall x :: x in Put(list, l, head) <==> x == l || x in list
  {
    var r := Put(list, l, head);
    assert head ==> r[0] == l && r[1..] == list;
    assert !head ==> r[|list|] == l && r[..|list|] == list;
  }

  lemma RelistedAt(list: seq<Lookup>, v: map<Lookup, View>, p: Flag, l: Lookup, to: Flag, head: bool)
    requires AllAt(list, v, p) && l in v && to in PLACES && p in PLACES
    ensures
      var r := Relisted(list, l, to == p, head);
      && AllAt(r, v[l := v[l].(flags := v[l].flags - PLACES + {to})], p)
      && (forall x :: x in r <==> if x == l then to == p else x in list)
      && |r| <= |list| + if to == p then 1 else 0
  {
    WithoutDistinct(list, l);
    PutDistinct(Without(list, {l}), l, head);
    assert (v[l].flags - PLACES + {to}) * PLACES == {to};
  }

  lemma MovedKeepsInv(cfg: Config, s: State, l: Lookup, to: Flag, head: bool, busy: set<Lookup>)
    requires Inv(cfg, s, busy) && l in s.v && l in busy && to in PLACES
    requires to == Pending ==> |s.a| < cfg.max
    requires to == Cache ==> |s.c| < cfg.cacheMax
    ensures Inv(cfg, Moved(s, l, Some(to), head), busy)
  {
    hide Ok, Lowered, AllAt;
    RelistedAt(s.w, s.v, Waiting, l, to, head);
    RelistedAt(s.a, s.v, Pending, l, to, head);
    RelistedAt(s.c, s.v, Cache, l, to, head);
    hide Put, Without;
  }

  lemma GoneKeepsInv(cfg: Config, s: State, l: Lookup, busy: set<Lookup>)
    requires Inv(cfg, s, busy)
    ensures Inv(cfg, Gone(s, l), busy)
  {
    hide Ok, Lowered;
    WithoutDistinct(s.w, l);
    WithoutDistinct(s.a, l);
    WithoutDistinct(s.c, l);
  }

  /** The fields of one lookup change, but not its list. */
  ghost function Revised(s: State, l: Lookup, v: View): State {
    s.(v := s.v[l := v])
  }

  lemma RevisedKeepsInv(cfg: Config, s: State, l: Lookup, v: View, busy: set<Lookup>)
    requires Inv(cfg, s, busy) && l in s.v && v.flags * PLACES == s.v[l].flags * PLACES
    requires l in busy || Ok(cfg, l, v)
    ensures Inv(cfg, Revised(s, l, v), busy)
  {
    hide Ok, Lowered, Distinct;
  }

  lemma Rested(cfg: Config, s: State, l: Lookup)
    requires Inv(cfg, s, {l}) && (l in s.v ==> Ok(cfg, l, s.v[l]))
    ensures Inv(cfg, s, {})
  {
    hide Ok, Lowered, AllAt;
  }

  lemma Busy(cfg: Config, s: State, l: Lookup)
    requires Inv(cfg, s, {})
    ensures Inv(cfg, s, {l})
  {
    hide Ok, Lowered, AllAt;
  }

  /** A full cache loses its last, least recently used, entry. */
  ghost function Evicted(cfg: Config, s: State): State {
    if |s.c| == cfg.cacheMax && |s.c| > 0 then Gone(s, s.c[|s.c| - 1]) else s
  }

  /** The cache with one more entry at its head. */
  ghost function Cached(cfg: Config, s: State, l: Lookup, ttl: nat): State
    requires l in s.v && l !in s.c
  {
    var t := Evicted(cfg, s);
    var m := Moved(t, l, Some(Cache), true);
    Revised(m, l, m.v[l].(timer := Some(ttl)))
  }

  lemma EvictKeepsInv(cfg: Config, s: State, l: Lookup, busy: set<Lookup>)
    requires Inv(cfg, s, busy) && l in s.v && Cache !in s.v[l].flags
    ensures
      var t := Evicted(cfg, s);
      && Inv(cfg, t, busy) && l in t.v && t.v[l] == s.v[l] && |t.c| <= |s.c| &&
          (cfg.cacheMax > 0 ==> |t.c| < cfg.cacheMax)
    ensures |s.c| > 0 ==> s.c[|s.c| - 1] != l && Placed(s, s.c[|s.c| - 1])
  {
    if |s.c| > 0 {
      var e := s.c[|s.c| - 1];
      assert Cache in s.v[e].flags * PLACES;
      GoneKeepsInv(cfg, s, e, busy);
      InvPlaces(cfg, s, busy, e);
      WithoutDistinct(s.c, e);
    }
    hide Ok, Lowered, AllAt;
  }

  /** The lists say where a lookup is, and so do its flags. */
  ghost predicate Placed(s: State, l: Lookup) {
    && l in s.v && Distinct(s.w) && Distinct(s.a) && Distinct(s.c)
    && (Waiting in s.v[l].flags <==> l in s.w)
    && (Pending in s.v[l].flags <==> l in s.a)
    && (Cache in s.v[l].flags <==> l in s.c)
    && (l in s.w ==> l !in s.a && l !in s.c) && (l in s.a ==> l !in s.c)
  }

  lemma NotListed(s: State, l: Lookup)
    ensures l !in s.w ==> Without(s.w, {l}) == s.w
    ensures l !in s.a ==> Without(s.a, {l}) == s.a
    ensures l !in s.c ==> Without(s.c, {l}) == s.c
  {
    if l !in s.w {
      WithoutNothing(s.w, {l});
    }
    if l !in s.a {
      WithoutNothing(s.a, {l});
    }
    if l !in s.c {
      WithoutNothing(s.c, {l});
    }
  }

  lemma InvPlaces(cfg: Config, s: State, busy: set<Lookup>, l: Lookup)
    requires Inv(cfg, s, busy) && l in s.v
    ensures Placed(s, l) && (l in s.w || l in s.a || l in s.c)
  {
    hide Ok, Lowered;
    assert forall p :: p in PLACES ==> (p in s.v[l].flags <==> p in s.v[l].flags * PLACES);
  }

  ghost function Finished(s: State, l: Lookup): State
    requires l in s.v
  {
    Revised(s, l, s.v[l].(finishes := s.v[l].finishes + 1))
  }

  lemma DroppedKeepsInv(cfg: Config, s: State, l: Lookup)
    requires Inv(cfg, s, {l}) && l in s.v && Cache !in s.v[l].flags
    ensures Inv(cfg, Gone(s, l), {}) && Placed(s, l) && l !in s.c
  {
    InvPlaces(cfg, s, {l}, l);
    GoneKeepsInv(cfg, s, l, {l});
    Rested(cfg, Gone(s, l), l);
  }

  lemma CachedKeepsInv(cfg: Config, s: State, l: Lookup, ttl: nat)
    requires Inv(cfg, s, {l}) && l in s.v && Cache !in s.v[l].flags && s.v[l].finishes == 1 && cfg.cacheMax > 0
    ensures l !in s.c && Inv(cfg, Cached(cfg, s, l, ttl), {})
  {
    InvPlaces(cfg, s, {l}, l);
    EvictKeepsInv(cfg, s, l, {l});
    hide Inv, Placed, Evicted, Ok;
    var e := Evicted(cfg, s);
    MovedKeepsInv(cfg, e, l, Cache, true, {l});
    var m := Moved(e, l, Some(Cache), true);
    var v := m.v[l].(timer := Some(ttl));
    RevisedKeepsInv(cfg, m, l, v, {l});
    assert Ok(cfg, l, v) by {
      CachedOk(cfg, l, v);
    }
    Rested(cfg, Revised(m, l, v), l);
  }

  lemma CachedOk(cfg: Config, l: Lookup, v: View)
    requires Cache in v.flags && v.finishes == 1 && v.timer.Some?
    ensures Ok(cfg, l, v)
  {
  }

  /** Whether a finished lookup is cached. */
  predicate Keeps(cfg: Config, flags: set<Flag>, ttl: nat) {
    ttl != 0 && (cfg.cacheFailures || Failed !in flags) && cfg.cacheMax > 0
  }

  ghost function Called(l: Lookup, hooks: seq<nat>): seq<(nat, Lookup)> {
    seq(|hooks|, i requires 0 <= i < |hooks| => (hooks[i], l))
  }

  function Least(ts: seq<nat>, most: nat): nat {
    if ts == [] then most
    else
      var t := Least(ts[..|ts| - 1], most);
      if ts[|ts| - 1] < t then ts[|ts| - 1] else t
  }

  /** How long a finished lookup is good for. */
  function Ttl(expire: nat, answers: seq<nat>, soa: Option<nat>): nat {
    if answers == [] && soa.Some? && soa.value < expire then soa.value else Least(answers, expire)
  }

  /** The least of the cache expiry, the TTLs of the answers, and the SOA minimum if there is no answer. */
  lemma {:induction false} TtlIsLeast(expire: nat, answers: seq<nat>, soa: Option<nat>)
    ensures
      var ttl := Ttl(expire, answers, soa);
      && ttl <= expire && (forall t <- answers :: ttl <= t)
      && (answers == [] && soa.Some? ==> ttl <= soa.value)
      && (ttl == expire || ttl in answers || (answers == [] && Some(ttl) == soa))
  {
    if answers != [] {
      var n := |answers| - 1;
      TtlIsLeast(expire, answers[..n], None);
      assert answers == answers[..n] + [answers[n]];
    }
  }

  ghost function TtlOf(cfg: Config, v: View): nat {
    Ttl(cfg.expire, v.answers, v.soa)
  }

  /** A finished lookup, cached or freed. */
  ghost function Settled(cfg: Config, s: State, l: Lookup): State
    requires l in s.v && l !in s.c
  {
    var ttl := TtlOf(cfg, s.v[l]);
    if Keeps(cfg, s.v[l].flags, ttl) then Cached(cfg, s, l, ttl) else Gone(s, l)
  }

  /** The lookup fails, with these flags, and is finished. */
  ghost function Failing(cfg: Config, s: State, l: Lookup, why: set<Flag>): State
    requires l in s.v && l !in s.c
  {
    Settled(cfg, Finished(Revised(s, l, s.v[l].(flags := s.v[l].flags + why)), l), l)
  }

  /**
   A lookup was finished with these flags and records: it is first in the cache, the last entry of a full one gone,
   for the least of its times to live, if that is not 0, there is a cache, and it has not failed or failures are
   cached; otherwise it is freed and the cache as it was.
   */
  ghost predicate Closed(cfg: Config, s: State, l: Lookup, why: set<Flag>, answers: seq<nat>, soa: Option<nat>,
                         t: State)
    requires l in s.v
  {
    var ttl, flags := Ttl(cfg.expire, answers, soa), s.v[l].flags - PLACES + why;
    && l !in t.w && l !in t.a
    && if ttl > 0 && cfg.cacheMax > 0 && (cfg.cacheFailures || Failed !in flags) then
         && t.c == [l] + (if |s.c| == cfg.cacheMax then s.c[..|s.c| - 1] else s.c)
         && l in t.v && t.v[l].flags == flags + {Cache} && t.v[l].timer == Some(ttl)
         && t.v[l].answers == answers && t.v[l].soa == soa
       else l !in t.v && t.c == s.c
  }

  lemma FailingCloses(cfg: Config, s: State, l: Lookup, why: set<Flag>)
    requires l in s.v && l !in s.c && why !! PLACES && Distinct(s.c)
    ensures Closed(cfg, s, l, why, s.v[l].answers, s.v[l].soa, Failing(cfg, s, l, why))
  {
    hide Ttl, Cached, Without, Distinct, Gone;
    var t := Finished(Revised(s, l, s.v[l].(flags := s.v[l].flags + why)), l);
    var ttl := TtlOf(cfg, t.v[l]);
    assert t.v[l].flags - PLACES == s.v[l].flags - PLACES + why;
    if Keeps(cfg, t.v[l].flags, ttl) {
      CachedFirst(cfg, t, l, ttl);
    } else {
      GoneFrom(t, l);
    }
  }

  lemma CachedFirst(cfg: Config, s: State, l: Lookup, ttl: nat)
    requires l in s.v && l !in s.c && Distinct(s.c) && cfg.cacheMax > 0
    ensures
      var t := Cached(cfg, s, l, ttl);
      && l !in t.w && l !in t.a && t.c == [l] + (if |s.c| == cfg.cacheMax then s.c[..|s.c| - 1] else s.c)
      && l in t.v && t.v[l] == s.v[l].(flags := s.v[l].flags - PLACES + {Cache}, timer := Some(ttl))
  {
    hide Distinct;
    WithoutNothing(s.c, {l});
    if |s.c| == cfg.cacheMax {
      WithoutLast(s.c);
      WithoutNothing(s.c[..|s.c| - 1], {l});
    }
    hide Without;
  }

  lemma WithoutLast(list: seq<Lookup>)
    requires list != [] && Distinct(list)
    ensures Without(list, {list[|list| - 1]}) == list[..|list| - 1]
  {
    WithoutOne(list, |list| - 1);
    assert list[..|list| - 1] + list[|list|..] == list[..|list| - 1];
  }

  lemma GoneFrom(s: State, l: Lookup)
    requires l !in s.c
    ensures var t := Gone(s, l); l !in t.w && l !in t.a && l !in t.v && t.c == s.c
  {
    WithoutNothing(s.c, {l});
  }

  // ----- sending

  /** The first waiting lookup, made active, when its query is found to be unusable. */
  ghost function Opened(s: State, l: Lookup, io: Io): State
    requires l in s.v
  {
    var m := Moved(s, l, Some(Pending), false);
    if IsV6Pointer(l) && io.badAddress then m else Revised(m, l, Built(l, m.v[l]))
  }

  /** The query is built: the marks of a second try are used up. */
  ghost function Built(l: Lookup, v: View): View {
    v.(flags := Retried(l, v.flags), account := v.account.(second := Marked(l, v.flags)))
  }

  /** The query could not be written: a second try is lost, as its marks are gone. */
  ghost function Unwritten(cfg: Config, l: Lookup, v: View): View
    requires v.retry <= cfg.retries
  {
    var b := Built(l, v);
    var a := b.account;
    if !a.second then b
    else b.(account := a.(lost := a.lost + 1, lostWait := a.lostWait + Wait(cfg, v.retry)))
  }

  /** The query was written: the timer starts, and one that still runs is destroyed. */
  ghost function Armed(cfg: Config, v: View): View
    requires v.retry <= cfg.retries
  {
    var a, w := v.account, Wait(cfg, v.retry);
    v.(timer := Some(w), sends := v.sends + 1, account := a.(armed := a.armed + w, cut := a.cut + Running(v)))
  }

  predicate Unusable(l: Lookup, io: Io) {
    (IsV6Pointer(l) && io.badAddress) || io.tooLong
  }

  lemma OpenedKeepsInv(cfg: Config, s: State, l: Lookup, io: Io)
    requires Inv(cfg, s, {}) && s.w != [] && l == s.w[0] && |s.a| < cfg.max
    ensures
      var t := Opened(s, l, io);
      && Inv(cfg, Moved(s, l, Some(Pending), false), {l}) && Inv(cfg, t, {l}) && Placed(t, l) && l in t.a && l !in t.c
      && t.v[l].finishes == 0 && t.v[l].flags * PLACES == {Pending} && t.w == s.w[1..] && t.v[l].retry <= cfg.retries
    ensures l in s.v && Placed(s, l)
  {
    hide Inv, Ok, Placed, Wait, Spent, Without, Retried;
    FirstWaiting(cfg, s, l);
    MovedKeepsInv(cfg, s, l, Pending, false, {l});
    SentOk(cfg, l, s.v[l]);
    var m := Moved(s, l, Some(Pending), false);
    var v := Built(l, m.v[l]);
    hide Relisted;
    RevisedKeepsInv(cfg, m, l, v, {l});
    OpenedPlaces(cfg, Opened(s, l, io), l);
  }

  lemma OpenedPlaces(cfg: Config, t: State, l: Lookup)
    requires Inv(cfg, t, {l}) && l in t.v && t.v[l].flags * PLACES == {Pending}
    ensures Placed(t, l) && l in t.a && l !in t.c
  {
    InvPlaces(cfg, t, {l}, l);
    assert Pending in t.v[l].flags * PLACES && Cache !in t.v[l].flags * PLACES;
  }

  lemma FirstWaiting(cfg: Config, s: State, l: Lookup)
    requires Inv(cfg, s, {}) && s.w != [] && l == s.w[0]
    ensures l in s.v && s.v[l].flags * PLACES == {Waiting} && Ok(cfg, l, s.v[l])
    ensures s.v[l].retry <= cfg.retries && s.v[l].finishes == 0
    ensures Placed(s, l) && Inv(cfg, s, {l}) && Without(s.w, {l}) == s.w[1..]
    ensures Distinct(s.w) && l !in s.a && l !in s.c
  {
    assert Waiting in s.v[l].flags * PLACES && Cache !in s.v[l].flags * PLACES;
    Busy(cfg, s, l);
    InvPlaces(cfg, s, {}, l);
    WithoutOne(s.w, 0);
  }

  /** What the address parser, the size of the query and the socket say. */
  datatype Io = Io(badAddress: bool, tooLong: bool, written: bool)

  ghost function Sent(cfg: Config, s: State, l: Lookup): State
    requires l in s.v && s.v[l].retry <= cfg.retries
  {
    var m := Moved(s, l, Some(Pending), false);
    var b := Built(l, m.v[l]);
    Revised(m, l, Armed(cfg, b))
  }

  /** What one call of `dns_lookup_send` does, and the callbacks it calls. */
  ghost predicate SendResult(cfg: Config, s: State, io: Io, r: bool, t: State, called: seq<(nat, Lookup)>) {
    if |s.a| == cfg.max || s.w == [] then !r && t == s && called == []
    else HeadResult(cfg, s, s.w[0], io, r, t, called)
  }

  ghost predicate HeadResult(cfg: Config, s: State, l: Lookup, io: Io, r: bool, t: State, called: seq<(nat, Lookup)>) {
    && l in s.v && s.v[l].retry <= cfg.retries
    && if Unusable(l, io) then
        && r && l in Opened(s, l, io).v && l !in Opened(s, l, io).c
        && t == Failing(cfg, Opened(s, l, io), l, {Failed}) && called == Called(l, s.v[l].hooks)
      else
        && called == []
        && if io.written then r && t == Sent(cfg, s, l) else !r && t == Revised(s, l, Unwritten(cfg, l, s.v[l]))
  }

  /** The same as a function: whether the call goes on, the new state, and the callbacks called. */
  ghost function Sending(cfg: Config, s: State, io: Io): (bool, State, seq<(nat, Lookup)>) {
    if |s.a| == cfg.max || s.w == [] || s.w[0] !in s.v || s.v[s.w[0]].retry > cfg.retries then (false, s, [])
    else
      var l := s.w[0];
      if !Unusable(l, io) then
        if io.written then (true, Sent(cfg, s, l), []) else (false, Revised(s, l, Unwritten(cfg, l, s.v[l])), [])
      else
        var o := Opened(s, l, io);
        if l !in o.v || l in o.c then (false, s, [])
        else (true, Failing(cfg, o, l, {Failed}), Called(l, s.v[l].hooks))
  }

  lemma SendingIs(cfg: Config, s: State, io: Io, r: bool, t: State, called: seq<(nat, Lookup)>)
    requires SendResult(cfg, s, io, r, t, called)
    ensures Sending(cfg, s, io) == (r, t, called)
    ensures !r ==> |t.a| == cfg.max || t.w == [] || !io.written
  {
    hide Opened, Failing, Sent, Called, Unwritten;
  }

  /** What so many calls in a row do, and the callbacks they call. */
  ghost function AllSent(cfg: Config, s: State, net: nat -> Io, n: nat): (State, seq<(nat, Lookup)>) {
    if n == 0 then (s, [])
    else
      var (t, called) := AllSent(cfg, s, net, n - 1);
      var (r, u, more) := Sending(cfg, t, net(n - 1));
      (u, called + more)
  }

  lemma SentKeepsInv(cfg: Config, s: State, l: Lookup)
    requires Inv(cfg, s, {}) && s.w != [] && l == s.w[0] && |s.a| < cfg.max
    ensures l in s.v && s.v[l].retry <= cfg.retries
    ensures Inv(cfg, Sent(cfg, s, l), {})
  {
    hide Inv, Ok, Placed, Wait, Spent, Relisted, Retried, Without;
    FirstWaiting(cfg, s, l);
    var v := s.v[l];
    MovedKeepsInv(cfg, s, l, Pending, false, {l});
    SentOk(cfg, l, v);
    var m := Moved(s, l, Some(Pending), false);
    var u := SentView(cfg, l, v);
    RevisedKeepsInv(cfg, m, l, u, {l});
    Rested(cfg, Revised(m, l, u), l);
  }

  ghost function SentView(cfg: Config, l: Lookup, v: View): View
    requires v.retry <= cfg.retries
  {
    Armed(cfg, Built(l, v.(flags := v.flags - PLACES + {Pending})))
  }

  lemma SentOk(cfg: Config, l: Lookup, v: View)
    requires Ok(cfg, l, v) && v.flags * PLACES == {Waiting}
    ensures v.retry <= cfg.retries && Ok(cfg, l, SentView(cfg, l, v)) && SentView(cfg, l, v).flags * PLACES == {Pending}
    ensures (v.flags - PLACES + {Pending}) * PLACES == {Pending}
  {
    assert Waiting in v.flags * PLACES && Pending !in v.flags * PLACES && Cache !in v.flags * PLACES;
    WaitPositive(cfg, v.retry);
    hide Wait, Spent;
  }

  lemma WaitPositive(cfg: Config, retry: nat)
    requires retry <= cfg.retries
    ensures cfg.timeout > 0 ==> Wait(cfg, retry) > 0
  {
  }

  lemma HeadAgain(list: seq<Lookup>, l: Lookup)
    requires Distinct(list) && list != [] && list[0] == l
    ensures Relisted(Relisted(list, l, false, false), l, true, true) == list
  {
    WithoutOne(list, 0);
    assert list == [l] + list[1..];
    WithoutNothing(list[1..], {l});
  }

  lemma NotThere(list: seq<Lookup>, l: Lookup)
    requires l !in list
    ensures Relisted(list, l, false, true) == Relisted(list, l, false, false) == list
    ensures Relisted(Relisted(list, l, true, false), l, false, true) == list
  {
    WithoutNothing(list, {l});
    WithoutConcat(list, [l], {l});
    assert Without([l], {l}) == [];
    assert list + [] == list;
  }

  /** A lookup whose query could not be written is back at the head of the waiting list. */
  lemma UnsentIsBack(cfg: Config, s: State, l: Lookup, flags: set<Flag>, account: Account)
    requires Inv(cfg, s, {}) && s.w != [] && l == s.w[0]
    requires flags - PLACES + {Waiting} == Retried(l, s.v[l].flags)
    ensures
      var m := Moved(s, l, Some(Pending), false);
      var u := Revised(m, l, m.v[l].(flags := flags, account := account));
      && Moved(u, l, Some(Waiting), true)
         == Revised(s, l, s.v[l].(flags := Retried(l, s.v[l].flags), account := account))
  {
    hide Inv, Ok, Without, Relisted, Retried, Placed;
    FirstWaiting(cfg, s, l);
    HeadAgain(s.w, l);
    NotThere(s.a, l);
    NotThere(s.c, l);
  }

  /** Finishing one lookup leaves the others of the waiting and active lists alone. */
  lemma SettledLists(cfg: Config, t: State, l: Lookup)
    requires Inv(cfg, t, {l}) && l in t.v && l !in t.c
    ensures Settled(cfg, t, l).w == Without(t.w, {l}) && Settled(cfg, t, l).a == Without(t.a, {l})
  {
    hide Inv, Without, Ok, Evicted, Keeps, TtlOf;
    EvictedLists(cfg, t, l);
  }

  lemma EvictedLists(cfg: Config, t: State, l: Lookup)
    requires Inv(cfg, t, {l})
    ensures Evicted(cfg, t).w == t.w && Evicted(cfg, t).a == t.a
  {
    if |t.c| > 0 {
      var e := t.c[|t.c| - 1];
      NotElsewhere(cfg, t, l, e);
      hide Inv;
      NotListed(t, e);
    }
    hide Inv, Without;
  }

  lemma NotElsewhere(cfg: Config, t: State, l: Lookup, e: Lookup)
    requires Inv(cfg, t, {l}) && e in t.c
    ensures e !in t.w && e !in t.a
  {
    hide Ok, KeyOf;
    InvPlaces(cfg, t, {l}, e);
  }

  lemma FailingLists(cfg: Config, t: State, l: Lookup, why: set<Flag>)
    requires Inv(cfg, t, {l}) && l in t.v && l !in t.c && why !! PLACES
    ensures Failing(cfg, t, l, why).w == Without(t.w, {l}) && Failing(cfg, t, l, why).a == Without(t.a, {l})
  {
    hide Inv, Ok, Settled, Without;
    var v := t.v[l].(flags := t.v[l].flags + why);
    assert v.flags * PLACES == t.v[l].flags * PLACES;
    RevisedKeepsInv(cfg, t, l, v, {l});
    var u := Revised(t, l, v);
    RevisedKeepsInv(cfg, u, l, u.v[l].(finishes := u.v[l].finishes + 1), {l});
    SettledLists(cfg, Finished(u, l), l);
  }

  lemma SentLists(cfg: Config, s: State, l: Lookup, io: Io)
    requires Inv(cfg, s, {}) && s.w != [] && l == s.w[0] && |s.a| < cfg.max
    ensures l in s.v && s.v[l].retry <= cfg.retries && Sent(cfg, s, l).w == s.w[1..]
    ensures l in Opened(s, l, io).v && l !in Opened(s, l, io).c
    ensures Failing(cfg, Opened(s, l, io), l, {Failed}).w == s.w[1..]
  {
    hide Inv, Ok, Without, Failing, Placed;
    FirstWaiting(cfg, s, l);
    OpenedKeepsInv(cfg, s, l, io);
    FailingLists(cfg, Opened(s, l, io), l, {Failed});
    WithoutNothing(s.w[1..], {l});
  }

  lemma ResultLists(cfg: Config, s: State, io: Io, r: bool, t: State, called: seq<(nat, Lookup)>)
    requires Inv(cfg, s, {}) && s.w != [] && |s.a| < cfg.max && HeadResult(cfg, s, s.w[0], io, r, t, called)
    ensures t.w == if r then s.w[1..] else s.w
  {
    hide Inv, Opened, Failing, Sent, Unwritten, Called, Unusable;
    SentLists(cfg, s, s.w[0], io);
  }

  lemma SentFromOpened(cfg: Config, s: State, l: Lookup, io: Io)
    requires l in s.v && s.v[l].retry <= cfg.retries
    ensures
      var t := Opened(s, l, io);
      && l in t.v && t.v[l].retry == s.v[l].retry && t.v[l].hooks == s.v[l].hooks
      && (!Unusable(l, io) ==>
            Sent(cfg, s, l) == Revised(t, l, Armed(cfg, t.v[l])))
  {
    hide Relisted, Retried, Marked, Wait;
  }

  lemma UnwrittenOk(cfg: Config, l: Lookup, v: View)
    requires Ok(cfg, l, v) && v.flags * PLACES == {Waiting}
    ensures v.retry <= cfg.retries && Ok(cfg, l, Unwritten(cfg, l, v))
    ensures Unwritten(cfg, l, v).flags * PLACES == {Waiting}
    ensures Retried(l, v.flags - PLACES + {Pending}) - PLACES + {Waiting} == Retried(l, v.flags)
    ensures Marked(l, v.flags - PLACES + {Pending}) == Marked(l, v.flags)
  {
    assert Waiting in v.flags * PLACES && Pending !in v.flags * PLACES && Cache !in v.flags * PLACES;
    hide Wait, Spent;
  }

  lemma ReturnedKeepsInv(cfg: Config, s: State, l: Lookup, io: Io)
    requires Inv(cfg, s, {}) && s.w != [] && l == s.w[0] && |s.a| < cfg.max && !Unusable(l, io)
    ensures l in s.v && s.v[l].retry <= cfg.retries && l in Opened(s, l, io).v
    ensures
      var t, o := Revised(s, l, Unwritten(cfg, l, s.v[l])), Opened(s, l, io);
      && Inv(cfg, t, {}) && o.v[l].account.second == Marked(l, s.v[l].flags)
      && Moved(Revised(o, l, o.v[l].(account := Unwritten(cfg, l, s.v[l]).account)), l, Some(Waiting), true) == t
  {
    hide Inv, Ok, Placed, Without, Relisted, Retried, Marked;
    FirstWaiting(cfg, s, l);
    var v := s.v[l];
    UnwrittenOk(cfg, l, v);
    RevisedKeepsInv(cfg, s, l, Unwritten(cfg, l, v), {});
    UnsentIsBack(cfg, s, l, Retried(l, v.flags - PLACES + {Pending}), Unwritten(cfg, l, v).account);
  }

  // ----- timers

  /** A lookup whose timer ran out and that has retries left waits again, first in line. */
  ghost function Expired(cfg: Config, s: State, l: Lookup): State
    requires l in s.v && 0 < s.v[l].retry <= cfg.retries
  {
    Moved(Revised(s, l, Ticked(cfg, s.v[l], s.v[l].retry - 1)), l, Some(Waiting), true)
  }

  /** The timer ran out, and so many retries are left. */
  ghost function Ticked(cfg: Config, v: View, retry: nat): View
    requires v.retry <= cfg.retries
  {
    v.(timer := None, retry := retry, spent := v.spent + Wait(cfg, v.retry),
       account := v.account.(expired := v.account.expired + if Waiting in v.flags then 1 else 0))
  }

  /** A lookup whose last timer ran out. */
  ghost function LastExpiry(cfg: Config, s: State, l: Lookup): State
    requires l in s.v && s.v[l].retry <= cfg.retries
  {
    Revised(s, l, Ticked(cfg, s.v[l], s.v[l].retry))
  }

  /** A timer of a lookup that is not cached ran out: what becomes of it, and the callbacks called. */
  ghost function Overdue(cfg: Config, s: State, l: Lookup): (State, seq<(nat, Lookup)>)
    requires l in s.v && s.v[l].retry <= cfg.retries && l !in s.c
  {
    if s.v[l].retry > 0 then (Expired(cfg, s, l), [])
    else (Failing(cfg, LastExpiry(cfg, s, l), l, {Timeout, Failed}), Called(l, s.v[l].hooks))
  }

  lemma LastExpiryKeepsInv(cfg: Config, s: State, l: Lookup)
    requires Inv(cfg, s, {}) && l in s.v && Cache !in s.v[l].flags && s.v[l].retry == 0
    ensures Inv(cfg, LastExpiry(cfg, s, l), {l}) && l !in s.c && s.v[l].finishes == 0
    ensures
      var v := LastExpiry(cfg, s, l).v[l];
      && v.spent == cfg.timeout * (Pow2(cfg.retries + 1) - 1)
      && (s.v[l].timer.Some? ==> v.account.armed == v.spent + v.account.cut)
  {
    SpentClosed(cfg, -1);
    hide Inv, Placed;
    InvView(cfg, s, l);
    RevisedKeepsInv(cfg, s, l, LastExpiry(cfg, s, l).v[l], {l});
  }

  /**
   The callback of one timer may destroy another: a lookup that fails with its last timer is cached, if failures
   are, and a full cache then frees its last entry, whose timer is running.
   */
  lemma ExpiryFreesAnother(cfg: Config, s: State, l: Lookup)
    requires Inv(cfg, s, {}) && l in s.v && Cache !in s.v[l].flags && s.v[l].retry == 0
    requires |s.c| == cfg.cacheMax > 0 && cfg.cacheFailures && cfg.expire > 0
    ensures
      var e := s.c[|s.c| - 1];
      && e != l && e in s.v && s.v[e].timer.Some? && l !in s.c
      && var t := Failing(cfg, LastExpiry(cfg, s, l), l, {Timeout, Failed});
         l in t.v && Cache in t.v[l].flags && e !in t.v
  {
    hide Inv, Placed, Ok, Wait, Spent, Relisted, Without, Ttl;
    InvView(cfg, s, l);
    LastCached(cfg, s);
    FreshTtl(cfg, l, s.v[l]);
  }

  lemma LastCached(cfg: Config, s: State)
    requires Inv(cfg, s, {}) && s.c != []
    ensures var e := s.c[|s.c| - 1]; e in s.v && Cache in s.v[e].flags && s.v[e].timer.Some?
  {
    var e := s.c[|s.c| - 1];
    assert Cache in s.v[e].flags * PLACES && Ok(cfg, e, s.v[e]);
  }

  lemma FreshTtl(cfg: Config, l: Lookup, v: View)
    requires Ok(cfg, l, v) && Cache !in v.flags
    ensures v.retry <= cfg.retries && Ttl(cfg.expire, v.answers, v.soa) == cfg.expire
  {
  }

  lemma StillPlaced(s: State, l: Lookup, v: View)
    requires Placed(s, l) && v.flags * PLACES == s.v[l].flags * PLACES
    ensures Placed(Revised(s, l, v), l)
  {
    assert forall p <- PLACES ::
      (p in v.flags <==> p in v.flags * PLACES) && (p in s.v[l].flags <==> p in s.v[l].flags * PLACES);
  }

  lemma InvView(cfg: Config, s: State, l: Lookup)
    requires Inv(cfg, s, {}) && l in s.v
    ensures Ok(cfg, l, s.v[l]) && Placed(s, l) && Inv(cfg, s, {l})
    ensures Cache !in s.v[l].flags ==> s.v[l].flags * PLACES == {Waiting} || s.v[l].flags * PLACES == {Pending}
    ensures Cache !in s.v[l].flags ==> l !in s.c && (Waiting in s.v[l].flags || Pending in s.v[l].flags)
  {
    Busy(cfg, s, l);
    InvPlaces(cfg, s, {}, l);
  }

  lemma ExpiredOk(cfg: Config, l: Lookup, v: View)
    requires Ok(cfg, l, v) && (v.flags * PLACES == {Waiting} || v.flags * PLACES == {Pending})
    requires v.timer.Some? && 0 < v.retry
    ensures v.retry <= cfg.retries
    ensures var u := Ticked(cfg, v, v.retry - 1); Ok(cfg, l, u.(flags := u.flags - PLACES + {Waiting}))
  {
    assert forall p <- PLACES :: p in v.flags <==> p in v.flags * PLACES;
    assert Cache !in v.flags && (Waiting in v.flags <==> Pending !in v.flags);
    hide Wait;
  }

  lemma ExpiredKeepsInv(cfg: Config, s: State, l: Lookup)
    requires Inv(cfg, s, {}) && l in s.v && Cache !in s.v[l].flags && s.v[l].timer.Some? && 0 < s.v[l].retry
    ensures s.v[l].retry <= cfg.retries && Inv(cfg, Expired(cfg, s, l), {})
  {
    hide Inv, Ok, Wait, Spent, Relisted, Placed;
    InvView(cfg, s, l);
    var v := s.v[l];
    ExpiredOk(cfg, l, v);
    var u := Ticked(cfg, v, v.retry - 1);
    RevisedKeepsInv(cfg, s, l, u, {l});
    var t := Revised(s, l, u);
    MovedKeepsInv(cfg, t, l, Waiting, true, {l});
    Rested(cfg, Moved(t, l, Some(Waiting), true), l);
  }

  /**
   All the waits a lookup was given are those that ran out, those cut short and the one that runs.  Without those
   cut short they are at most the timeout times the first 2^(retries + 1) - 1 steps; with the timer of the last
   try running, exactly then.  None is cut short exactly if the replies to try again that met it pending are no
   more than the timers that ran out, or still run, while it waits, as always if replies echo and it is no IPv6
   pointer.  For an IPv6 pointer the waits cut short are then within the same bound, but for second tries lost.
   */
  lemma TotalWait(cfg: Config, l: Lookup, v: View)
    requires Ok(cfg, l, v) && Cache !in v.flags
    ensures v.retry <= cfg.retries
    ensures v.spent == cfg.timeout * (Pow2(cfg.retries - v.retry) - 1)
    ensures v.timer.Some? ==> v.timer.value == cfg.timeout * Pow2(cfg.retries - v.retry)
    ensures
      var a, bound, still := v.account, cfg.timeout * (Pow2(cfg.retries + 1) - 1), if StillRuns(v) then 1 else 0;
      && a.armed == v.spent + a.cut + Running(v) && v.spent + Running(v) <= bound
      && (v.retry == 0 && v.timer.Some? ==> (a.armed <= bound <==> a.cut == 0))
      && (cfg.timeout > 0 ==> (a.cut == 0 <==> a.agains <= a.expired + still))
      && (!a.strayed && !IsV6Pointer(l) ==> a.cut == 0 && a.armed <= bound)
      && (!a.strayed && IsV6Pointer(l) ==> a.cut <= bound + a.lostWait && a.armed <= 2 * bound + a.lostWait)
  {
    WaitBound(cfg, v.retry);
    hide Spent, Wait, Pow2, Marked, IsV6Pointer;
  }

  lemma WaitBound(cfg: Config, retry: nat)
    requires retry <= cfg.retries
    ensures Spent(cfg, retry) == cfg.timeout * (Pow2(cfg.retries - retry) - 1)
    ensures Wait(cfg, retry) == cfg.timeout * Pow2(cfg.retries - retry)
    ensures
      var bound := cfg.timeout * (Pow2(cfg.retries + 1) - 1);
      && Spent(cfg, retry) + Wait(cfg, retry) <= bound
      && (retry == 0 ==> Spent(cfg, retry) + Wait(cfg, retry) == bound)
  {
    SpentClosed(cfg, retry);
    var n, t := cfg.retries - retry, cfg.timeout;
    Pow2Grows(n + 1, cfg.retries + 1);
    WaitsAddUp(t, Pow2(n), Pow2(cfg.retries + 1));
    hide Spent;
  }

  /**
   How often a lookup is sent: once for each try, if the replies to try again that meet it pending are no more
   than the timers that run out while it waits and the tries it has left.  There are none but for an IPv6
   pointer if replies echo the query; an IPv6 pointer is then sent at most twice for each try, and once more
   for each second try that could not be written.
   */
  lemma SendsExactly(cfg: Config, l: Lookup, v: View)
    requires Ok(cfg, l, v) && Cache !in v.flags
    ensures
      var a, pending := v.account, if Pending in v.flags then 1 else 0;
      && v.retry <= cfg.retries && v.sends == cfg.retries - v.retry + pending + a.agains - a.expired
      && (v.sends <= cfg.retries + 1 <==> a.agains <= a.expired + v.retry + 1 - pending)
      && (!a.strayed && !IsV6Pointer(l) ==> v.sends == cfg.retries - v.retry + pending <= cfg.retries + 1)
      && (!a.strayed && IsV6Pointer(l) ==> v.sends <= 2 * (cfg.retries + 1) + a.lost)
  {
  }

  lemma WaitsAddUp(t: int, p: int, q: int)
    requires 0 <= t && 1 <= p && 2 * p <= q
    ensures t * (p - 1) + t * p <= t * (q - 1) && t * (p - 1) <= t * (q - 1)
    ensures 2 * p == q ==> t * (p - 1) + t * p == t * (q - 1)
  {
    assert t * (p - 1) + t * p == t * (2 * p - 1);
    Ordered(t, 2 * p - 1, q - 1);
    Ordered(t, p - 1, q - 1);
  }

  lemma Ordered(t: int, a: int, b: int)
    requires 0 <= t && a <= b
    ensures t * a <= t * b
  {
  }

  // ----- replies

  datatype Question = Question(name: string, qtype: nat, qclass: nat)

  /** A reply as far as the queues see it; `question` is missing if its name does not expand. */
  datatype Reply = Reply(id: nat, qdcount: nat, qr: bool, opcode: nat, tc: bool, question: Option<Question>,
                         rcode: nat, answers: seq<nat>, soa: Option<nat>)

  ghost function FirstWithId(list: seq<Lookup>, id: nat): Option<Lookup> {
    if list == [] then None else if list[0].id == id then Some(list[0]) else FirstWithId(list[1..], id)
  }

  ghost function FirstTriedWithId(cfg: Config, list: seq<Lookup>, v: map<Lookup, View>, id: nat): Option<Lookup> {
    if list == [] then None
    else if list[0].id == id && list[0] in v && v[list[0]].retry < cfg.retries then Some(list[0])
    else FirstTriedWithId(cfg, list[1..], v, id)
  }

  /** The lookup a reply answers: an active one, or a waiting one that was tried before. */
  ghost function Replied(cfg: Config, s: State, id: nat): Option<Lookup> {
    var active := FirstWithId(s.a, id);
    if active.Some? then active else FirstTriedWithId(cfg, s.w, s.v, id)
  }

  lemma {:induction false} FirstWithIdAt(list: seq<Lookup>, id: nat, i: nat)
    requires i <= |list| && forall j :: 0 <= j < i ==> list[j].id != id
    ensures i == |list| ==> FirstWithId(list, id) == None
    ensures i < |list| && list[i].id == id ==> FirstWithId(list, id) == Some(list[i])
  {
    if i > 0 {
      FirstWithIdAt(list[1..], id, i - 1);
    }
  }

  lemma {:induction false} FirstTriedAt(cfg: Config, list: seq<Lookup>, v: map<Lookup, View>, id: nat, i: nat)
    requires i <= |list| && (forall l <- list :: l in v)
    requires forall j :: 0 <= j < i ==> list[j].id == id ==> v[list[j]].retry >= cfg.retries
    ensures i == |list| ==> FirstTriedWithId(cfg, list, v, id) == None
    ensures i < |list| && list[i].id == id && v[list[i]].retry < cfg.retries ==>
        FirstTriedWithId(cfg, list, v, id) == Some(list[i])
  {
    if i > 0 {
      assert list[0] in v;
      FirstTriedAt(cfg, list[1..], v, id, i - 1);
    }
  }

  const IN_ADDR_ARPA := "in-addr.arpa"
  const IP6_ARPA := "ip6.arpa"
  const IP6_INT := "ip6.int"

  predicate EndsIn(name: string, domain: string) {
    |name| >= |domain| && Lowered(name[|name| - |domain|..]) == domain
  }

  /** The server does not know an address in the first of the two domains for IPv6 pointers. */
  predicate TryAgain(r: Reply) {
    && r.question.Some? && r.rcode == RCODE_NXDOMAIN
    && r.question.value.qclass == CLASS_IN && r.question.value.qtype == TYPE_PTR
    && EndsIn(r.question.value.name, IP6_ARPA)
  }

  /** The domain a pointer query asks in. */
  function Domain(l: Lookup, second: bool): string {
    if !IsV6Pointer(l) then IN_ADDR_ARPA else if second then IP6_INT else IP6_ARPA
  }

  /** The question of a reply is the one that was asked, as far as its class, its type and the domain go. */
  predicate Echoes(l: Lookup, second: bool, q: Question) {
    && q.qclass == l.qclass && q.qtype == l.qtype
    && (l.qclass == CLASS_IN && l.qtype == TYPE_PTR ==> EndsIn(q.name, Domain(l, second)))
  }

  /** A reply that echoes the query asks to try again only after the first try of an IPv6 pointer. */
  lemma EchoTriesOnce(l: Lookup, second: bool, r: Reply)
    requires TryAgain(r) && Echoes(l, second, r.question.value)
    ensures IsV6Pointer(l) && !second
  {
    var name := r.question.value.name;
    hide EndsIn;
    OneEnding(name, IP6_ARPA, IN_ADDR_ARPA, 8);
    OneEnding(name, IP6_ARPA, IP6_INT, 1);
  }

  lemma OneEnding(name: string, a: string, b: string, k: nat)
    requires EndsIn(name, a) && 1 <= k <= |a| && k <= |b| && a[|a| - k] != b[|b| - k]
    ensures !EndsIn(name, b)
  {
    SuffixChar(name, a, k);
    if EndsIn(name, b) {
      SuffixChar(name, b, k);
    }
  }

  lemma SuffixChar(name: string, domain: string, k: nat)
    requires EndsIn(name, domain) && 1 <= k <= |domain|
    ensures Lower(name[|name| - k]) == domain[|domain| - k]
  {
    var end := name[|name| - |domain|..];
    assert Lowered(end)[|domain| - k] == Lower(end[|domain| - k]);
  }

  /** The lookup waits again, first in line, keeping its timer and its retries. */
  ghost function AskedAgain(s: State, l: Lookup, r: Reply): State
    requires l in s.v && r.question.Some?
  {
    Moved(Revised(s, l, AgainView(l, s.v[l], r.question.value)), l, Some(Waiting), true)
  }

  ghost function AgainView(l: Lookup, v: View, q: Question): View {
    var u := v.(flags := v.flags + {Failed, Again});
    if Pending !in v.flags then u
    else
      var a := v.account;
      u.(account := a.(agains := a.agains + 1, strayed := a.strayed || !Echoes(l, a.second, q)))
  }

  lemma AgainOk(cfg: Config, l: Lookup, v: View, r: Reply)
    requires Ok(cfg, l, v) && (v.flags * PLACES == {Waiting} || v.flags * PLACES == {Pending}) && TryAgain(r)
    ensures
      var u := AgainView(l, v, r.question.value);
      && Ok(cfg, l, u.(flags := u.flags - PLACES + {Waiting})) && u.flags * PLACES == v.flags * PLACES
  {
    var q := r.question.value;
    assert forall p <- PLACES :: p in v.flags <==> p in v.flags * PLACES;
    assert Cache !in v.flags && (Waiting in v.flags <==> Pending !in v.flags);
    if Echoes(l, v.account.second, q) {
      EchoTriesOnce(l, v.account.second, r);
    }
    hide Wait, Spent, Echoes, TryAgain;
  }

  lemma AgainKeepsInv(cfg: Config, s: State, l: Lookup, r: Reply)
    requires Inv(cfg, s, {}) && l in s.v && Cache !in s.v[l].flags && TryAgain(r)
    ensures Inv(cfg, AskedAgain(s, l, r), {})
  {
    hide Inv, Ok, Wait, Spent, Relisted, Placed, Lowered, AgainView;
    InvView(cfg, s, l);
    var v := s.v[l];
    AgainOk(cfg, l, v, r);
    var u := AgainView(l, v, r.question.value);
    RevisedKeepsInv(cfg, s, l, u, {l});
    var t := Revised(s, l, u);
    MovedKeepsInv(cfg, t, l, Waiting, true, {l});
    Rested(cfg, Moved(t, l, Some(Waiting), true), l);
  }

  /** A reply that only the first try of an IPv6 pointer asks for. */
  function ArpaReply(id: nat): Reply {
    Reply(id, 1, true, 0, false, Some(Question(IP6_ARPA, TYPE_PTR, CLASS_IN)), RCODE_NXDOMAIN, [], None)
  }

  /** The reply comes, and the lookup is sent again. */
  ghost function Round(cfg: Config, s: State, l: Lookup): State
    requires l in s.v && s.v[l].retry <= cfg.retries
  {
    Sent(cfg, AskedAgain(s, l, ArpaReply(l.id)), l)
  }

  /**
   But nothing compares the question of a reply with the lookup.  Any pending lookup, as one for an address,
   is sent once more after such a reply.  No retry is used, and the timer is replaced by a full new one.  It counts
   as stray unless the lookup is an IPv6 pointer in its first try, for which this is meant.
   */
  lemma ReplySendsAgain(cfg: Config, s: State, l: Lookup)
    requires Inv(cfg, s, {}) && l in s.a
    ensures l in s.v && l !in s.c && s.v[l].retry <= cfg.retries && TryAgain(ArpaReply(l.id))
    ensures
      var t := AskedAgain(s, l, ArpaReply(l.id));
      && Answered(cfg, s, l, ArpaReply(l.id), t, []) && Inv(cfg, t, {})
      && SendResult(cfg, t, Io(false, false, true), true, Round(cfg, s, l), [])
    ensures
      var u := Round(cfg, s, l);
      && Inv(cfg, u, {}) && l in u.a && l in u.v
      && var (v, v') := (s.v[l], u.v[l]);
         && v'.retry == v.retry && v'.sends == v.sends + 1 && v'.spent == v.spent && v'.timer == v.timer
         && v'.account.armed == v.account.armed + Wait(cfg, v.retry)
         && v'.account.cut == v.account.cut + Wait(cfg, v.retry)
         && v'.account.strayed == (v.account.strayed || !(IsV6Pointer(l) && !v.account.second))
  {
    hide Inv, Ok, AskedAgain, Sent, SendResult, TryAgain, Wait, Echoes;
    PendingView(cfg, s, l);
    var r := ArpaReply(l.id);
    ArpaTries(l.id);
    ArpaEchoes(l, s.v[l].account.second);
    AgainState(cfg, s, l, r);
    SentState(cfg, AskedAgain(s, l, r), l);
  }

  lemma ArpaTries(id: nat)
    ensures TryAgain(ArpaReply(id))
  {
    ArpaEnds();
  }

  lemma ArpaEnds()
    ensures EndsIn(IP6_ARPA, IP6_ARPA)
  {
    assert Lowered(IP6_ARPA[0..]) == IP6_ARPA;
  }

  lemma ArpaEchoes(l: Lookup, second: bool)
    ensures Echoes(l, second, ArpaReply(0).question.value) <==> IsV6Pointer(l) && !second
  {
    ArpaEnds();
    OneEnding(IP6_ARPA, IP6_ARPA, IN_ADDR_ARPA, 8);
    OneEnding(IP6_ARPA, IP6_ARPA, IP6_INT, 1);
    hide EndsIn;
  }

  /** As many such replies as one likes: no number bounds the sends or the waits of any lookup. */
  ghost function Rounds(cfg: Config, s: State, l: Lookup, n: nat): (t: State)
    requires Inv(cfg, s, {}) && l in s.a
    ensures Inv(cfg, t, {}) && l in t.a
  {
    if n == 0 then s
    else
      var u := Rounds(cfg, s, l, n - 1);
      ReplySendsAgain(cfg, u, l);
      Round(cfg, u, l)
  }

  lemma {:induction false} NoBound(cfg: Config, s: State, l: Lookup, n: nat)
    requires Inv(cfg, s, {}) && l in s.a
    ensures
      var t := Rounds(cfg, s, l, n);
      && l in s.v && l in t.v && s.v[l].retry <= cfg.retries
      && var (v, v') := (s.v[l], t.v[l]);
         && v'.retry == v.retry && v'.sends == v.sends + n && v'.spent == v.spent && v'.timer == v.timer
         && v'.account.armed == v.account.armed + n * Wait(cfg, v.retry)
  {
    hide Inv, Round, Wait;
    RoundIs(cfg, s, l);
    if n > 0 {
      NoBound(cfg, s, l, n - 1);
      RoundIs(cfg, Rounds(cfg, s, l, n - 1), l);
      OneMore(n, Wait(cfg, s.v[l].retry));
    }
  }

  lemma RoundIs(cfg: Config, s: State, l: Lookup)
    requires Inv(cfg, s, {}) && l in s.a
    ensures l in s.v && s.v[l].retry <= cfg.retries
    ensures
      var u := Round(cfg, s, l);
      && l in u.a && l in u.v
      && var (v, v') := (s.v[l], u.v[l]);
         && v'.retry == v.retry && v'.sends == v.sends + 1 && v'.spent == v.spent && v'.timer == v.timer
         && v'.account.armed == v.account.armed + Wait(cfg, v.retry)
  {
    hide Inv, Round, Wait, SendResult, Answered, TryAgain;
    ReplySendsAgain(cfg, s, l);
  }

  lemma OneMore(n: nat, w: nat)
    requires n > 0
    ensures n * w == (n - 1) * w + w
  {
  }

  /** With no retries the second send is one too many, and the second wait over the bound. */
  lemma SecondSendTooMany(cfg: Config, s: State, l: Lookup)
    requires Inv(cfg, s, {}) && l in s.a && cfg.retries == 0 && cfg.timeout > 0
    ensures l in s.v && s.v[l].retry <= cfg.retries && l in Round(cfg, s, l).v
    ensures
      var v := Round(cfg, s, l).v[l];
      v.sends > cfg.retries + 1 && v.account.armed > cfg.timeout * (Pow2(cfg.retries + 1) - 1)
  {
    hide Inv, Round;
    PendingView(cfg, s, l);
    RoundIs(cfg, s, l);
    PendingWaits(cfg, s, l);
    assert Pow2(1) == 2 * Pow2(0) && Wait(cfg, 0) == cfg.timeout * Pow2(0);
  }

  lemma PendingWaits(cfg: Config, s: State, l: Lookup)
    requires Inv(cfg, s, {}) && l in s.a && l in s.v && Cache !in s.v[l].flags && Pending in s.v[l].flags
    ensures s.v[l].retry <= cfg.retries && s.v[l].account.armed >= Wait(cfg, s.v[l].retry)
  {
  }

  lemma AgainState(cfg: Config, s: State, l: Lookup, r: Reply)
    requires Inv(cfg, s, {}) && l in s.a && TryAgain(r)
    ensures
      var t := AskedAgain(s, l, r);
      && Inv(cfg, t, {}) && t.w != [] && t.w[0] == l && |t.a| < cfg.max && l in s.v && l in t.v
      && var (v, v') := (s.v[l], t.v[l]);
         && v'.retry == v.retry && v'.sends == v.sends && v'.spent == v.spent && v'.timer == v.timer
         && v'.account.armed == v.account.armed && v'.account.cut == v.account.cut
         && v'.account.strayed == (v.account.strayed || !Echoes(l, v.account.second, r.question.value))
  {
    PendingView(cfg, s, l);
    ActiveAgain(s, l);
    assert |s.a| <= cfg.max;
    hide Inv, Ok, Relisted, Echoes, TryAgain, Without, Distinct;
    AgainKeepsInv(cfg, s, l, r);
  }

  lemma SentState(cfg: Config, t: State, l: Lookup)
    requires Inv(cfg, t, {}) && t.w != [] && t.w[0] == l && |t.a| < cfg.max
    ensures l in t.v && t.v[l].retry <= cfg.retries
    ensures
      var u := Sent(cfg, t, l);
      && Inv(cfg, u, {}) && l in u.a && l in u.v && SendResult(cfg, t, Io(false, false, true), true, u, [])
      && var (v, v') := (t.v[l], u.v[l]);
         && v'.retry == v.retry && v'.sends == v.sends + 1 && v'.spent == v.spent
         && v'.timer == Some(Wait(cfg, v.retry)) && v'.account.strayed == v.account.strayed
         && v'.account.armed == v.account.armed + Wait(cfg, v.retry)
         && v'.account.cut == v.account.cut + Running(v)
  {
    hide Inv, Ok, Relisted, Retried, Marked, Wait;
    SentKeepsInv(cfg, t, l);
    SentLast(cfg, t, l);
  }

  lemma PendingView(cfg: Config, s: State, l: Lookup)
    requires Inv(cfg, s, {}) && l in s.a
    ensures l in s.v && l !in s.c && l !in s.w && Pending in s.v[l].flags && Cache !in s.v[l].flags && Distinct(s.a)
    ensures s.v[l].retry <= cfg.retries && s.v[l].sends >= cfg.retries - s.v[l].retry + 1
    ensures s.v[l].timer == Some(Wait(cfg, s.v[l].retry))
  {
    assert Pending in s.v[l].flags * PLACES && Cache !in s.v[l].flags * PLACES;
    InvPlaces(cfg, s, {}, l);
  }

  lemma ActiveAgain(s: State, l: Lookup)
    requires l in s.a && Distinct(s.a)
    ensures Relisted(s.w, l, true, true)[0] == l && |Relisted(s.a, l, false, true)| < |s.a|
  {
    WithoutDistinct(s.a, l);
  }

  lemma SentLast(cfg: Config, t: State, l: Lookup)
    requires l in t.v && t.v[l].retry <= cfg.retries
    ensures l in Sent(cfg, t, l).a
  {
    assert Relisted(t.a, l, true, false)[|Without(t.a, {l})|] == l;
  }

  /** The records of a reply are taken over. */
  ghost function Recorded(s: State, l: Lookup, r: Reply): State
    requires l in s.v
  {
    Revised(s, l, s.v[l].(answers := r.answers, soa := r.soa))
  }

  predicate Mangled(r: Reply) {
    r.qdcount != 1 || !r.qr || r.opcode != 0 || (!r.tc && r.question == None)
  }

  /** What a reply does to the lookup it answers, and the callbacks it calls. */
  ghost predicate Answered(cfg: Config, s: State, l: Lookup, r: Reply, t: State, called: seq<(nat, Lookup)>) {
    && l in s.v && l !in s.c
    && if Mangled(r) then t == s && called == []
    else if r.tc || (r.rcode != RCODE_OK && r.rcode != RCODE_NXDOMAIN) then
      t == Failing(cfg, s, l, {Failed}) && called == Called(l, s.v[l].hooks)
    else if TryAgain(r) then t == AskedAgain(s, l, r) && called == []
    else
      && t == Failing(cfg, Recorded(s, l, r), l,
                      if r.rcode == RCODE_NXDOMAIN || r.answers == [] then {Nxdomain, Failed} else {})
      && called == Called(l, s.v[l].hooks)
  }

  // ----- new lookups

  ghost function Added(s: State, l: Lookup, v: View): State {
    s.(w := s.w + [l], v := s.v[l := v.(flags := {Waiting})])
  }

  lemma AddedKeepsInv(cfg: Config, s: State, l: Lookup, hook: nat)
    requires Inv(cfg, s, {}) && l !in s.v && forall m <- s.v :: KeyOf(m) != KeyOf(l)
    ensures Inv(cfg, Added(s, l, NewView(cfg.retries, hook)), {})
  {
    PutDistinct(s.w, l, false);
    hide Lowered, KeyOf, Wait;
  }

  /** The cache with a looked-up entry moved to its head. */
  ghost function Touched(s: State, l: Lookup): State {
    s.(c := [l] + Without(s.c, {l}))
  }

  lemma TouchedKeepsInv(cfg: Config, s: State, l: Lookup)
    requires Inv(cfg, s, {}) && l in s.c
    ensures Inv(cfg, Touched(s, l), {})
  {
    WithoutDistinct(s.c, l);
    PutDistinct(Without(s.c, {l}), l, true);
    hide Lowered, KeyOf, Ok;
  }

  // ----- hooks

  /** `remove_hook` takes out the first hook of this function. */
  function Unhooked(hooks: seq<nat>, hook: nat): seq<nat> {
    if hooks == [] then [] else if hooks[0] == hook then hooks[1..] else [hooks[0]] + Unhooked(hooks[1..], hook)
  }

  /** One hook goes and no more: the callback is left exactly if it was hooked at least twice. */
  lemma {:induction false} UnhookedExactly(hooks: seq<nat>, hook: nat)
    ensures multiset(Unhooked(hooks, hook)) == multiset(hooks) - multiset{hook}
    ensures hook in Unhooked(hooks, hook) <==> multiset(hooks)[hook] >= 2
  {
    if hooks != [] {
      assert hooks == [hooks[0]] + hooks[1..];
      UnhookedExactly(hooks[1..], hook);
    }
  }

  /** Off which list a lookup has to be taken. */
  lemma OneList(s: State, l: Lookup)
    requires Placed(s, l)
    ensures
      var f := s.v[l].flags;
      && (if Waiting in f then Distinct(s.w) && l in s.w else Without(s.w, {l}) == s.w)
      && (if Pending in f then Distinct(s.a) && l in s.a else Without(s.a, {l}) == s.a)
      && (if Cache in f then Distinct(s.c) && l in s.c else Without(s.c, {l}) == s.c)
      && (Waiting in f ==> Pending !in f && Cache !in f) && (Pending in f ==> Cache !in f)
    ensures l in s.v
  {
    NotListed(s, l);
  }

  class Queues {
    const cfg: Config
    // `retry_times`
    const times: seq<nat>
    var wlist: seq<Lookup>
    var alist: seq<Lookup>
    var cache: seq<Lookup>
    var acount: int
    var count: int
    var idn: nat
    ghost var live: set<Lookup>
    // the callbacks called so far
    ghost var calls: seq<(nat, Lookup)>

    ghost function Snap(): State
      reads this`wlist, this`alist, this`cache, this`live, live
    {
      State(wlist, alist, cache, Views())
    }

    ghost function Views(): map<Lookup, View>
      reads this`live, live
    {
      map l | l in live :: ViewOf(l)
    }

    ghost predicate Counted()
      reads this`wlist, this`alist, this`cache, this`acount, this`count
    {
      acount == |alist| && count == |cache|
    }

    ghost predicate Sound(busy: set<Lookup>)
      reads this`wlist, this`alist, this`cache, this`acount, this`count, this`live, live
    {
      Counted() && Timed() && Inv(cfg, Snap(), busy)
    }

    /**
     The same, seen in the lookup and the lists: it is first in the cache, for the least of its times to live, or
     freed.
     */
    ghost predicate Closes(s: State, l: Lookup, why: set<Flag>, answers: seq<nat>, soa: Option<nat>)
      requires l in s.v
      reads this`wlist, this`alist, this`cache, this`live, l
    {
      var ttl, flags := Ttl(cfg.expire, answers, soa), s.v[l].flags - PLACES + why;
      && l !in wlist && l !in alist
      && if ttl > 0 && cfg.cacheMax > 0 && (cfg.cacheFailures || Failed !in flags) then
           && cache == [l] + (if |s.c| == cfg.cacheMax then s.c[..|s.c| - 1] else s.c)
           && l in live && l.flags == flags + {Cache} && l.timer == Some(ttl) && l.answers == answers && l.soa == soa
         else l !in live && cache == s.c
    }

    /** What a reply does to the lookup it answers, by the kind of reply. */
    ghost predicate Told(s: State, l: Lookup, r: Reply)
      requires l in s.v
      reads this`wlist, this`alist, this`cache, this`live, l
    {
      var good := r.qdcount == 1 && r.qr && r.opcode == 0 && (r.tc || r.question.Some?);
      var usable := good && !r.tc && (r.rcode == RCODE_OK || r.rcode == RCODE_NXDOMAIN);
      var again := usable && r.rcode == RCODE_NXDOMAIN && r.question.value.qclass == CLASS_IN &&
                   r.question.value.qtype == TYPE_PTR && EndsIn(r.question.value.name, IP6_ARPA);
      && (!good ==> wlist == s.w && alist == s.a && cache == s.c && l in live && ViewOf(l) == s.v[l])
      && (good && !usable ==> Closes(s, l, {Failed}, s.v[l].answers, s.v[l].soa))
      && (again ==>
            && wlist == [l] + Without(s.w, {l}) && l !in alist && cache == s.c && l in live
            && l.flags == s.v[l].flags - PLACES + {Waiting, Failed, Again}
            && l.timer == s.v[l].timer && l.retry == s.v[l].retry)
      && (usable && !again && (r.rcode == RCODE_NXDOMAIN || r.answers == []) ==>
            Closes(s, l, {Nxdomain, Failed}, r.answers, r.soa))
      && (usable && r.rcode == RCODE_OK && r.answers != [] ==> Closes(s, l, {}, r.answers, r.soa))
    }

    /** What a timer that ran out does to its lookup: it leaves the cache, fails, or waits first in line. */
    ghost predicate RanOut(s: State, l: Lookup)
      requires l in s.v
      reads this`wlist, this`alist, this`cache, this`live, l
    {
      if Cache in s.v[l].flags then l !in live && cache == Without(s.c, {l})
      else if s.v[l].retry == 0 then Closes(s, l, {Timeout, Failed}, s.v[l].answers, s.v[l].soa)
      else
        && wlist == [l] + Without(s.w, {l}) && l !in alist && cache == s.c && l in live
        && l.flags == s.v[l].flags - PLACES + {Waiting} && l.timer == None && l.retry == s.v[l].retry - 1
    }

    /** What becomes of the lookup that `dns_lookup_send` takes from the head of the line. */
    ghost predicate Dispatched(s: State, l: Lookup, io: Io, r: bool)
      requires l in s.v
      reads this`wlist, this`alist, this`cache, this`live, l
    {
      var v, pointer := s.v[l], IsV6Pointer(l);
      var flags := v.flags - if pointer && Failed in v.flags && Again in v.flags then {Failed, Again} else {};
      if pointer && io.badAddress then r && Closes(s, l, {Failed}, v.answers, v.soa)
      else if io.tooLong then r && Closes(Revised(s, l, v.(flags := flags)), l, {Failed}, v.answers, v.soa)
      else if io.written then
        && r && s.w != [] && wlist == s.w[1..] && alist == s.a + [l] && cache == s.c && l in live
        && l.flags == flags - PLACES + {Pending} && l.retry == v.retry < |times| && l.timer == Some(times[v.retry])
      else
        && !r && wlist == s.w && alist == s.a && cache == s.c && l in live
        && l.flags == flags && l.retry == v.retry && l.timer == v.timer
    }

    ghost predicate Timed() {
      |times| == cfg.retries + 1 && forall i :: 0 <= i <= cfg.retries ==> times[i] == Wait(cfg, i)
    }

    ghost predicate Valid()
      reads this`wlist, this`alist, this`cache, this`acount, this`count, this`live, live
    {
      Sound({})
    }

    constructor (cfg: Config)
      ensures Valid() && this.cfg == cfg && live == {} && calls == []
    {
      var t := RetryTimes(cfg);
      this.cfg, times := cfg, t[..];
      wlist, alist, cache, acount, count, idn, live, calls := [], [], [], 0, 0, 0, {}, [];
    }

    static method Cut(list: seq<Lookup>, x: Lookup) returns (r: seq<Lookup>)
      requires Distinct(list) && x in list
      ensures r == Without(list, {x}) && |r| == |list| - 1
    {
      var i :| 0 <= i < |list| && list[i] == x;
      WithoutOne(list, i);
      return list[..i] + list[i + 1..];
    }

    /** Moves a lookup to the list named, or off its list, keeping the counters. */
    method Move(dlp: Lookup, to: Option<Flag>, head: bool)
      requires Counted() && Placed(Snap(), dlp) && (to.Some? ==> to.value in PLACES)
      modifies this`wlist, this`alist, this`cache, this`acount, this`count, dlp`flags
      ensures Counted() && Snap() == Moved(old(Snap()), dlp, to, head)
    {
      ghost var s := Snap();
      assert dlp in live;
      hide Without, Placed, Distinct, Put, Snap;
      TakeOff(dlp);
      Mark(dlp, to);
      PutOn(dlp, to, head);
    }

    method PutOn(dlp: Lookup, to: Option<Flag>, head: bool)
      requires Counted()
      modifies this`wlist, this`alist, this`cache, this`acount, this`count
      ensures
        var s := old(Snap());
        && Counted()
        && Snap() == s.(w := if to == Some(Waiting) then Put(s.w, dlp, head) else s.w,
                        a := if to == Some(Pending) then Put(s.a, dlp, head) else s.a,
                        c := if to == Some(Cache) then Put(s.c, dlp, head) else s.c)
    {
      ghost var s := Snap();
      if to == Some(Waiting) {
        wlist := Put(wlist, dlp, head);
      } else if to == Some(Pending) {
        acount := acount + 1;
        alist := Put(alist, dlp, head);
      } else if to == Some(Cache) {
        count := count + 1;
        cache := Put(cache, dlp, head);
      }
      assert Snap().v == s.v;
    }

    method Mark(dlp: Lookup, to: Option<Flag>)
      requires dlp in live
      modifies dlp`flags
      ensures
        var s := old(Snap());
        Snap() == s.(v := s.v[dlp := s.v[dlp].(flags := s.v[dlp].flags - PLACES + if to.Some? then {to.value} else {})])
    {
      ghost var s := Snap();
      dlp.flags := dlp.flags - PLACES + if to.Some? then {to.value} else {};
      assert Snap().v == s.v[dlp := ViewOf(dlp)];
    }

    method TakeOff(dlp: Lookup)
      requires Counted() && Placed(Snap(), dlp)
      modifies this`wlist, this`alist, this`cache, this`acount, this`count
      ensures
        var s := old(Snap());
        Counted() && Snap() == State(Without(s.w, {dlp}), Without(s.a, {dlp}), Without(s.c, {dlp}), s.v)
    {
      hide Placed, Without, Distinct, Queues.Views;
      OneList(Snap(), dlp);
      InLive(dlp);
      if Waiting in dlp.flags {
        wlist := Cut(wlist, dlp);
      } else if Pending in dlp.flags {
        alist := Cut(alist, dlp);
        acount := acount - 1;
      } else if Cache in dlp.flags {
        cache := Cut(cache, dlp);
        count := count - 1;
      }
    }

    /** Takes a lookup off its list, destroys its timer and frees it. */
    method Destroy(dlp: Lookup)
      requires Counted() && Placed(Snap(), dlp)
      modifies this`wlist, this`alist, this`cache, this`acount, this`count, this`live, dlp`flags, dlp`timer
      ensures Counted() && Snap() == Gone(old(Snap()), dlp) && live == old(live) - {dlp}
    {
      ghost var s := Snap();
      hide Without, Placed, Distinct;
      Move(dlp, None, false);
      dlp.timer := None;
      live := live - {dlp};
      assert Snap().v == s.v - {dlp};
    }

    /** The loop over the answers, and the SOA if there are none. */
    static method MinTtl(expire: nat, answers: seq<nat>, soa: Option<nat>) returns (ttl: nat)
      ensures ttl == Ttl(expire, answers, soa)
    {
      ttl := expire;
      var i := 0;
      while i < |answers|
        invariant i <= |answers| && ttl == Least(answers[..i], expire)
      {
        assert answers[..i + 1][..i] == answers[..i];
        if answers[i] < ttl {
          ttl := answers[i];
        }
        i := i + 1;
      }
      assert answers[..i] == answers;
      if answers == [] && soa.Some? && soa.value < ttl {
        ttl := soa.value;
      }
    }

    /** Calls the callbacks of a lookup, once each, in the order they were added. */
    method Announce(dlp: Lookup)
      requires dlp in live
      modifies this`calls, dlp`ttl, dlp`finishes
      ensures calls == old(calls) + Called(dlp, dlp.hooks) && dlp.ttl == Ttl(cfg.expire, dlp.answers, dlp.soa)
      ensures
        var s := old(Snap());
        Snap() == Finished(s, dlp)
    {
      hide Ttl;
      ghost var s := Snap();
      var ttl := MinTtl(cfg.expire, dlp.answers, dlp.soa);
      dlp.ttl := ttl;
      calls := calls + Called(dlp, dlp.hooks);
      dlp.finishes := dlp.finishes + 1;
      assert Snap().v == s.v[dlp := ViewOf(dlp)];
    }

    method SetTimer(dlp: Lookup, interval: nat)
      requires dlp in live
      modifies dlp`timer
      ensures
        var s := old(Snap());
        Snap() == Revised(s, dlp, s.v[dlp].(timer := Some(interval)))
    {
      ghost var s := Snap();
      dlp.timer := Some(interval);
      assert Snap().v == s.v[dlp := ViewOf(dlp)];
    }

    /** Makes room in the cache and puts a finished lookup at its head. */
    method Shelve(dlp: Lookup)
      requires Sound({dlp}) && dlp in live && Cache !in dlp.flags
      modifies this`wlist, this`alist, this`cache, this`acount, this`count, this`live, live`flags, live`timer
      ensures Sound({dlp}) && dlp in live && live <= old(live) && (Cache in dlp.flags <==> cfg.cacheMax > 0)
      ensures
        var s := old(Snap());
        Snap() == if cfg.cacheMax > 0 then Moved(Evicted(cfg, s), dlp, Some(Cache), true) else s
    {
      ghost var s := Snap();
      EvictKeepsInv(cfg, s, dlp, {dlp});
      InvPlaces(cfg, Evicted(cfg, s), {dlp}, dlp);
      hide Inv, Placed, Moved, Gone;
      if count == cfg.cacheMax && count > 0 {
        Destroy(cache[|cache| - 1]);
      }
      assert Snap() == Evicted(cfg, s);
      if cfg.cacheMax > 0 {
        MovedKeepsInv(cfg, Snap(), dlp, Cache, true, {dlp});
        Move(dlp, Some(Cache), true);
      }
    }

    /** Caches or frees a finished lookup. */
    method Settle(dlp: Lookup)
      requires Sound({dlp}) && dlp in live && dlp.finishes == 1 && Cache !in dlp.flags
      requires dlp.ttl == Ttl(cfg.expire, dlp.answers, dlp.soa)
      modifies this`wlist, this`alist, this`cache, this`acount, this`count, this`live, live`flags, live`timer
      ensures Valid() && live <= old(live)
      ensures
        var s := old(Snap());
        && dlp in s.v && dlp !in s.c
        && Snap() == Settled(cfg, s, dlp)
    {
      hide Ttl;
      ghost var s := Snap();
      assert s.v[dlp] == ViewOf(dlp);
      hide Placed, Moved, Gone, Evicted, Inv;
      DroppedKeepsInv(cfg, s, dlp);
      if dlp.ttl != 0 && (cfg.cacheFailures || Failed !in dlp.flags) {
        if cfg.cacheMax > 0 {
          CachedKeepsInv(cfg, s, dlp, dlp.ttl);
        }
        Shelve(dlp);
      }
      if Cache !in dlp.flags {
        Destroy(dlp);
        return;
      }
      SetTimer(dlp, dlp.ttl);
    }

    /**
     Finishes a lookup: its callbacks are called, and it goes to the head of the cache or is freed.  A full
     cache drops its last, least recently used, entry.
     */
    method Finish(dlp: Lookup)
      requires Sound({dlp}) && dlp in live && dlp.finishes == 0 && Cache !in dlp.flags
      modifies this`wlist, this`alist, this`cache, this`acount, this`count, this`live, this`calls, live
      ensures Valid() && live <= old(live)
      ensures calls == old(calls) + Called(dlp, old(dlp.hooks))
      ensures
        var s := old(Snap());
        && dlp in s.v && dlp !in s.c
        && Snap() == Settled(cfg, Finished(s, dlp), dlp)
    {
      hide Ttl;
      ghost var s := Snap();
      assert s.v[dlp] == ViewOf(dlp);
      hide Placed, Moved, Gone, Evicted, Inv;
      RevisedKeepsInv(cfg, s, dlp, s.v[dlp].(finishes := 1), {dlp});
      Announce(dlp);
      Settle(dlp);
    }

    /** Fails a lookup for these reasons. */
    method Fail(dlp: Lookup, why: set<Flag>)
      requires Sound({dlp}) && dlp in live && dlp.finishes == 0 && Cache !in dlp.flags && why !! PLACES
      modifies this`wlist, this`alist, this`cache, this`acount, this`count, this`live, this`calls, live
      ensures Valid() && live <= old(live)
      ensures calls == old(calls) + Called(dlp, old(dlp.hooks))
      ensures
        var s := old(Snap());
        dlp in s.v && dlp !in s.c && Snap() == Failing(cfg, s, dlp, why)
    {
      hide Inv, Placed, Settled, Snap, Timed;
      ghost var s := Snap();
      InLive(dlp);
      ghost var v := s.v[dlp].(flags := s.v[dlp].flags + why);
      assert v.flags * PLACES == s.v[dlp].flags * PLACES;
      RevisedKeepsInv(cfg, s, dlp, v, {dlp});
      FailingPlace(cfg, s, dlp);
      SetFlags(dlp, dlp.flags + why);
      Finish(dlp);
    }

    lemma FailingPlace(cfg: Config, s: State, l: Lookup)
      requires Inv(cfg, s, {l}) && l in s.v && Cache !in s.v[l].flags
      ensures l !in s.c
    {
      InvPlaces(cfg, s, {l}, l);
    }

    method SetFlags(dlp: Lookup, flags: set<Flag>)
      requires dlp in live
      modifies dlp`flags
      ensures dlp.flags == flags
      ensures
        var s := old(Snap());
        Snap() == Revised(s, dlp, s.v[dlp].(flags := flags))
    {
      ghost var s := Snap();
      dlp.flags := flags;
      assert Snap().v == s.v[dlp := ViewOf(dlp)];
    }

    /**
     Sends the first waiting lookup, if another may be active.  True if there was one and it left the list:
     sent, or failed because it cannot be asked.  One that could not be written goes back to the head.
     */
    method Send(io: Io) returns (r: bool)
      requires Valid()
      modifies this`wlist, this`alist, this`cache, this`acount, this`count, this`live, this`calls, live
      ensures Valid() && live <= old(live)
      ensures old(calls) <= calls && SendResult(cfg, old(Snap()), io, r, Snap(), calls[|old(calls)|..])
      ensures wlist == if r then old(wlist)[1..] else old(wlist)
      ensures r ==> old(wlist) != []
      ensures
        var s := old(Snap());
        if |old(alist)| == cfg.max || old(wlist) == [] then !r && Snap() == s
        else old(wlist)[0] in s.v && Dispatched(s, old(wlist)[0], io, r)
    {
      hide Inv, Placed, Opened, Ok, Timed, Snap, HeadResult, Queues.Dispatched;
      ghost var s := Snap();
      SnapLists();
      if acount == cfg.max || wlist == [] {
        assert calls[|old(calls)|..] == [];
        return false;
      }
      var dlp := wlist[0];
      Room();
      FirstWaiting(cfg, s, dlp);
      InLive(dlp);
      Open(dlp, io);
      r := Dispatch(dlp, io, s);
      ResultLists(cfg, s, io, r, Snap(), calls[|old(calls)|..]);
      DispatchedIs(s, dlp, io, r, calls[|old(calls)|..]);
      SnapLists();
    }

    /** That follows for each of the four cases. */
    lemma DispatchedIs(s: State, l: Lookup, io: Io, r: bool, called: seq<(nat, Lookup)>)
      requires Inv(cfg, s, {}) && s.w != [] && l == s.w[0] && |s.a| < cfg.max && Timed()
      requires HeadResult(cfg, s, l, io, r, Snap(), called)
      ensures l in s.v && Dispatched(s, l, io, r)
    {
      hide Inv, Ttl, Failing, Closed, Queues.Closes, Opened, Sent, Unwritten, Timed;
      WaitingView(s, l);
      assert s.v[l].flags - {} == s.v[l].flags;
      if Unusable(l, io) {
        OpenedCloses(s, l, io);
        var flags := if IsV6Pointer(l) && io.badAddress then s.v[l].flags else Retried(l, s.v[l].flags);
        var o := Revised(s, l, s.v[l].(flags := flags));
        ClosesNow(o, l, {Failed}, s.v[l].answers, s.v[l].soa);
        assert s.v[l := s.v[l]] == s.v;
        assert IsV6Pointer(l) && io.badAddress ==> o == s;
      } else if io.written {
        SentNow(s, l);
      } else {
        UnwrittenNow(s, l);
      }
    }

    lemma WaitingView(s: State, l: Lookup)
      requires Inv(cfg, s, {}) && s.w != [] && l == s.w[0]
      ensures l in s.v && l !in s.c && l !in s.a && Distinct(s.w) && Distinct(s.c) && Cache !in s.v[l].flags
    {
      FirstWaiting(cfg, s, l);
    }

    lemma OpenedCloses(s: State, l: Lookup, io: Io)
      requires l in s.v && l !in s.c && Distinct(s.c) && Unusable(l, io)
      requires l in Opened(s, l, io).v && l !in Opened(s, l, io).c
      ensures
        var flags := if IsV6Pointer(l) && io.badAddress then s.v[l].flags else Retried(l, s.v[l].flags);
        Closed(cfg, Revised(s, l, s.v[l].(flags := flags)), l, {Failed}, s.v[l].answers, s.v[l].soa,
               Failing(cfg, Opened(s, l, io), l, {Failed}))
    {
      hide Ttl, Failing;
      WithoutNothing(s.c, {l});
      hide Without;
      FailingCloses(cfg, Opened(s, l, io), l, {Failed});
    }

    lemma SentNow(s: State, l: Lookup)
      requires l in s.v && s.w != [] && l == s.w[0] && l !in s.c && l !in s.a && Distinct(s.w) && Timed()
      requires s.v[l].retry <= cfg.retries && Snap() == Sent(cfg, s, l)
      ensures wlist == s.w[1..] && alist == s.a + [l] && cache == s.c && l in live
      ensures l.flags == Retried(l, s.v[l].flags) - PLACES + {Pending} && l.retry == s.v[l].retry < |times|
      ensures l.timer == Some(times[l.retry])
    {
      hide Wait, Without, Distinct;
      FirstOff(s.w);
      assert ViewOf(l) == Snap().v[l];
      WithoutNothing(s.a, {l});
      WithoutNothing(s.c, {l});
    }

    lemma FirstOff(list: seq<Lookup>)
      requires list != [] && Distinct(list)
      ensures Without(list, {list[0]}) == list[1..]
    {
      WithoutOne(list, 0);
      assert list[..0] + list[1..] == list[1..];
    }

    lemma UnwrittenNow(s: State, l: Lookup)
      requires l in s.v && s.v[l].retry <= cfg.retries && Snap() == Revised(s, l, Unwritten(cfg, l, s.v[l]))
      ensures wlist == s.w && alist == s.a && cache == s.c && l in live
      ensures l.flags == Retried(l, s.v[l].flags) && l.retry == s.v[l].retry && l.timer == s.v[l].timer
    {
      hide Wait;
      assert ViewOf(l) == Snap().v[l];
    }

    lemma Room()
      requires Valid()
      ensures |alist| <= cfg.max
    {
    }

    lemma SnapLists()
      ensures Snap().w == wlist && Snap().a == alist && Snap().c == cache
    {
    }

    lemma InLive(l: Lookup)
      ensures l in Snap().v <==> l in live
      ensures l in live ==> Snap().v[l] == ViewOf(l)
    {
    }

    /** What happens to the lookup made active. */
    method Dispatch(dlp: Lookup, io: Io, ghost s: State) returns (r: bool)
      requires Inv(cfg, s, {}) && s.w != [] && dlp == s.w[0] && |s.a| < cfg.max
      requires Sound({dlp}) && Snap() == Opened(s, dlp, io) && dlp in live && Cache !in dlp.flags && dlp.finishes == 0
      modifies this`wlist, this`alist, this`cache, this`acount, this`count, this`live, this`calls, live
      ensures Valid() && live <= old(live)
      ensures old(calls) <= calls
      ensures HeadResult(cfg, s, dlp, io, r, Snap(), calls[|old(calls)|..])
    {
      hide Inv, Placed, Moved, Gone, Failing, Ok, Opened, Sent, Retried, Timed, Wait, Snap, Called, Unwritten;
      SentKeepsInv(cfg, s, dlp);
      SentFromOpened(cfg, s, dlp, io);
      InLive(dlp);
      if Unusable(dlp, io) {
        Fail(dlp, {Failed});
        return true;
      }
      if !io.written {
        PutBack(dlp, io, s);
        return false;
      }
      StartTimer(dlp);
      return true;
    }

    /** Makes the first waiting lookup active and takes the marks of a second try off it. */
    method Open(dlp: Lookup, io: Io)
      requires Valid() && wlist != [] && dlp == wlist[0] && |alist| < cfg.max && dlp in live
      modifies this`wlist, this`alist, this`cache, this`acount, this`count, dlp`flags, dlp`account
      ensures Sound({dlp}) && Snap() == Opened(old(Snap()), dlp, io) && Cache !in dlp.flags && dlp.finishes == 0
    {
      hide Inv, Placed, Moved, Ok, Built, Snap, Timed;
      ghost var s := Snap();
      SnapLists();
      OpenedKeepsInv(cfg, s, dlp, io);
      InLive(dlp);
      Move(dlp, Some(Pending), false);
      if !(IsV6Pointer(dlp) && io.badAddress) {
        Build(dlp);
      }
      Cleared(s, dlp, io);
      InLive(dlp);
    }

    lemma Cleared(s: State, l: Lookup, io: Io)
      requires Inv(cfg, s, {}) && s.w != [] && l == s.w[0] && |s.a| < cfg.max
      ensures l in Opened(s, l, io).v
      ensures var v := Opened(s, l, io).v[l]; Cache !in v.flags && v.finishes == 0
    {
      OpenedKeepsInv(cfg, s, l, io);
      hide Inv, Opened, Ok;
      assert Cache in PLACES;
    }

    /** Builds the query: the second try of an IPv6 pointer takes the marks off. */
    method Build(dlp: Lookup)
      requires dlp in live
      modifies dlp`flags, dlp`account
      ensures
        var s := old(Snap());
        Snap() == Revised(s, dlp, Built(dlp, s.v[dlp]))
    {
      ghost var s := Snap();
      dlp.account := dlp.account.(second := Marked(dlp, dlp.flags));
      if IsV6Pointer(dlp) && Failed in dlp.flags && Again in dlp.flags {
        dlp.flags := dlp.flags - {Failed, Again};
      }
      assert Snap().v == s.v[dlp := ViewOf(dlp)];
    }

    method PutBack(dlp: Lookup, io: Io, ghost s: State)
      requires Inv(cfg, s, {}) && s.w != [] && dlp == s.w[0] && |s.a| < cfg.max && !Unusable(dlp, io)
      requires Sound({dlp}) && Snap() == Opened(s, dlp, io)
      modifies this`wlist, this`alist, this`cache, this`acount, this`count, dlp`flags, dlp`account
      ensures Valid() && dlp in s.v && s.v[dlp].retry <= cfg.retries
      ensures Snap() == Revised(s, dlp, Unwritten(cfg, dlp, s.v[dlp]))
    {
      hide Inv, Placed, Moved, Ok, Opened, Unwritten, Snap, Timed;
      OpenedKeepsInv(cfg, s, dlp, io);
      ReturnedKeepsInv(cfg, s, dlp, io);
      ghost var o := Snap();
      InLive(dlp);
      Adjust(dlp, Unwritten(cfg, dlp, s.v[dlp]).account);
      StillPlaced(o, dlp, o.v[dlp].(account := Unwritten(cfg, dlp, s.v[dlp]).account));
      Move(dlp, Some(Waiting), true);
    }

    ghost method Adjust(dlp: Lookup, account: Account)
      requires dlp in live
      modifies dlp`account
      ensures
        var s := old(Snap());
        Snap() == Revised(s, dlp, s.v[dlp].(account := account))
    {
      var s := Snap();
      dlp.account := account;
      assert Snap().v == s.v[dlp := ViewOf(dlp)];
    }

    /** Starts the timer of a lookup that was sent, destroying one it still had. */
    method StartTimer(dlp: Lookup)
      requires dlp in live && dlp.retry <= cfg.retries && Timed()
      modifies dlp`timer, dlp`sends, dlp`account
      ensures
        var s := old(Snap());
        s.v[dlp].retry <= cfg.retries && Snap() == Revised(s, dlp, Armed(cfg, s.v[dlp]))
    {
      hide Wait;
      ghost var s := Snap();
      ghost var v := Armed(cfg, s.v[dlp]);
      dlp.timer, dlp.sends, dlp.account := Some(times[dlp.retry]), v.sends, v.account;
      assert ViewOf(dlp) == v;
      hide Armed;
      assert Snap().v == s.v[dlp := v];
    }

    /** Sends until the active list is full, nothing waits, or a query cannot be written, which is the last. */
    method SendAll(net: nat -> Io) returns (n: nat)
      requires Valid()
      modifies this`wlist, this`alist, this`cache, this`acount, this`count, this`live, this`calls, live
      ensures Valid() && live <= old(live) && old(calls) <= calls
      ensures AllSent(cfg, old(Snap()), net, n) == (Snap(), calls[|old(calls)|..])
      ensures |alist| == cfg.max || wlist == [] || (n > 0 && !net(n - 1).written)
    {
      hide Sound, Snap, SendResult, Sending;
      n := 0;
      var more := true;
      assert calls[|old(calls)|..] == [];
      while more
        invariant Valid() && live <= old(live) && old(calls) <= calls
        invariant AllSent(cfg, old(Snap()), net, n) == (Snap(), calls[|old(calls)|..])
        invariant !more ==> |alist| == cfg.max || wlist == [] || (n > 0 && !net(n - 1).written)
        decreases |wlist|, more
      {
        ghost var s, called := Snap(), calls;
        more := Send(net(n));
        SendingIs(cfg, s, net(n), more, Snap(), calls[|called|..]);
        assert calls[|old(calls)|..] == called[|old(calls)|..] + calls[|called|..];
        SnapLists();
        n := n + 1;
      }
    }

    // ----- events

    /** The part of `dns_timer_hook` that concerns the lookup: true if it goes on to send. */
    method Expire(dlp: Lookup) returns (more: bool)
      requires Valid() && dlp in live && dlp.timer.Some?
      modifies this`wlist, this`alist, this`cache, this`acount, this`count, this`live, this`calls, live
      ensures Valid() && live <= old(live)
      ensures
        var s := old(Snap());
        && dlp in s.v && s.v[dlp] == old(ViewOf(dlp))
        && if Cache in old(dlp.flags) then !more && Snap() == Gone(s, dlp) && calls == old(calls)
        else
          && more && old(dlp.retry) <= cfg.retries
          && if old(dlp.retry) > 0 then Snap() == Expired(cfg, s, dlp) && calls == old(calls)
          else
            // the last timer: the waits add up to the whole backoff, and those cut short
            && dlp !in s.c
            && (var v := LastExpiry(cfg, s, dlp).v[dlp];
                && v.spent == cfg.timeout * (Pow2(cfg.retries + 1) - 1)
                && v.account.armed == v.spent + v.account.cut)
            && Snap() == Failing(cfg, LastExpiry(cfg, s, dlp), dlp, {Timeout, Failed})
            && calls == old(calls) + Called(dlp, old(dlp.hooks))
      ensures var s := old(Snap()); dlp in s.v && RanOut(s, dlp)
    {
      ghost var s := Snap();
      hide Inv, Placed, Moved, Gone, Failing, Ok, Timed, Wait, Spent, Snap;
      InLive(dlp);
      LiveOk(dlp);
      if Cache in dlp.flags {
        GoneKeepsInv(cfg, s, dlp, {});
        Destroy(dlp);
        Overran(s, dlp);
        return false;
      }
      if dlp.retry == 0 {
        LastExpiryKeepsInv(cfg, s, dlp);
        Tick(dlp, 0);
        Fail(dlp, {Timeout, Failed});
      } else {
        ExpiredKeepsInv(cfg, s, dlp);
        Tick(dlp, dlp.retry - 1);
        StillPlaced(s, dlp, Snap().v[dlp]);
        Move(dlp, Some(Waiting), true);
      }
      Overran(s, dlp);
      return true;
    }

    /** By its retries a timer that ran out has the effect that is named. */
    lemma Overran(s: State, l: Lookup)
      requires Inv(cfg, s, {}) && l in s.v
      requires
        if Cache in s.v[l].flags then Snap() == Gone(s, l)
        else s.v[l].retry <= cfg.retries && l !in s.c && Snap() == Overdue(cfg, s, l).0
      ensures RanOut(s, l)
    {
      hide Inv, Ttl, Failing, Closed, Queues.Closes, Expired, LastExpiry, Without;
      if Cache in s.v[l].flags {
      } else if s.v[l].retry > 0 {
        NotInCache(s, l);
        RetriesFirst(s, l);
      } else {
        NotInCache(s, l);
        LastCloses(s, l);
        ClosesNow(s, l, {Timeout, Failed}, s.v[l].answers, s.v[l].soa);
      }
    }

    lemma RetriesFirst(s: State, l: Lookup)
      requires l in s.v && l !in s.c && 0 < s.v[l].retry <= cfg.retries && Snap() == Expired(cfg, s, l)
      ensures wlist == [l] + Without(s.w, {l}) && l !in alist && cache == s.c && l in live
      ensures l.flags == s.v[l].flags - PLACES + {Waiting} && l.timer == None && l.retry == s.v[l].retry - 1
    {
      hide Wait;
      assert ViewOf(l) == Snap().v[l];
      WithoutNothing(s.c, {l});
      hide Without;
    }

    lemma LastCloses(s: State, l: Lookup)
      requires l in s.v && l !in s.c && Distinct(s.c) && s.v[l].retry <= cfg.retries
      ensures Closed(cfg, s, l, {Timeout, Failed}, s.v[l].answers, s.v[l].soa,
                     Failing(cfg, LastExpiry(cfg, s, l), l, {Timeout, Failed}))
    {
      hide Ttl, Failing, Wait;
      FailingCloses(cfg, LastExpiry(cfg, s, l), l, {Timeout, Failed});
    }

    lemma LiveOk(dlp: Lookup)
      requires Valid() && dlp in live
      ensures Placed(Snap(), dlp)
      ensures Cache !in dlp.flags ==> dlp.retry <= cfg.retries && dlp.finishes == 0
    {
      InvView(cfg, Snap(), dlp);
    }

    /** The timer of a lookup ran out, and so many retries are left. */
    method Tick(dlp: Lookup, retry: nat)
      requires dlp in live && dlp.retry <= cfg.retries
      modifies dlp`timer, dlp`retry, dlp`spent, dlp`account
      ensures
        var s := old(Snap());
        && s.v[dlp].retry <= cfg.retries
        && Snap() == Revised(s, dlp, Ticked(cfg, s.v[dlp], retry))
    {
      hide Wait;
      ghost var s := Snap();
      ghost var v := Ticked(cfg, s.v[dlp], retry);
      dlp.timer, dlp.retry, dlp.spent, dlp.account := None, retry, v.spent, v.account;
      assert ViewOf(dlp) == v;
      hide Ticked;
      assert Snap().v == s.v[dlp := v];
    }

    /** A timer ran out: the lookup leaves the cache, fails, or waits for its next try, and others are sent. */
    method TimerHook(dlp: Lookup, net: nat -> Io) returns (n: nat)
      requires Valid() && dlp in live && dlp.timer.Some?
      modifies this`wlist, this`alist, this`cache, this`acount, this`count, this`live, this`calls, live
      ensures Valid() && live <= old(live) && old(calls) <= calls
      ensures Cache in old(dlp.flags) ==> Snap() == Gone(old(Snap()), dlp) && calls == old(calls)
      ensures Cache !in old(dlp.flags) ==>
        var s := old(Snap());
        && dlp in s.v && s.v[dlp].retry <= cfg.retries && dlp !in s.c
        && var (t, called) := Overdue(cfg, s, dlp);
           var (u, more) := AllSent(cfg, t, net, n);
           && Snap() == u && calls == old(calls) + called + more
           && (|alist| == cfg.max || wlist == [] || (n > 0 && !net(n - 1).written))
    {
      hide Sound, Snap, Failing, Expired, LastExpiry, AllSent;
      ghost var s, calls0 := Snap(), calls;
      NotCached(dlp);
      var more := Expire(dlp);
      n := 0;
      if more {
        ghost var calls1 := calls;
        n := SendAll(net);
        assert calls == calls1 + calls[|calls1|..];
      }
    }

    lemma NotCached(dlp: Lookup)
      requires Valid() && dlp in live
      ensures Cache !in dlp.flags ==> dlp !in Snap().c
    {
      InvView(cfg, Snap(), dlp);
    }

    method FindReplied(id: nat) returns (r: Option<Lookup>)
      requires Valid()
      ensures r == Replied(cfg, Snap(), id) && (r.Some? ==> r.value.id == id && (r.value in alist || r.value in wlist))
    {
      hide Sound, FirstWithId, FirstTriedWithId;
      Everywhere();
      ViewsLive();
      ghost var s := Snap();
      var i := 0;
      while i < |alist|
        invariant i <= |alist| && forall j :: 0 <= j < i ==> alist[j].id != id
      {
        if alist[i].id == id {
          FirstWithIdAt(s.a, id, i);
          return Some(alist[i]);
        }
        i := i + 1;
      }
      FirstWithIdAt(s.a, id, i);
      i := 0;
      while i < |wlist|
        invariant i <= |wlist| && forall j :: 0 <= j < i ==> wlist[j].id == id ==> s.v[wlist[j]].retry >= cfg.retries
      {
        if wlist[i].id == id && wlist[i].retry < cfg.retries {
          FirstTriedAt(cfg, s.w, s.v, id, i);
          return Some(wlist[i]);
        }
        i := i + 1;
      }
      FirstTriedAt(cfg, s.w, s.v, id, i);
      return None;
    }

    lemma ViewsLive()
      ensures forall l :: l in Snap().v <==> l in live
      ensures forall l <- live :: Snap().v[l] == ViewOf(l)
    {
    }

    /** `dns_packet_parse`; `reply` is missing if the packet is too short. */
    method Parse(reply: Option<Reply>)
      requires Valid()
      modifies this`wlist, this`alist, this`cache, this`acount, this`count, this`live, this`calls, live
      ensures Valid() && live <= old(live)
      ensures
        var s := old(Snap());
        && old(calls) <= calls
        && if reply == None || Replied(cfg, s, reply.value.id) == None then Snap() == s && calls == old(calls)
        else
          var l := Replied(cfg, s, reply.value.id).value;
          Answered(cfg, s, l, reply.value, Snap(), calls[|old(calls)|..]) && Told(s, l, reply.value)
    {
      if reply == None {
        return;
      }
      var dlp := FindReplied(reply.value.id);
      if dlp.Some? {
        hide Sound, Snap, Answered, Replied, Told;
        Listed(dlp.value);
        Answer(dlp.value, reply.value);
        Settles(old(Snap()), dlp.value, reply.value, calls[|old(calls)|..]);
      }
    }

    /** By its kind a reply has the effect that is named. */
    lemma Settles(s: State, l: Lookup, r: Reply, called: seq<(nat, Lookup)>)
      requires Inv(cfg, s, {}) && l in s.v && Cache !in s.v[l].flags && Answered(cfg, s, l, r, Snap(), called)
      ensures Told(s, l, r)
    {
      hide Inv, Ttl, Failing, Closed, Queues.Closes, EndsIn, AskedAgain;
      NotInCache(s, l);
      if Mangled(r) {
        hide *;
      } else if r.tc || (r.rcode != RCODE_OK && r.rcode != RCODE_NXDOMAIN) {
        FailingCloses(cfg, s, l, {Failed});
        ClosesNow(s, l, {Failed}, s.v[l].answers, s.v[l].soa);
      } else if TryAgain(r) {
        WaitsFirst(s, l, r);
      } else {
        var why := if r.rcode == RCODE_NXDOMAIN || r.answers == [] then {Nxdomain, Failed} else {};
        RecordedCloses(s, l, r, why);
        ClosesNow(s, l, why, r.answers, r.soa);
      }
    }

    lemma NotInCache(s: State, l: Lookup)
      requires Inv(cfg, s, {}) && l in s.v && Cache !in s.v[l].flags
      ensures l !in s.c && Distinct(s.c)
    {
      InvPlaces(cfg, s, {}, l);
    }

    lemma RecordedCloses(s: State, l: Lookup, r: Reply, why: set<Flag>)
      requires l in s.v && l !in s.c && Distinct(s.c) && why !! PLACES
      ensures Closed(cfg, s, l, why, r.answers, r.soa, Failing(cfg, Recorded(s, l, r), l, why))
    {
      hide Ttl, Failing;
      FailingCloses(cfg, Recorded(s, l, r), l, why);
    }

    lemma WaitsFirst(s: State, l: Lookup, r: Reply)
      requires l in s.v && l !in s.c && r.question.Some? && Snap() == AskedAgain(s, l, r)
      ensures wlist == [l] + Without(s.w, {l}) && l !in alist && cache == s.c && l in live
      ensures l.flags == s.v[l].flags - PLACES + {Waiting, Failed, Again}
      ensures l.timer == s.v[l].timer && l.retry == s.v[l].retry
    {
      hide Echoes;
      assert ViewOf(l) == Snap().v[l];
      WithoutNothing(s.c, {l});
      hide Without;
    }

    lemma ClosesNow(s: State, l: Lookup, why: set<Flag>, answers: seq<nat>, soa: Option<nat>)
      requires l in s.v && Closed(cfg, s, l, why, answers, soa, Snap())
      ensures Closes(s, l, why, answers, soa)
    {
      hide Ttl;
    }

    lemma Listed(l: Lookup)
      requires Valid() && (l in alist || l in wlist || l in cache)
      ensures l in live && (l in alist ==> Pending in l.flags) && (l in wlist ==> Waiting in l.flags) &&
          (Cache in l.flags <==> l in cache)
    {
      var s := Snap();
      assert l in s.v;
      InvPlaces(cfg, s, {}, l);
    }

    /** What a reply does to the lookup it answers. */
    method Answer(dlp: Lookup, reply: Reply)
      requires Valid() && dlp in live && Cache !in dlp.flags
      modifies this`wlist, this`alist, this`cache, this`acount, this`count, this`live, this`calls, live
      ensures Valid() && live <= old(live)
      ensures old(calls) <= calls && Answered(cfg, old(Snap()), dlp, reply, Snap(), calls[|old(calls)|..])
    {
      hide Inv, Placed, Moved, Gone, Failing, Ok, Timed, Snap, AskedAgain, Called, TryAgain;
      ghost var s := Snap();
      InLive(dlp);
      LiveOk(dlp);
      InvView(cfg, s, dlp);
      if reply.qdcount != 1 || !reply.qr || reply.opcode != 0 {
        return;
      }
      if reply.tc {
        Fail(dlp, {Failed});
        return;
      }
      if reply.question == None {
        return;
      }
      if reply.rcode != RCODE_OK && reply.rcode != RCODE_NXDOMAIN {
        Fail(dlp, {Failed});
        return;
      }
      if TryAgain(reply) {
        AskAgain(dlp, reply);
        return;
      }
      Keep(dlp, reply);
      Fail(dlp, if reply.rcode == RCODE_NXDOMAIN || reply.answers == [] then {Nxdomain, Failed} else {});
    }

    method AskAgain(dlp: Lookup, reply: Reply)
      requires Valid() && dlp in live && Cache !in dlp.flags && TryAgain(reply)
      modifies this`wlist, this`alist, this`cache, this`acount, this`count, dlp`flags, dlp`account
      ensures Valid() && dlp in old(Snap()).v && Snap() == AskedAgain(old(Snap()), dlp, reply)
    {
      hide Inv, Placed, Moved, Ok, Timed, Echoes;
      ghost var s := Snap();
      InvView(cfg, s, dlp);
      AgainKeepsInv(cfg, s, dlp, reply);
      ghost var v := AgainView(dlp, s.v[dlp], reply.question.value);
      assert v.flags * PLACES == s.v[dlp].flags * PLACES;
      StillPlaced(s, dlp, v);
      dlp.account := v.account;
      dlp.flags := dlp.flags + {Failed, Again};
      assert Snap().v == s.v[dlp := v];
      Move(dlp, Some(Waiting), true);
    }

    /** Takes over the records of a reply. */
    method Keep(dlp: Lookup, reply: Reply)
      requires Valid() && dlp in live
      modifies dlp`answers, dlp`soa
      ensures Sound({dlp}) && dlp in old(Snap()).v && Snap() == Recorded(old(Snap()), dlp, reply)
    {
      hide Inv, Timed;
      ghost var s := Snap();
      Busy(cfg, s, dlp);
      RevisedKeepsInv(cfg, s, dlp, s.v[dlp].(answers := reply.answers, soa := reply.soa), {dlp});
      dlp.answers, dlp.soa := reply.answers, reply.soa;
      assert Snap().v == s.v[dlp := ViewOf(dlp)];
    }

    // ----- requests

    static method FindIn(list: seq<Lookup>, qclass: nat, qtype: nat, data: string) returns (r: Option<Lookup>)
      ensures r.Some? ==> r.value in list && KeyOf(r.value) == (qclass, qtype, Lowered(data))
      ensures r == None ==> forall l <- list :: KeyOf(l) != (qclass, qtype, Lowered(data))
    {
      var i := 0;
      while i < |list|
        invariant i <= |list| && forall j :: 0 <= j < i ==> KeyOf(list[j]) != (qclass, qtype, Lowered(data))
      {
        if list[i].qclass == qclass && list[i].qtype == qtype && Lowered(data) == Lowered(list[i].data) {
          return Some(list[i]);
        }
        i := i + 1;
      }
      return None;
    }

    /** `find_dns_lookup`: the cache, then the active, then the waiting lookups. */
    method Find(qclass: nat, qtype: nat, data: string) returns (r: Option<Lookup>)
      requires Valid()
      ensures r.Some? ==> r.value in live && KeyOf(r.value) == (qclass, qtype, Lowered(data))
      ensures r == None ==> forall l <- live :: KeyOf(l) != (qclass, qtype, Lowered(data))
    {
      Everywhere();
      hide Sound, KeyOf, Lowered;
      r := FindIn(cache, qclass, qtype, data);
      if r == None {
        r := FindIn(alist, qclass, qtype, data);
      }
      if r == None {
        r := FindIn(wlist, qclass, qtype, data);
      }
    }

    lemma Everywhere()
      requires Valid()
      ensures forall l :: l in live <==> l in cache || l in alist || l in wlist
    {
      var s := Snap();
      assert s.v.Keys == live;
    }

    /**
     A known lookup is not asked again: a cached one answers at once and becomes the most recently used, any
     other takes the callback.  A new one waits at the end of the line, and the first in line is sent.
     */
    method Request(qclass: nat, qtype: nat, data: string, hook: nat, io: Io) returns (r: Option<Lookup>)
      requires Valid()
      modifies this`wlist, this`alist, this`cache, this`acount, this`count, this`live, this`calls, this`idn, live
      ensures Valid()
      ensures r == None <==> |data| > MAX_NAMELEN
      ensures r == None ==> Snap() == old(Snap())
      ensures r.Some? ==> KeyOf(r.value) == (qclass, qtype, Lowered(data))
      ensures r.Some? && r.value in old(live) ==>
        var s := old(Snap());
        && r.value in s.v
        && if r.value in s.c then
          && Snap() == Touched(s, r.value) && cache == [r.value] + Without(s.c, {r.value})
          && calls == old(calls) + [(hook, r.value)]
        else Snap() == Revised(s, r.value, s.v[r.value].(hooks := s.v[r.value].hooks + [hook])) && calls == old(calls)
      ensures r.Some? && r.value !in old(live) ==>
        && fresh(r.value) && r.value.id == old(idn) && old(calls) <= calls
        && var t := Added(old(Snap()), r.value, NewView(cfg.retries, hook));
           exists sent: bool :: SendResult(cfg, t, io, sent, Snap(), calls[|old(calls)|..])
    {
      hide Sound, Snap, Lowered, SendResult, Added;
      if |data| > MAX_NAMELEN {
        return None;
      }
      ghost var s := Snap();
      r := Find(qclass, qtype, data);
      assert Snap() == s;
      SnapLists();
      if r.Some? {
        Everywhere();
        Listed(r.value);
        InLive(r.value);
        if Cache in r.value.flags {
          Touch(r.value);
          calls := calls + [(hook, r.value)];
        } else {
          AddHook(r.value, hook);
        }
        return;
      }
      var dlp := Create(qclass, qtype, data, hook);
      var sent := Send(io);
      return Some(dlp);
    }

    method Touch(dlp: Lookup)
      requires Valid() && dlp in cache
      modifies this`cache
      ensures Valid() && Snap() == Touched(old(Snap()), dlp) && cache == [dlp] + Without(old(cache), {dlp})
    {
      hide Inv, Timed, Distinct, Without, Queues.Views;
      Apart();
      TouchedKeepsInv(cfg, Snap(), dlp);
      var rest := Cut(cache, dlp);
      cache := [dlp] + rest;
    }

    method AddHook(dlp: Lookup, hook: nat)
      requires Valid() && dlp in live
      modifies dlp`hooks
      ensures
        var s := old(Snap());
        Valid() && dlp in s.v && Snap() == Revised(s, dlp, s.v[dlp].(hooks := s.v[dlp].hooks + [hook]))
    {
      SetHooks(dlp, dlp.hooks + [hook]);
    }

    method SetHooks(dlp: Lookup, hooks: seq<nat>)
      requires Valid() && dlp in live
      modifies dlp`hooks
      ensures
        var s := old(Snap());
        Valid() && dlp in s.v && dlp.hooks == hooks && Snap() == Revised(s, dlp, s.v[dlp].(hooks := hooks))
    {
      ghost var s := Snap();
      hide Inv, Timed;
      InvView(cfg, s, dlp);
      ghost var v := s.v[dlp].(hooks := hooks);
      assert Ok(cfg, dlp, v);
      hide Ok;
      RevisedKeepsInv(cfg, s, dlp, v, {});
      dlp.hooks := hooks;
      assert Snap().v == s.v[dlp := v];
    }

    /** A new lookup at the end of the waiting list. */
    method Create(qclass: nat, qtype: nat, data: string, hook: nat) returns (dlp: Lookup)
      requires Valid() && forall l <- live :: KeyOf(l) != (qclass, qtype, Lowered(data))
      modifies this`wlist, this`live, this`idn
      ensures Valid() && fresh(dlp) && KeyOf(dlp) == (qclass, qtype, Lowered(data)) && live == old(live) + {dlp}
      ensures dlp.id == old(idn) && idn == (old(idn) + 1) % 0x1_0000
      ensures Snap() == Added(old(Snap()), dlp, NewView(cfg.retries, hook)) && wlist == old(wlist) + [dlp]
    {
      hide Inv, Timed, Lowered;
      dlp := new Lookup(qclass, qtype, data, idn, cfg.retries, hook);
      idn := (idn + 1) % 0x1_0000;
      ViewsLive();
      AddedKeepsInv(cfg, Snap(), dlp, hook);
      Enlist(dlp);
    }

    method Enlist(dlp: Lookup)
      requires dlp !in live
      modifies this`wlist, this`live, dlp`flags
      ensures live == old(live) + {dlp} && wlist == old(wlist) + [dlp]
      ensures Snap() == Added(old(Snap()), dlp, old(ViewOf(dlp)))
    {
      ghost var s, v := Snap(), ViewOf(dlp);
      dlp.flags := {Waiting};
      wlist := wlist + [dlp];
      live := live + {dlp};
      assert Snap().v == Added(s, dlp, v).v;
    }

    /** Takes a callback off the lookups it waits for; a lookup nobody waits for, and not yet sent, is destroyed. */
    method Cancel(hook: nat)
      requires Valid()
      modifies this`wlist, this`alist, this`cache, this`acount, this`count, this`live, live
      ensures Valid() && alist == old(alist) && cache == old(cache)
      ensures forall l <- alist :: l.hooks == Unhooked(old(l.hooks), hook)
      ensures forall l <- cache :: l.hooks == old(l.hooks)
      ensures forall l <- old(wlist) :: Dealt(l, Unhooked(old(l.hooks), hook))
    {
      hide Sound, Snap, Unhooked, Distinct;
      Everywhere();
      Apart();
      UnhookActive(hook);
      Apart();
      UnhookWaiting(hook);
    }

    method UnhookActive(hook: nat)
      requires Valid()
      modifies alist`hooks
      ensures Valid()
      ensures forall l <- alist :: l.hooks == Unhooked(old(l.hooks), hook)
    {
      hide Sound, Snap, Unhooked;
      Everywhere();
      Apart();
      var i := 0;
      while i < |alist|
        invariant i <= |alist| && Valid()
        invariant forall j :: 0 <= j < i ==> alist[j].hooks == Unhooked(old(alist[j].hooks), hook)
        invariant forall j :: i <= j < |alist| ==> alist[j].hooks == old(alist[j].hooks)
      {
        SetHooks(alist[i], Unhooked(alist[i].hooks, hook));
        i := i + 1;
      }
    }

    lemma Apart()
      requires Valid()
      ensures Distinct(wlist) && Distinct(alist) && Distinct(cache)
      ensures forall l <- wlist :: l !in alist && l !in cache
      ensures forall l <- alist :: l !in cache
    {
      var s := Snap();
      forall l | l in s.w || l in s.a
        ensures Placed(s, l)
      {
        InvPlaces(cfg, s, {}, l);
      }
    }

    method UnhookWaiting(hook: nat)
      requires Valid()
      modifies this`wlist, this`alist, this`cache, this`acount, this`count, this`live, wlist`hooks,
               wlist`flags, wlist`timer
      ensures Valid() && alist == old(alist) && cache == old(cache)
      ensures forall l <- old(wlist) :: Dealt(l, Unhooked(old(l.hooks), hook))
    {
      hide Sound, Snap, Unhooked;
      Everywhere();
      Apart();
      ghost var all := wlist;
      var i := 0;
      var rest := wlist;
      while rest != []
        invariant Valid() && alist == old(alist) && cache == old(cache)
        invariant i + |rest| == |all| && rest == all[i..]
        invariant forall j :: i <= j < |all| ==> all[j] in wlist && all[j].hooks == old(all[j].hooks)
        invariant forall j :: 0 <= j < i ==> Dealt(all[j], old(Unhooked(all[j].hooks, hook)))
      {
        var dlp := rest[0];
        assert dlp == all[i];
        UnhookOne(dlp, hook);
        rest := rest[1..];
        i := i + 1;
      }
    }

    /** A waiting lookup is left with these callbacks, or destroyed if there are none. */
    ghost predicate Dealt(l: Lookup, hooks: seq<nat>)
      reads this`wlist, this`live, l`hooks
    {
      if hooks == [] then l !in live && l !in wlist else l in wlist && l.hooks == hooks
    }

    method UnhookOne(dlp: Lookup, hook: nat)
      requires Valid() && dlp in wlist
      modifies this`wlist, this`alist, this`cache, this`acount, this`count, this`live, dlp`hooks, dlp`flags, dlp`timer
      ensures Valid() && alist == old(alist) && cache == old(cache)
      ensures Dealt(dlp, Unhooked(old(dlp.hooks), hook))
      ensures forall l :: l != dlp ==> (l in wlist <==> l in old(wlist)) && (l in live <==> l in old(live))
    {
      hide Sound, Snap, Unhooked;
      Everywhere();
      SetHooks(dlp, Unhooked(dlp.hooks, hook));
      if dlp.hooks == [] {
        Discard(dlp);
      }
    }

    method Discard(dlp: Lookup)
      requires Valid() && dlp in wlist
      modifies this`wlist, this`alist, this`cache, this`acount, this`count, this`live, dlp`flags, dlp`timer
      ensures Valid() && alist == old(alist) && cache == old(cache) && live == old(live) - {dlp}
      ensures forall l :: l in wlist <==> l in old(wlist) && l != dlp
    {
      hide Inv, Placed, Timed, Distinct;
      ghost var s := Snap();
      Listed(dlp);
      Apart();
      LiveOk(dlp);
      GoneKeepsInv(cfg, s, dlp, {});
      NotListed(s, dlp);
      Destroy(dlp);
    }
  }
}
