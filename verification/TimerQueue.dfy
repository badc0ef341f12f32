/**
 The timer list: second-resolution timers sorted by when they are next due, each with a 64-bit
 reference (source/timer.c).

 A timer is a value in the list and is identified by its reference; the cursor of `exec_timers`
 is the reference of the timer it points at.
 */
module TimerQueue {
  import opened Common

  const REF_COUNT: nat := 0x1_0000_0000_0000_0000
  const TIMER_INVALID: nat := REF_COUNT - 1
  const TIMER_DEAD := -1
  const TIMER_REPEAT := -2

  datatype Timer = Timer(ref: nat, reps: int, interval: int, next: int)

  // ----- the list

  ghost predicate Sorted(ts: seq<Timer>) {
    forall i, j :: 0 <= i < j < |ts| ==> ts[i].next <= ts[j].next
  }

  ghost predicate DistinctRefs(ts: seq<Timer>) {
    forall i, j :: 0 <= i < j < |ts| ==> ts[i].ref != ts[j].ref
  }

  function Refs(ts: seq<Timer>): set<nat> {
    set i | 0 <= i < |ts| :: ts[i].ref
  }

  /** Position of the first timer due strictly later: new timers go behind their equals. */
  function Slot(ts: seq<Timer>, next: int): (k: nat)
    ensures k <= |ts|
    ensures forall i :: 0 <= i < k ==> ts[i].next <= next
    ensures k < |ts| ==> ts[k].next > next
  {
    if ts == [] || ts[0].next > next then 0 else 1 + Slot(ts[1..], next)
  }

  function Insert(ts: seq<Timer>, t: Timer): seq<Timer> {
    ts[..Slot(ts, t.next)] + [t] + ts[Slot(ts, t.next)..]
  }

  /** Index of a reference, or the length of the list (`find_timer`). */
  function Find(ts: seq<Timer>, ref: nat): (k: nat)
    ensures k <= |ts|
    ensures k < |ts| ==> ts[k].ref == ref
    ensures forall i :: 0 <= i < k ==> ts[i].ref != ref
    ensures k < |ts| <==> ref in Refs(ts)
  {
    if ts == [] then 0 else if ts[0].ref == ref then 0
    else
      assert forall i :: 1 <= i < |ts| ==> ts[i] == ts[1..][i - 1];
      1 + Find(ts[1..], ref)
  }

  lemma FindIs(ts: seq<Timer>, i: nat)
    requires i < |ts| && DistinctRefs(ts)
    ensures Find(ts, ts[i].ref) == i
  {
  }

  /** Every element of the list after an insertion, by position. */
  lemma InsertAt(ts: seq<Timer>, t: Timer, i: nat)
    requires i <= |ts|
    ensures |Insert(ts, t)| == |ts| + 1
    ensures var k := Slot(ts, t.next);
            Insert(ts, t)[i] == if i < k then ts[i] else if i == k then t else ts[i - 1]
  {
  }

  /** Insertion keeps the list sorted, and is stable: a tie goes after everything already there. */
  lemma InsertKeepsOrder(ts: seq<Timer>, t: Timer)
    requires Sorted(ts)
    ensures Sorted(Insert(ts, t))
    ensures forall i :: 0 <= i < |ts| && ts[i].next <= t.next ==> Insert(ts, t)[i] == ts[i]
    ensures forall i :: 0 <= i < |ts| && ts[i].next > t.next ==> Insert(ts, t)[i + 1] == ts[i]
  {
    hide Slot, Insert;
    var k, out := Slot(ts, t.next), Insert(ts, t);
    InsertAt(ts, t, 0);
    forall i, j | 0 <= i < j < |out|
      ensures out[i].next <= out[j].next
    {
      InsertAt(ts, t, i);
      InsertAt(ts, t, j);
    }
    forall i | 0 <= i < |ts|
      ensures out[if ts[i].next <= t.next then i else i + 1] == ts[i]
    {
      InsertAt(ts, t, i);
      InsertAt(ts, t, i + 1);
    }
  }

  lemma InsertRefs(ts: seq<Timer>, t: Timer)
    ensures Refs(Insert(ts, t)) == Refs(ts) + {t.ref}
    ensures DistinctRefs(ts) && t.ref !in Refs(ts) ==> DistinctRefs(Insert(ts, t))
  {
    hide Slot, Insert;
    var k, out := Slot(ts, t.next), Insert(ts, t);
    InsertAt(ts, t, k);
    forall i | 0 <= i < |out|
      ensures out[i].ref in Refs(ts) + {t.ref}
    {
      InsertAt(ts, t, i);
    }
    forall i | 0 <= i < |ts|
      ensures ts[i].ref in Refs(out)
    {
      InsertAt(ts, t, if i < k then i else i + 1);
      assert out[if i < k then i else i + 1].ref == ts[i].ref;
    }
    if DistinctRefs(ts) && t.ref !in Refs(ts) {
      forall i, j | 0 <= i < j < |out|
        ensures out[i].ref != out[j].ref
      {
        InsertAt(ts, t, i);
        InsertAt(ts, t, j);
      }
    }
  }

  lemma RemoveRefs(ts: seq<Timer>, i: nat)
    requires i < |ts| && DistinctRefs(ts)
    ensures Refs(Remove(ts, i)) == Refs(ts) - {ts[i].ref} && DistinctRefs(Remove(ts, i))
    ensures Sorted(ts) ==> Sorted(Remove(ts, i))
  {
    var out := Remove(ts, i);
    forall r | r in Refs(ts) - {ts[i].ref}
      ensures r in Refs(out)
    {
      var j :| 0 <= j < |ts| && ts[j].ref == r;
      assert out[if j < i then j else j - 1].ref == r;
    }
  }

  // ----- the history of a timer

  datatype Phase = Live | Expired | Destroyed

  /**
   What happened to the latest timer with a given reference since it was made or adjusted, at `start`: how often it
   fired, and how many seconds were lost where a pass came more than an interval late.
   */
  datatype Life = Life(made: int, start: int, fired: nat, slip: int, phase: Phase)

  function Begun(made: int, start: int): Life {
    Life(made, start, 0, 0, Live)
  }

  /** When the next firing is due. */
  function DueAt(l: Life, interval: int): int {
    l.start + (l.fired + 1) * interval + l.slip
  }

  /** What a firing at this time loses: it came more than an interval late, and its timer starts over. */
  function Behind(t: Timer, now: int): int {
    if t.next + t.interval < now then now - t.next else 0
  }

  /** The repetition count as the list stores it. */
  function StoredReps(rep: int): int {
    if rep < 0 then TIMER_REPEAT else rep
  }

  ghost predicate Accounts(t: Timer, l: Life) {
    && l.phase == Live
    && t.next == DueAt(l, t.interval)
    && if l.made < 0 then t.reps == TIMER_REPEAT else t.reps >= 0 && t.reps + l.fired == l.made
  }

  /** A timer that left the queue by itself has fired exactly one more time than its repetitions. */
  ghost predicate Kept(ts: seq<Timer>, lives: map<nat, Life>) {
    && (forall t <- ts :: t.ref in lives && Accounts(t, lives[t.ref]))
    && (forall r <- lives :: lives[r].phase == Live ==> r in Refs(ts))
    && (forall r <- lives :: lives[r].phase == Expired ==> lives[r].made >= 0 && lives[r].fired == lives[r].made + 1)
  }

  /** The references due at or before `x`. */
  ghost function Due(ts: seq<Timer>, x: int): set<nat> {
    set i | 0 <= i < |ts| && ts[i].next <= x :: ts[i].ref
  }

  lemma RefsSize(ts: seq<Timer>)
    ensures |Refs(ts)| <= |ts|
  {
    if ts != [] {
      var n := |ts| - 1;
      assert Refs(ts) == Refs(ts[..n]) + {ts[n].ref};
      RefsSize(ts[..n]);
    }
  }

  /** The `j`-th reference handed out after `start`, round the 64-bit counter. */
  function Nth(start: nat, j: nat): nat {
    if start + j < REF_COUNT then start + j else start + j - REF_COUNT
  }

  /** `tried` consecutive references, all taken, need as many timers. */
  lemma {:induction false} TriedBound(start: nat, tried: nat, taken: set<nat>)
    requires start < REF_COUNT && tried <= REF_COUNT
    requires forall j :: 0 <= j < tried ==> Nth(start, j) in taken
    ensures tried <= |taken|
  {
    if tried > 0 {
      var last := Nth(start, tried - 1);
      assert last in taken;
      TriedBound(start, tried - 1, taken - {last});
    }
  }

  lemma InsertMembers(ts: seq<Timer>, t: Timer)
    ensures forall x :: x in Insert(ts, t) <==> x in ts || x == t
  {
    var k := Slot(ts, t.next);
    assert ts == ts[..k] + ts[k..];
  }

  lemma RemoveMembers(ts: seq<Timer>, i: nat)
    requires i < |ts| && DistinctRefs(ts)
    ensures forall x :: x in Remove(ts, i) <==> x in ts && x.ref != ts[i].ref
  {
    assert ts == ts[..i] + [ts[i]] + ts[i + 1..];
  }

  lemma MemberRef(ts: seq<Timer>, t: Timer)
    requires t in ts
    ensures t.ref in Refs(ts)
  {
  }

  lemma KeptInsert(ts: seq<Timer>, lives: map<nat, Life>, t: Timer, l: Life)
    requires Kept(ts, lives) && t.ref !in Refs(ts) && Accounts(t, l)
    ensures Kept(Insert(ts, t), lives[t.ref := l])
  {
    hide Insert;
    InsertMembers(ts, t);
    InsertRefs(ts, t);
    forall x | x in ts
      ensures x.ref != t.ref
    {
      MemberRef(ts, x);
    }
  }

  lemma KeptRemove(ts: seq<Timer>, lives: map<nat, Life>, i: nat, l: Life)
    requires Kept(ts, lives) && i < |ts| && DistinctRefs(ts)
    requires l.phase == Destroyed || (l.phase == Expired && l.made >= 0 && l.fired == l.made + 1)
    ensures Kept(Remove(ts, i), lives[ts[i].ref := l])
  {
    hide Remove;
    RemoveMembers(ts, i);
    RemoveRefs(ts, i);
  }

  ghost predicate SoundList(ts: seq<Timer>, lives: map<nat, Life>) {
    && Sorted(ts) && DistinctRefs(ts) && Kept(ts, lives)
    && forall t <- ts :: t.ref < REF_COUNT
  }

  ghost predicate Positive(ts: seq<Timer>) {
    forall t <- ts :: t.interval >= 1
  }

  /** What a callback may do. */
  datatype Wish = Make(rep: int, interval: int) | Kill(ref: nat)

  class Queue {
    var timers: seq<Timer>
    var refcnt: nat
    var rollover: bool
    var now: int
    ghost var lives: map<nat, Life>

    ghost predicate Valid()
      reads this
    {
      && SoundList(timers, lives) && refcnt < REF_COUNT
      && (!rollover ==> forall t <- timers :: t.ref < refcnt)
    }

    constructor ()
      ensures Valid() && timers == [] && refcnt == 0 && !rollover && lives == map[]
    {
      timers, refcnt, rollover, now, lives := [], 0, false, 0, map[];
    }

    /** `insert_timer` */
    method InsertTimer(t: Timer)
      modifies this`timers
      ensures timers == Insert(old(timers), t)
    {
      var k := 0;
      while k < |timers| && timers[k].next <= t.next
        invariant 0 <= k <= |timers|
        invariant forall i :: 0 <= i < k ==> timers[i].next <= t.next
      {
        k := k + 1;
      }
      timers := timers[..k] + [t] + timers[k..];
    }

    /** `find_timer`, as the index of the timer. */
    method FindTimer(ref: nat) returns (k: nat)
      ensures k == Find(timers, ref)
    {
      k := 0;
      while k < |timers| && timers[k].ref != ref
        invariant 0 <= k <= |timers|
        invariant forall i :: 0 <= i < k ==> timers[i].ref != ref
      {
        k := k + 1;
      }
    }

    /** Once the counter has wrapped: the next reference no timer holds. */
    method NextFreeRef() returns (ref: nat)
      requires refcnt < REF_COUNT && |timers| < TIMER_INVALID
      modifies this`refcnt
      ensures ref < REF_COUNT && ref !in Refs(timers) && refcnt < REF_COUNT
      ensures exists j: nat :: j <= |timers| && ref == Nth(old(refcnt), j) &&
                               forall i :: 0 <= i < j ==> Nth(old(refcnt), i) in Refs(timers)
    {
      hide Find, Slot, Refs;
      ghost var start, taken, tried := refcnt, Refs(timers), 0;
      RefsSize(timers);
      ref := refcnt;
      refcnt := (refcnt + 1) % REF_COUNT;
      var k := FindTimer(ref);
      while k < |timers|
        invariant 0 <= tried <= |timers| && ref == Nth(start, tried) < REF_COUNT && refcnt == (ref + 1) % REF_COUNT
        invariant forall j :: 0 <= j < tried ==> Nth(start, j) in taken
        invariant k == Find(timers, ref)
        decreases |timers| - tried
      {
        assert Nth(start, tried) in taken;
        tried := tried + 1;
        TriedBound(start, tried, taken);
        ref := refcnt;
        refcnt := (refcnt + 1) % REF_COUNT;
        k := FindTimer(ref);
      }
    }

    /** The reference `create_timer` gives out. */
    method NextRef() returns (ref: nat)
      requires Valid() && |timers| < TIMER_INVALID
      modifies this`refcnt, this`rollover
      ensures ref < REF_COUNT && ref !in Refs(timers) && refcnt < REF_COUNT
      ensures !rollover ==> ref < refcnt && old(refcnt) <= refcnt
      ensures old(rollover) ==> rollover
      ensures ref == TIMER_INVALID <==> InvalidIsNext(old(rollover), old(refcnt), Refs(timers))
    {
      if rollover {
        ref := NextFreeRef();
        InvalidExactly(old(refcnt), ref, Refs(timers), |timers|);
      } else {
        ref := refcnt;
        refcnt := (refcnt + 1) % REF_COUNT;
        if refcnt == 0 {
          rollover := true;
        }
        if ref == TIMER_INVALID {
          ref := NextFreeRef();
        }
      }
    }
  
    /** Puts a timer whose reference is free into the list and starts its history. */
    method Enter(t: Timer, made: int)
      requires Valid() && t.ref !in Refs(timers) && t.ref < REF_COUNT
      requires Accounts(t, Begun(made, now)) && (!rollover ==> t.ref < refcnt)
      modifies this`timers, this`lives
      ensures Valid() && timers == Insert(old(timers), t)
      ensures lives == old(lives)[t.ref := Begun(made, now)]
    {
      hide Insert, Kept, Find, Slot;
      InsertKeepsOrder(timers, t);
      InsertRefs(timers, t);
      InsertMembers(timers, t);
      KeptInsert(timers, lives, t, Begun(made, now));
      InsertTimer(t);
      lives := lives[t.ref := Begun(made, now)];
    }

    /** `create_timer` */
    method Create(rep: int, interval: int) returns (ref: nat)
      requires Valid() && |timers| < TIMER_INVALID
      modifies this`timers, this`refcnt, this`rollover, this`lives
      ensures Valid() && ref !in old(Refs(timers))
      ensures timers == Insert(old(timers), Timer(ref, StoredReps(rep), interval, now + interval))
      ensures lives == old(lives)[ref := Begun(rep, now)]
      ensures ref == TIMER_INVALID <==> old(InvalidIsNext(rollover, refcnt, Refs(timers)))
    {
      hide Insert, Kept, Sorted;
      ref := NextRef();
      Enter(Timer(ref, StoredReps(rep), interval, now + interval), rep);
    }

    /** `destroy_timer` */
    method Destroy(ref: nat)
      requires Valid()
      modifies this`timers, this`lives
      ensures Valid()
      ensures ref !in old(Refs(timers)) ==> timers == old(timers) && lives == old(lives)
      ensures ref in old(Refs(timers)) ==>
                && timers == Remove(old(timers), Find(old(timers), ref))
                && lives == old(lives)[ref := old(lives)[ref].(phase := Destroyed)]
      ensures ref !in Refs(timers)
    {
      hide Kept, Find;
      var k := FindTimer(ref);
      if k < |timers| {
        assert timers[k] in timers && ref in lives by {
          MemberLives(timers, lives, k);
        }
        RemoveRefs(timers, k);
        RemoveMembers(timers, k);
        KeptRemove(timers, lives, k, lives[ref].(phase := Destroyed));
        timers := timers[..k] + timers[k + 1..];
        lives := lives[ref := lives[ref].(phase := Destroyed)];
      }
    }

    /** `adjust_timer`: the timer starts over with a new repetition count and interval. */
    method Adjust(ref: nat, reps: int, interval: int)
      requires Valid()
      modifies this`timers, this`lives
      ensures Valid()
      ensures ref !in old(Refs(timers)) ==> timers == old(timers) && lives == old(lives)
      ensures ref in old(Refs(timers)) ==>
                && timers == Insert(Remove(old(timers), Find(old(timers), ref)),
                                    Timer(ref, StoredReps(reps), interval, now + interval))
                && lives == old(lives)[ref := Begun(reps, now)]
    {
      hide Kept, Find, Insert, Sorted;
      var k := FindTimer(ref);
      if k < |timers| {
        assert ref in lives by {
          MemberLives(timers, lives, k);
        }
        ghost var lives0 := lives;
        RemoveRefs(timers, k);
        RemoveMembers(timers, k);
        KeptRemove(timers, lives, k, lives[ref].(phase := Destroyed));
        assert timers[k] in timers;
        timers := timers[..k] + timers[k + 1..];
        lives := lives[ref := lives[ref].(phase := Destroyed)];
        Enter(Timer(ref, StoredReps(reps), interval, now + interval), reps);
        assert lives == lives0[ref := Begun(reps, now)];
      }
    }

    /**
     A timer callback: it may create and destroy any timers it likes.  (One that adjusts timers is not part of
     this model.)  `killed` are the timers it found in the list and destroyed, `born` those it created.
     */
    method Callback() returns (killed: set<nat>, ghost born: set<nat>)
      requires Valid() && Positive(timers)
      modifies this`timers, this`refcnt, this`rollover, this`lives
      ensures Valid() && Positive(timers)
      ensures CallEffect(old(timers), old(lives), timers, lives, now, born, killed)
    {
      hide SoundList, Insert, Remove, Find, CallEffect;
      CallStart(timers, lives, now);
      killed, born := {}, {};
      var made: set<nat> := {};
      var wanted: seq<Wish> := *;
      for n := 0 to |wanted|
        invariant Valid() && Positive(timers) && made == born
        invariant CallEffect(old(timers), old(lives), timers, lives, now, born, killed)
      {
        ghost var ts, ls := timers, lives;
        match wanted[n]
        case Make(rep, interval) =>
          if interval >= 1 && |timers| < TIMER_INVALID {
            var ref := Create(rep, interval);
            CallMake(old(timers), old(lives), ts, ls, now, born, killed,
                     Timer(ref, StoredReps(rep), interval, now + interval), rep);
            made, born := made + {ref}, born + {ref};
          }
        case Kill(ref) =>
          var k := FindTimer(ref);
          if k < |timers| {
            Destroy(ref);
            CallKill(old(timers), old(lives), ts, ls, now, born, killed, k);
            killed := if ref in made then killed else killed + {ref};
          }
      }
    }

    /** The head has fired for the last time: `destroy_timer` on it. */
    method ExpireHead()
      requires Valid() && timers != [] && Last(timers[0])
      modifies this`timers, this`lives
      ensures Valid() && timers == Remove(old(timers), 0)
      ensures old(timers)[0].ref in old(lives)
      ensures var t := old(timers)[0]; lives == old(lives)[t.ref := AfterFiring(old(lives)[t.ref], t, now)]
    {
      hide Kept, Find, Sorted, DistinctRefs;
      var t := timers[0];
      MemberLives(timers, lives, 0);
      RemoveRefs(timers, 0);
      RemoveMembers(timers, 0);
      KeptRemove(timers, lives, 0, AfterFiring(lives[t.ref], t, now));
      lives := lives[t.ref := AfterFiring(lives[t.ref], t, now)];
      timers := timers[..0] + timers[1..];
    }

    /** The head has fired and is due again later. */
    method RearmHead()
      requires Valid() && timers != [] && !Last(timers[0])
      modifies this`timers, this`lives
      ensures Valid() && timers == Insert(Remove(old(timers), 0), Rearmed(old(timers)[0], now))
      ensures old(timers)[0].ref in old(lives)
      ensures var t := old(timers)[0]; lives == old(lives)[t.ref := AfterFiring(old(lives)[t.ref], t, now)]
    {
      hide SoundList, Insert;
      var t := timers[0];
      RearmSound(timers, lives, now);
      lives := lives[t.ref := AfterFiring(lives[t.ref], t, now)];
      if t.reps != TIMER_REPEAT {
        t := t.(reps := t.reps - 1);
      }
      t := t.(next := t.next + t.interval);
      if t.next < now {
        t := t.(next := now + t.interval);
      }
      timers := timers[..0] + timers[1..];
      InsertTimer(t);
    }

    /**
     One turn of the loop of `exec_timers`, on the timer at the head of the list.  It is not `alive` if its
     callback destroyed it, and the turn then goes no further.
     */
    method FireHead() returns (alive: bool, killed: set<nat>, ghost born: set<nat>)
      requires Valid() && Positive(timers) && timers != [] && timers[0].next <= now
      modifies this`timers, this`refcnt, this`rollover, this`lives
      ensures Valid() && Positive(timers)
      ensures alive <==> old(timers)[0].ref !in killed
      ensures old(timers)[0].ref in old(lives)
      ensures alive ==>
        && killed <= old(Refs(timers)) && born * old(Refs(timers)) <= killed
        && Fired(old(timers), timers, now, born, killed)
        && LivesFired(old(lives), lives, old(timers)[0], now, born, killed) && Newborn(timers, lives, now, born)
    {
      hide SoundList, Insert, Fired, Remove, HeadGone, LivesFired, Refs, Rearmed, DueNow, Newborn, CallEffect;
      var t := timers[0];
      SoundHead(timers, lives);
      killed, born := Callback();
      alive := t.ref !in killed;
      if !alive {
        return;
      }
      ghost var ts1 := timers;
      HeadRest(old(timers), old(lives), ts1, lives, now, born, killed);
      if t.reps != TIMER_REPEAT && t.reps - 1 == TIMER_DEAD {
        NewbornStays(ts1, lives, Remove(ts1, 0), now, born, AfterFiring(lives[t.ref], t, now));
        ExpireHead();
        FiredLast(old(timers), Remove(ts1, 0), now, born, killed);
      } else {
        InsertMembers(Remove(ts1, 0), Rearmed(t, now));
        RearmedRef(t, now);
        NewbornStays(ts1, lives, Insert(Remove(ts1, 0), Rearmed(t, now)), now, born, AfterFiring(lives[t.ref], t, now));
        RearmHead();
        FiredAgain(old(timers), Remove(ts1, 0), now, born, killed);
      }
    }

    /**
     `exec_timers`, with the clock standing still during the pass.  `trail` has the list and the timers its
     callback destroyed for each firing.  The code goes on with a timer that is gone, `fault`, exactly if some
     callback destroys its own timer or the one that is next in the list as it is called.

     Otherwise nothing is overdue afterwards and the result is the time to the next timer.  A fired timer is
     on schedule, or gone if one of its turns was its last, or destroyed; the others are untouched unless
     destroyed, and the timers made in the pass have not fired.  If no callback destroys a timer, those that were
     due fire once each in the order of the list, and then those that this made due on this very second once
     more, unless there was no other due timer behind any of these: the cursor then is past them already.
     */
    method Exec(clock: int) returns (r: int, fault: bool, ghost born: set<nat>, ghost trail: seq<Firing>)
      requires Valid() && Positive(timers)
      modifies this
      ensures Valid() && Positive(timers) && now == clock
      ensures fault <==> exists k :: 0 <= k < |trail| && Dangles(trail[k])
      ensures Follows(DueNow(old(timers), clock), trail, clock)
      ensures trail != [] ==> trail[0].list == old(timers)
      ensures !fault ==>
        && (forall t <- timers :: t.next >= clock) && Left(DueNow(old(timers), clock), trail, clock) == []
        && r == (if timers == [] then 0 else timers[0].next - clock) && r >= 0
      ensures !fault ==> Tracked(old(timers), old(lives), timers, lives, clock, born, trail)
      ensures !fault ==> forall t <- old(timers) :: t.ref !in born ==>
                OnSchedule(t, Times(Heads(trail), t.ref), Killed(trail, t.ref), timers, clock)
      ensures Undisturbed(trail) ==>
        && !fault && Heads(trail) == Firings(DueNow(old(timers), clock), clock)
        && forall i :: 0 <= i < |old(timers)| ==>
             Times(Heads(trail), old(timers)[i].ref) == Turns(old(timers), i, clock)
    {
      hide SoundList, Find, Fired, LivesFired, Due, Refs, DueNow, Heads, Times, Tracked, Newborn, Left, Firings, Turns,
           Passing, Follows, OnSchedule, Killed;
      r, fault, born, trail := 0, false, {}, [];
      ghost var before, lives0 := timers, lives;
      var tep := if timers == [] then None else Some(timers[0].ref);
      now := clock;
      PassingStart(timers, lives, now);
      while tep.Some?
        invariant Valid() && Positive(timers) && now == clock && !fault
        invariant Passing(before, lives0, timers, lives, tep, now, born, trail)
        decreases Due(timers, now - 1), Due(timers, now), tep.Some?
      {
        var k := FindTimer(tep.value);
        PassingFound(before, lives0, timers, lives, tep.value, now, born, trail);
        var tep2 := if k + 1 < |timers| then Some(timers[k + 1].ref) else None;
        if timers[k].next > now {
          break;
        }
        ghost var ts, ls := timers, lives;
        var alive, killed;
        ghost var newborn;
        alive, killed, newborn := FireHead();
        fault := !alive || (tep2.Some? && tep2.value in killed);
        if fault {
          PassingFault(before, lives0, ts, ls, tep.value, now, born, trail, killed);
          trail := trail + [Firing(ts, killed)];
          return;
        }
        PassingFire(before, lives0, ts, ls, timers, lives, now, born, newborn, trail, killed);
        DueShrinks(ts, ls, timers, now, newborn, killed);
        born, trail := born + newborn, trail + [Firing(ts, killed)];
        tep := tep2;
        now := clock;
      }
      PassingEnd(before, lives0, timers, lives, tep, now, born, trail);
      AllOnSchedule(before, lives0, timers, lives, now, born, trail);
      r := if timers == [] then 0 else timers[0].next - now;
    }
  }

  lemma RearmSound(ts: seq<Timer>, lives: map<nat, Life>, now: int)
    requires SoundList(ts, lives) && ts != [] && !Last(ts[0])
    ensures ts[0].ref in lives
    ensures var t' := Rearmed(ts[0], now);
            var ts' := Insert(Remove(ts, 0), t');
            && SoundList(ts', lives[t'.ref := AfterFiring(lives[t'.ref], ts[0], now)])
            && (forall x <- ts' :: x in ts || x == t')
  {
    hide Kept, Insert, Sorted, DistinctRefs, Remove, Slot;
    var t', rest := Rearmed(ts[0], now), Remove(ts, 0);
    MemberLives(ts, lives, 0);
    RemoveRefs(ts, 0);
    RemoveMembers(ts, 0);
    KeptRearm(ts, lives, t', AfterFiring(lives[t'.ref], ts[0], now));
    InsertKeepsOrder(rest, t');
    InsertRefs(rest, t');
    InsertMembers(rest, t');
  }

  // ----- one pass

  /** The timers that are due, which come first in the list. */
  function DueNow(ts: seq<Timer>, now: int): seq<Timer> {
    ts[..Slot(ts, now)]
  }

  lemma DueNowIs(ts: seq<Timer>, now: int, k: nat)
    requires Sorted(ts) && k <= |ts| && (k > 0 ==> ts[k - 1].next <= now) && (k < |ts| ==> ts[k].next > now)
    ensures DueNow(ts, now) == ts[..k]
  {
    hide Slot;
  }

  /** A timer due now or later goes in behind all that are due. */
  lemma DueInsert(ts: seq<Timer>, t: Timer, now: int)
    requires Sorted(ts) && t.next >= now
    ensures DueNow(Insert(ts, t), now) == DueNow(ts, now) + if t.next == now then [t] else []
  {
    hide Slot, Sorted;
    var s := Slot(ts, now);
    var out, k := Insert(ts, t), if t.next == now then s + 1 else s;
    InsertKeepsOrder(ts, t);
    assert s <= Slot(ts, t.next);
    assert out[..k] == ts[..s] + if t.next == now then [t] else [];
    DueNowIs(out, now, k);
  }

  /** A timer taken out is taken out of those that are due, if it was one. */
  lemma DueRemove(ts: seq<Timer>, i: nat, now: int)
    requires Sorted(ts) && DistinctRefs(ts) && i < |ts|
    ensures DueNow(Remove(ts, i), now) == Spared(DueNow(ts, now), {ts[i].ref})
    ensures ts[i].next > now ==> DueNow(Remove(ts, i), now) == DueNow(ts, now)
  {
    var s := Slot(ts, now);
    hide Slot, Sorted, Remove, DistinctRefs;
    DueCut(ts, i, now);
    if i < s {
      FirstDistinct(ts, s);
      SparedOne(ts[..s], i);
      assert ts[..s][..i] + ts[..s][i + 1..] == ts[..i] + ts[i + 1..s];
    } else {
      NotAmong(ts, s, i);
      SparedAll(ts[..s], {ts[i].ref});
    }
  }

  lemma DueCut(ts: seq<Timer>, i: nat, now: int)
    requires Sorted(ts) && DistinctRefs(ts) && i < |ts|
    ensures var s := Slot(ts, now);
            DueNow(Remove(ts, i), now) == if i < s then ts[..i] + ts[i + 1..s] else ts[..s]
  {
    hide Slot, Sorted, DistinctRefs, Remove;
    var s := Slot(ts, now);
    var k := if i < s then s - 1 else s;
    RemoveRefs(ts, i);
    SlotLast(ts, now);
    Removed(ts, i, s);
    DueNowIs(Remove(ts, i), now, k);
  }

  lemma Removed(ts: seq<Timer>, i: nat, s: nat)
    requires i < |ts| && s <= |ts|
    ensures var out, k := Remove(ts, i), if i < s then s - 1 else s;
            && |out| == |ts| - 1 && k <= |out|
            && out[..k] == (if i < s then ts[..i] + ts[i + 1..s] else ts[..s])
            && (k > 0 ==> out[k - 1] == ts[if k - 1 < i then k - 1 else k])
            && (k < |out| ==> out[k] == ts[if k < i then k else k + 1])
  {
  }

  lemma SlotLast(ts: seq<Timer>, now: int)
    requires Sorted(ts)
    ensures forall j :: Slot(ts, now) <= j < |ts| ==> ts[j].next > now
  {
    hide Slot;
  }

  lemma FirstDistinct(ts: seq<Timer>, n: nat)
    requires DistinctRefs(ts) && n <= |ts|
    ensures DistinctRefs(ts[..n])
  {
  }

  lemma NotAmong(ts: seq<Timer>, n: nat, i: nat)
    requires DistinctRefs(ts) && n <= i < |ts|
    ensures forall t <- ts[..n] :: t.ref != ts[i].ref
  {
  }

  /** The timer, if firing it makes it due again on this very second. */
  function Back(t: Timer, now: int): seq<Timer> {
    if !Last(t) && t.next + t.interval == now then [Rearmed(t, now)] else []
  }

  function Backs(q: seq<Timer>, now: int): seq<Timer> {
    if q == [] then [] else Back(q[0], now) + Backs(q[1..], now)
  }

  /** The timers that fire in a pass, each as it is at the time, for the timers that are due at first. */
  function Firings(q: seq<Timer>, now: int): seq<Timer> {
    q + if q == [] || Backs(q[..|q| - 1], now) == [] then [] else Backs(q, now)
  }

  /** The timers of a queue that are not destroyed. */
  function Spared(q: seq<Timer>, killed: set<nat>): seq<Timer> {
    if q == [] then [] else if q[0].ref in killed then Spared(q[1..], killed) else [q[0]] + Spared(q[1..], killed)
  }

  lemma {:induction false} SparedAll(q: seq<Timer>, killed: set<nat>)
    requires forall t <- q :: t.ref !in killed
    ensures Spared(q, killed) == q
  {
    if q != [] {
      SparedAll(q[1..], killed);
      assert q[0] in q;
    }
  }

  lemma {:induction false} SparedTwice(q: seq<Timer>, a: set<nat>, b: set<nat>)
    ensures Spared(Spared(q, a), b) == Spared(q, a + b)
  {
    if q != [] {
      SparedTwice(q[1..], a, b);
      if q[0].ref !in a {
        assert Spared(q, a)[1..] == Spared(q[1..], a);
      }
    }
  }

  lemma {:induction false} SparedOne(q: seq<Timer>, i: nat)
    requires DistinctRefs(q) && i < |q|
    ensures Spared(q, {q[i].ref}) == q[..i] + q[i + 1..]
  {
    if i == 0 {
      SparedAll(q[1..], {q[0].ref});
    } else {
      SparedOne(q[1..], i - 1);
      assert [q[0]] + (q[1..][..i - 1] + q[1..][i..]) == q[..i] + q[i + 1..];
    }
  }

  lemma {:induction false} SparedMembers(q: seq<Timer>, killed: set<nat>)
    ensures forall t :: t in Spared(q, killed) <==> t in q && t.ref !in killed
    ensures q != [] && q[0].ref !in killed ==> Spared(q, killed) != [] && Spared(q, killed)[0] == q[0]
    ensures q != [] && q[0].ref !in killed ==> Spared(q, killed)[1..] == Spared(q[1..], killed)
  {
    if q != [] {
      SparedMembers(q[1..], killed);
    }
  }

  // ----- the course of a pass

  /** One firing: the list as the callback is called, with the timer at its head, and what the callback destroys. */
  datatype Firing = Firing(list: seq<Timer>, killed: set<nat>)

  /** The callback destroys its own timer or the one the cursor has been set to. */
  ghost predicate Dangles(f: Firing) {
    && f.list != []
    && (f.list[0].ref in f.killed || (|f.list| > 1 && f.list[1].ref in f.killed))
  }

  function Heads(trail: seq<Firing>): seq<Timer> {
    if trail == [] then []
    else Heads(trail[..|trail| - 1]) + trail[|trail| - 1].list[..if trail[|trail| - 1].list == [] then 0 else 1]
  }

  /** The due timers the pass still has to do, after the first of them fires; none if it was the only one. */
  function Next(q: seq<Timer>, killed: set<nat>, now: int): seq<Timer> {
    if |q| <= 1 then [] else Spared(q[1..], killed) + Back(q[0], now)
  }

  function Left(q: seq<Timer>, trail: seq<Firing>, now: int): seq<Timer> {
    if trail == [] then q
    else Next(Left(q, trail[..|trail| - 1], now), trail[|trail| - 1].killed, now)
  }

  /** Each firing is of the first of the due timers that are left, which are those due in the list at the time. */
  ghost predicate Follows(q: seq<Timer>, trail: seq<Firing>, now: int) {
    forall k :: 0 <= k < |trail| ==> HasTurn(q, trail, k, now)
  }

  ghost predicate HasTurn(q: seq<Timer>, trail: seq<Firing>, k: nat, now: int)
    requires k < |trail|
  {
    DueNow(trail[k].list, now) == Left(q, trail[..k], now) != []
  }

  ghost predicate Killed(trail: seq<Firing>, ref: nat) {
    exists k :: 0 <= k < |trail| && ref in trail[k].killed
  }

  ghost predicate Undisturbed(trail: seq<Firing>) {
    forall k :: 0 <= k < |trail| ==> trail[k].killed == {}
  }

  lemma FollowsMore(q: seq<Timer>, trail: seq<Firing>, f: Firing, now: int)
    requires Follows(q, trail, now) && DueNow(f.list, now) == Left(q, trail, now) != []
    ensures Follows(q, trail + [f], now)
    ensures Left(q, trail + [f], now) == Next(Left(q, trail, now), f.killed, now)
    ensures Heads(trail + [f]) == Heads(trail) + [f.list[0]]
    ensures forall r :: Killed(trail + [f], r) <==> Killed(trail, r) || r in f.killed
  {
    hide DueNow, Next;
    var more, n := trail + [f], |trail|;
    assert more[..n] == trail && more[n] == f;
    forall k | 0 <= k < |more|
      ensures HasTurn(q, more, k, now)
    {
      if k < n {
        assert more[..k] == trail[..k] && HasTurn(q, trail, k, now);
      }
    }
    assert DueNow(f.list, now) != [] ==> f.list != [] by {
      DueHead(f.list, now);
    }
    forall r
      ensures Killed(more, r) <==> Killed(trail, r) || r in f.killed
    {
      if Killed(trail, r) {
        var k :| 0 <= k < n && r in trail[k].killed;
        assert r in more[k].killed;
      }
      if r in f.killed {
        assert r in more[n].killed;
      }
    }
  }

  /** If no callback destroys a timer, the firings are those of the closed form. */
  lemma {:induction false} UndisturbedFirings(q: seq<Timer>, trail: seq<Firing>, now: int)
    requires Positive(q) && Follows(q, trail, now) && Undisturbed(trail)
    ensures Heads(trail) + Firings(Left(q, trail, now), now) == Firings(q, now) && Positive(Left(q, trail, now))
    decreases |trail|
  {
    hide Firings, DueNow, Back;
    if trail == [] {
      assert [] + Firings(q, now) == Firings(q, now);
    } else {
      var n := |trail| - 1;
      var p := trail[..n];
      assert forall k :: 0 <= k < n ==> p[k] == trail[k] && p[..k] == trail[..k];
      assert Follows(q, p, now) by {
        assert forall k :: 0 <= k < n ==> HasTurn(q, trail, k, now) && HasTurn(q, p, k, now);
      }
      UndisturbedFirings(q, p, now);
      assert HasTurn(q, trail, n, now);
      UndisturbedStep(Left(q, p, now), trail[n].list, now);
      var h := trail[n].list[0];
      assert trail[n].list[..1] == [h];
      assert Heads(p) + ([h] + Firings(Left(q, trail, now), now)) == Heads(p) + [h] + Firings(Left(q, trail, now), now);
    }
  }

  lemma UndisturbedStep(q: seq<Timer>, list: seq<Timer>, now: int)
    requires Positive(q) && DueNow(list, now) == q != []
    ensures list != [] && Firings(q, now) == [list[0]] + Firings(Next(q, {}, now), now) && Positive(Next(q, {}, now))
  {
    hide Firings, Back, DueNow;
    DueHead(list, now);
    FiringsStep(q, now);
    NoFirings(now);
    SparedAll(q[1..], {});
    assert forall t <- q[1..] :: t in q;
    assert q[0] in q;
    BackIs(q[0], now);
    assert |q| == 1 ==> [q[0]] + [] == [q[0]];
    assert forall t <- Back(q[0], now) :: t == Back(q[0], now)[0];
  }

  lemma NoFirings(now: int)
    ensures Firings([], now) == []
  {
  }

  lemma UndisturbedRun(before: seq<Timer>, trail: seq<Firing>, now: int)
    requires Sorted(before) && DistinctRefs(before) && Positive(before)
    requires Follows(DueNow(before, now), trail, now)
    ensures Undisturbed(trail) && Left(DueNow(before, now), trail, now) == [] ==>
      && Heads(trail) == Firings(DueNow(before, now), now)
      && forall i :: 0 <= i < |before| ==> Times(Heads(trail), before[i].ref) == Turns(before, i, now)
  {
    hide Sorted, Firings, Left, Heads, Times, Turns, Follows;
    var q := DueNow(before, now);
    if Undisturbed(trail) && Left(q, trail, now) == [] {
      assert forall t <- q :: t in before;
      hide DueNow;
      UndisturbedFirings(q, trail, now);
      NoFirings(now);
      assert Heads(trail) + [] == Heads(trail);
      forall i | 0 <= i < |before|
        ensures Times(Heads(trail), before[i].ref) == Turns(before, i, now)
      {
        TurnsExactly(before, i, now);
      }
    }
  }

  // ----- how often a timer fires, whatever callbacks destroy

  /** How often a timer may still fire in this pass. */
  function Budget(t: Timer, now: int): nat {
    if t.next < now then 2 else if t.next == now then 1 else 0
  }

  function Owed(q: seq<Timer>, ref: nat, now: int): nat {
    if q == [] then 0 else (if q[0].ref == ref then Budget(q[0], now) else 0) + Owed(q[1..], ref, now)
  }

  lemma {:induction false} OwedAdd(p: seq<Timer>, q: seq<Timer>, ref: nat, now: int)
    ensures Owed(p + q, ref, now) == Owed(p, ref, now) + Owed(q, ref, now)
  {
    if p == [] {
      assert p + q == q;
    } else {
      assert (p + q)[1..] == p[1..] + q;
      OwedAdd(p[1..], q, ref, now);
    }
  }

  lemma {:induction false} OwedSpared(q: seq<Timer>, killed: set<nat>, ref: nat, now: int)
    ensures Owed(Spared(q, killed), ref, now) <= Owed(q, ref, now)
  {
    if q != [] {
      OwedSpared(q[1..], killed, ref, now);
      if q[0].ref !in killed {
        assert Spared(q, killed)[1..] == Spared(q[1..], killed);
      }
    }
  }

  lemma {:induction false} OwedEach(q: seq<Timer>, i: nat, now: int)
    requires DistinctRefs(q) && i < |q|
    ensures Owed(q, q[i].ref, now) == Budget(q[i], now)
  {
    assert forall j :: 0 <= j < |q| - 1 ==> q[1..][j] == q[j + 1];
    if i == 0 {
      OwedNone(q[1..], q[0].ref, now);
    } else {
      OwedEach(q[1..], i - 1, now);
    }
  }

  lemma {:induction false} OwedNone(q: seq<Timer>, ref: nat, now: int)
    requires forall t <- q :: t.ref != ref
    ensures Owed(q, ref, now) == 0
  {
    if q != [] {
      assert q[0] in q;
      OwedNone(q[1..], ref, now);
    }
  }

  /** A firing is paid for: a timer that goes back in on this second was overdue. */
  lemma OwedNext(q: seq<Timer>, killed: set<nat>, ref: nat, now: int)
    requires q != [] && q[0].interval >= 1 && q[0].next <= now
    ensures (if q[0].ref == ref then 1 else 0) + Owed(Next(q, killed, now), ref, now) <= Owed(q, ref, now)
  {
    hide Spared;
    var back := Back(q[0], now);
    OwedSpared(q[1..], killed, ref, now);
    OwedAdd(Spared(q[1..], killed), back, ref, now);
    assert back != [] ==> back[1..] == [];
  }

  lemma NextPositive(q: seq<Timer>, killed: set<nat>, now: int)
    requires Positive(q)
    ensures Positive(Next(q, killed, now))
  {
    if |q| > 1 {
      SparedMembers(q[1..], killed);
      assert q[0] in q;
      BackIs(q[0], now);
      hide Spared, Back;
      assert forall t <- q[1..] :: t in q;
      assert forall t <- Back(q[0], now) :: t == Back(q[0], now)[0];
    }
  }

  lemma {:induction false} OwedLeft(q: seq<Timer>, trail: seq<Firing>, ref: nat, now: int)
    requires Positive(q) && Follows(q, trail, now)
    ensures Times(Heads(trail), ref) + Owed(Left(q, trail, now), ref, now) <= Owed(q, ref, now)
    ensures Positive(Left(q, trail, now))
    decreases |trail|
  {
    if trail != [] {
      hide Back, Spared, Owed;
      var n := |trail| - 1;
      var p, list := trail[..n], trail[n].list;
      FollowsLess(q, trail, now);
      OwedLeft(q, p, ref, now);
      var left := Left(q, p, now);
      NextPositive(left, trail[n].killed, now);
      DueHead(list, now);
      assert left[0] in left;
      OwedNext(left, trail[n].killed, ref, now);
      TimesAdd(Heads(p), [list[0]], ref);
      TimesOne(list[0], ref);
    }
  }

  lemma FollowsLess(q: seq<Timer>, trail: seq<Firing>, now: int)
    requires trail != [] && Follows(q, trail, now)
    ensures var n := |trail| - 1;
            && Follows(q, trail[..n], now) && trail[n].list != []
            && DueNow(trail[n].list, now) == Left(q, trail[..n], now) != []
            && Heads(trail) == Heads(trail[..n]) + [trail[n].list[0]]
  {
    hide DueNow, Left;
    var n := |trail| - 1;
    var p := trail[..n];
    forall k | 0 <= k < n
      ensures HasTurn(q, p, k, now)
    {
      assert p[..k] == trail[..k] && HasTurn(q, trail, k, now);
    }
    assert HasTurn(q, trail, n, now);
    DueHead(trail[n].list, now);
    assert trail[n].list[..1] == [trail[n].list[0]];
  }

  lemma {:induction false} StillLeft(q: seq<Timer>, trail: seq<Firing>, t: Timer, now: int)
    requires t in q && Follows(q, trail, now)
    ensures Times(Heads(trail), t.ref) >= 1 || Killed(trail, t.ref) || t in Left(q, trail, now)
    decreases |trail|
  {
    if trail != [] {
      hide Back, Spared, DueNow, Times;
      var n := |trail| - 1;
      var p, list := trail[..n], trail[n].list;
      FollowsLess(q, trail, now);
      StillLeft(q, p, t, now);
      var left := Left(q, p, now);
      DueHead(list, now);
      TimesAdd(Heads(p), [list[0]], t.ref);
      TimesOne(list[0], t.ref);
      if Killed(p, t.ref) {
        var k :| 0 <= k < n && t.ref in p[k].killed;
        assert t.ref in trail[k].killed;
      } else if t in left && t.ref !in trail[n].killed {
        SparedMembers(left[1..], trail[n].killed);
        assert left == [left[0]] + left[1..];
      }
    }
  }

  /**
   In a pass that comes to its end every timer that was due fires, unless a callback destroys it; once if it was
   due on this second, and at most twice if it was overdue.
   */
  lemma TurnsWithin(before: seq<Timer>, trail: seq<Firing>, i: nat, now: int)
    requires Sorted(before) && DistinctRefs(before) && Positive(before) && i < |before|
    requires Follows(DueNow(before, now), trail, now) && Left(DueNow(before, now), trail, now) == []
    ensures
      var t, n := before[i], Times(Heads(trail), before[i].ref);
      n <= Budget(t, now) && (t.next <= now && !Killed(trail, t.ref) ==> n >= 1)
  {
    hide Slot, Times, Heads, Left, Follows, Killed, Sorted;
    var s, t := Slot(before, now), before[i];
    var q := before[..s];
    assert forall x <- q :: x in before;
    OwedLeft(q, trail, t.ref, now);
    SlotLast(before, now);
    if i < s {
      FirstDistinct(before, s);
      OwedEach(q, i, now);
      StillLeft(q, trail, q[i], now);
    } else {
      NotAmong(before, s, i);
      OwedNone(q, t.ref, now);
    }
  }

  /** An input for the other case: two timers, the first of them due, whose callback destroys the second. */
  lemma DestroyNext(ts: seq<Timer>, now: int)
    requires |ts| == 2 && ts[0].next <= now
    ensures Dangles(Firing(ts, {ts[1].ref})) && Follows(DueNow(ts, now), [Firing(ts, {ts[1].ref})], now)
  {
    DueHead(ts, now);
    var trail := [Firing(ts, {ts[1].ref})];
    assert trail[..0] == [];
    assert HasTurn(DueNow(ts, now), trail, 0, now);
  }

  // ----- what callbacks do

  /** What a callback leaves of the list and makes of the histories. */
  ghost predicate CallEffect(ts0: seq<Timer>, lives0: map<nat, Life>, ts: seq<Timer>, lives: map<nat, Life>, now: int,
                             born: set<nat>, killed: set<nat>) {
    && killed <= Refs(ts0) && born * Refs(ts0) <= killed
    && (forall t <- ts0 :: t.ref !in killed ==> t in ts)
    && (forall t <- ts :: (t in ts0 && t.ref !in killed) || t.ref in born)
    && LivesKept(lives0, lives, born, killed)
    && DueNow(ts, now) == Spared(DueNow(ts0, now), killed)
    && Newborn(ts, lives, now, born)
  }

  ghost predicate LivesKept(lives0: map<nat, Life>, lives: map<nat, Life>, born: set<nat>, killed: set<nat>) {
    forall r <- lives0 :: r !in born ==>
      r in lives && lives[r] == if r in killed then lives0[r].(phase := Destroyed) else lives0[r]
  }

  lemma CallStart(ts: seq<Timer>, lives: map<nat, Life>, now: int)
    ensures CallEffect(ts, lives, ts, lives, now, {}, {})
  {
    SparedAll(DueNow(ts, now), {});
  }

  lemma CallMake(ts0: seq<Timer>, lives0: map<nat, Life>, ts: seq<Timer>, lives: map<nat, Life>, now: int,
                 born: set<nat>, killed: set<nat>, t: Timer, made: int)
    requires CallEffect(ts0, lives0, ts, lives, now, born, killed)
    requires SoundList(ts, lives) && Positive(ts) && t.ref !in Refs(ts) && t.interval >= 1 && t.next > now
    ensures CallEffect(ts0, lives0, Insert(ts, t), lives[t.ref := Begun(made, now)], now, born + {t.ref}, killed)
    ensures Positive(Insert(ts, t))
  {
    hide Insert, DueNow, Spared, Refs, Kept;
    InsertMembers(ts, t);
    InsertRefs(ts, t);
    DueInsert(ts, t, now);
    MembersFresh(ts, {t.ref});
    if t.ref in Refs(ts0) && t.ref !in killed {
      RefMember(ts0, t.ref);
      assert false;
    }
    assert DueNow(ts, now) + [] == DueNow(ts, now);
  }

  lemma RefMember(ts: seq<Timer>, ref: nat)
    requires ref in Refs(ts)
    ensures exists x :: x in ts && x.ref == ref
  {
  }

  lemma CallKill(ts0: seq<Timer>, lives0: map<nat, Life>, ts: seq<Timer>, lives: map<nat, Life>, now: int,
                 born: set<nat>, killed: set<nat>, i: nat)
    requires CallEffect(ts0, lives0, ts, lives, now, born, killed)
    requires SoundList(ts, lives) && Positive(ts) && i < |ts|
    ensures ts[i].ref in lives && Positive(Remove(ts, i))
    ensures
      var r := ts[i].ref;
      CallEffect(ts0, lives0, Remove(ts, i), lives[r := lives[r].(phase := Destroyed)], now, born,
                 if r in born then killed else killed + {r})
  {
    hide DueNow, Spared, Refs, Remove;
    var t := ts[i];
    MemberLives(ts, lives, i);
    hide Kept;
    RemoveMembers(ts, i);
    RemoveRefs(ts, i);
    DueRemove(ts, i, now);
    SparedTwice(DueNow(ts0, now), killed, {t.ref});
    assert t in ts;
    if t in ts0 {
      MemberRef(ts0, t);
    }
    forall x | x in ts0 && x.ref == t.ref && t.ref in born
      ensures x.ref in killed
    {
      MemberRef(ts0, x);
    }
  }

  function Times(q: seq<Timer>, ref: nat): nat {
    if q == [] then 0 else (if q[0].ref == ref then 1 else 0) + Times(q[1..], ref)
  }

  /** Some timer that is due and will be due again on this second has another due timer behind it. */
  predicate Rounds(ts: seq<Timer>, now: int) {
    exists j :: 0 <= j < |ts| - 1 && Back(ts[j], now) != [] && ts[j + 1].next <= now
  }

  /** How often a timer fires in a pass. */
  function Turns(ts: seq<Timer>, i: nat, now: int): nat
    requires i < |ts|
  {
    if ts[i].next > now then 0 else if Back(ts[i], now) != [] && Rounds(ts, now) then 2 else 1
  }

  /** What becomes of a timer that fires `n` times; None once it has fired for the last time. */
  function AfterTurns(t: Timer, n: nat, now: int): Option<Timer> {
    if n == 0 then Some(t)
    else
      match AfterTurns(t, n - 1, now)
      case None => None
      case Some(u) => if Last(u) then None else Some(Rearmed(u, now))
  }

  /** What firing `n` times, or being destroyed by a callback, does to a timer that was in the list. */
  ghost predicate PassEffect(t: Timer, n: nat, killed: bool, l0: Life, l: Life, ts: seq<Timer>, now: int) {
    && l.made == l0.made && l.start == l0.start && l.fired == l0.fired + n && l0.phase == Live
    && l.slip == l0.slip + (if n == 0 then 0 else Behind(t, now))
    && match AfterTurns(t, n, now)
       case Some(u) => if killed then l.phase == Destroyed && t.ref !in Refs(ts) else l.phase == Live && u in ts
       case None => !killed && l.phase == Expired && t.ref !in Refs(ts)
  }

  /** Timers made in a pass have not fired and are not due; one that is no longer in the list was destroyed. */
  ghost predicate Newborn(ts: seq<Timer>, lives: map<nat, Life>, now: int, born: set<nat>) {
    && (forall r <- born :: r in lives && lives[r].fired == 0 && (lives[r].phase == Destroyed || r in Refs(ts)))
    && (forall u <- ts :: u.ref in born ==> u.next > now)
  }

  /** The account of a pass: every timer that was there has fired as often as the trail says, with its effect. */
  ghost predicate Tracked(before: seq<Timer>, lives0: map<nat, Life>, ts: seq<Timer>, lives: map<nat, Life>, now: int,
                          born: set<nat>, trail: seq<Firing>) {
    && Newborn(ts, lives, now, born)
    && forall t <- before :: t.ref !in born ==>
         && t.ref in lives0 && t.ref in lives
         && PassEffect(t, Times(Heads(trail), t.ref), Killed(trail, t.ref), lives0[t.ref], lives[t.ref], ts, now)
  }

  /** No due timer is left to do, and nothing is overdue. */
  ghost predicate Over(ts: seq<Timer>, now: int, left: seq<Timer>) {
    left == [] && forall u <- ts :: u.next >= now
  }

  /** A due timer under the cursor is the head of the list; any other cursor means the pass is over. */
  ghost predicate AtCursor(ts: seq<Timer>, tep: Option<nat>, now: int, left: seq<Timer>) {
    match tep
    case None => Over(ts, now, left)
    case Some(ref) => exists k :: 0 <= k < |ts| && ts[k].ref == ref && CursorAt(ts, k, now, left)
  }

  ghost predicate CursorAt(ts: seq<Timer>, k: nat, now: int, left: seq<Timer>)
    requires k < |ts|
  {
    if ts[k].next <= now then k == 0 && DueNow(ts, now) == left != [] else Over(ts, now, left)
  }

  /** What is known at each turn of the loop. */
  ghost predicate Passing(before: seq<Timer>, lives0: map<nat, Life>, ts: seq<Timer>, lives: map<nat, Life>,
                         tep: Option<nat>, now: int, born: set<nat>, trail: seq<Firing>) {
    var q := DueNow(before, now);
    && Sorted(before) && DistinctRefs(before) && Positive(before)
    && Tracked(before, lives0, ts, lives, now, born, trail)
    && AtCursor(ts, tep, now, Left(q, trail, now))
    && Follows(q, trail, now) && (forall k :: 0 <= k < |trail| ==> !Dangles(trail[k]))
    && if trail == [] then ts == before else trail[0].list == before
  }

  lemma PassingStart(ts: seq<Timer>, lives: map<nat, Life>, now: int)
    requires SoundList(ts, lives) && Positive(ts)
    ensures Passing(ts, lives, ts, lives, if ts == [] then None else Some(ts[0].ref), now, {}, [])
  {
    forall t | t in ts
      ensures t.ref in lives && lives[t.ref].phase == Live
    {
    }
    assert forall r :: !Killed([], r);
    DueHead(ts, now);
    if ts != [] {
      assert CursorAt(ts, 0, now, DueNow(ts, now));
    }
  }

  lemma PassingFound(before: seq<Timer>, lives0: map<nat, Life>, ts: seq<Timer>, lives: map<nat, Life>, ref: nat,
                    now: int, born: set<nat>, trail: seq<Firing>)
    requires SoundList(ts, lives) && Passing(before, lives0, ts, lives, Some(ref), now, born, trail)
    ensures var k := Find(ts, ref); k < |ts| && (ts[k].next <= now ==> k == 0)
    ensures
      var q := DueNow(before, now);
      ts[Find(ts, ref)].next <= now ==> DueNow(ts, now) == Left(q, trail, now) != []
  {
    hide SoundList, Tracked, Follows, Left, DueNow;
    CursorFound(ts, lives, ref, now, Left(DueNow(before, now), trail, now));
  }

  lemma PassingFault(before: seq<Timer>, lives0: map<nat, Life>, ts: seq<Timer>, lives: map<nat, Life>, ref: nat,
                    now: int, born: set<nat>, trail: seq<Firing>, killed: set<nat>)
    requires Passing(before, lives0, ts, lives, Some(ref), now, born, trail)
    requires DueNow(ts, now) == Left(DueNow(before, now), trail, now) != [] && Dangles(Firing(ts, killed))
    ensures
      var more := trail + [Firing(ts, killed)];
      && Follows(DueNow(before, now), more, now) && more[0].list == before && !Undisturbed(more)
      && exists k :: 0 <= k < |more| && Dangles(more[k])
  {
    hide Tracked, AtCursor, Left, DueNow, Follows;
    var more := trail + [Firing(ts, killed)];
    FollowsMore(DueNow(before, now), trail, Firing(ts, killed), now);
    assert Dangles(more[|trail|]);
  }

  lemma PassingFire(before: seq<Timer>, lives0: map<nat, Life>, ts: seq<Timer>, lives: map<nat, Life>,
                   ts': seq<Timer>, lives': map<nat, Life>, now: int, born: set<nat>, newborn: set<nat>,
                   trail: seq<Firing>, killed: set<nat>)
    requires SoundList(ts, lives) && Positive(ts) && ts != [] && ts[0].next <= now && ts[0].ref in lives
    requires Passing(before, lives0, ts, lives, Some(ts[0].ref), now, born, trail)
    requires DueNow(ts, now) == Left(DueNow(before, now), trail, now) != [] && !Dangles(Firing(ts, killed))
    requires killed <= Refs(ts) && newborn * Refs(ts) <= killed
    requires Fired(ts, ts', now, newborn, killed) && LivesFired(lives, lives', ts[0], now, newborn, killed)
    requires Newborn(ts', lives', now, newborn)
    ensures Passing(before, lives0, ts', lives', if |ts| > 1 then Some(ts[1].ref) else None, now, born + newborn,
                   trail + [Firing(ts, killed)])
  {
    hide SoundList, Fired, LivesFired, Newborn, Tracked, AtCursor, Left, DueNow, Follows, Heads, Killed;
    var q, f := DueNow(before, now), Firing(ts, killed);
    FollowsMore(q, trail, f, now);
    TrackFire(before, lives0, ts, lives, ts', lives', now, born, newborn, trail, f);
    CursorMoves(ts, lives, ts', now, newborn, killed, Left(q, trail, now));
  }

  lemma PassingEnd(before: seq<Timer>, lives0: map<nat, Life>, ts: seq<Timer>, lives: map<nat, Life>, tep: Option<nat>,
                  now: int, born: set<nat>, trail: seq<Firing>)
    requires SoundList(ts, lives) && Passing(before, lives0, ts, lives, tep, now, born, trail)
    requires tep.Some? ==> var k := Find(ts, tep.value); k < |ts| && ts[k].next > now
    ensures Tracked(before, lives0, ts, lives, now, born, trail) && forall u <- ts :: u.next >= now
    ensures Follows(DueNow(before, now), trail, now) && Left(DueNow(before, now), trail, now) == []
    ensures trail != [] ==> trail[0].list == before
    ensures forall k :: 0 <= k < |trail| ==> !Dangles(trail[k])
    ensures Undisturbed(trail) ==>
      && Heads(trail) == Firings(DueNow(before, now), now)
      && forall i :: 0 <= i < |before| ==> Times(Heads(trail), before[i].ref) == Turns(before, i, now)
  {
    hide SoundList, Tracked, AtCursor, Left, DueNow, Follows;
    PassEnd(ts, lives, tep, now, Left(DueNow(before, now), trail, now));
    UndisturbedRun(before, trail, now);
  }

  lemma CursorFound(ts: seq<Timer>, lives: map<nat, Life>, ref: nat, now: int, left: seq<Timer>)
    requires SoundList(ts, lives) && AtCursor(ts, Some(ref), now, left)
    ensures var k := Find(ts, ref); k < |ts| && CursorAt(ts, k, now, left)
  {
    var k :| 0 <= k < |ts| && ts[k].ref == ref && CursorAt(ts, k, now, left);
    FindIs(ts, k);
  }

  lemma {:induction false} TimesAdd(p: seq<Timer>, q: seq<Timer>, ref: nat)
    ensures Times(p + q, ref) == Times(p, ref) + Times(q, ref)
  {
    if p == [] {
      assert p + q == q;
    } else {
      assert (p + q)[1..] == p[1..] + q;
      TimesAdd(p[1..], q, ref);
    }
  }

  /** One timer after one firing, its own or another's. */
  lemma EffectFire(t: Timer, n: nat, dead: bool, l0: Life, ts: seq<Timer>, lives: map<nat, Life>,
                   ts': seq<Timer>, lives': map<nat, Life>, now: int, newborn: set<nat>, killed: set<nat>)
    requires SoundList(ts, lives) && ts != [] && ts[0].ref in lives && t.ref in lives && t.ref !in newborn
    requires Fired(ts, ts', now, newborn, killed) && LivesFired(lives, lives', ts[0], now, newborn, killed)
    requires killed <= Refs(ts) && ts[0].ref !in killed
    requires PassEffect(t, n, dead, l0, lives[t.ref], ts, now) && t.interval >= 1
    ensures t.ref in lives'
    ensures PassEffect(t, n + if t.ref == ts[0].ref then 1 else 0, dead || t.ref in killed, l0, lives'[t.ref], ts', now)
  {
    hide Kept, Sorted, DueNow, Refs, Rearmed, Last, Behind;
    TurnsBehind(t, n, now);
    RestDiffers(ts);
    TurnsRef(t, n, now);
    RefsAfterFire(ts, ts', now, newborn, killed, t.ref);
    assert ts[0].ref in Refs(ts) by {
      MemberRef(ts, ts[0]);
    }
    match AfterTurns(t, n, now)
    case None =>
    case Some(u) =>
      if t.ref == ts[0].ref && !dead {
        assert u == ts[0];
      }
  }

  /** Only the first firing of a pass can come more than an interval late. */
  lemma {:induction false} TurnsBehind(t: Timer, n: nat, now: int)
    requires t.interval >= 0
    ensures AfterTurns(t, n, now).Some? ==>
              var u := AfterTurns(t, n, now).value; u.interval == t.interval && (n > 0 ==> Behind(u, now) == 0)
  {
    if n > 0 {
      TurnsBehind(t, n - 1, now);
    }
  }

  /**
   A timer that fires n times and stays is due n intervals later, however late the pass.  But if it came more than an
   interval late, the intervals are counted from the pass.
   */
  function Later(t: Timer, n: nat, now: int): Timer {
    Timer(t.ref,
          if t.reps == TIMER_REPEAT then t.reps else t.reps - n,
          t.interval,
          if n == 0 || now <= t.next + t.interval then t.next + n * t.interval else now + n * t.interval)
  }

  lemma {:induction false} AfterTurnsIsLater(t: Timer, n: nat, now: int)
    requires t.interval >= 0 && (t.reps == TIMER_REPEAT || t.reps >= 0)
    ensures AfterTurns(t, n, now) == if t.reps == TIMER_REPEAT || n <= t.reps then Some(Later(t, n, now)) else None
  {
    if n > 0 {
      AfterTurnsIsLater(t, n - 1, now);
      OneMore(n, t.interval);
    }
  }

  lemma OneMore(n: nat, interval: int)
    requires n > 0
    ensures n * interval == (n - 1) * interval + interval && (interval >= 0 ==> n * interval >= interval)
  {
    if n > 1 && interval >= 0 {
      assert (n - 1) * interval >= 0;
    }
  }

  /** Where a timer is after a pass in which it fired n times: at its new time, destroyed, or used up. */
  ghost predicate OnSchedule(t: Timer, n: nat, killed: bool, ts: seq<Timer>, now: int) {
    if killed then t.ref !in Refs(ts)
    else if t.reps == TIMER_REPEAT || n <= t.reps then Later(t, n, now) in ts
    else n == t.reps + 1 && t.ref !in Refs(ts)
  }

  /** No drift. */
  lemma AllOnSchedule(before: seq<Timer>, lives0: map<nat, Life>, ts: seq<Timer>, lives: map<nat, Life>, now: int,
                      born: set<nat>, trail: seq<Firing>)
    requires SoundList(before, lives0) && SoundList(ts, lives) && Positive(before)
    requires Tracked(before, lives0, ts, lives, now, born, trail)
    ensures forall t <- before :: t.ref !in born ==>
              OnSchedule(t, Times(Heads(trail), t.ref), Killed(trail, t.ref), ts, now)
  {
    hide Heads, Times, Killed, Newborn, Later, Sorted, DistinctRefs, DueAt, Refs;
    forall t | t in before && t.ref !in born
      ensures OnSchedule(t, Times(Heads(trail), t.ref), Killed(trail, t.ref), ts, now)
    {
      var n := Times(Heads(trail), t.ref);
      AfterTurnsIsLater(t, n, now);
    }
  }

  /**
   Over any run: the next firing of a timer is due a whole number of intervals after its start, one for each firing
   so far and one more, exactly if no pass came more than an interval late, which alone moves it.
   */
  lemma NoDrift(ts: seq<Timer>, lives: map<nat, Life>, t: Timer)
    requires SoundList(ts, lives) && t in ts
    ensures t.ref in lives
    ensures var l := lives[t.ref]; l.slip == 0 <==> t.next == l.start + (l.fired + 1) * t.interval
  {
    var i :| 0 <= i < |ts| && ts[i] == t;
    MemberLives(ts, lives, i);
  }

  lemma TurnsRef(t: Timer, n: nat, now: int)
    ensures AfterTurns(t, n, now).Some? ==> AfterTurns(t, n, now).value.ref == t.ref
  {
  }

  lemma RefsAfterFire(ts: seq<Timer>, ts': seq<Timer>, now: int, newborn: set<nat>, killed: set<nat>, ref: nat)
    requires ts != [] && DistinctRefs(ts) && Fired(ts, ts', now, newborn, killed) && ref !in newborn
    requires ts[0].ref !in killed
    ensures ref !in Refs(ts) || ref in killed ==> ref !in Refs(ts')
    ensures ref == ts[0].ref && Last(ts[0]) ==> ref !in Refs(ts')
  {
    hide DueNow, Last;
    RestDiffers(ts);
    if ref in Refs(ts') {
      var i :| 0 <= i < |ts'| && ts'[i].ref == ref;
      assert ts'[i] in ts';
    }
  }

  lemma TrackFire(before: seq<Timer>, lives0: map<nat, Life>, ts: seq<Timer>, lives: map<nat, Life>,
                  ts': seq<Timer>, lives': map<nat, Life>, now: int, born: set<nat>, newborn: set<nat>,
                  trail: seq<Firing>, f: Firing)
    requires SoundList(ts, lives) && ts != [] && ts[0].next <= now && ts[0].ref in lives
    requires f.list == ts && f.killed <= Refs(ts) && newborn * Refs(ts) <= f.killed && ts[0].ref !in f.killed
    requires Fired(ts, ts', now, newborn, f.killed) && LivesFired(lives, lives', ts[0], now, newborn, f.killed)
    requires Tracked(before, lives0, ts, lives, now, born, trail) && Newborn(ts', lives', now, newborn)
    requires Positive(before)
    requires Heads(trail + [f]) == Heads(trail) + [ts[0]]
    requires forall r :: Killed(trail + [f], r) <==> Killed(trail, r) || r in f.killed
    ensures Tracked(before, lives0, ts', lives', now, born + newborn, trail + [f])
  {
    hide SoundList, Fired, LivesFired, PassEffect, Times, Newborn, Heads, Killed;
    forall t | t in before && t.ref !in born + newborn
      ensures t.ref in lives'
      ensures PassEffect(t, Times(Heads(trail + [f]), t.ref), Killed(trail + [f], t.ref), lives0[t.ref],
                         lives'[t.ref], ts', now)
    {
      TimesAdd(Heads(trail), [ts[0]], t.ref);
      TimesOne(ts[0], t.ref);
      EffectFire(t, Times(Heads(trail), t.ref), Killed(trail, t.ref), lives0[t.ref], ts, lives, ts', lives', now,
                 newborn, f.killed);
    }
    NewbornFire(ts, lives, ts', lives', now, born, newborn, f.killed);
  }

  lemma TimesOne(t: Timer, ref: nat)
    ensures Times([t], ref) == if t.ref == ref then 1 else 0
  {
    assert [t][1..] == [];
  }

  lemma NewbornFire(ts: seq<Timer>, lives: map<nat, Life>, ts': seq<Timer>, lives': map<nat, Life>, now: int,
                    born: set<nat>, newborn: set<nat>, killed: set<nat>)
    requires SoundList(ts, lives) && ts != [] && ts[0].next <= now && ts[0].ref in lives
    requires killed <= Refs(ts) && newborn * Refs(ts) <= killed && ts[0].ref !in killed
    requires Fired(ts, ts', now, newborn, killed) && LivesFired(lives, lives', ts[0], now, newborn, killed)
    requires Newborn(ts, lives, now, born) && Newborn(ts', lives', now, newborn)
    ensures Newborn(ts', lives', now, born + newborn)
  {
    hide Kept, Sorted, DueNow, Last, Rearmed;
    RestDiffers(ts);
    RearmedRef(ts[0], now);
    assert ts[0] in ts && ts[0].ref !in born;
    MemberRef(ts, ts[0]);
    forall r | r in born && r !in newborn
      ensures r in lives' && lives'[r].fired == 0 && (lives'[r].phase == Destroyed || r in Refs(ts'))
    {
      if r in Refs(ts) && r !in killed {
        var i :| 0 <= i < |ts| && ts[i].ref == r;
        assert ts[i] in ts && ts[i] in ts';
        MemberRef(ts', ts[i]);
      }
    }
  }

  lemma RestDiffers(ts: seq<Timer>)
    requires ts != [] && DistinctRefs(ts)
    ensures forall x <- ts[1..] :: x in ts && x.ref != ts[0].ref
    ensures forall x <- ts :: x == ts[0] || x in ts[1..]
  {
    assert ts == [ts[0]] + ts[1..];
  }

  lemma MembersFresh(ts: seq<Timer>, newborn: set<nat>)
    requires newborn !! Refs(ts)
    ensures forall x <- ts :: x.ref !in newborn
  {
    forall x | x in ts
      ensures x.ref !in newborn
    {
      MemberRef(ts, x);
    }
  }

  /** The first due timer fires, and the pass goes on with the rest, if another is due. */
  lemma FiringsStep(q: seq<Timer>, now: int)
    requires q != [] && forall t <- q :: t.interval >= 1
    ensures Firings(q, now) == [q[0]] + if |q| == 1 then [] else Firings(q[1..] + Back(q[0], now), now)
  {
    hide Firings, Back, Backs;
    if |q| == 1 {
      OneFiring(q[0], now);
      assert q == [q[0]];
    } else if Back(q[0], now) == [] {
      NotAgain(q, now);
      assert q[1..] + [] == q[1..];
    } else {
      assert q[0] in q;
      BackIs(q[0], now);
      AgainAtEnd(q, Back(q[0], now)[0], now);
    }
  }

  lemma OneFiring(t: Timer, now: int)
    ensures Firings([t], now) == [t]
  {
    var none: seq<Timer> := [];
    assert [t][..0] == none && [t] + none == [t];
  }

  lemma NotAgain(q: seq<Timer>, now: int)
    requires |q| > 1 && Back(q[0], now) == []
    ensures Firings(q, now) == [q[0]] + Firings(q[1..], now)
  {
    hide Back;
    var rest, n := q[1..], |q| - 1;
    assert q[..n][0] == q[0] && q[..n][1..] == rest[..n - 1];
    assert Backs(q[..n], now) == Backs(rest[..n - 1], now);
    assert Backs(q, now) == Backs(rest, now);
    assert q == [q[0]] + rest;
  }

  lemma BackIs(t: Timer, now: int)
    requires t.interval >= 1
    ensures |Back(t, now)| <= 1
    ensures Back(t, now) != [] ==> Back(t, now)[0].next == now && Back(t, now)[0].interval >= 1
  {
  }

  lemma AgainAtEnd(q: seq<Timer>, t: Timer, now: int)
    requires |q| > 1 && Back(q[0], now) == [t] && t.next == now && t.interval >= 1
    ensures Firings(q, now) == [q[0]] + Firings(q[1..] + [t], now)
  {
    hide Back, Backs;
    var rest, n := q[1..], |q| - 1;
    BacksHead(q, now);
    BacksHead(q[..n], now);
    assert q[..n][0] == q[0];
    LastAgain(rest, t, now);
    assert (rest + [t])[..|rest|] == rest;
    Around(q, t, Backs(rest, now));
  }

  lemma BacksHead(q: seq<Timer>, now: int)
    requires q != []
    ensures Backs(q, now) == Back(q[0], now) + Backs(q[1..], now)
  {
  }

  lemma LastAgain(rest: seq<Timer>, t: Timer, now: int)
    requires t.next == now && t.interval >= 1
    ensures Backs(rest + [t], now) == Backs(rest, now)
  {
    var none: seq<Timer> := [];
    BacksAdd(rest, [t], now);
    assert [t][1..] == none && Backs([t], now) == none;
  }

  lemma Around(q: seq<Timer>, t: Timer, b: seq<Timer>)
    requires q != []
    ensures q + ([t] + b) == [q[0]] + (q[1..] + [t] + b)
    ensures b == [] ==> q[1..] + [t] + b == q[1..] + [t]
  {
  }

  lemma {:induction false} BacksAdd(p: seq<Timer>, q: seq<Timer>, now: int)
    ensures Backs(p + q, now) == Backs(p, now) + Backs(q, now)
  {
    if p == [] {
      assert p + q == q;
    } else {
      assert (p + q)[1..] == p[1..] + q;
      BacksAdd(p[1..], q, now);
    }
  }

  lemma CursorMoves(ts: seq<Timer>, lives: map<nat, Life>, ts': seq<Timer>, now: int, newborn: set<nat>,
                    killed: set<nat>, left: seq<Timer>)
    requires SoundList(ts, lives) && Positive(ts) && ts != [] && ts[0].next <= now
    requires Fired(ts, ts', now, newborn, killed) && !Dangles(Firing(ts, killed))
    requires DueNow(ts, now) == left
    ensures AtCursor(ts', if |ts| > 1 then Some(ts[1].ref) else None, now, Next(left, killed, now)) && Positive(ts')
  {
    hide Kept, Last, Rearmed, Sorted, DistinctRefs, Back, DueNow, Spared;
    if |ts| > 1 && ts[1].next <= now {
      FirstOfMore(ts, now);
      SparedMembers(left[1..], killed);
      DueHead(ts, now);
      DueHead(ts', now);
      assert DueNow(ts', now)[0] == Spared(left[1..], killed)[0] == ts[1];
      assert CursorAt(ts', 0, now, Next(left, killed, now));
    } else {
      DueNowIs(ts, now, 1);
      OverAfter(ts, ts', now, newborn, killed);
      if |ts| > 1 {
        assert ts[1] in ts[1..];
        var k :| 0 <= k < |ts'| && ts'[k] == ts[1];
        assert CursorAt(ts', k, now, Next(left, killed, now));
      }
    }
  }

  lemma FirstOfMore(ts: seq<Timer>, now: int)
    requires |ts| > 1 && ts[0].next <= now && ts[1].next <= now
    ensures |DueNow(ts, now)| > 1 && DueNow(ts, now)[1] == ts[1]
  {
  }

  lemma OverAfter(ts: seq<Timer>, ts': seq<Timer>, now: int, newborn: set<nat>, killed: set<nat>)
    requires ts != [] && Sorted(ts) && Positive(ts) && ts[0].next <= now && (|ts| > 1 ==> ts[1].next > now)
    requires Fired(ts, ts', now, newborn, killed)
    ensures forall u <- ts' :: u.next >= now
  {
    assert ts[0] in ts;
    forall u | u in ts'
      ensures u.next >= now
    {
      if u in ts[1..] {
        var i :| 0 <= i < |ts[1..]| && ts[1..][i] == u;
        assert u == ts[i + 1];
      }
    }
  }

  lemma DueShrinks(ts: seq<Timer>, lives: map<nat, Life>, ts': seq<Timer>, now: int, newborn: set<nat>,
                   killed: set<nat>)
    requires SoundList(ts, lives) && ts != [] && ts[0].next <= now && Fired(ts, ts', now, newborn, killed)
    ensures
      || Due(ts', now - 1) < Due(ts, now - 1)
      || (Due(ts', now - 1) <= Due(ts, now - 1) && Due(ts', now) < Due(ts, now))
  {
    hide Kept;
    RestDiffers(ts);
    assert ts[0] in ts;
    var x := if ts[0].next < now then now - 1 else now;
    forall y | now - 1 <= y <= now
      ensures Due(ts', y) - {ts[0].ref} <= Due(ts, y)
      ensures ts[0].next <= y <= x ==> ts[0].ref in Due(ts, y) && ts[0].ref !in Due(ts', y)
    {
    }
  }

  lemma PassEnd(ts: seq<Timer>, lives: map<nat, Life>, tep: Option<nat>, now: int, left: seq<Timer>)
    requires SoundList(ts, lives) && AtCursor(ts, tep, now, left)
    requires tep.Some? ==> var k := Find(ts, tep.value); k < |ts| && ts[k].next > now
    ensures left == [] && forall u <- ts :: u.next >= now
  {
    hide Kept;
    if tep.Some? {
      CursorFound(ts, lives, tep.value, now, left);
    }
  }

  // ----- how often a timer fires

  lemma {:induction false} TimesNone(q: seq<Timer>, ref: nat, now: int)
    requires forall t <- q :: t.ref != ref
    ensures Times(q, ref) == 0 && Times(Backs(q, now), ref) == 0
  {
    if q != [] {
      assert q[0] in q;
      TimesNone(q[1..], ref, now);
      TimesAdd(Back(q[0], now), Backs(q[1..], now), ref);
    }
  }

  lemma {:induction false} TimesEach(q: seq<Timer>, i: nat, now: int)
    requires DistinctRefs(q) && i < |q|
    ensures Times(q, q[i].ref) == 1 && Times(Backs(q, now), q[i].ref) == |Back(q[i], now)|
  {
    TimesAdd(Back(q[0], now), Backs(q[1..], now), q[i].ref);
    assert forall j :: 0 <= j < |q| - 1 ==> q[1..][j] == q[j + 1];
    var back := Back(q[0], now);
    assert |back| == 1 ==> back[1..] == [];
    if i == 0 {
      TimesNone(q[1..], q[0].ref, now);
    } else {
      TimesEach(q[1..], i - 1, now);
    }
  }

  lemma {:induction false} BacksNone(q: seq<Timer>, now: int)
    ensures Backs(q, now) == [] <==> forall j :: 0 <= j < |q| ==> Back(q[j], now) == []
  {
    if q != [] {
      BacksNone(q[1..], now);
      assert forall j :: 0 <= j < |q| - 1 ==> q[1..][j] == q[j + 1];
      if Backs(q[1..], now) != [] {
        var j :| 0 <= j < |q| - 1 && Back(q[1..][j], now) != [];
        assert Back(q[j + 1], now) != [];
      }
    }
  }

  /** A due timer fires twice exactly if it is due again on this second and so is one with a due timer behind it. */
  lemma TurnsExactly(ts: seq<Timer>, i: nat, now: int)
    requires Sorted(ts) && DistinctRefs(ts) && i < |ts|
    ensures Times(Firings(DueNow(ts, now), now), ts[i].ref) == Turns(ts, i, now)
  {
    hide Sorted, Backs, Last, Rearmed, Rounds;
    var q := DueNow(ts, now);
    var n := |q|;
    if n == 0 {
      SortedLater(ts, n, i, now);
    } else {
      RoundsInQueue(ts, q, q[..n - 1], now);
      TimesAdd(q, Backs(q, now), ts[i].ref);
      if i < n {
        TimesEach(q, i, now);
      } else {
        SortedLater(ts, n, i, now);
        TimesNone(q, ts[i].ref, now);
      }
      assert q + [] == q;
    }
  }

  lemma SortedLater(ts: seq<Timer>, n: nat, i: nat, now: int)
    requires Sorted(ts) && n <= i < |ts| && ts[n].next > now
    ensures ts[i].next > now
  {
  }

  lemma RoundsInQueue(ts: seq<Timer>, q: seq<Timer>, p: seq<Timer>, now: int)
    requires Sorted(ts) && q == DueNow(ts, now) && q != [] && p == q[..|q| - 1]
    ensures Rounds(ts, now) <==> Backs(p, now) != []
  {
    hide Back, Backs;
    BacksNone(p, now);
    if Rounds(ts, now) {
      var j :| 0 <= j < |ts| - 1 && Back(ts[j], now) != [] && ts[j + 1].next <= now;
      assert j + 1 < |q|;
      assert p[j] == ts[j];
    }
    if j :| 0 <= j < |p| && Back(p[j], now) != [] {
      assert ts[j] == p[j] && ts[j + 1] == q[j + 1];
    }
  }

  lemma SoundHead(ts: seq<Timer>, lives: map<nat, Life>)
    requires SoundList(ts, lives) && ts != []
    ensures ts[0].ref in Refs(ts) && ts[0].ref in lives && lives[ts[0].ref].phase == Live
  {
    assert ts[0] in ts;
  }

  function AfterFiring(l: Life, t: Timer, now: int): Life {
    Life(l.made, l.start, l.fired + 1, l.slip + Behind(t, now), if Last(t) then Expired else Live)
  }

  lemma FiredLast(ts: seq<Timer>, rest: seq<Timer>, now: int, born: set<nat>, killed: set<nat>)
    requires ts != [] && Last(ts[0]) && HeadGone(ts, rest, now, born, killed)
    ensures Fired(ts, rest, now, born, killed) && Positive(rest)
  {
    hide DueNow, Spared;
    assert DueNow(rest, now) + [] == DueNow(rest, now);
  }

  lemma FiredAgain(ts: seq<Timer>, rest: seq<Timer>, now: int, born: set<nat>, killed: set<nat>)
    requires ts != [] && !Last(ts[0]) && HeadGone(ts, rest, now, born, killed) && Sorted(rest)
    requires ts[0].interval >= 1 && ts[0].next <= now
    ensures Fired(ts, Insert(rest, Rearmed(ts[0], now)), now, born, killed)
    ensures Positive(Insert(rest, Rearmed(ts[0], now)))
  {
    hide Insert, Sorted, DueNow, Last, Spared;
    InsertMembers(rest, Rearmed(ts[0], now));
    DueInsert(rest, Rearmed(ts[0], now), now);
    assert DueNow(rest, now) + [] == DueNow(rest, now);
  }

  /** The list once the fired timer is out of it. */
  ghost predicate HeadGone(ts: seq<Timer>, rest: seq<Timer>, now: int, born: set<nat>, killed: set<nat>)
    requires ts != []
  {
    && (forall x <- ts[1..] :: x.ref !in killed ==> x in rest)
    && (forall y <- rest :: (y in ts[1..] && y.ref !in killed) || (y.ref in born && y.next > now))
    && Positive(rest) && DueNow(ts, now) != [] && DueNow(rest, now) == Spared(DueNow(ts, now)[1..], killed)
  }

  /** What is left of the list, and what is new in it, after its head has fired. */
  ghost predicate Fired(ts: seq<Timer>, ts': seq<Timer>, now: int, born: set<nat>, killed: set<nat>)
    requires ts != []
  {
    && (forall x <- ts[1..] :: x.ref !in killed ==> x in ts')
    && (forall y <- ts' ::
          || (y in ts[1..] && y.ref !in killed)
          || (y.ref in born && y.next > now)
          || (!Last(ts[0]) && y == Rearmed(ts[0], now)))
    && (!Last(ts[0]) ==> Rearmed(ts[0], now) in ts')
    && Positive(ts') && DueNow(ts, now) != []
    && DueNow(ts', now) == Spared(DueNow(ts, now)[1..], killed) + Back(ts[0], now)
  }

  ghost predicate LivesFired(lives: map<nat, Life>, lives': map<nat, Life>, t: Timer, now: int, born: set<nat>,
                             killed: set<nat>)
    requires t.ref in lives
  {
    && (forall r <- lives :: r !in born && r != t.ref ==>
          r in lives' && lives'[r] == if r in killed then lives[r].(phase := Destroyed) else lives[r])
    && t.ref in lives'
    && lives'[t.ref] == AfterFiring(lives[t.ref], t, now)
  }

  lemma KeptRearm(ts: seq<Timer>, lives: map<nat, Life>, t': Timer, l: Life)
    requires ts != [] && DistinctRefs(ts) && Kept(ts, lives) && t'.ref == ts[0].ref && Accounts(t', l)
    ensures Kept(Insert(Remove(ts, 0), t'), lives[t'.ref := l])
  {
    hide Insert, Remove;
    var dead := Begun(0, 0).(phase := Destroyed);
    KeptRemove(ts, lives, 0, dead);
    RemoveRefs(ts, 0);
    KeptInsert(Remove(ts, 0), lives[t'.ref := dead], t', l);
    assert lives[t'.ref := dead][t'.ref := l] == lives[t'.ref := l];
  }

  /** After the callback the fired timer, if not destroyed, is still at the head, and the due ones behind it. */
  lemma HeadRest(ts0: seq<Timer>, lives0: map<nat, Life>, ts1: seq<Timer>, lives1: map<nat, Life>, now: int,
                 born: set<nat>, killed: set<nat>)
    requires SoundList(ts0, lives0) && SoundList(ts1, lives1) && Positive(ts1)
    requires ts0 != [] && ts0[0].next <= now && ts0[0].ref !in killed
    requires CallEffect(ts0, lives0, ts1, lives1, now, born, killed)
    ensures ts1 != [] && ts1[0] == ts0[0] && ts0[0].ref !in born && killed <= Refs(ts0) && born * Refs(ts0) <= killed
    ensures HeadGone(ts0, Remove(ts1, 0), now, born, killed) && Sorted(Remove(ts1, 0))
    ensures forall x :: x in Remove(ts1, 0) <==> x in ts1 && x.ref != ts1[0].ref
    ensures Newborn(ts1, lives1, now, born)
    ensures
      var t := ts0[0];
      && t.ref in lives0 && t.ref in lives1
      && LivesFired(lives0, lives1[t.ref := AfterFiring(lives1[t.ref], t, now)], t, now, born, killed)
  {
    hide Kept, Sorted, DistinctRefs, Refs, DueNow, Spared, Last;
    SoundHead(ts0, lives0);
    DueHead(ts0, now);
    DueHead(ts1, now);
    SparedMembers(DueNow(ts0, now), killed);
    RemoveMembers(ts1, 0);
    RestDiffers(ts0);
    assert Remove(ts1, 0) == ts1[1..];
    DueRest(ts1, now);
  }

  lemma DueHead(ts: seq<Timer>, now: int)
    ensures DueNow(ts, now) == [] <==> ts == [] || ts[0].next > now
    ensures DueNow(ts, now) != [] ==> DueNow(ts, now)[0] == ts[0]
  {
  }

  lemma DueRest(ts: seq<Timer>, now: int)
    requires Sorted(ts) && ts != [] && ts[0].next <= now
    ensures Sorted(ts[1..]) && DueNow(ts[1..], now) == DueNow(ts, now)[1..]
  {
    var s := Slot(ts, now);
    DueNowIs(ts[1..], now, s - 1);
  }

  /** Only the timer at the head is changed or gone. */
  lemma NewbornStays(ts: seq<Timer>, lives: map<nat, Life>, ts': seq<Timer>, now: int, born: set<nat>, l: Life)
    requires Newborn(ts, lives, now, born) && ts != [] && ts[0].ref !in born
    requires forall x <- ts :: x.ref != ts[0].ref ==> x in ts'
    requires forall u <- ts' :: u in ts || u.ref == ts[0].ref
    ensures Newborn(ts', lives[ts[0].ref := l], now, born)
  {
    forall r | r in born && r in Refs(ts)
      ensures r in Refs(ts')
    {
      var i :| 0 <= i < |ts| && ts[i].ref == r;
      assert ts[i] in ts;
      MemberRef(ts', ts[i]);
    }
  }

  /** A fired timer that stays in the queue. */
  function Rearmed(t: Timer, now: int): Timer {
    Timer(t.ref,
          if t.reps == TIMER_REPEAT then t.reps else t.reps - 1,
          t.interval,
          if t.next + t.interval < now then now + t.interval else t.next + t.interval)
  }

  lemma RearmedRef(t: Timer, now: int)
    ensures Rearmed(t, now).ref == t.ref
  {
  }

  /** Whether this firing is the timer's last. */
  predicate Last(t: Timer) {
    t.reps != TIMER_REPEAT && t.reps - 1 == TIMER_DEAD
  }

  lemma MemberLives(ts: seq<Timer>, lives: map<nat, Life>, k: nat)
    requires Kept(ts, lives) && k < |ts|
    ensures ts[k].ref in lives && Accounts(ts[k], lives[ts[k].ref])
  {
    assert ts[k] in ts;
  }

  /** The state in which the next timer is given TIMER_INVALID itself as its reference. */
  ghost predicate InvalidIsNext(rollover: bool, refcnt: nat, taken: set<nat>) {
    && rollover && TIMER_INVALID !in taken
    && forall k :: refcnt <= k < TIMER_INVALID ==> k in taken
  }

  lemma InvalidExactly(start: nat, ref: nat, taken: set<nat>, size: nat)
    requires start < REF_COUNT && size < TIMER_INVALID && ref !in taken
    requires exists j: nat :: j <= size && ref == Nth(start, j) && forall i :: 0 <= i < j ==> Nth(start, i) in taken
    ensures ref == TIMER_INVALID <==> InvalidIsNext(true, start, taken)
  {
    var j: nat :| j <= size && ref == Nth(start, j) && forall i :: 0 <= i < j ==> Nth(start, i) in taken;
    if ref == TIMER_INVALID {
      forall k | start <= k < TIMER_INVALID
        ensures k in taken
      {
        assert Nth(start, k - start) == k;
      }
    }
    if InvalidIsNext(true, start, taken) {
      assert Nth(start, TIMER_INVALID - start) == TIMER_INVALID;
    }
  }
}
