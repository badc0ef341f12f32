/**
 Unloading a module and everything that depends on it (source/module.c), outside a reload.

 `deps` of a module lists the modules that depend on it, so unloading walks from a module to its
 dependants.  The graph may have cycles: loading allows circular dependencies.
 */
module ModuleUnload {
  import opened Common

  class Module {
    const name: string
    var loaded: bool
    var dependLoad: bool
    var opencalls: nat
    var deps: seq<Module>

    constructor (name: string)
      ensures this.name == name && !loaded && !dependLoad && opencalls == 0 && deps == []
    {
      this.name := name;
      loaded, dependLoad, opencalls, deps := false, false, 0, [];
    }
  }

  // ----- the dependency graph as a value: `l` the loaded modules, `d` the dependants lists

  /** Every loaded dependant of a member of `s` is a member of `s`. */
  ghost predicate Closed(s: set<Module>, l: set<Module>, d: map<Module, seq<Module>>) {
    forall x, y :: x in s && x in d && y in d[x] && y in l ==> y in s
  }

  /** `u` is reachable from `m` through loaded dependants: the least closed set that holds `m`. */
  ghost predicate Reachable(m: Module, u: set<Module>, l: set<Module>, d: map<Module, seq<Module>>) {
    && m in u && u <= l && Closed(u, l, d)
    && forall s :: s <= l && m in s && Closed(s, l, d) ==> u <= s
  }

  /** The lists once the modules in `u` are unloaded. */
  ghost predicate Swept(d: map<Module, seq<Module>>, d': map<Module, seq<Module>>, u: set<Module>) {
    && d'.Keys == d.Keys
    && forall x <- d :: d'[x] == if x in u then [] else Without(d[x], u)
  }

  // ----- progress of one call, from its entry state (l, d)

  /**
   `u` is unloaded so far, `m` among them; the other members of `u` are finished, and `m.deps` is
   down to `rest`.
   */
  ghost predicate Midway(m: Module, u: set<Module>, l: set<Module>, d: map<Module, seq<Module>>,
                         d': map<Module, seq<Module>>)
    requires m in d
  {
    && m in u && u <= l
    && (forall x, y :: x in u && x != m && x in d && y in d[x] && y in l ==> y in u)
    && (forall s :: s <= l && m in s && Closed(s, l, d) ==> u <= s)
    && d'.Keys == d.Keys
    && (forall x <- d :: x != m ==> d'[x] == if x in u then [] else Without(d[x], u - {m}))
    && (forall y <- d'[m] :: y in d[m])
    && (forall y <- d[m] :: y in l && y !in u ==> y in d'[m])
  }

  lemma MidwayStart(m: Module, l: set<Module>, d: map<Module, seq<Module>>)
    requires m in l && m in d
    ensures Midway(m, {m}, l, d, d)
  {
    forall x | x in d
      ensures Without(d[x], {m} - {m}) == d[x]
    {
      WithoutNothing(d[x], {m} - {m});
    }
  }

  lemma MidwayLeast(m: Module, u: set<Module>, l: set<Module>, d: map<Module, seq<Module>>,
                    d1: map<Module, seq<Module>>, dep: Module, v: set<Module>, s: set<Module>)
    requires m in d && Midway(m, u, l, d, d1) && l <= d.Keys
    requires dep in d1[m] && dep in l - u && Reachable(dep, v, l - u, d1)
    requires s <= l && m in s && Closed(s, l, d)
    ensures u + v <= s
  {
    hide Without;
    var t := s * (l - u);
    assert dep in t;
    assert Closed(t, l - u, d1);
  }

  /** A dependant that is loaded is unloaded by a nested call. */
  lemma MidwayCall(m: Module, u: set<Module>, l: set<Module>, d: map<Module, seq<Module>>, d1: map<Module, seq<Module>>,
                   dep: Module, v: set<Module>, d2: map<Module, seq<Module>>)
    requires m in d && Midway(m, u, l, d, d1) && l <= d.Keys
    requires dep in d1[m] && dep in l - u
    requires Reachable(dep, v, l - u, d1) && Swept(d1, d2, v)
    ensures Midway(m, u + v, l, d, d2)
  {
    hide Without;
    MidwayClosed(m, u, l, d, d1, dep, v);
    MidwayLists(m, u, l, d, d1, v, d2);
    hide Swept, Closed;
    forall s | s <= l && m in s && Closed(s, l, d)
      ensures u + v <= s
    {
      MidwayLeast(m, u, l, d, d1, dep, v, s);
    }
  }

  lemma MidwayClosed(m: Module, u: set<Module>, l: set<Module>, d: map<Module, seq<Module>>,
                     d1: map<Module, seq<Module>>, dep: Module, v: set<Module>)
    requires m in d && Midway(m, u, l, d, d1) && l <= d.Keys
    requires Reachable(dep, v, l - u, d1)
    ensures v <= l - u
    ensures forall x, y :: x in u + v && x != m && x in d && y in d[x] && y in l ==> y in u + v
  {
    hide Without;
    forall x, y | x in v && x in d && y in d[x] && y in l
      ensures y in u + v
    {
      if y !in u {
        assert y in d1[x];
      }
    }
  }

  lemma MidwayLists(m: Module, u: set<Module>, l: set<Module>, d: map<Module, seq<Module>>,
                    d1: map<Module, seq<Module>>, v: set<Module>, d2: map<Module, seq<Module>>)
    requires m in d && Midway(m, u, l, d, d1) && v <= l - u && Swept(d1, d2, v)
    ensures d2.Keys == d.Keys
    ensures forall x <- d :: x != m ==> d2[x] == if x in u + v then [] else Without(d[x], u + v - {m})
    ensures forall y <- d2[m] :: y in d[m]
    ensures forall y <- d[m] :: y in l && y !in u + v ==> y in d2[m]
  {
    hide Without, Closed;
    WithoutNothing([], v);
    forall x | x in d && x != m
      ensures d2[x] == if x in u + v then [] else Without(d[x], u + v - {m})
    {
      if x !in u && x !in v {
        WithoutTwice(d[x], u - {m}, v);
        assert u + v - {m} == u - {m} + v;
      }
    }
  }

  /** A dependant that is not loaded is only dropped from the list. */
  lemma MidwayDrop(m: Module, u: set<Module>, l: set<Module>, d: map<Module, seq<Module>>, d1: map<Module, seq<Module>>)
    requires m in d && Midway(m, u, l, d, d1) && d1[m] != [] && d1[m][0] !in l - u
    ensures Midway(m, u, l, d, d1[m := d1[m][1..]])
  {
    hide Without, Closed;
    var rest := d1[m][1..];
    assert d1[m] == [d1[m][0]] + rest;
    assert forall y <- rest :: y in d1[m];
    assert forall y <- d1[m] :: y == d1[m][0] || y in rest;
  }

  /** The closing sweep takes `m` itself out of every list. */
  lemma MidwayEnd(m: Module, u: set<Module>, l: set<Module>, d: map<Module, seq<Module>>, d1: map<Module, seq<Module>>,
                  d2: map<Module, seq<Module>>)
    requires m in d && Midway(m, u, l, d, d1) && d1[m] == []
    requires d2.Keys == d1.Keys && forall x <- d1 :: d2[x] == Without(d1[x], {m})
    ensures Reachable(m, u, l, d) && Swept(d, d2, u)
  {
    hide Without;
    WithoutNothing([], {m});
    forall x | x in d
      ensures d2[x] == if x in u then [] else Without(d[x], u)
    {
      if x !in u {
        WithoutTwice(d[x], u - {m}, {m});
        assert u - {m} + {m} == u;
      }
    }
  }

  /** What unloading does to the outside: the unload event is hooked, the library closed once. */
  datatype Action = Hook(m: Module) | Dlclose(m: Module)

  /**
   The registry's state as a value: which modules are loaded and marked for dependent loading, how
   often each library is open, the dependants lists, the modules whose unload event was hooked, and that with the
   libraries closed.
   */
  datatype State = State(loaded: set<Module>, dependLoad: set<Module>, opencalls: map<Module, nat>,
                         deps: map<Module, seq<Module>>, events: seq<Module>, log: seq<Action>)

  ghost function Shut(open: map<Module, nat>, u: set<Module>): map<Module, nat> {
    map x | x in open :: if x in u then 0 else open[x]
  }

  /** Everything closed that holds `y` holds `x`: `x` is reachable from `y` through loaded dependants. */
  ghost predicate Reaches(y: Module, x: Module, l: set<Module>, d: map<Module, seq<Module>>) {
    forall s :: s <= l && y in s && Closed(s, l, d) ==> x in s
  }

  /**
   Dependants go first: in `e` a module comes before a loaded dependant of its own only if it is reachable from that
   dependant in turn.
   */
  ghost predicate InOrder(e: seq<Module>, l: set<Module>, d: map<Module, seq<Module>>) {
    forall i, j :: 0 <= i < j < |e| && e[i] in d && e[j] in d[e[i]] && e[j] in l ==> Reaches(e[j], e[i], l, d)
  }

  /** One module goes: first the event, then its library is closed as often as it was opened. */
  ghost function Goes(m: Module, open: map<Module, nat>): seq<Action> {
    [Hook(m)] + seq(if m in open then open[m] else 0, _ => Dlclose(m))
  }

  ghost function AllGo(e: seq<Module>, open: map<Module, nat>): seq<Action> {
    if e == [] then [] else Goes(e[0], open) + AllGo(e[1..], open)
  }

  lemma {:induction false} AllGoConcat(e: seq<Module>, e': seq<Module>, open: map<Module, nat>)
    ensures AllGo(e + e', open) == AllGo(e, open) + AllGo(e', open)
  {
    hide Goes;
    if e == [] {
      assert e + e' == e';
    } else {
      assert (e + e')[1..] == e[1..] + e';
      AllGoConcat(e[1..], e', open);
    }
  }

  lemma {:induction false} AllGoSame(e: seq<Module>, open: map<Module, nat>, open': map<Module, nat>)
    requires forall x <- e :: (x in open <==> x in open') && (x in open ==> open[x] == open'[x])
    ensures AllGo(e, open) == AllGo(e, open')
  {
    if e != [] {
      AllGoSame(e[1..], open, open');
    }
  }

  /** The modules of `u` have gone, one after the other, dependants first. */
  ghost predicate Logged(s0: State, s: State, u: set<Module>) {
    && s0.events <= s.events
    && var e := s.events[|s0.events|..];
       multiset(e) == multiset(u) && InOrder(e, s0.loaded, s0.deps) && s.log == s0.log + AllGo(e, s0.opencalls)
  }

  /** The whole effect of unloading `m` when it is loaded, `u` being the modules unloaded. */
  ghost predicate Unloads(m: Module, u: set<Module>, s0: State, s: State) {
    && Reachable(m, u, s0.loaded, s0.deps) && Swept(s0.deps, s.deps, u)
    && s.loaded == s0.loaded - u && s.dependLoad == s0.dependLoad - u
    && s.opencalls == Shut(s0.opencalls, u)
    && Logged(s0, s, u)
  }

  ghost predicate InProgress(m: Module, u: set<Module>, s0: State, s: State) {
    && m in s0.deps && s0.loaded <= s0.deps.Keys && Midway(m, u, s0.loaded, s0.deps, s.deps)
    && s.loaded == s0.loaded - u && s.dependLoad == s0.dependLoad - u
    && s.opencalls == Shut(s0.opencalls, u - {m})
    && Logged(s0, s, u - {m})
  }

  lemma Begin(m: Module, s0: State, s: State)
    requires m in s0.loaded && s0.loaded <= s0.deps.Keys
    requires s == s0.(loaded := s0.loaded - {m}, dependLoad := s0.dependLoad - {m})
    ensures InProgress(m, {m}, s0, s)
  {
    hide Midway;
    MidwayStart(m, s0.loaded, s0.deps);
    assert {m} - {m} == {} && s0.events[|s0.events|..] == [];
  }

  lemma ShutTwice(open: map<Module, nat>, u: set<Module>, v: set<Module>)
    ensures Shut(Shut(open, u), v) == Shut(open, u + v)
  {
  }

  lemma Members(e: seq<Module>, u: set<Module>)
    requires multiset(e) == multiset(u)
    ensures forall x <- e :: x in u
  {
    forall x | x in e
      ensures x in u
    {
      assert x in multiset(e);
    }
  }

  lemma ReachesAlso(m: Module, u: set<Module>, l: set<Module>, d: map<Module, seq<Module>>,
                    d1: map<Module, seq<Module>>, y: Module, x: Module)
    requires m in d && Midway(m, u, l, d, d1) && l <= d.Keys && y !in u && y in l && Reaches(y, x, l - u, d1)
    ensures Reaches(y, x, l, d)
  {
    hide Without;
    forall s | s <= l && y in s && Closed(s, l, d)
      ensures x in s
    {
      assert Closed(s * (l - u), l - u, d1);
    }
  }

  /** The events of a nested unload come after those so far. */
  lemma NestedOrder(m: Module, u: set<Module>, l: set<Module>, d: map<Module, seq<Module>>,
                    d1: map<Module, seq<Module>>, e: seq<Module>, v: set<Module>, e': seq<Module>)
    requires m in d && Midway(m, u, l, d, d1) && l <= d.Keys && v <= l - u
    requires (forall x <- e :: x in u && x != m) && (forall x <- e' :: x in v)
    requires InOrder(e, l, d) && InOrder(e', l - u, d1)
    ensures InOrder(e + e', l, d)
  {
    hide Without, Reaches, Closed;
    var all := e + e';
    forall i, j | 0 <= i < j < |all| && all[i] in d && all[j] in d[all[i]] && all[j] in l
      ensures Reaches(all[j], all[i], l, d)
    {
      if i >= |e| {
        assert all[i] == e'[i - |e|] && all[j] == e'[j - |e|];
        assert all[j] in d1[all[i]];
        ReachesAlso(m, u, l, d, d1, all[j], all[i]);
      } else if j >= |e| {
        assert false;
      }
    }
  }

  /** Whatever depends on something unloaded before `m` may be `m` itself, as all that is reachable from it. */
  lemma LastInOrder(m: Module, u: set<Module>, l: set<Module>, d: map<Module, seq<Module>>,
                    d1: map<Module, seq<Module>>, e: seq<Module>)
    requires m in d && Midway(m, u, l, d, d1) && (forall x <- e :: x in u) && InOrder(e, l, d)
    ensures InOrder(e + [m], l, d)
  {
    hide Without, Closed;
    forall x | x in e
      ensures Reaches(m, x, l, d)
    {
    }
    hide Reaches;
  }

  lemma NestedEvents(m: Module, u: set<Module>, s0: State, s1: State, v: set<Module>, s2: State)
    requires m in s0.deps && Midway(m, u, s0.loaded, s0.deps, s1.deps) && s0.loaded <= s0.deps.Keys
    requires s1.loaded == s0.loaded - u && s1.opencalls == Shut(s0.opencalls, u - {m}) && v <= s1.loaded
    requires Logged(s0, s1, u - {m}) && Logged(s1, s2, v)
    ensures Logged(s0, s2, u - {m} + v)
  {
    hide Midway, Without, Closed, InOrder, AllGo, Shut;
    var e, e' := s1.events[|s0.events|..], s2.events[|s1.events|..];
    Members(e, u - {m});
    Members(e', v);
    NestedOrder(m, u, s0.loaded, s0.deps, s1.deps, e, v, e');
    AllGoLater(e, e', s0.opencalls, u - {m});
    assert s2.events[|s0.events|..] == e + e';
    assert multiset(u - {m} + v) == multiset(u - {m}) + multiset(v);
  }

  lemma AllGoLater(e: seq<Module>, e': seq<Module>, open: map<Module, nat>, u: set<Module>)
    requires forall x <- e' :: x !in u
    ensures AllGo(e + e', open) == AllGo(e, open) + AllGo(e', Shut(open, u))
  {
    AllGoSame(e', open, Shut(open, u));
    AllGoConcat(e, e', open);
  }

  lemma LastEvent(m: Module, u: set<Module>, s0: State, s1: State, s2: State)
    requires InProgress(m, u, s0, s1) && m in u
    requires s2.events == s1.events + [m] && s2.log == s1.log + Goes(m, s1.opencalls)
    ensures Logged(s0, s2, u)
  {
    hide Midway, Without, Closed, InOrder, AllGo;
    var e := s1.events[|s0.events|..];
    Members(e, u - {m});
    LastInOrder(m, u, s0.loaded, s0.deps, s1.deps, e);
    AllGoConcat(e, [m], s0.opencalls);
    OneGoes(m, s0.opencalls);
    assert s2.events[|s0.events|..] == e + [m];
    assert u == u - {m} + {m} && multiset(u - {m} + {m}) == multiset(u - {m}) + multiset{m};
  }

  lemma OneGoes(m: Module, open: map<Module, nat>)
    ensures AllGo([m], open) == Goes(m, open)
  {
    assert AllGo([m][1..], open) == [];
  }

  lemma Nested(m: Module, u: set<Module>, s0: State, s1: State, dep: Module, v: set<Module>, s2: State)
    requires InProgress(m, u, s0, s1) && m in s1.deps && dep in s1.deps[m] && dep in s1.loaded
    requires Unloads(dep, v, s1, s2)
    ensures InProgress(m, u + v, s0, s2) && m in s2.deps
    ensures s1.deps[m][0] == dep ==> |s2.deps[m]| < |s1.deps[m]|
  {
    hide Midway, Swept, Shut, Without, Closed, Logged;
    NestedSets(m, u, s0, s1, dep, v);
    MidwayCall(m, u, s0.loaded, s0.deps, s1.deps, dep, v, s2.deps);
    WithoutShorter(s1.deps[m], v);
    SweptAt(s1.deps, s2.deps, v, m);
    ShutTwice(s0.opencalls, u - {m}, v);
    NestedEvents(m, u, s0, s1, v, s2);
    assert dep in v;
  }

  lemma NestedSets(m: Module, u: set<Module>, s0: State, s1: State, dep: Module, v: set<Module>)
    requires InProgress(m, u, s0, s1) && Reachable(dep, v, s1.loaded, s1.deps)
    ensures u !! v && m in u && m !in v && u + v - {m} == (u - {m}) + v
    ensures s0.loaded - (u + v) == s1.loaded - v && s0.dependLoad - (u + v) == s1.dependLoad - v
  {
    hide Shut, Without, Closed, Logged;
  }

  lemma SweptAt(d: map<Module, seq<Module>>, d': map<Module, seq<Module>>, v: set<Module>, m: Module)
    requires Swept(d, d', v) && m in d && m !in v
    ensures m in d' && d'[m] == Without(d[m], v)
  {
  }

  lemma FewerLoaded(dep: Module, v: set<Module>, s: State, s': State)
    requires Unloads(dep, v, s, s')
    ensures s'.loaded <= s.loaded
  {
  }

  lemma Dropped(m: Module, u: set<Module>, s0: State, s: State)
    requires InProgress(m, u, s0, s) && m in s.deps && s.deps[m] != [] && s.deps[m][0] !in s.loaded
    ensures InProgress(m, u, s0, s.(deps := s.deps[m := s.deps[m][1..]]))
  {
    MidwayDrop(m, u, s0.loaded, s0.deps, s.deps);
  }

  lemma Finish(m: Module, u: set<Module>, s0: State, s1: State, s2: State)
    requires InProgress(m, u, s0, s1) && m in s1.deps && s1.deps[m] == []
    requires s2.deps.Keys == s1.deps.Keys && forall x <- s1.deps :: s2.deps[x] == Without(s1.deps[x], {m})
    requires m in s1.opencalls && s2 == s1.(deps := s2.deps, opencalls := s1.opencalls[m := 0],
        events := s1.events + [m], log := s1.log + Goes(m, s1.opencalls))
    ensures Unloads(m, u, s0, s2)
  {
    hide Midway, Swept, Reachable, Shut, Without, Closed, Logged, Goes;
    MidwayEnd(m, u, s0.loaded, s0.deps, s1.deps, s2.deps);
    assert m in u by { MidwayHasM(m, u, s0, s1); }
    assert u == (u - {m}) + {m};
    ShutOne(s1.opencalls, m);
    ShutTwice(s0.opencalls, u - {m}, {m});
    LastEvent(m, u, s0, s1, s2);
  }

  lemma Ordered(m: Module, u: set<Module>, s0: State, s: State)
    requires Unloads(m, u, s0, s)
    ensures s0.events <= s.events && InOrder(s.events[|s0.events|..], s0.loaded, s0.deps)
  {
    hide InOrder;
  }

  lemma NoEvents(s: State, e: seq<Module>)
    ensures InOrder(e[|e|..], s.loaded, s.deps)
  {
  }

  lemma MidwayHasM(m: Module, u: set<Module>, s0: State, s1: State)
    requires InProgress(m, u, s0, s1)
    ensures m in u
  {
  }

  lemma ShutOne(open: map<Module, nat>, m: Module)
    requires m in open
    ensures Shut(open, {m}) == open[m := 0]
  {
  }

  lemma Slices(kept: seq<Module>, rest: seq<Module>)
    requires rest != []
    ensures
      var all := kept + rest;
      all[|kept|] == rest[0] && all[..|kept|] == kept && all[|kept| + 1..] == rest[1..]
    ensures kept + rest == kept + [rest[0]] + rest[1..]
  {
    assert rest == [rest[0]] + rest[1..];
  }

  /** One step of a loop that keeps the elements other than `m`. */
  lemma WithoutStep(kept: seq<Module>, rest: seq<Module>, m: Module)
    requires rest != []
    ensures rest[0] == m ==> Without(rest, {m}) == Without(rest[1..], {m})
    ensures rest[0] != m ==> kept + Without(rest, {m}) == kept + [rest[0]] + Without(rest[1..], {m})
  {
    var w := Without(rest[1..], {m});
    if rest[0] != m {
      assert Without(rest, {m}) == [rest[0]] + w;
      assert kept + ([rest[0]] + w) == kept + [rest[0]] + w;
    }
  }

  class Registry {
    var modules: seq<Module>

    // the modules whose unload event has been hooked, in order
    var unloadEvents: seq<Module>

    // the same with the libraries closed in between
    ghost var log: seq<Action>

    ghost predicate Valid()
      reads this`modules, modules`deps
    {
      && (forall i, j :: 0 <= i < j < |modules| ==> modules[i].name != modules[j].name)
      && (forall m <- modules :: forall x <- m.deps :: x in modules)
    }

    ghost function Now(): (s: State)
      reads this, modules
    {
      Fields().(events := unloadEvents, log := log)
    }

    /** What the modules themselves hold. */
    ghost function Fields(): (s: State)
      reads this`modules, modules
    {
      State(set m | m in modules && m.loaded, set m | m in modules && m.dependLoad,
            map m | m in modules :: m.opencalls, map m | m in modules :: m.deps, [], [])
    }

    /** `find_module` */
    method FindModule(name: string) returns (m: Module?)
      ensures m == null ==> forall x <- modules :: x.name != name
      ensures m != null ==> m in modules && m.name == name
    {
      for i := 0 to |modules|
        invariant forall j :: 0 <= j < i ==> modules[j].name != name
      {
        if modules[i].name == name {
          return modules[i];
        }
      }
      return null;
    }

    /** Takes every entry for `m` out of one list. */
    method DropEntries(m2: Module, m: Module)
      modifies m2`deps
      ensures m2.deps == Without(old(m2.deps), {m})
    {
      hide Without;
      ghost var kept, rest := [], m2.deps;
      WithoutNothing([], {m});
      var k := 0;
      while k < |m2.deps|
        invariant |kept| == k && m2.deps == kept + rest
        invariant Without(old(m2.deps), {m}) == kept + Without(rest, {m})
        decreases |rest|
      {
        Slices(kept, rest);
        WithoutStep(kept, rest, m);
        if m2.deps[k] == m {
          m2.deps := m2.deps[..k] + m2.deps[k + 1..];
        } else {
          kept := kept + [rest[0]];
          k := k + 1;
        }
        rest := rest[1..];
      }
    }

    /** The last loop of `unload_module`, over all modules. */
    method SweepEntries(m: Module)
      requires Valid()
      modifies modules
      ensures Valid() && Now() == old(Now()).(deps := Now().deps)
      ensures Now().deps.Keys == old(Now()).deps.Keys
      ensures forall x <- Now().deps :: Now().deps[x] == Without(old(Now()).deps[x], {m})
    {
      hide Without;
      for i := 0 to |modules|
        invariant forall j :: 0 <= j < i ==> modules[j].deps == Without(old(modules[j].deps), {m})
        invariant forall j :: i <= j < |modules| ==> modules[j].deps == old(modules[j].deps)
        invariant forall x <- modules ::
          x.loaded == old(x.loaded) && x.dependLoad == old(x.dependLoad) && x.opencalls == old(x.opencalls)
      {
        DropEntries(modules[i], m);
      }
      assert Now().deps.Keys == old(Now()).deps.Keys;
      assert Now().opencalls == old(Now()).opencalls;
    }

    /** One module's fields, seen in the state as a value. */
    lemma Look(m: Module)
      requires Valid() && m in modules
      ensures var s := Now();
              && m in s.deps && s.deps[m] == m.deps && m in s.opencalls && s.loaded <= s.deps.Keys
              && (m.loaded <==> m in s.loaded) && s.events == unloadEvents && (forall x <- m.deps :: x in modules)
    {
    }

    /** Clears the flags, so that the module is not unloaded again. */
    method ClearFlags(m: Module)
      requires Valid() && m in modules
      modifies m`loaded, m`dependLoad
      ensures Valid()
      ensures var s := old(Now()); Now() == s.(loaded := s.loaded - {m}, dependLoad := s.dependLoad - {m})
    {
      m.loaded, m.dependLoad := false, false;
    }

    /** Unhooks and frees the first entry of a list. */
    method DropFirst(m: Module)
      requires Valid() && m in modules && m.deps != []
      modifies m`deps
      ensures Valid()
      ensures var s := old(Now()); Now() == s.(deps := s.deps[m := s.deps[m][1..]])
    {
      m.deps := m.deps[1..];
    }

    /** Hooks the unload event and closes the library as often as it was opened. */
    method CloseLibrary(m: Module)
      requires Valid() && m in modules
      modifies this`unloadEvents, this`log, m`opencalls
      ensures Valid() && m in old(Now()).opencalls
      ensures
        var s := old(Now());
        Now() == s.(opencalls := s.opencalls[m := 0], events := s.events + [m], log := s.log + Goes(m, s.opencalls))
    {
      hide Registry.Valid, Registry.Now;
      Look(m);
      HookEvent(m);
      Look(m);
      CloseCalls(m);
    }

    method HookEvent(m: Module)
      requires Valid()
      modifies this`unloadEvents, this`log
      ensures Valid()
      ensures var s := old(Now()); Now() == s.(events := s.events + [m], log := s.log + [Hook(m)])
    {
      unloadEvents := unloadEvents + [m];
      log := log + [Hook(m)];
    }

    method CloseCalls(m: Module)
      requires Valid() && m in modules
      modifies m`opencalls, this`log
      ensures Valid()
      ensures
        var s := old(Now());
        && m in s.opencalls
        && Now() == s.(opencalls := s.opencalls[m := 0], log := s.log + seq(s.opencalls[m], _ => Dlclose(m)))
    {
      CloseHandle(m);
    }

    method CloseHandle(m: Module)
      modifies m`opencalls, this`log
      ensures m.opencalls == 0 && log == old(log) + seq(old(m.opencalls), _ => Dlclose(m))
    {
      ghost var n := 0;
      while m.opencalls > 0
        invariant n + m.opencalls == old(m.opencalls) && log == old(log) + seq(n, _ => Dlclose(m))
      {
        log, n := log + [Dlclose(m)], n + 1;
        m.opencalls := m.opencalls - 1;
      }
    }

    /**
     `unload_module`: unloads exactly the modules reachable from the named one through loaded
     dependants, each once, on any graph; leaves the others' flags alone; and no list mentions an
     unloaded module afterwards.  A module is unloaded before what it depends on, but for cycles.
     */
    method UnloadModule(name: string) returns (r: int, ghost u: set<Module>)
      requires Valid()
      modifies this`unloadEvents, this`log, modules
      ensures Valid() && (r == 0 || r == 1)
      ensures r == 0 <==> forall x <- modules :: x.name != name
      ensures forall m <- modules :: m.name == name && m in old(Now()).loaded ==> Unloads(m, u, old(Now()), Now())
      ensures (forall m <- old(Now()).loaded :: m.name != name) ==> u == {} && Now() == old(Now())
      ensures
        && old(unloadEvents) <= unloadEvents
        && InOrder(unloadEvents[|old(unloadEvents)|..], old(Now()).loaded, old(Now()).deps)
      decreases Now().loaded
    {
      hide Without, Reachable, Swept, Midway, InProgress, Unloads, Shut, Now, Valid, InOrder, Goes;
      u := {};
      NoEvents(Now(), unloadEvents);
      var found := FindModule(name);
      if found == null {
        return 0, u;
      }
      var m: Module := found;
      OnlyOne(name, m);
      ghost var s0 := Now();
      Look(m);
      if !m.loaded {
        return 1, u;
      }
      ClearFlags(m);
      u := {m};
      Begin(m, s0, Now());
      Look(m);
      while m.deps != []
        invariant Valid() && InProgress(m, u, s0, Now()) && Now().loaded < s0.loaded
        invariant m in Now().deps && Now().deps[m] == m.deps
        decreases |m.deps|
      {
        var dep := m.deps[0];
        ghost var s1 := Now();
        Look(m);
        Look(dep);
        if dep.loaded {
          var _, v := UnloadModule(dep.name);
          Nested(m, u, s0, s1, dep, v, Now());
          FewerLoaded(dep, v, s1, Now());
          u := u + v;
        } else {
          Dropped(m, u, s0, s1);
          DropFirst(m);
        }
        Look(m);
      }
      ghost var s1 := Now();
      Look(m);
      CloseLibrary(m);
      SweepEntries(m);
      Finish(m, u, s0, s1, Now());
      Ordered(m, u, s0, Now());
      Look(m);
      return 1, u;
    }

    lemma OnlyOne(name: string, m: Module)
      requires Valid() && m in modules && m.name == name
      ensures forall x <- modules :: x.name == name ==> x == m
      ensures Now().loaded <= set x | x in modules
    {
    }
  }
}
