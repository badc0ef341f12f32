/**
 The network as a spanning tree of servers: one list of servers with parent pointers, in which
 registering at the head keeps every server ahead of its parent (modules/ircd/server.c).
 */
module ServerTree {
  import opened Common
  import SendQueue

  class Server {
    const name: string
    // null only for our own server
    const parent: Server?
    // set for the servers directly connected to us
    const conn: SendQueue.Connection?
    var registered: bool

    constructor (name: string, parent: Server?, conn: SendQueue.Connection?)
      ensures this.name == name && this.parent == parent && this.conn == conn && !registered
    {
      this.name, this.parent, this.conn, registered := name, parent, conn, false;
    }
  }

  class Client {
    const nick: string
    const server: Server
    // null for remote clients and pseudo-clients
    const conn: SendQueue.Connection?
    const registered: bool

    constructor (nick: string, server: Server, conn: SendQueue.Connection?, registered: bool)
      ensures this.nick == nick && this.server == server && this.conn == conn && this.registered == registered
    {
      this.nick, this.server, this.conn, this.registered := nick, server, conn, registered;
    }
  }

  // ----- the list

  ghost function Elems<T>(s: seq<T>): set<T> {
    set x | x in s
  }

  /** No server twice, and each ahead of its parent unless that is us. */
  ghost predicate Ordered(ts: seq<Server>, me: Server) {
    || ts == []
    || (ts[0] !in ts[1..] && ts[0] != me && (ts[0].parent == me || ts[0].parent in ts[1..]) && Ordered(ts[1..], me))
  }

  ghost predicate ChildClosed(s: set<Server>, ts: seq<Server>) {
    forall x <- ts :: x.parent in s ==> x in s
  }

  /** `u` is the subtree of `root`: the least set that holds it and the children of its members. */
  ghost predicate Subtree(root: Server, u: set<Server>, ts: seq<Server>) {
    && root in u && u <= Elems(ts) && ChildClosed(u, ts)
    && forall s :: s <= Elems(ts) && root in s && ChildClosed(s, ts) ==> u <= s
  }

  ghost function SubtreeOf(root: Server, ts: seq<Server>): (u: set<Server>)
    requires root in ts
    ensures Subtree(root, u, ts)
  {
    var u := set x | x in ts && forall s: set<Server> :: s <= Elems(ts) && root in s && ChildClosed(s, ts) ==> x in s;
    assert forall x <- u :: x in ts;
    u
  }

  lemma {:induction false} ParentsInList(ts: seq<Server>, me: Server)
    requires Ordered(ts, me)
    ensures me !in ts && forall x <- ts :: x.parent == me || x.parent in ts
  {
    if ts != [] {
      ParentsInList(ts[1..], me);
    }
  }

  /** No server has its parent ahead of it: what comes before any point of the list has no child after it. */
  lemma {:induction false} ChildrenComeFirst(pre: seq<Server>, rest: seq<Server>, me: Server)
    requires Ordered(pre + rest, me)
    ensures ChildClosed(Elems(pre), pre + rest) && Elems(pre) !! Elems(rest) && Ordered(rest, me)
  {
    if pre == [] {
      assert pre + rest == rest;
    } else {
      assert (pre + rest)[1..] == pre[1..] + rest;
      ChildrenComeFirst(pre[1..], rest, me);
      ParentsInList(pre[1..] + rest, me);
      assert forall x <- pre :: x == pre[0] || x in pre[1..];
    }
  }

  lemma {:induction false} OrderedDistinct(ts: seq<Server>, me: Server)
    requires Ordered(ts, me)
    ensures Distinct(ts)
  {
    if ts != [] {
      OrderedDistinct(ts[1..], me);
    }
  }

  /** Taking out a set that holds the children of its members keeps the order. */
  lemma {:induction false} OrderedWithout(ts: seq<Server>, me: Server, u: set<Server>)
    requires Ordered(ts, me) && ChildClosed(u, ts)
    ensures Ordered(Without(ts, u), me)
  {
    if ts != [] {
      OrderedWithout(ts[1..], me, u);
      if ts[0] !in u {
        assert Without(ts, u)[1..] == Without(ts[1..], u);
      }
    }
  }

  lemma {:induction false} WithoutSize<T>(s: seq<T>, u: set<T>)
    requires Distinct(s) && u <= Elems(s)
    ensures |Without(s, u)| == |s| - |u|
  {
    if s != [] {
      if s[0] in u {
        WithoutSize(s[1..], u - {s[0]});
        WithoutAlso(s[1..], u, s[0]);
      } else {
        WithoutSize(s[1..], u);
      }
    }
  }

  lemma {:induction false} WithoutAlso<T>(s: seq<T>, u: set<T>, x: T)
    requires x !in s
    ensures Without(s, u) == Without(s, u - {x})
  {
    if s != [] {
      WithoutAlso(s[1..], u, x);
    }
  }

  // ----- clients and messages

  ghost function Off(cs: seq<Client>, u: set<Server>): seq<Client> {
    if cs == [] then [] else if cs[0].server in u then Off(cs[1..], u) else [cs[0]] + Off(cs[1..], u)
  }

  lemma {:induction false} OffTwice(cs: seq<Client>, u: set<Server>, v: set<Server>)
    ensures Off(Off(cs, u), v) == Off(cs, u + v)
    ensures forall c <- Off(cs, u) :: c in cs && c.server !in u
    ensures forall c <- cs :: c.server !in u ==> c in Off(cs, u)
  {
    if cs != [] {
      OffTwice(cs[1..], u, v);
      if cs[0].server !in u {
        assert Off(cs, u)[1..] == Off(cs[1..], u);
      }
    }
  }

  lemma {:induction false} OffNothing(cs: seq<Client>)
    ensures Off(cs, {}) == cs
  {
    if cs != [] {
      OffNothing(cs[1..]);
    }
  }

  /** A SQUIT, sent to everyone or only to servers without the NOQUIT ability; a client's QUIT. */
  datatype Event = Squit(server: Server, everyone: bool) | Quit(client: Client)

  ghost function Squits(u: set<Server>): multiset<Event> {
    multiset(set x | x in u :: Squit(x, false))
  }

  /** One QUIT for each registered client on a server of `u`. */
  ghost function Quits(cs: seq<Client>, u: set<Server>): multiset<Event> {
    if cs == [] then multiset{}
    else (if cs[0].server in u && cs[0].registered then multiset{Quit(cs[0])} else multiset{}) + Quits(cs[1..], u)
  }

  ghost function Linked(u: set<Server>): set<Server> {
    set x | x in u && x.conn != null
  }

  ghost function Conns(u: set<Server>): set<SendQueue.Connection?> {
    set x | x in u && x.conn != null :: x.conn
  }

  /** What a netsplit can change. */
  datatype Net = Net(servers: seq<Server>, clients: seq<Client>, count: int, local: int,
                     links: set<SendQueue.Connection>, events: multiset<Event>, log: seq<Event>)

  /** The server that an event is about. */
  ghost function About(e: Event): Server {
    match e
    case Squit(x, _) => x
    case Quit(c) => c.server
  }

  /** Once a server's SQUIT is out, nothing follows about it or about a child of it. */
  ghost predicate BottomUp(e: seq<Event>) {
    forall i, j :: 0 <= i < j < |e| && e[i].Squit? ==> About(e[j]) != e[i].server && About(e[j]).parent != e[i].server
  }

  /** The events since are about servers of `u` and in this order. */
  ghost predicate Logged(s0: Net, s: Net, u: set<Server>) {
    && s0.log <= s.log
    && var e := s.log[|s0.log|..];
       (forall x <- e :: About(x) in u) && BottomUp(e)
  }

  /** The last events are the QUITs of one server's clients, and then its SQUIT. */
  ghost predicate LoggedSelf(s1: Net, s2: Net, root: Server, first: bool) {
    && s1.log < s2.log && s2.log[|s2.log| - 1] == Squit(root, first)
    && forall i :: |s1.log| <= i < |s2.log| - 1 ==> s2.log[i].Quit? && s2.log[i].client.server == root
  }

  lemma LoggedMore(s0: Net, s1: Net, s2: Net, u: set<Server>, v: set<Server>)
    requires Logged(s0, s1, u) && Logged(s1, s2, v)
    requires forall x <- v :: x !in u && x.parent !in u
    ensures Logged(s0, s2, u + v)
  {
    var a, b := s1.log[|s0.log|..], s2.log[|s1.log|..];
    var e := a + b;
    assert s2.log[|s0.log|..] == e;
    forall i, j | 0 <= i < j < |e| && e[i].Squit?
      ensures About(e[j]) != e[i].server && About(e[j]).parent != e[i].server
    {
      if i < |a| && j >= |a| {
        assert About(a[i]) in u && About(b[j - |a|]) in v;
      }
    }
  }

  lemma LoggedEnd(s1: Net, s2: Net, root: Server, first: bool)
    requires LoggedSelf(s1, s2, root, first)
    ensures Logged(s1, s2, {root})
  {
  }

  /** The servers of `u`, none of them `root`, are gone with their clients. */
  ghost predicate Removed(u: set<Server>, s0: Net, s: Net) {
    && s.servers == Without(s0.servers, u) && s.clients == Off(s0.clients, u)
    && s.count == s0.count - |u| && s.local == s0.local - |Linked(u)|
    && s.links == s0.links - Conns(u)
  }

  /** The complete effect of destroying `root`. */
  ghost predicate Split(root: Server, u: set<Server>, first: bool, s0: Net, s: Net) {
    && Subtree(root, u, s0.servers) && Removed(u, s0, s)
    && s.events == s0.events + (Squits(u - {root}) + multiset{Squit(root, first)}) + Quits(s0.clients, u)
    && Logged(s0, s, u) && s0.log < s.log && s.log[|s.log| - 1] == Squit(root, first)
  }

  /** Part way: some whole subtrees below `root` are gone. */
  ghost predicate Partial(root: Server, u: set<Server>, s0: Net, s: Net) {
    && root in s0.servers && root !in u && u <= Elems(s0.servers) && ChildClosed(u, s0.servers)
    && (forall t :: t <= Elems(s0.servers) && root in t && ChildClosed(t, s0.servers) ==> u <= t)
    && Removed(u, s0, s)
    && s.events == s0.events + Squits(u) + Quits(s0.clients, u) && Logged(s0, s, u)
  }

  /** The counters LUSERS reports are in step with the list; the first counts us as well. */
  ghost predicate InStep(s: Net) {
    s.count == |s.servers| + 1 && s.local == |Linked(Elems(s.servers))|
  }

  /** A split takes off the counters what it takes off the list. */
  lemma SplitInStep(root: Server, u: set<Server>, first: bool, s0: Net, s: Net, me: Server)
    requires Ordered(s0.servers, me) && Split(root, u, first, s0, s) && InStep(s0)
    ensures InStep(s)
  {
    hide Off, Quits, Squits, Ordered;
    OrderedDistinct(s0.servers, me);
    WithoutSize(s0.servers, u);
    var all, linked := Elems(s0.servers), Linked(Elems(s0.servers));
    assert Elems(s.servers) == all - u;
    assert Linked(all - u) == linked - Linked(u) && Linked(u) <= linked;
  }

  lemma RegisterInStep(s0: Net, s: Net, sp: Server)
    requires InStep(s0) && sp !in s0.servers && s.servers == [sp] + s0.servers
    requires s.count == s0.count + 1 && s.local == s0.local + if sp.conn != null then 1 else 0
    ensures InStep(s)
  {
    ElemsHead(sp, s0.servers);
    hide Elems;
    LinkedHead(sp, Elems(s0.servers));
  }

  lemma ElemsHead<T>(x: T, s: seq<T>)
    ensures Elems([x] + s) == {x} + Elems(s) && (x in Elems(s) <==> x in s)
  {
    assert forall y :: y in [x] + s <==> y == x || y in s;
  }

  lemma LinkedHead(sp: Server, u: set<Server>)
    requires sp !in u
    ensures |Linked({sp} + u)| == |Linked(u)| + if sp.conn != null then 1 else 0
  {
    assert Linked({sp} + u) == if sp.conn != null then {sp} + Linked(u) else Linked(u);
  }

  lemma {:induction false} QuitsNone(cs: seq<Client>)
    ensures Quits(cs, {}) == multiset{}
  {
    if cs != [] {
      QuitsNone(cs[1..]);
    }
  }

  lemma {:induction false} QuitsAdd(cs: seq<Client>, u: set<Server>, v: set<Server>)
    requires u !! v
    ensures Quits(Off(cs, u), v) == Quits(cs, v)
    ensures Quits(cs, u + v) == Quits(cs, u) + Quits(cs, v)
  {
    if cs == [] {
      assert Off(cs, u) == [] && Quits(cs, u) == Quits(cs, v) == Quits(cs, u + v) == multiset{};
    } else {
      hide Quits, Off;
      QuitsAdd(cs[1..], u, v);
      OffHead(cs, u);
      var c, rest := cs[0], cs[1..];
      QuitsHead(cs, u);
      QuitsHead(cs, v);
      QuitsHead(cs, u + v);
      if c.server !in u {
        QuitsHead([c] + Off(rest, u), v);
        assert ([c] + Off(rest, u))[1..] == Off(rest, u);
      }
    }
  }

  lemma OffHead(cs: seq<Client>, u: set<Server>)
    requires cs != []
    ensures Off(cs, u) == if cs[0].server in u then Off(cs[1..], u) else [cs[0]] + Off(cs[1..], u)
  {
  }

  lemma QuitsHead(cs: seq<Client>, u: set<Server>)
    requires cs != []
    ensures Quits(cs, u) == (if cs[0].server in u && cs[0].registered then multiset{Quit(cs[0])} else multiset{}) +
        Quits(cs[1..], u)
  {
  }

  lemma SquitsAdd(u: set<Server>, v: set<Server>)
    requires u !! v
    ensures Squits(u + v) == Squits(u) + Squits(v)
  {
    var a, b := set x | x in u :: Squit(x, false), set x | x in v :: Squit(x, false);
    assert (set x | x in u + v :: Squit(x, false)) == a + b;
    assert a !! b;
  }

  lemma RemovedTwice(u: set<Server>, v: set<Server>, s0: Net, s1: Net, s2: Net)
    requires Removed(u, s0, s1) && Removed(v, s1, s2) && u !! v
    ensures Removed(u + v, s0, s2)
  {
    WithoutTwice(s0.servers, u, v);
    OffTwice(s0.clients, u, v);
    assert Linked(u + v) == Linked(u) + Linked(v) && Linked(u) !! Linked(v);
    assert Conns(u + v) == Conns(u) + Conns(v);
  }

  lemma PartialStart(root: Server, s: Net)
    requires root in s.servers
    ensures Partial(root, {}, s, s)
  {
    WithoutNothing(s.servers, {});
    OffNothing(s.clients);
    QuitsNone(s.clients);
    assert Linked({}) == {} && Conns({}) == {};
    assert Squits({}) == multiset{};
  }

  lemma PartialLeast(root: Server, u: set<Server>, s0: Net, s1: Net, child: Server, v: set<Server>, t: set<Server>)
    requires Partial(root, u, s0, s1) && child in s1.servers && child.parent == root
    requires Subtree(child, v, s1.servers)
    requires t <= Elems(s0.servers) && root in t && ChildClosed(t, s0.servers)
    ensures u + v <= t
  {
    var t1 := t * Elems(s1.servers);
    assert child in t1;
    assert ChildClosed(t1, s1.servers);
  }

  lemma PartialChild(root: Server, u: set<Server>, s0: Net, s1: Net, child: Server, v: set<Server>, s2: Net)
    requires Partial(root, u, s0, s1) && child in s1.servers && child.parent == root
    requires Split(child, v, false, s1, s2) && root !in v
    ensures Partial(root, u + v, s0, s2)
  {
    hide Removed, Off, Quits, Squits, Without, ChildClosed, Logged;
    PartialServers(root, u, s0, s1);
    ApartFrom(root, u, s0, s1, v);
    LoggedMore(s0, s1, s2, u, v);
    PartialClosed(root, u, s0, s1, child, v);
    assert u !! v;
    RemovedTwice(u, v, s0, s1, s2);
    PartialClients(root, u, s0, s1);
    QuitsAdd(s0.clients, u, v);
    SquitsAdd(u, v);
    SquitsAdd(v - {child}, {child});
    OneSquit(child);
    assert v - {child} + {child} == v;
    forall t | t <= Elems(s0.servers) && root in t && ChildClosed(t, s0.servers)
      ensures u + v <= t
    {
      PartialLeast(root, u, s0, s1, child, v, t);
    }
  }

  /** Neither they nor their parents are among those gone before. */
  lemma ApartFrom(root: Server, u: set<Server>, s0: Net, s1: Net, v: set<Server>)
    requires Partial(root, u, s0, s1) && v <= Elems(s1.servers)
    ensures forall x <- v :: x !in u && x.parent !in u
  {
    hide Off, Quits, Squits, Logged, Without;
    assert s1.servers == Without(s0.servers, u);
    forall x | x in v
      ensures x !in u && x.parent !in u
    {
      assert x in s1.servers && x in s0.servers;
    }
  }

  lemma PartialClosed(root: Server, u: set<Server>, s0: Net, s1: Net, child: Server, v: set<Server>)
    requires Partial(root, u, s0, s1) && Subtree(child, v, s1.servers)
    ensures u + v <= Elems(s0.servers) && ChildClosed(u + v, s0.servers)
  {
    hide Off, Quits, Squits, Without;
    assert s1.servers == Without(s0.servers, u);
  }

  lemma OneSquit(x: Server)
    ensures Squits({x}) == multiset{Squit(x, false)}
  {
    assert (set y | y in {x} :: Squit(y, false)) == {Squit(x, false)};
  }

  lemma PartialServers(root: Server, u: set<Server>, s0: Net, s1: Net)
    requires Partial(root, u, s0, s1)
    ensures s1.servers == Without(s0.servers, u) && root in s1.servers
  {
  }

  lemma PartialClients(root: Server, u: set<Server>, s0: Net, s1: Net)
    requires Partial(root, u, s0, s1)
    ensures s1.clients == Off(s0.clients, u)
  {
  }

  /** The effect of the last part of the function: the server itself and its own clients. */
  ghost predicate SelfRemoved(root: Server, first: bool, s1: Net, s2: Net) {
    && Removed({root}, s1, s2)
    && s2.events == s1.events + Quits(s1.clients, {root}) + multiset{Squit(root, first)}
    && LoggedSelf(s1, s2, root, first)
  }

  lemma PartialEnd(root: Server, u: set<Server>, first: bool, s0: Net, s1: Net, s2: Net)
    requires Partial(root, u, s0, s1) && (forall x <- s1.servers :: x.parent != root)
    requires SelfRemoved(root, first, s1, s2)
    ensures Split(root, u + {root}, first, s0, s2)
  {
    hide Removed, Off, Quits, Squits, Subtree, ChildClosed, Elems, Without, Logged;
    PartialWhole(root, u, s0, s1);
    RootThere(root, u, s0, s1);
    ApartFrom(root, u, s0, s1, {root});
    LoggedEnd(s1, s2, root, first);
    LoggedMore(s0, s1, s2, u, {root});
    LoggedLonger(s0, s1, s2, u);
    PartialClients(root, u, s0, s1);
    RemovedTwice(u, {root}, s0, s1, s2);
    QuitsAdd(s0.clients, u, {root});
    assert u + {root} - {root} == u;
  }

  lemma RootThere(root: Server, u: set<Server>, s0: Net, s1: Net)
    requires Partial(root, u, s0, s1)
    ensures {root} <= Elems(s1.servers)
  {
    PartialServers(root, u, s0, s1);
  }

  lemma LoggedLonger(s0: Net, s1: Net, s2: Net, u: set<Server>)
    requires Logged(s0, s1, u) && s1.log < s2.log
    ensures s0.log < s2.log
  {
  }

  /** With no child left, what was removed and the root are the whole subtree. */
  lemma PartialWhole(root: Server, u: set<Server>, s0: Net, s1: Net)
    requires Partial(root, u, s0, s1) && forall x <- s1.servers :: x.parent != root
    ensures Subtree(root, u + {root}, s0.servers)
  {
    hide Removed, Off, Quits, Squits, Without;
    PartialServers(root, u, s0, s1);
  }

  /** The element after `x` in the list, null at its end. */
  ghost function NextIn<T>(ts: seq<T>, x: T): Option<T> {
    if ts == [] then None
    else if ts[0] == x then (if |ts| > 1 then Some(ts[1]) else None)
    else NextIn(ts[1..], x)
  }

  lemma {:induction false} NextInIs<T>(pre: seq<T>, x: T, rest: seq<T>)
    requires x !in pre
    ensures NextIn(pre + [x] + rest, x) == if rest == [] then None else Some(rest[0])
  {
    if pre == [] {
      assert pre + [x] + rest == [x] + rest;
    } else {
      assert (pre + [x] + rest)[1..] == pre[1..] + [x] + rest;
      NextInIs(pre[1..], x, rest);
    }
  }

  class Ircd {
    const me: Server
    var servers: seq<Server>
    var clients: seq<Client>
    var count: int
    var local: int
    var links: set<SendQueue.Connection>
    var events: seq<Event>
    // destroy_server_count
    var splitDepth: nat

    ghost predicate Valid()
      reads this, servers
    {
      && Ordered(servers, me) && Distinct(clients)
      && forall x <- servers :: x.registered
    }

    ghost function Now(): Net
      reads this
    {
      Net(servers, clients, count, local, links, multiset(events), events)
    }

    constructor (me: Server)
      ensures Valid() && this.me == me && servers == [] && clients == [] && splitDepth == 0 && InStep(Now())
    {
      this.me := me;
      servers, clients, count, local, links, events, splitDepth := [], [], 1, 0, {}, [], 0;
    }

    /** `server_register`: head insertion is what keeps a server ahead of its parent. */
    method Register(sp: Server)
      requires Valid() && sp !in servers && sp != me
      requires sp.parent == me || sp.parent in servers
      modifies this, sp`registered
      ensures Valid() && servers == [sp] + old(servers) && sp.registered
      ensures Now() == old(Now()).(servers := servers, count := old(count) + 1,
                                   local := old(local) + (if sp.conn != null then 1 else 0))
      ensures splitDepth == old(splitDepth) && (old(InStep(Now())) ==> InStep(Now()))
    {
      hide InStep;
      ghost var s0 := Now();
      servers := [sp] + servers;
      count := count + 1;
      if sp.conn != null {
        local := local + 1;
      }
      sp.registered := true;
      if InStep(s0) {
        RegisterInStep(s0, Now(), sp);
      }
    }

    /** `LIST_NEXT` on a list of distinct elements. */
    method NextServer(sp: Server) returns (next: Server?)
      ensures next == match NextIn(servers, sp) case None => null case Some(x) => x
    {
      var i := 0;
      assert servers[0..] == servers;
      while i < |servers|
        invariant 0 <= i <= |servers| && NextIn(servers, sp) == NextIn(servers[i..], sp)
      {
        if servers[i] == sp {
          return if i + 1 < |servers| then servers[i + 1] else null;
        }
        assert servers[i..][1..] == servers[i + 1..];
        i := i + 1;
      }
      return null;
    }

    /** The loop over the clients, destroying those on `srv`. */
    method DestroyClientsOn(srv: Server)
      requires Valid()
      modifies this`clients, this`events
      ensures Valid() && clients == Off(old(clients), {srv})
      ensures multiset(events) == old(multiset(events)) + Quits(old(clients), {srv})
      ensures old(events) <= events
      ensures forall k :: |old(events)| <= k < |events| ==> events[k].Quit? && events[k].client.server == srv
    {
      hide Ordered, Distinct, Off, Quits;
      var i := 0;
      ghost var kept, rest := [], clients;
      assert kept + rest == clients;
      while i < |clients|
        invariant i == |kept| && clients == kept + rest && Distinct(clients)
        invariant Off(old(clients), {srv}) == kept + Off(rest, {srv})
        invariant old(events) <= events
        invariant forall k :: |old(events)| <= k < |events| ==> events[k].Quit? && events[k].client.server == srv
        invariant multiset(events) + Quits(rest, {srv}) == old(multiset(events)) + Quits(old(clients), {srv})
        decreases |rest|
      {
        ghost var cp, rest1 := rest[0], rest[1..];
        assert rest == [cp] + rest1;
        ClientStep(rest, srv);
        if clients[i].server == srv {
          if clients[i].registered {
            events := events + [Quit(clients[i])];
          }
          DistinctDrop(kept, cp, rest1);
          SliceOut(kept, cp, rest1);
          clients := clients[..i] + clients[i + 1..];
        } else {
          KeepOne(kept, cp, rest1, Off(rest1, {srv}));
          kept := kept + [cp];
          i := i + 1;
        }
        rest := rest1;
      }
      ClientStep(rest, srv);
    }

    /** A link is closed: its queue is flushed and the connection destroyed. */
    method CloseLink(conn: SendQueue.Connection)
      modifies this`links
      ensures links == old(links) - {conn}
    {
      links := links - {conn};
    }

    /** The part of `destroy_server` after the loop over the other servers. */
    method RemoveSelf(srv: Server)
      requires Valid() && srv in servers && ChildClosed({srv}, servers) && splitDepth > 0
      modifies this
      ensures Valid() && splitDepth == old(splitDepth) && SelfRemoved(srv, splitDepth == 1, old(Now()), Now())
      ensures forall x <- servers :: x in old(servers)
    {
      hide Ordered, Distinct, Off, Quits, Without, Removed, SelfRemoved, ChildClosed, Elems, Linked, Conns;
      ghost var s1 := Now();
      DestroyClientsOn(srv);
      Discount(srv);
      Unlink(srv);
      if srv.conn != null {
        CloseLink(srv.conn);
      }
      SelfStep(srv, splitDepth == 1, s1, Now());
    }

    /** The counters, and the announcement of the split. */
    method Discount(srv: Server)
      modifies this`count, this`local, this`events
      ensures
        var s := old(Now());
        Now() == s.(count := s.count - 1, local := s.local - (if srv.conn != null then 1 else 0),
                    events := s.events + multiset{Squit(srv, splitDepth == 1)},
                    log := s.log + [Squit(srv, splitDepth == 1)])
    {
      count := count - 1;
      if srv.conn != null {
        local := local - 1;
      }
      events := events + [Squit(srv, splitDepth == 1)];
    }

    /** `LIST_REMOVE` of a server without children. */
    method Unlink(srv: Server)
      requires Valid() && srv in servers && ChildClosed({srv}, servers)
      modifies this`servers
      ensures Valid() && servers == Without(old(servers), {srv})
    {
      hide Ordered, Distinct, Without, ChildClosed;
      OrderedWithout(servers, me, {srv});
      var i := IndexOf(srv);
      RemoveOne(servers, i, me);
      servers := servers[..i] + servers[i + 1..];
    }

    method IndexOf(srv: Server) returns (i: nat)
      requires srv in servers
      ensures i < |servers| && servers[i] == srv
    {
      i := 0;
      while servers[i] != srv
        invariant i < |servers| && srv in servers[i..]
        decreases |servers| - i
      {
        assert servers[i..] == [servers[i]] + servers[i + 1..];
        i := i + 1;
      }
    }

    /**
     `destroy_server` on a registered server: exactly its subtree goes, with exactly the clients on
     it; the counters drop by that many; and each server of it is announced once.  `tail` is the
     part of the list behind `srv`: none of it is touched, so the `next` pointer a caller saved
     before the call still points into the list.
     */
    method DestroyServer(srv: Server, ghost ahead: seq<Server>, ghost tail: seq<Server>)
      returns (ghost u: set<Server>, ghost front: seq<Server>)
      requires Valid() && servers == ahead + ([srv] + tail)
      modifies this
      ensures Valid() && splitDepth == old(splitDepth)
      ensures Split(srv, u, old(splitDepth) == 0, old(Now()), Now())
      ensures servers == front + tail && |front| <= |ahead| && u !! Elems(tail)
      ensures old(InStep(Now())) ==> InStep(Now())
      decreases |ahead|, 1
    {
      hide Ordered, Distinct, Split, Partial, Without, SelfRemoved, ChildClosed, Off, Quits, InStep;
      ghost var s0 := Now();
      splitDepth := splitDepth + 1;
      u, front := DestroyChildren(srv, ahead, tail);
      ghost var s1 := Now();
      PartialServers(srv, u, s0, s1);
      Childless(servers, srv);
      assert srv in [srv] + tail;
      RemoveSelf(srv);
      PartialEnd(srv, u, old(splitDepth) == 0, s0, s1, Now());
      splitDepth := splitDepth - 1;
      SelfGone(srv, old(splitDepth) == 0, s1, Now(), front, tail, me);
      u := u + {srv};
      SplitBehind(srv, u, old(splitDepth) == 0, s0, Now(), front, tail);
      if InStep(s0) {
        SplitInStep(srv, u, old(splitDepth) == 0, s0, Now(), me);
      }
    }

    /** `destroy_server` on a server that never registered: it is on no list. */
    method DestroyUnregistered(srv: Server)
      requires Valid() && !srv.registered
      modifies this
      ensures Valid() && splitDepth == old(splitDepth)
      ensures Now() == old(Now()).(links := if srv.conn != null then old(links) - {srv.conn} else old(links))
    {
      splitDepth := splitDepth + 1;
      if srv.conn != null {
        CloseLink(srv.conn);
      }
      splitDepth := splitDepth - 1;
    }

    /** One turn of that loop, for a child; `u` are the servers below `srv` that are gone so far. */
    method DestroyChild(srv: Server, node: Server, ghost pre: seq<Server>, ghost rest: seq<Server>, ghost s0: Net,
                        ghost u: set<Server>)
      returns (ghost u': set<Server>, ghost pre': seq<Server>)
      requires Valid() && servers == pre + ([node] + rest) && splitDepth > 0
      requires node.parent == srv && srv in rest && Partial(srv, u, s0, Now())
      requires forall x <- pre :: x.parent != srv
      modifies this
      ensures Valid() && splitDepth == old(splitDepth) && Partial(srv, u', s0, Now())
      ensures servers == pre' + rest && |pre'| <= |pre| && forall x <- pre' :: x.parent != srv
      decreases |pre|, 2
    {
      hide Ordered, Distinct, Split, Partial, Without, NextIn, Off, Quits, Elems, Subtree, Squits, Removed, ChildClosed,
           InStep, Logged;
      ghost var s1 := Now();
      ghost var v;
      v, pre' := DestroyServer(node, pre, rest);
      NotBehind(v, rest, srv);
      assert node in [node] + rest;
      PartialChild(srv, u, s0, s1, node, v, Now());
      NoChildLeft(pre, node, rest, pre', v, srv, s1, Now(), me);
      u' := u + v;
    }

    /** The loop of `destroy_server` over the other servers. */
    method DestroyChildren(srv: Server, ghost ahead: seq<Server>, ghost tail: seq<Server>)
      returns (ghost u: set<Server>, ghost front: seq<Server>)
      requires Valid() && servers == ahead + ([srv] + tail) && splitDepth > 0
      modifies this
      ensures Valid() && splitDepth == old(splitDepth)
      ensures Partial(srv, u, old(Now()), Now())
      ensures servers == front + ([srv] + tail) && |front| <= |ahead|
      ensures forall x <- servers :: x.parent != srv
      decreases |ahead|, 0
    {
      hide Ordered, Distinct, Split, Partial, Without, NextIn, Off, Quits, Elems, Subtree, Squits, Removed, ChildClosed,
           InStep, Logged;
      ghost var s0 := Now();
      u, front := {}, ahead;
      assert srv in [srv] + tail;
      PartialStart(srv, s0);
      ghost var pre: seq<Server>, rest: seq<Server>, between: seq<Server>, passed := [], servers, ahead, false;
      var sp: Server? := if servers == [] then null else servers[0];
      while sp != null
        invariant Valid() && splitDepth == old(splitDepth) && Partial(srv, u, s0, Now())
        invariant servers == pre + rest && sp == if rest == [] then null else rest[0]
        invariant forall x <- pre :: x.parent != srv
        invariant !passed ==> rest == between + ([srv] + tail) && |pre| + |between| <= |ahead|
        invariant passed ==> forall x <- rest :: x.parent != srv
        invariant passed ==> servers == front + ([srv] + tail) && |front| <= |ahead|
        decreases |rest|
      {
        var node: Server := sp;
        ghost var rest1 := rest[1..];
        assert rest == [node] + rest1;
        Around(pre, node, rest1, me);
        var sp2 := NextServer(node);
        NextAfter(pre, node, rest1);
        if node.parent == srv {
          BeforeParent(between, node, rest1, srv, tail);
          u, pre := DestroyChild(srv, node, pre, rest1, s0, u);
          between := between[1..];
        } else {
          if !passed && node == srv {
            SrvHere(between, rest, srv, tail);
            passed, front := true, pre;
          } else if !passed {
            BeforeParent(between, node, rest1, srv, tail);
            between := between[1..];
          }
          KeepOne(pre, node, rest1, []);
          pre := pre + [node];
        }
        rest := rest1;
        sp := sp2;
      }
    }
  }

  lemma FirstInOrder(ts: seq<Server>, me: Server)
    requires ts != [] && Ordered(ts, me)
    ensures ts[0] !in ts[1..] && ts[0] != me && (ts[0].parent == me || ts[0].parent in ts[1..])
  {
  }

  /** Where the parent and the children of a server can stand. */
  lemma Around(pre: seq<Server>, sp: Server, rest: seq<Server>, me: Server)
    requires Ordered(pre + ([sp] + rest), me)
    ensures sp.parent != sp && sp !in pre && sp !in rest
    ensures forall x <- rest :: x.parent != sp && x !in pre
  {
    hide Ordered;
    ChildrenComeFirst(pre, [sp] + rest, me);
    FirstInOrder([sp] + rest, me);
    assert ([sp] + rest)[1..] == rest;
    assert pre + ([sp] + rest) == (pre + [sp]) + rest;
    ChildrenComeFirst(pre + [sp], rest, me);
    assert sp in Elems(pre + [sp]) && sp in Elems([sp] + rest);
    forall x | x in rest
      ensures x.parent != sp && x !in pre
    {
      assert x in pre + [sp] + rest && x in Elems(rest) && x in Elems([sp] + rest);
    }
  }

  lemma ClientStep(cs: seq<Client>, srv: Server)
    ensures cs == [] ==> Off(cs, {srv}) == [] && Quits(cs, {srv}) == multiset{}
    ensures cs != [] && cs[0].server == srv ==>
              && Off(cs, {srv}) == Off(cs[1..], {srv})
              && Quits(cs, {srv}) == (if cs[0].registered then multiset{Quit(cs[0])} else multiset{}) +
                  Quits(cs[1..], {srv})
    ensures cs != [] && cs[0].server != srv ==>
              Off(cs, {srv}) == [cs[0]] + Off(cs[1..], {srv}) && Quits(cs, {srv}) == Quits(cs[1..], {srv})
  {
  }

  lemma Childless(ts: seq<Server>, srv: Server)
    requires forall x <- ts :: x.parent != srv
    ensures ChildClosed({srv}, ts)
  {
  }

  lemma NextAfter(pre: seq<Server>, node: Server, rest: seq<Server>)
    requires node !in pre
    ensures NextIn(pre + ([node] + rest), node) == if rest == [] then None else Some(rest[0])
  {
    assert pre + ([node] + rest) == pre + [node] + rest;
    NextInIs(pre, node, rest);
  }

  /** A child met by the loop is ahead of its parent, with the parent among what follows. */
  lemma BeforeParent(between: seq<Server>, node: Server, rest: seq<Server>, srv: Server, tail: seq<Server>)
    requires [node] + rest == between + ([srv] + tail) && node != srv
    ensures between != [] && between[0] == node && rest == between[1..] + ([srv] + tail) && srv in rest
  {
    assert ([node] + rest)[0] == (between + ([srv] + tail))[0];
    if between != [] {
      assert rest == ([node] + rest)[1..] == (between + ([srv] + tail))[1..];
      assert rest == between[1..] + ([srv] + tail);
      assert rest[|between| - 1] == srv;
    }
  }

  lemma NotBehind(v: set<Server>, rest: seq<Server>, srv: Server)
    requires v !! Elems(rest) && srv in rest
    ensures srv !in v
  {
  }

  lemma InRest<T>(s: seq<T>, i: nat)
    requires i < |s|
    ensures i == 0 || s[i] in s[1..]
  {
    if i > 0 {
      assert s[1..][i - 1] == s[i];
    }
  }

  lemma SrvHere(between: seq<Server>, rest: seq<Server>, srv: Server, tail: seq<Server>)
    requires rest == between + ([srv] + tail) && rest[0] == srv && srv !in rest[1..]
    ensures between == [] && rest[1..] == tail
  {
    assert rest[|between|] == srv;
    InRest(rest, |between|);
  }

  lemma SelfGone(srv: Server, first: bool, s1: Net, s2: Net, front: seq<Server>, tail: seq<Server>, me: Server)
    requires SelfRemoved(srv, first, s1, s2) && s1.servers == front + ([srv] + tail) && Ordered(s1.servers, me)
    ensures s2.servers == front + tail
  {
    RemoveOne(s1.servers, |front|, me);
    assert s1.servers[..|front|] == front && s1.servers[|front| + 1..] == tail;
  }

  lemma SplitBehind(root: Server, u: set<Server>, first: bool, s0: Net, s: Net, front: seq<Server>, tail: seq<Server>)
    requires Split(root, u, first, s0, s) && s.servers == front + tail
    ensures u !! Elems(tail)
  {
    hide Off, Quits, Squits, Without;
    forall x | x in tail
      ensures x !in u
    {
      assert x in front + tail;
    }
  }

  lemma NoChildLeft(pre: seq<Server>, sp: Server, rest: seq<Server>, pre1: seq<Server>, v: set<Server>, srv: Server,
                    s1: Net, s2: Net, me: Server)
    requires forall x <- pre :: x.parent != srv
    requires Split(sp, v, false, s1, s2) && s1.servers == pre + ([sp] + rest) && s2.servers == pre1 + rest
    requires Ordered(s2.servers, me)
    ensures forall x <- pre1 :: x.parent != srv
  {
    hide Without, Off, Quits, Squits;
    ChildrenComeFirst(pre1, rest, me);
    forall x | x in pre1
      ensures x.parent != srv
    {
      assert x in pre1 + rest;
      assert x in Elems(pre1);
    }
  }

  lemma RemoveOne(ts: seq<Server>, i: nat, me: Server)
    requires i < |ts| && Ordered(ts, me)
    ensures ts[..i] + ts[i + 1..] == Without(ts, {ts[i]})
  {
    var pre, rest := ts[..i], ts[i + 1..];
    assert ts == pre + ([ts[i]] + rest);
    Around(pre, ts[i], rest, me);
    WithoutConcat(pre, [ts[i]] + rest, {ts[i]});
    WithoutNothing(pre, {ts[i]});
    WithoutNothing(rest, {ts[i]});
    assert ([ts[i]] + rest)[1..] == rest;
  }

  lemma SelfStep(srv: Server, first: bool, s1: Net, s2: Net)
    requires s2 == Net(Without(s1.servers, {srv}), Off(s1.clients, {srv}), s1.count - 1,
                       s1.local - (if srv.conn != null then 1 else 0),
                       if srv.conn != null then s1.links - {srv.conn} else s1.links,
                       s1.events + Quits(s1.clients, {srv}) + multiset{Squit(srv, first)}, s2.log)
    requires LoggedSelf(s1, s2, srv, first)
    ensures SelfRemoved(srv, first, s1, s2)
  {
    hide Without, Off, Quits;
    OneLink(srv);
  }

  lemma OneLink(srv: Server)
    ensures |Linked({srv})| == if srv.conn != null then 1 else 0
    ensures Conns({srv}) == if srv.conn != null then {srv.conn} else {}
  {
    assert Linked({srv}) == if srv.conn != null then {srv} else {};
  }

  lemma KeepOne<T>(kept: seq<T>, x: T, rest: seq<T>, off: seq<T>)
    ensures kept + ([x] + rest) == kept + [x] + rest && kept + ([x] + off) == kept + [x] + off
  {
  }

  lemma SliceOut<T>(pre: seq<T>, x: T, rest: seq<T>)
    ensures var s := pre + ([x] + rest); s[..|pre|] + s[|pre| + 1..] == pre + rest
  {
  }

  lemma DistinctDrop<T>(pre: seq<T>, x: T, rest: seq<T>)
    requires Distinct(pre + ([x] + rest))
    ensures Distinct(pre + rest)
  {
    var all, fewer, n := pre + ([x] + rest), pre + rest, |pre|;
    forall i, j | 0 <= i < j < |fewer|
      ensures fewer[i] != fewer[j]
    {
      assert fewer[i] == all[if i < n then i else i + 1] && fewer[j] == all[if j < n then j else j + 1];
    }
  }
}
