/**
 The burst that introduces our side of the network to a new server: `server_establish`, and
 `server_sendnicks` started at ourselves (modules/ircd/server.c).
 */
module Burst {
  import opened ServerTree

  datatype Message = Intro(server: Server) | Nick(client: Client)

  // ----- who is to be introduced

  /** Every child of a member of `s`, other than `to`, is a member. */
  ghost predicate ClosedAvoiding(s: set<Server>, ts: seq<Server>, to: Server) {
    forall x <- ts :: x != to && x.parent in s ==> x in s
  }

  /** `r` is what can be reached from `from` down the tree without passing through `to`. */
  ghost predicate Reaches(from: Server, r: set<Server>, ts: seq<Server>, to: Server) {
    && from in r && r <= Elems(ts) + {from} && ClosedAvoiding(r, ts, to)
    && (forall x <- r :: x == from || x.parent in r)
    && forall s :: s <= Elems(ts) + {from} && from in s && ClosedAvoiding(s, ts, to) ==> r <= s
  }

  lemma SubtreeParents(root: Server, u: set<Server>, ts: seq<Server>)
    requires Subtree(root, u, ts)
    ensures forall x <- u :: x == root || x.parent in u
  {
    var s := set x | x in u && (x == root || x.parent in u);
    assert ChildClosed(s, ts);
  }

  /** The burst from ourselves covers exactly the network outside the subtree of `to`. */
  lemma ReachesAllButTarget(me: Server, r: set<Server>, ts: seq<Server>, to: Server, u: set<Server>)
    requires Ordered(ts, me) && Reaches(me, r, ts, to) && Subtree(to, u, ts)
    ensures r == {me} + (Elems(ts) - u)
  {
    hide Ordered;
    ParentsInList(ts, me);
    SubtreeParents(to, u, ts);
    var s := {me} + (Elems(ts) - u);
    assert ClosedAvoiding(s, ts, to) by {
      forall x | x in ts && x != to && x.parent in s
        ensures x in s
      {
      }
    }
    assert [] + ts == ts;
    AllReached(me, r, ts, to, u, [], ts);
  }

  lemma {:induction false} AllReached(me: Server, r: set<Server>, ts: seq<Server>, to: Server, u: set<Server>,
                                      pre: seq<Server>, rest: seq<Server>)
    requires Ordered(ts, me) && Reaches(me, r, ts, to) && Subtree(to, u, ts)
    requires ts == pre + rest && Ordered(rest, me)
    ensures forall x <- rest :: x !in u ==> x in r
    decreases |rest|
  {
    if rest != [] {
      assert ts == (pre + [rest[0]]) + rest[1..];
      AllReached(me, r, ts, to, u, pre + [rest[0]], rest[1..]);
      var x := rest[0];
      assert x in ts;
      if x !in u && x.parent != me {
        assert x.parent in rest[1..] && x.parent in ts;
      }
    }
  }

  // ----- what is sent

  ghost function Intros(r: set<Server>): multiset<Message> {
    multiset(set x | x in r :: Intro(x))
  }

  ghost function Nicks(cs: seq<Client>, r: set<Server>): multiset<Message> {
    if cs == [] then multiset{}
    else (if cs[0].server in r && cs[0].registered then multiset{Nick(cs[0])} else multiset{}) + Nicks(cs[1..], r)
  }

  /** Each server after its parent, each client after its server; `known` was introduced before. */
  ghost predicate InOrder(out: seq<Message>, known: set<Server>) {
    out == [] ||
    match out[0]
    case Intro(x) => x.parent in known && InOrder(out[1..], known + {x})
    case Nick(c) => c.server in known && InOrder(out[1..], known)
  }

  ghost function Introduced(out: seq<Message>): set<Server> {
    set m | m in out && m.Intro? :: m.server
  }

  lemma {:induction false} InOrderConcat(a: seq<Message>, b: seq<Message>, known: set<Server>)
    requires InOrder(a, known) && InOrder(b, known + Introduced(a))
    ensures InOrder(a + b, known)
  {
    if a == [] {
      assert a + b == b && known + Introduced(a) == known;
    } else {
      assert (a + b)[1..] == a[1..] + b;
      assert a == [a[0]] + a[1..];
      match a[0]
      case Intro(x) =>
        assert known + Introduced(a) == (known + {x}) + Introduced(a[1..]);
        InOrderConcat(a[1..], b, known + {x});
      case Nick(c) =>
        assert Introduced(a) == Introduced(a[1..]);
        InOrderConcat(a[1..], b, known);
    }
  }

  lemma NicksAdd(cs: seq<Client>, u: set<Server>, v: set<Server>)
    requires u !! v
    ensures Nicks(cs, u + v) == Nicks(cs, u) + Nicks(cs, v)
  {
    if cs != [] {
      NicksAdd(cs[1..], u, v);
    }
  }

  lemma IntrosAdd(u: set<Server>, v: set<Server>)
    requires u !! v
    ensures Intros(u + v) == Intros(u) + Intros(v)
  {
    var a, b := set x | x in u :: Intro(x), set x | x in v :: Intro(x);
    assert (set x | x in u + v :: Intro(x)) == a + b && a !! b;
  }

  lemma OneIntro(x: Server)
    ensures Intros({x}) == multiset{Intro(x)} && Intros({}) == multiset{}
  {
    assert (set y | y in {x} :: Intro(y)) == {Intro(x)};
  }

  // ----- progress of one call

  /** `u` is what the first `i` servers of the list have contributed below `from`. */
  ghost predicate Below(from: Server, u: set<Server>, ts: seq<Server>, to: Server, i: nat)
    requires i <= |ts|
  {
    && u <= Elems(ts[..i]) && from !in u && ClosedAvoiding(u, ts, to)
    && (forall x <- u :: x.parent in u + {from})
    && (forall x <- ts[..i] :: x.parent == from && x != to ==> x in u)
    && forall s :: s <= Elems(ts) + {from} && from in s && ClosedAvoiding(s, ts, to) ==> u <= s
  }

  /** The part of the tree below a child is new, and stays ahead of the child in the list. */
  lemma ChildIsNew(from: Server, u: set<Server>, ts: seq<Server>, to: Server, i: nat, me: Server, v: set<Server>)
    requires i < |ts| && Ordered(ts, me) && Below(from, u, ts, to, i) && from !in ts[..i + 1]
    requires ts[i].parent == from && Reaches(ts[i], v, ts, to)
    ensures v <= Elems(ts[..i + 1]) && u !! v && from !in v
  {
    hide Ordered, ClosedAvoiding;
    var s := Elems(ts[..i + 1]) - u;
    BehindIsClosed(from, u, ts, to, i, me);
    assert ts[i] in ts[..i + 1];
  }

  /** What is ahead of a child and not yet covered holds the children of its members. */
  lemma BehindIsClosed(from: Server, u: set<Server>, ts: seq<Server>, to: Server, i: nat, me: Server)
    requires i < |ts| && Ordered(ts, me) && Below(from, u, ts, to, i) && from !in ts[..i + 1]
    ensures ts[i] !in u && ClosedAvoiding(Elems(ts[..i + 1]) - u, ts, to)
  {
    hide Ordered;
    var child, pre, rest := ts[i], ts[..i + 1], ts[i + 1..];
    assert ts == pre + rest;
    ChildrenComeFirst(pre, rest, me);
    assert pre == ts[..i] + [child];
    ListSplit(ts, i, me);
    var s := Elems(pre) - u;
    forall x | x in ts && x != to && x.parent in s
      ensures x in s
    {
      assert x.parent in Elems(pre);
      assert x in Elems(pre);
    }
  }

  lemma ListSplit(ts: seq<Server>, i: nat, me: Server)
    requires i < |ts| && Ordered(ts, me)
    ensures ts[i] !in ts[..i] && (forall x <- ts[i..] :: x.parent != ts[i])
  {
    hide Ordered;
    assert ts == ts[..i] + ([ts[i]] + ts[i + 1..]);
    Around(ts[..i], ts[i], ts[i + 1..], me);
    assert ts[i..] == [ts[i]] + ts[i + 1..];
  }

  lemma BelowChild(from: Server, u: set<Server>, ts: seq<Server>, to: Server, i: nat, me: Server, v: set<Server>)
    requires i < |ts| && Ordered(ts, me) && Below(from, u, ts, to, i) && from !in ts[..i + 1]
    requires ts[i].parent == from && ts[i] != to && Reaches(ts[i], v, ts, to)
    ensures u !! v && from !in v && Below(from, u + v, ts, to, i + 1)
  {
    hide Ordered;
    ChildIsNew(from, u, ts, to, i, me, v);
    assert ts[..i + 1] == ts[..i] + [ts[i]];
    forall s | s <= Elems(ts) + {from} && from in s && ClosedAvoiding(s, ts, to)
      ensures u + v <= s
    {
      ReachIsLeast(from, ts, to, i, v, s, me);
    }
  }

  lemma ReachIsLeast(from: Server, ts: seq<Server>, to: Server, i: nat, v: set<Server>, s: set<Server>, me: Server)
    requires i < |ts| && Ordered(ts, me) && ts[i].parent == from && ts[i] != to && Reaches(ts[i], v, ts, to)
    requires s <= Elems(ts) + {from} && from in s && ClosedAvoiding(s, ts, to)
    ensures v <= s
  {
    hide Ordered;
    ParentsInList(ts, me);
    var t := s * Elems(ts);
    if from in ts {
      assert t == s;
    } else {
      assert forall x <- ts :: x != from;
    }
    var t' := t + {ts[i]};
    assert ts[i] in s;
    assert ClosedAvoiding(t, ts, to);
  }

  lemma BelowSkip(from: Server, u: set<Server>, ts: seq<Server>, to: Server, i: nat)
    requires i < |ts| && Below(from, u, ts, to, i) && (ts[i].parent != from || ts[i] == to)
    ensures Below(from, u, ts, to, i + 1)
  {
    assert ts[..i + 1] == ts[..i] + [ts[i]];
  }

  lemma BelowEnd(from: Server, u: set<Server>, ts: seq<Server>, to: Server)
    requires Below(from, u, ts, to, |ts|)
    ensures Reaches(from, u + {from}, ts, to)
  {
    assert ts[..|ts|] == ts;
  }

  lemma {:induction false} NicksInOrder(out: seq<Message>, from: Server, known: set<Server>)
    requires from in known && forall m <- out :: m.Nick? && m.client.server == from
    ensures InOrder(out, known) && Introduced(out) == {}
  {
    if out != [] {
      NicksInOrder(out[1..], from, known);
      assert out == [out[0]] + out[1..];
    }
  }

  /** Everything that is out so far, with the parts below `from` in `u`. */
  ghost predicate Sent(out: seq<Message>, from: Server, u: set<Server>, me: Server, cs: seq<Client>,
                       known: set<Server>) {
    && multiset(out) == Intros(u + {from} - {me}) + Nicks(cs, u + {from})
    && InOrder(out, known) && from in known + Introduced(out)
  }

  lemma SentChild(out: seq<Message>, from: Server, u: set<Server>, me: Server, cs: seq<Client>, known: set<Server>,
                  more: seq<Message>, v: set<Server>)
    requires Sent(out, from, u, me, cs, known)
    requires u !! v && from !in v && me !in v
    requires multiset(more) == Intros(v) + Nicks(cs, v) && InOrder(more, known + Introduced(out))
    ensures Sent(out + more, from, u + v, me, cs, known)
  {
    hide Intros, Nicks, InOrder;
    InOrderConcat(out, more, known);
    assert u + v + {from} - {me} == (u + {from} - {me}) + v;
    assert u + v + {from} == (u + {from}) + v;
    IntrosAdd(u + {from} - {me}, v);
    NicksAdd(cs, u + {from}, v);
    assert forall m <- out :: m in out + more;
  }

  /** How far a server that introduced itself has come: its flags, and the one of its connection. */
  class Link {
    const srv: Server
    var nickchan: bool
    var misc: bool
    var bursting: bool
    var noSendq: bool

    constructor (srv: Server)
      ensures this.srv == srv && !nickchan && !misc && bursting && !noSendq
    {
      this.srv := srv;
      nickchan, misc, bursting, noSendq := false, false, true, false;
    }
  }

  /** The whole network but the target's side: each server and each registered client once, in order. */
  ghost predicate WholeBurst(out: seq<Message>, me: Server, ts: seq<Server>, cs: seq<Client>, to: Server)
    requires to in ts
  {
    var ours := Elems(ts) - SubtreeOf(to, ts);
    multiset(out) == Intros(ours) + Nicks(cs, {me} + ours) && InOrder(out, {me})
  }

  lemma BurstIsWhole(out: seq<Message>, me: Server, ts: seq<Server>, cs: seq<Client>, to: Server, r: set<Server>)
    requires Ordered(ts, me) && Reaches(me, r, ts, to) && to in ts && InOrder(out, {me})
    requires multiset(out) == Intros(r - {me}) + Nicks(cs, r)
    ensures WholeBurst(out, me, ts, cs, to)
  {
    hide Ordered, Reaches, Intros, Nicks, InOrder;
    var u := SubtreeOf(to, ts);
    ReachesAllButTarget(me, r, ts, to, u);
    ParentsInList(ts, me);
    assert r - {me} == Elems(ts) - u;
  }

  class Establish {
    const net: Ircd

    constructor (net: Ircd)
      ensures this.net == net
    {
      this.net := net;
    }

    /** The clients of one server, in list order. */
    method SendClients(from: Server) returns (out: seq<Message>)
      ensures multiset(out) == Nicks(net.clients, {from})
      ensures forall m <- out :: m.Nick? && m.client.server == from
    {
      out := [];
      var i := 0;
      while i < |net.clients|
        invariant 0 <= i <= |net.clients|
        invariant multiset(out) + Nicks(net.clients[i..], {from}) == Nicks(net.clients, {from})
        invariant forall m <- out :: m.Nick? && m.client.server == from
      {
        var cp := net.clients[i];
        assert net.clients[i..][1..] == net.clients[i + 1..];
        if cp.registered && cp.server == from {
          out := out + [Nick(cp)];
        }
        i := i + 1;
      }
    }

    /**
     `server_sendnicks`: what can be reached from `from` without passing `to` is introduced, each
     server once and after its parent, each registered client once and after its server.  `pos` is
     where `from` stands in the list.
     */
    method SendNicks(to: Server, from: Server, ghost pos: nat, ghost known: set<Server>)
      returns (out: seq<Message>, ghost r: set<Server>)
      requires net.Valid() && from != to
      requires if from == net.me then pos == |net.servers| else pos < |net.servers| && net.servers[pos] == from
      requires if from == net.me then net.me in known else from.parent in known
      ensures to.conn == null ==> out == []
      ensures to.conn != null ==>
                && Reaches(from, r, net.servers, to)
                && multiset(out) == Intros(r - {net.me}) + Nicks(net.clients, r)
                && InOrder(out, known)
      decreases pos
    {
      hide Ordered, Intros, Nicks, InOrder, Reaches, Below, Sent;
      if to.conn == null {
        return [], {};
      }
      ghost var ts, me := net.servers, net.me;
      ParentsInList(ts, me);
      out := [];
      if from != net.me {
        out := [Intro(from)];
      }
      var nicks := SendClients(from);
      SentStart(out, nicks, from, me, net.clients, known);
      out := out + nicks;
      ghost var u := {};
      BelowStart(from, ts, to);
      var i := 0;
      while i < |net.servers|
        invariant 0 <= i <= |ts| && Below(from, u, ts, to, i) && me !in u
        invariant Sent(out, from, u, me, net.clients, known)
      {
        var sp := net.servers[i];
        if sp.parent == from && sp != to {
          ChildBefore(ts, me, i, from, pos);
          SentKnows(out, from, u, me, net.clients, known);
          var more, v := SendNicks(to, sp, i, known + Introduced(out));
          ReachesInList(sp, v, ts, to, me);
          BelowChild(from, u, ts, to, i, me, v);
          assert v - {me} == v;
          SentChild(out, from, u, me, net.clients, known, more, v);
          u := u + v;
          out := out + more;
        } else {
          BelowSkip(from, u, ts, to, i);
        }
        i := i + 1;
      }
      BelowEnd(from, u, ts, to);
      SentKnows(out, from, u, me, net.clients, known);
      r := u + {from};
    }

    /**
     `server_establish`: the first call sends the burst of servers and clients and lifts the limit on
     the queue, the second the rest, the third puts the limit back; any more do nothing.
     */
    method ServerEstablish(link: Link) returns (r: int, out: seq<Message>)
      requires net.Valid() && link.srv in net.servers && link.srv.conn != null
      modifies link
      ensures if old(link.nickchan) then out == [] else WholeBurst(out, net.me, net.servers, net.clients, link.srv)
      ensures link.nickchan && link.misc == (old(link.misc) || old(link.nickchan))
      ensures var ends := old(link.nickchan) && old(link.misc) && old(link.bursting);
              && link.bursting == (old(link.bursting) && !ends)
              && link.noSendq == (!old(link.nickchan) || (old(link.noSendq) && !ends))
      ensures r == 0 <==> old(link.nickchan) && old(link.misc) && !old(link.bursting)
    {
      hide Ordered, Intros, Nicks, InOrder, Reaches, WholeBurst;
      ParentsInList(net.servers, net.me);
      r, out := 1, [];
      if !link.nickchan {
        link.noSendq := true;
        ghost var reached: set<Server>;
        out, reached := SendNicks(link.srv, net.me, |net.servers|, {net.me});
        BurstIsWhole(out, net.me, net.servers, net.clients, link.srv, reached);
        link.nickchan := true;
      } else if !link.misc {
        link.misc := true;
      } else if link.bursting {
        link.bursting, link.noSendq := false, false;
      } else {
        r := 0;
      }
    }
  }

  lemma BelowStart(from: Server, ts: seq<Server>, to: Server)
    ensures Below(from, {}, ts, to, 0)
  {
  }

  lemma SentStart(out: seq<Message>, nicks: seq<Message>, from: Server, me: Server, cs: seq<Client>, known: set<Server>)
    requires out == if from == me then [] else [Intro(from)]
    requires if from == me then me in known else from.parent in known
    requires multiset(nicks) == Nicks(cs, {from}) && forall m <- nicks :: m.Nick? && m.client.server == from
    ensures Sent(out + nicks, from, {}, me, cs, known)
  {
    hide Nicks;
    OneIntro(from);
    assert {} + {from} == {from} && {from} - {from} == {};
    assert from in known + Introduced(out) by {
      if from != me {
        assert out[0] in out;
      }
    }
    NicksInOrder(nicks, from, known + Introduced(out));
    InOrderConcat(out, nicks, known);
    assert forall m <- out :: m in out + nicks;
  }

  lemma SentKnows(out: seq<Message>, from: Server, u: set<Server>, me: Server, cs: seq<Client>, known: set<Server>)
    requires Sent(out, from, u, me, cs, known)
    ensures from in known + Introduced(out) && InOrder(out, known)
    ensures multiset(out) == Intros(u + {from} - {me}) + Nicks(cs, u + {from})
  {
  }

  lemma InTail<T>(ts: seq<T>, pos: nat, i: nat)
    requires pos <= |ts| && i < |ts|
    ensures i < pos || ts[i] in ts[pos..]
  {
    if pos <= i {
      assert ts[pos..][i - pos] == ts[i];
    }
  }

  lemma ChildBefore(ts: seq<Server>, me: Server, i: nat, from: Server, pos: nat)
    requires Ordered(ts, me) && i < |ts| && ts[i].parent == from
    requires if from == me then pos == |ts| else pos < |ts| && ts[pos] == from
    ensures i < pos && from !in ts[..i + 1] && from != ts[i] && ts[i] != me
  {
    hide Ordered;
    ParentsInList(ts, me);
    assert ts[i] in ts;
    if from != me {
      ListSplit(ts, pos, me);
      InTail(ts, pos, i);
      assert ts[..i + 1] <= ts[..pos];
    }
  }

  lemma ReachesInList(sp: Server, v: set<Server>, ts: seq<Server>, to: Server, me: Server)
    requires Reaches(sp, v, ts, to) && sp in ts && Ordered(ts, me)
    ensures me !in v
  {
    ParentsInList(ts, me);
  }
}
