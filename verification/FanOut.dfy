/**
 Sending one message to many: which connection leads to a client, and the marking that gives each
 connection a single copy (modules/ircd/send.c).

 The message cache of a protocol is never filled, because its test `(!flags & NOCACHE)` negates the
 flags first; every copy is therefore a block of its own.
 */
module FanOut {
  import opened Common
  import opened SendQueue
  import opened ServerTree

  // ----- uplinks

  /** The server next to us on the way to `srv`. */
  ghost function Hub(ts: seq<Server>, me: Server, srv: Server): Server
    requires Ordered(ts, me) && srv in ts
  {
    if ts[0] != srv then Hub(ts[1..], me, srv)
    else if srv.parent == me then srv
    else Hub(ts[1..], me, srv.parent)
  }

  /** It is directly connected to us, and the server is in its subtree. */
  lemma {:induction false} HubIsOurs(ts: seq<Server>, me: Server, srv: Server)
    requires Ordered(ts, me) && srv in ts
    ensures Hub(ts, me, srv) in ts && Hub(ts, me, srv).parent == me
    ensures forall u :: u <= Elems(ts) && Hub(ts, me, srv) in u && ChildClosed(u, ts) ==> srv in u
  {
    if ts[0] != srv {
      HubIsOurs(ts[1..], me, srv);
      forall u | u <= Elems(ts) && Hub(ts, me, srv) in u && ChildClosed(u, ts)
        ensures srv in u
      {
        var u' := u * Elems(ts[1..]);
        RestClosed(ts, me, u);
      }
    } else if srv.parent != me {
      HubIsOurs(ts[1..], me, srv.parent);
      forall u | u <= Elems(ts) && Hub(ts, me, srv) in u && ChildClosed(u, ts)
        ensures srv in u
      {
        var u' := u * Elems(ts[1..]);
        RestClosed(ts, me, u);
      }
    }
  }

  lemma RestClosed(ts: seq<Server>, me: Server, u: set<Server>)
    requires ts != [] && Ordered(ts, me) && ChildClosed(u, ts)
    ensures ChildClosed(u * Elems(ts[1..]), ts[1..])
  {
  }

  /** So the link a message for `srv` takes is the one link whose subtree holds it. */
  lemma HubSubtree(ts: seq<Server>, me: Server, srv: Server, u: set<Server>)
    requires Ordered(ts, me) && srv in ts && Subtree(Hub(ts, me, srv), u, ts)
    ensures srv in u
  {
    HubIsOurs(ts, me, srv);
  }

  lemma {:induction false} HubStep(ts: seq<Server>, me: Server, srv: Server)
    requires Ordered(ts, me) && srv in ts && srv.parent != me
    ensures srv.parent in ts && Hub(ts, me, srv) == Hub(ts, me, srv.parent)
    ensures forall i, j :: 0 <= i < |ts| && 0 <= j < |ts| && ts[i] == srv && ts[j] == srv.parent ==> i < j
  {
    if ts[0] == srv {
    } else {
      HubStep(ts[1..], me, srv);
      ParentsInList(ts[1..], me);
      assert srv.parent in ts[1..];
    }
  }

  lemma {:induction false} HubEnd(ts: seq<Server>, me: Server, srv: Server)
    requires Ordered(ts, me) && srv in ts && srv.parent == me
    ensures Hub(ts, me, srv) == srv
  {
    if ts[0] != srv {
      HubEnd(ts[1..], me, srv);
    }
  }

  /** `cli_uplink`: the connection towards a client, null for none and for our own pseudo-clients. */
  ghost function CliUplink(ts: seq<Server>, me: Server, cli: Client?): Connection?
    requires Ordered(ts, me) && (cli != null ==> cli.server == me || cli.server in ts)
  {
    if cli == null then null
    else if cli.server == me then cli.conn
    else Hub(ts, me, cli.server).conn
  }

  /** The uplinks of some users, ourselves and `but` left out. */
  ghost function Uplinks(ts: seq<Server>, me: Server, users: seq<Client>, but: Connection?): set<Connection?>
    requires Ordered(ts, me) && forall i :: 0 <= i < |users| ==> users[i].server == me || users[i].server in ts
  {
    if users == [] then {}
    else
      var c := CliUplink(ts, me, users[|users| - 1]);
      Uplinks(ts, me, users[..|users| - 1], but) + if c == null || c == but then {} else {c}
  }

  /** One item more than before, the whole of `msg`. */
  ghost predicate GotOne(was: (seq<Item>, seq<byte>), now: (seq<Item>, seq<byte>), msg: seq<byte>) {
    && |now.0| == |was.0| + 1 && now.0[..|was.0|] == was.0
    && now.0[|was.0|].offset == 0 && now.0[|was.0|].block.msg == msg
    && now.1 == was.1 + msg
  }

  /** Exactly the connections in `done` got the message, once; the others have what they had. */
  ghost predicate Delivered(was: map<Connection, (seq<Item>, seq<byte>)>, now: map<Connection, (seq<Item>, seq<byte>)>,
                            done: set<Connection?>, output: Connection -> seq<byte>) {
    && now.Keys == was.Keys
    && forall c <- was :: if c in done then GotOne(was[c], now[c], output(c)) else now[c] == was[c]
  }

  lemma DeliveredMore(q0: map<Connection, (seq<Item>, seq<byte>)>, q1: map<Connection, (seq<Item>, seq<byte>)>,
                      q2: map<Connection, (seq<Item>, seq<byte>)>, done: set<Connection?>, conn: Connection,
                      output: Connection -> seq<byte>)
    requires Delivered(q0, q1, done, output) && conn in q1 && conn !in done
    requires conn in q2 && GotOne(q1[conn], q2[conn], output(conn)) && q2 == q1[conn := q2[conn]]
    ensures Delivered(q0, q2, done + {conn}, output)
  {
    hide GotOne;
  }

  /** Exactly the sockets of `done` are marked beyond those that were. */
  ghost predicate Marked(was: seq<bool>, now: seq<bool>, done: set<Connection?>) {
    && |now| == |was|
    && forall k :: 0 <= k < |was| ==> (now[k] <==> was[k] || exists c :: c in done && c != null && c.fd == k)
  }

  lemma MarkedMore(m0: seq<bool>, m1: seq<bool>, done: set<Connection?>, conn: Connection)
    requires Marked(m0, m1, done) && conn.fd < |m1|
    ensures Marked(m0, m1[conn.fd := true], done + {conn})
    ensures !m1[conn.fd] ==> conn !in done
  {
  }

  class Sends {
    const net: Ircd
    const queues: Sender
    // one mark per socket, indexed by descriptor
    const sends: array<bool>

    constructor (net: Ircd, queues: Sender, maxsockets: nat)
      ensures this.net == net && this.queues == queues && fresh(sends) && sends.Length == maxsockets
      ensures forall k :: 0 <= k < sends.Length ==> !sends[k]
    {
      this.net, this.queues := net, queues;
      sends := new bool[maxsockets](_ => false);
    }

    /** Descriptors are distinct and below `maxsockets`; every server next to us has a connection we know. */
    ghost predicate Wired()
      reads net, net.servers
    {
      && net.Valid()
      && (forall c <- queues.conns :: c.fd < sends.Length)
      && (forall c, d :: c in queues.conns && d in queues.conns && c.fd == d.fd ==> c == d)
      && (forall x <- net.servers :: x.parent == net.me ==> x.conn != null && x.conn in queues.conns)
    }

    /** The queues are consistent and every connection is open. */
    ghost predicate Ready()
      reads queues, queues.conns, queues.blocks
    {
      queues.Valid() && forall c <- queues.conns :: c.open
    }

    ghost predicate Valid()
      reads this, net, net.servers, queues, queues.conns, queues.blocks
    {
      Wired() && Ready()
    }

    /** If the client is one of ours and has a connection, it is one we know. */
    ghost predicate Connected(cli: Client) {
      cli.server == net.me && cli.conn != null ==> cli.conn in queues.conns
    }

    /** The client is also on a server of the network. */
    ghost predicate Known(cli: Client)
      reads net
    {
      (cli.server == net.me || cli.server in net.servers) && Connected(cli)
    }

    /** `srv_uplink` */
    method SrvUplink(srv: Server?) returns (c: Connection?)
      requires net.Valid() && (srv != null ==> srv == net.me || srv in net.servers)
      ensures c == if srv == null || srv == net.me then null else Hub(net.servers, net.me, srv).conn
    {
      if srv == net.me || srv == null {
        return null;
      }
      var at: Server := srv;
      ghost var pos :| 0 <= pos < |net.servers| && net.servers[pos] == at;
      while at.parent != net.me && at.parent != null
        invariant at in net.servers && Hub(net.servers, net.me, at) == Hub(net.servers, net.me, srv)
        invariant 0 <= pos < |net.servers| && net.servers[pos] == at
        decreases |net.servers| - pos
      {
        HubStep(net.servers, net.me, at);
        at := at.parent;
        ghost var next :| 0 <= next < |net.servers| && net.servers[next] == at;
        pos := next;
      }
      ParentsInList(net.servers, net.me);
      HubEnd(net.servers, net.me, at);
      return at.conn;
    }

    /** `cli_uplink` */
    method ClientUplink(cli: Client?) returns (c: Connection?)
      requires Valid() && (cli != null ==> Known(cli))
      ensures c == CliUplink(net.servers, net.me, cli)
      ensures c != null && cli != null ==> c in queues.conns
    {
      if cli == null {
        return null;
      }
      if cli.server == net.me {
        return cli.conn;
      }
      HubIsOurs(net.servers, net.me, cli.server);
      c := SrvUplink(cli.server);
    }

    /** The queues as values: what each connection has queued and has ever been given. */
    ghost function Queued(): map<Connection, (seq<Item>, seq<byte>)>
      reads queues.conns`sendq, queues.conns`enqueued
    {
      map c | c in queues.conns :: (c.sendq, c.enqueued)
    }

    /** Mark the connection and queue a block of its own on it. */
    method SendOnce(conn: Connection, output: Connection -> seq<byte>)
      requires Ready() && conn in queues.conns && conn.fd < sends.Length && !sends[conn.fd]
      modifies sends, conn`sendq, conn`sendqItems, conn`enqueued, queues`blocks
      ensures Ready() && sends[..] == old(sends[..])[conn.fd := true]
      ensures conn in old(Queued()) && conn in Queued() && GotOne(old(Queued())[conn], Queued()[conn], output(conn))
      ensures Queued() == old(Queued())[conn := Queued()[conn]]
    {
      hide Sender.Valid;
      sends[conn.fd] := true;
      var b := queues.CreateBlock(output(conn));
      queues.Push(b, conn);
    }

    /** `CLEAR_SEND_TEMPS` */
    method Clear()
      modifies sends
      ensures forall k :: 0 <= k < sends.Length ==> !sends[k]
    {
      forall k | 0 <= k < sends.Length {
        sends[k] := false;
      }
    }

    /**
     `sendto_channel_butone`: starting with no marks, each distinct uplink of the members, ourselves
     and the sender's own uplink excepted, gets exactly one copy; nothing else changes; and no mark
     is left.
     */
    method SendToChannelButOne(users: seq<Client>, one: Client?, output: Connection -> seq<byte>)
      requires Valid() && (one != null ==> Known(one))
      requires forall i :: 0 <= i < |users| ==> users[i].server == net.me || users[i].server in net.servers
      requires forall i :: 0 <= i < |users| ==> Connected(users[i])
      requires forall k :: 0 <= k < sends.Length ==> !sends[k]
      modifies sends, queues.conns, queues`blocks
      ensures Valid() && forall k :: 0 <= k < sends.Length ==> !sends[k]
      ensures var onec := CliUplink(net.servers, net.me, one);
              Delivered(old(Queued()), Queued(), Uplinks(net.servers, net.me, users, onec), output)
    {
      hide Ordered, Uplinks, CliUplink, GotOne, Delivered, Marked, Sender.Valid, Queued;
      ghost var ts, me, q0, m0 := net.servers, net.me, Queued(), sends[..];
      var onec := ClientUplink(one);
      ghost var done: set<Connection?> := {};
      UplinksStep(ts, me, users, 0, onec);
      NothingSent(q0, m0, output);
      var i := 0;
      while i < |users|
        invariant 0 <= i <= |users| && Valid()
        invariant done == Uplinks(ts, me, users[..i], onec)
        invariant Delivered(q0, Queued(), done, output) && Marked(m0, sends[..], done)
        invariant forall c <- done :: c in queues.conns
      {
        var conn := ClientUplink(users[i]);
        UplinksStep(ts, me, users, i, onec);
        i := i + 1;
        if conn == onec || conn == null {
          continue;
        }
        MarkedMore(m0, sends[..], done, conn);
        if sends[conn.fd] {
          AlreadyDone(m0, sends[..], done, conn, queues.conns);
          continue;
        }
        ghost var q1 := Queued();
        SendOnce(conn, output);
        DeliveredMore(q0, q1, Queued(), done, conn, output);
        done := done + {conn};
      }
      assert users[..|users|] == users;
      Clear();
    }

    /**
     `sendto_common_channels`: each connection of ours that shares a channel with the client and
     was not marked beforehand gets exactly one copy; a client on no channel is sent its own copy;
     and no mark is left.  `chans` are the members of the client's channels.

     For one of our own pseudo-clients on no channel the code follows a null pointer to find the
     socket, and for no other client: that is `fault`.
     */
    method SendToCommonChannels(cli: Client, chans: seq<seq<Client>>, output: Connection -> seq<byte>)
      returns (fault: bool)
      requires Valid() && (chans == [] ==> Connected(cli))
      requires forall i, j :: 0 <= i < |chans| && 0 <= j < |chans[i]| ==> Connected(chans[i][j])
      modifies sends, queues.conns, queues`blocks
      ensures fault <==> chans == [] && cli.server == net.me && cli.conn == null
      ensures fault ==> Valid() && sends[..] == old(sends[..]) && Queued() == old(Queued())
      ensures !fault ==> Valid() && forall k :: 0 <= k < sends.Length ==> !sends[k]
      ensures !fault ==>
                var conns := if chans == [] then Locals(net.me, [cli]) else AllLocals(net.me, chans);
                Delivered(old(Queued()), Queued(), Unmarked(old(sends[..]), conns), output)
    {
      hide GotOne, Delivered, Marked, Sender.Valid, Queued, Locals, AllLocals, Wired;
      ghost var q0, m0 := Queued(), sends[..];
      NothingSent(q0, m0, output);
      FdsFit();
      fault := chans == [] && cli.server == net.me && cli.conn == null;
      if fault {
        return;
      }
      if chans == [] {
        OneLocal(net.me, cli);
        if cli.server == net.me && !sends[cli.conn.fd] {
          SendOnce(cli.conn, output);
          DeliveredMore(q0, q0, Queued(), {}, cli.conn, output);
          assert {} + {cli.conn} == Unmarked(m0, {cli.conn});
        } else {
          assert Unmarked(m0, Locals(net.me, [cli])) == {};
        }
      } else {
        ghost var done: set<Connection?> := {};
        var i := 0;
        assert AllLocals(net.me, chans[..0]) == {} by { AllLocalsStep(net.me, chans, 0); }
        while i < |chans|
          invariant 0 <= i <= |chans| && Valid()
          invariant done == Unmarked(m0, AllLocals(net.me, chans[..i]))
          invariant Delivered(q0, Queued(), done, output) && Marked(m0, sends[..], done)
          invariant forall c <- done :: c in queues.conns
        {
          done := SendToLocals(chans[i], output, q0, m0, done, AllLocals(net.me, chans[..i]));
          AllLocalsStep(net.me, chans, i);
          i := i + 1;
        }
        assert chans[..|chans|] == chans;
      }
      Clear();
    }

    lemma FdsFit()
      requires Wired()
      ensures forall c <- queues.conns :: c.fd < sends.Length
      ensures forall c, d :: c in queues.conns && d in queues.conns && c.fd == d.fd ==> c == d
    {
    }

    /** The inner loop, over the members of one channel. */
    method SendToLocals(users: seq<Client>, output: Connection -> seq<byte>,
                        ghost q0: map<Connection, (seq<Item>, seq<byte>)>,
                        ghost m0: seq<bool>, ghost done0: set<Connection?>, ghost seen: set<Connection?>)
      returns (ghost done: set<Connection?>)
      requires Valid()
      requires forall i :: 0 <= i < |users| ==> Connected(users[i])
      requires |m0| == sends.Length && done0 == Unmarked(m0, seen) && forall c <- done0 :: c in queues.conns
      requires Delivered(q0, Queued(), done0, output) && Marked(m0, sends[..], done0)
      modifies sends, queues.conns, queues`blocks
      ensures Valid() && done == Unmarked(m0, seen + Locals(net.me, users)) && forall c <- done :: c in queues.conns
      ensures Delivered(q0, Queued(), done, output) && Marked(m0, sends[..], done)
    {
      hide GotOne, Delivered, Marked, Sender.Valid, Queued, Locals, Wired;
      done := done0;
      FdsFit();
      var j := 0;
      LocalsStep(net.me, users, 0);
      assert seen + {} == seen;
      while j < |users|
        invariant 0 <= j <= |users| && Valid()
        invariant done == Unmarked(m0, seen + Locals(net.me, users[..j])) && forall c <- done :: c in queues.conns
        invariant Delivered(q0, Queued(), done, output) && Marked(m0, sends[..], done)
      {
        var user := users[j];
        LocalsStep(net.me, users, j);
        ghost var before := seen + Locals(net.me, users[..j]);
        ghost var after := seen + Locals(net.me, users[..j + 1]);
        j := j + 1;
        if user.server != net.me || user.conn == null {
          assert after == before;
          continue;
        }
        var conn := user.conn;
        assert after == before + {conn};
        MarkedMore(m0, sends[..], done, conn);
        UnmarkedMore(m0, before, conn);
        if sends[conn.fd] {
          MarkedBy(m0, sends[..], done, conn, queues.conns);
          continue;
        }
        NotMarked(m0, sends[..], done, conn);
        ghost var q1 := Queued();
        SendOnce(conn, output);
        DeliveredMore(q0, q1, Queued(), done, conn, output);
        done := done + {conn};
      }
      assert users[..|users|] == users;
    }
  }

  lemma NothingSent(q: map<Connection, (seq<Item>, seq<byte>)>, m: seq<bool>, output: Connection -> seq<byte>)
    ensures Delivered(q, q, {}, output) && Marked(m, m, {})
  {
  }

  lemma AlreadyDone(m0: seq<bool>, m1: seq<bool>, done: set<Connection?>, conn: Connection, conns: seq<Connection>)
    requires Marked(m0, m1, done) && conn.fd < |m1| && m1[conn.fd] && !m0[conn.fd] && conn in conns
    requires forall c, d :: c in conns && d in conns && c.fd == d.fd ==> c == d
    requires forall c <- done :: c in conns
    ensures done + {conn} == done
  {
  }

  /** The connections of our own clients among some users. */
  ghost function Locals(me: Server, users: seq<Client>): set<Connection?> {
    if users == [] then {}
    else
      var u := users[|users| - 1];
      Locals(me, users[..|users| - 1]) + if u.server == me && u.conn != null then {u.conn} else {}
  }

  ghost function AllLocals(me: Server, chans: seq<seq<Client>>): set<Connection?> {
    if chans == [] then {} else AllLocals(me, chans[..|chans| - 1]) + Locals(me, chans[|chans| - 1])
  }

  /** Those of them whose socket was not marked beforehand. */
  ghost function Unmarked(marks: seq<bool>, conns: set<Connection?>): set<Connection?> {
    set c | c in conns && c != null && !(c.fd < |marks| && marks[c.fd])
  }

  lemma LocalsStep(me: Server, users: seq<Client>, j: nat)
    requires j <= |users|
    ensures j == 0 ==> Locals(me, users[..j]) == {}
    ensures j < |users| ==>
              Locals(me, users[..j + 1]) ==
              Locals(me, users[..j]) + if users[j].server == me && users[j].conn != null then {users[j].conn} else {}
  {
    if j < |users| {
      assert users[..j + 1][..j] == users[..j];
    }
  }

  lemma AllLocalsStep(me: Server, chans: seq<seq<Client>>, i: nat)
    requires i <= |chans|
    ensures i == 0 ==> AllLocals(me, chans[..i]) == {}
    ensures i < |chans| ==> AllLocals(me, chans[..i + 1]) == AllLocals(me, chans[..i]) + Locals(me, chans[i])
  {
    if i < |chans| {
      assert chans[..i + 1][..i] == chans[..i];
    }
  }

  lemma OneLocal(me: Server, cli: Client)
    ensures Locals(me, [cli]) == if cli.server == me && cli.conn != null then {cli.conn} else {}
  {
    assert [cli][..0] == [];
  }

  lemma UnmarkedMore(m0: seq<bool>, before: set<Connection?>, conn: Connection)
    requires conn.fd < |m0|
    ensures Unmarked(m0, before + {conn}) == Unmarked(m0, before) + if m0[conn.fd] then {} else {conn}
  {
  }

  lemma MarkedBy(m0: seq<bool>, m1: seq<bool>, done: set<Connection?>, conn: Connection, conns: seq<Connection>)
    requires Marked(m0, m1, done) && conn.fd < |m1| && m1[conn.fd] && conn in conns
    requires forall c, d :: c in conns && d in conns && c.fd == d.fd ==> c == d
    requires forall c <- done :: c in conns
    ensures conn.fd < |m0| && (m0[conn.fd] || conn in done)
  {
  }

  lemma NotMarked(m0: seq<bool>, m1: seq<bool>, done: set<Connection?>, conn: Connection)
    requires Marked(m0, m1, done) && conn.fd < |m1| && !m1[conn.fd]
    ensures conn.fd < |m0| && !m0[conn.fd]
  {
  }

  lemma UplinksStep(ts: seq<Server>, me: Server, users: seq<Client>, i: nat, but: Connection?)
    requires Ordered(ts, me) && (forall j :: 0 <= j < |users| ==> users[j].server == me || users[j].server in ts) &&
        i <= |users|
    ensures i == 0 ==> Uplinks(ts, me, users[..i], but) == {}
    ensures i < |users| ==>
              var c := CliUplink(ts, me, users[i]);
              Uplinks(ts, me, users[..i + 1], but)
              == Uplinks(ts, me, users[..i], but) + if c == null || c == but then {} else {c}
  {
    hide Ordered;
    if i < |users| {
      assert users[..i + 1][..i] == users[..i];
    }
  }

  /** Membership in the target set, one user at a time. */
  lemma {:induction false} UplinksAre(ts: seq<Server>, me: Server, users: seq<Client>, but: Connection?, c: Connection?)
    requires Ordered(ts, me) && forall i :: 0 <= i < |users| ==> users[i].server == me || users[i].server in ts
    ensures c in Uplinks(ts, me, users, but) <==>
            c != null && c != but && exists i :: 0 <= i < |users| && CliUplink(ts, me, users[i]) == c
  {
    hide Ordered;
    if users != [] {
      var n := |users| - 1;
      UplinksAre(ts, me, users[..n], but, c);
      if c in Uplinks(ts, me, users[..n], but) {
        var i :| 0 <= i < n && CliUplink(ts, me, users[..n][i]) == c;
        assert users[i] == users[..n][i];
      }
      assert forall i :: 0 <= i < n ==> users[..n][i] == users[i];
    }
  }
}
