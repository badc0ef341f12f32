/**
 The nick history: a bounded list of the nicknames clients have given up, an index of it by nickname, and
 a pointer from each client to the one entry it owns (modules/ircd/client.c).

 Nicknames are compared, and hashed, through a character folding; the callers of these functions admit only
 nicknames for which that is what `istrcmp` and `tolower` do.
 */
module NickHistory {
  import opened Common
  import opened HashTable

  const NICKLEN: nat := 30
  const INITIAL_HISTORY: nat := 1024
  const INITIAL_CLIENTS: nat := 128

  class Client {
    var nick: string
    var registered: bool
    // IRCD_CLIENT_HISTORY: signed off, kept only for its history entry
    var past: bool
    var hist: Entry?

    constructor ()
      ensures nick == "" && !registered && !past && hist == null
    {
      nick, registered, past, hist := "", false, false, null;
    }
  }

  class Entry {
    const nick: string
    const cli: Client
    const signoff: int

    constructor (nick: string, cli: Client, signoff: int)
      ensures this.nick == nick && this.cli == cli && this.signoff == signoff
    {
      this.nick, this.cli, this.signoff := nick, cli, signoff;
    }
  }

  /** A client as the client table holds it: under its folded nickname. */
  datatype Name = Name(cli: Client, nick: string)

  function NickOf(e: Entry): string { e.nick }

  function NameOf(n: Name): string { n.nick }

  function Folded(fold: char -> char, s: string): (r: string)
    ensures |r| == |s|
  {
    seq(|s|, i requires 0 <= i < |s| => fold(s[i]))
  }

  ghost predicate Idempotent(fold: char -> char) {
    forall c: char :: fold(fold(c)) == fold(c)
  }

  lemma FoldedTwice(fold: char -> char, s: string)
    requires Idempotent(fold)
    ensures Folded(fold, Folded(fold, s)) == Folded(fold, s)
  {
  }

  // ----- the list, the clients and their pointers as one value

  datatype State = State(
    list: seq<Entry>,             // newest first
    live: set<Client>,            // the clients that are not signed off
    hist: map<Client, Entry?>,    // of every client not yet freed
    nicks: map<Client, string>,
    registered: set<Client>,
    past: set<Client>)            // IRCD_CLIENT_HISTORY

  ghost predicate NicksDiffer(fold: char -> char, l: seq<Entry>) {
    forall i, j :: 0 <= i < j < |l| ==> Folded(fold, l[i].nick) != Folded(fold, l[j].nick)
  }

  /**
   Entries and clients point at each other, one to one; nobody is kept after signing off without an
   entry; and no two entries have equal nicknames.
   */
  ghost predicate Agree(fold: char -> char, s: State) {
    && NicksDiffer(fold, s.list)
    && (forall e <- s.list :: e.cli in s.hist && s.hist[e.cli] == e)
    && (forall c <- s.hist :: s.hist[c] != null ==> s.hist[c] in s.list && s.hist[c].cli == c && c in s.registered)
    && s.live <= s.hist.Keys == s.nicks.Keys && s.registered <= s.hist.Keys
    && s.past == s.hist.Keys - s.live
    && (forall c <- s.past :: s.hist[c] != null)
  }

  /** The entries of `u` are removed, and with them the clients kept only for them. */
  ghost function Drop(s: State, u: set<Entry>): State
    requires s.nicks.Keys == s.hist.Keys
  {
    var kept := set c | c in s.hist && (c in s.live || s.hist[c] !in u);
    State(Without(s.list, u), s.live,
          map c | c in kept :: if s.hist[c] in u then null else s.hist[c],
          map c | c in kept :: s.nicks[c], s.registered * kept, s.past * kept)
  }

  ghost function Add(s: State, cli: Client, e: Entry): State {
    s.(list := [e] + s.list, hist := s.hist[cli := e])
  }

  /** A client is freed exactly when it is kept for its entry alone and the entry goes. */
  lemma FreedExactly(fold: char -> char, s: State, u: set<Entry>, c: Client)
    requires Agree(fold, s) && c in s.hist
    ensures c !in Drop(s, u).hist <==> c in s.past && s.hist[c] in u
    ensures c in Drop(s, u).hist && s.hist[c] != null && s.hist[c] in u ==> Drop(s, u).hist[c] == null
    ensures c in Drop(s, u).hist && s.hist[c] !in u ==> Drop(s, u).hist[c] == s.hist[c]
  {
    var t := Drop(s, u);
    hide NicksDiffer, Without;
    assert c in t.hist <==> c in s.live || s.hist[c] !in u;
  }

  lemma DropKeepsAgree(fold: char -> char, s: State, u: set<Entry>)
    requires Agree(fold, s)
    ensures Agree(fold, Drop(s, u))
  {
    var t := Drop(s, u);
    WithoutKeepsNicks(fold, s.list, u);
    forall e | e in t.list
      ensures e.cli in t.hist && t.hist[e.cli] == e
    {
      assert e in s.list && e !in u;
    }
    forall c | c in t.hist && t.hist[c] != null
      ensures t.hist[c] in t.list && t.hist[c].cli == c && c in t.registered
    {
      assert s.hist[c] in s.list;
    }
    assert NicksDiffer(fold, t.list);
    assert t.live <= t.hist.Keys;
    assert t.hist.Keys == t.nicks.Keys;
    assert t.registered <= t.hist.Keys;
  }

  lemma {:induction false} WithoutKeepsNicks(fold: char -> char, l: seq<Entry>, u: set<Entry>)
    requires NicksDiffer(fold, l)
    ensures NicksDiffer(fold, Without(l, u))
  {
    if l != [] {
      hide Folded;
      WithoutKeepsNicks(fold, l[1..], u);
      var rest := Without(l[1..], u);
      forall k | 0 <= k < |rest|
        ensures Folded(fold, l[0].nick) != Folded(fold, rest[k].nick)
      {
        assert rest[k] in rest;
        var m :| 0 <= m < |l[1..]| && l[1..][m] == rest[k];
        assert l[m + 1] == rest[k];
      }
      if l[0] !in u {
        assert Without(l, u) == [l[0]] + rest;
      }
    }
  }

  lemma AddKeepsAgree(fold: char -> char, s: State, cli: Client, e: Entry)
    requires Agree(fold, s)
    requires cli in s.live && s.hist[cli] == null && cli in s.registered
    requires e.cli == cli && forall x <- s.list :: Folded(fold, x.nick) != Folded(fold, e.nick)
    ensures Agree(fold, Add(s, cli, e))
  {
    var t := Add(s, cli, e);
    assert forall x <- t.list :: x == e || x in s.list;
    forall c | c in t.hist && t.hist[c] != null
      ensures t.hist[c] in t.list
    {
      assert c != cli ==> s.hist[c] in s.list;
    }
  }

  lemma DropTwice(s: State, u: set<Entry>, v: set<Entry>)
    requires s.nicks.Keys == s.hist.Keys
    ensures Drop(Drop(s, u), v) == Drop(s, u + v)
  {
    WithoutTwice(s.list, u, v);
    var a, b := Drop(Drop(s, u), v), Drop(s, u + v);
    assert a.hist.Keys == b.hist.Keys;
    assert a.hist == b.hist;
    assert a.nicks == b.nicks;
  }

  // ----- which entries a new one displaces

  ghost function Own(s: State, cli: Client): set<Entry>
    requires cli in s.hist
  {
    if s.hist[cli] != null then {s.hist[cli]} else {}
  }

  ghost function Twins(fold: char -> char, list: seq<Entry>, nick: string): set<Entry> {
    set e | e in list && Folded(fold, e.nick) == Folded(fold, nick)
  }

  ghost function Oldest(list: seq<Entry>, size: nat, clients: nat): set<Entry> {
    if |list| >= size >= clients && |list| > 0 then {list[|list| - 1]} else {}
  }

  /** The client's own entry, the one with an equal nickname, and, if the table is full, the oldest other. */
  ghost function Dropped(fold: char -> char, s: State, cli: Client, size: nat, clients: nat): set<Entry>
    requires cli in s.hist && cli in s.nicks
  {
    var ousted := Own(s, cli) + Twins(fold, s.list, s.nicks[cli]);
    ousted + Oldest(Without(s.list, ousted), size, clients)
  }

  /** The history table stays below the client table, and is not overfull once it has its size. */
  ghost predicate SizeOk(count: nat, size: nat, clients: nat) {
    && 64 <= size && (size <= INITIAL_HISTORY || size <= clients)
    && (size >= clients ==> count <= size)
  }

  /** `strncpy` into a nickname buffer. */
  function Truncated(to: string): string {
    if |to| <= NICKLEN then to else to[..NICKLEN]
  }

  /** The client table holds exactly the live clients that have a nickname, each once. */
  ghost predicate NamesOk(fold: char -> char, s: State, entered: seq<Name>) {
    && (forall i, j :: 0 <= i < j < |entered| ==> entered[i] != entered[j])
    && (forall n <- entered ::
          n.cli in s.live && n.cli in s.nicks && s.nicks[n.cli] != "" && n.nick == Folded(fold, s.nicks[n.cli]))
    && (forall c <- s.live :: c in s.nicks ==> |s.nicks[c]| <= NICKLEN)
    && (forall c <- s.live :: c in s.nicks && s.nicks[c] != "" ==> Name(c, Folded(fold, s.nicks[c])) in entered)
  }

  /** What ties the list, the clients and the index together. */
  ghost predicate Ledger(fold: char -> char, s: State, index: seq<Entry>, size: nat, clients: nat) {
    && multiset(index) == multiset(s.list) && |index| == |s.list|
    && Agree(fold, s) && SizeOk(|index|, size, clients)
  }

  lemma DropKeepsNames(fold: char -> char, s: State, u: set<Entry>, entered: seq<Name>, gone: set<Client>)
    requires Agree(fold, s) && NamesOk(fold, s.(live := s.live - gone), entered)
    ensures NamesOk(fold, Drop(s, u).(live := s.live - gone), entered)
  {
  }

  lemma CutOne<T>(l: seq<T>, i: nat)
    requires i < |l|
    ensures multiset(l[..i] + l[i + 1..]) == multiset(l) - multiset{l[i]}
  {
    assert l == l[..i] + [l[i]] + l[i + 1..];
  }

  lemma DistinctEntries(fold: char -> char, l: seq<Entry>, i: nat)
    requires NicksDiffer(fold, l) && i < |l|
    ensures Without(l, {l[i]}) == l[..i] + l[i + 1..]
  {
    WithoutOne(l, i);
  }

  lemma {:induction false} RemoveDistinct<T>(l: seq<T>, x: T)
    requires forall i, j :: 0 <= i < j < |l| ==> l[i] != l[j]
    ensures
      var r := RemoveFirst(l, x);
      && (forall i, j :: 0 <= i < j < |r| ==> r[i] != r[j])
      && (forall y <- r :: y in l && y != x) && (forall y <- l :: y != x ==> y in r)
  {
    if x in l {
      var i :| 0 <= i < |l| && l[i] == x;
      RemoveAt(l, x, i);
      var r := l[..i] + l[i + 1..];
      assert forall k :: 0 <= k < |r| ==> r[k] == l[if k < i then k else k + 1];
      hide RemoveFirst;
      forall y | y in l && y != x
        ensures y in l[..i] + l[i + 1..]
      {
        var k :| 0 <= k < |l| && l[k] == y;
        assert r[if k < i then k else k - 1] == y;
      }
    } else {
      RemoveAbsent(l, x);
    }
  }

  /** A client no longer in the client table. */
  ghost predicate NamesBut(fold: char -> char, s: State, entered: seq<Name>, cli: Client) {
    NamesOk(fold, s.(live := s.live - {cli}), entered)
  }

  lemma NameRemoved(fold: char -> char, s: State, entered: seq<Name>, cli: Client)
    requires NamesOk(fold, s, entered) && cli in s.live && cli in s.nicks
    ensures s.nicks[cli] != "" ==> NamesBut(fold, s, RemoveFirst(entered, Name(cli, Folded(fold, s.nicks[cli]))), cli)
    ensures s.nicks[cli] == "" ==> NamesBut(fold, s, entered, cli)
  {
    hide Folded, RemoveFirst;
    RemoveDistinct(entered, Name(cli, Folded(fold, s.nicks[cli])));
  }

  lemma NameAdded(fold: char -> char, s: State, entered: seq<Name>, cli: Client)
    requires NamesBut(fold, s, entered, cli) && cli in s.live && cli in s.nicks && 0 < |s.nicks[cli]| <= NICKLEN
    ensures NamesOk(fold, s, entered + [Name(cli, Folded(fold, s.nicks[cli]))])
  {
    hide Folded;
    var n := Name(cli, Folded(fold, s.nicks[cli]));
    assert n !in entered;
    assert forall m <- entered + [n] :: m in entered || m == n;
  }

  lemma RecordKeepsNames(fold: char -> char, s: State, u: set<Entry>, cli: Client, e: Entry, entered: seq<Name>)
    requires Agree(fold, s) && NamesBut(fold, s, entered, cli)
    ensures NamesBut(fold, Add(Drop(s, u), cli, e), entered, cli)
  {
    DropKeepsNames(fold, s, u, entered, {cli});
    var t := Drop(s, u);
    assert t.(live := t.live - {cli}).nicks == Add(t, cli, e).nicks;
  }

  lemma AddedKeepsNames(fold: char -> char, s: State, u: set<Entry>, cli: Client, e: Entry, entered: seq<Name>)
    requires Agree(fold, s) && NamesOk(fold, s, entered)
    ensures NamesOk(fold, Add(Drop(s, u), cli, e), entered)
  {
    assert s.(live := s.live - {}) == s;
    DropKeepsNames(fold, s, u, entered, {});
    var t := Drop(s, u);
    assert t.(live := t.live - {}) == t;
  }

  /** A new spelling of a nickname keeps its place in the client table. */
  lemma Respelled(fold: char -> char, s: State, entered: seq<Name>, cli: Client, nick: string)
    requires NamesOk(fold, s, entered) && cli in s.live && cli in s.nicks
    requires Folded(fold, nick) == Folded(fold, s.nicks[cli])
    ensures NamesOk(fold, s.(nicks := s.nicks[cli := nick]), entered)
  {
    assert |nick| == |Folded(fold, nick)| == |s.nicks[cli]|;
    assert nick == "" <==> s.nicks[cli] == "";
    hide Folded;
  }

  ghost function WithNewcomer(s: State, cli: Client): State {
    s.(live := s.live + {cli}, hist := s.hist[cli := null], nicks := s.nicks[cli := ""])
  }

  lemma Newcomer(fold: char -> char, s: State, cli: Client, index: seq<Entry>, size: nat, names: seq<Name>,
                 clients: nat)
    requires Ledger(fold, s, index, size, clients) && NamesOk(fold, s, names) && cli !in s.hist
    ensures Ledger(fold, WithNewcomer(s, cli), index, size, clients) && NamesOk(fold, WithNewcomer(s, cli), names)
  {
    hide Agree, NamesOk;
    NewcomerAgrees(fold, s, cli);
    NewcomerNameless(fold, s, cli, names);
  }

  lemma NewcomerAgrees(fold: char -> char, s: State, cli: Client)
    requires Agree(fold, s) && cli !in s.hist
    ensures Agree(fold, WithNewcomer(s, cli)) && s.live <= s.hist.Keys
  {
    hide NicksDiffer;
  }

  lemma NewcomerNameless(fold: char -> char, s: State, cli: Client, names: seq<Name>)
    requires NamesOk(fold, s, names) && cli !in s.live
    ensures NamesOk(fold, WithNewcomer(s, cli), names)
  {
    hide Folded;
  }

  lemma Registered(fold: char -> char, s: State, cli: Client, index: seq<Entry>, size: nat, names: seq<Name>,
                   clients: nat)
    requires Ledger(fold, s, index, size, clients) && NamesOk(fold, s, names) && cli in s.hist
    ensures
      var t := s.(registered := s.registered + {cli});
      Ledger(fold, t, index, size, clients) && NamesOk(fold, t, names)
  {
    hide Folded, NicksDiffer, SizeOk;
  }

  lemma Renamed(fold: char -> char, s: State, cli: Client, nick: string, index: seq<Entry>, size: nat, clients: nat,
                after: nat)
    requires Ledger(fold, s, index, size, clients) && cli in s.hist && clients <= after
    ensures Ledger(fold, s.(nicks := s.nicks[cli := nick]), index, size, after)
  {
    hide Folded, NicksDiffer;
  }

  /** A registered client that signed off: kept as a history record. */
  ghost function SignedOff(s: State, cli: Client): State {
    s.(live := s.live - {cli}, past := s.past + {cli})
  }

  lemma SignOff(fold: char -> char, s: State, cli: Client, index: seq<Entry>, size: nat, clients: nat)
    requires Ledger(fold, s, index, size, clients) && cli in s.live && s.hist[cli] != null
    ensures Ledger(fold, SignedOff(s, cli), index, size, clients)
  {
    hide NicksDiffer, SizeOk;
  }

  lemma SignedOffNames(fold: char -> char, s: State, cli: Client, names: seq<Name>)
    requires NamesBut(fold, s, names, cli)
    ensures NamesOk(fold, SignedOff(s, cli), names)
  {
    assert SignedOff(s, cli).live == s.(live := s.live - {cli}).live;
  }

  lemma GoneState(s: State, cli: Client)
    ensures s.(past := s.past + {cli}).(live := s.live - {cli}) == SignedOff(s, cli)
    ensures Freed(s.(live := s.live - {cli}), cli) == Freed(s, cli).(live := s.live - {cli})
  {
  }

  /** A client that never registered leaves nothing behind. */
  lemma Forgotten(fold: char -> char, s: State, cli: Client, index: seq<Entry>, size: nat, names: seq<Name>,
                  clients: nat)
    requires Ledger(fold, s, index, size, clients) && NamesBut(fold, s, names, cli) && cli in s.live &&
        cli !in s.registered
    ensures
      var t := Freed(s, cli).(live := s.live - {cli});
      Ledger(fold, t, index, size, clients) && NamesOk(fold, t, names)
  {
    hide NicksDiffer, SizeOk, Folded;
  }

  /** The effect of recording a client's nickname. */
  ghost function Recorded(fold: char -> char, s: State, cli: Client, e: Entry, size: nat, clients: nat): State
    requires cli in s.hist && s.hist.Keys == s.nicks.Keys
  {
    Add(Drop(s, Dropped(fold, s, cli, size, clients)), cli, e)
  }

  ghost function Freed(s: State, cli: Client): State {
    s.(hist := s.hist - {cli}, nicks := s.nicks - {cli}, registered := s.registered - {cli}, past := s.past - {cli})
  }

  /** Removing one client's entry changes that client alone. */
  lemma DropOne(fold: char -> char, s: State, cli: Client)
    requires Agree(fold, s) && cli in s.hist && s.hist[cli] != null
    ensures
      var e: Entry := s.hist[cli];
      Drop(s, {e}) == if cli in s.live
        then s.(list := Without(s.list, {e}), hist := s.hist[cli := null])
        else Freed(s.(list := Without(s.list, {e})), cli)
  {
    hide Without, NicksDiffer, Folded, Agree;
    var e: Entry := s.hist[cli];
    OneOwner(fold, s, cli);
    var d := Drop(s, {e});
    if cli in s.live {
      assert d.hist == s.hist[cli := null];
      assert d.nicks == s.nicks;
      assert d.registered == s.registered && d.past == s.past;
    } else {
      assert d.hist == s.hist - {cli};
      assert d.nicks == s.nicks - {cli};
      assert d.registered == s.registered - {cli} && d.past == s.past - {cli};
    }
  }

  lemma OneOwner(fold: char -> char, s: State, cli: Client)
    requires Agree(fold, s) && cli in s.hist && s.hist[cli] != null
    ensures forall c <- s.hist :: s.hist[c] == s.hist[cli] ==> c == cli
    ensures s.live <= s.hist.Keys == s.nicks.Keys && s.registered <= s.hist.Keys && s.past == s.hist.Keys - s.live
  {
    hide NicksDiffer;
  }

  lemma LedgerDrop(fold: char -> char, s: State, cli: Client, e: Entry, index: seq<Entry>, size: nat, clients: nat)
    requires Ledger(fold, s, index, size, clients) && cli in s.hist && s.hist[cli] == e
    ensures Ledger(fold, Drop(s, {e}), RemoveFirst(index, e), size, clients)
    ensures e in s.list && NicksDiffer(fold, s.list) && e in index
    ensures
      var t := s.(list := Without(s.list, {e}));
      Drop(s, {e}) == if cli in s.past then Freed(t, cli) else t.(hist := t.hist[cli := null])
  {
    DropOne(fold, s, cli);
    DropKeepsAgree(fold, s, {e});
    var i :| 0 <= i < |s.list| && s.list[i] == e;
    DistinctEntries(fold, s.list, i);
    CutOne(s.list, i);
    RemoveBag(index, e);
    assert multiset(index) == multiset(s.list);
    assert e in multiset(index);
    hide Agree, NicksDiffer, Without, RemoveFirst;
  }

  lemma DropNothing(fold: char -> char, s: State)
    requires Agree(fold, s)
    ensures Drop(s, {}) == s
  {
    WithoutNothing(s.list, {});
    var d := Drop(s, {});
    assert d.hist == s.hist && d.nicks == s.nicks;
    assert d.registered == s.registered && d.past == s.past;
  }

  lemma OneTwin(fold: char -> char, l: seq<Entry>, e: Entry)
    requires NicksDiffer(fold, l) && e in l
    ensures Twins(fold, l, e.nick) == {e}
  {
    forall x | x in Twins(fold, l, e.nick)
      ensures x == e
    {
      var i :| 0 <= i < |l| && l[i] == x;
      var j :| 0 <= j < |l| && l[j] == e;
    }
  }

  lemma TwinsAlike(fold: char -> char, l: seq<Entry>, a: string, b: string)
    requires Folded(fold, a) == Folded(fold, b)
    ensures Twins(fold, l, a) == Twins(fold, l, b)
  {
  }

  lemma DroppedInTurn(fold: char -> char, s: State, cli: Client, size: nat, clients: nat)
    requires cli in s.hist && s.hist.Keys == s.nicks.Keys
    ensures
      var s1 := Drop(s, Own(s, cli));
      var s2 := Drop(s1, Twins(fold, s1.list, s.nicks[cli]));
      Drop(s2, Oldest(s2.list, size, clients)) == Drop(s, Dropped(fold, s, cli, size, clients))
  {
    hide Folded;
    var own := Own(s, cli);
    var s1 := Drop(s, own);
    var late, twins := Twins(fold, s1.list, s.nicks[cli]), Twins(fold, s.list, s.nicks[cli]);
    assert own + late == own + twins;
    hide Own, Twins;
    DropTwice(s, own, late);
    var s2 := Drop(s1, late);
    DropTwice(s, own + twins, Oldest(s2.list, size, clients));
  }

  ghost predicate NewestFirst(list: seq<Entry>) {
    forall i, j :: 0 <= i < j < |list| ==> list[i].signoff >= list[j].signoff
  }

  lemma {:induction false} NewestStay(list: seq<Entry>, u: set<Entry>)
    requires NewestFirst(list)
    ensures NewestFirst(Without(list, u))
  {
    if list != [] {
      NewestStay(list[1..], u);
      assert forall x <- list[1..] :: list[0].signoff >= x.signoff;
    }
  }

  lemma {:induction false} DistinctStay(list: seq<Entry>, u: set<Entry>)
    requires Distinct(list)
    ensures Distinct(Without(list, u))
  {
    if list != [] {
      DistinctStay(list[1..], u);
      assert forall x <- list[1..] :: x != list[0];
    }
  }

  /** What a full table loses is as old as all that stays. */
  lemma OldestOfAll(list: seq<Entry>, size: nat, clients: nat)
    requires NewestFirst(list) && Distinct(list)
    ensures
      var u := Oldest(list, size, clients);
      forall x <- u :: clients <= size <= |Without(list, u)| + 1 && forall y <- list :: x.signoff <= y.signoff
  {
    if |list| >= size >= clients && |list| > 0 {
      WithoutOne(list, |list| - 1);
    }
  }

  /**
   While the clock does not go back the list stays in order of time, and an entry displaced, but for the client's own
   and the one with an equal nickname, is as old as any that stays, and was one too many for the table.
   */
  lemma OldestGoes(fold: char -> char, s: State, cli: Client, e: Entry, size: nat, clients: nat)
    requires cli in s.hist && s.hist.Keys == s.nicks.Keys && Distinct(s.list)
    requires NewestFirst(s.list) && forall x <- s.list :: x.signoff <= e.signoff
    ensures
      var t := Recorded(fold, s, cli, e, size, clients);
      && NewestFirst(t.list)
      && forall x <- s.list :: x !in t.list ==>
           || x == s.hist[cli] || Folded(fold, x.nick) == Folded(fold, s.nicks[cli])
           || (clients <= size <= |t.list| && forall y <- t.list :: x.signoff <= y.signoff)
  {
    hide Folded, Without, Distinct, Oldest, NewestFirst;
    var ousted := Own(s, cli) + Twins(fold, s.list, s.nicks[cli]);
    var rest := Without(s.list, ousted);
    var oldest := Oldest(rest, size, clients);
    WithoutTwice(s.list, ousted, oldest);
    NewestStay(s.list, ousted);
    DistinctStay(s.list, ousted);
    OldestOfAll(rest, size, clients);
    NewestStay(rest, oldest);
    var left := Without(rest, oldest);
    Foremost(e, left);
    assert Recorded(fold, s, cli, e, size, clients).list == [e] + left;
    forall x | x in s.list && x !in [e] + left && x !in ousted
      ensures clients <= size <= |left| + 1 && forall y <- [e] + left :: x.signoff <= y.signoff
    {
      assert x in rest && x in oldest;
    }
  }

  lemma Foremost(e: Entry, list: seq<Entry>)
    requires NewestFirst(list) && forall x <- list :: x.signoff <= e.signoff
    ensures NewestFirst([e] + list)
  {
  }

  lemma Displaced(fold: char -> char, s: State, cli: Client, size: nat, clients: nat)
    requires Agree(fold, s) && cli in s.live
    ensures
      var t := Drop(s, Dropped(fold, s, cli, size, clients));
      && cli in t.live && cli in t.hist && t.hist[cli] == null && (cli in t.registered <==> cli in s.registered)
      && t.nicks[cli] == s.nicks[cli]
      && forall x <- t.list :: Folded(fold, x.nick) != Folded(fold, s.nicks[cli])
  {
    hide Folded, Oldest, NicksDiffer;
  }

  lemma LedgerAdd(fold: char -> char, s: State, cli: Client, e: Entry, index: seq<Entry>, size: nat, after: nat,
                  clients: nat)
    requires Ledger(fold, s, index, size, clients)
    requires cli in s.live && cli in s.registered && s.hist[cli] == null
    requires e.cli == cli && forall x <- s.list :: Folded(fold, x.nick) != Folded(fold, e.nick)
    requires SizeOk(|index| + 1, after, clients)
    ensures Ledger(fold, Add(s, cli, e), index + [e], after, clients)
  {
    AddKeepsAgree(fold, s, cli, e);
    hide Agree, Folded, SizeOk;
  }

  /** The history table grows only while it is smaller than the client table. */
  lemma GrowthWithinBounds(count: nat, size: nat, clients: nat)
    requires IsPow2(size) && IsPow2(clients) && size <= 0x2000_0000 && clients <= 0x2000_0000
    requires SizeOk(count, size, clients) && count < Threshold(size) && (size >= clients ==> count < size)
    ensures Threshold(size) <= count + 1 ==>
      size < clients && size <= 0x1000_0000 && SizeOk(count + 1, 2 * size, clients)
    ensures Threshold(size) > count + 1 ==> SizeOk(count + 1, size, clients)
  {
    ThresholdExact(size);
    hide Threshold, IsPow2;
    if size < clients {
      Pow2Double(size, clients);
    }
  }

  class History {
    const fold: char -> char
    const code: string -> nat
    const hash: Table<Entry, string>
    const names: Table<Name, string>
    var list: seq<Entry>
    var live: set<Client>
    // the clients whose memory has not been freed
    ghost var kept: set<Client>

    ghost predicate Config() {
      && hash.key == NickOf && names.key == NameOf
      && (forall k: string :: hash.code(k) == code(Folded(fold, k)) && names.code(k) == code(Folded(fold, k)))
      && (forall a: string, b: string :: hash.same(a, b) <==> Folded(fold, a) == Folded(fold, b))
      && (forall a: string, b: string :: names.same(a, b) <==> Folded(fold, a) == Folded(fold, b))
      && Idempotent(fold)
    }

    ghost function Snap(): State
      reads this, kept
    {
      State(list, live, map c | c in kept :: c.hist, map c | c in kept :: c.nick,
            set c | c in kept && c.registered, set c | c in kept && c.past)
    }

    /** Everything but the contents of the client table. */
    ghost predicate Sound()
      reads this, kept, hash, hash.table, names, names.table
    {
      && Config() && hash.Valid() && names.Valid()
      && Ledger(fold, Snap(), hash.entered, hash.size, names.size)
    }

    ghost predicate Valid()
      reads this, kept, hash, hash.table, names, names.table
    {
      Sound() && NamesOk(fold, Snap(), names.entered)
    }

    /** An empty history and client table, with the sizes the server starts with. */
    constructor (fold: char -> char, code: string -> nat)
      requires Idempotent(fold)
      ensures Valid() && fresh(hash) && fresh(hash.table) && fresh(names) && fresh(names.table)
      ensures list == [] && live == {} && kept == {}
      ensures hash.size == INITIAL_HISTORY && names.size == INITIAL_CLIENTS
    {
      var codeOf := (k: string) => code(Folded(fold, k));
      var same := (a: string, b: string) => Folded(fold, a) == Folded(fold, b);
      this.fold, this.code := fold, code;
      hash := new Table(NickOf, codeOf, same, false, INITIAL_HISTORY);
      names := new Table(NameOf, codeOf, same, false, INITIAL_CLIENTS);
      list, live, kept := [], {}, {};
      new;
      hide IsPow2, Threshold, Folded, Table.Valid, Ledger, NamesOk, Sound;
      PowersOfTwo();
      Nothing();
    }

    lemma Nothing()
      requires Config() && hash.Valid() && names.Valid() && list == [] && live == {} && kept == {}
      requires hash.entered == [] && hash.entries == 0 && hash.size == INITIAL_HISTORY
      requires names.entered == [] && names.size == INITIAL_CLIENTS
      ensures Valid()
    {
      hide Table.Valid, Config, Folded, IsPow2;
      PowersOfTwo();
    }

    lemma Facts()
      requires Sound()
      ensures Agree(fold, Snap()) && hash.entries == |list| && SizeOk(hash.entries, hash.size, names.size)
    {
    }

    lemma SnapLive()
      ensures Snap().live == live
    {
    }

    lemma SnapList()
      ensures Snap().list == list
    {
    }

    /** `client_find_history` */
    method FindHistory(nick: string) returns (r: Option<Entry>)
      requires Sound()
      ensures r == None ==> forall e <- list :: Folded(fold, e.nick) != Folded(fold, nick)
      ensures r.Some? ==> r.value in list && Folded(fold, r.value.nick) == Folded(fold, nick)
    {
      r := hash.Find(nick);
      forall e | e in list
        ensures e in hash.entered
      {
        assert e in multiset(list);
      }
      assert r.Some? ==> r.value in multiset(list);
    }

    /** Removes a client's entry; a client kept only for it is freed with it. */
    method RemoveHistory(cli: Client)
      requires Sound() && cli in kept
      modifies this`list, this`kept, hash, hash.table, cli`hist
      ensures Sound() && hash.table == old(hash.table) && hash.size == old(hash.size)
      ensures Snap() == Drop(old(Snap()), Own(old(Snap()), cli))
      ensures kept <= old(kept)
      ensures old(cli.hist) != null ==> hash.entries == old(hash.entries) - 1
    {
      if cli.hist == null {
        DropNothing(fold, Snap());
        return;
      }
      ghost var s, index := Snap(), hash.entered;
      var e: Entry := cli.hist;
      assert s.list == list && s.hist[cli] == e && (cli in s.past <==> cli.past);
      hide Table.Valid, History.Config, Ledger, Agree, Drop, Without, RemoveFirst, Folded, NicksDiffer, Freed, Snap;
      LedgerDrop(fold, s, cli, e, index, hash.size, names.size);
      ghost var after := Drop(s, {e});
      TakeOut(cli, e);
    }

    method TakeOut(cli: Client, e: Entry)
      requires hash.Valid() && e in list && NicksDiffer(fold, list) && e in hash.entered && cli in kept
      modifies this`list, this`kept, hash, hash.table, cli`hist
      ensures hash.Valid() && hash.table == old(hash.table) && hash.size == old(hash.size)
      ensures hash.entered == RemoveFirst(old(hash.entered), e) && hash.entries == old(hash.entries) - 1
      ensures kept <= old(kept)
      ensures
        var t := old(Snap()).(list := Without(old(list), {e}));
        Snap() == if old(cli.past) then Freed(t, cli) else t.(hist := t.hist[cli := null])
    {
      hide Table.Valid, Without, RemoveFirst, Folded, NicksDiffer, Freed, Snap;
      Unlink(e);
      Release(cli);
    }

    /** Takes an entry out of the index and the list. */
    method Unlink(e: Entry)
      requires hash.Valid() && e in list && NicksDiffer(fold, list) && e in hash.entered
      modifies this`list, hash, hash.table
      ensures hash.Valid() && hash.table == old(hash.table) && hash.size == old(hash.size)
      ensures hash.entered == RemoveFirst(old(hash.entered), e) && hash.entries == old(hash.entries) - 1
      ensures Snap() == old(Snap()).(list := Without(old(list), {e}))
    {
      hide Table.Valid, Without, RemoveFirst, Folded, NicksDiffer;
      var found := hash.Delete(e);
      var i :| 0 <= i < |list| && list[i] == e;
      DistinctEntries(fold, list, i);
      list := list[..i] + list[i + 1..];
    }

    /** Frees a client that is only a history record, or clears the pointer of one that is not. */
    method Release(cli: Client)
      requires cli in kept
      modifies this`kept, cli`hist
      ensures kept <= old(kept)
      ensures
        var s := old(Snap());
        Snap() == if cli.past then Freed(s, cli) else s.(hist := s.hist[cli := null])
    {
      ghost var s := Snap();
      if cli.past {
        kept := kept - {cli};
        assert Snap().hist == s.hist - {cli};
        assert Snap().nicks == s.nicks - {cli};
        assert Snap().registered == s.registered - {cli};
        assert Snap().past == s.past - {cli};
      } else {
        cli.hist := null;
        assert Snap().hist == s.hist[cli := null];
        assert Snap().nicks == s.nicks;
      }
    }

    method RemoveEntry(e: Entry)
      requires Sound() && e in list
      modifies this`list, this`kept, hash, hash.table, kept`hist
      ensures Sound() && hash.table == old(hash.table) && hash.size == old(hash.size)
      ensures Snap() == Drop(old(Snap()), {e}) && hash.entries == old(hash.entries) - 1
      ensures kept <= old(kept)
    {
      Facts();
      ghost var s := Snap();
      assert s.hist[e.cli] == e;
      hide Sound, Agree, Drop;
      RemoveHistory(e.cli);
    }

    /** Removes the entry that already has this nickname. */
    method RemoveTwin(nick: string)
      requires Sound()
      modifies this`list, this`kept, hash, hash.table, kept`hist
      ensures Sound() && hash.table == old(hash.table) && hash.size == old(hash.size)
      ensures Snap() == Drop(old(Snap()), Twins(fold, old(list), nick))
      ensures kept <= old(kept)
    {
      hide Sound, Drop, Folded;
      Facts();
      DropNothing(fold, Snap());
      var r := FindHistory(nick);
      if r.Some? {
        OneTwin(fold, list, r.value);
        TwinsAlike(fold, list, r.value.nick, nick);
        hide Twins, Agree, Snap;
        RemoveEntry(r.value);
      } else {
        assert Twins(fold, list, nick) == {};
      }
    }

    /** Removes the oldest entry of a full table, unless the client table is larger. */
    method Evict()
      requires Sound()
      modifies this`list, this`kept, hash, hash.table, kept`hist
      ensures Sound() && hash.table == old(hash.table) && hash.size == old(hash.size)
      ensures Snap() == Drop(old(Snap()), Oldest(old(list), hash.size, names.size))
      ensures kept <= old(kept)
      ensures hash.size >= names.size ==> hash.entries < hash.size
    {
      hide Sound, Drop, Agree, Snap;
      Facts();
      DropNothing(fold, Snap());
      if hash.entries >= hash.size && hash.size >= names.size {
        RemoveEntry(list[|list| - 1]);
      }
    }

    /** Removes the entries a new one for this client displaces. */
    method MakeRoom(cli: Client)
      requires Sound() && cli in kept
      modifies this`list, this`kept, hash, hash.table, kept`hist
      ensures Sound() && hash.table == old(hash.table) && hash.size == old(hash.size)
      ensures Snap() == Drop(old(Snap()), Dropped(fold, old(Snap()), cli, hash.size, names.size))
      ensures kept <= old(kept)
      ensures hash.size >= names.size ==> hash.entries < hash.size
    {
      ghost var s := Snap();
      hide Sound, Drop, Dropped, Own, Twins, Oldest, Folded;
      Facts();
      assert s.nicks[cli] == cli.nick && cli in s.hist && s.hist.Keys == s.nicks.Keys;
      hide Agree, Snap;
      DroppedInTurn(fold, s, cli, hash.size, names.size);
      RemoveHistory(cli);
      SnapList();
      RemoveTwin(cli.nick);
      SnapList();
      Evict();
    }

    /**
     Records the nickname of a client.  The new entry is the first of the list; it displaces at most three
     others, and the clients kept only for those are freed.
     */
    method AddHistory(cli: Client, now: int) returns (chp: Entry)
      requires Sound() && cli in live && cli.registered
      modifies this`list, this`kept, hash, hash.table, kept`hist
      ensures Sound() && (hash.table == old(hash.table) || fresh(hash.table))
      ensures fresh(chp) && chp.cli == cli && chp.nick == cli.nick && chp.signoff == now
      ensures Snap() == Recorded(fold, old(Snap()), cli, chp, old(hash.size), names.size)
      ensures kept <= old(kept)
      ensures old(NewestFirst(list)) && (forall x <- old(list) :: x.signoff <= now) ==>
        && NewestFirst(list)
        && forall x <- old(list) :: x !in list ==>
             || x.cli == cli || Folded(fold, x.nick) == Folded(fold, cli.nick)
             || (names.size <= old(hash.size) <= |list| && forall y <- list :: x.signoff <= y.signoff)
    {
      hide Sound, Agree, Drop, Dropped, Folded, Snap, NewestFirst;
      ghost var s := Snap();
      Facts();
      LiveFacts(cli);
      SnapList();
      Displaced(fold, s, cli, hash.size, names.size);
      MakeRoom(cli);
      SnapLive();
      SnapList();
      LiveFacts(cli);
      chp := new Entry(cli.nick, cli, now);
      Enter(cli, chp);
      SnapList();
      Outlived(s, cli, chp, old(hash.size));
    }

    lemma Outlived(s: State, cli: Client, chp: Entry, size: nat)
      requires Agree(fold, s) && cli in s.hist && s.hist.Keys == s.nicks.Keys
      ensures NewestFirst(s.list) && (forall x <- s.list :: x.signoff <= chp.signoff) ==>
        var t := Recorded(fold, s, cli, chp, size, names.size);
        && NewestFirst(t.list)
        && forall x <- s.list :: x !in t.list ==>
             || x.cli == cli || Folded(fold, x.nick) == Folded(fold, s.nicks[cli])
             || (names.size <= size <= |t.list| && forall y <- t.list :: x.signoff <= y.signoff)
    {
      hide Folded, Recorded, NewestFirst;
      assert Distinct(s.list);
      if NewestFirst(s.list) && forall x <- s.list :: x.signoff <= chp.signoff {
        OldestGoes(fold, s, cli, chp, size, names.size);
      }
    }

    lemma LiveFacts(cli: Client)
      requires Sound() && cli in live
      ensures
        var s := Snap();
        && cli in s.hist && cli in s.nicks && s.live == live && cli in kept
        && s.hist[cli] == cli.hist && s.nicks[cli] == cli.nick && (cli in s.registered <==> cli.registered)
    {
    }

    lemma Known(cli: Client)
      requires Sound() && cli in live
      ensures cli in kept && cli in Snap().hist
    {
    }

    /** Puts a new entry into the client, the index and the list. */
    method Enter(cli: Client, chp: Entry)
      requires Sound() && cli in live && cli.registered && cli.hist == null
      requires chp.cli == cli && forall x <- list :: Folded(fold, x.nick) != Folded(fold, chp.nick)
      requires hash.size >= names.size ==> hash.entries < hash.size
      modifies this`list, hash, hash.table, cli`hist
      ensures Sound() && (hash.table == old(hash.table) || fresh(hash.table))
      ensures Snap() == Add(old(Snap()), cli, chp)
    {
      hide Ledger, Table.Valid, Agree, Folded, Threshold, IsPow2, Config, Snap, Add;
      ghost var t, index := Snap(), hash.entered;
      EnterFacts(cli);
      ghost var after := if hash.Full() then 2 * hash.size else hash.size;
      LedgerAdd(fold, t, cli, chp, index, hash.size, after, names.size);
      Link(cli, chp);
    }

    lemma EnterFacts(cli: Client)
      requires Sound() && cli in live && cli.registered && cli.hist == null
      requires hash.size >= names.size ==> hash.entries < hash.size
      ensures
        var t := Snap();
        && cli in kept && cli in t.hist && cli in t.live && cli in t.registered && t.hist[cli] == null && t.list == list
      ensures hash.Full() ==> hash.size <= 0x1000_0000
      ensures SizeOk(|hash.entered| + 1, if hash.Full() then 2 * hash.size else hash.size, names.size)
    {
      Known(cli);
      GrowthWithinBounds(hash.entries, hash.size, names.size);
    }

    method Link(cli: Client, chp: Entry)
      requires hash.Valid() && (hash.Full() ==> hash.size <= 0x1000_0000) && cli in kept
      modifies this`list, hash, hash.table, cli`hist
      ensures hash.Valid() && (hash.table == old(hash.table) || fresh(hash.table))
      ensures hash.size == old(if hash.Full() then 2 * hash.size else hash.size)
      ensures hash.entered == old(hash.entered) + [chp]
      ensures Snap() == Add(old(Snap()), cli, chp)
    {
      ghost var t := Snap();
      hide Table.Valid;
      cli.hist := chp;
      hash.Insert(chp, false);
      list := [chp] + list;
      assert Snap().hist == t.hist[cli := chp];
      assert Snap().nicks == t.nicks;
    }

    // ----- the clients

    method CreateClient() returns (cli: Client)
      requires Valid()
      modifies this`live, this`kept
      ensures Valid() && fresh(cli) && live == old(live) + {cli} && kept == old(kept) + {cli}
      ensures list == old(list) && cli.nick == ""
    {
      ghost var s := Snap();
      Facts();
      assert s.hist.Keys == kept;
      hide Ledger, NamesOk, Table.Valid, Agree, Config, SizeOk, Snap;
      cli := new Client();
      Newcomer(fold, s, cli, hash.entered, hash.size, names.entered, names.size);
      Admit(cli);
    }

    method Admit(cli: Client)
      requires cli !in kept && cli.nick == "" && !cli.registered && !cli.past && cli.hist == null
      modifies this`live, this`kept
      ensures live == old(live) + {cli} && kept == old(kept) + {cli}
      ensures Snap() == WithNewcomer(old(Snap()), cli)
    {
      ghost var s := Snap();
      live := live + {cli};
      kept := kept + {cli};
      assert Snap().hist == s.hist[cli := null];
      assert Snap().nicks == s.nicks[cli := ""];
      assert Snap().past == s.past;
      assert Snap().registered == s.registered;
    }

    /** The part of `register_client` the history depends on. */
    method Register(cli: Client)
      requires Valid() && cli in live
      modifies cli`registered
      ensures Valid() && cli.registered && Snap() == old(Snap()).(registered := old(Snap()).registered + {cli})
    {
      hide Ledger, NamesOk, Table.Valid, Config, Snap;
      Known(cli);
      Registered(fold, Snap(), cli, hash.entered, hash.size, names.entered, names.size);
      SetRegistered(cli);
    }

    method SetRegistered(cli: Client)
      requires cli in kept
      modifies cli`registered
      ensures cli.registered && Snap() == old(Snap()).(registered := old(Snap()).registered + {cli})
    {
      ghost var s := Snap();
      cli.registered := true;
      assert Snap().hist == s.hist;
      assert Snap().nicks == s.nicks;
      assert Snap().past == s.past;
      assert Snap().registered == s.registered + {cli};
    }

    /** Takes a client out of the client table. */
    method TakeName(cli: Client)
      requires Valid() && cli in live
      modifies names, names.table
      ensures Sound() && Snap() == old(Snap()) && names.table == old(names.table) && names.size == old(names.size)
      ensures NamesBut(fold, Snap(), names.entered, cli) && names.entries <= old(names.entries)
    {
      hide Table.Valid, Ledger, NamesOk, NamesBut, Folded, RemoveFirst, Snap, Config;
      Shape(cli);
      SnapLive();
      NameRemoved(fold, Snap(), names.entered, cli);
      if cli.nick != "" {
        var found := names.Delete(Name(cli, Folded(fold, cli.nick)));
      }
    }

    /** Enters a client into the client table under its new nickname. */
    method GiveName(cli: Client, nick: string)
      requires Sound() && cli in live && NamesBut(fold, Snap(), names.entered, cli) && 0 < |nick| <= NICKLEN
      requires names.Full() ==> names.size <= 0x1000_0000
      modifies cli`nick, names, names.table
      ensures Valid() && (names.table == old(names.table) || fresh(names.table)) && cli.nick == nick
      ensures Snap() == old(Snap()).(nicks := old(Snap()).nicks[cli := nick])
    {
      ghost var s := Snap();
      Known(cli);
      ghost var after := if names.Full() then 2 * names.size else names.size;
      Renamed(fold, s, cli, nick, hash.entered, hash.size, names.size, after);
      NameAdded(fold, s.(nicks := s.nicks[cli := nick]), names.entered, cli);
      hide Ledger, NamesOk, NamesBut, Table.Valid, Agree, Folded, Threshold, IsPow2, Config;
      hide Snap;
      SetNick(cli, nick);
      FileName(Name(cli, Folded(fold, nick)));
    }

    method FileName(n: Name)
      requires names.Valid() && hash.Valid() && (names.Full() ==> names.size <= 0x1000_0000)
      modifies names, names.table
      ensures names.Valid() && hash.Valid() && (names.table == old(names.table) || fresh(names.table))
      ensures names.entered == old(names.entered) + [n] && Snap() == old(Snap())
      ensures names.size == old(if names.Full() then 2 * names.size else names.size)
    {
      hide Table.Valid, Snap;
      names.Insert(n, false);
    }

    method SetNick(cli: Client, nick: string)
      requires cli in kept
      modifies cli`nick
      ensures cli.nick == nick && Snap() == old(Snap()).(nicks := old(Snap()).nicks[cli := nick])
    {
      ghost var s := Snap();
      cli.nick := nick;
      assert Snap().nicks == s.nicks[cli := nick];
      assert Snap().hist == s.hist;
    }

    /**
     Changing the spelling changes nothing else.  Any other change moves the client to its new place in the
     client table and, if it is registered and had a nickname, records the old one.
     */
    method ChangeNick(cli: Client, to: string, now: int)
      requires Valid() && cli in live && to != ""
      requires names.Full() ==> names.size <= 0x1000_0000
      modifies this`list, this`kept, hash, hash.table, names, names.table, kept
      ensures Valid() && cli.nick == Truncated(to)
      ensures cli in old(Snap()).hist && old(Snap()).hist.Keys == old(Snap()).nicks.Keys
      ensures
        var s, nick := old(Snap()), Truncated(to);
        if old(cli.nick) != "" && old(cli.registered) && Folded(fold, old(cli.nick)) != Folded(fold, to) then
          && list != [] && list[0].nick == old(cli.nick) && list[0].cli == cli && list[0].signoff == now
          && var t := Recorded(fold, s, cli, list[0], old(hash.size), old(names.size));
            Snap() == t.(nicks := t.nicks[cli := nick])
        else Snap() == s.(nicks := s.nicks[cli := nick])
    {
      hide Valid, Sound, Snap, NamesBut, Recorded;
      Shape(cli);
      var casechng := Folded(fold, cli.nick) == Folded(fold, to);
      if casechng {
        Respell(cli, Truncated(to));
      } else {
        Vacate(cli, now);
        GiveName(cli, Truncated(to));
      }
    }

    lemma Shape(cli: Client)
      requires Valid() && cli in live
      ensures cli in kept && cli in Snap().hist && Snap().hist.Keys == Snap().nicks.Keys && Snap().list == list
      ensures Snap().nicks[cli] == cli.nick && |cli.nick| <= NICKLEN
      ensures cli in Snap().registered <==> cli.registered
    {
    }

    method Respell(cli: Client, nick: string)
      requires Valid() && cli in live && Folded(fold, cli.nick) == Folded(fold, nick)
      modifies cli`nick
      ensures Valid() && cli.nick == nick && Snap() == old(Snap()).(nicks := old(Snap()).nicks[cli := nick])
    {
      ghost var s := Snap();
      Shape(cli);
      Respelled(fold, s, names.entered, cli, nick);
      Renamed(fold, s, cli, nick, hash.entered, hash.size, names.size, names.size);
      hide Ledger, NamesOk, Snap, Config, Table.Valid;
      SetNick(cli, nick);
    }

    /** Takes a client out of the client table, recording the nickname it had. */
    method Vacate(cli: Client, now: int)
      requires Valid() && cli in live
      modifies this`list, this`kept, hash, hash.table, names, names.table, kept`hist
      ensures Sound() && NamesBut(fold, Snap(), names.entered, cli) && cli in live
      ensures (hash.table == old(hash.table) || fresh(hash.table)) && names.table == old(names.table)
      ensures names.size == old(names.size) && names.entries <= old(names.entries) && kept <= old(kept)
      ensures cli in old(Snap()).hist && old(Snap()).hist.Keys == old(Snap()).nicks.Keys
      ensures
        if cli.registered && cli.nick != "" then
          && list != [] && list[0].nick == cli.nick && list[0].cli == cli && list[0].signoff == now
          && Snap() == Recorded(fold, old(Snap()), cli, list[0], old(hash.size), names.size)
        else Snap() == old(Snap())
    {
      ghost var s := Snap();
      Shape(cli);
      hide Valid, NamesBut, Folded;
      TakeName(cli);
      if cli.registered && cli.nick != "" {
        Facts();
        ghost var named := names.entered;
        hide Sound, Agree;
        var chp := AddHistory(cli, now);
        RecordKeepsNames(fold, s, Dropped(fold, s, cli, old(hash.size), names.size), cli, chp, named);
      }
    }

    /**
     Disconnects a client.  A registered one leaves its nickname in the history and stays as a record of it;
     any other is freed at once.
     */
    method Destroy(cli: Client, now: int)
      requires Valid() && cli in live
      modifies this`list, this`live, this`kept, hash, hash.table, names, names.table, kept
      ensures Valid() && live == old(live) - {cli}
      ensures cli in old(Snap()).hist && old(Snap()).hist.Keys == old(Snap()).nicks.Keys
      ensures
        var s := old(Snap());
        if old(cli.registered) then
          && list != [] && list[0].nick == old(cli.nick) && list[0].cli == cli && list[0].signoff == now
          && Snap() == SignedOff(Recorded(fold, s, cli, list[0], old(hash.size), old(names.size)), cli)
        else Snap() == Freed(s, cli).(live := s.live - {cli})
    {
      ghost var s := Snap();
      Shape(cli);
      assert cli !in s.registered ==> cli.hist == null;
      hide Valid, Folded;
      if cli.registered {
        Facts();
        ghost var named := names.entered;
        hide Sound, Agree;
        var chp := AddHistory(cli, now);
        AddedKeepsNames(fold, s, Dropped(fold, s, cli, old(hash.size), names.size), cli, chp, named);
      }
      Depart(cli);
    }

    /** The client goes: out of the client table and the client list, and, if not recorded, out of memory. */
    method Depart(cli: Client)
      requires Valid() && cli in live && (cli.registered <==> cli.hist != null)
      modifies this`live, this`kept, names, names.table, cli`past
      ensures Valid()
      ensures
        var s := old(Snap());
        Snap() == if cli.registered then SignedOff(s, cli) else Freed(s, cli).(live := s.live - {cli})
    {
      Shape(cli);
      hide Valid, Sound, NamesBut, Snap, Folded;
      TakeName(cli);
      Go(cli);
    }

    method Go(cli: Client)
      requires Sound() && NamesBut(fold, Snap(), names.entered, cli)
      requires cli in live && cli in kept && (cli.registered <==> cli.hist != null)
      modifies this`live, this`kept, cli`past
      ensures Valid()
      ensures
        var s := old(Snap());
        Snap() == if cli.registered then SignedOff(s, cli) else Freed(s, cli).(live := s.live - {cli})
    {
      hide Ledger, NamesOk, NamesBut, Freed, SignedOff, Agree, Config, Table.Valid, Snap;
      ghost var s := Snap();
      LiveFacts(cli);
      NotPast(cli);
      if cli.registered {
        SignOff(fold, s, cli, hash.entered, hash.size, names.size);
        SignedOffNames(fold, s, cli, names.entered);
        SetPast(cli);
      } else {
        Forgotten(fold, s, cli, hash.entered, hash.size, names.entered, names.size);
      }
      GoneState(s, cli);
      Leave(cli);
    }

    lemma NotPast(cli: Client)
      requires Sound() && cli in live
      ensures !cli.past
    {
      assert cli in Snap().live && cli !in Snap().past;
    }

    method SetPast(cli: Client)
      requires cli in kept
      modifies cli`past
      ensures cli.past && Snap() == old(Snap()).(past := old(Snap()).past + {cli})
    {
      ghost var s := Snap();
      cli.past := true;
      assert Snap().hist == s.hist && Snap().nicks == s.nicks;
      assert Snap().past == s.past + {cli} && Snap().registered == s.registered;
    }

    method Leave(cli: Client)
      requires cli in kept
      modifies this`live, this`kept
      ensures
        var s := old(Snap());
        var t := s.(live := s.live - {cli});
        Snap() == if cli.past then t else Freed(t, cli)
    {
      ghost var s := Snap();
      live := live - {cli};
      if !cli.past {
        kept := kept - {cli};
        assert Snap().hist == s.hist - {cli};
        assert Snap().nicks == s.nicks - {cli};
        assert Snap().registered == s.registered - {cli};
        assert Snap().past == s.past - {cli};
      }
    }

    lemma Owner(e: Entry)
      requires Sound() && e in list
      ensures e.cli in kept && (e.cli.past <==> e.cli !in live)
    {
      assert e.cli in Snap().hist;
      assert e.cli in Snap().past <==> e.cli.past;
    }

    /** Nobody registered holds the nickname: no client has it, or the one that is found first is not registered. */
    ghost predicate NotOnLine(nick: string)
      reads this`live, live`nick, live`registered
    {
      || (forall c <- live :: c.nick == "" || Folded(fold, c.nick) != Folded(fold, nick))
      || exists c <- live :: !c.registered && Folded(fold, c.nick) == Folded(fold, nick)
    }

    /** `find_client` */
    method FindClient(nick: string) returns (r: Option<Client>)
      requires Valid()
      ensures r.Some? ==> r.value in live && r.value.registered && Folded(fold, r.value.nick) == Folded(fold, nick)
      ensures r == None ==> NotOnLine(nick)
    {
      var cp := names.Find(nick);
      if cp.Some? {
        Shape(cp.value.cli);
        FoldedTwice(fold, cp.value.cli.nick);
        return if cp.value.cli.registered then Some(cp.value.cli) else None;
      }
      NobodyOnLine(nick);
      return None;
    }

    lemma NobodyOnLine(nick: string)
      requires Valid() && forall n <- names.entered :: !names.same(names.key(n), nick)
      ensures NotOnLine(nick)
    {
      hide Folded, Ledger, Table.Valid;
      forall c | c in live && c.nick != ""
        ensures Folded(fold, c.nick) != Folded(fold, nick)
      {
        Shape(c);
        FoldedTwice(fold, c.nick);
        assert Name(c, Folded(fold, c.nick)) in names.entered;
      }
    }

    /** Given up at or after the limit, if there is one, by a client that is on line. */
    ghost predicate Recent(e: Entry, limit: int, now: int)
      reads e, e.cli
    {
      !e.cli.past && e.signoff >= if limit != 0 then now - limit else 0
    }

    /** A client that is on line, by its nickname or by one it gave up no longer than `limit` ago. */
    method GetHistory(nick: string, limit: int, now: int) returns (r: Option<Client>)
      requires Valid()
      ensures r.Some? ==> r.value in live
      ensures r.Some? ==>
        || (r.value.registered && Folded(fold, r.value.nick) == Folded(fold, nick))
        || (NotOnLine(nick) && exists e <- list ::
              e.cli == r.value && Folded(fold, e.nick) == Folded(fold, nick) && Recent(e, limit, now))
      ensures r == None ==>
        NotOnLine(nick) && forall e <- list :: Folded(fold, e.nick) == Folded(fold, nick) ==> !Recent(e, limit, now)
    {
      hide Sound, NamesOk, Folded, NotOnLine;
      var cp := FindClient(nick);
      if cp.Some? {
        return cp;
      }
      hide Valid;
      var chp := FindHistory(nick);
      if chp.Some? {
        Owner(chp.value);
        OnlyEntry(chp.value);
      }
      if chp.Some? && !chp.value.cli.past && chp.value.signoff >= if limit != 0 then now - limit else 0 {
        return Some(chp.value.cli);
      }
      return None;
    }

    lemma OnlyEntry(e: Entry)
      requires Sound() && e in list
      ensures forall x <- list :: Folded(fold, x.nick) == Folded(fold, e.nick) ==> x == e
    {
      hide Folded;
      assert NicksDiffer(fold, Snap().list);
    }
  }
}
