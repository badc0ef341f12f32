/**
 `dn_find` and `dn_comp`: writing a name into a message and reusing the suffixes already there
 (modules/dns/res_comp.c).

 `Wire` is the encoding on values; the method `DnComp` is proved to write exactly those bytes,
 and `WireDenotesName` that they read back as the labels of the text.
 */
module DnsCompress {
  import opened Common
  import opened DnsNames

  // ----- matching a text against a name in the message

  /** Consumes label `l` from the front of the text; None where `dn_find` goes to `next`. */
  function MatchLabel(text: seq<byte>, l: Label): Option<seq<byte>> {
    if l == [] then Some(text)
    else if text == [] || text[0] == DOT then None
    else if text[0] == BACKSLASH then
      if |text| >= 2 && text[1] == l[0] then MatchLabel(text[2..], l[1..]) else None
    else if text[0] == l[0] then MatchLabel(text[1..], l[1..])
    else None
  }

  /** Whether `dn_find` takes a name with these labels for the text. */
  predicate Matches(text: seq<byte>, ls: seq<Label>)
    decreases |ls|
  {
    if ls == [] then text == []
    else
      match MatchLabel(text, ls[0])
      case None => false
      case Some(rest) => if rest == [] then |ls| == 1 else rest[0] == DOT && Matches(rest[1..], ls[1..])
  }

  lemma {:induction false} MatchLabelScans(text: seq<byte>, l: Label)
    requires MatchLabel(text, l).Some?
    requires var rest := MatchLabel(text, l).value; rest == [] || rest[0] == DOT
    ensures var rest := MatchLabel(text, l).value;
            Scan(text) == (l, if rest == [] then [] else rest[1..])
  {
    if l != [] {
      assert [l[0]] + l[1..] == l;
      if text[0] == BACKSLASH {
        MatchLabelScans(text[2..], l[1..]);
        assert [text[1]] + l[1..] == l;
      } else {
        MatchLabelScans(text[1..], l[1..]);
        assert [text[0]] + l[1..] == l;
      }
    }
  }

  /** A match is never wrong: the text parses to exactly the labels found. */
  lemma {:induction false} MatchIsSound(text: seq<byte>, ls: seq<Label>)
    requires Matches(text, ls) && forall l <- ls :: ValidLabel(l)
    ensures Parse(text) == Some(ls)
    decreases |ls|
  {
    hide MatchLabel, NoNul;
    if ls == [] {
    } else {
      assert ValidLabel(ls[0]);
      MatchLabelScans(text, ls[0]);
      var rest := MatchLabel(text, ls[0]).value;
      ParseStep(text);
      if rest == [] {
        assert ls == [ls[0]] + [] && Parse([]) == Some([]);
      } else {
        MatchIsSound(rest[1..], ls[1..]);
        assert [ls[0]] + ls[1..] == ls;
      }
    }
  }

  lemma {:induction false} MatchLabelPrinted(l: Label, tail: seq<byte>)
    requires Plain(l)
    requires tail == [] || tail[0] == DOT
    ensures MatchLabel(Escape(l) + tail, l) == Some(tail)
  {
    if l == [] {
      assert Escape(l) + tail == tail;
    } else {
      var e := if l[0] == DOT then [BACKSLASH, DOT] else [l[0]];
      assert Escape(l) + tail == e + (Escape(l[1..]) + tail);
      assert (Escape(l) + tail)[|e|..] == Escape(l[1..]) + tail;
      MatchLabelPrinted(l[1..], tail);
    }
  }

  /** And it is not missed: a name written in the printer's form matches its own labels. */
  lemma {:induction false} MatchIsComplete(ls: seq<Label>)
    requires forall l <- ls :: ValidLabel(l) && Plain(l)
    ensures Matches(Print(ls), ls)
  {
    if ls != [] {
      DottedRest(ls[1..]);
      MatchLabelPrinted(ls[0], Dotted(ls[1..]));
      if |ls| > 1 {
        MatchIsComplete(ls[1..]);
      }
    }
  }

  // ----- the table of earlier names

  /** Every entry is the start of a name that ends before `limit`. */
  ghost predicate TableOk(m: seq<byte>, ptrs: seq<nat>, limit: nat)
    requires limit <= |m|
  {
    forall i :: 0 <= i < |ptrs| ==> NameAt(m, ptrs[i], ptrs[i], limit).Some?
  }

  /** The first entry that matches, as `dn_find` searches. */
  ghost function FindFirst(m: seq<byte>, ptrs: seq<nat>, limit: nat, text: seq<byte>): Option<nat>
    requires limit <= |m| && TableOk(m, ptrs, limit)
  {
    if ptrs == [] then None
    else if Matches(text, NameAt(m, ptrs[0], ptrs[0], limit).value) then Some(ptrs[0])
    else FindFirst(m, ptrs[1..], limit, text)
  }

  /** Whatever entry the search settles on, it names exactly the labels of the text. */
  lemma {:induction false} FindFirstIsSound(m: seq<byte>, ptrs: seq<nat>, limit: nat, text: seq<byte>)
    requires limit <= |m| && TableOk(m, ptrs, limit)
    ensures match FindFirst(m, ptrs, limit, text)
            case Some(p) => p < limit && NameAt(m, p, p, limit).Some? && NameAt(m, p, p, limit) == Parse(text) &&
                            (text != [] ==> Parse(text) != Some([]))
            case None => forall p <- ptrs :: !Matches(text, NameAt(m, p, p, limit).value)
  {
    if ptrs != [] {
      var name := NameAt(m, ptrs[0], ptrs[0], limit).value;
      if Matches(text, name) {
        NameLabelsValid(m, ptrs[0], ptrs[0], limit);
        MatchIsSound(text, name);
      } else {
        FindFirstIsSound(m, ptrs[1..], limit, text);
      }
    }
  }

  lemma {:induction false} FindFirstStable(m: seq<byte>, m': seq<byte>, ptrs: seq<nat>, limit: nat, text: seq<byte>)
    requires AgreeBelow(m, m', limit) && TableOk(m, ptrs, limit)
    ensures TableOk(m', ptrs, limit)
    ensures FindFirst(m', ptrs, limit, text) == FindFirst(m, ptrs, limit, text)
  {
    forall i | 0 <= i < |ptrs|
      ensures NameAt(m', ptrs[i], ptrs[i], limit) == NameAt(m, ptrs[i], ptrs[i], limit)
    {
      NameStable(m, m', ptrs[i], ptrs[i], limit, limit);
    }
    if ptrs != [] {
      FindFirstStable(m, m', ptrs[1..], limit, text);
    }
  }

  // ----- the encoding

  /** The bytes `dn_comp` writes for a text, given the table; None for an invalid name. */
  ghost function Wire(m: seq<byte>, ptrs: seq<nat>, limit: nat, text: seq<byte>): Option<seq<byte>>
    requires limit <= |m| && TableOk(m, ptrs, limit)
    decreases |text|
  {
    if text == [] then Some([0])
    else
      match FindFirst(m, ptrs, limit, text)
      case Some(p) => Some(PointerBytes(p))
      case None =>
        var (l, rest) := Scan(text);
        if l == [] && rest == [] then Some([0])
        else if l == [] || |l| > MAX_SEGLEN then None
        else
          match Wire(m, ptrs, limit, rest)
          case None => None
          case Some(w) => Some([|l|] + l + w)
  }

  /** Labels as they are on the wire, with a length byte each. */
  function WireSize(ls: seq<Label>): nat {
    if ls == [] then 0 else 1 + |ls[0]| + WireSize(ls[1..])
  }

  /** That the table is used: a suffix that has an entry costs two bytes, however long it is. */
  lemma {:induction false} KnownSuffixIsPointer(m: seq<byte>, ptrs: seq<nat>, limit: nat, ls: seq<Label>, k: nat,
                                              p: nat)
    requires limit <= |m| && TableOk(m, ptrs, limit) && (forall l <- ls :: ValidLabel(l) && Plain(l))
    requires k < |ls| && p in ptrs && NameAt(m, p, p, limit) == Some(ls[k..])
    ensures var w := Wire(m, ptrs, limit, Print(ls)); w.Some? && |w.value| <= WireSize(ls[..k]) + 2
    decreases k
  {
    hide Escape, Matches, TableOk, Scan, FindFirst;
    NotEmpty(ls);
    MatchIsComplete(ls);
    assert ls[0..] == ls;
    FindFirstIsSound(m, ptrs, limit, Print(ls));
    if FindFirst(m, ptrs, limit, Print(ls)) == None {
      if k == 0 {
        assert false;
      } else {
        assert ls[1..][k - 1..] == ls[k..] && ls[..k][1..] == ls[1..][..k - 1] && ls[..k][0] == ls[0];
        KnownSuffixIsPointer(m, ptrs, limit, ls[1..], k - 1, p);
        ScanPrintedName(ls);
      }
    }
  }

  lemma NotEmpty(ls: seq<Label>)
    requires ls != [] && forall l <- ls :: ValidLabel(l)
    ensures Print(ls) != [] && 1 <= |ls[0]| <= MAX_SEGLEN
  {
    assert ValidLabel(ls[0]);
  }

  ghost predicate EndsInPointer(m: seq<byte>, ptrs: seq<nat>, limit: nat, text: seq<byte>)
    requires limit <= |m| && TableOk(m, ptrs, limit)
    decreases |text|
  {
    text != [] && (FindFirst(m, ptrs, limit, text).Some? || EndsInPointer(m, ptrs, limit, Scan(text).1))
  }

  /** The offsets the encoding starts a label at, which are the entries it adds to the table. */
  ghost function LabelStarts(m: seq<byte>, ptrs: seq<nat>, limit: nat, text: seq<byte>, at: nat): seq<nat>
    requires limit <= |m| && TableOk(m, ptrs, limit)
    decreases |text|
  {
    if text == [] || FindFirst(m, ptrs, limit, text).Some? then []
    else var (l, rest) := Scan(text); [at] + LabelStarts(m, ptrs, limit, rest, at + 1 + |l|)
  }

  /** The table after offering it `starts`: an entry and the final NULL must both have a slot. */
  function AddEntries(ptrs: seq<nat>, starts: seq<nat>, slots: nat): seq<nat>
    decreases |starts|
  {
    if starts == [] then ptrs
    else AddEntries(if |ptrs| + 2 < slots then ptrs + [starts[0]] else ptrs, starts[1..], slots)
  }

  /** Text and message agree on which names exist: what can be encoded is what parses. */
  lemma {:induction false} WireExactlyWhenParsed(m: seq<byte>, ptrs: seq<nat>, limit: nat, text: seq<byte>)
    requires limit <= |m| && TableOk(m, ptrs, limit)
    ensures Wire(m, ptrs, limit, text).Some? <==> Parse(text).Some?
    decreases |text|
  {
    if text != [] {
      FindFirstIsSound(m, ptrs, limit, text);
      if FindFirst(m, ptrs, limit, text) == None {
        WireExactlyWhenParsed(m, ptrs, limit, Scan(text).1);
      }
    }
  }

  /** The encoding placed in a message at `at`, after everything the table refers to. */
  ghost predicate Placed(m: seq<byte>, m': seq<byte>, limit: nat, w: seq<byte>, at: nat) {
    AgreeBelow(m, m', limit) && limit <= at && at + |w| <= |m'| && m'[at..at + |w|] == w
  }

  /**
   Compression preserves meaning: whichever pointers the search chose, the bytes written read
   back as the labels of the text.
   */
  lemma {:induction false} WireDenotesName(m: seq<byte>, m': seq<byte>, ptrs: seq<nat>, limit: nat, text: seq<byte>,
                                           start: nat, at: nat)
    requires limit <= |m| && TableOk(m, ptrs, limit) && NoNul(text)
    requires Wire(m, ptrs, limit, text).Some? && Placed(m, m', limit, Wire(m, ptrs, limit, text).value, at)
    requires limit <= start <= at && limit <= MAX_POINTER
    ensures NameAt(m', start, at, at + |Wire(m, ptrs, limit, text).value|) == Parse(text)
    decreases |text|
  {
    hide NoNul, Matches, MatchLabel, FindFirst, EndsInPointer, Scan;
    var w := Wire(m, ptrs, limit, text).value;
    if text == [] {
      assert m'[at] == w[0];
    } else {
      FindFirstIsSound(m, ptrs, limit, text);
      match FindFirst(m, ptrs, limit, text)
      case Some(p) =>
        PointerRoundTrip(p);
        assert m'[at] == w[0] && m'[at + 1] == w[1];
        NameStable(m, m', p, p, limit, start);
      case None =>
        var (l, rest) := Scan(text);
        if l == [] && rest == [] {
          assert m'[at] == w[0];
        } else {
          var tail := Wire(m, ptrs, limit, rest).value;
          assert w == [|l|] + l + tail;
          LabelPlaced(m', at, l, tail);
          ScanNoNul(text);
          WireDenotesName(m, m', ptrs, limit, rest, start, at + 1 + |l|);
        }
    }
  }

  lemma LabelPlaced(m': seq<byte>, at: nat, l: Label, tail: seq<byte>)
    requires |l| <= MAX_SEGLEN && at + 1 + |l| + |tail| <= |m'|
    requires m'[at..at + 1 + |l| + |tail|] == [|l|] + l + tail
    ensures m'[at] == |l| && m'[at + 1..at + 1 + |l|] == l
    ensures m'[at + 1 + |l|..at + 1 + |l| + |tail|] == tail
  {
    var w := [|l|] + l + tail;
    var piece := m'[at..at + 1 + |l| + |tail|];
    assert m'[at] == piece[0];
    forall k | 0 <= k < |l|
      ensures m'[at + 1 + k] == l[k]
    {
      assert piece[1 + k] == w[1 + k];
    }
    forall k | 0 <= k < |tail|
      ensures m'[at + 1 + |l| + k] == tail[k]
    {
      assert piece[1 + |l| + k] == w[1 + |l| + k];
    }
  }

  lemma {:induction false} ScanNoNul(text: seq<byte>)
    requires NoNul(text)
    ensures NoNul(Scan(text).0) && NoNul(Scan(text).1)
  {
    if text == [] || text[0] == DOT {
    } else if text[0] == BACKSLASH {
      if |text| > 1 {
        ScanNoNul(text[2..]);
      }
    } else {
      ScanNoNul(text[1..]);
    }
  }

  lemma {:induction false} StartsDenoteNames(m: seq<byte>, m': seq<byte>, ptrs: seq<nat>, limit: nat, text: seq<byte>,
                                             at: nat)
    requires limit <= |m| && TableOk(m, ptrs, limit) && NoNul(text)
    requires Wire(m, ptrs, limit, text).Some? && Placed(m, m', limit, Wire(m, ptrs, limit, text).value, at)
    requires limit <= MAX_POINTER
    ensures TableOk(m', LabelStarts(m, ptrs, limit, text, at), at + |Wire(m, ptrs, limit, text).value|)
    decreases |text|
  {
    hide NoNul, Matches, MatchLabel, FindFirst, EndsInPointer, Scan, NameAt;
    WireDenotesName(m, m', ptrs, limit, text, at, at);
    WireExactlyWhenParsed(m, ptrs, limit, text);
    if text != [] && FindFirst(m, ptrs, limit, text) == None {
      var (l, rest) := Scan(text);
      if l == [] && rest == [] {
        assert LabelStarts(m, ptrs, limit, rest, at + 1) == [];
      } else {
        var tail := Wire(m, ptrs, limit, rest).value;
        LabelPlaced(m', at, l, tail);
        ScanNoNul(text);
        StartsDenoteNames(m, m', ptrs, limit, rest, at + 1 + |l|);
      }
    }
  }

  lemma {:induction false} AddEntriesOk(m: seq<byte>, ptrs: seq<nat>, starts: seq<nat>, slots: nat, limit: nat)
    requires limit <= |m| && TableOk(m, ptrs, limit) && TableOk(m, starts, limit)
    ensures TableOk(m, AddEntries(ptrs, starts, slots), limit)
    decreases |starts|
  {
    hide NameAt;
    if starts != [] {
      var ptrs' := if |ptrs| + 2 < slots then ptrs + [starts[0]] else ptrs;
      AddEntriesOk(m, ptrs', starts[1..], slots, limit);
    }
  }

  lemma TableStable(m: seq<byte>, m': seq<byte>, ptrs: seq<nat>, limit: nat, limit': nat)
    requires AgreeBelow(m, m', limit) && limit <= limit' <= |m'| && TableOk(m, ptrs, limit)
    ensures TableOk(m', ptrs, limit')
  {
    forall i | 0 <= i < |ptrs|
      ensures NameAt(m', ptrs[i], ptrs[i], limit').Some?
    {
      NameStable(m, m', ptrs[i], ptrs[i], limit, limit');
    }
  }

  /** What one call does to a message and its table. */
  ghost function NewTable(m: seq<byte>, ptrs: seq<nat>, text: seq<byte>, slots: nat): seq<nat>
    requires TableOk(m, ptrs, |m|)
  {
    AddEntries(ptrs, LabelStarts(m, ptrs, |m|, text, |m|), slots)
  }

  /** A call keeps the table usable for the next one. */
  lemma TableKept(m: seq<byte>, ptrs: seq<nat>, text: seq<byte>, slots: nat)
    requires TableOk(m, ptrs, |m|) && NoNul(text) && |m| <= MAX_POINTER
    requires Wire(m, ptrs, |m|, text).Some?
    ensures var m' := m + Wire(m, ptrs, |m|, text).value; TableOk(m', NewTable(m, ptrs, text, slots), |m'|)
  {
    hide NoNul, Wire, LabelStarts, NameAt, AddEntries;
    var w := Wire(m, ptrs, |m|, text).value;
    var m' := m + w;
    assert m'[|m|..|m| + |w|] == w;
    StartsDenoteNames(m, m', ptrs, |m|, text, |m|);
    TableStable(m, m', ptrs, |m|, |m'|);
    AddEntriesOk(m', ptrs, LabelStarts(m, ptrs, |m|, text, |m|), slots, |m'|);
  }

  // ----- a failure that leaves entries behind

  /** The one failure that forgets to drop the entries it added: no room for the closing pointer. */
  ghost predicate NoRoomForPointer(m: seq<byte>, ptrs: seq<nat>, text: seq<byte>, length: nat)
    requires TableOk(m, ptrs, |m|)
  {
    && EndsInPointer(m, ptrs, |m|, text)
    && var w := Wire(m, ptrs, |m|, text);
       w.Some? && |w.value| - 2 <= length < |w.value|
  }

  lemma {:induction false} AddEntriesAdds(ptrs: seq<nat>, starts: seq<nat>, slots: nat)
    ensures var r := AddEntries(ptrs, starts, slots);
            ptrs <= r && forall i :: |ptrs| <= i < |r| ==> r[i] in starts
    decreases |starts|
  {
    if starts != [] {
      var ptrs' := if |ptrs| + 2 < slots then ptrs + [starts[0]] else ptrs;
      AddEntriesAdds(ptrs', starts[1..], slots);
      var r := AddEntries(ptrs, starts, slots);
      assert |ptrs'| > |ptrs| ==> r[|ptrs|] == ptrs'[|ptrs|];
    }
  }

  lemma {:induction false} StartsFrom(m: seq<byte>, ptrs: seq<nat>, limit: nat, text: seq<byte>, at: nat)
    requires limit <= |m| && TableOk(m, ptrs, limit)
    ensures forall p <- LabelStarts(m, ptrs, limit, text, at) :: p >= at
    decreases |text|
  {
    hide TableOk, FindFirst;
    if text != [] && FindFirst(m, ptrs, limit, text) == None {
      var (l, rest) := Scan(text);
      StartsFrom(m, ptrs, limit, rest, at + 1 + |l|);
    }
  }

  /** Entries for a name that was not written after all make the table unusable, whichever they are. */
  lemma LeakBreaksTable(m: seq<byte>, ptrs: seq<nat>, text: seq<byte>, slots: nat)
    requires TableOk(m, ptrs, |m|)
    ensures TableOk(m, NewTable(m, ptrs, text, slots), |m|) <==> NewTable(m, ptrs, text, slots) == ptrs
  {
    hide NameAt, LabelStarts, AddEntries;
    var starts := LabelStarts(m, ptrs, |m|, text, |m|);
    var ptrs' := NewTable(m, ptrs, text, slots);
    AddEntriesAdds(ptrs, starts, slots);
    if ptrs' != ptrs {
      StartsFrom(m, ptrs, |m|, text, |m|);
      NoNameBeyond(m, ptrs'[|ptrs|]);
    }
  }

  lemma NoNameBeyond(m: seq<byte>, p: nat)
    requires p >= |m|
    ensures NameAt(m, p, p, |m|) == None
  {
  }

  /**
   An input it happens for: after the name "b" there is room for the label of "a.b", but not for the pointer
   to "b".  The call fails, and the place of its label, 3, stays in the table.
   */
  lemma LeakedEntry(slots: nat)
    requires slots >= 4
    ensures var m, text := [1, 'b' as int, 0], ['a' as int, DOT, 'b' as int];
            && TableOk(m, [0], 3) && NoRoomForPointer(m, [0], text, 3)
            && NewTable(m, [0], text, slots) == [0, 3] && !TableOk(m, [0, 3], 3)
  {
    var m, text, b := [1, 'b' as int, 0], ['a' as int, DOT, 'b' as int], ['b' as int];
    NameOfOne(m, 0, 'b' as int, 3);
    assert Scan(text) == (['a' as int], b) by {
      var none: seq<byte> := [];
      assert text[1..] == [DOT] + b && text[1..][1..] == b;
      assert Scan(text[1..]) == (none, b) && ['a' as int] + none == ['a' as int];
    }
    var none: seq<nat> := [];
    assert [0][1..] == none;
    assert MatchLabel(text, b) == None && FindFirst(m, [0], 3, text) == None;
    OneLabelMatches('b' as int);
    assert FindFirst(m, [0], 3, b) == Some(0);
    assert LabelStarts(m, [0], 3, b, 5) == [];
    assert LabelStarts(m, [0], 3, text, 3) == [3] + [];
    assert AddEntries([0] + [3], [3][1..], slots) == [0, 3];
    NoNameBeyond(m, 3);
    assert NameAt(m, [0, 3][1], [0, 3][1], 3) == None;
  }

  /**
   How it shows.  The label written before the failure is left behind in the buffer.  If a NUL happens to
   follow it, the next call for "a" finds its name at 3, and the pointer it writes at 3 points to itself.
   */
  lemma LeakedPointer()
    ensures var buffer := [1, 'b' as int, 0, 1, 'a' as int, 0];
            && TableOk(buffer, [0, 3], 6) && FindFirst(buffer, [0, 3], 6, ['a' as int]) == Some(3)
            && NameAt(buffer[..3] + PointerBytes(3), 3, 3, 5) == None
  {
    var buffer, a := [1, 'b' as int, 0, 1, 'a' as int, 0], ['a' as int];
    NameOfOne(buffer, 0, 'b' as int, 6);
    NameOfOne(buffer, 3, 'a' as int, 6);
    var both: seq<nat> := [0, 3];
    assert both[1..] == [3];
    assert MatchLabel(a, ['b' as int]) == None;
    OneLabelMatches('a' as int);
    assert FindFirst(buffer, [3], 6, a) == Some(3);
    PointerRoundTrip(3);
  }

  lemma NameOfOne(m: seq<byte>, p: nat, c: byte, limit: nat)
    requires p + 3 <= limit <= |m| && m[p] == 1 && m[p + 1] == c && c != 0 && m[p + 2] == 0
    ensures NameAt(m, p, p, limit) == Some([[c]])
  {
    assert NameAt(m, p, p + 2, limit) == Some([]);
    assert m[p + 1..p + 2] == [c];
    assert [[c]] + [] == [[c]];
  }

  lemma OneLabelMatches(c: byte)
    requires c != DOT && c != BACKSLASH
    ensures Matches([c], [[c]])
  {
    var none: seq<byte> := [];
    assert [c][1..] == none;
    assert MatchLabel([c], [c]) == MatchLabel(none, none);
  }

  // ----- whole messages

  /** A message is built from names, each with the room it may take, and from bytes of other kinds. */
  datatype Item = Name(text: seq<byte>, room: nat) | Raw(bytes: seq<byte>)

  /** A message being built, its table, and where each name was put. */
  datatype Built = Built(m: seq<byte>, ptrs: seq<nat>, names: seq<(nat, seq<byte>)>)

  ghost predicate BuildOk(b: Built) {
    TableOk(b.m, b.ptrs, |b.m|)
  }

  /** One call: the name joins the message, or it is invalid or has no room and nothing is kept of it. */
  ghost function AddName(b: Built, text: seq<byte>, room: nat, slots: nat): Built
    requires BuildOk(b)
  {
    match Wire(b.m, b.ptrs, |b.m|, text)
    case None => b
    case Some(w) =>
      if |w| > room then b
      else Built(b.m + w, NewTable(b.m, b.ptrs, text, slots), b.names + [(|b.m|, text)])
  }

  lemma AddNameOk(b: Built, text: seq<byte>, room: nat, slots: nat)
    requires BuildOk(b) && NoNul(text) && |b.m| <= MAX_POINTER
    ensures BuildOk(AddName(b, text, room, slots))
  {
    hide NoNul, TableOk, NameAt, NewTable, Wire;
    if Wire(b.m, b.ptrs, |b.m|, text).Some? {
      TableKept(b.m, b.ptrs, text, slots);
    }
  }

  /**
   Appends items one after another with one shared table, passing over the names that cannot be added.
   None when a call leaves entries behind, which breaks the table, or the message outgrows pointers.
   */
  ghost function Build(b: Built, items: seq<Item>, slots: nat): Option<Built>
    requires BuildOk(b)
    decreases |items|
  {
    if items == [] then Some(b)
    else
      match items[0]
      case Raw(bytes) =>
        TableStable(b.m, b.m + bytes, b.ptrs, |b.m|, |b.m + bytes|);
        Build(b.(m := b.m + bytes), items[1..], slots)
      case Name(text, room) =>
        if !NoNul(text) || |b.m| > MAX_POINTER then None
        else if NoRoomForPointer(b.m, b.ptrs, text, room) && NewTable(b.m, b.ptrs, text, slots) != b.ptrs then None
        else
          AddNameOk(b, text, room, slots);
          Build(AddName(b, text, room, slots), items[1..], slots)
  }

  /** Name `n` of the message reads back, from its own offset, as the labels of its text. */
  ghost predicate ReadsBack(m: seq<byte>, n: (nat, seq<byte>)) {
    && n.0 < |m| && Parse(n.1).Some?
    && forall slack: byte :: Chase(m + [slack], |m|, n.0, 0) == Parse(n.1)
  }

  ghost predicate Denotes(m: seq<byte>, n: (nat, seq<byte>)) {
    Parse(n.1).Some? && NameAt(m, n.0, n.0, |m|) == Parse(n.1)
  }

  lemma {:induction false} BuildDenotes(b: Built, items: seq<Item>, slots: nat)
    requires BuildOk(b) && Build(b, items, slots).Some?
    requires forall i :: 0 <= i < |b.names| ==> Denotes(b.m, b.names[i])
    ensures var b' := Build(b, items, slots).value; forall i :: 0 <= i < |b'.names| ==> Denotes(b'.m, b'.names[i])
    decreases |items|
  {
    hide NameAt, NoNul, Wire, Parse, NewTable, AddName, NoRoomForPointer;
    if items != [] {
      match items[0]
      case Raw(bytes) =>
        var b1 := b.(m := b.m + bytes);
        TableStable(b.m, b1.m, b.ptrs, |b.m|, |b1.m|);
        DenotesStable(b, b1.m);
        BuildDenotes(b1, items[1..], slots);
      case Name(text, room) =>
        AddNameOk(b, text, room, slots);
        AddNameDenotes(b, text, room, slots);
        BuildDenotes(AddName(b, text, room, slots), items[1..], slots);
    }
  }

  lemma AddNameDenotes(b: Built, text: seq<byte>, room: nat, slots: nat)
    requires BuildOk(b) && NoNul(text) && |b.m| <= MAX_POINTER
    requires forall i :: 0 <= i < |b.names| ==> Denotes(b.m, b.names[i])
    ensures var b' := AddName(b, text, room, slots); forall i :: 0 <= i < |b'.names| ==> Denotes(b'.m, b'.names[i])
  {
    hide NameAt, NoNul, Wire, Parse, NewTable;
    var b1 := AddName(b, text, room, slots);
    if b1 != b {
      var w := Wire(b.m, b.ptrs, |b.m|, text).value;
      assert b1.m[|b.m|..|b.m| + |w|] == w;
      WireDenotesName(b.m, b1.m, b.ptrs, |b.m|, text, |b.m|, |b.m|);
      WireExactlyWhenParsed(b.m, b.ptrs, |b.m|, text);
      DenotesStable(b, b1.m);
    }
  }

  lemma DenotesStable(b: Built, m': seq<byte>)
    requires b.m <= m' && forall i :: 0 <= i < |b.names| ==> Denotes(b.m, b.names[i])
    ensures forall i :: 0 <= i < |b.names| ==> Denotes(m', b.names[i])
  {
    forall i | 0 <= i < |b.names|
      ensures Denotes(m', b.names[i])
    {
      NameStable(b.m, m', b.names[i].0, b.names[i].0, |b.m|, |m'|);
    }
  }

  /**
   The point of the codec.  Build a message from any names, each with any room, and any other bytes, in any
   order, with one shared table of any capacity: reading at the offset of any name that was added, in the
   finished message, gives exactly the labels of that name's text, whatever names before and after it could
   not be added, and the loop check does not interfere.
   */
  lemma EveryNameReadsBack(items: seq<Item>, slots: nat)
    ensures var r := Build(Built([], [], []), items, slots);
            r.Some? ==> forall i :: 0 <= i < |r.value.names| ==> ReadsBack(r.value.m, r.value.names[i])
  {
    var r := Build(Built([], [], []), items, slots);
    if r.Some? {
      var m, names := r.value.m, r.value.names;
      BuildDenotes(Built([], [], []), items, slots);
      forall i | 0 <= i < |names|
        ensures ReadsBack(m, names[i])
      {
        DenotedNameReadsBack(m, names[i]);
      }
    }
  }

  lemma DenotedNameReadsBack(m: seq<byte>, n: (nat, seq<byte>))
    requires Denotes(m, n)
    ensures ReadsBack(m, n)
  {
    hide Span, Chase, Parse;
    forall slack: byte
      ensures Chase(m + [slack], |m|, n.0, 0) == Parse(n.1)
    {
      var ms := m + [slack];
      NameStable(m, ms, n.0, n.0, |m|, |m|);
      NameIsDistinctWalk(ms, Span(0, |m|), n.0, n.0, |m|);
      LoopCheckNeverRejectsDistinctWalk(ms, |m|, n.0);
    }
  }
}
