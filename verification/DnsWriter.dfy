/**
 The compressor itself: `dn_find` and `dn_comp` as they run on the message buffer
 (modules/dns/res_comp.c), proved against the encoding of module DnsCompress.
 */
module DnsWriter {
  import opened Common
  import opened DnsNames
  import opened DnsCompress

  // ----- one step of each specification function

  lemma NameHead(m: seq<byte>, start: nat, pos: nat, limit: nat)
    requires start <= pos && limit <= |m| && NameAt(m, start, pos, limit).Some?
    ensures pos < limit && (m[pos] == 0 <==> NameAt(m, start, pos, limit) == Some([]))
    ensures m[pos] == 0 || m[pos] < 64 || m[pos] >= 192
    ensures 0 < m[pos] < 64 ==>
              var next := pos + 1 + m[pos];
              && next < limit && NoNul(m[pos + 1..next]) && NameAt(m, start, next, limit).Some?
              && NameAt(m, start, pos, limit).value == [m[pos + 1..next]] + NameAt(m, start, next, limit).value
    ensures m[pos] >= 192 ==>
              && pos + 1 < limit
              && var target := PointerTarget(m[pos], m[pos + 1]);
                 target < start && NameAt(m, target, target, start) == NameAt(m, start, pos, limit)
  {
  }

  lemma MatchHead(text: seq<byte>, ls: seq<Label>)
    ensures ls == [] ==> (Matches(text, ls) <==> text == [])
    ensures ls != [] ==>
              (Matches(text, ls) <==>
               match MatchLabel(text, ls[0])
               case None => false
               case Some(rest) => if rest == [] then |ls| == 1 else rest[0] == DOT && Matches(rest[1..], ls[1..]))
  {
  }

  lemma MatchLabelStep(text: seq<byte>, dn: nat, l: Label, k: nat)
    requires dn <= |text| && k < |l| && NoNul(l) && NoNul(text)
    ensures var dn' := if CharAt(text, dn) == BACKSLASH then dn + 1 else dn;
            if CharAt(text, dn) == DOT || CharAt(text, dn') != l[k] then MatchLabel(text[dn..], l[k..]) == None
            else dn' < |text| && MatchLabel(text[dn..], l[k..]) == MatchLabel(text[dn' + 1..], l[k + 1..])
  {
    var rest := text[dn..];
    assert l[k..][1..] == l[k + 1..] && l[k..][0] == l[k];
    if dn < |text| {
      assert rest[0] == text[dn] && rest[1..] == text[dn + 1..];
      if text[dn] == BACKSLASH && dn + 1 < |text| {
        assert rest[2..] == text[dn + 2..];
      }
    }
  }

  lemma MatchLabelEnd(text: seq<byte>, l: Label)
    requires l == []
    ensures MatchLabel(text, l) == Some(text)
  {
  }

  // ----- dn_find

  /** Compares label by label; `k` counts the bytes of the label already matched. */
  method MatchOneLabel(text: seq<byte>, dn0: nat, msg: array<byte>, cp0: nat, n: nat) returns (ok: bool, dn: nat)
    requires dn0 <= |text| && NoNul(text) && cp0 + n <= msg.Length && NoNul(msg[cp0..cp0 + n])
    ensures dn <= |text|
    ensures ok <==> MatchLabel(text[dn0..], msg[cp0..cp0 + n]).Some?
    ensures ok ==> MatchLabel(text[dn0..], msg[cp0..cp0 + n]).value == text[dn..]
  {
    hide MatchLabel;
    ghost var l := msg[cp0..cp0 + n];
    dn := dn0;
    var cp := cp0;
    while cp < cp0 + n
      invariant cp0 <= cp <= cp0 + n && dn <= |text|
      invariant MatchLabel(text[dn0..], l) == MatchLabel(text[dn..], l[cp - cp0..])
    {
      MatchLabelStep(text, dn, l, cp - cp0);
      if CharAt(text, dn) == DOT {
        return false, dn;
      }
      if CharAt(text, dn) == BACKSLASH {
        dn := dn + 1;
      }
      if CharAt(text, dn) != msg[cp] {
        return false, dn0;
      }
      dn, cp := dn + 1, cp + 1;
    }
    MatchLabelEnd(text[dn..], l[cp - cp0..]);
    ok := true;
  }

  /** The body of the search loop: does the name at `sp` match the text? */
  method MatchEntry(text: seq<byte>, msg: array<byte>, sp: nat, ghost limit0: nat) returns (found: bool)
    requires limit0 <= msg.Length && NoNul(text)
    requires NameAt(msg[..], sp, sp, limit0).Some?
    ensures found <==> Matches(text, NameAt(msg[..], sp, sp, limit0).value)
  {
    hide NoNul, MatchLabel, Matches, NameAt;
    ghost var m := msg[..];
    ghost var all := NameAt(m, sp, sp, limit0).value;
    var dn: nat, cp: nat := 0, sp;
    ghost var start: nat, limit: nat := sp, limit0;
    NameHead(m, start, cp, limit);
    assert text[0..] == text;
    while msg[cp] != 0
      invariant start <= cp < limit <= |m| && dn <= |text|
      invariant NameAt(m, start, cp, limit).Some?
      invariant Matches(text, all) <==> Matches(text[dn..], NameAt(m, start, cp, limit).value)
      decreases start, limit - cp
    {
      NameHead(m, start, cp, limit);
      var n := msg[cp];
      cp := cp + 1;
      if n < 64 {
        MatchHead(text[dn..], NameAt(m, start, cp - 1, limit).value);
        assert msg[cp..cp + n] == m[cp..cp + n];
        var ok;
        ok, dn := MatchOneLabel(text, dn, msg, cp, n);
        if !ok {
          return false;
        }
        cp := cp + n;
        NameHead(m, start, cp, limit);
        if dn == |text| {
          return msg[cp] == 0;
        }
        if text[dn] != DOT {
          return false;
        }
        dn := dn + 1;
        assert text[dn - 1..][1..] == text[dn..];
      } else if n < 192 {
        // an illegal length byte, which no entry of a sound table leads to
        assert false;
      } else {
        ghost var before := start;
        cp := PointerTarget(n, msg[cp]);
        start, limit := cp, before;
        NameHead(m, start, cp, limit);
      }
    }
    NameHead(m, start, cp, limit);
    MatchHead(text[dn..], []);
    return dn == |text|;
  }

  /** `dn_find` */
  method DnFind(text: seq<byte>, msg: array<byte>, ptrs: seq<nat>, ghost limit: nat) returns (r: int)
    requires limit <= msg.Length && NoNul(text) && TableOk(msg[..], ptrs, limit)
    ensures r == match FindFirst(msg[..], ptrs, limit, text) case None => -1 case Some(p) => p
  {
    hide NoNul, Matches, NameAt;
    var i := 0;
    assert ptrs[0..] == ptrs;
    while i < |ptrs|
      invariant 0 <= i <= |ptrs|
      invariant FindFirst(msg[..], ptrs, limit, text) == FindFirst(msg[..], ptrs[i..], limit, text)
    {
      var found := MatchEntry(text, msg, ptrs[i], limit);
      if found {
        return ptrs[i];
      }
      assert ptrs[i..][1..] == ptrs[i + 1..];
      i := i + 1;
    }
    return -1;
  }

  // ----- dn_comp

  /**
   The caller's array of pointers to earlier names: `slots` counts the message pointer in front
   and the NULL at the end; `update` is false when the caller passed no end of array.
   */
  class PtrTable {
    var ptrs: seq<nat>
    const slots: nat
    const update: bool

    constructor (slots: nat, update: bool)
      ensures ptrs == [] && this.slots == slots && this.update == update
    {
      ptrs := [];
      this.slots := slots;
      this.update := update;
    }
  }

  lemma ScanStep(text: seq<byte>, dn: nat)
    requires dn <= |text|
    ensures dn == |text| || text[dn] == DOT ==>
              Scan(text[dn..]) == ([], if dn == |text| then [] else text[dn + 1..])
    ensures dn + 1 == |text| && text[dn] == BACKSLASH ==> Scan(text[dn..]) == ([], [])
    ensures dn + 1 < |text| && text[dn] == BACKSLASH ==>
              Scan(text[dn..]) == ([text[dn + 1]] + Scan(text[dn + 2..]).0, Scan(text[dn + 2..]).1)
    ensures dn < |text| && text[dn] != BACKSLASH && text[dn] != DOT ==>
              Scan(text[dn..]) == ([text[dn]] + Scan(text[dn + 1..]).0, Scan(text[dn + 1..]).1)
  {
    var rest := text[dn..];
    if dn < |text| {
      assert rest[1..] == text[dn + 1..];
      if dn + 1 < |text| {
        assert rest[2..] == text[dn + 2..];
      }
    }
  }

  /**
   The inner loop: copies one label, up to its dot or the end of the text.  `dn` is the offset of
   the character in hand, so it stays at the NUL once that is reached.
   */
  method CopyTextLabel(text: seq<byte>, dn0: nat, msg: array<byte>, cp0: nat, eob: nat)
    returns (ok: bool, dn: nat, cp: nat)
    requires dn0 < |text| && NoNul(text) && eob <= msg.Length
    modifies msg
    ensures dn <= |text|
    ensures ok <==> Scan(text[dn0..]).0 == [] || cp0 + |Scan(text[dn0..]).0| <= eob
    ensures ok ==> cp == cp0 + |Scan(text[dn0..]).0| && text[dn..] == Scan(text[dn0..]).1
    ensures ok && cp <= msg.Length ==> msg[cp0..cp] == Scan(text[dn0..]).0
    ensures forall i :: 0 <= i < msg.Length && (i < cp0 || eob <= i) ==> msg[i] == old(msg[i])
  {
    hide Scan;
    ghost var goal := Scan(text[dn0..]);
    ghost var out := [];
    dn, cp := dn0, cp0;
    while true
      invariant dn <= |text| && cp == cp0 + |out| && (out == [] || cp <= eob)
      invariant goal.0 == out + Scan(text[dn..]).0 && goal.1 == Scan(text[dn..]).1
      invariant out == [] ==> dn < |text|
      invariant forall i :: 0 <= i < |out| ==> msg[cp0 + i] == out[i]
      invariant forall i :: 0 <= i < msg.Length && (i < cp0 || eob <= i) ==> msg[i] == old(msg[i])
      decreases |text| - dn
    {
      ScanStep(text, dn);
      if dn == |text| {
        break;
      }
      if text[dn] == DOT {
        dn := dn + 1;
        break;
      }
      var at := dn;
      if text[dn] == BACKSLASH {
        at := dn + 1;
        if CharAt(text, at) == 0 {
          dn := at;
          break;
        }
      }
      if cp >= eob {
        return false, dn, cp;
      }
      msg[cp] := text[at];
      out := out + [text[at]];
      cp := cp + 1;
      dn := at + 1;
    }
    assert goal.0 == out;
    ok := true;
  }

  /** How the attempt to write one label ended. */
  datatype LabelEnd = Wrote | Full | TrailingDot | Illegal

  /** One label: its bytes from `cp0 + 1`, then its length at `cp0`. */
  method WriteLabel(text: seq<byte>, dn0: nat, msg: array<byte>, cp0: nat, eob: nat)
    returns (end: LabelEnd, dn: nat, cp: nat)
    requires dn0 < |text| && NoNul(text) && cp0 <= eob <= msg.Length
    modifies msg
    ensures dn <= |text|
    ensures var (l, rest) := Scan(text[dn0..]);
            && (end == Full <==> l != [] && cp0 + 1 + |l| > eob)
            && (end != Full ==> text[dn..] == rest)
            && (end == TrailingDot <==> l == [] && rest == [])
            && (end == Illegal ==> (l == [] && rest != []) || |l| > MAX_SEGLEN)
            && (end == Wrote ==> 1 <= |l| <= MAX_SEGLEN && cp == cp0 + 1 + |l| <= eob)
            && (end == Wrote ==> msg[cp0..cp] == [|l|] + l)
    ensures forall i :: 0 <= i < msg.Length && (i < cp0 || eob <= i) ==> msg[i] == old(msg[i])
  {
    hide Scan, NoNul;
    var ok;
    ok, dn, cp := CopyTextLabel(text, dn0, msg, cp0 + 1, eob);
    if !ok {
      return Full, dn, cp;
    }
    var l := cp - cp0 - 1;
    // catch trailing dots
    if l == 0 && dn == |text| {
      return TrailingDot, dn, cp0;
    }
    if l <= 0 || l > MAX_SEGLEN {
      return Illegal, dn, cp;
    }
    msg[cp0] := l;
    end := Wrote;
  }

  /** How far the encoding has got: `out` is written, and the text from `dn` is still to do. */
  ghost predicate Encoding(m: seq<byte>, ptrs: seq<nat>, text: seq<byte>, dn: nat, out: seq<byte>)
    requires TableOk(m, ptrs, |m|) && dn <= |text|
  {
    var whole, rest := Wire(m, ptrs, |m|, text), Wire(m, ptrs, |m|, text[dn..]);
    && (whole.Some? <==> rest.Some?)
    && (rest.Some? ==> whole.value == out + rest.value)
    && (EndsInPointer(m, ptrs, |m|, text) <==> EndsInPointer(m, ptrs, |m|, text[dn..]))
  }

  /** The entries a call adds: those already offered, then those of the rest of the text. */
  ghost predicate Offering(m: seq<byte>, ptrs: seq<nat>, text: seq<byte>, dn: nat, at: nat, now: seq<nat>, slots: nat)
    requires TableOk(m, ptrs, |m|) && dn <= |text|
  {
    NewTable(m, ptrs, text, slots) == AddEntries(now, LabelStarts(m, ptrs, |m|, text[dn..], at), slots)
  }

  lemma EncodingLabel(m: seq<byte>, ptrs: seq<nat>, text: seq<byte>, dn: nat, out: seq<byte>, dn': nat)
    requires TableOk(m, ptrs, |m|) && dn < |text| && dn' <= |text|
    requires Encoding(m, ptrs, text, dn, out) && FindFirst(m, ptrs, |m|, text[dn..]) == None
    requires Scan(text[dn..]).1 == text[dn'..]
    ensures var l := Scan(text[dn..]).0;
            if l == [] && dn' == |text| then
              Wire(m, ptrs, |m|, text) == Some(out + [0]) && !EndsInPointer(m, ptrs, |m|, text)
            else if l == [] || |l| > MAX_SEGLEN then Wire(m, ptrs, |m|, text) == None
            else Encoding(m, ptrs, text, dn', out + ([|l|] + l))
  {
    var l := Scan(text[dn..]).0;
    var rest := Wire(m, ptrs, |m|, text[dn'..]);
    if dn' == |text| {
      assert text[dn'..] == [] && !EndsInPointer(m, ptrs, |m|, []);
    }
    if rest.Some? && 1 <= |l| <= MAX_SEGLEN {
      assert out + ([|l|] + l + rest.value) == out + ([|l|] + l) + rest.value;
    }
  }

  lemma OfferingLabel(m: seq<byte>, ptrs: seq<nat>, text: seq<byte>, dn: nat, at: nat, now: seq<nat>, slots: nat,
                      dn': nat)
    requires TableOk(m, ptrs, |m|) && dn < |text| && dn' <= |text|
    requires Offering(m, ptrs, text, dn, at, now, slots) && FindFirst(m, ptrs, |m|, text[dn..]) == None
    requires Scan(text[dn..]).1 == text[dn'..]
    ensures Offering(m, ptrs, text, dn', at + 1 + |Scan(text[dn..]).0|, AddEntries(now, [at], slots), slots)
  {
  }

  lemma OfferingDone(m: seq<byte>, ptrs: seq<nat>, text: seq<byte>, dn: nat, at: nat, now: seq<nat>, slots: nat)
    requires TableOk(m, ptrs, |m|) && dn <= |text|
    requires Offering(m, ptrs, text, dn, at, now, slots)
    requires dn == |text| || FindFirst(m, ptrs, |m|, text[dn..]).Some?
    ensures now == NewTable(m, ptrs, text, slots)
  {
  }

  lemma EncodingDone(m: seq<byte>, ptrs: seq<nat>, text: seq<byte>, dn: nat, out: seq<byte>)
    requires TableOk(m, ptrs, |m|) && dn <= |text|
    requires Encoding(m, ptrs, text, dn, out)
    ensures dn == |text| ==> Wire(m, ptrs, |m|, text) == Some(out + [0]) && !EndsInPointer(m, ptrs, |m|, text)
    ensures dn < |text| && FindFirst(m, ptrs, |m|, text[dn..]).Some? ==>
              && EndsInPointer(m, ptrs, |m|, text)
              && Wire(m, ptrs, |m|, text) == Some(out + PointerBytes(FindFirst(m, ptrs, |m|, text[dn..]).value))
  {
  }

  lemma Start(m: seq<byte>, ptrs: seq<nat>, text: seq<byte>, slots: nat)
    requires TableOk(m, ptrs, |m|)
    ensures Encoding(m, ptrs, text, 0, [])
    ensures Offering(m, ptrs, text, 0, |m|, ptrs, slots)
  {
    assert text[0..] == text;
    var w := Wire(m, ptrs, |m|, text);
    assert w.Some? ==> [] + w.value == w.value;
  }

  lemma OneEntry(now: seq<nat>, at: nat, slots: nat)
    ensures AddEntries(now, [at], slots) == if |now| + 2 < slots then now + [at] else now
  {
    assert AddEntries(now, [at], slots)
        == AddEntries(if |now| + 2 < slots then now + [at] else now, [at][1..], slots);
  }

  lemma {:induction false} PointerTakesTwo(m: seq<byte>, ptrs: seq<nat>, text: seq<byte>)
    requires TableOk(m, ptrs, |m|) && Wire(m, ptrs, |m|, text).Some?
    ensures |Wire(m, ptrs, |m|, text).value| >= if EndsInPointer(m, ptrs, |m|, text) then 2 else 1
    decreases |text|
  {
    if text != [] && FindFirst(m, ptrs, |m|, text) == None {
      var (l, rest) := Scan(text);
      if l != [] || rest != [] {
        PointerTakesTwo(m, ptrs, rest);
      }
    }
  }

  lemma LabelTooLong(m: seq<byte>, ptrs: seq<nat>, text: seq<byte>, dn: nat, out: seq<byte>, length: nat)
    requires TableOk(m, ptrs, |m|) && dn < |text|
    requires Encoding(m, ptrs, text, dn, out) && FindFirst(m, ptrs, |m|, text[dn..]) == None
    requires var l := Scan(text[dn..]).0; l != [] && |out| + 1 + |l| > length
    ensures var w := Wire(m, ptrs, |m|, text); w == None || |w.value| > length
    ensures !NoRoomForPointer(m, ptrs, text, length)
  {
    var (l, rest) := Scan(text[dn..]);
    if Wire(m, ptrs, |m|, text).Some? {
      PointerTakesTwo(m, ptrs, rest);
    }
  }

  /** The call is midway: `out` is written, and the table is `now`. */
  ghost predicate Underway(m: seq<byte>, ptrs: seq<nat>, text: seq<byte>, dn: nat, out: seq<byte>, now: seq<nat>,
                         update: bool, slots: nat)
    requires TableOk(m, ptrs, |m|) && dn <= |text|
  {
    && Encoding(m, ptrs, text, dn, out)
    && if update then Offering(m, ptrs, text, dn, |m| + |out|, now, slots) else now == ptrs
  }

  /** All labels are written and there is no pointer: the NUL is to follow. */
  ghost predicate Ended(m: seq<byte>, ptrs: seq<nat>, text: seq<byte>, out: seq<byte>, now: seq<nat>, update: bool,
                        slots: nat)
    requires TableOk(m, ptrs, |m|)
  {
    && Wire(m, ptrs, |m|, text) == Some(out + [0]) && !EndsInPointer(m, ptrs, |m|, text)
    && now == if update then NewTable(m, ptrs, text, slots) else ptrs
  }

  /**
   What `dn_comp` returns, writes and leaves in the table.  It succeeds exactly when the text is a valid name
   whose encoding fits, and then writes that encoding and offers its labels to the table.  On failure it restores
   the table, except when there was no room for the pointer.
   */
  ghost predicate CompResult(m: seq<byte>, ptrs: seq<nat>, text: seq<byte>, length: nat, update: bool, slots: nat,
                             r: int, written: seq<byte>, now: seq<nat>)
    requires TableOk(m, ptrs, |m|)
  {
    var w := Wire(m, ptrs, |m|, text);
    && (r >= 0 <==> w.Some? && |w.value| <= length)
    && (r >= 0 ==> r == |w.value| && written == w.value)
    && (r < 0 ==> r == -1)
    && now == if update && (r >= 0 || NoRoomForPointer(m, ptrs, text, length)) then NewTable(m, ptrs, text, slots)
              else ptrs
  }

  lemma UnderwayStart(m: seq<byte>, ptrs: seq<nat>, text: seq<byte>, update: bool, slots: nat)
    requires TableOk(m, ptrs, |m|)
    ensures Underway(m, ptrs, text, 0, [], ptrs, update, slots)
  {
    hide Encoding, Offering;
    Start(m, ptrs, text, slots);
  }

  lemma UnderwayPointer(m: seq<byte>, ptrs: seq<nat>, text: seq<byte>, dn: nat, out: seq<byte>, now: seq<nat>,
                      update: bool, slots: nat, length: nat)
    requires TableOk(m, ptrs, |m|) && dn < |text| && Underway(m, ptrs, text, dn, out, now, update, slots)
    requires |out| <= length && FindFirst(m, ptrs, |m|, text[dn..]).Some?
    ensures
      var last := PointerBytes(FindFirst(m, ptrs, |m|, text[dn..]).value);
      if |out| + 2 > length then CompResult(m, ptrs, text, length, update, slots, -1, [], now)
      else CompResult(m, ptrs, text, length, update, slots, |out| + 2, out + last, now)
  {
    hide Encoding, Offering, NewTable, Wire, EndsInPointer, FindFirst, TableOk;
    EncodingDone(m, ptrs, text, dn, out);
    if update {
      OfferingDone(m, ptrs, text, dn, |m| + |out|, now, slots);
    }
  }

  lemma UnderwayFull(m: seq<byte>, ptrs: seq<nat>, text: seq<byte>, dn: nat, out: seq<byte>, now: seq<nat>,
                   update: bool, slots: nat, length: nat)
    requires TableOk(m, ptrs, |m|) && dn < |text| && Underway(m, ptrs, text, dn, out, now, update, slots)
    requires FindFirst(m, ptrs, |m|, text[dn..]) == None
    requires var l := Scan(text[dn..]).0; l != [] && |out| + 1 + |l| > length
    ensures CompResult(m, ptrs, text, length, update, slots, -1, [], ptrs)
  {
    hide Encoding, Offering, NewTable, Wire, EndsInPointer, FindFirst, TableOk, NoRoomForPointer;
    LabelTooLong(m, ptrs, text, dn, out, length);
  }

  lemma UnderwayLabel(m: seq<byte>, ptrs: seq<nat>, text: seq<byte>, dn: nat, out: seq<byte>, now: seq<nat>,
                    update: bool, slots: nat, length: nat, dn': nat)
    requires TableOk(m, ptrs, |m|) && dn < |text| && dn' <= |text|
    requires Underway(m, ptrs, text, dn, out, now, update, slots)
    requires FindFirst(m, ptrs, |m|, text[dn..]) == None && Scan(text[dn..]).1 == text[dn'..]
    ensures
      var l, at := Scan(text[dn..]).0, |m| + |out|;
      var now' := if update && |now| + 2 < slots then now + [at] else now;
      if l == [] && dn' == |text| then Ended(m, ptrs, text, out, now', update, slots)
      else if l == [] || |l| > MAX_SEGLEN then CompResult(m, ptrs, text, length, update, slots, -1, [], ptrs)
      else Underway(m, ptrs, text, dn', out + ([|l|] + l), now', update, slots)
  {
    hide Encoding, Offering, NewTable, Wire, EndsInPointer, FindFirst, TableOk, Scan;
    var at := |m| + |out|;
    EncodingLabel(m, ptrs, text, dn, out, dn');
    if update {
      OneEntry(now, at, slots);
      OfferingLabel(m, ptrs, text, dn, at, now, slots, dn');
      if dn' == |text| && Scan(text[dn..]).0 == [] {
        OfferingDone(m, ptrs, text, dn', at + 1, AddEntries(now, [at], slots), slots);
      }
    }
  }

  lemma UnderwayEnd(m: seq<byte>, ptrs: seq<nat>, text: seq<byte>, out: seq<byte>, now: seq<nat>, update: bool,
                  slots: nat)
    requires TableOk(m, ptrs, |m|) && Underway(m, ptrs, text, |text|, out, now, update, slots)
    ensures Ended(m, ptrs, text, out, now, update, slots)
  {
    hide Encoding, Offering, NewTable, Wire, EndsInPointer, FindFirst, TableOk;
    EncodingDone(m, ptrs, text, |text|, out);
    if update {
      OfferingDone(m, ptrs, text, |text|, |m| + |out|, now, slots);
    }
  }

  lemma EndedResult(m: seq<byte>, ptrs: seq<nat>, text: seq<byte>, out: seq<byte>, now: seq<nat>, update: bool,
                    slots: nat, length: nat)
    requires TableOk(m, ptrs, |m|) && Ended(m, ptrs, text, out, now, update, slots)
    ensures
      if |out| + 1 > length then CompResult(m, ptrs, text, length, update, slots, -1, [], ptrs)
      else CompResult(m, ptrs, text, length, update, slots, |out| + 1, out + [0], now)
  {
    hide NewTable, Wire, EndsInPointer, TableOk;
  }

  lemma SuffixNoNul(text: seq<byte>, dn: nat)
    requires dn <= |text| && NoNul(text)
    ensures NoNul(text[dn..])
  {
  }

  /** Stores the last bytes of the name, a NUL or a pointer, after `out`. */
  method Finish(msg: array<byte>, comp: nat, ghost out: seq<byte>, cp: nat, last: seq<byte>, ghost eob: nat)
    requires comp <= cp && cp + |last| <= eob <= msg.Length && 1 <= |last| <= 2 && msg[comp..cp] == out
    modifies msg
    ensures msg[comp..cp + |last|] == out + last
    ensures msg[..comp] == old(msg[..comp]) && msg[eob..] == old(msg[eob..])
  {
    msg[cp] := last[0];
    if |last| == 2 {
      msg[cp + 1] := last[1];
    }
    assert msg[cp..cp + |last|] == last;
    assert msg[comp..cp + |last|] == msg[comp..cp] + msg[cp..cp + |last|];
  }

  /** Writes the next label of the text after `out`. */
  method NextLabel(text: seq<byte>, dn0: nat, msg: array<byte>, comp: nat, ghost out: seq<byte>, cp0: nat, eob: nat)
    returns (end: LabelEnd, dn: nat, cp: nat)
    requires dn0 < |text| && NoNul(text) && comp <= cp0 <= eob <= msg.Length && msg[comp..cp0] == out
    modifies msg
    ensures dn <= |text|
    ensures var (l, rest) := Scan(text[dn0..]);
            && (end == Full <==> l != [] && cp0 + 1 + |l| > eob)
            && (end != Full ==> text[dn..] == rest && msg[comp..cp0] == out)
            && (end == TrailingDot <==> l == [] && rest == [])
            && (end == Illegal ==> (l == [] && rest != []) || |l| > MAX_SEGLEN)
            && (end == Wrote ==> 1 <= |l| <= MAX_SEGLEN && cp == cp0 + 1 + |l| <= eob && dn > dn0)
            && (end == Wrote ==> msg[comp..cp] == out + ([|l|] + l))
    ensures msg[..comp] == old(msg[..comp]) && msg[eob..] == old(msg[eob..])
  {
    hide Scan, NoNul;
    end, dn, cp := WriteLabel(text, dn0, msg, cp0, eob);
    assert msg[comp..cp0] == out;
    if end == Wrote {
      ScanShorter(text, dn0, dn);
      assert msg[comp..cp] == msg[comp..cp0] + msg[cp0..cp];
    }
  }

  lemma ScanShorter(text: seq<byte>, dn0: nat, dn: nat)
    requires dn0 < |text| && dn <= |text| && text[dn..] == Scan(text[dn0..]).1
    ensures dn > dn0
  {
    assert |text[dn..]| < |text[dn0..]|;
  }

  /** The search for what is left of the text among the names before `comp`. */
  method FindRest(text: seq<byte>, dn: nat, msg: array<byte>, comp: nat, ptrs: seq<nat>, ghost m: seq<byte>)
    returns (l: int)
    requires dn <= |text| && NoNul(text) && comp <= msg.Length && msg[..comp] == m && TableOk(m, ptrs, |m|)
    ensures l == match FindFirst(m, ptrs, |m|, text[dn..]) case None => -1 case Some(p) => p
  {
    hide NoNul, TableOk, FindFirst;
    FindFirstStable(m, msg[..], ptrs, comp, text[dn..]);
    SuffixNoNul(text, dn);
    l := DnFind(text[dn..], msg, ptrs, comp);
  }

  /** `dn_comp` with a table. */
  method DnComp(text: seq<byte>, msg: array<byte>, comp: nat, length: nat, table: PtrTable) returns (r: int)
    requires comp + length <= msg.Length && NoNul(text)
    requires TableOk(msg[..comp], table.ptrs, comp)
    modifies msg, table
    ensures r <= length
    ensures CompResult(old(msg[..comp]), old(table.ptrs), text, length, table.update, table.slots, r,
                       if r >= 0 then msg[comp..comp + r] else [], table.ptrs)
    ensures msg[..comp] == old(msg[..comp]) && msg[comp + length..] == old(msg[comp + length..])
  {
    hide NoNul, TableOk, Scan, FindFirst, Underway, Ended, CompResult;
    ghost var m := msg[..comp];
    var ptrs := table.ptrs;
    var eob := comp + length;
    var dn: nat, cp: nat := 0, comp;
    ghost var out := [];
    ghost var sawEmptyLabel := false;
    UnderwayStart(m, ptrs, text, table.update, table.slots);
    while dn < |text|
      invariant dn <= |text| && cp == comp + |out| && cp <= eob && !sawEmptyLabel
      invariant TableOk(m, ptrs, |m|) && msg[..comp] == m && msg[eob..] == old(msg[eob..]) && msg[comp..cp] == out
      invariant Underway(m, ptrs, text, dn, out, table.ptrs, table.update, table.slots)
      decreases |text| - dn
    {
      // look to see if we can use a pointer
      var l := FindRest(text, dn, msg, comp, ptrs, m);
      if l >= 0 {
        UnderwayPointer(m, ptrs, text, dn, out, table.ptrs, table.update, table.slots, length);
        if cp + 1 >= eob {
          return -1;
        }
        Finish(msg, comp, out, cp, PointerBytes(l), eob);
        return cp + 2 - comp;
      }
      ghost var now := table.ptrs;
      if table.update && |table.ptrs| + 2 < table.slots {
        table.ptrs := table.ptrs + [cp];
      }
      var end, dn', cp' := NextLabel(text, dn, msg, comp, out, cp, eob);
      if end == Full {
        UnderwayFull(m, ptrs, text, dn, out, now, table.update, table.slots, length);
        table.ptrs := ptrs;
        return -1;
      }
      UnderwayLabel(m, ptrs, text, dn, out, now, table.update, table.slots, length, dn');
      if end == Illegal {
        table.ptrs := ptrs;
        return -1;
      }
      if end == TrailingDot {
        sawEmptyLabel := true;
        break;
      }
      out := msg[comp..cp'];
      dn, cp := dn', cp';
    }
    if !sawEmptyLabel {
      UnderwayEnd(m, ptrs, text, out, table.ptrs, table.update, table.slots);
    }
    EndedResult(m, ptrs, text, out, table.ptrs, table.update, table.slots, length);
    if cp >= eob {
      table.ptrs := ptrs;
      return -1;
    }
    Finish(msg, comp, out, cp, [0], eob);
    return cp + 1 - comp;
  }
}
