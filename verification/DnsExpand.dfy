/**
 `dn_expand` and `dn_skipname`: reading a compressed name out of a message
 (modules/dns/res_comp.c).  Pointers into the message and the output buffer are offsets.
 */
module DnsExpand {
  import opened Common
  import opened DnsNames

  /** What is still to be written once `written` bytes of the name are out. */
  function Remaining(written: nat, ls: seq<Label>): seq<byte> {
    if written == 0 then Print(ls) else Dotted(ls)
  }

  /** The text `dn_expand` writes, or None where it returns -1 whatever the buffer. */
  function Expansion(m: seq<byte>, eom: nat, pos: nat): Option<seq<byte>>
    requires pos < eom < |m|
  {
    match Chase(m, eom, pos, 0)
    case None => None
    case Some(ls) => Some(Print(ls))
  }

  lemma {:induction false} EscapeLonger(l: Label)
    ensures |Escape(l)| >= |l|
  {
    if l != [] {
      EscapeLonger(l[1..]);
    }
  }

  function EscapeByte(c: byte): seq<byte> {
    if c == DOT then [BACKSLASH, DOT] else [c]
  }

  lemma EscapeStep(m: seq<byte>, cp: nat, end: nat)
    requires cp < end <= |m|
    ensures Escape(m[cp..end]) == EscapeByte(m[cp]) + Escape(m[cp + 1..end])
    ensures |Escape(m[cp + 1..end])| >= end - cp - 1
  {
    assert m[cp..end][1..] == m[cp + 1..end];
    EscapeLonger(m[cp + 1..end]);
  }

  lemma EscapeNothing(l: Label)
    requires l == []
    ensures Escape(l) == []
  {
  }

  /**
   Copies the `n0` bytes of one label to `dn0`, escaping dots.  Fails when the text would not
   leave a byte free before `eom`, or when the label runs to the end of the message.
   */
  method CopyLabel(msg: array<byte>, eomorig: nat, cp0: nat, n0: nat, expDn: array<byte>, dn0: nat, eom: nat)
    returns (ok: bool, cp: nat, dn: nat)
    requires msg != expDn && cp0 <= eomorig < msg.Length && 0 < n0
    requires dn0 + n0 < eom <= expDn.Length
    modifies expDn
    ensures ok <==> cp0 + n0 < eomorig && dn0 + |Escape(msg[cp0..cp0 + n0])| < eom
    ensures ok ==> cp == cp0 + n0 && dn == dn0 + |Escape(msg[cp0..cp0 + n0])|
    ensures ok ==> expDn[dn0..dn] == Escape(msg[cp0..cp0 + n0])
    ensures forall i :: 0 <= i < dn0 || eom <= i < expDn.Length ==> expDn[i] == old(expDn[i])
  {
    hide Escape, NoNul;
    ghost var m := msg[..];
    ghost var goal := Escape(m[cp0..if cp0 + n0 < eomorig then cp0 + n0 else cp0]);
    assert cp0 + n0 < eomorig ==> m[cp0..cp0 + n0] == msg[cp0..cp0 + n0];
    cp, dn := cp0, dn0;
    var n := n0;
    ghost var out := [];
    while n > 0
      invariant 0 <= n <= n0 && cp == cp0 + n0 - n && cp <= eomorig
      invariant n < n0 ==> cp < eomorig
      invariant dn == dn0 + |out| && dn + n < eom
      invariant forall i :: 0 <= i < dn0 || eom <= i < expDn.Length ==> expDn[i] == old(expDn[i])
      invariant forall i :: 0 <= i < |out| ==> expDn[dn0 + i] == out[i]
      invariant msg[..] == m
      invariant cp0 + n0 < eomorig ==> goal == out + Escape(m[cp..cp0 + n0])
    {
      if cp0 + n0 < eomorig {
        EscapeStep(m, cp, cp0 + n0);
      }
      n := n - 1;
      var c := msg[cp];
      cp := cp + 1;
      if c == DOT {
        if dn + n + 2 >= eom {
          return false, cp, dn;
        }
        expDn[dn] := BACKSLASH;
        dn := dn + 1;
      }
      expDn[dn] := c;
      dn := dn + 1;
      out := out + EscapeByte(c);
      if cp >= eomorig {
        return false, cp, dn;
      }
    }
    EscapeNothing(m[cp..cp0 + n0]);
    assert expDn[dn0..dn] == out;
    ok := true;
  }

  /** The dot that separates a label from the text before it, if there is any. */
  function Separator(written: nat): seq<byte> {
    if written == 0 then [] else [DOT]
  }

  /** One label of the walk: its separator, then its bytes. */
  method AppendLabel(msg: array<byte>, eomorig: nat, cp0: nat, n: nat, expDn: array<byte>, dn0: nat, eom: nat)
    returns (ok: bool, cp: nat, dn: nat)
    requires msg != expDn && cp0 <= eomorig < msg.Length && 0 < n
    requires dn0 < eom <= expDn.Length
    modifies expDn
    ensures ok <==> cp0 + n < eomorig && dn0 + |Separator(dn0)| + |Escape(msg[cp0..cp0 + n])| < eom
    ensures ok ==> cp == cp0 + n && dn0 < dn < eom
    ensures ok ==> expDn[..dn] == old(expDn[..dn0]) + Separator(dn0) + Escape(msg[cp0..cp0 + n])
    ensures expDn[eom..] == old(expDn[eom..])
  {
    cp, dn := cp0, dn0;
    if dn != 0 {
      if dn >= eom {
        return false, cp, dn;
      }
      expDn[dn] := DOT;
      dn := dn + 1;
    }
    if cp0 + n < eomorig {
      EscapeLonger(msg[cp0..cp0 + n]);
    }
    if dn + n >= eom {
      return false, cp, dn;
    }
    ok, cp, dn := CopyLabel(msg, eomorig, cp, n, expDn, dn, eom);
  }

  /** What one label contributes to the walk and to the text. */
  lemma LabelStep(m: seq<byte>, eom: nat, pos: nat, checked: nat, written: nat)
    requires pos < eom < |m| && 0 < m[pos] < 64
    ensures Chase(m, eom, pos, checked).Some? <==>
              pos + 1 + m[pos] < eom && Chase(m, eom, pos + 1 + m[pos], checked + m[pos] + 1).Some?
    ensures Chase(m, eom, pos, checked).Some? ==>
              Remaining(written, Chase(m, eom, pos, checked).value)
              == Separator(written) + Escape(m[pos + 1..pos + 1 + m[pos]])
                 + Dotted(Chase(m, eom, pos + 1 + m[pos], checked + m[pos] + 1).value)
  {
    if Chase(m, eom, pos, checked).Some? {
      var ls := Chase(m, eom, pos, checked).value;
      assert ls[0] == m[pos + 1..pos + 1 + m[pos]];
      assert ls[1..] == Chase(m, eom, pos + 1 + m[pos], checked + m[pos] + 1).value;
    }
  }

  /** `out` is written and the rest of `goal` is the text of the walk from `pos`. */
  ghost predicate OnTrack(goal: Option<seq<byte>>, out: seq<byte>, m: seq<byte>, eom: nat, pos: nat, checked: nat)
    requires pos < eom < |m|
  {
    var walk := Chase(m, eom, pos, checked);
    && (goal.Some? <==> walk.Some?)
    && (walk.Some? ==> goal.value == out + Remaining(|out|, walk.value))
  }

  lemma OnTrackLabel(goal: Option<seq<byte>>, out: seq<byte>, m: seq<byte>, eom: nat, pos: nat, checked: nat)
    requires pos < eom < |m| && 0 < m[pos] < 64
    requires OnTrack(goal, out, m, eom, pos, checked)
    ensures var n := m[pos];
            if pos + 1 + n >= eom then goal == None
            else
              var out' := out + Separator(|out|) + Escape(m[pos + 1..pos + 1 + n]);
              OnTrack(goal, out', m, eom, pos + 1 + n, checked + n + 1) && (goal.Some? ==> |out'| <= |goal.value|)
  {
    LabelStep(m, eom, pos, checked, |out|);
    if pos + 1 + m[pos] < eom {
      EscapeLonger(m[pos + 1..pos + 1 + m[pos]]);
    }
  }

  lemma OnTrackPointer(goal: Option<seq<byte>>, out: seq<byte>, m: seq<byte>, eom: nat, pos: nat, checked: nat)
    requires pos < eom < |m| && m[pos] >= 192
    requires OnTrack(goal, out, m, eom, pos, checked)
    ensures var target := PointerTarget(m[pos], m[pos + 1]);
            if target >= eom || checked + 2 >= eom then goal == None
            else OnTrack(goal, out, m, eom, target, checked + 2)
  {
  }

  lemma OnTrackOtherwise(goal: Option<seq<byte>>, out: seq<byte>, m: seq<byte>, eom: nat, pos: nat, checked: nat)
    requires pos < eom < |m|
    requires OnTrack(goal, out, m, eom, pos, checked)
    ensures m[pos] == 0 ==> goal == Some(out)
    ensures 64 <= m[pos] < 192 ==> goal == None
  {
    assert Remaining(|out|, []) == [] && out + [] == out;
  }

  /** How far `dn_skipname` still has to go at one length byte. */
  lemma SkipStep(m: seq<byte>, eom: nat, pos: nat)
    requires pos < eom < |m|
    ensures m[pos] == 0 ==> SkipEnd(m, eom, pos) == Some(pos + 1)
    ensures 0 < m[pos] < 64 ==> SkipEnd(m, eom, pos) == SkipEnd(m, eom, pos + 1 + m[pos])
    ensures m[pos] >= 192 ==> SkipEnd(m, eom, pos) == Some(pos + 2)
  {
  }

  /**
   `dn_expand`.  It succeeds exactly when the walk does and the text and its NUL fit in
   `length` bytes; it never writes past them.
   */
  method DnExpand(msg: array<byte>, eomorig: nat, compDn: nat, expDn: array<byte>, length: nat) returns (r: int)
    requires msg != expDn && compDn < eomorig < msg.Length && 1 <= length <= expDn.Length
    modifies expDn
    ensures r == -1 || r > 0
    ensures r > 0 <==> var e := Expansion(msg[..], eomorig, compDn); e.Some? && |e.value| < length
    ensures r > 0 ==>
              var text := Expansion(msg[..], eomorig, compDn).value;
              expDn[..|text|] == text && expDn[|text|] == 0
    ensures r > 0 ==> SkipEnd(msg[..], eomorig, compDn) == Some(compDn + r)
    ensures expDn[length..] == old(expDn[length..])
  {
    hide Chase, Escape, Dotted, Print, NoNul, SkipEnd;
    ghost var m := msg[..];
    ghost var goal := Expansion(m, eomorig, compDn);
    var dn, cp, eom := 0, compDn, length;
    var len, checked := -1, 0;
    var n: int := msg[cp];
    cp := cp + 1;
    while n != 0
      invariant 1 <= cp <= eomorig && n == m[cp - 1] && msg[..] == m
      invariant 0 <= dn < eom && expDn[length..] == old(expDn[length..])
      invariant OnTrack(goal, expDn[..dn], m, eomorig, cp - 1, checked)
      invariant if len < 0 then cp > compDn && SkipEnd(m, eomorig, compDn) == SkipEnd(m, eomorig, cp - 1)
                else len > 0 && SkipEnd(m, eomorig, compDn) == Some(compDn + len)
      decreases if checked < eomorig then eomorig - checked else 0, eomorig - cp
    {
      SkipStep(m, eomorig, cp - 1);
      if n < 64 {
        OnTrackLabel(goal, expDn[..dn], m, eomorig, cp - 1, checked);
        checked := checked + n + 1;
        assert cp + n < eomorig ==> msg[cp..cp + n] == m[cp..cp + n];
        var ok;
        ok, cp, dn := AppendLabel(msg, eomorig, cp, n, expDn, dn, eom);
        if !ok {
          return -1;
        }
      } else if n >= 192 {
        OnTrackPointer(goal, expDn[..dn], m, eomorig, cp - 1, checked);
        if len < 0 {
          len := cp - compDn + 1;
        }
        cp := PointerTarget(n, msg[cp]);
        if cp >= eomorig {
          return -1;
        }
        checked := checked + 2;
        if checked >= eomorig {
          return -1;
        }
      } else {
        OnTrackOtherwise(goal, expDn[..dn], m, eomorig, cp - 1, checked);
        return -1;
      }
      n := msg[cp];
      cp := cp + 1;
    }
    OnTrackOtherwise(goal, expDn[..dn], m, eomorig, cp - 1, checked);
    SkipStep(m, eomorig, cp - 1);
    expDn[dn] := 0;
    if len < 0 {
      len := cp - compDn;
    }
    return len;
  }

  /** `dn_skipname` */
  method DnSkipname(msg: array<byte>, compDn: nat, eom: nat) returns (r: int)
    requires compDn <= eom <= msg.Length
    ensures r == match SkipEnd(msg[..], eom, compDn) case None => -1 case Some(end) => end - compDn
  {
    var cp := compDn;
    while cp < eom
      invariant compDn <= cp
      invariant SkipEnd(msg[..], eom, compDn) == SkipEnd(msg[..], eom, cp)
      decreases eom - cp
    {
      var n := msg[cp];
      cp := cp + 1;
      if n == 0 {
        break;
      } else if n < 64 {
        cp := cp + n;
      } else if n < 192 {
        return -1;
      } else {
        cp := cp + 1;
        break;
      }
    }
    return cp - compDn;
  }
}
