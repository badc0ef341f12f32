/**
 What a domain name means, on the wire and as text (modules/dns/res_comp.c).

 On the wire a name is a run of length-prefixed labels that ends in a zero byte or in a
 two-byte pointer to an earlier run (section 4.1.4 of RFC 1035).  As text it is the labels
 joined by dots.  Both readings produce the same abstract value, a sequence of labels, and
 everything the printer, parser and suffix search do is specified against that value.
 */
module DnsNames {
  import opened Common

  const DOT: byte := 46
  const BACKSLASH: byte := 92
  const MAX_SEGLEN := 63
  const MAX_POINTER := 0x4000

  type Label = seq<byte>

  predicate ValidLabel(l: Label) {
    1 <= |l| <= MAX_SEGLEN && NoNul(l)
  }

  // ----- compression pointers

  function PointerTarget(hi: byte, lo: byte): nat {
    (hi % 64) * 256 + lo
  }

  /** The two bytes the compressor stores for offset `l`, with C's truncation to a byte. */
  function PointerBytes(l: nat): seq<byte> {
    [(l / 256) % 64 + 192, l % 256]
  }

  lemma PointerRoundTrip(l: nat)
    ensures PointerTarget(PointerBytes(l)[0], PointerBytes(l)[1]) == l <==> l < MAX_POINTER
  {
    if l < MAX_POINTER {
      assert (l / 256) % 64 == l / 256;
    }
  }

  // ----- reading a name from a message

  /**
   The walk `dn_expand` makes, as labels instead of output bytes: `checked` is its loop
   counter.  None is its error return.  The byte at `eom` is the one a trailing pointer or
   length byte makes it touch.
   */
  function Chase(m: seq<byte>, eom: nat, pos: nat, checked: nat): Option<seq<Label>>
    requires pos < eom < |m|
    decreases if checked < eom then eom - checked else 0, eom - pos
  {
    var n := m[pos];
    if n == 0 then Some([])
    else if n < 64 then
      if pos + 1 + n >= eom then None
      else
        match Chase(m, eom, pos + 1 + n, checked + n + 1)
        case None => None
        case Some(rest) => Some([m[pos + 1..pos + 1 + n]] + rest)
    else if n >= 192 then
      var target := PointerTarget(n, m[pos + 1]);
      if target >= eom || checked + 2 >= eom then None
      else Chase(m, eom, target, checked + 2)
    else None
  }

  /** Whatever the packet, every label the reader returns has 1 to 63 bytes. */
  lemma {:induction false} ChaseLabelSizes(m: seq<byte>, eom: nat, pos: nat, checked: nat)
    requires pos < eom < |m|
    ensures Chase(m, eom, pos, checked).Some? ==>
              forall l <- Chase(m, eom, pos, checked).value :: 1 <= |l| <= MAX_SEGLEN
    decreases if checked < eom then eom - checked else 0, eom - pos
  {
    var n := m[pos];
    if n == 0 {
    } else if n < 64 {
      if pos + 1 + n < eom {
        ChaseLabelSizes(m, eom, pos + 1 + n, checked + n + 1);
      }
    } else if n >= 192 {
      var target := PointerTarget(n, m[pos + 1]);
      if target < eom && checked + 2 < eom {
        ChaseLabelSizes(m, eom, target, checked + 2);
      }
    }
  }

  /** Offset just past a name: None for an illegal length byte (`dn_skipname`). */
  function SkipEnd(m: seq<byte>, eom: nat, pos: nat): Option<nat>
    requires eom <= |m|
    decreases |m| - pos
  {
    if pos >= eom then Some(pos)
    else
      var n := m[pos];
      if n == 0 then Some(pos + 1)
      else if n < 64 then SkipEnd(m, eom, pos + 1 + n)
      else if n >= 192 then Some(pos + 2)
      else None
  }

  /** The offsets from `lo` up to `hi`. */
  function Span(lo: nat, hi: nat): (s: set<nat>)
    requires lo <= hi
    ensures forall i: nat :: i in s <==> lo <= i < hi
    ensures |s| == hi - lo
    decreases hi - lo
  {
    if lo == hi then {} else {lo} + Span(lo + 1, hi)
  }

  /**
   The same walk with no loop counter, allowed to look at each byte at most once: `unseen` holds
   the offsets it may still visit.
   */
  function DistinctWalk(m: seq<byte>, unseen: set<nat>, pos: nat): Option<seq<Label>>
    requires forall i <- unseen :: i < |m|
    decreases unseen
  {
    if pos !in unseen then None
    else
      var n := m[pos];
      if n == 0 then Some([])
      else if n < 64 then
        var span := Span(pos, pos + 1 + n);
        if !(span <= unseen) then None
        else
          assert pos in span && pos + n in span;
          match DistinctWalk(m, unseen - span, pos + 1 + n)
          case None => None
          case Some(rest) => Some([m[pos + 1..pos + 1 + n]] + rest)
      else if n >= 192 && pos + 1 in unseen then
        DistinctWalk(m, unseen - {pos, pos + 1}, PointerTarget(n, m[pos + 1]))
      else None
  }

  /**
   The loop check never rejects a walk that visits no byte twice.  `checked` is the number of
   bytes visited, so at a pointer it counts neither the target nor anything after it.
   */
  lemma {:induction false} LoopCheckIsSafe(m: seq<byte>, eom: nat, pos: nat, unseen: set<nat>, checked: nat)
    requires pos < eom < |m|
    requires (forall i <- unseen :: i < eom) && checked == eom - |unseen|
    requires DistinctWalk(m, unseen, pos).Some?
    ensures Chase(m, eom, pos, checked) == DistinctWalk(m, unseen, pos)
    decreases unseen
  {
    hide Span;
    var n := m[pos];
    if n == 0 {
    } else if n < 64 {
      var span := Span(pos, pos + 1 + n);
      assert pos in span && DistinctWalk(m, unseen - span, pos + 1 + n).Some?;
      LoopCheckIsSafe(m, eom, pos + 1 + n, unseen - span, checked + n + 1);
    } else {
      var target := PointerTarget(n, m[pos + 1]);
      var rest := unseen - {pos, pos + 1};
      assert target in rest && |rest - {target}| == |rest| - 1;
      LoopCheckIsSafe(m, eom, target, rest, checked + 2);
    }
  }

  /** From a clean start: a walk with no repeated byte is read exactly as it stands. */
  lemma LoopCheckNeverRejectsDistinctWalk(m: seq<byte>, eom: nat, pos: nat)
    requires pos < eom < |m|
    ensures var w := DistinctWalk(m, Span(0, eom), pos);
            w.Some? ==> Chase(m, eom, pos, 0) == w
  {
    if DistinctWalk(m, Span(0, eom), pos).Some? {
      LoopCheckIsSafe(m, eom, pos, Span(0, eom), 0);
    }
  }

  // ----- names as the compressor lays them out

  /**
   The labels at `pos` in a run that began at `start` and ends before `limit`, when every
   pointer leads to a nonempty run that ends before the run it is in begins.  This is the shape
   of every name the compressor writes.
   */
  function NameAt(m: seq<byte>, start: nat, pos: nat, limit: nat): Option<seq<Label>>
    requires start <= pos && limit <= |m|
    decreases start, limit - pos
  {
    if pos >= limit then None
    else
      var n := m[pos];
      if n == 0 then Some([])
      else if n < 64 then
        if pos + 1 + n > limit || !NoNul(m[pos + 1..pos + 1 + n]) then None
        else
          match NameAt(m, start, pos + 1 + n, limit)
          case None => None
          case Some(rest) => Some([m[pos + 1..pos + 1 + n]] + rest)
      else if n >= 192 && pos + 1 < limit && PointerTarget(n, m[pos + 1]) < start then
        var target := PointerTarget(n, m[pos + 1]);
        match NameAt(m, target, target, start)
        case None => None
        case Some(rest) => if rest == [] then None else Some(rest)
      else None
  }

  lemma {:induction false} NameLabelsValid(m: seq<byte>, start: nat, pos: nat, limit: nat)
    requires start <= pos && limit <= |m|
    ensures NameAt(m, start, pos, limit).Some? ==> forall l <- NameAt(m, start, pos, limit).value :: ValidLabel(l)
    decreases start, limit - pos
  {
    if pos < limit && NameAt(m, start, pos, limit).Some? {
      var n := m[pos];
      if n == 0 {
      } else if n < 64 {
        NameLabelsValid(m, start, pos + 1 + n, limit);
      } else {
        var target := PointerTarget(n, m[pos + 1]);
        NameLabelsValid(m, target, target, start);
      }
    }
  }

  ghost predicate AgreeBelow(m: seq<byte>, m': seq<byte>, limit: nat) {
    limit <= |m| && limit <= |m'| && forall i :: 0 <= i < limit ==> m[i] == m'[i]
  }

  /** What follows a finished name in the message does not change it. */
  lemma {:induction false} NameStable(m: seq<byte>, m': seq<byte>, start: nat, pos: nat, limit: nat, limit': nat)
    requires start <= pos && AgreeBelow(m, m', limit) && limit <= limit' <= |m'|
    requires NameAt(m, start, pos, limit).Some?
    ensures NameAt(m', start, pos, limit') == NameAt(m, start, pos, limit)
    decreases start, limit - pos
  {
    hide NoNul, Span;
    var n := m[pos];
    if n == 0 {
    } else if n < 64 {
      assert m[pos + 1..pos + 1 + n] == m'[pos + 1..pos + 1 + n];
      NameStable(m, m', start, pos + 1 + n, limit, limit');
    } else {
      var target := PointerTarget(n, m[pos + 1]);
      assert target < start;
      NameStable(m, m', target, target, start, start);
    }
  }

  /** The start of the run matters only as an upper bound on where pointers lead. */
  lemma {:induction false} NameInLaterRun(m: seq<byte>, start: nat, start': nat, pos: nat, limit: nat)
    requires start <= start' <= pos && limit <= |m|
    requires NameAt(m, start, pos, limit).Some?
    ensures NameAt(m, start', pos, limit) == NameAt(m, start, pos, limit)
    decreases limit - pos
  {
    var n := m[pos];
    if n == 0 {
    } else if n < 64 {
      NameInLaterRun(m, start, start', pos + 1 + n, limit);
    } else {
      var target := PointerTarget(n, m[pos + 1]);
      NameStable(m, m, target, target, start, start');
    }
  }

  /** Reading back a name of that shape visits no byte twice. */
  lemma {:induction false} NameIsDistinctWalk(m: seq<byte>, unseen: set<nat>, start: nat, pos: nat, limit: nat)
    requires start <= pos && limit <= |m|
    requires forall i <- unseen :: i < |m|
    requires forall i: nat :: i < start || pos <= i < limit ==> i in unseen
    requires NameAt(m, start, pos, limit).Some?
    ensures DistinctWalk(m, unseen, pos) == NameAt(m, start, pos, limit)
    decreases start, limit - pos
  {
    hide Span, NoNul;
    var n := m[pos];
    if n == 0 {
    } else if n < 64 {
      NameIsDistinctWalk(m, unseen - Span(pos, pos + 1 + n), start, pos + 1 + n, limit);
    } else {
      var target := PointerTarget(n, m[pos + 1]);
      NameIsDistinctWalk(m, unseen - {pos, pos + 1}, target, target, start);
    }
  }

  // ----- names as text

  function Escape(l: Label): seq<byte> {
    if l == [] then []
    else (if l[0] == DOT then [BACKSLASH, DOT] else [l[0]]) + Escape(l[1..])
  }

  /** The labels, each with a dot before it. */
  function Dotted(ls: seq<Label>): seq<byte> {
    if ls == [] then [] else [DOT] + Escape(ls[0]) + Dotted(ls[1..])
  }

  function Print(ls: seq<Label>): seq<byte> {
    if ls == [] then [] else Escape(ls[0]) + Dotted(ls[1..])
  }

  /** One label off the front of a text, with what follows its dot. */
  function Scan(text: seq<byte>): (r: (Label, seq<byte>))
    ensures text != [] ==> |r.1| < |text|
  {
    if text == [] then ([], [])
    else if text[0] == DOT then ([], text[1..])
    else if text[0] == BACKSLASH then
      if |text| == 1 then ([], [])
      else var (l, rest) := Scan(text[2..]); ([text[1]] + l, rest)
    else var (l, rest) := Scan(text[1..]); ([text[0]] + l, rest)
  }

  /** The labels a text names; None for an empty or over-long label. */
  function Parse(text: seq<byte>): Option<seq<Label>>
    decreases |text|
  {
    if text == [] then Some([])
    else
      var (l, rest) := Scan(text);
      if l == [] && rest == [] then Some([])
      else if l == [] || |l| > MAX_SEGLEN then None
      else
        match Parse(rest)
        case None => None
        case Some(ls) => Some([l] + ls)
  }

  /** A label the printer's one escape is enough for. */
  predicate Plain(l: Label) {
    BACKSLASH !in l
  }

  lemma {:induction false} ScanPrinted(l: Label, tail: seq<byte>)
    requires Plain(l)
    requires tail == [] || tail[0] == DOT
    ensures Scan(Escape(l) + tail) == (l, if tail == [] then [] else tail[1..])
  {
    if l == [] {
      assert Escape(l) + tail == tail;
    } else {
      ScanOrdinary(l, tail);
      ScanPrinted(l[1..], tail);
      assert [l[0]] + l[1..] == l;
    }
  }

  /** Text round trip: parsing a printed name gives back its labels. */
  lemma {:induction false} ParsePrinted(ls: seq<Label>)
    requires forall l <- ls :: 1 <= |l| <= MAX_SEGLEN && Plain(l)
    ensures Parse(Print(ls)) == Some(ls)
  {
    if ls != [] {
      assert Parse(Print(ls)) == Some(ls) by {
        hide Print;
        ScanPrintedName(ls);
        ParseStep(Print(ls));
        ParsePrinted(ls[1..]);
        assert [ls[0]] + ls[1..] == ls;
      }
    }
  }

  lemma ScanPrintedName(ls: seq<Label>)
    requires ls != [] && Plain(ls[0])
    ensures Scan(Print(ls)) == (ls[0], Print(ls[1..]))
  {
    DottedRest(ls[1..]);
    ScanPrinted(ls[0], Dotted(ls[1..]));
  }

  lemma DottedRest(ls: seq<Label>)
    ensures
      if ls == [] then Dotted(ls) == []
      else Dotted(ls) != [] && Dotted(ls)[0] == DOT && Dotted(ls)[1..] == Print(ls)
  {
    if ls != [] {
      assert Dotted(ls) == [DOT] + (Escape(ls[0]) + Dotted(ls[1..]));
    }
  }

  lemma ParseStep(text: seq<byte>)
    requires 1 <= |Scan(text).0| <= MAX_SEGLEN
    ensures Parse(text) == match Parse(Scan(text).1) case None => None case Some(ls) => Some([Scan(text).0] + ls)
  {
  }

  /** `k` backslashes. */
  function Slashes(k: nat): Label {
    if k == 0 then [] else [BACKSLASH] + Slashes(k - 1)
  }

  lemma ScanSlashPair(l: Label, tail: seq<byte>)
    requires |l| >= 2 && l[0] == BACKSLASH && l[1] == BACKSLASH
    ensures Scan(Escape(l) + tail).0 == [BACKSLASH] + Scan(Escape(l[2..]) + tail).0
  {
    assert l[1..][1..] == l[2..];
    assert Escape(l) == [BACKSLASH] + Escape(l[1..]);
    assert (Escape(l) + tail)[2..] == Escape(l[2..]) + tail;
  }

  lemma ScanOrdinary(l: Label, tail: seq<byte>)
    requires l != [] && l[0] != BACKSLASH
    ensures Scan(Escape(l) + tail).0 == [l[0]] + Scan(Escape(l[1..]) + tail).0
    ensures Scan(Escape(l) + tail).1 == Scan(Escape(l[1..]) + tail).1
  {
    var e := if l[0] == DOT then [BACKSLASH, DOT] else [l[0]];
    assert Escape(l) + tail == e + (Escape(l[1..]) + tail);
    assert (Escape(l) + tail)[|e|..] == Escape(l[1..]) + tail;
  }

  lemma {:induction false} ScanNeverAddsSlashes(l: Label, tail: seq<byte>, k: nat)
    requires tail == [] || tail[0] == DOT
    requires k > 0
    ensures Scan(Escape(l) + tail).0 != Slashes(k) + l
    decreases |l|
  {
    var goal := Slashes(k) + l;
    assert goal[0] == BACKSLASH;
    if l == [] {
      assert Escape(l) + tail == tail;
    } else if l[0] != BACKSLASH {
      ScanOrdinary(l, tail);
    } else {
      SlashesSlide(k, l);
      if |l| >= 2 && l[1] == BACKSLASH {
        ScanSlashPair(l, tail);
        ScanNeverAddsSlashes(l[2..], tail, k + 1);
        assert goal[1..] == Slashes(k + 1) + l[2..];
      } else {
        ScanBrokenPair(l, tail);
      }
    }
  }

  lemma ScanBrokenPair(l: Label, tail: seq<byte>)
    requires tail == [] || tail[0] == DOT
    requires l != [] && l[0] == BACKSLASH && (|l| == 1 || l[1] != BACKSLASH)
    ensures var got := Scan(Escape(l) + tail).0;
            got == [] || (got == [BACKSLASH] && |l| > 1) || got[0] != BACKSLASH
  {
    var text := Escape(l) + tail;
    if |l| > 1 && l[1] == DOT {
      assert l[1..][0] == DOT;
      assert text[..3] == [BACKSLASH, BACKSLASH, DOT];
      assert text[2..][0] == DOT;
    } else if |l| > 1 {
      assert l[1..][0] == l[1];
      assert text[1] == l[1];
    } else {
      assert Escape(l[1..]) == [];
      assert text == [BACKSLASH] + tail;
    }
  }

  lemma {:induction false} SlashesSlide(k: nat, l: Label)
    requires k > 0 && l != [] && l[0] == BACKSLASH
    ensures (Slashes(k) + l)[1] == BACKSLASH
    ensures |l| >= 2 && l[1] == BACKSLASH ==> (Slashes(k) + l)[1..] == Slashes(k + 1) + l[2..]
  {
    if k == 1 {
      assert Slashes(1) + l == [BACKSLASH] + l;
      assert |l| >= 2 && l[1] == BACKSLASH ==> l == Slashes(2) + l[2..];
    } else {
      SlashesSlide(k - 1, l);
      assert Slashes(k) + l == [BACKSLASH] + (Slashes(k - 1) + l);
    }
  }

  lemma OneSlash()
    ensures Slashes(1) == [BACKSLASH]
  {
  }

  lemma {:induction false} ScanLosesSlash(l: Label, tail: seq<byte>)
    requires !Plain(l)
    requires tail == [] || tail[0] == DOT
    ensures Scan(Escape(l) + tail).0 != l
  {
    hide Scan, Escape, Slashes;
    if l[0] != BACKSLASH {
      ScanOrdinary(l, tail);
      ScanLosesSlash(l[1..], tail);
      assert l == [l[0]] + l[1..];
    } else if |l| >= 2 && l[1] == BACKSLASH {
      ScanSlashPair(l, tail);
      ScanNeverAddsSlashes(l[2..], tail, 1);
      OneSlash();
      assert l == [BACKSLASH] + ([BACKSLASH] + l[2..]);
    } else {
      ScanBrokenPair(l, tail);
    }
  }

  /**
   Exactly which names survive the text form: the printer escapes dots but not backslashes, so
   a name is read back as itself if and only if no label holds a backslash.
   */
  lemma {:induction false} TextRoundTripExactly(ls: seq<Label>)
    requires forall l <- ls :: ValidLabel(l)
    ensures Parse(Print(ls)) == Some(ls) <==> forall l <- ls :: Plain(l)
  {
    if forall l <- ls :: Plain(l) {
      ParsePrinted(ls);
    } else {
      PrintedSlashIsLost(ls);
    }
  }

  lemma {:induction false} PrintedSlashIsLost(ls: seq<Label>)
    requires forall l <- ls :: ValidLabel(l)
    requires !(forall l <- ls :: Plain(l))
    ensures Parse(Print(ls)) != Some(ls)
  {
    assert ls == [ls[0]] + ls[1..] && ValidLabel(ls[0]);
    if Plain(ls[0]) {
      PrintedSlashIsLost(ls[1..]);
      ScanPrintedName(ls);
      ParseStep(Print(ls));
    } else {
      DottedRest(ls[1..]);
      ScanLosesSlash(ls[0], Dotted(ls[1..]));
    }
  }
}
