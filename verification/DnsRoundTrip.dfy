/**
 The parser and the printer of modules/dns/res_comp.c put together, and what the printer does
 with dots at the end of a name.
 */
module DnsRoundTrip {
  import opened Common
  import opened DnsNames
  import opened DnsCompress
  import opened DnsExpand

  /**
   Text in, text out.  In a message of any names and other bytes, `dn_expand` at the offset of a
   name gives the printed form of that name, and for a name already in that form with no
   backslash it gives back the very text that was compressed.
   */
  lemma CompressThenExpand(items: seq<Item>, slots: nat, i: nat, slack: byte)
    requires Build(Built([], [], []), items, slots).Some?
    requires i < |Build(Built([], [], []), items, slots).value.names|
    ensures var b := Build(Built([], [], []), items, slots).value;
            var (at, text) := b.names[i];
            && at < |b.m| && Parse(text).Some?
            && var got := Expansion(b.m + [slack], |b.m|, at);
               && got == Some(Print(Parse(text).value))
               && forall ls :: (forall l <- ls :: ValidLabel(l) && Plain(l)) && text == Print(ls) ==> got == Some(text)
  {
    hide Build, Parse, Print, Chase;
    EveryNameReadsBack(items, slots);
    var b := Build(Built([], [], []), items, slots).value;
    var (at, text) := b.names[i];
    assert ReadsBack(b.m, b.names[i]);
    forall ls: seq<Label> | (forall l <- ls :: ValidLabel(l) && Plain(l)) && text == Print(ls)
      ensures Parse(text) == Some(ls)
    {
      ParsePrinted(ls);
    }
  }

  /**
   The other way round, for any packet whatever: the text the reader gives for a name, which for C ends at its
   first NUL, is read by the writer as the labels of that name if and only if no label has a backslash or a NUL.
   */
  lemma ExpandThenCompress(m: seq<byte>, eom: nat, pos: nat)
    requires pos < eom < |m| && Expansion(m, eom, pos).Some?
    ensures
      var ls := Chase(m, eom, pos, 0).value;
      Parse(CString(Expansion(m, eom, pos).value)) == Some(ls) <==> forall l <- ls :: Plain(l) && NoNul(l)
  {
    hide Chase, Parse, Print, Plain, NoNul, CString;
    var ls := Chase(m, eom, pos, 0).value;
    ChaseLabelSizes(m, eom, pos, 0);
    if forall l <- ls :: NoNul(l) {
      PrintedNoNul(ls);
      TextRoundTripExactly(ls);
    } else {
      ParsedNoNul(CString(Print(ls)));
    }
  }

  lemma {:induction false} PrintedNoNul(ls: seq<Label>)
    requires forall l <- ls :: NoNul(l)
    ensures NoNul(Print(ls)) && NoNul(Dotted(ls))
  {
    if ls != [] {
      EscapedNoNul(ls[0]);
      PrintedNoNul(ls[1..]);
    }
  }

  lemma {:induction false} EscapedNoNul(l: Label)
    requires NoNul(l)
    ensures NoNul(Escape(l))
  {
    if l != [] {
      EscapedNoNul(l[1..]);
    }
  }

  lemma {:induction false} ParsedNoNul(text: seq<byte>)
    requires NoNul(text)
    ensures Parse(text).Some? ==> forall l <- Parse(text).value :: NoNul(l)
    decreases |text|
  {
    if text != [] {
      ScanNoNul(text);
      ParsedNoNul(Scan(text).1);
    }
  }

  /** `k` dots. */
  function Dots(k: nat): seq<byte> {
    if k == 0 then [] else [DOT] + Dots(k - 1)
  }

  lemma ParseDots(k: nat)
    ensures Parse(Dots(k)) == if k <= 1 then Some([]) else None
  {
    if k == 1 {
      assert Dots(1) == [DOT];
    } else if k > 1 {
      assert Dots(k) == [DOT] + Dots(k - 1) && Dots(k - 1) == [DOT] + Dots(k - 2);
      assert Dots(k)[1..] == Dots(k - 1);
    }
  }

  /**
   Dots after a complete name.  The code's comment says it accepts one trailing dot but not two;
   it accepts exactly up to two, and they change nothing.
   */
  lemma {:induction false} TrailingDotsExactly(ls: seq<Label>, k: nat)
    requires ls != [] && forall l <- ls :: ValidLabel(l) && Plain(l)
    ensures Parse(Print(ls) + Dots(k)) == if k <= 2 then Some(ls) else None
  {
    NameThenDots(ls, k);
    hide Print, Dotted, Escape, Scan, Dots;
    ParseStep(Print(ls) + Dots(k));
    assert [ls[0]] + ls[1..] == ls;
    if |ls| == 1 {
      ParseDots(if k > 0 then k - 1 else 0);
    } else {
      TrailingDotsExactly(ls[1..], k);
    }
  }

  lemma NameThenDots(ls: seq<Label>, k: nat)
    requires ls != [] && ValidLabel(ls[0]) && Plain(ls[0])
    ensures Scan(Print(ls) + Dots(k)) ==
              (ls[0], if |ls| > 1 then Print(ls[1..]) + Dots(k) else Dots(if k > 0 then k - 1 else 0))
  {
    hide NoNul, Scan, Escape, Dotted, Dots;
    var tail := Dotted(ls[1..]) + Dots(k);
    DottedRest(ls[1..]);
    DotsHead(k);
    assert Print(ls) + Dots(k) == Escape(ls[0]) + tail;
    if |ls| > 1 {
      assert tail[1..] == Dotted(ls[1..])[1..] + Dots(k);
    } else {
      assert tail == Dots(k);
    }
    ScanPrinted(ls[0], tail);
  }

  lemma DotsHead(k: nat)
    ensures if k == 0 then Dots(k) == [] else Dots(k) != [] && Dots(k)[0] == DOT && Dots(k)[1..] == Dots(k - 1)
  {
  }

  // ----- the example of section 4.1.4 of RFC 1035

  const F: Label := [70]
  const FOO: Label := [70, 79, 79]
  const ISI: Label := [73, 83, 73]
  const ARPA: Label := [65, 82, 80, 65]

  /** The names F.ISI.ARPA, FOO.F.ISI.ARPA, ARPA and the root at the offsets 20, 40, 64 and 92 of a message. */
  ghost predicate Example(m: seq<byte>) {
    && |m| > 93
    && m[20] == 1 && m[21..22] == F && m[22] == 3 && m[23..26] == ISI && m[26] == 4 && m[27..31] == ARPA && m[31] == 0
    && m[40] == 3 && m[41..44] == FOO && m[44] == 192 && m[45] == 20
    && m[64] == 192 && m[65] == 26 && m[92] == 0
  }

  /** They are read, and printed, as the section says. */
  lemma ReadsExample(m: seq<byte>)
    requires Example(m)
    ensures
      var eom := |m| - 1;
      && Chase(m, eom, 20, 0) == Some([F, ISI, ARPA]) && Chase(m, eom, 40, 0) == Some([FOO, F, ISI, ARPA])
      && Chase(m, eom, 64, 0) == Some([ARPA]) && Chase(m, eom, 92, 0) == Some([])
    ensures Print([F, ISI, ARPA]) == F + [DOT] + ISI + [DOT] + ARPA
  {
    ReadsRoot(m, 92, 0);
    hide Chase, Print;
    ReadsIsi(m, 0);
    ReadsFoo(m);
    ReadsArpa(m, 2);
    OnePointer(m, 64, 0, 26, [ARPA]);
    PrintsIsi();
  }

  lemma ReadsFoo(m: seq<byte>)
    requires Example(m)
    ensures Chase(m, |m| - 1, 40, 0) == Some([FOO, F, ISI, ARPA])
  {
    hide Chase;
    ReadsIsi(m, 6);
    OnePointer(m, 44, 4, 20, [F, ISI, ARPA]);
    OneLabel(m, 40, 0, FOO, [F, ISI, ARPA]);
    assert [FOO] + [F, ISI, ARPA] == [FOO, F, ISI, ARPA];
  }

  lemma ReadsRoot(m: seq<byte>, pos: nat, checked: nat)
    requires pos + 1 < |m| && m[pos] == 0
    ensures Chase(m, |m| - 1, pos, checked) == Some([])
  {
  }

  lemma OneLabel(m: seq<byte>, pos: nat, checked: nat, l: Label, rest: seq<Label>)
    requires 1 <= |l| < 64 && pos + |l| + 2 < |m| && m[pos] == |l| && m[pos + 1..pos + 1 + |l|] == l
    requires Chase(m, |m| - 1, pos + 1 + |l|, checked + |l| + 1) == Some(rest)
    ensures Chase(m, |m| - 1, pos, checked) == Some([l] + rest)
  {
  }

  lemma OnePointer(m: seq<byte>, pos: nat, checked: nat, target: byte, rest: seq<Label>)
    requires pos + 1 < |m| && m[pos] == 192 && m[pos + 1] == target < |m| - 1 && checked + 2 < |m| - 1
    requires Chase(m, |m| - 1, target, checked + 2) == Some(rest)
    ensures Chase(m, |m| - 1, pos, checked) == Some(rest)
  {
  }

  lemma ReadsArpa(m: seq<byte>, checked: nat)
    requires Example(m)
    ensures Chase(m, |m| - 1, 26, checked) == Some([ARPA])
  {
    hide Chase;
    ReadsRoot(m, 31, checked + 5);
    OneLabel(m, 26, checked, ARPA, []);
    assert [ARPA] + [] == [ARPA];
  }

  lemma ReadsIsi(m: seq<byte>, checked: nat)
    requires Example(m)
    ensures Chase(m, |m| - 1, 20, checked) == Some([F, ISI, ARPA])
  {
    hide Chase;
    ReadsArpa(m, checked + 6);
    OneLabel(m, 22, checked + 2, ISI, [ARPA]);
    OneLabel(m, 20, checked, F, [ISI] + [ARPA]);
    assert [F] + ([ISI] + [ARPA]) == [F, ISI, ARPA];
  }

  lemma PrintsIsi()
    ensures Print([F, ISI, ARPA]) == F + [DOT] + ISI + [DOT] + ARPA
  {
    assert DOT !in F && DOT !in ISI && DOT !in ARPA;
    PrintsThree(F, ISI, ARPA);
    hide *;
  }

  lemma PrintsThree(a: Label, b: Label, c: Label)
    requires DOT !in a && DOT !in b && DOT !in c
    ensures Print([a, b, c]) == a + [DOT] + b + [DOT] + c
  {
    hide Dotted, Escape;
    Prints(a);
    DottedOne(b, [c]);
    DottedOne(c, []);
    assert [a, b, c][1..] == [b] + [c] && [c] + [] == [c];
    assert Dotted([]) == [] by {
      DottedRest([]);
    }
  }

  lemma DottedOne(l: Label, rest: seq<Label>)
    requires DOT !in l
    ensures Dotted([l] + rest) == [DOT] + l + Dotted(rest)
  {
    Prints(l);
    assert ([l] + rest)[1..] == rest;
  }

  lemma {:induction false} Prints(l: Label)
    requires DOT !in l
    ensures Escape(l) == l
  {
    if l != [] {
      Prints(l[1..]);
    }
  }
}
