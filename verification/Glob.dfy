/**
 Matching with '*' and '?', by backtracking with a bound on the depth of the recursion (source/string.c).
 */
module Glob {
  import opened Common

  const MAX_MATCH_DEPTH: nat := 12
  const STAR: byte := 42
  const QUESTION: byte := 63

  /** `touppertab`: it exchanges h and H, and t and T, and leaves j alone. */
  function Upper(c: byte): byte {
    if c == 'H' as int then 'h' as int
    else if c == 'T' as int then 't' as int
    else if c == 'j' as int then c
    else if 'a' as int <= c <= 'z' as int then c - 32
    else c
  }

  /** The two cases of a letter other than H, J and T. */
  predicate TwoCases(small: byte, capital: byte) {
    'a' as int <= small <= 'z' as int && capital == small - 32 && small !in ['h' as int, 'j' as int, 't' as int]
  }

  /** What the table takes for the same character. */
  lemma SameCharacter(a: byte, b: byte)
    ensures Upper(a) == Upper(b) <==> a == b || TwoCases(a, b) || TwoCases(b, a)
  {
  }

  // ----- what a pattern means

  /** A star stands for any bytes, a question mark for any one byte, anything else for its character. */
  ghost predicate Matches(w: seq<byte>, s: seq<byte>)
    decreases |w|, |s|
  {
    if w == [] then s == []
    else if w[0] == STAR then exists i :: 0 <= i <= |s| && Matches(w[1..], s[i..])
    else s != [] && (w[0] == QUESTION || Upper(w[0]) == Upper(s[0])) && Matches(w[1..], s[1..])
  }

  /** The characters that come straight after a run of wildcards with a star in it. */
  ghost function Groups(w: seq<byte>, star: bool): nat {
    if w == [] then 0
    else if w[0] == STAR then Groups(w[1..], true)
    else if w[0] == QUESTION then Groups(w[1..], star)
    else (if star then 1 else 0) + Groups(w[1..], false)
  }

  // ----- what a star means

  lemma StarStep(r: seq<byte>, s: seq<byte>)
    ensures Matches([STAR] + r, s) <==> Matches(r, s) || (s != [] && Matches([STAR] + r, s[1..]))
  {
    assert ([STAR] + r)[1..] == r;
    if Matches(r, s) {
      assert s[0..] == s;
    }
    if s != [] && Matches([STAR] + r, s[1..]) {
      var i :| 0 <= i <= |s[1..]| && Matches(r, s[1..][i..]);
      assert s[1..][i..] == s[i + 1..];
    }
    if Matches([STAR] + r, s) {
      var i :| 0 <= i <= |s| && Matches(r, s[i..]);
      if i == 0 {
        assert s[0..] == s;
      } else {
        assert s[1..][i - 1..] == s[i..];
      }
    }
  }

  lemma StarAll(s: seq<byte>)
    ensures Matches([STAR], s)
  {
    assert [STAR][1..] == [];
    assert Matches([], s[|s|..]);
  }

  lemma {:induction false} StarStar(r: seq<byte>, s: seq<byte>)
    ensures Matches([STAR] + ([STAR] + r), s) <==> Matches([STAR] + r, s)
    decreases |s|
  {
    hide Matches;
    StarStep([STAR] + r, s);
    StarStep(r, s);
    if s != [] {
      StarStar(r, s[1..]);
    }
  }

  lemma AnyStep(r: seq<byte>, s: seq<byte>)
    ensures Matches([QUESTION] + r, s) <==> s != [] && Matches(r, s[1..])
  {
    assert ([QUESTION] + r)[1..] == r;
  }

  lemma {:induction false} StarQuestion(r: seq<byte>, s: seq<byte>)
    ensures Matches([STAR] + ([QUESTION] + r), s) <==> s != [] && Matches([STAR] + r, s[1..])
    decreases |s|
  {
    hide Matches;
    StarStep([QUESTION] + r, s);
    AnyStep(r, s);
    if s != [] {
      StarStep(r, s[1..]);
      StarQuestion(r, s[1..]);
    }
  }

  lemma CharStep(c: byte, r: seq<byte>, s: seq<byte>)
    requires c != STAR && c != QUESTION
    ensures Matches([c] + r, s) <==> s != [] && Upper(c) == Upper(s[0]) && Matches(r, s[1..])
  {
    assert ([c] + r)[1..] == r;
  }

  // ----- the matcher

  class Matcher {
    // the global counter
    var matchdepth: nat

    /**
     `_match`: it finds the pattern to match exactly if it does and there are few enough groups for the depth
     that is left.  The counter is as it was.
     */
    method MatchFrom(wild: seq<byte>, str: seq<byte>) returns (r: bool)
      modifies this
      ensures matchdepth == old(matchdepth)
      ensures r <==> Matches(wild, str) && Groups(wild, false) + old(matchdepth) < MAX_MATCH_DEPTH
      decreases |wild|, 1
    {
      hide Matches, Groups, Upper;
      matchdepth := matchdepth + 1;
      if matchdepth > MAX_MATCH_DEPTH {
        matchdepth := matchdepth - 1;
        return false;
      }
      var w, s := 0, 0;
      assert wild[0..] == wild && str[0..] == str;
      while true
        invariant w <= |wild| && s <= |str| && matchdepth == old(matchdepth) + 1 <= MAX_MATCH_DEPTH
        invariant Matches(wild, str) <==> Matches(wild[w..], str[s..])
        invariant Groups(wild, false) == Groups(wild[w..], false)
        decreases |wild| - w
      {
        if w == |wild| {
          assert wild[w..] == [];
          Ended(str[s..]);
          matchdepth := matchdepth - 1;
          return s == |str|;
        }
        if wild[w] == STAR {
          var w1, s1 := Skip(wild, str, w, s);
          w, s := w1, s1;
          if w == |wild| {
            assert wild[w..] == [] && [STAR] + wild[w..] == [STAR];
            StarAll(str[s..]);
            NoGroups();
            matchdepth := matchdepth - 1;
            return true;
          }
          if wild[w] == STAR {
            StarAgain(wild, str, w, s);
            continue;
          }
          var found := TryEach(wild, str, w, s);
          matchdepth := matchdepth - 1;
          return found;
        }
        Step(wild, str, w, s);
        if s == |str| {
          matchdepth := matchdepth - 1;
          return false;
        }
        if wild[w] != QUESTION && Upper(str[s]) != Upper(wild[w]) {
          matchdepth := matchdepth - 1;
          return false;
        }
        s := s + 1;
        w := w + 1;
      }
    }

    /** `match`: at most eleven groups can be followed. */
    method Match(wild: seq<byte>, str: seq<byte>) returns (r: bool)
      modifies this
      ensures matchdepth == 0
      ensures r <==> Matches(wild, str) && Groups(wild, false) <= MAX_MATCH_DEPTH - 1
    {
      matchdepth := 0;
      if wild == [STAR] {
        StarAll(str);
        return true;
      }
      r := MatchFrom(wild, str);
    }

    /** Every place in the string where the character after the star may stand. */
    method TryEach(wild: seq<byte>, str: seq<byte>, w: nat, s_: nat) returns (found: bool)
      requires w < |wild| && s_ <= |str| && wild[w] != STAR && (wild[w] == QUESTION ==> s_ == |str|)
      requires 0 < matchdepth <= MAX_MATCH_DEPTH
      modifies this
      ensures matchdepth == old(matchdepth)
      ensures
        found <==>
          Matches([STAR] + wild[w..], str[s_..]) && Groups(wild[w..], true) + matchdepth - 1 < MAX_MATCH_DEPTH
      decreases |wild| - w, 0
    {
      hide Matches, Groups, Upper;
      var s := s_;
      while s < |str|
        invariant s_ <= s <= |str| && matchdepth == old(matchdepth)
        invariant var deep := Groups(wild[w..], true) + matchdepth - 1 < MAX_MATCH_DEPTH;
          Matches([STAR] + wild[w..], str[s_..]) && deep <==> Matches([STAR] + wild[w..], str[s..]) && deep
      {
        TryHere(wild, str, w, s);
        if Upper(str[s]) == Upper(wild[w]) {
          var r := MatchFrom(wild[w + 1..], str[s + 1..]);
          if r {
            return true;
          }
        }
        s := s + 1;
      }
      NothingLeft(wild[w..], str[s..]);
      return false;
    }
  }

  /** The wildcards from a star on. */
  method Skip(wild: seq<byte>, str: seq<byte>, w_: nat, s_: nat) returns (w: nat, s: nat)
    requires w_ < |wild| && s_ <= |str| && wild[w_] == STAR
    ensures w_ < w <= |wild| && s_ <= s <= |str|
    ensures w < |wild| && wild[w] == QUESTION ==> s == |str|
    ensures Matches(wild[w_..], str[s_..]) <==> Matches([STAR] + wild[w..], str[s..])
    ensures Groups(wild[w_..], false) == Groups(wild[w..], true)
  {
    hide Matches, Groups;
    w, s := w_ + 1, s_;
    assert wild[w_..] == [STAR] + wild[w..];
    StarGroups(wild[w..], false);
    while w < |wild| && wild[w] == STAR
      invariant w_ < w <= |wild|
      invariant Matches(wild[w_..], str[s_..]) <==> Matches([STAR] + wild[w..], str[s..])
      invariant Groups(wild[w_..], false) == Groups(wild[w..], true)
    {
      assert wild[w..] == [STAR] + wild[w + 1..];
      StarStar(wild[w + 1..], str[s..]);
      StarGroups(wild[w + 1..], true);
      w := w + 1;
    }
    while w < |wild| && wild[w] == QUESTION && s < |str|
      invariant w_ < w <= |wild| && s_ <= s <= |str|
      invariant Matches(wild[w_..], str[s_..]) <==> Matches([STAR] + wild[w..], str[s..])
      invariant Groups(wild[w_..], false) == Groups(wild[w..], true)
    {
      assert wild[w..] == [QUESTION] + wild[w + 1..];
      StarQuestion(wild[w + 1..], str[s..]);
      assert str[s..][1..] == str[s + 1..];
      AnyGroups(wild[w + 1..], true);
      w, s := w + 1, s + 1;
    }
  }

  lemma StarGroups(r: seq<byte>, star: bool)
    ensures Groups([STAR] + r, star) == Groups(r, true)
  {
    assert ([STAR] + r)[1..] == r;
  }

  lemma AnyGroups(r: seq<byte>, star: bool)
    ensures Groups([QUESTION] + r, star) == Groups(r, star)
  {
    assert ([QUESTION] + r)[1..] == r;
  }

  lemma StarAgain(wild: seq<byte>, str: seq<byte>, w: nat, s: nat)
    requires w < |wild| && s <= |str| && wild[w] == STAR
    ensures Matches([STAR] + wild[w..], str[s..]) <==> Matches(wild[w..], str[s..])
    ensures Groups(wild[w..], true) == Groups(wild[w..], false)
  {
    hide Matches;
    assert wild[w..] == [STAR] + wild[w + 1..];
    StarStar(wild[w + 1..], str[s..]);
  }

  lemma TryHere(wild: seq<byte>, str: seq<byte>, w: nat, s: nat)
    requires w < |wild| && s < |str| && wild[w] != STAR && wild[w] != QUESTION
    ensures Matches([STAR] + wild[w..], str[s..]) <==>
      (Upper(str[s]) == Upper(wild[w]) && Matches(wild[w + 1..], str[s + 1..])) ||
          Matches([STAR] + wild[w..], str[s + 1..])
    ensures Groups(wild[w..], true) == 1 + Groups(wild[w + 1..], false)
  {
    hide Matches, Upper;
    assert wild[w..] == [wild[w]] + wild[w + 1..];
    assert str[s..][1..] == str[s + 1..];
    StarStep(wild[w..], str[s..]);
    CharStep(wild[w], wild[w + 1..], str[s..]);
  }

  lemma NothingLeft(r: seq<byte>, s: seq<byte>)
    requires r != [] && r[0] != STAR && s == []
    ensures !Matches([STAR] + r, s)
  {
    StarStep(r, s);
  }

  lemma Ended(s: seq<byte>)
    ensures Matches([], s) <==> s == []
    ensures Groups([], false) == 0
  {
  }

  lemma NoGroups()
    ensures Groups([], true) == 0
  {
  }

  lemma Step(wild: seq<byte>, str: seq<byte>, w: nat, s: nat)
    requires w < |wild| && s <= |str| && wild[w] != STAR
    ensures Matches(wild[w..], str[s..]) <==>
      s < |str| && (wild[w] == QUESTION || Upper(str[s]) == Upper(wild[w])) && Matches(wild[w + 1..], str[s + 1..])
    ensures Groups(wild[w..], false) == Groups(wild[w + 1..], false)
  {
    assert wild[w..][1..] == wild[w + 1..];
    if s < |str| {
      assert str[s..][1..] == str[s + 1..];
    }
  }
}
