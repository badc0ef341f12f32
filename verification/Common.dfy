// Vocabulary shared by the models of the individual source files.
module Common {

  datatype Option<+T> = None | Some(value: T)

  /** An `unsigned char`. */
  type byte = x: int | 0 <= x < 256

  /** One more than the greatest `uint32_t`. */
  const WORD: nat := 0x1_0000_0000

  /** A C string without its terminating NUL: no byte of it is 0. */
  predicate NoNul(s: seq<byte>) {
    forall i :: 0 <= i < |s| ==> s[i] != 0
  }

  /** The C string that bytes and a NUL after them hold: what comes before the first NUL. */
  function CString(s: seq<byte>): (r: seq<byte>)
    ensures NoNul(r) && |r| <= |s| && (NoNul(s) ==> r == s)
  {
    if s == [] || s[0] == 0 then [] else [s[0]] + CString(s[1..])
  }

  /** The character a C pointer `s + i` reads: the terminating NUL at the end of the string. */
  function CharAt(s: seq<byte>, i: nat): byte {
    if i < |s| then s[i] else 0
  }

  /** No element occurs twice. */
  ghost predicate Distinct<T>(s: seq<T>) {
    forall i, j :: 0 <= i < j < |s| ==> s[i] != s[j]
  }

  /** The list without its element at `k`. */
  function Remove<T>(s: seq<T>, k: nat): (r: seq<T>)
    requires k < |s|
    ensures |r| == |s| - 1 && forall j :: 0 <= j < |r| ==> r[j] == s[if j < k then j else j + 1]
  {
    s[..k] + s[k + 1..]
  }

  /** The list without the elements of `u`. */
  ghost function Without<T>(s: seq<T>, u: set<T>): (r: seq<T>)
    ensures forall x <- r :: x in s && x !in u
    ensures forall x <- s :: x !in u ==> x in r
  {
    if s == [] then [] else if s[0] in u then Without(s[1..], u) else [s[0]] + Without(s[1..], u)
  }

  lemma {:induction false} WithoutTwice<T>(s: seq<T>, u: set<T>, v: set<T>)
    ensures Without(Without(s, u), v) == Without(s, u + v)
  {
    if s != [] {
      WithoutTwice(s[1..], u, v);
      if s[0] !in u {
        assert Without(s, u)[1..] == Without(s[1..], u);
      }
    }
  }

  lemma {:induction false} WithoutNothing<T>(s: seq<T>, u: set<T>)
    requires forall x <- s :: x !in u
    ensures Without(s, u) == s
  {
    if s != [] {
      WithoutNothing(s[1..], u);
    }
  }

  lemma {:induction false} WithoutShorter<T>(s: seq<T>, u: set<T>)
    ensures |Without(s, u)| <= |s|
    ensures s != [] && s[0] in u ==> |Without(s, u)| < |s|
  {
    if s != [] {
      WithoutShorter(s[1..], u);
    }
  }

  lemma {:induction false} WithoutConcat<T>(s: seq<T>, t: seq<T>, u: set<T>)
    ensures Without(s + t, u) == Without(s, u) + Without(t, u)
  {
    if s == [] {
      assert s + t == t;
    } else {
      assert (s + t)[1..] == s[1..] + t;
      WithoutConcat(s[1..], t, u);
    }
  }

  /** Taking out the one occurrence of an element. */
  lemma {:induction false} WithoutOne<T>(s: seq<T>, i: nat)
    requires i < |s| && forall j :: 0 <= j < |s| && j != i ==> s[j] != s[i]
    ensures Without(s, {s[i]}) == s[..i] + s[i + 1..]
  {
    if i == 0 {
      WithoutNothing(s[1..], {s[0]});
    } else {
      WithoutOne(s[1..], i - 1);
      assert [s[0]] + (s[1..][..i - 1] + s[1..][i..]) == s[..i] + s[i + 1..];
    }
  }

  // ----- powers of two and division

  function Pow2(n: nat): (p: nat)
    ensures p >= 1
  {
    if n == 0 then 1 else 2 * Pow2(n - 1)
  }

  lemma {:induction false} Pow2Grows(m: nat, n: nat)
    requires m <= n
    ensures Pow2(m) <= Pow2(n)
    decreases n
  {
    if m < n {
      Pow2Grows(m, n - 1);
    }
  }

  lemma Expand(a: nat, d: nat, m: nat)
    ensures (a + 1 + d) * m == a * m + m + d * m && d * m >= 0
  {
  }

  lemma Distance(m: nat, a: nat, b: nat)
    ensures a < b ==> a * m + m <= b * m
    ensures a <= b ==> a * m <= b * m
  {
    if a < b {
      var d := b - a - 1;
      assert b * m == (a + 1 + d) * m;
      Expand(a, d, m);
    }
  }

  lemma QuotientUnique(m: nat, a: nat, b: nat, x: nat, y: nat)
    requires a * m + x == b * m + y && x < m && y < m
    ensures a == b && x == y
  {
    Distance(m, a, b);
    Distance(m, b, a);
  }

  lemma DivMod(c: nat, m: nat)
    requires m > 0
    ensures c == c / m * m + c % m && 0 <= c % m < m && 0 <= c / m
  {
  }

  lemma ModIs(c: nat, m: nat, q: nat, r: nat)
    requires c == q * m + r && r < m
    ensures c / m == q && c % m == r
  {
    DivMod(c, m);
    QuotientUnique(m, c / m, q, c % m, r);
  }
}
