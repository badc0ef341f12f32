/**
 Encoding bytes in digits of 1 to 6 bits (source/string.c).

 A run of digits, or of bytes, is read as one number with its most significant digit first.  Shifts and
 masks of the 32-bit shift register are multiplications, divisions and remainders by powers of two.
 */
module BaseCodec {
  import opened Common

  lemma {:induction false} Pow2Sum(m: nat, n: nat)
    ensures Pow2(m + n) == Pow2(m) * Pow2(n)
    decreases n
  {
    if n > 0 {
      Pow2Sum(m, n - 1);
      Twice(Pow2(m), Pow2(n - 1));
    }
  }

  lemma Twice(p: nat, q: nat)
    ensures p * (2 * q) == 2 * (p * q)
  {
  }

  lemma SmallPowers()
    ensures Pow2(0) == 1 && Pow2(1) == 2 && Pow2(2) == 4 && Pow2(3) == 8 && Pow2(4) == 16
    ensures Pow2(5) == 32 && Pow2(6) == 64
    ensures Pow2(7) == 128 && Pow2(8) == 256
  {
  }

  // ----- the tables

  const BASE64: nat := 6

  /** The character for a digit, in the tables `base_emap` and `base64_emap`. */
  function Emap(k: nat, v: nat): (c: byte)
    requires v < Pow2(k) && k <= 6
  {
    SmallPowers();
    Pow2Grows(k, 6);
    if k == BASE64 then
      if v < 26 then 'A' as int + v
      else if v < 52 then 'a' as int + (v - 26)
      else if v < 62 then '0' as int + (v - 52)
      else if v == 62 then '+' as int else '/' as int
    else
      Pow2Grows(k, 5);
      if v < 10 then '0' as int + v else 'a' as int + (v - 10)
  }

  /**
   The digit for a character; -1 is no digit, -2 one to pass over.  Each of the two tables lacks a comma at
   the end of a row, so that -1 and -1 there become one -2 and the last entry is left to be 0.
   */
  function Dmap(k: nat, c: byte): (v: int)
    ensures -2 <= v < 64
  {
    if c == 255 then 0
    else if k == BASE64 then
      if 'A' as int <= c <= 'Z' as int then c - 'A' as int
      else if 'a' as int <= c <= 'z' as int then c - 'a' as int + 26
      else if '0' as int <= c <= '9' as int then c - '0' as int + 52
      else if c == '+' as int then 62
      else if c == '/' as int then 63
      else if 9 <= c <= 13 || c == ' ' as int || c == '=' as int || c == 129 then -2
      else -1
    else
      if '0' as int <= c <= '9' as int then c - '0' as int
      else if 'A' as int <= c <= 'V' as int then c - 'A' as int + 10
      else if 'a' as int <= c <= 'v' as int then c - 'a' as int + 10
      else if c == 'w' as int then -2
      else -1
  }

  predicate IsDigit(k: nat, c: byte) {
    0 <= Dmap(k, c) < Pow2(k)
  }

  lemma DmapOfEmap(k: nat, v: nat)
    requires 1 <= k <= 6 && v < Pow2(k)
    ensures IsDigit(k, Emap(k, v)) && Dmap(k, Emap(k, v)) == v && Emap(k, v) != 255
  {
    SmallPowers();
    Pow2Grows(k, 6);
    if k != BASE64 {
      Pow2Grows(k, 5);
    }
  }

  const DIGITS := "0123456789abcdefghijklmnopqrstuv"
  const UPPER := "ABCDEFGHIJKLMNOPQRSTUVWXYZ"
  const LOWER := "abcdefghijklmnopqrstuvwxyz"
  const REST := "0123456789+/"

  /** The two encoding tables, character by character. */
  lemma Alphabet(k: nat, v: nat)
    requires k <= 6 && v < Pow2(k)
    ensures Pow2(k) <= 64 && (k < BASE64 ==> Pow2(k) <= 32)
    ensures k < BASE64 ==> v < |DIGITS| && Emap(k, v) == DIGITS[v] as int
    ensures k == BASE64 ==> v < |UPPER + LOWER + REST| && Emap(k, v) == (UPPER + LOWER + REST)[v] as int
  {
    SmallPowers();
    Pow2Grows(k, 6);
    if k != BASE64 {
      Pow2Grows(k, 5);
    }
    DigitOut(if k < BASE64 then v else 0);
    LetterOut(if k < BASE64 || v >= 52 then 0 else if v < 26 then v else v - 26);
    RestOut(if k < BASE64 || v < 52 then 0 else v - 52);
    Lengths();
    hide *;
  }

  lemma Lengths()
    ensures |DIGITS| == 32 && |UPPER| == |LOWER| == 26 && |REST| == 12
  {
  }

  lemma DigitOut(v: nat)
    requires v < 32
    ensures v < |DIGITS| && DIGITS[v] as int == if v < 10 then '0' as int + v else 'a' as int + (v - 10)
  {
  }

  lemma LetterOut(v: nat)
    requires v < 26
    ensures v < |UPPER| && UPPER[v] as int == 'A' as int + v
    ensures v < |LOWER| && LOWER[v] as int == 'a' as int + v
  {
  }

  lemma RestOut(v: nat)
    requires v < 12
    ensures v < |REST|
    ensures REST[v] as int == if v < 10 then '0' as int + v else if v == 10 then '+' as int else '/' as int
  {
  }

  /** The character stands for the digit in the alphabet; below base 64 letters may be of either case. */
  predicate Spells(k: nat, v: nat, c: byte)
    requires v < Pow2(k) && k <= 6
  {
    c == Emap(k, v) || (k < BASE64 && v >= 10 && c == Emap(k, v) - 'a' as int + 'A' as int)
  }

  /** What a table reads as a digit: the characters that stand for one, and the byte 255, which stands for none. */
  lemma StrayDigit(k: nat, c: byte)
    requires 1 <= k <= 6
    ensures IsDigit(k, c) <==> c == 255 || exists v: nat :: v < Pow2(k) && Spells(k, v, c)
    ensures forall v: nat :: v < Pow2(k) && Spells(k, v, c) ==> c != 255 && Dmap(k, c) == v
    ensures Dmap(k, 255) == 0
  {
    SmallPowers();
    Pow2Grows(k, 6);
    if k != BASE64 {
      Pow2Grows(k, 5);
    }
    if IsDigit(k, c) && c != 255 {
      assert Spells(k, Dmap(k, c), c);
    }
  }

  /** The characters the tables are meant to pass over as separators: white space and padding, in base 64. */
  predicate Separates(k: nat, c: byte) {
    k == BASE64 && (9 <= c <= 13 || c == ' ' as int || c == '=' as int)
  }

  /** What a table passes over as a separator: those, and the entry that the missing comma made of -1 and -1. */
  lemma StraySeparator(k: nat, c: byte)
    requires 1 <= k <= 6
    ensures Dmap(k, c) == -2 <==> Separates(k, c) || c == if k == BASE64 then 129 else 'w' as int
    ensures Dmap(k, c) == -2 && !Separates(k, c) ==> forall v: nat :: v < Pow2(k) ==> !Spells(k, v, c)
  {
    StrayDigit(k, c);
  }

  // ----- numbers

  /** The number whose digits to this base these are. */
  ghost function Val(base: nat, digits: seq<nat>): nat {
    if digits == [] then 0 else Val(base, digits[..|digits| - 1]) * base + digits[|digits| - 1]
  }

  lemma ValSnoc(base: nat, digits: seq<nat>, d: nat)
    ensures Val(base, digits + [d]) == Val(base, digits) * base + d
  {
    assert (digits + [d])[..|digits|] == digits;
  }

  /** Digits to a base are determined by their number and how many there are. */
  lemma {:induction false} ValInjective(base: nat, s: seq<nat>, t: seq<nat>)
    requires |s| == |t| && Val(base, s) == Val(base, t) && base > 0
    requires forall i :: 0 <= i < |s| ==> s[i] < base && t[i] < base
    ensures s == t
  {
    if s != [] {
      var n := |s| - 1;
      var a, b := Val(base, s[..n]), Val(base, t[..n]);
      QuotientUnique(base, a, b, s[n], t[n]);
      ValInjective(base, s[..n], t[..n]);
      assert s == s[..n] + [s[n]] && t == t[..n] + [t[n]];
    }
  }

  // ----- encoding

  /** The shift register with 8 more bits in it. */
  lemma TakenIn(ds: nat, chunk: nat, bits: nat, n: nat, b: nat)
    requires ds * Pow2(bits) + chunk == n
    ensures ds * Pow2(bits + 8) + (chunk * 256 + b) == n * 256 + b
  {
    Pow2Sum(bits, 8);
    SmallPowers();
    var p := Pow2(bits);
    assert ds * (p * 256) == (ds * p) * 256;
  }

  /** The top k bits of the register become a digit. */
  lemma PutOut(ds: nat, chunk: nat, bits: nat, k: nat, n: nat)
    requires ds * Pow2(bits) + chunk == n && k <= bits && chunk < Pow2(bits)
    ensures
      var low := Pow2(bits - k);
      && chunk / low < Pow2(k) && chunk % low < low
      && (ds * Pow2(k) + chunk / low) * low + chunk % low == n
  {
    hide Pow2;
    Pow2Sum(k, bits - k);
    MoveDigit(ds, chunk, Pow2(k), Pow2(bits - k), n);
  }

  lemma MoveDigit(ds: nat, chunk: nat, high: nat, low: nat, n: nat)
    requires ds * (high * low) + chunk == n && chunk < high * low && low > 0
    ensures chunk / low < high && chunk % low < low && (ds * high + chunk / low) * low + chunk % low == n
  {
    QuotientBelow(chunk, high, low);
    Regroup(ds, high, low, chunk / low);
  }

  lemma QuotientBelow(c: nat, high: nat, low: nat)
    requires c < high * low && low > 0
    ensures c / low < high && c % low < low && c == c / low * low + c % low
  {
    DivMod(c, low);
    if c / low >= high {
      Multiplied(high, c / low, low);
    }
  }

  lemma Multiplied(a: nat, b: nat, m: nat)
    requires a <= b
    ensures a * m <= b * m
  {
    var d := b - a;
    assert b * m == a * m + d * m;
  }

  lemma Regroup(ds: nat, high: nat, low: nat, q: nat)
    ensures (ds * high + q) * low == ds * (high * low) + q * low
  {
    assert ds * high * low == ds * (high * low);
  }

  /** The digits of the characters. */
  ghost function DigitsOf(k: nat, s: seq<byte>): (r: seq<nat>)
    ensures |r| <= |s|
  {
    if s == [] then []
    else
      var front, c := s[..|s| - 1], s[|s| - 1];
      if IsDigit(k, c) then DigitsOf(k, front) + [Dmap(k, c)] else DigitsOf(k, front)
  }

  lemma DigitsSnoc(k: nat, s: seq<byte>, c: byte)
    ensures DigitsOf(k, s + [c]) == if IsDigit(k, c) then DigitsOf(k, s) + [Dmap(k, c)] else DigitsOf(k, s)
  {
    assert (s + [c])[..|s|] == s;
  }

  /** What the encoder has read is what it has written and what it holds in the register. */
  ghost predicate Encoding(k: nat, out: seq<byte>, read: seq<byte>, chunk: nat, bits: nat) {
    && |DigitsOf(k, out)| == |out|
    && Val(Pow2(k), DigitsOf(k, out)) * Pow2(bits) + chunk == Val(256, read)
    && chunk < Pow2(bits) && k * |out| + bits == 8 * |read|
  }

  lemma TakeIn(k: nat, out: seq<byte>, read: seq<byte>, chunk: nat, bits: nat, b: byte)
    requires Encoding(k, out, read, chunk, bits)
    ensures Encoding(k, out, read + [b], chunk * 256 + b, bits + 8)
  {
    Pow2Sum(bits, 8);
    SmallPowers();
    hide DigitsOf, Pow2;
    TakenIn(Val(Pow2(k), DigitsOf(k, out)), chunk, bits, Val(256, read), b);
    ValSnoc(256, read, b);
  }

  lemma Put(k: nat, out: seq<byte>, read: seq<byte>, chunk: nat, bits: nat)
    requires Encoding(k, out, read, chunk, bits) && 1 <= k <= 6 && k <= bits
    ensures chunk / Pow2(bits - k) < Pow2(k)
    ensures Encoding(k, out + [Emap(k, chunk / Pow2(bits - k))], read, chunk % Pow2(bits - k), bits - k)
  {
    hide DigitsOf, Pow2, Emap, Dmap, IsDigit, Val;
    PutOut(Val(Pow2(k), DigitsOf(k, out)), chunk, bits, k, Val(256, read));
    var v := chunk / Pow2(bits - k);
    DmapOfEmap(k, v);
    DigitsSnoc(k, out, Emap(k, v));
    ValSnoc(Pow2(k), DigitsOf(k, out), v);
    OneMore(k, |out|);
  }

  lemma PutLast(k: nat, out: seq<byte>, read: seq<byte>, chunk: nat, bits: nat)
    requires Encoding(k, out, read, chunk, bits) && 1 <= k <= 6 && bits < k
    ensures chunk * Pow2(k - bits) < Pow2(k)
    ensures
      var all := out + [Emap(k, chunk * Pow2(k - bits))];
      && |DigitsOf(k, all)| == |all|
      && Val(Pow2(k), DigitsOf(k, all)) == Val(256, read) * Pow2(k - bits)
  {
    hide DigitsOf, Pow2, Emap, Dmap, Val;
    Pow2Sum(bits, k - bits);
    var p, q := Pow2(bits), Pow2(k - bits);
    Below(chunk, p, q);
    var v := chunk * q;
    DmapOfEmap(k, v);
    DigitsSnoc(k, out, Emap(k, v));
    ValSnoc(Pow2(k), DigitsOf(k, out), v);
    var ds := Val(Pow2(k), DigitsOf(k, out));
    Padded(ds, p, q, chunk);
  }

  lemma Below(c: nat, p: nat, q: nat)
    requires c < p && q >= 1
    ensures c * q < p * q
  {
    Multiplied(c + 1, p, q);
  }

  lemma Padded(ds: nat, p: nat, q: nat, chunk: nat)
    ensures ds * (p * q) + chunk * q == (ds * p + chunk) * q
  {
    Regroup(ds, p, q, chunk);
  }

  /** The number of characters for n bytes. */
  function Length(k: nat, n: nat): nat
    requires 1 <= k
  {
    (8 * n + k - 1) / k
  }

  /** The bits the last digit has beyond those of n bytes. */
  function Spare(k: nat, n: nat): nat
    requires 1 <= k
  {
    k * Length(k, n) - 8 * n
  }

  lemma LengthExact(k: nat, n: nat, count: nat, bits: nat)
    requires 1 <= k && k * count + bits == 8 * n && bits < k
    ensures Length(k, n) == if bits == 0 then count else count + 1
    ensures Spare(k, n) == if bits == 0 then 0 else k - bits
  {
    var m := if bits == 0 then count else count + 1;
    var r := if bits == 0 then k - 1 else bits - 1;
    assert k * (count + 1) == k * count + k;
    QuotientIs(8 * n + k - 1, k, m, r);
  }

  lemma QuotientIs(a: nat, k: nat, q: nat, r: nat)
    requires a == k * q + r && r < k
    ensures a / k == q
  {
    DivMod(a, k);
    assert k * q == q * k;
    QuotientUnique(k, a / k, q, a % k, r);
  }

  /** The characters before the current one leave room for it. */
  lemma RoomLeft(k: nat, n: nat, count: nat, bits: nat)
    requires 1 <= k && k * count + bits <= 8 * n && bits > 0
    ensures count < Length(k, n)
  {
    DivMod(8 * n + k - 1, k);
    Distance(k, Length(k, n), count);
    assert k * count == count * k;
  }

  /**
   `str_base_encode`.  The digits, read as a number, are the bytes read as a number with zero bits after
   them up to a whole digit.
   */
  method Encode(k: nat, dest: array<byte>, src: seq<byte>) returns (count: nat)
    requires 1 <= k <= 6 && dest.Length > Length(k, |src|)
    modifies dest
    ensures count == Length(k, |src|) && dest[count] == 0
    ensures |DigitsOf(k, dest[..count])| == count
    ensures Val(Pow2(k), DigitsOf(k, dest[..count])) == Val(256, src) * Pow2(Spare(k, |src|))
    ensures forall j :: count < j < dest.Length ==> dest[j] == old(dest[j])
  {
    hide DigitsOf, Pow2, Emap, Dmap, Length, Spare, Val;
    var chunk: nat, bits: nat, i: nat := 0, 0, 0;
    count := 0;
    assert Encoding(k, dest[..0], src[..0], 0, 0) by {
      NothingYet(k);
    }
    while i < |src|
      invariant i <= |src| && bits < k && count < dest.Length
      invariant Encoding(k, dest[..count], src[..i], chunk, bits)
      invariant forall j :: count <= j < dest.Length ==> dest[j] == old(dest[j])
    {
      if bits < k {
        TakeIn(k, dest[..count], src[..i], chunk, bits, src[i]);
        assert src[..i] + [src[i]] == src[..i + 1];
        chunk := chunk * 256 + src[i];
        bits := bits + 8;
        i := i + 1;
      }
      chunk, bits, count := PutAll(k, dest, src[..i], |src|, chunk, bits, count);
    }
    assert src[..i] == src;
    LengthExact(k, |src|, count, bits);
    if bits > 0 {
      PutLast(k, dest[..count], src, chunk, bits);
      dest[count] := Emap(k, chunk * Pow2(k - bits));
      assert dest[..count + 1] == dest[..count] + [dest[count]];
      count := count + 1;
    } else {
      WholeDigits(k, dest[..count], src, chunk);
    }
    dest[count] := 0;
  }

  /** The inner loop of the encoder. */
  method PutAll(k: nat, dest: array<byte>, ghost read: seq<byte>, ghost n: nat, chunk_: nat, bits_: nat, count_: nat)
    returns (chunk: nat, bits: nat, count: nat)
    requires 1 <= k <= 6 && |read| <= n && dest.Length > Length(k, n)
    requires count_ < dest.Length && Encoding(k, dest[..count_], read, chunk_, bits_)
    modifies dest
    ensures count_ <= count < dest.Length && bits < k && Encoding(k, dest[..count], read, chunk, bits)
    ensures forall j :: count <= j < dest.Length ==> dest[j] == old(dest[j])
  {
    hide DigitsOf, Pow2, Emap, Dmap, Length, Val;
    chunk, bits, count := chunk_, bits_, count_;
    while bits >= k
      invariant count_ <= count < dest.Length && Encoding(k, dest[..count], read, chunk, bits)
      invariant forall j :: count <= j < dest.Length ==> dest[j] == old(dest[j])
      decreases bits
    {
      Put(k, dest[..count], read, chunk, bits);
      RoomLeft(k, n, count, bits);
      var low := Pow2(bits - k);
      dest[count] := Emap(k, chunk / low);
      assert dest[..count + 1] == dest[..count] + [dest[count]];
      bits := bits - k;
      chunk := chunk % low;
      count := count + 1;
    }
  }

  lemma NothingYet(k: nat)
    ensures Encoding(k, [], [], 0, 0)
  {
  }

  lemma WholeDigits(k: nat, out: seq<byte>, read: seq<byte>, chunk: nat)
    requires Encoding(k, out, read, chunk, 0)
    ensures |DigitsOf(k, out)| == |out| && Val(Pow2(k), DigitsOf(k, out)) == Val(256, read) * Pow2(0)
  {
    hide DigitsOf, Val;
  }

  // ----- decoding

  /** The 8 bits of the register from bit s on. */
  function ByteAt(chunk: nat, s: nat): (b: byte) {
    chunk / Pow2(s) % 256
  }

  /** `chunk ^ (0xff << s)`: each of these 8 bits is turned over, which makes the byte b there 255 - b. */
  function FlipByte(chunk: nat, s: nat): (r: int) {
    chunk + (255 - 2 * ByteAt(chunk, s)) * Pow2(s)
  }

  /** A register is its high part, the byte at s, and its low part. */
  lemma Parts(c: nat, s: nat)
    ensures c == c / Pow2(s + 8) * Pow2(s + 8) + ByteAt(c, s) * Pow2(s) + c % Pow2(s)
    ensures c % Pow2(s + 8) == ByteAt(c, s) * Pow2(s) + c % Pow2(s)
  {
    Pow2Sum(s, 8);
    SmallPowers();
    var p := Pow2(s);
    hide Pow2;
    DivMod(c, p);
    DivMod(c / p, 256);
    var h, b, l := c / p / 256, c / p % 256, c % p;
    Regroup3(h, b, l, p);
    InRange(b, l, p);
    ModIs(c, p * 256, h, b * p + l);
  }

  lemma Regroup3(h: nat, b: nat, l: nat, p: nat)
    ensures (h * 256 + b) * p + l == h * (p * 256) + (b * p + l)
  {
    Regroup(h, 256, p, b);
    assert 256 * p == p * 256;
  }

  lemma InRange(b: nat, l: nat, p: nat)
    requires b < 256 && l < p
    ensures 0 <= b * p + l < p * 256
  {
    Multiplied(b + 1, 256, p);
  }

  /** Turning a byte over changes that byte alone. */
  lemma Flipped(c: nat, s: nat)
    ensures FlipByte(c, s) >= 0
    ensures FlipByte(c, s) % Pow2(s + 8) == (255 - ByteAt(c, s)) * Pow2(s) + c % Pow2(s)
    ensures FlipByte(c, s) % Pow2(s) == c % Pow2(s)
  {
    Parts(c, s);
    Pow2Sum(s, 8);
    SmallPowers();
    hide Pow2, ByteAt;
    DivMod(c, Pow2(s));
    TurnedOver(c, c / Pow2(s + 8), ByteAt(c, s), c % Pow2(s), Pow2(s), FlipByte(c, s));
  }

  lemma TurnedOver(c: nat, h: nat, b: nat, l: nat, p: nat, f: int)
    requires c == h * (p * 256) + b * p + l && l < p && b < 256 && f == c + (255 - 2 * b) * p
    ensures f >= 0 && f % (p * 256) == (255 - b) * p + l && f % p == l
  {
    Turn(b, p);
    Regroup3(h, 255 - b, l, p);
    InRange(255 - b, l, p);
    ModIs(f, p * 256, h, (255 - b) * p + l);
    ModIs(f, p, h * 256 + (255 - b), l);
  }

  lemma Turn(b: int, p: int)
    ensures b * p + (255 - 2 * b) * p == (255 - b) * p
  {
  }

  /** Shifting k bits in, in 32 bits. */
  function ShiftIn(chunk: nat, k: nat, v: nat): nat {
    (chunk * Pow2(k) % WORD + v) % WORD
  }

  lemma ShiftedIn(c: nat, k: nat, v: nat, m: nat)
    requires m + k <= 32 && v < Pow2(k)
    ensures ShiftIn(c, k, v) % Pow2(m + k) == c % Pow2(m) * Pow2(k) + v
  {
    Pow2Sum(m, k);
    Pow2Sum(m + k, 32 - (m + k));
    WordIsPower();
    hide Pow2;
    WrapTwice(c * Pow2(k), v);
    Appended(c, Pow2(m), Pow2(k), v);
    ModOfMod(c * Pow2(k) + v, Pow2(m) * Pow2(k), Pow2(32 - (m + k)));
  }

  lemma Appended(c: nat, p: nat, q: nat, v: nat)
    requires v < q && p > 0
    ensures (c * q + v) % (p * q) == c % p * q + v && p * q > 0
  {
    DivMod(c, p);
    var h, r := c / p, c % p;
    Regroup(h, p, q, r);
    Multiplied(r + 1, p, q);
    Expand(r, 0, q);
    ModIs(c * q + v, p * q, h, r * q + v);
  }

  lemma WordIsPower()
    ensures Pow2(32) == WORD
  {
    SmallPowers();
    Pow2Sum(8, 8);
    Pow2Sum(16, 8);
    Pow2Sum(24, 8);
  }

  lemma WrapTwice(a: nat, v: nat)
    ensures (a % WORD + v) % WORD == (a + v) % WORD
  {
    var q, r := a / WORD, a % WORD;
    var q2, r2 := (r + v) / WORD, (r + v) % WORD;
    assert a + v == WORD * (q + q2) + r2;
  }

  lemma ModOfMod(c: nat, m: nat, u: nat)
    requires m > 0 && u > 0 && m * u == WORD
    ensures c % WORD % m == c % m
  {
    var q, r := c / WORD, c % WORD;
    DivMod(r, m);
    var q2, r2 := r / m, r % m;
    assert c == q * (m * u) + (q2 * m + r2);
    Nested(q, u, m, q2);
    ModIs(c, m, q * u + q2, r2);
  }

  lemma Nested(q: nat, u: nat, m: nat, q2: nat)
    ensures q * (m * u) + q2 * m == (q * u + q2) * m
  {
    Regroup(q, u, m, q2);
    assert m * u == u * m;
  }

  /** The last byte written, turned over: it stays in the register above the bits that count. */
  ghost function Ghosted(out: seq<byte>): nat {
    if out == [] then 0 else 255 - out[|out| - 1]
  }

  /** What the decoder has read is what it has written and the low bits of its register. */
  ghost predicate Decoding(k: nat, read: seq<byte>, out: seq<byte>, chunk: nat, bits: nat) {
    && Val(Pow2(k), DigitsOf(k, read)) == Val(256, out) * Pow2(bits) + chunk % Pow2(bits)
    && k * |DigitsOf(k, read)| == 8 * |out| + bits
    && chunk % Pow2(bits + 8) == Ghosted(out) * Pow2(bits) + chunk % Pow2(bits)
  }

  lemma NothingRead(k: nat)
    ensures Decoding(k, [], [], 0, 0)
  {
  }

  lemma TakeDigit(k: nat, read: seq<byte>, out: seq<byte>, chunk: nat, bits: nat, c: byte)
    requires Decoding(k, read, out, chunk, bits) && bits < 8 && 1 <= k <= 6 && IsDigit(k, c)
    ensures Decoding(k, read + [c], out, ShiftIn(chunk, k, Dmap(k, c)), bits + k)
  {
    hide DigitsOf, Pow2, Dmap, ShiftIn, Ghosted, Val;
    var v := Dmap(k, c);
    ShiftedIn(chunk, k, v, bits);
    ShiftedIn(chunk, k, v, bits + 8);
    DigitsSnoc(k, read, c);
    ValSnoc(Pow2(k), DigitsOf(k, read), v);
    Pow2Sum(bits, k);
    Regroup4(Val(256, out), Pow2(bits), Pow2(k), chunk % Pow2(bits), v);
    Regroup4(Ghosted(out), Pow2(bits), Pow2(k), chunk % Pow2(bits), v);
    OneMore(k, |DigitsOf(k, read)|);
  }

  lemma OneMore(k: nat, n: nat)
    ensures k * (n + 1) == k * n + k
  {
  }

  lemma Regroup4(a: nat, p: nat, q: nat, r: nat, v: nat)
    ensures (a * p + r) * q + v == a * (p * q) + (r * q + v)
  {
    Regroup(a, p, q, r);
  }

  lemma SkipChar(k: nat, read: seq<byte>, out: seq<byte>, chunk: nat, bits: nat, c: byte)
    requires Decoding(k, read, out, chunk, bits) && !IsDigit(k, c)
    ensures Decoding(k, read + [c], out, chunk, bits)
  {
    DigitsSnoc(k, read, c);
  }

  lemma GiveByte(k: nat, read: seq<byte>, out: seq<byte>, chunk: nat, bits: nat)
    requires Decoding(k, read, out, chunk, bits) && bits >= 8
    ensures
      var s := bits - 8;
      FlipByte(chunk, s) >= 0 && Decoding(k, read, out + [ByteAt(chunk, s)], FlipByte(chunk, s), s)
  {
    var s := bits - 8;
    hide DigitsOf, Pow2, ByteAt, FlipByte, Ghosted;
    Parts(chunk, s);
    Flipped(chunk, s);
    Pow2Sum(s, 8);
    SmallPowers();
    var b := ByteAt(chunk, s);
    ValSnoc(256, out, b);
    Regroup3(Val(256, out), b, chunk % Pow2(s), Pow2(s));
    assert Ghosted(out + [b]) == 255 - b by {
      GhostedSnoc(out, b);
    }
  }

  lemma GhostedSnoc(out: seq<byte>, b: byte)
    ensures Ghosted(out + [b]) == 255 - b
  {
  }

  /** Whether some character passed over is followed by one that is not to be passed over. */
  ghost predicate Complains(k: nat, s: seq<byte>, len: nat)
    requires len < |s|
  {
    exists i :: 0 <= i < len && !IsDigit(k, s[i]) && Dmap(k, s[i + 1]) != -2
  }

  /**
   What a decoded string is: the whole bytes of the number its digits make, and, if bits are left over, one
   more byte with those at its low end and the last byte turned over above them.
   */
  ghost predicate Decoded(k: nat, chars: seq<byte>, out: seq<byte>) {
    var d := DigitsOf(k, chars);
    var n, rest := k * |d| / 8, k * |d| % 8;
    && |out| == n + (if rest == 0 then 0 else 1)
    && var low: int := Val(Pow2(k), d) - Val(256, out[..n]) * Pow2(rest);
      && 0 <= low < Pow2(rest)
      && (rest != 0 ==> out[n] == (Ghosted(out[..n]) * Pow2(rest) + low) % 256)
  }

  lemma Finished(k: nat, read: seq<byte>, out: seq<byte>, chunk: nat, bits: nat)
    requires Decoding(k, read, out, chunk, bits) && bits < 8
    ensures Decoded(k, read, if bits == 0 then out else out + [chunk % 256])
  {
    var d := DigitsOf(k, read);
    var all := if bits == 0 then out else out + [chunk % 256];
    assert k * |d| / 8 == |out| && k * |d| % 8 == bits;
    assert all[..|out|] == out;
    hide DigitsOf, Pow2, Ghosted;
    var p := Pow2(bits);
    DivMod(chunk, p);
    if bits != 0 {
      Pow2Sum(8, bits);
      SmallPowers();
      LowByte(chunk, p, Ghosted(out) * p + chunk % p);
    }
  }

  lemma LowByte(c: nat, p: nat, r: nat)
    requires p > 0 && c % (256 * p) == r
    ensures c % 256 == r % 256
  {
    DivMod(c, 256 * p);
    var q := c / (256 * p);
    DivMod(r, 256);
    var u, t := r / 256, r % 256;
    assert q * (256 * p) == q * p * 256 by {
      assert 256 * p == p * 256;
    }
    ModIs(c, 256, q * p + u, t);
  }

  /**
   `str_base_decode`.  The source may be decoded into its own buffer: no character is overwritten before it
   is read.
   */
  method Decode(k: nat, dest: array<byte>, src: array<byte>, len: nat) returns (count: nat, einval: bool)
    requires 1 <= k <= 6 && len < src.Length && len <= dest.Length
    modifies dest
    ensures count <= len && Decoded(k, old(src[..len]), dest[..count])
    ensures einval <==> Complains(k, old(src[..]), len)
    ensures forall j :: count <= j < dest.Length ==> dest[j] == old(dest[j])
  {
    hide DigitsOf, Pow2, Dmap, ShiftIn, FlipByte, ByteAt, Ghosted, Decoded, Val, IsDigit;
    ghost var s := src[..];
    var chunk: nat, bits: nat, i: nat := 0, 0, 0;
    count, einval := 0, false;
    NothingRead(k);
    while i < len
      invariant i <= len && bits < 8 && 8 * count + bits <= 6 * i
      invariant Decoding(k, s[..i], dest[..count], chunk, bits)
      invariant forall j :: i <= j < src.Length ==> src[j] == s[j]
      invariant forall j :: count <= j < dest.Length ==> dest[j] == old(dest[j])
      invariant einval <==> exists j :: 0 <= j < i && !IsDigit(k, s[j]) && Dmap(k, s[j + 1]) != -2
    {
      assert s[..i + 1] == s[..i] + [s[i]];
      if !IsDigit(k, src[i]) {
        SkipChar(k, s[..i], dest[..count], chunk, bits, s[i]);
        i := i + 1;
        if Dmap(k, src[i]) != -2 {
          einval := true;
        }
        continue;
      }
      TakeDigit(k, s[..i], dest[..count], chunk, bits, s[i]);
      chunk := ShiftIn(chunk, k, DigitValue(k, src[i]));
      bits := bits + k;
      i := i + 1;
      if bits >= 8 {
        GiveByte(k, s[..i], dest[..count], chunk, bits);
        dest[count] := ByteAt(chunk, bits - 8);
        assert dest[..count + 1] == dest[..count] + [dest[count]];
        chunk := FlipByte(chunk, bits - 8);
        bits := bits - 8;
        count := count + 1;
      }
    }
    Finished(k, s[..len], dest[..count], chunk, bits);
    if bits != 0 {
      dest[count] := chunk % 256;
      assert dest[..count + 1] == dest[..count] + [dest[count]];
      count := count + 1;
    }
  }

  function DigitValue(k: nat, c: byte): (v: nat)
    requires IsDigit(k, c)
    ensures v == Dmap(k, c) && v < Pow2(k)
  {
    Dmap(k, c)
  }

  /**
   Decoding undoes encoding, and adds one byte exactly when the bytes do not fill whole digits: the last byte
   turned over and shifted left past the spare bits.
   */
  lemma RoundTrip(k: nat, x: seq<byte>, enc: seq<byte>, out: seq<byte>)
    requires 1 <= k <= 6
    requires |enc| == Length(k, |x|) && |DigitsOf(k, enc)| == |enc|
    requires Val(Pow2(k), DigitsOf(k, enc)) == Val(256, x) * Pow2(Spare(k, |x|))
    requires Decoded(k, enc, out)
    ensures
      var p := Spare(k, |x|);
      out == if p == 0 then x else x + [(255 - x[|x| - 1]) * Pow2(p) % 256]
    ensures Spare(k, |x|) == 0 <==> 8 * |x| % k == 0
  {
    var n, p := |x|, Spare(k, |x|);
    SpareBits(k, n);
    hide DigitsOf, Pow2, Length, Spare;
    var q, d := Pow2(p), DigitsOf(k, enc);
    assert k * |d| / 8 == n && k * |d| % 8 == p;
    var low := Val(Pow2(k), d) - Val(256, out[..n]) * q;
    QuotientUnique(q, Val(256, x), Val(256, out[..n]), 0, low);
    ValInjective(256, x, out[..n]);
    assert out[..n] == x;
    if p == 0 {
      assert out == out[..n];
    } else {
      assert out == out[..n] + [out[n]];
    }
  }

  lemma SpareBits(k: nat, n: nat)
    requires 1 <= k <= 6
    ensures k * Length(k, n) == 8 * n + Spare(k, n) && Spare(k, n) < k && (n == 0 ==> Spare(k, n) == 0)
    ensures Spare(k, n) == 0 <==> 8 * n % k == 0
  {
    DivMod(8 * n, k);
    var count, bits := 8 * n / k, 8 * n % k;
    assert k * count == count * k;
    LengthExact(k, n, count, bits);
  }
}
