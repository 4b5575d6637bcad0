/** Identifier generation (util.py): Overleaf-style ids built from fixed-width
    lower-case hexadecimal fields, and the time stamp string meant to count
    milliseconds. The clock and the random draws are passed in. */
module Util {
  import opened PyStr

  predicate IsHexChar(c: char) {
    ('0' <= c <= '9') || ('a' <= c <= 'f')
  }

  predicate AllHex(s: string) {
    forall i :: 0 <= i < |s| ==> IsHexChar(s[i])
  }

  lemma AllHexConcat(a: string, b: string)
    requires AllHex(a) && AllHex(b)
    ensures AllHex(a + b)
  {
    forall i | 0 <= i < |a + b|
      ensures IsHexChar((a + b)[i])
    {
      if i < |a| { assert (a + b)[i] == a[i]; } else { assert (a + b)[i] == b[i - |a|]; }
    }
  }

  function HexDigit(d: nat): (c: char)
    requires d < 16
    ensures IsHexChar(c)
  {
    "0123456789abcdef"[d]
  }

  function HexValue(c: char): (d: nat)
    ensures d < 16
  {
    if '0' <= c <= '9' then (c as int) - ('0' as int)
    else if 'a' <= c <= 'f' then (c as int) - ('a' as int) + 10
    else 0
  }

  lemma HexValueOfDigit(d: nat)
    requires d < 16
    ensures HexValue(HexDigit(d)) == d
  {
  }

  function Pow16(k: nat): (r: nat)
    ensures r >= 1
  {
    if k == 0 then 1 else 16 * Pow16(k - 1)
  }

  /** `format(n, 'x')`: the shortest lower-case hexadecimal numeral. */
  function ToHex(n: nat): (r: string)
    ensures |r| >= 1 && AllHex(r)
    ensures n > 0 ==> r[0] != '0'
    decreases n
  {
    if n < 16 then [HexDigit(n)] else ToHex(n / 16) + [HexDigit(n % 16)]
  }

  /** The value of a hexadecimal numeral, most significant digit first. */
  function ParseHex(s: string): (r: nat)
    ensures r < Pow16(|s|)
    decreases |s|
  {
    if |s| == 0 then 0 else ParseHex(s[..|s| - 1]) * 16 + HexValue(s[|s| - 1])
  }

  lemma {:induction false} HexRoundTrip(n: nat)
    ensures ParseHex(ToHex(n)) == n
    decreases n
  {
    if n >= 16 {
      HexRoundTrip(n / 16);
      var s := ToHex(n);
      assert s[..|s| - 1] == ToHex(n / 16);
      HexValueOfDigit(n % 16);
    } else {
      HexValueOfDigit(n);
    }
  }

  /** `format(n, 'x')` has at most `k` digits exactly when `n < 16^k`. */
  lemma {:induction false} HexLength(n: nat, k: nat)
    requires k >= 1
    ensures |ToHex(n)| <= k <==> n < Pow16(k)
    decreases n
  {
    if n >= 16 {
      if k == 1 {
        assert Pow16(1) == 16;
      } else {
        HexLength(n / 16, k - 1);
      }
    } else {
      assert Pow16(k) >= 16 by { Pow16Grows(k); }
    }
  }

  lemma {:induction false} Pow16Grows(k: nat)
    requires k >= 1
    ensures Pow16(k) >= 16
  {
    if k > 1 { Pow16Grows(k - 1); }
  }

  /** The value of a concatenation: the digits of `b` are the low ones. */
  lemma {:induction false} ParseHexConcat(a: string, b: string)
    ensures ParseHex(a + b) == ParseHex(a) * Pow16(|b|) + ParseHex(b)
    decreases |b|
  {
    if |b| == 0 {
      assert a + b == a;
    } else {
      var b' := b[..|b| - 1];
      assert (a + b)[..|a + b| - 1] == a + b';
      assert (a + b)[|a + b| - 1] == b[|b| - 1];
      ParseHexConcat(a, b');
      ShiftDigit(ParseHex(a + b), ParseHex(b), Pow16(|b|),
                 ParseHex(a + b'), ParseHex(a), Pow16(|b'|), ParseHex(b'), HexValue(b[|b| - 1]));
    }
  }

  /** One more low digit: `w = x p + y` gives `16 w + z = x (16 p) + (16 y + z)`. */
  lemma ShiftDigit(whole: int, low: int, scale: int, w: int, x: int, p: int, y: int, z: int)
    requires w == x * p + y && whole == w * 16 + z && low == y * 16 + z && scale == 16 * p
    ensures whole == x * scale + low
  {
  }

  /** A quotient-remainder decomposition determines the remainder. */
  lemma ModUnique(n: int, q: int, r: int, m: int)
    requires m > 0 && 0 <= r < m && n == q * m + r
    ensures n % m == r
  {
    var q0, r0 := n / m, n % m;
    assert n == q0 * m + r0;
    var d := q - q0;
    assert d * m == r0 - r by { MulSub(q, q0, m); }
    if d >= 1 {
      MulAtLeast(d, m);
    } else if d <= -1 {
      MulAtLeast(-d, m);
    }
  }

  lemma MulSub(a: int, b: int, m: int)
    ensures (a - b) * m == a * m - b * m
  {
  }

  lemma MulAtLeast(k: int, m: int)
    requires k >= 1 && m > 0
    ensures k * m >= m
  {
  }

  lemma {:induction false} ParseZeros(n: int)
    ensures ParseHex(Repeat('0', n)) == 0
    decreases n
  {
    if n > 0 {
      var z := Repeat('0', n);
      assert z[..|z| - 1] == Repeat('0', n - 1);
      ParseZeros(n - 1);
    }
  }

  // ---------------------------------------------------------------------
  // generateId
  // ---------------------------------------------------------------------

  /** `'0' * w` sliced to `w - len(h)`, then `h`: the source's padding. When
      `h` is longer than `w` the slice bound is negative and counts from the
      end, so some zeros are kept anyway. */
  function PadField(h: string, w: nat): (r: string)
    ensures AllHex(h) ==> AllHex(r)
    ensures |h| <= w ==> |r| == w
    ensures w < |h| <= 2 * w ==> |r| == 2 * w
    ensures 2 * w < |h| ==> r == h
    ensures EndsWith(r, h)
  {
    var zeros := Take(Repeat('0', w), w - |h|);
    assert (zeros + h)[|zeros + h| - |h|..] == h;
    zeros + h
  }

  /** Leading zeros do not change the value. */
  lemma ZerosPrefix(k: nat, s: string)
    ensures ParseHex(Repeat('0', k) + s) == ParseHex(s)
  {
    var z := Repeat('0', k);
    ParseHexConcat(z, s);
    ParseZeros(k);
    MulZero(ParseHex(z), Pow16(|s|));
  }

  lemma MulZero(x: int, p: int)
    requires x == 0
    ensures x * p == 0
  {
  }

  /** The padding does not change the value. */
  lemma PadFieldValue(h: string, w: nat)
    ensures ParseHex(PadField(h, w)) == ParseHex(h)
  {
    var zeros := Take(Repeat('0', w), w - |h|);
    assert PadField(h, w) == zeros + h;
    assert zeros == Repeat('0', |zeros|);
    ZerosPrefix(|zeros|, h);
  }

  /** The values `generateId` draws: the clock in whole seconds and two
      random numbers. */
  datatype Entropy = Entropy(seconds: nat, machine: nat, pid: nat)

  /** The ranges the source draws from: `randint(0, 32767)` and
      `randint(0, 16777216)`, both inclusive. */
  predicate SourceDraw(e: Entropy) {
    e.pid <= 32767 && e.machine <= 16777216
  }

  /** The machine field drawn below `16^6`, so that it fits its six digits. */
  predicate CorrectedDraw(e: Entropy) {
    e.pid <= 32767 && e.machine < 16777216
  }

  /** `generateId()`: time stamp, machine and process fields. */
  function GenerateId(e: Entropy): (r: string)
    ensures AllHex(r)
    ensures EndsWith(r, PadField(ToHex(e.pid), 4))
  {
    var tail := PadField(ToHex(e.pid), 4);
    var head := PadField(ToHex(e.seconds), 8) + PadField(ToHex(e.machine), 6);
    AllHexConcat(head, tail);
    EndsWithAppended(head, tail);
    head + tail
  }

  /** With every field in range the id is 18 characters, and its three
      fields read back the time stamp, machine and process numbers. */
  lemma GenerateIdFields(e: Entropy)
    requires e.seconds < Pow16(8) && e.machine < Pow16(6) && e.pid < Pow16(4)
    ensures var r := GenerateId(e);
      && |r| == 18
      && ParseHex(r[..8]) == e.seconds
      && ParseHex(r[8..14]) == e.machine
      && ParseHex(r[14..]) == e.pid
  {
    HexLength(e.seconds, 8);
    HexLength(e.machine, 6);
    HexLength(e.pid, 4);
    var a := PadField(ToHex(e.seconds), 8);
    var b := PadField(ToHex(e.machine), 6);
    var c := PadField(ToHex(e.pid), 4);
    var r := GenerateId(e);
    assert r == a + b + c;
    assert r[..8] == a && r[8..14] == b && r[14..] == c;
    PadFieldValue(ToHex(e.seconds), 8);
    PadFieldValue(ToHex(e.machine), 6);
    PadFieldValue(ToHex(e.pid), 4);
    HexRoundTrip(e.seconds);
    HexRoundTrip(e.machine);
    HexRoundTrip(e.pid);
  }

  /** Every process number the source draws fits four digits, so the last
      four characters of the id are exactly that number. */
  lemma PidTail(e: Entropy)
    requires SourceDraw(e)
    ensures var r := GenerateId(e);
      |r| >= 4 && ParseHex(r[|r| - 4..]) == e.pid
  {
    assert Pow16(4) == 65536;
    HexLength(e.pid, 4);
    PadFieldValue(ToHex(e.pid), 4);
    HexRoundTrip(e.pid);
  }

  /** As written: `randint(0, 16777216)` can return `16^6` itself, whose
      numeral has seven digits; the padding slice then keeps five zeros and
      the id grows to 24 characters. */
  lemma MachineOverflow(seconds: nat, pid: nat)
    requires seconds < Pow16(8) && pid <= 32767
    ensures SourceDraw(Entropy(seconds, 16777216, pid))
    ensures |PadField(ToHex(16777216), 6)| == 12
    ensures |GenerateId(Entropy(seconds, 16777216, pid))| == 24
  {
    assert Pow16(4) == 65536 && Pow16(6) == 16777216 && Pow16(7) == 268435456;
    HexLength(seconds, 8);
    HexLength(pid, 4);
    HexLength(16777216, 7);
    HexLength(16777216, 6);
  }

  /** Corrected: with the machine number drawn below `16^6` every id is 18
      characters wide while the clock fits eight digits. */
  lemma CorrectedDrawFixedWidth(e: Entropy)
    requires CorrectedDraw(e) && e.seconds < Pow16(8)
    ensures |GenerateId(e)| == 18
  {
    assert Pow16(4) == 65536 && Pow16(6) == 16777216;
    GenerateIdFields(e);
  }

  // ---------------------------------------------------------------------
  // generateCommentId
  // ---------------------------------------------------------------------

  /** `('000000' + format(n, 'x'))[-6:]` */
  function CommentSuffix(n: nat): (r: string)
    ensures |r| == 6 && AllHex(r)
  {
    Drop("000000" + ToHex(n), -6)
  }

  /** `generateCommentId(n)`: a fresh id followed by the counter's suffix. */
  function GenerateCommentId(n: nat, e: Entropy): (r: string)
    ensures AllHex(r)
    ensures EndsWith(r, CommentSuffix(n))
  {
    var id := GenerateId(e);
    var s := CommentSuffix(n);
    assert (id + s)[|id + s| - 6..] == s;
    id + s
  }

  /** The suffix reads back the counter modulo `16^6`. */
  lemma SuffixRoundTrip(n: nat)
    ensures ParseHex(CommentSuffix(n)) == n % Pow16(6)
  {
    var h := ToHex(n);
    var full := "000000" + h;
    var pre := full[..|full| - 6];
    var suf := CommentSuffix(n);
    assert full == pre + suf;
    assert ParseHex(full) == n by {
      assert "000000" == Repeat('0', 6);
      ZerosPrefix(6, h);
      HexRoundTrip(n);
    }
    var q, m := ParseHex(pre), Pow16(6);
    assert ParseHex(full) == q * m + ParseHex(suf) by {
      ParseHexConcat(pre, suf);
    }
    ModUnique(n, q, ParseHex(suf), m);
  }

  /** Below `16^6` the suffix is the counter's numeral padded with zeros. */
  lemma SuffixIsPadded(n: nat)
    requires n < Pow16(6)
    ensures CommentSuffix(n) == PadField(ToHex(n), 6)
  {
    HexLength(n, 6);
    assert "000000" == Repeat('0', 6);
    ZerosTail(Repeat('0', 6), ToHex(n), 6);
  }

  /** The last `w` characters of `w` zeros and then at most `w` more
      characters: the zeros cut to make room, then those characters. */
  lemma ZerosTail(z: string, h: string, w: nat)
    requires |z| == w && |h| <= w && forall i :: 0 <= i < w ==> z[i] == '0'
    ensures Drop(z + h, -(w as int)) == Take(z, w - |h|) + h
  {
    var s := z + h;
    assert SliceBound(-(w as int), |s|) == |h|;
    assert s[|h|..] == z[|h|..] + h;
    assert z[|h|..] == z[..w - |h|];
  }

  /** Distinct counters below `16^6` give distinct suffixes, so comment
      ids made in one session differ even when the rest of the id repeats. */
  lemma SuffixInjective(a: nat, b: nat)
    requires a < Pow16(6) && b < Pow16(6) && a != b
    ensures CommentSuffix(a) != CommentSuffix(b)
  {
    SuffixRoundTrip(a);
    SuffixRoundTrip(b);
    ModUnique(a, 0, a, Pow16(6));
    ModUnique(b, 0, b, Pow16(6));
  }

  // ---------------------------------------------------------------------
  // _genTimeStamp
  // ---------------------------------------------------------------------

  /** `t[:10] + t[11:]`: the character at index 10 (the decimal point of
      `str(time.time())`) removed. */
  function DropPoint(t: string): (r: string)
    ensures |t| <= 10 ==> r == t
    ensures |t| > 10 ==> r == t[..10] + t[11..] && |r| == |t| - 1
  {
    Take(t, 10) + Drop(t, 11)
  }

  /** `_genTimeStamp()` on the string `t` of the clock: the point removed,
      then zeros appended until the string has at least 13 characters. */
  method GenTimeStamp(t: string) returns (r: string)
    ensures |r| == Max(13, |DropPoint(t)|)
    ensures r[..|DropPoint(t)|] == DropPoint(t)
    ensures forall i :: |DropPoint(t)| <= i < |r| ==> r[i] == '0'
  {
    r := Take(t, 10) + Drop(t, 11);
    ghost var d := r;
    while |r| < 13
      invariant |d| <= |r| <= Max(13, |d|)
      invariant r[..|d|] == d
      invariant forall i :: |d| <= i < |r| ==> r[i] == '0'
      decreases 13 - |r|
    {
      r := r + "0";
    }
  }

  /** As written: `str(time.time())` carries six or seven fractional
      digits for current times, and the result is then 16 or 17 characters,
      not the 13 the source's comment announces; six digits give 16. */
  method GenTimeStampTooLong() returns (r: string)
    ensures |r| == 16
  {
    r := GenTimeStamp("1700000000.123456");
  }

  /** Corrected: the stamp cut or padded to exactly 13 characters (seconds
      and milliseconds). */
  method GenTimeStampCorrected(t: string) returns (r: string)
    ensures |r| == 13
    ensures var d := DropPoint(t);
      forall i :: 0 <= i < 13 ==> r[i] == (if i < |d| then d[i] else '0')
  {
    var s := GenTimeStamp(t);
    r := s[..13];
  }
}
