/** Python value semantics the plugin relies on: optional dictionary keys,
    slicing with possibly negative bounds, `str.isspace`, `str.rstrip`,
    `str.startswith`, `c * n` and `str(n)` for naturals. */
module PyStr {

  /** A dictionary key that may be absent. */
  datatype Option<+T> = None | Some(value: T) {
    /** `d.get(key, default)` */
    function GetOr(default: T): T {
      match this
      case Some(v) => v
      case None => default
    }
  }

  function Max(a: int, b: int): int { if a < b then b else a }

  /** Python normalises a slice bound `k` against a length `n`. */
  function SliceBound(k: int, n: nat): (r: nat)
    ensures r <= n
    ensures 0 <= k <= n ==> r == k
    ensures k < 0 && n + k >= 0 ==> r == n + k
  {
    if k < 0 then (if n + k < 0 then 0 else n + k)
    else if k > n then n
    else k
  }

  /** `s[:k]` */
  function Take<T>(s: seq<T>, k: int): (r: seq<T>)
    ensures r <= s
  {
    s[..SliceBound(k, |s|)]
  }

  /** `s[k:]` */
  function Drop<T>(s: seq<T>, k: int): (r: seq<T>)
    ensures |r| <= |s|
  {
    s[SliceBound(k, |s|)..]
  }

  /** `c * n`: `n` copies of `c`, and nothing when `n` is not positive. */
  function Repeat(c: char, n: int): (r: string)
    ensures |r| == Max(0, n)
    ensures forall i :: 0 <= i < |r| ==> r[i] == c
    decreases n
  {
    if n <= 0 then "" else [c] + Repeat(c, n - 1)
  }

  /** `s.startswith(p)` */
  predicate StartsWith(s: string, p: string) {
    |p| <= |s| && s[..|p|] == p
  }

  /** `s.endswith(p)` */
  predicate EndsWith(s: string, p: string) {
    |p| <= |s| && s[|s| - |p|..] == p
  }

  /** A string ends with whatever was appended to it last. */
  lemma EndsWithAppended(a: string, b: string)
    ensures EndsWith(a + b, b)
  {
    assert (a + b)[|a + b| - |b|..] == b;
  }

  /** `c.isspace()`: the characters Python 3 treats as whitespace, which are
      also the ones the regular expression class `\s` matches in a `str`. */
  predicate IsSpace(c: char) {
    || c == '\t' || c == '\n' || c == '\U{000B}' || c == '\U{000C}' || c == '\r'
    || ('\U{001C}' <= c <= '\U{001F}') || c == ' ' || c == '\U{0085}' || c == '\U{00A0}'
    || c == '\U{1680}' || ('\U{2000}' <= c <= '\U{200A}') || c == '\U{2028}' || c == '\U{2029}'
    || c == '\U{202F}' || c == '\U{205F}' || c == '\U{3000}'
  }

  predicate AllSpace(s: string) {
    forall i :: 0 <= i < |s| ==> IsSpace(s[i])
  }

  /** `s.rstrip()`: the longest prefix of `s` that does not end in whitespace. */
  function RStrip(s: string): (r: string)
    ensures r <= s
    ensures |r| == 0 || !IsSpace(r[|r| - 1])
    ensures AllSpace(s[|r|..])
    decreases |s|
  {
    if |s| > 0 && IsSpace(s[|s| - 1]) then RStrip(s[..|s| - 1]) else s
  }

  /** `str(n)` for a natural number. */
  function Decimal(n: nat): (r: string)
    ensures |r| >= 1
    ensures forall i :: 0 <= i < |r| ==> '0' <= r[i] <= '9'
    decreases n
  {
    var d := "0123456789"[n % 10];
    if n < 10 then [d] else Decimal(n / 10) + [d]
  }

  /** `str(i)` for any integer. */
  function IntStr(i: int): (r: string)
    ensures |r| >= 1
    ensures i < 0 <==> r[0] == '-'
  {
    if i < 0 then "-" + Decimal(-i) else Decimal(i)
  }

  /** Trailing whitespace added to a string is stripped with the rest. */
  lemma {:induction false} RStripSpaces(s: string, ws: string)
    requires AllSpace(ws)
    ensures RStrip(s + ws) == RStrip(s)
    decreases |ws|
  {
    if |ws| > 0 {
      var init := ws[..|ws| - 1];
      assert (s + ws)[..|s + ws| - 1] == s + init;
      RStripSpaces(s, init);
    } else {
      assert s + ws == s;
    }
  }

  /** A string that does not end in whitespace is unchanged by `rstrip`. */
  lemma RStripKeeps(s: string)
    requires |s| > 0 && !IsSpace(s[|s| - 1])
    ensures RStrip(s) == s
  {
  }

  /** `rstrip` is idempotent. */
  lemma RStripIdempotent(s: string)
    ensures RStrip(RStrip(s)) == RStrip(s)
  {
  }
}
