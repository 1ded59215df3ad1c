/**
 * The parts of Go's `strings` and `strconv` packages that the middleware uses,
 * written out over Dafny strings (sequences of Unicode scalar values).
 */
module GoText {

  import opened Wrappers

  /** `unicode.IsSpace`: the Unicode White_Space characters. */
  predicate IsSpace(c: char) {
    || c == ' ' || c == '\t' || c == '\n' || c == '\U{000B}' || c == '\U{000C}' || c == '\r'
    || c == '\U{0085}' || c == '\U{00A0}' || c == '\U{1680}'
    || ('\U{2000}' <= c <= '\U{200A}')
    || c == '\U{2028}' || c == '\U{2029}' || c == '\U{202F}' || c == '\U{205F}' || c == '\U{3000}'
  }

  /** `r` occurs in `s` as a contiguous run of characters. */
  ghost predicate IsSubstring(r: string, s: string) {
    exists i, j | 0 <= i <= j <= |s| :: s[i..j] == r
  }

  /** `strings.TrimSpace`: drop leading and trailing white space. */
  function TrimSpace(s: string): (r: string)
    ensures |r| <= |s|
    ensures r == [] || (!IsSpace(r[0]) && !IsSpace(r[|r| - 1]))
    decreases |s|
  {
    if |s| > 0 && IsSpace(s[0]) then TrimSpace(s[1..])
    else if |s| > 0 && IsSpace(s[|s| - 1]) then TrimSpace(s[..|s| - 1])
    else s
  }

  /** `r` sits at offset `i` of `s`, with only white space before and after it. */
  predicate PaddedAt(s: string, r: string, i: nat) {
    && i + |r| <= |s| && s[i..i + |r|] == r
    && (forall k | 0 <= k < i :: IsSpace(s[k]))
    && (forall k | i + |r| <= k < |s| :: IsSpace(s[k]))
  }

  lemma PaddedAtAfterSpace(s: string, r: string, j: nat)
    requires |s| > 0 && IsSpace(s[0]) && PaddedAt(s[1..], r, j)
    ensures PaddedAt(s, r, j + 1)
  {
    assert s[j + 1..j + 1 + |r|] == s[1..][j..j + |r|];
    assert forall k | 1 <= k < |s| :: s[k] == s[1..][k - 1];
  }

  lemma PaddedAtBeforeSpace(s: string, r: string, j: nat)
    requires |s| > 0 && IsSpace(s[|s| - 1]) && PaddedAt(s[..|s| - 1], r, j)
    ensures PaddedAt(s, r, j)
  {
    assert s[j..j + |r|] == s[..|s| - 1][j..j + |r|];
    assert forall k | 0 <= k < |s| - 1 :: s[k] == s[..|s| - 1][k];
  }

  /** Trimming removes white space and nothing else. */
  lemma {:induction false} TrimSpaceIsInfix(s: string) returns (i: nat)
    ensures PaddedAt(s, TrimSpace(s), i)
    decreases |s|
  {
    if |s| > 0 && IsSpace(s[0]) {
      var j := TrimSpaceIsInfix(s[1..]);
      PaddedAtAfterSpace(s, TrimSpace(s), j);
      i := j + 1;
    } else if |s| > 0 && IsSpace(s[|s| - 1]) {
      i := TrimSpaceIsInfix(s[..|s| - 1]);
      PaddedAtBeforeSpace(s, TrimSpace(s), i);
    } else {
      i := 0;
      assert s[0..|s|] == s;
    }
  }

  /** The result of trimming is a piece of the input. */
  lemma TrimSpaceIsSubstring(s: string)
    ensures IsSubstring(TrimSpace(s), s)
  {
    var i := TrimSpaceIsInfix(s);
    assert s[i..i + |TrimSpace(s)|] == TrimSpace(s);
  }

  /** `unicode.ToLower` on ASCII letters; every other character is kept. */
  function LowerAscii(c: char): char {
    if 'A' <= c <= 'Z' then (c as int + 32) as char else c
  }

  /** Lower-casing works character by character. */
  lemma {:induction false} ToLowerAt(s: string, i: int)
    requires 0 <= i < |s|
    ensures ToLower(s)[i] == LowerAscii(s[i])
    decreases |s|
  {
    if i > 0 {
      ToLowerAt(s[1..], i - 1);
    }
  }

  /** `strings.ToLower`, restricted to ASCII letters: only they can lower-case into "http" or "https". */
  function ToLower(s: string): (r: string)
    ensures |r| == |s|
  {
    if s == [] then []
    else [LowerAscii(s[0])] + ToLower(s[1..])
  }

  /** `strings.LastIndexByte`: the last position of `c`, or -1. */
  function LastIndexOf(s: string, c: char): (i: int)
    ensures -1 <= i < |s|
    ensures i >= 0 ==> s[i] == c
    ensures forall k | i < k < |s| :: s[k] != c
  {
    if |s| == 0 then -1
    else if s[|s| - 1] == c then |s| - 1
    else LastIndexOf(s[..|s| - 1], c)
  }

  /** `strings.IndexByte`: the first position of `c`, or -1. */
  function IndexOf(s: string, c: char): (i: int)
    ensures -1 <= i < |s|
    ensures i >= 0 ==> s[i] == c
    ensures forall k | 0 <= k < |s| && (i < 0 || k < i) :: s[k] != c
  {
    if |s| == 0 then -1
    else if s[0] == c then 0
    else
      var j := IndexOf(s[1..], c);
      assert forall k | 1 <= k < |s| :: s[k] == s[1..][k - 1];
      if j < 0 then -1 else j + 1
  }

  predicate IsDigit(c: char) {
    '0' <= c <= '9'
  }

  predicate AllDigits(s: string) {
    forall i | 0 <= i < |s| :: IsDigit(s[i])
  }

  /** The value of a string of decimal digits, most significant first. */
  function DecimalValue(s: string): (n: nat)
    requires AllDigits(s)
  {
    if s == [] then 0
    else DecimalValue(s[..|s| - 1]) * 10 + (s[|s| - 1] as int - '0' as int)
  }

  const MinInt64: int := -0x8000_0000_0000_0000
  const MaxInt64: int := 0x7FFF_FFFF_FFFF_FFFF

  /**
   * `strconv.Atoi` on a 64-bit platform: an optional sign, at least one decimal
   * digit, and a value that fits an int64; anything else is a syntax or range error.
   */
  function Atoi(s: string): (r: Option<int>)
    ensures r.Some? ==> MinInt64 <= r.value <= MaxInt64
    ensures r.Some? ==> |s| > 0 && (AllDigits(s) || (|s| > 1 && (s[0] == '+' || s[0] == '-') && AllDigits(s[1..])))
  {
    var neg := |s| > 0 && s[0] == '-';
    var digits := if |s| > 0 && (s[0] == '-' || s[0] == '+') then s[1..] else s;
    if |digits| == 0 || !AllDigits(digits) then None
    else
      var n: int := if neg then -(DecimalValue(digits) as int) else DecimalValue(digits);
      if MinInt64 <= n <= MaxInt64 then Some(n) else None
  }

  /** An unsigned decimal that fits an int64 converts to its value. */
  lemma AtoiDigits(s: string)
    requires |s| > 0 && AllDigits(s) && DecimalValue(s) <= MaxInt64
    ensures Atoi(s) == Some(DecimalValue(s))
  {
    assert IsDigit(s[0]);
  }

  /** A signed decimal that fits an int64 converts to its signed value. */
  lemma AtoiSigned(s: string)
    requires |s| > 1 && (s[0] == '+' || s[0] == '-') && AllDigits(s[1..])
    requires MinInt64 <= (if s[0] == '-' then -(DecimalValue(s[1..]) as int) else DecimalValue(s[1..])) <= MaxInt64
    ensures Atoi(s) == Some(if s[0] == '-' then -(DecimalValue(s[1..]) as int) else DecimalValue(s[1..]))
  {
  }
}
