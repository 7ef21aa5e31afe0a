/**
 * Character classes and string operations shared by the cleaners and parsers:
 * Python's `str.isspace`, `str.lower` (ASCII part), `str.strip`, `str.split()`,
 * `sep.join`, the substring test `p in s`, and the leftmost match of the number
 * pattern `[-+]?\d*\.?\d+`.
 */
module TextUtil {
  import opened Wrappers

  /** Python's `str.isspace()` (and regex `\s` on str): the Unicode whitespace characters. */
  predicate IsSpace(c: char) {
    || c == ' '
    || ('\t' <= c <= '\r')
    || ('\U{1C}' <= c <= '\U{1F}')
    || c == '\U{85}' || c == '\U{A0}' || c == '\U{1680}'
    || ('\U{2000}' <= c <= '\U{200A}')
    || c == '\U{2028}' || c == '\U{2029}' || c == '\U{202F}' || c == '\U{205F}' || c == '\U{3000}'
  }

  predicate IsDigit(c: char) { '0' <= c <= '9' }

  predicate IsLower(c: char) { 'a' <= c <= 'z' }

  predicate IsUpper(c: char) { 'A' <= c <= 'Z' }

  /** `c.lower()` for ASCII letters; every other character is left as it is. */
  function LowerChar(c: char): (r: char)
    ensures IsUpper(c) ==> IsLower(r) && r as int == c as int + 32
    ensures !IsUpper(c) ==> r == c
  {
    if IsUpper(c) then (c as int + 32) as char else c
  }

  function Lower(s: string): (r: string)
    ensures |r| == |s|
    ensures forall i :: 0 <= i < |s| ==> r[i] == LowerChar(s[i])
  {
    seq(|s|, i requires 0 <= i < |s| => LowerChar(s[i]))
  }

  lemma LowerOfLowerIsSame(s: string)
    requires forall i :: 0 <= i < |s| ==> !IsUpper(s[i])
    ensures Lower(s) == s
  {
  }

  /** Number of whitespace characters at the front of `s`. */
  function LeadingSpace(s: string): (n: nat)
    ensures n <= |s|
    ensures forall i :: 0 <= i < n ==> IsSpace(s[i])
    ensures n < |s| ==> !IsSpace(s[n])
  {
    if s != [] && IsSpace(s[0]) then 1 + LeadingSpace(s[1..]) else 0
  }

  /** Number of whitespace characters at the end of `s`. */
  function TrailingSpace(s: string): (n: nat)
    ensures n <= |s|
    ensures forall i :: |s| - n <= i < |s| ==> IsSpace(s[i])
    ensures n < |s| ==> !IsSpace(s[|s| - n - 1])
  {
    if s != [] && IsSpace(s[|s| - 1]) then 1 + TrailingSpace(s[..|s| - 1]) else 0
  }

  /** Python's `s.strip()`: `s` without its leading and trailing whitespace. */
  function Strip(s: string): (r: string)
    ensures r == [] || (!IsSpace(r[0]) && !IsSpace(r[|r| - 1]))
    ensures r == s[LeadingSpace(s)..][..|s| - LeadingSpace(s) - TrailingSpace(s[LeadingSpace(s)..])]
  {
    var t := s[LeadingSpace(s)..];
    t[..|t| - TrailingSpace(t)]
  }

  /** A string that is empty after stripping is all whitespace, and conversely. */
  lemma {:induction false} StripEmptyIff(s: string)
    ensures Strip(s) == [] <==> forall i :: 0 <= i < |s| ==> IsSpace(s[i])
  {
    var a := LeadingSpace(s);
    var t := s[a..];
    if a < |s| {
      assert !IsSpace(s[a]);
      assert TrailingSpace(t) < |t|;
    }
  }

  /** Stripping a string that neither starts nor ends with whitespace changes nothing. */
  lemma StripUnchanged(s: string)
    requires s == [] || (!IsSpace(s[0]) && !IsSpace(s[|s| - 1]))
    ensures Strip(s) == s
  {
    if s != [] {
      assert LeadingSpace(s) == 0;
      assert TrailingSpace(s) == 0;
    }
  }

  predicate StartsWith(s: string, p: string) { p <= s }

  predicate EndsWith(s: string, p: string) { |p| <= |s| && s[|s| - |p|..] == p }

  /** Python's `p in s` for strings: `p` occurs as a contiguous substring of `s`. */
  predicate Contains(s: string, p: string)
    decreases |s|
  {
    p <= s || (s != [] && Contains(s[1..], p))
  }

  lemma {:induction false} ContainsAt(s: string, p: string, k: nat)
    requires k + |p| <= |s| && s[k..k + |p|] == p
    ensures Contains(s, p)
  {
    if k > 0 {
      assert s[1..][k - 1..k - 1 + |p|] == p;
      ContainsAt(s[1..], p, k - 1);
    }
  }

  lemma {:induction false} ContainsWitness(s: string, p: string) returns (k: nat)
    requires Contains(s, p)
    ensures k + |p| <= |s| && s[k..k + |p|] == p
  {
    if p <= s {
      k := 0;
    } else {
      var k' := ContainsWitness(s[1..], p);
      k := k' + 1;
      assert s[k..k + |p|] == s[1..][k'..k' + |p|];
    }
  }

  /** Length of the first word of `t` (the run of non-whitespace at its front). */
  function WordLen(t: string): (n: nat)
    ensures n <= |t|
    ensures forall i :: 0 <= i < n ==> !IsSpace(t[i])
    ensures n < |t| ==> IsSpace(t[n])
  {
    if t != [] && !IsSpace(t[0]) then 1 + WordLen(t[1..]) else 0
  }

  /** Python's `s.split()` with no separator: the maximal runs of non-whitespace, in order. */
  function Words(s: string): (ws: seq<string>)
    ensures forall k :: 0 <= k < |ws| ==> ws[k] != [] && forall i :: 0 <= i < |ws[k]| ==> !IsSpace(ws[k][i])
    decreases |s|
  {
    var t := s[LeadingSpace(s)..];
    if t == [] then []
    else
      var n := WordLen(t);
      [t[..n]] + Words(t[n..])
  }

  /** Text has no words exactly when it is all whitespace. */
  lemma WordsEmpty(s: string)
    ensures Words(s) == [] <==> forall i :: 0 <= i < |s| ==> IsSpace(s[i])
  {
    var l := LeadingSpace(s);
    if l < |s| {
      assert s[l..] != [];
      assert !IsSpace(s[l]);
    } else {
      assert s[l..] == [];
    }
  }

  /** Text with no whitespace in it is a single word. */
  lemma WordsOfWord(s: string)
    requires s != [] && forall i :: 0 <= i < |s| ==> !IsSpace(s[i])
    ensures Words(s) == [s]
  {
    assert LeadingSpace(s) == 0;
    assert s[0..] == s;
    WordLenNoSpace(s);
    assert s[..|s|] == s;
    assert Words(s[|s|..]) == [] by { assert s[|s|..] == []; }
  }

  lemma {:induction false} WordLenNoSpace(s: string)
    requires forall i :: 0 <= i < |s| ==> !IsSpace(s[i])
    ensures WordLen(s) == |s|
  {
    if s != [] {
      WordLenNoSpace(s[1..]);
    }
  }

  /**
   * Splitting at a whitespace character splits the two sides independently;
   * with WordsOfWord and the empty case this pins `Words` down as the
   * maximal non-whitespace runs of the text, in order.
   */
  lemma WordsAppend(a: string, c: char, b: string)
    requires IsSpace(c)
    ensures Words(a + [c] + b) == Words(a) + Words(b)
  {
    var y := [c] + b;
    assert a + [c] + b == a + y;
    WordsConcat(a, y);
    assert LeadingSpace(y) == 1 + LeadingSpace(b) by {
      assert y[1..] == b;
    }
    assert y[LeadingSpace(y)..] == b[LeadingSpace(b)..];
  }

  /** The words of `a` followed by text that starts with whitespace. */
  lemma {:induction false} WordsConcat(a: string, y: string)
    requires y != [] && IsSpace(y[0])
    ensures Words(a + y) == Words(a) + Words(y)
    decreases |a|
  {
    var la := LeadingSpace(a);
    if la == |a| {
      BlankThenText(a, y);
    } else {
      var t := a[la..];
      var n := WordLen(t);
      assert n > 0 by {
        assert t[0] == a[la];
      }
      var w, u, v := t[..n], Words(t[n..]), Words(y);
      FirstWordThenText(a, y);
      WordsConcat(t[n..], y);
      assert Words(a + y) == [w] + (u + v);
      ConsAppend(w, u, v);
      assert Words(a) + v == [w] + u + v;
    }
  }

  lemma ConsAppend<T>(x: T, xs: seq<T>, ys: seq<T>)
    ensures [x] + xs + ys == [x] + (xs + ys)
  {
  }

  /** Whitespace in front of `y` contributes no word. */
  lemma BlankThenText(a: string, y: string)
    requires LeadingSpace(a) == |a|
    ensures Words(a) == [] && Words(a + y) == Words(y)
  {
    LeadingSpaceAppend(a, y);
    assert (a + y)[LeadingSpace(a + y)..] == y[LeadingSpace(y)..];
    assert a[LeadingSpace(a)..] == [];
  }

  /** The first word of `a` stays the first word when text starting with whitespace follows. */
  lemma FirstWordThenText(a: string, y: string)
    requires y != [] && IsSpace(y[0]) && LeadingSpace(a) < |a|
    ensures var t := a[LeadingSpace(a)..];
            Words(a) == [t[..WordLen(t)]] + Words(t[WordLen(t)..])
            && Words(a + y) == [t[..WordLen(t)]] + Words(t[WordLen(t)..] + y)
  {
    var la := LeadingSpace(a);
    var t := a[la..];
    var n := WordLen(t);
    LeadingSpaceAppend(a, y);
    DropAppend(a, y, la);
    WordLenAppend(t, y);
    TakeAppend(t, y, n);
    DropAppend(t, y, n);
  }

  lemma DropAppend<T>(x: seq<T>, y: seq<T>, k: nat)
    requires k <= |x|
    ensures (x + y)[k..] == x[k..] + y
  {
  }

  lemma TakeAppend<T>(x: seq<T>, y: seq<T>, k: nat)
    requires k <= |x|
    ensures (x + y)[..k] == x[..k]
  {
  }

  lemma {:induction false} LeadingSpaceAppend(x: string, y: string)
    ensures LeadingSpace(x + y) == if LeadingSpace(x) < |x| then LeadingSpace(x) else |x| + LeadingSpace(y)
  {
    if x == [] {
      assert x + y == y;
    } else {
      assert (x + y)[1..] == x[1..] + y;
      LeadingSpaceAppend(x[1..], y);
    }
  }

  lemma {:induction false} WordLenAppend(x: string, y: string)
    requires y != [] && IsSpace(y[0])
    ensures WordLen(x + y) == WordLen(x)
  {
    if x == [] {
      assert x + y == y;
    } else {
      assert (x + y)[1..] == x[1..] + y;
      WordLenAppend(x[1..], y);
    }
  }

  /** Python's `sep.join(xs)`. */
  function Join(xs: seq<string>, sep: string): (r: string)
  {
    if xs == [] then []
    else if |xs| == 1 then xs[0]
    else xs[0] + sep + Join(xs[1..], sep)
  }

  // ---------------------------------------------------------------------------
  // Numbers: the pattern [-+]?\d*\.?\d+ and its value

  /** Number of decimal digits at the front of `s`. */
  function DigitRun(s: string): (n: nat)
    ensures n <= |s|
    ensures forall i :: 0 <= i < n ==> IsDigit(s[i])
    ensures n < |s| ==> !IsDigit(s[n])
  {
    if s != [] && IsDigit(s[0]) then 1 + DigitRun(s[1..]) else 0
  }

  function DigitsValue(d: string): nat
    requires forall i :: 0 <= i < |d| ==> IsDigit(d[i])
  {
    if d == [] then 0
    else
      assert IsDigit(d[|d| - 1]);
      10 * DigitsValue(d[..|d| - 1]) + (d[|d| - 1] as int - '0' as int)
  }

  function Pow10(n: nat): (r: nat)
    ensures r >= 1
  {
    if n == 0 then 1 else 10 * Pow10(n - 1)
  }

  /** The value of the decimal literal with integer digits `a` and fraction digits `b`. */
  function DecimalValue(a: string, b: string): (v: real)
    requires forall i :: 0 <= i < |a| ==> IsDigit(a[i])
    requires forall i :: 0 <= i < |b| ==> IsDigit(b[i])
    ensures v >= 0.0
  {
    var whole, frac, scale := DigitsValue(a) as real, DigitsValue(b) as real, Pow10(|b|) as real;
    assert frac / scale >= 0.0 by {
      assert frac >= 0.0 && scale >= 1.0;
    }
    whole + frac / scale
  }

  /** A match of the number pattern: its value and the number of characters it spans. */
  datatype NumberMatch = NumberMatch(value: real, len: nat)

  /**
   * The match of `\d*\.?\d+` at the very front of `s`, as the backtracking regex
   * engine finds it: digits, then a dot and at least one digit when they follow,
   * else the digits alone; a lone dot needs a digit after it.
   */
  function UnsignedAt(s: string): (m: Option<NumberMatch>)
    ensures m.Some? ==> 1 <= m.value.len <= |s| && m.value.value >= 0.0
    ensures m.Some? <==> s != [] && (IsDigit(s[0]) || (s[0] == '.' && |s| > 1 && IsDigit(s[1])))
  {
    var d := DigitRun(s);
    if d < |s| && s[d] == '.' && DigitRun(s[d + 1..]) > 0 then
      var e := DigitRun(s[d + 1..]);
      Some(NumberMatch(DecimalValue(s[..d], s[d + 1..d + 1 + e]), d + 1 + e))
    else if d > 0 then
      Some(NumberMatch(DigitsValue(s[..d]) as real, d))
    else
      None
  }

  /** `s` starts with a sign character. */
  predicate Signed(s: string) { s != [] && (s[0] == '-' || s[0] == '+') }

  /** The match of `[-+]?\d*\.?\d+` at the very front of `s`, with the sign applied. */
  function NumberAt(s: string): (m: Option<NumberMatch>)
    ensures m.Some? ==> 1 <= m.value.len <= |s|
    ensures Signed(s) ==> m == match UnsignedAt(s[1..])
                              case Some(u) => Some(NumberMatch(if s[0] == '-' then -u.value else u.value, u.len + 1))
                              case None => None
    ensures !Signed(s) ==> m == UnsignedAt(s)
  {
    if s != [] && (s[0] == '-' || s[0] == '+') && UnsignedAt(s[1..]).Some? then
      var u := UnsignedAt(s[1..]).value;
      Some(NumberMatch(if s[0] == '-' then -u.value else u.value, u.len + 1))
    else
      UnsignedAt(s)
  }

  /**
   * The first element of `re.findall(r"[-+]?\d*\.?\d+", s)`: the match that
   * starts leftmost, when there is one.
   */
  function FirstNumber(s: string): (m: Option<real>)
    ensures m.Some? <==> exists k :: 0 <= k < |s| && NumberAt(s[k..]).Some?
    ensures m.Some? ==> exists k :: 0 <= k < |s| && NumberAt(s[k..]).Some? && m.value == NumberAt(s[k..]).value.value
                          && forall j :: 0 <= j < k ==> NumberAt(s[j..]).None?
    decreases |s|
  {
    if s == [] then None
    else if NumberAt(s).Some? then
      assert s[0..] == s;
      Some(NumberAt(s).value.value)
    else
      var m := FirstNumber(s[1..]);
      ShiftedSuffixes(s);
      m
  }

  lemma ShiftedSuffixes(s: string)
    requires s != []
    ensures forall k :: 1 <= k <= |s| ==> s[k..] == s[1..][k - 1..]
  {
  }

  /**
   * Python's `float(x)` / pandas' numeric coercion of a string, restricted to
   * the plain decimal literals `[-+]?\d*\.?\d+` with surrounding whitespace.
   */
  function ParseDecimal(s: string): (r: Option<real>)
    ensures r.Some? <==> NumberAt(Strip(s)).Some? && NumberAt(Strip(s)).value.len == |Strip(s)|
    ensures r.Some? ==> r.value == NumberAt(Strip(s)).value.value
  {
    var t := Strip(s);
    match NumberAt(t)
    case Some(m) => if m.len == |t| then Some(m.value) else None
    case None => None
  }
}
