/**
 The JavaScript string built-ins that the turbo-log helpers rely on, written
 out as functions over `string` (a sequence of Unicode scalar values):
 the `\s` character class of regular expressions, `String.prototype.split`
 with a one-character separator followed by `Array.prototype.pop`,
 `String.prototype.toLowerCase` on ASCII letters, and the decimal text that a
 template literal produces for an integer.
 */
module JsText {

  // ---------------------------------------------------------------------------
  // Prefixes, suffixes and whitespace
  // ---------------------------------------------------------------------------

  predicate StartsWith(s: string, prefix: string) {
    |prefix| <= |s| && s[..|prefix|] == prefix
  }

  predicate EndsWith(s: string, suffix: string) {
    |suffix| <= |s| && s[|s| - |suffix|..] == suffix
  }

  lemma StartsWithConcat(a: string, b: string)
    ensures StartsWith(a + b, a)
  {
    assert (a + b)[..|a|] == a;
  }

  lemma EndsWithConcat(a: string, b: string)
    ensures EndsWith(a + b, b)
  {
    assert (a + b)[|a|..] == b;
  }

  lemma StartsWithInside(q: string, s: string, prefix: string, t: string)
    requires StartsWith(s, prefix)
    ensures StartsWith(q + s + t, q + prefix)
  {
    assert (q + s + t)[..|q + prefix|] == q + s[..|prefix|];
  }

  lemma EndsWithPrepend(p: string, s: string, suffix: string)
    requires EndsWith(s, suffix)
    ensures EndsWith(p + s, suffix)
  {
    assert (p + s)[|p + s| - |suffix|..] == s[|s| - |suffix|..];
  }

  lemma EndsWithAppend(s: string, suffix: string, t: string)
    requires EndsWith(s, suffix)
    ensures EndsWith(s + t, suffix + t)
  {
    assert (s + t)[|s + t| - |suffix + t|..] == s[|s| - |suffix|..] + t;
  }

  /** A character of a suffix is a character of the whole. */
  lemma InSuffix(s: string, suffix: string, c: char)
    requires EndsWith(s, suffix) && c in suffix
    ensures c in s
  {
    var i :| 0 <= i < |suffix| && suffix[i] == c;
    assert s[|s| - |suffix| + i] == c;
  }

  /** The characters matched by `\s` in a JavaScript regular expression:
      the WhiteSpace and LineTerminator code points of ECMAScript. */
  predicate IsSpace(c: char)
    ensures IsSpace(c) ==> c < '!' || c >= '\U{A0}'
    ensures c == ' ' || c == '\t' ==> IsSpace(c)
  {
    || c == '\t' || c == '\n' || c == '\U{B}' || c == '\U{C}' || c == '\r' || c == ' '
    || c == '\U{A0}' || c == '\U{1680}' || ('\U{2000}' <= c <= '\U{200A}')
    || c == '\U{2028}' || c == '\U{2029}' || c == '\U{202F}' || c == '\U{205F}'
    || c == '\U{3000}' || c == '\U{FEFF}'
  }

  predicate AllSpace(s: string) {
    forall i :: 0 <= i < |s| ==> IsSpace(s[i])
  }

  // ---------------------------------------------------------------------------
  // split(sep) and pop()
  // ---------------------------------------------------------------------------

  /** `s.split(sep)` for a one-character separator: the pieces between the
      separators, in order. There is always at least one piece (the empty
      string splits into `[""]`), and no piece holds the separator. */
  function Split(s: string, sep: char): (parts: seq<string>)
    ensures |parts| >= 1
    ensures forall i :: 0 <= i < |parts| ==> sep !in parts[i]
    decreases |s|
  {
    if |s| == 0 then [""]
    else
      var rest := Split(s[1..], sep);
      if s[0] == sep then [""] + rest
      else [[s[0]] + rest[0]] + rest[1..]
  }

  /** `parts.join(sep)`: the inverse of Split. */
  function Join(parts: seq<string>, sep: char): string
    requires |parts| >= 1
  {
    if |parts| == 1 then parts[0] else parts[0] + [sep] + Join(parts[1..], sep)
  }

  /** Splitting and joining again gives back the original text. */
  lemma {:induction false} JoinSplit(s: string, sep: char)
    ensures Join(Split(s, sep), sep) == s
    decreases |s|
  {
    if |s| > 0 {
      JoinSplit(s[1..], sep);
      var rest := Split(s[1..], sep);
      if s[0] != sep {
        if |rest| > 1 {
          assert rest == [rest[0]] + rest[1..];
          assert Join(rest, sep) == rest[0] + [sep] + Join(rest[1..], sep);
        }
        assert s == [s[0]] + s[1..];
      } else {
        assert s == [sep] + s[1..];
      }
    }
  }

  /** A piece free of the separator, followed by the separator, splits off as one piece. */
  lemma {:induction false} SplitAfterPiece(w: string, sep: char, t: string)
    requires sep !in w
    ensures Split(w + [sep] + t, sep) == [w] + Split(t, sep)
    decreases |w|
  {
    if |w| > 0 {
      SplitAfterPiece(w[1..], sep, t);
      assert w[0] != sep;
      assert w == [w[0]] + w[1..];
      assert (w + [sep] + t)[1..] == w[1..] + [sep] + t;
    } else {
      assert w + [sep] + t == [sep] + t;
    }
  }

  /** Text without the separator splits into itself alone. */
  lemma {:induction false} SplitNoSeparator(w: string, sep: char)
    requires sep !in w
    ensures Split(w, sep) == [w]
    decreases |w|
  {
    if |w| > 0 {
      SplitNoSeparator(w[1..], sep);
      assert w == [w[0]] + w[1..];
    }
  }

  /** Joining pieces that do not hold the separator and splitting again gives back the pieces. */
  lemma {:induction false} SplitJoin(parts: seq<string>, sep: char)
    requires |parts| >= 1
    requires forall i :: 0 <= i < |parts| ==> sep !in parts[i]
    ensures Split(Join(parts, sep), sep) == parts
  {
    if |parts| == 1 {
      SplitNoSeparator(parts[0], sep);
    } else {
      SplitJoin(parts[1..], sep);
      SplitAfterPiece(parts[0], sep, Join(parts[1..], sep));
    }
  }

  /** The value of `xs.pop()` on a non-empty array. */
  function Last<T>(xs: seq<T>): T
    requires |xs| >= 1
  {
    xs[|xs| - 1]
  }

  /** `s.split(sep).pop()`: the text after the last separator, or all of `s`
      when there is none. */
  function AfterLast(s: string, sep: char): (r: string)
    ensures sep !in r
  {
    Last(Split(s, sep))
  }

  /** What `s.split(sep).pop()` is, stated without Split: a suffix of `s` that
      holds no separator and is either all of `s` or preceded by a separator. */
  lemma {:induction false} AfterLastIsLastSegment(s: string, sep: char)
    ensures var r := AfterLast(s, sep);
      && sep !in r
      && EndsWith(s, r)
      && (|r| == |s| || s[|s| - |r| - 1] == sep)
    decreases |s|
  {
    if |s| > 0 {
      AfterLastIsLastSegment(s[1..], sep);
      var rest := Split(s[1..], sep);
      var r := AfterLast(s, sep);
      if s[0] == sep {
        assert r == Last(rest);
      } else if |rest| > 1 {
        assert sep in s[1..] by {
          if sep !in s[1..] { SplitNoSeparator(s[1..], sep); }
        }
        assert r == Last(rest);
      } else {
        JoinSplit(s[1..], sep);
        assert rest == [rest[0]];
        assert rest[0] == s[1..];
        assert r == [s[0]] + s[1..] == s;
      }
    }
  }

  /** Text with no separator is its own last segment. */
  lemma AfterLastNoSeparator(s: string, sep: char)
    requires sep !in s
    ensures AfterLast(s, sep) == s
  {
    SplitNoSeparator(s, sep);
  }

  /** The description in AfterLastIsLastSegment singles out the last segment. */
  lemma LastSegmentUnique(s: string, sep: char, r: string)
    requires sep !in r && EndsWith(s, r)
    requires |r| == |s| || s[|s| - |r| - 1] == sep
    ensures r == AfterLast(s, sep)
  {
    var g := AfterLast(s, sep);
    AfterLastIsLastSegment(s, sep);
    forall j | |s| - |g| <= j < |s| ensures s[j] != sep {
      assert s[j] == g[j - (|s| - |g|)];
    }
    forall j | |s| - |r| <= j < |s| ensures s[j] != sep {
      assert s[j] == r[j - (|s| - |r|)];
    }
    assert |r| == |g|;
    assert r == s[|s| - |r|..] == g;
  }

  /** Whatever comes before the last separator does not matter. */
  lemma AfterLastOfAppended(front: string, sep: char, tail: string)
    requires sep !in tail
    ensures AfterLast(front + [sep] + tail, sep) == tail
  {
    var s := front + [sep] + tail;
    assert s[|s| - |tail|..] == tail;
    assert s[|s| - |tail| - 1] == sep;
    LastSegmentUnique(s, sep, tail);
  }

  // ---------------------------------------------------------------------------
  // toLowerCase on ASCII letters
  // ---------------------------------------------------------------------------

  function LowerChar(c: char): char {
    if 'A' <= c <= 'Z' then (c as int + 32) as char else c
  }

  /** `s.toLowerCase()` restricted to the ASCII letters: `A`..`Z` become
      `a`..`z`, every other character is kept. */
  function ToLower(s: string): (r: string)
    ensures |r| == |s|
    ensures forall i :: 0 <= i < |s| ==> r[i] == LowerChar(s[i])
    ensures forall i :: 0 <= i < |s| ==> !('A' <= r[i] <= 'Z')
    ensures forall i :: 0 <= i < |s| && !('A' <= s[i] <= 'Z') ==> r[i] == s[i]
    decreases |s|
  {
    if |s| == 0 then "" else [LowerChar(s[0])] + ToLower(s[1..])
  }

  /** Lower-casing twice is lower-casing once. */
  lemma {:induction false} ToLowerIdempotent(s: string)
    ensures ToLower(ToLower(s)) == ToLower(s)
    decreases |s|
  {
    if |s| > 0 {
      ToLowerIdempotent(s[1..]);
      assert ToLower(s)[1..] == ToLower(s[1..]);
    }
  }

  /** Lower-casing a suffix gives the suffix of the lower-cased text. */
  lemma ToLowerSuffix(s: string, k: nat)
    requires k <= |s|
    ensures ToLower(s)[k..] == ToLower(s[k..])
  {
    assert forall i :: 0 <= i < |s| - k ==> ToLower(s)[k..][i] == ToLower(s[k..])[i];
  }

  /** Lower-casing changes letters only, so it commutes with taking the
      segment after a separator that is not a letter. */
  lemma AfterLastToLower(s: string, sep: char)
    requires !('A' <= sep <= 'Z') && !('a' <= sep <= 'z')
    ensures AfterLast(ToLower(s), sep) == ToLower(AfterLast(s, sep))
  {
    var g := AfterLast(s, sep);
    var lo := ToLower(s);
    var r := ToLower(g);
    AfterLastIsLastSegment(s, sep);
    assert forall i :: 0 <= i < |r| ==> r[i] != sep;
    ToLowerSuffix(s, |s| - |g|);
    assert EndsWith(lo, r);
    LastSegmentUnique(lo, sep, r);
  }

  // ---------------------------------------------------------------------------
  // Decimal text of integers
  // ---------------------------------------------------------------------------

  predicate IsDigit(c: char) {
    '0' <= c <= '9'
  }

  function DigitChar(d: nat): (c: char)
    requires d < 10
    ensures IsDigit(c)
  {
    ('0' as int + d) as char
  }

  function DigitValue(c: char): (d: nat)
    requires IsDigit(c)
    ensures d < 10 && DigitChar(d) == c
  {
    c as int - '0' as int
  }

  /** The decimal digits of `n`, most significant first, without leading zeros. */
  function NatToDecimal(n: nat): (r: string)
    ensures |r| >= 1
    ensures forall i :: 0 <= i < |r| ==> IsDigit(r[i])
    ensures r[0] == '0' ==> n == 0
  {
    if n < 10 then [DigitChar(n)] else NatToDecimal(n / 10) + [DigitChar(n % 10)]
  }

  /** Reading a string of digits as a number: the partner of NatToDecimal. */
  function DecimalValue(s: string): nat
    requires forall i :: 0 <= i < |s| ==> IsDigit(s[i])
  {
    if |s| == 0 then 0 else 10 * DecimalValue(s[..|s| - 1]) + DigitValue(s[|s| - 1])
  }

  lemma {:induction false} DecimalRoundTrip(n: nat)
    ensures DecimalValue(NatToDecimal(n)) == n
  {
    if n >= 10 {
      DecimalRoundTrip(n / 10);
      var r := NatToDecimal(n);
      assert r[..|r| - 1] == NatToDecimal(n / 10);
    }
  }

  /** The text `${n}` of an integer `n`: a minus sign for negative numbers,
      then the decimal digits of its magnitude. */
  function IntToDecimal(n: int): (r: string)
    ensures |r| >= 1
    ensures '\n' !in r
    ensures (r[0] == '-') == (n < 0)
  {
    if n < 0 then "-" + NatToDecimal(-n) else NatToDecimal(n)
  }

  lemma NatToDecimalInjective(a: nat, b: nat)
    requires NatToDecimal(a) == NatToDecimal(b)
    ensures a == b
  {
    DecimalRoundTrip(a);
    DecimalRoundTrip(b);
  }

  /** Distinct numbers print as distinct text. */
  lemma IntToDecimalInjective(a: int, b: int)
    requires IntToDecimal(a) == IntToDecimal(b)
    ensures a == b
  {
    var t := IntToDecimal(a);
    if a < 0 {
      assert b < 0;
      assert NatToDecimal(-a) == t[1..] == NatToDecimal(-b);
      NatToDecimalInjective(-a, -b);
    } else {
      assert b >= 0;
      NatToDecimalInjective(a, b);
    }
  }
}
