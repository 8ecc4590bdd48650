/** Character classes and small string operations shared by every extractor.
    Strings are `seq<char>` (Unicode scalar values), as Python 3 `str` values are. */
module Lex {

  /** Python's `\s` for str patterns, which is also what `str.strip()` and
      `str.isspace()` treat as whitespace: U+0009..U+000D, U+001C..U+0020, U+0085,
      U+00A0, U+1680, U+2000..U+200A, U+2028, U+2029, U+202F, U+205F, U+3000. */
  predicate IsSpace(c: char) {
    || ('\t' <= c <= '\r')
    || ('\U{1C}' <= c <= ' ')
    || c == '\U{85}' || c == '\U{A0}' || c == '\U{1680}'
    || ('\U{2000}' <= c <= '\U{200A}')
    || c == '\U{2028}' || c == '\U{2029}' || c == '\U{202F}' || c == '\U{205F}' || c == '\U{3000}'
  }

  /** `\S` */
  predicate IsNonSpace(c: char) { !IsSpace(c) }

  /** `\d`, restricted to the ASCII digits. */
  predicate IsDigit(c: char) { '0' <= c <= '9' }

  /** `[A-Z]` */
  predicate IsUpper(c: char) { 'A' <= c <= 'Z' }

  /** `\w`, restricted to ASCII letters, digits and `_`. */
  predicate IsWordChar(c: char) { IsDigit(c) || IsUpper(c) || ('a' <= c <= 'z') || c == '_' }

  /** `[RM0-9,\.]`, the characters of a charge token. */
  predicate IsChargeChar(c: char) { c == 'R' || c == 'M' || IsDigit(c) || c == ',' || c == '.' }

  /** `[\d.,]`, the characters of an amount. */
  predicate IsAmountChar(c: char) { IsDigit(c) || c == '.' || c == ',' }

  /** `[\d,]`: the characters a comma-grouped numeral is made of. */
  predicate IsDigitOrComma(c: char) { IsDigit(c) || c == ',' }

  /** The line boundaries of Python's `str.splitlines()`. */
  predicate IsLineBreak(c: char) {
    c == '\n' || c == '\r' || c == '\U{0B}' || c == '\U{0C}'
    || c == '\U{1C}' || c == '\U{1D}' || c == '\U{1E}'
    || c == '\U{85}' || c == '\U{2028}' || c == '\U{2029}'
  }

  predicate IsLineChar(c: char) { !IsLineBreak(c) }

  predicate All(s: string, p: char -> bool) {
    forall i :: 0 <= i < |s| ==> p(s[i])
  }

  predicate HasPrefix(s: string, p: string) {
    |p| <= |s| && s[..|p|] == p
  }

  /** `p` occurs in `text` starting at index `i`. */
  predicate HasAt(text: string, i: nat, p: string) {
    i <= |text| && HasPrefix(text[i..], p)
  }

  lemma DropConcat(a: string, b: string)
    ensures (a + b)[|a|..] == b
  {
  }

  lemma ConcatAssoc(a: string, b: string, c: string)
    ensures a + b + c == a + (b + c)
  {
  }

  /** Python's `p in s`. */
  predicate Contains(s: string, p: string)
    decreases |s|
  {
    HasPrefix(s, p) || (|s| > 0 && Contains(s[1..], p))
  }

  /** An occurrence anywhere makes `p in s` true. */
  lemma {:induction false} ContainsAt(s: string, i: nat, p: string)
    requires HasAt(s, i, p)
    ensures Contains(s, p)
    decreases i
  {
    if i > 0 {
      assert s[1..][i - 1..] == s[i..];
      ContainsAt(s[1..], i - 1, p);
    } else {
      assert s[0..] == s;
    }
  }

  /** A phrase that occurs at no position is not contained. */
  lemma {:induction false} AbsentEverywhere(s: string, p: string)
    requires forall i: nat :: i <= |s| ==> !HasAt(s, i, p)
    ensures !Contains(s, p)
    decreases |s|
  {
    assert s[0..] == s;
    assert !HasAt(s, 0, p);
    if |s| > 0 {
      forall i: nat | i <= |s[1..]| ensures !HasAt(s[1..], i, p) {
        assert s[1..][i..] == s[1 + i..];
        assert !HasAt(s, 1 + i, p);
      }
      AbsentEverywhere(s[1..], p);
    }
  }

  /** A phrase whose first character is missing from a text is not in it. */
  lemma FirstCharMissing(s: string, p: string)
    requires |p| > 0 && p[0] !in s
    ensures !Contains(s, p)
  {
    forall i: nat | i <= |s| ensures !HasAt(s, i, p) {
      if i + |p| <= |s| {
        assert s[i..][..|p|][0] == s[i];
      }
    }
    AbsentEverywhere(s, p);
  }

  /** The length of the longest prefix of `s` whose characters all satisfy `p`:
      what a greedy `[...]*` takes. */
  function RunLen(s: string, p: char -> bool): (r: nat)
    ensures r <= |s|
    ensures All(s[..r], p)
    ensures r < |s| ==> !p(s[r])
    decreases |s|
  {
    if |s| > 0 && p(s[0]) then 1 + RunLen(s[1..], p) else 0
  }

  lemma RunLenPositive(s: string, p: char -> bool)
    requires |s| > 0 && p(s[0])
    ensures RunLen(s, p) > 0
  {
  }

  /** The length of the longest suffix of `s` whose characters all satisfy `p`. */
  function RunLenBack(s: string, p: char -> bool): (r: nat)
    ensures r <= |s|
    ensures All(s[|s| - r..], p)
    ensures r < |s| ==> !p(s[|s| - r - 1])
    decreases |s|
  {
    if |s| > 0 && p(s[|s| - 1]) then
      var t := s[..|s| - 1];
      var n := RunLenBack(t, p);
      assert s[|s| - (n + 1)..] == t[|t| - n..] + [s[|s| - 1]];
      assert n < |t| ==> s[|s| - (n + 1) - 1] == t[|t| - n - 1];
      1 + n
    else 0
  }

  /** A run stops exactly at the end of a block of matching characters. */
  lemma {:induction false} RunLenConcat(a: string, b: string, p: char -> bool)
    requires All(a, p)
    requires b == [] || !p(b[0])
    ensures RunLen(a + b, p) == |a|
    decreases |a|
  {
    if |a| > 0 {
      assert (a + b)[1..] == a[1..] + b;
      RunLenConcat(a[1..], b, p);
    } else {
      assert a + b == b;
    }
  }

  /** A run stops at the first character outside the class. */
  lemma {:induction false} RunStopsAt(s: string, p: char -> bool, k: nat)
    requires k < |s| && !p(s[k])
    ensures RunLen(s, p) <= k
    decreases k
  {
    if k > 0 && p(s[0]) {
      assert s[1..][k - 1] == s[k];
      RunStopsAt(s[1..], p, k - 1);
    }
  }

  /** Python's `str.strip()`. */
  function Strip(s: string): (r: string)
    ensures exists a, b :: 0 <= a <= b <= |s| && r == s[a..b] && All(s[..a], IsSpace) && All(s[b..], IsSpace)
    ensures r == [] || (!IsSpace(r[0]) && !IsSpace(r[|r| - 1]))
  {
    var a := RunLen(s, IsSpace);
    var t := s[a..];
    var n := RunLenBack(t, IsSpace);
    assert a == |s| ==> t == [];
    assert s[a..][..|t| - n] == s[a..a + |t| - n];
    assert s[a + |t| - n..] == t[|t| - n..];
    t[..|t| - n]
  }

  /** Python's `s.replace(c, "")` for a one-character `c`. */
  function Remove(s: string, c: char): (r: string)
    ensures |r| <= |s|
    ensures c !in r
    ensures forall x :: x in r <==> x in s && x != c
    ensures c !in s ==> r == s
    decreases |s|
  {
    if s == [] then []
    else (if s[0] == c then [] else [s[0]]) + Remove(s[1..], c)
  }

  /** Python's `sep.join(xs)`. */
  function Join(xs: seq<string>, sep: string): string
    decreases |xs|
  {
    if |xs| == 0 then "" else if |xs| == 1 then xs[0] else xs[0] + sep + Join(xs[1..], sep)
  }

  function DigitValue(c: char): (d: nat)
    requires IsDigit(c)
    ensures d < 10
  {
    c as int - '0' as int
  }

  /** Python's `int(s)` on a string of ASCII digits (most significant first). */
  function DecimalValue(s: string): nat
    requires All(s, IsDigit)
    decreases |s|
  {
    if s == [] then 0 else DecimalValue(s[..|s| - 1]) * 10 + DigitValue(s[|s| - 1])
  }

  function Pow10(n: nat): (r: nat)
    ensures r >= 1
  {
    if n == 0 then 1 else 10 * Pow10(n - 1)
  }

  /** Reading a numeral in two halves: the digits of the right half are worth
      one unit each, those of the left half 10^|right| each. */
  lemma {:induction false} DecimalValueConcat(a: string, b: string)
    requires All(a, IsDigit) && All(b, IsDigit)
    ensures All(a + b, IsDigit)
    ensures DecimalValue(a + b) == DecimalValue(a) * Pow10(|b|) + DecimalValue(b)
    decreases |b|
  {
    assert All(a + b, IsDigit);
    if b == [] {
      assert a + b == a;
    } else {
      var b' := b[..|b| - 1];
      assert All(b', IsDigit);
      assert (a + b)[..|a + b| - 1] == a + b';
      assert (a + b)[|a + b| - 1] == b[|b| - 1];
      DecimalValueConcat(a, b');
      var va, vb, d, p := DecimalValue(a), DecimalValue(b'), DigitValue(b[|b| - 1]), Pow10(|b'|);
      var x, y := DecimalValue(a + b), DecimalValue(a + b');
      assert x == y * 10 + d;
      assert DecimalValue(b) == vb * 10 + d;
      assert Pow10(|b|) == p * 10;
      Distribute(x, y, va, p, vb, d);
    }
  }

  /** One more digit on the right of a two-part reading. */
  lemma Distribute(x: int, y: int, va: int, p: int, vb: int, d: int)
    requires x == y * 10 + d && y == va * p + vb
    ensures x == va * (p * 10) + (vb * 10 + d)
  {
  }

  /** Python's `str.splitlines()`: lines without their terminators, `\r\n` counting as
      one boundary and a final terminator not starting a further (empty) line. */
  function SplitLines(s: string): (lines: seq<string>)
    ensures forall i :: 0 <= i < |lines| ==> All(lines[i], IsLineChar)
    ensures s == [] <==> lines == []
    decreases |s|
  {
    if s == [] then []
    else
      var k := RunLen(s, IsLineChar);
      if k == |s| then [s]
      else
        var boundary := if s[k] == '\r' && k + 1 < |s| && s[k + 1] == '\n' then 2 else 1;
        [s[..k]] + SplitLines(s[k + boundary..])
  }

  /** A line without a break, then "\n", starts the line list. */
  lemma SplitLinesCons(a: string, rest: string)
    requires All(a, IsLineChar)
    ensures SplitLines(a + "\n" + rest) == [a] + SplitLines(rest)
  {
    var s := a + "\n" + rest;
    assert s == a + ("\n" + rest);
    RunLenConcat(a, "\n" + rest, IsLineChar);
    assert s[|a|] == '\n';
    assert s[..|a|] == a;
    assert s[|a| + 1..] == rest;
  }

  /** Joining line-free strings with a line-free separator gives a line-free string. */
  lemma {:induction false} JoinAll(xs: seq<string>, sep: string, p: char -> bool)
    requires forall i :: 0 <= i < |xs| ==> All(xs[i], p)
    requires All(sep, p)
    ensures All(Join(xs, sep), p)
    decreases |xs|
  {
    if |xs| > 1 {
      JoinAll(xs[1..], sep, p);
      var j := Join(xs[1..], sep);
      assert forall k :: 0 <= k < |xs[0] + sep + j| ==> p((xs[0] + sep + j)[k]) by {
        forall k | 0 <= k < |xs[0] + sep + j| ensures p((xs[0] + sep + j)[k]) {
          if k < |xs[0]| {
            assert (xs[0] + sep + j)[k] == xs[0][k];
          } else if k < |xs[0]| + |sep| {
            assert (xs[0] + sep + j)[k] == sep[k - |xs[0]|];
          } else {
            assert (xs[0] + sep + j)[k] == j[k - |xs[0]| - |sep|];
          }
        }
      }
    }
  }

  /** Writing each string followed by "\n", as successive `f.write(x + '\n')` do. */
  function WriteLines(xs: seq<string>): string
    decreases |xs|
  {
    if xs == [] then "" else xs[0] + "\n" + WriteLines(xs[1..])
  }

  /** Lines written without breaks of their own are read back by splitlines. */
  lemma {:induction false} SplitWrittenLines(xs: seq<string>)
    requires forall i :: 0 <= i < |xs| ==> All(xs[i], IsLineChar)
    ensures SplitLines(WriteLines(xs)) == xs
    decreases |xs|
  {
    if xs != [] {
      SplitLinesCons(xs[0], WriteLines(xs[1..]));
      SplitWrittenLines(xs[1..]);
    }
  }

  /** `replace` works on the two halves of a string separately. */
  lemma {:induction false} RemoveConcat(a: string, b: string, c: char)
    ensures Remove(a + b, c) == Remove(a, c) + Remove(b, c)
    decreases |a|
  {
    if a == [] {
      assert a + b == b;
    } else {
      assert (a + b)[0] == a[0] && (a + b)[1..] == a[1..] + b;
      RemoveConcat(a[1..], b, c);
      ConcatAssoc(if a[0] == c then [] else [a[0]], Remove(a[1..], c), Remove(b, c));
    }
  }

  /** Removing the only character a string is made of leaves nothing. */
  lemma {:induction false} RemoveOnly(s: string, c: char)
    requires forall i :: 0 <= i < |s| ==> s[i] == c
    ensures Remove(s, c) == []
    decreases |s|
  {
    if s != [] {
      RemoveOnly(s[1..], c);
    }
  }
}
