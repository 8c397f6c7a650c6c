/**
 * String helpers that stand for the Go standard-library calls the core uses:
 * splitting into maximal runs (the path splitter of the metrics middleware and
 * strings.Fields), strings.Split on one character, strings.Join, strconv.Itoa
 * and the UTF-8 byte length that Go's len() returns on a string.
 *
 * Strings are sequences of Unicode scalar values; Go strings are UTF-8 bytes.
 */
module Text {

  /** The separator of URL path segments. */
  predicate IsSlash(c: char) {
    c == '/'
  }

  /** unicode.IsSpace: the Latin-1 spaces and the rest of the White_Space property. */
  predicate IsSpace(c: char) {
    || c == '\t' || c == '\n' || c == '\U{0B}' || c == '\U{0C}' || c == '\r' || c == ' '
    || c == '\U{85}' || c == '\U{A0}' || c == '\U{1680}'
    || ('\U{2000}' <= c <= '\U{200A}')
    || c == '\U{2028}' || c == '\U{2029}' || c == '\U{202F}' || c == '\U{205F}' || c == '\U{3000}'
  }

  predicate SeparatorFree(s: string, sep: char -> bool) {
    forall i | 0 <= i < |s| :: !sep(s[i])
  }

  /** Segments as a splitter produces them: none empty, none holding a separator. */
  predicate ProperSegments(segs: seq<string>, sep: char -> bool) {
    forall k | 0 <= k < |segs| :: segs[k] != [] && SeparatorFree(segs[k], sep)
  }

  /** The number of leading characters of s that are not separators. */
  function RunLength(s: string, sep: char -> bool): (n: nat)
    ensures n <= |s|
    ensures forall i | 0 <= i < n :: !sep(s[i])
    ensures n < |s| ==> sep(s[n])
  {
    if s == [] || sep(s[0]) then 0 else 1 + RunLength(s[1..], sep)
  }

  /** The maximal runs of non-separator characters of s, in order. */
  function Runs(s: string, sep: char -> bool): seq<string>
    decreases |s|
  {
    if s == [] then []
    else if sep(s[0]) then Runs(s[1..], sep)
    else
      var n := RunLength(s, sep);
      [s[..n]] + Runs(s[n..], sep)
  }

  /** The characters of s that are not separators, in order. */
  function Strip(s: string, sep: char -> bool): string {
    if s == [] then [] else (if sep(s[0]) then [] else [s[0]]) + Strip(s[1..], sep)
  }

  function Concat(segs: seq<string>): string {
    if segs == [] then [] else segs[0] + Concat(segs[1..])
  }

  /** Each segment preceded by d: PrefixJoin(["a", "b"], '/') == "/a/b". */
  function PrefixJoin(segs: seq<string>, d: char): string {
    if segs == [] then [] else [d] + segs[0] + PrefixJoin(segs[1..], d)
  }

  lemma {:induction false} RunsAreProper(s: string, sep: char -> bool)
    ensures ProperSegments(Runs(s, sep), sep)
    decreases |s|
  {
    if s == [] {
    } else if sep(s[0]) {
      RunsAreProper(s[1..], sep);
    } else {
      var n := RunLength(s, sep);
      RunsAreProper(s[n..], sep);
      var rest := Runs(s[n..], sep);
      assert Runs(s, sep) == [s[..n]] + rest;
      forall k | 0 <= k < |Runs(s, sep)|
        ensures Runs(s, sep)[k] != [] && SeparatorFree(Runs(s, sep)[k], sep)
      {
        if k > 0 {
          assert Runs(s, sep)[k] == rest[k - 1];
        }
      }
    }
  }

  /** A run that is followed by a separator or by the end of the string. */
  lemma {:induction false} RunLengthOfFreePrefix(a: string, b: string, sep: char -> bool)
    requires SeparatorFree(a, sep)
    requires b == [] || sep(b[0])
    ensures RunLength(a + b, sep) == |a|
    decreases |a|
  {
    if a == [] {
      assert a + b == b;
    } else {
      assert (a + b)[1..] == a[1..] + b;
      RunLengthOfFreePrefix(a[1..], b, sep);
    }
  }

  lemma RunsOfFreePrefix(a: string, b: string, sep: char -> bool)
    requires a != [] && SeparatorFree(a, sep)
    requires b == [] || sep(b[0])
    ensures Runs(a + b, sep) == [a] + Runs(b, sep)
  {
    RunLengthOfFreePrefix(a, b, sep);
    assert (a + b)[..|a|] == a;
    assert (a + b)[|a|..] == b;
  }

  lemma ProperTail(segs: seq<string>, sep: char -> bool)
    requires segs != [] && ProperSegments(segs, sep)
    ensures segs[0] != [] && SeparatorFree(segs[0], sep)
    ensures ProperSegments(segs[1..], sep)
  {
    forall k | 0 <= k < |segs[1..]|
      ensures segs[1..][k] != [] && SeparatorFree(segs[1..][k], sep)
    {
      assert segs[1..][k] == segs[k + 1];
    }
  }

  lemma RunsSkipSeparator(d: char, s: string, sep: char -> bool)
    requires sep(d)
    ensures Runs([d] + s, sep) == Runs(s, sep)
  {
    assert ([d] + s)[1..] == s;
  }

  /** Joining proper segments with a separator and splitting again gives them back. */
  lemma {:induction false} RunsOfPrefixJoin(segs: seq<string>, d: char, sep: char -> bool)
    requires sep(d)
    requires ProperSegments(segs, sep)
    ensures Runs(PrefixJoin(segs, d), sep) == segs
    decreases |segs|
  {
    if segs != [] {
      var rest := PrefixJoin(segs[1..], d);
      ProperTail(segs, sep);
      RunsOfPrefixJoin(segs[1..], d, sep);
      assert PrefixJoin(segs, d) == [d] + (segs[0] + rest);
      RunsSkipSeparator(d, segs[0] + rest, sep);
      assert rest == [] || rest[0] == d;
      RunsOfFreePrefix(segs[0], rest, sep);
      assert segs == [segs[0]] + segs[1..];
    }
  }

  /** Appending one more segment to a PrefixJoin. */
  lemma {:induction false} PrefixJoinSnoc(segs: seq<string>, x: string, d: char)
    ensures PrefixJoin(segs + [x], d) == PrefixJoin(segs, d) + [d] + x
    decreases |segs|
  {
    if segs == [] {
      assert PrefixJoin([x], d) == [d] + x + PrefixJoin([], d);
    } else {
      assert (segs + [x])[1..] == segs[1..] + [x];
      PrefixJoinSnoc(segs[1..], x, d);
    }
  }

  lemma {:induction false} StripAppend(a: string, b: string, sep: char -> bool)
    ensures Strip(a + b, sep) == Strip(a, sep) + Strip(b, sep)
    decreases |a|
  {
    if a == [] {
      assert a + b == b;
    } else {
      assert (a + b)[1..] == a[1..] + b;
      StripAppend(a[1..], b, sep);
    }
  }

  lemma {:induction false} StripOfFree(a: string, sep: char -> bool)
    requires SeparatorFree(a, sep)
    ensures Strip(a, sep) == a
    decreases |a|
  {
    if a != [] {
      StripOfFree(a[1..], sep);
    }
  }

  /** Splitting loses no character other than the separators. */
  lemma {:induction false} RunsKeepEveryCharacter(s: string, sep: char -> bool)
    ensures Concat(Runs(s, sep)) == Strip(s, sep)
    decreases |s|
  {
    if s == [] {
    } else if sep(s[0]) {
      RunsKeepEveryCharacter(s[1..], sep);
    } else {
      var n := RunLength(s, sep);
      RunsKeepEveryCharacter(s[n..], sep);
      assert s == s[..n] + s[n..];
      StripAppend(s[..n], s[n..], sep);
      StripOfFree(s[..n], sep);
    }
  }

  /** The index of the first d in s, or |s| when s holds none. */
  function IndexOf(s: string, d: char): (i: nat)
    ensures i <= |s|
    ensures forall k | 0 <= k < i :: s[k] != d
    ensures i < |s| ==> s[i] == d
  {
    if s == [] then 0 else if s[0] == d then 0 else 1 + IndexOf(s[1..], d)
  }

  /** strings.Split(s, string(d)): the pieces between the occurrences of d, empty ones included. */
  function SplitOn(s: string, d: char): (parts: seq<string>)
    ensures |parts| >= 1
    decreases |s|
  {
    var i := IndexOf(s, d);
    if i == |s| then [s] else [s[..i]] + SplitOn(s[i + 1..], d)
  }

  /** strings.Split gives exactly two pieces when d occurs exactly once: the text before it and the text after. */
  lemma SplitOnTwo(s: string, d: char)
    ensures var i := IndexOf(s, d);
      |SplitOn(s, d)| == 2 <==> i < |s| && d !in s[i + 1..]
    ensures var i := IndexOf(s, d);
      |SplitOn(s, d)| == 2 ==> SplitOn(s, d) == [s[..i], s[i + 1..]]
  {
    var i := IndexOf(s, d);
    if i < |s| {
      var rest := s[i + 1..];
      var j := IndexOf(rest, d);
      assert d in rest <==> j < |rest|;
      if j < |rest| {
        assert |SplitOn(rest, d)| >= 2;
      }
    }
  }

  /** strings.Join(parts, sep). */
  function Join(parts: seq<string>, sep: string): string {
    if parts == [] then []
    else if |parts| == 1 then parts[0]
    else parts[0] + sep + Join(parts[1..], sep)
  }

  function DigitChar(d: nat): (c: char)
    requires d < 10
    ensures '0' <= c <= '9'
  {
    (48 + d) as char
  }

  /** The decimal digits of n, most significant first, without leading zeros. */
  function DecimalString(n: nat): (s: string)
    ensures |s| >= 1
    ensures |s| == 1 <==> n < 10
    ensures forall i | 0 <= i < |s| :: '0' <= s[i] <= '9'
    decreases n
  {
    if n < 10 then [DigitChar(n)] else DecimalString(n / 10) + [DigitChar(n % 10)]
  }

  function Pow10(k: nat): (p: nat)
    ensures p >= 1
  {
    if k == 0 then 1 else 10 * Pow10(k - 1)
  }

  lemma {:induction false} Pow10Monotone(j: nat, k: nat)
    requires j <= k
    ensures Pow10(j) <= Pow10(k)
    decreases k
  {
    if j < k {
      Pow10Monotone(j, k - 1);
    }
  }

  /** A number is below 10 to the power of its digit count. */
  lemma {:induction false} DecimalStringBound(n: nat)
    ensures n < Pow10(|DecimalString(n)|)
    decreases n
  {
    if n >= 10 {
      DecimalStringBound(n / 10);
      assert |DecimalString(n)| == |DecimalString(n / 10)| + 1;
    }
  }

  /** strconv.Itoa. */
  function Itoa(i: int): (s: string)
    ensures |s| >= 1
    ensures forall k | 0 <= k < |s| :: s[k] == '-' || '0' <= s[k] <= '9'
  {
    if i < 0 then "-" + DecimalString(-i) else DecimalString(i)
  }

  /** Different numbers have different decimal strings. */
  lemma {:induction false} DecimalStringInjective(a: nat, b: nat)
    requires DecimalString(a) == DecimalString(b)
    ensures a == b
    decreases a
  {
    if a >= 10 && b >= 10 {
      var sa, sb := DecimalString(a), DecimalString(b);
      assert sa[..|sa| - 1] == DecimalString(a / 10);
      assert sb[..|sb| - 1] == DecimalString(b / 10);
      DecimalStringInjective(a / 10, b / 10);
      assert DigitChar(a % 10) == sa[|sa| - 1] == DigitChar(b % 10);
    }
  }

  /** The number of bytes the UTF-8 encoding of c takes. */
  function Utf8Width(c: char): nat {
    if c as int < 0x80 then 1
    else if c as int < 0x800 then 2
    else if c as int < 0x1_0000 then 3
    else 4
  }

  /** len(s) in Go: the length of the UTF-8 encoding of s. */
  function Utf8Len(s: string): nat {
    if s == [] then 0 else Utf8Width(s[0]) + Utf8Len(s[1..])
  }

  /** Between one and four bytes per character. */
  lemma {:induction false} Utf8LenBounds(s: string)
    ensures |s| <= Utf8Len(s) <= 4 * |s|
    ensures (forall i | 0 <= i < |s| :: s[i] as int < 0x80) ==> Utf8Len(s) == |s|
  {
    if s != [] {
      Utf8LenBounds(s[1..]);
    }
  }
}
