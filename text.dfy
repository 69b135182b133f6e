/**
 * String operations the pages call: `toLowerCase` (restricted to ASCII letters),
 * `includes`, `replace` with a one-character string pattern, `parseInt` of a run
 * of decimal digits, and the decimal rendering of a number in a template literal.
 */
module Text {

  predicate IsUpper(c: char) { 'A' <= c <= 'Z' }

  predicate IsDigit(c: char) { '0' <= c <= '9' }

  function LowerChar(c: char): char {
    if IsUpper(c) then (c as int + 32) as char else c
  }

  /** `s.toLowerCase()` for ASCII: each capital letter becomes its small letter, nothing else moves. */
  function ToLower(s: string): (r: string)
    ensures |r| == |s|
    ensures forall i :: 0 <= i < |s| ==> r[i] == LowerChar(s[i])
  {
    seq(|s|, i requires 0 <= i < |s| => LowerChar(s[i]))
  }

  /** What lower-casing does to each character: capitals move down by 32, the rest stay. */
  lemma ToLowerLetters(s: string)
    ensures forall i :: 0 <= i < |s| ==> !IsUpper(ToLower(s)[i])
    ensures forall i :: 0 <= i < |s| && !IsUpper(s[i]) ==> ToLower(s)[i] == s[i]
    ensures forall i :: 0 <= i < |s| && IsUpper(s[i]) ==> ToLower(s)[i] as int == s[i] as int + 32
  {
  }

  /** Lower-casing twice is lower-casing once. */
  lemma ToLowerIdempotent(s: string)
    ensures ToLower(ToLower(s)) == ToLower(s)
  {
  }

  /** `hay[i..]` starts with `needle`. */
  predicate MatchesAt(hay: string, needle: string, i: int) {
    0 <= i && i + |needle| <= |hay| && hay[i..i + |needle|] == needle
  }

  /** `hay.includes(needle)`: some position of `hay` starts an occurrence of `needle`. */
  function Contains(hay: string, needle: string): (r: bool)
    ensures r <==> exists i :: MatchesAt(hay, needle, i)
    decreases |hay|
  {
    if MatchesAt(hay, needle, 0) then true
    else if |hay| == 0 then false
    else
      var r := Contains(hay[1..], needle);
      assert r ==> exists i :: MatchesAt(hay, needle, i) by {
        if r {
          var i :| MatchesAt(hay[1..], needle, i);
          assert hay[1..][i..i + |needle|] == hay[i + 1..i + 1 + |needle|];
          assert MatchesAt(hay, needle, i + 1);
        }
      }
      assert (exists i :: MatchesAt(hay, needle, i)) ==> r by {
        if exists i :: MatchesAt(hay, needle, i) {
          var i :| MatchesAt(hay, needle, i);
          assert i != 0;
          assert hay[1..][i - 1..i - 1 + |needle|] == hay[i..i + |needle|];
          assert MatchesAt(hay[1..], needle, i - 1);
        }
      }
      r
  }

  /** The empty string occurs in every string. */
  lemma ContainsEmpty(hay: string)
    ensures Contains(hay, "")
  {
    assert MatchesAt(hay, "", 0);
  }

  /** A string that contains `a + b` contains `a`. */
  lemma ContainsPrefixOf(hay: string, a: string, b: string)
    requires Contains(hay, a + b)
    ensures Contains(hay, a)
  {
    var i :| MatchesAt(hay, a + b, i);
    assert hay[i..i + |a|] == (a + b)[..|a|];
    assert MatchesAt(hay, a, i);
  }

  /** Lower-casing works character by character, so it distributes over concatenation. */
  lemma ToLowerAppend(a: string, b: string)
    ensures ToLower(a + b) == ToLower(a) + ToLower(b)
  {
  }

  /** Position of the first occurrence of `c` in `s`. */
  function IndexOf(s: string, c: char): (i: nat)
    requires c in s
    ensures i < |s| && s[i] == c
    ensures forall j :: 0 <= j < i ==> s[j] != c
  {
    if s[0] == c then 0 else 1 + IndexOf(s[1..], c)
  }

  /** The first field of `s.split(c)`: everything before the first `c`. */
  function FieldBefore(s: string, c: char): (r: string)
    ensures c !in r
    ensures c !in s ==> r == s
    ensures c in s ==> |r| < |s| && s == r + [c] + s[|r| + 1..]
  {
    if c in s then s[..IndexOf(s, c)] else s
  }

  /** Everything after the first `c` of `s`: the second and later fields of `s.split(c)`. */
  function FieldAfter(s: string, c: char): string
    requires c in s
  {
    s[IndexOf(s, c) + 1..]
  }

  /** Splitting at the first separator undoes joining with it when the left part has none. */
  lemma FieldsOfJoin(a: string, c: char, b: string)
    requires c !in a
    ensures c in a + [c] + b
    ensures FieldBefore(a + [c] + b, c) == a && FieldAfter(a + [c] + b, c) == b
  {
    var s := a + [c] + b;
    assert s[|a|] == c;
    assert forall j :: 0 <= j < |a| ==> s[j] == a[j];
  }

  /**
   * `s.replace(a, b)` with one-character string arguments: only the first
   * occurrence of `a` is replaced.
   */
  function ReplaceFirst(s: string, a: char, b: char): (r: string)
    ensures |r| == |s|
    ensures forall i :: 0 <= i < |s| ==>
      r[i] == if s[i] == a && (forall j :: 0 <= j < i ==> s[j] != a) then b else s[i]
  {
    if a in s then s[..IndexOf(s, a)] + [b] + s[IndexOf(s, a) + 1..] else s
  }

  /** Replacing the first `c` of `a + [c] + b`, where `a` has none, replaces that separator. */
  lemma ReplaceFirstJoin(a: string, c: char, d: char, b: string)
    requires c !in a
    ensures ReplaceFirst(a + [c] + b, c, d) == a + [d] + b
  {
    FieldsOfJoin(a, c, b);
  }

  function Digit(d: nat): (c: char)
    requires d < 10
    ensures IsDigit(c)
  {
    ('0' as int + d) as char
  }

  function DigitValue(c: char): (d: nat)
    requires IsDigit(c)
    ensures d < 10 && Digit(d) == c
  {
    c as int - '0' as int
  }

  predicate AllDigits(s: string) {
    forall i :: 0 <= i < |s| ==> IsDigit(s[i])
  }

  /** The value of a run of decimal digits (`parseInt(s)` when `s` is only digits). */
  function DigitsValue(s: string): nat
    requires AllDigits(s)
  {
    if s == [] then 0 else 10 * DigitsValue(s[..|s| - 1]) + DigitValue(s[|s| - 1])
  }

  /** `${n}` for a natural number: decimal digits without leading zeros. */
  function DecimalString(n: nat): (r: string)
    ensures 1 <= |r| && AllDigits(r)
    ensures |r| > 1 ==> r[0] != '0'
    ensures n >= 10 <==> |r| > 1
  {
    if n < 10 then [Digit(n)] else DecimalString(n / 10) + [Digit(n % 10)]
  }

  /** Reading back the rendered digits gives the number. */
  lemma {:induction false} DecimalRoundTrip(n: nat)
    ensures DigitsValue(DecimalString(n)) == n
  {
    if n >= 10 {
      var s := DecimalString(n);
      assert s[..|s| - 1] == DecimalString(n / 10);
      DecimalRoundTrip(n / 10);
    }
  }

  /** Digits without a leading zero are the decimal text of their own value. */
  lemma {:induction false} CanonicalDigits(s: string)
    requires s != [] && AllDigits(s) && (|s| > 1 ==> s[0] != '0')
    ensures DecimalString(DigitsValue(s)) == s
    decreases |s|
  {
    var init, c := s[..|s| - 1], s[|s| - 1];
    assert s == init + [c];
    if |s| > 1 {
      assert init[0] == s[0] && AllDigits(init);
      CanonicalDigits(init);
      var v := DigitsValue(init);
      assert DecimalString(v) == init;
      assert DecimalString(0) == ['0'];
      assert v != 0;
      var n := DigitsValue(s);
      assert n == 10 * v + DigitValue(c);
      assert n / 10 == v && n % 10 == DigitValue(c);
    }
  }

  /** Two numbers render the same only if they are equal. */
  lemma DecimalInjective(m: nat, n: nat)
    requires DecimalString(m) == DecimalString(n)
    ensures m == n
  {
    DecimalRoundTrip(m);
    DecimalRoundTrip(n);
  }
}
