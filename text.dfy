/**
 * Character and string helpers shared by the scanner and the browsing engine:
 * ASCII lower-casing (the stand-in for Python's `str.lower` and JavaScript's
 * `toLowerCase`), prefix and substring tests, the code-point ordering Python
 * uses to compare strings, and the decimal rendering of a natural number used
 * to build record ids such as "dir_12".
 */
module Text {

  /** Lower-case one ASCII letter; every other character is left alone. */
  function LowerChar(c: char): char
  {
    if 'A' <= c <= 'Z' then (c as int + 32) as char else c
  }

  /** Lower-case a whole string, character by character. */
  function Lower(s: string): (r: string)
    ensures |r| == |s|
    ensures forall i :: 0 <= i < |s| ==> r[i] == LowerChar(s[i])
  {
    seq(|s|, i requires 0 <= i < |s| => LowerChar(s[i]))
  }

  lemma LowerIdempotent(s: string)
    ensures Lower(Lower(s)) == Lower(s)
  {
  }

  /** `s.startswith(c)` for a one-character prefix. */
  predicate StartsWith(s: string, c: char)
  {
    |s| > 0 && s[0] == c
  }

  /** `p` is a prefix of `s`. */
  predicate IsPrefix(p: string, s: string)
  {
    |p| <= |s| && s[..|p|] == p
  }

  /** `needle in hay` (Python) or `hay.includes(needle)` (JavaScript), searched from the left. */
  predicate Contains(hay: string, needle: string)
    decreases |hay|
  {
    IsPrefix(needle, hay) || (|hay| > 0 && Contains(hay[1..], needle))
  }

  /** `needle` occurs in `hay` starting at position `i`. */
  predicate OccursAt(hay: string, needle: string, i: nat)
  {
    i + |needle| <= |hay| && hay[i..i + |needle|] == needle
  }

  /** The substring search agrees with the definition "some slice of `hay` equals `needle`". */
  lemma {:induction false} ContainsIffOccurs(hay: string, needle: string)
    ensures Contains(hay, needle) <==> exists i: nat :: OccursAt(hay, needle, i)
    decreases |hay|
  {
    if IsPrefix(needle, hay) {
      assert OccursAt(hay, needle, 0);
    } else if |hay| > 0 {
      ContainsIffOccurs(hay[1..], needle);
      if Contains(hay[1..], needle) {
        var i: nat :| OccursAt(hay[1..], needle, i);
        SliceOfTail(hay, i + 1, |needle|);
        assert OccursAt(hay, needle, i + 1);
      } else {
        forall i: nat
          ensures !OccursAt(hay, needle, i)
        {
          if i > 0 && i + |needle| <= |hay| {
            SliceOfTail(hay, i, |needle|);
            assert !OccursAt(hay[1..], needle, i - 1);
          }
        }
      }
    } else {
      forall i: nat
        ensures !OccursAt(hay, needle, i)
      {
      }
    }
  }

  lemma SliceOfTail(hay: string, i: nat, m: nat)
    requires 1 <= i && i + m <= |hay|
    ensures hay[1..][i - 1..i - 1 + m] == hay[i..i + m]
  {
  }

  /** The empty string occurs in every string: an empty search term never hides anything. */
  lemma ContainsEmpty(hay: string)
    ensures Contains(hay, "")
  {
    assert IsPrefix("", hay);
  }

  /** Python's `a <= b` on strings: lexicographic comparison by code point. */
  predicate LexLe(a: string, b: string)
    decreases |a|
  {
    a == [] || (b != [] && (a[0] < b[0] || (a[0] == b[0] && LexLe(a[1..], b[1..]))))
  }

  lemma {:induction false} LexLeTotal(a: string, b: string)
    ensures LexLe(a, b) || LexLe(b, a)
    decreases |a|
  {
    if a != [] && b != [] && a[0] == b[0] {
      LexLeTotal(a[1..], b[1..]);
    }
  }

  lemma {:induction false} LexLeTransitive(a: string, b: string, c: string)
    requires LexLe(a, b) && LexLe(b, c)
    ensures LexLe(a, c)
    decreases |a|
  {
    if a != [] && b != [] && c != [] && a[0] == b[0] && b[0] == c[0] {
      LexLeTransitive(a[1..], b[1..], c[1..]);
    }
  }

  /** The ordering behind `sort(key=str.lower)`: compare the lower-cased names. */
  predicate LowerLe(a: string, b: string)
  {
    LexLe(Lower(a), Lower(b))
  }

  lemma LowerLeTotal(a: string, b: string)
    ensures LowerLe(a, b) || LowerLe(b, a)
  {
    LexLeTotal(Lower(a), Lower(b));
  }

  lemma LowerLeTransitive(a: string, b: string, c: string)
    requires LowerLe(a, b) && LowerLe(b, c)
    ensures LowerLe(a, c)
  {
    LexLeTransitive(Lower(a), Lower(b), Lower(c));
  }

  /** The decimal digit for `d`. */
  function DigitChar(d: nat): char
    requires d < 10
  {
    ('0' as int + d) as char
  }

  predicate IsDigit(c: char)
  {
    '0' <= c <= '9'
  }

  function DigitValue(c: char): nat
    requires IsDigit(c)
  {
    c as int - '0' as int
  }

  /** Python's `str(n)` / f-string rendering of a natural number. */
  function NatToString(n: nat): (r: string)
    ensures |r| > 0
    ensures forall i :: 0 <= i < |r| ==> IsDigit(r[i])
    ensures n < 10 <==> |r| == 1
  {
    if n < 10 then [DigitChar(n)] else NatToString(n / 10) + [DigitChar(n % 10)]
  }

  /** Read a string of decimal digits back as a number. */
  function ParseDigits(s: string): nat
    requires forall i :: 0 <= i < |s| ==> IsDigit(s[i])
  {
    if s == [] then 0 else ParseDigits(s[..|s| - 1]) * 10 + DigitValue(s[|s| - 1])
  }

  /** Rendering a number in decimal and reading it back gives the number again. */
  lemma {:induction false} ParseNatToString(n: nat)
    ensures ParseDigits(NatToString(n)) == n
  {
    if n >= 10 {
      var s := NatToString(n);
      assert s[..|s| - 1] == NatToString(n / 10);
      ParseNatToString(n / 10);
    }
  }

  /** Distinct numbers have distinct decimal renderings. */
  lemma NatToStringInjective(m: nat, n: nat)
    requires NatToString(m) == NatToString(n)
    ensures m == n
  {
    ParseNatToString(m);
    ParseNatToString(n);
  }
}
