/** String operations the pages rely on: `toLowerCase`/`toUpperCase` (on the
    ASCII letters), `String.prototype.includes`, `slice(-k)`, and the decimal
    rendering of a non-negative integer (`Number.prototype.toString`). */
module Text {

  function LowerChar(c: char): char {
    if 'A' <= c <= 'Z' then (c as int + 32) as char else c
  }

  function UpperChar(c: char): char {
    if 'a' <= c <= 'z' then (c as int - 32) as char else c
  }

  /** `s.toLowerCase()`, character by character. */
  function Lower(s: string): (r: string)
    ensures |r| == |s|
    ensures forall i :: 0 <= i < |s| ==> r[i] == LowerChar(s[i])
  {
    if s == [] then [] else [LowerChar(s[0])] + Lower(s[1..])
  }

  /** `s.toUpperCase()`, character by character. */
  function Upper(s: string): (r: string)
    ensures |r| == |s|
    ensures forall i :: 0 <= i < |s| ==> r[i] == UpperChar(s[i])
  {
    if s == [] then [] else [UpperChar(s[0])] + Upper(s[1..])
  }

  /** Upper-casing ignores the letter case of its input. */
  lemma UpperIgnoresCase(s: string)
    ensures Upper(Lower(s)) == Upper(s)
    ensures Upper(Upper(s)) == Upper(s)
  {
    assert forall i :: 0 <= i < |s| ==> UpperChar(LowerChar(s[i])) == UpperChar(s[i]);
    assert forall i :: 0 <= i < |s| ==> UpperChar(UpperChar(s[i])) == UpperChar(s[i]);
  }

  predicate StartsWith(s: string, prefix: string) {
    |prefix| <= |s| && s[..|prefix|] == prefix
  }

  /** `hay.includes(needle)`: some window of `hay` spells `needle`. */
  predicate Includes(hay: string, needle: string)
    decreases |hay|
  {
    StartsWith(hay, needle) || (|hay| > 0 && Includes(hay[1..], needle))
  }

  ghost predicate OccursAt(hay: string, needle: string, i: int) {
    0 <= i && i + |needle| <= |hay| && hay[i..i + |needle|] == needle
  }

  /** The scan in `Includes` finds `needle` exactly when it occurs somewhere. */
  lemma {:induction false} IncludesIff(hay: string, needle: string)
    ensures Includes(hay, needle) <==> exists i :: OccursAt(hay, needle, i)
    decreases |hay|
  {
    if StartsWith(hay, needle) {
      assert OccursAt(hay, needle, 0);
    } else if |hay| == 0 {
      assert forall i :: !OccursAt(hay, needle, i);
    } else {
      IncludesIff(hay[1..], needle);
      if Includes(hay[1..], needle) {
        var i :| OccursAt(hay[1..], needle, i);
        assert hay[i + 1..i + 1 + |needle|] == hay[1..][i..i + |needle|];
        assert OccursAt(hay, needle, i + 1);
      } else {
        forall i | OccursAt(hay, needle, i)
          ensures false
        {
          if i > 0 {
            assert hay[1..][i - 1..i - 1 + |needle|] == hay[i..i + |needle|];
            assert OccursAt(hay[1..], needle, i - 1);
          }
        }
      }
    }
  }

  /** `s.slice(-k)` for `k > 0`: the last `k` characters, or all of `s` when it is shorter. */
  function Last(s: string, k: nat): (r: string)
    ensures |r| == if |s| <= k then |s| else k
    ensures r == s[|s| - |r|..]
  {
    if |s| <= k then s else s[|s| - k..]
  }

  predicate IsDigit(c: char) {
    '0' <= c <= '9'
  }

  predicate AllDigits(s: string) {
    forall i :: 0 <= i < |s| ==> IsDigit(s[i])
  }

  function DigitChar(d: nat): (c: char)
    requires d < 10
    ensures IsDigit(c)
  {
    ('0' as int + d) as char
  }

  function DigitValue(c: char): (d: nat)
    requires IsDigit(c)
    ensures d < 10 && DigitChar(d) == c
  {
    c as int - '0' as int
  }

  /** `n.toString()` for a non-negative integer: its decimal digits, most significant first. */
  function Dec(n: nat): (s: string)
    ensures |s| >= 1 && AllDigits(s)
    decreases n
  {
    if n < 10 then [DigitChar(n)] else Dec(n / 10) + [DigitChar(n % 10)]
  }

  /** The value of a string of decimal digits (the inverse of `Dec`). */
  function ParseDec(s: string): nat
    requires AllDigits(s)
  {
    if s == [] then 0 else ParseDec(s[..|s| - 1]) * 10 + DigitValue(s[|s| - 1])
  }

  function Pow10(k: nat): (p: nat)
    ensures p >= 1
  {
    if k == 0 then 1 else 10 * Pow10(k - 1)
  }

  /** Reading back the decimal rendering gives the number. */
  lemma {:induction false} ParseDecOfDec(n: nat)
    ensures ParseDec(Dec(n)) == n
    decreases n
  {
    if n >= 10 {
      ParseDecOfDec(n / 10);
      var s := Dec(n);
      assert s[..|s| - 1] == Dec(n / 10);
    }
  }

  /** A number has fewer than `Pow10(|Dec(n)|)` units: `Dec` uses no superfluous digits. */
  lemma {:induction false} DecLengthBound(n: nat)
    ensures n < Pow10(|Dec(n)|)
    ensures |Dec(n)| > 1 ==> Pow10(|Dec(n)| - 1) <= n
    decreases n
  {
    if n >= 10 {
      DecLengthBound(n / 10);
    }
  }

  lemma MulAtLeast(d: int, x: int)
    requires d > 0 && x >= 1
    ensures d * x >= d
  {
    assert d * x == d + d * (x - 1);
  }

  /** Division with remainder has one answer. */
  lemma DivModUnique(n: int, d: int, a: int, b: int)
    requires d > 0 && 0 <= b < d && n == d * a + b
    ensures n % d == b
  {
    var x := n / d - a;
    assert n == d * (n / d) + n % d;
    assert d * x == b - n % d by {
      assert d * x == d * (n / d) - d * a;
    }
    if x >= 1 {
      MulAtLeast(d, x);
    } else if x <= -1 {
      MulAtLeast(d, -x);
    }
  }

  lemma ModOfDivTen(n: nat, m: nat)
    requires m >= 1
    ensures (n / 10 % m) * 10 + n % 10 == n % (10 * m)
  {
    var q, r := n / 10, n % 10;
    var a, b := q / m, q % m;
    assert q == m * a + b;
    assert n == 10 * q + r;
    assert n == (10 * m) * a + (b * 10 + r) by {
      assert 10 * q == 10 * (m * a) + 10 * b;
      assert 10 * (m * a) == (10 * m) * a;
    }
    DivModUnique(n, 10 * m, a, b * 10 + r);
  }

  lemma LastAppend(t: string, c: char, k: nat)
    requires 1 <= k
    ensures Last(t + [c], k) == Last(t, k - 1) + [c]
  {
  }

  lemma ParseDecAppend(u: string, c: char)
    requires AllDigits(u) && IsDigit(c)
    ensures AllDigits(u + [c])
    ensures ParseDec(u + [c]) == ParseDec(u) * 10 + DigitValue(c)
  {
    assert (u + [c])[..|u|] == u;
  }

  /** The last `k` digits of `Dec(n)` spell `n` modulo `10^k`. */
  lemma {:induction false} LastDigitsValue(n: nat, k: nat)
    ensures AllDigits(Last(Dec(n), k))
    ensures ParseDec(Last(Dec(n), k)) == n % Pow10(k)
    decreases n
  {
    var s := Dec(n);
    if |s| <= k {
      ParseDecOfDec(n);
      DecLengthBound(n);
      PowMonotone(|s|, k);
      SmallModIsSelf(n, Pow10(k));
    } else if k == 0 {
      assert Last(s, k) == [];
    } else {
      // |s| > k >= 1, so n >= 10 and s is Dec(n / 10) followed by one digit
      var t, c := Dec(n / 10), DigitChar(n % 10);
      assert s == t + [c];
      LastAppend(t, c, k);
      LastDigitsValue(n / 10, k - 1);
      ParseDecAppend(Last(t, k - 1), c);
      ModOfDivTen(n, Pow10(k - 1));
    }
  }

  lemma {:induction false} PowMonotone(i: nat, j: nat)
    requires i <= j
    ensures Pow10(i) <= Pow10(j)
    decreases j
  {
    if i < j {
      PowMonotone(i, j - 1);
    }
  }

  lemma SmallModIsSelf(n: nat, p: nat)
    requires n < p
    ensures n % p == n
  {
  }
}
