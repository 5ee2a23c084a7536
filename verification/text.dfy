/** String helpers the components use: ASCII lower-casing, `includes`, decimal rendering, `slice(-n)` and `join`. */
module Text {

  /** `toLowerCase` on one character (ASCII letters only). */
  function LowerChar(c: char): char {
    if 'A' <= c <= 'Z' then (c as int + 32) as char else c
  }

  function Lower(s: string): (r: string)
    ensures |r| == |s|
    ensures forall i :: 0 <= i < |s| ==> r[i] == LowerChar(s[i])
  {
    seq(|s|, i requires 0 <= i < |s| => LowerChar(s[i]))
  }

  /** `needle` occurs in `hay` starting at index `i`. */
  predicate OccursAt(hay: string, needle: string, i: int) {
    0 <= i && i + |needle| <= |hay| && hay[i..i + |needle|] == needle
  }

  /** `hay.includes(needle)`, searched from the left. */
  predicate Contains(hay: string, needle: string)
    decreases |hay|
  {
    needle <= hay || (hay != [] && Contains(hay[1..], needle))
  }

  /** The left-to-right search finds exactly the needles that occur at some index. */
  lemma {:induction false} ContainsIffOccurs(hay: string, needle: string)
    ensures Contains(hay, needle) <==> exists i :: OccursAt(hay, needle, i)
    decreases |hay|
  {
    assert OccursAt(hay, needle, 0) <==> needle <= hay;
    if needle <= hay {
      assert OccursAt(hay, needle, 0);
    } else if hay == [] {
      assert forall i :: !OccursAt(hay, needle, i);
    } else {
      ContainsIffOccurs(hay[1..], needle);
      if exists i :: OccursAt(hay[1..], needle, i) {
        var i :| OccursAt(hay[1..], needle, i);
        assert hay[1..][i..i + |needle|] == hay[i + 1..i + 1 + |needle|];
        assert OccursAt(hay, needle, i + 1);
      }
      if exists i :: OccursAt(hay, needle, i) {
        var i :| OccursAt(hay, needle, i);
        assert i != 0;
        assert hay[1..][i - 1..i - 1 + |needle|] == hay[i..i + |needle|];
        assert OccursAt(hay[1..], needle, i - 1);
      }
    }
  }

  /** `hay.toLowerCase().includes(needle.toLowerCase())`. */
  predicate ContainsIgnoringCase(hay: string, needle: string) {
    Contains(Lower(hay), Lower(needle))
  }

  function DigitChar(d: nat): (c: char)
    requires d < 10
    ensures '0' <= c <= '9'
  {
    ('0' as int + d) as char
  }

  /** `String(n)` for a non-negative integer: its decimal digits, most significant first. */
  function Decimal(n: nat): (r: string)
    ensures |r| >= 1
    ensures forall i :: 0 <= i < |r| ==> '0' <= r[i] <= '9'
    ensures n < 10 <==> |r| == 1
    decreases n
  {
    if n < 10 then [DigitChar(n)] else Decimal(n / 10) + [DigitChar(n % 10)]
  }

  /** `String(i)` for any integer (a leading minus sign for negatives). */
  function IntText(i: int): string {
    if i < 0 then "-" + Decimal(-i) else Decimal(i)
  }

  /** `s.slice(-n)`: the last `n` characters, or all of `s` when it is shorter. */
  function Last(s: string, n: nat): (r: string)
    ensures |r| == if |s| < n then |s| else n
    ensures r == s[|s| - |r|..]
  {
    if |s| <= n then s else s[|s| - n..]
  }

  /** The last character of `String(n)` is its units digit. */
  lemma DecimalLastDigit(n: nat)
    ensures Decimal(n)[|Decimal(n)| - 1] == DigitChar(n % 10)
  {
  }

  /** Different numbers print differently, so two clock readings give one id only when they are equal. */
  lemma {:induction false} DecimalInjective(a: nat, b: nat)
    ensures Decimal(a) == Decimal(b) <==> a == b
    decreases a
  {
    if Decimal(a) == Decimal(b) && a >= 10 && b >= 10 {
      var da, db := Decimal(a), Decimal(b);
      assert da[|da| - 1] == DigitChar(a % 10);
      assert db[|db| - 1] == DigitChar(b % 10);
      assert a % 10 == b % 10;
      assert da[..|da| - 1] == Decimal(a / 10);
      assert db[..|db| - 1] == Decimal(b / 10);
      DecimalInjective(a / 10, b / 10);
    }
  }

  /** Dropping two digits one at a time drops them both at once. */
  lemma DivTenTwice(n: nat)
    ensures n / 10 / 10 == n / 100
  {
    var a := n / 10;
    var q := a / 10;
    assert n == 10 * a + n % 10;
    assert a == 10 * q + a % 10;
    assert n == 100 * q + (10 * (a % 10) + n % 10);
  }

  /** The last three characters of `String(n)` are its hundreds, tens and units digits once `n` has three digits. */
  lemma {:induction false} LastThreeDigits(n: nat)
    requires n >= 100
    ensures Last(Decimal(n), 3) == [DigitChar(n / 100 % 10), DigitChar(n / 10 % 10), DigitChar(n % 10)]
  {
    var a := n / 10;
    DivTenTwice(n);
    var high := Decimal(a / 10);
    assert Decimal(a) == high + [DigitChar(a % 10)];
    assert Decimal(n) == high + [DigitChar(a % 10)] + [DigitChar(n % 10)];
    DecimalLastDigit(a / 10);
    var d := Decimal(n);
    assert d[|d| - 3..] == [high[|high| - 1], DigitChar(a % 10), DigitChar(n % 10)];
  }

  /** `parts.join(sep)`. */
  function Join(parts: seq<string>, sep: string): string {
    if parts == [] then ""
    else if |parts| == 1 then parts[0]
    else parts[0] + sep + Join(parts[1..], sep)
  }

  /** Number of occurrences of character `c` in `s`. */
  function CountChar(s: string, c: char): nat {
    if s == [] then 0 else (if s[0] == c then 1 else 0) + CountChar(s[1..], c)
  }

  lemma {:induction false} CountCharAppend(a: string, b: string, c: char)
    ensures CountChar(a + b, c) == CountChar(a, c) + CountChar(b, c)
  {
    if a == [] {
      assert a + b == b;
    } else {
      assert (a + b)[1..] == a[1..] + b;
      CountCharAppend(a[1..], b, c);
    }
  }

  /** Joining `k` pieces with a one-character separator adds exactly `k - 1` copies of it. */
  lemma {:induction false} JoinCountsSeparators(parts: seq<string>, sep: char, c: char)
    requires parts != []
    ensures CountChar(Join(parts, [sep]), c)
            == (if sep == c then |parts| - 1 else 0) + SumCount(parts, c)
  {
    if |parts| == 1 {
    } else {
      JoinCountsSeparators(parts[1..], sep, c);
      CountCharAppend(parts[0] + [sep], Join(parts[1..], [sep]), c);
      CountCharAppend(parts[0], [sep], c);
    }
  }

  /** Total occurrences of `c` over all pieces. */
  function SumCount(parts: seq<string>, c: char): nat {
    if parts == [] then 0 else CountChar(parts[0], c) + SumCount(parts[1..], c)
  }

  /** A character that does not occur is counted zero times. */
  lemma {:induction false} CountCharAbsent(s: string, c: char)
    requires forall i :: 0 <= i < |s| ==> s[i] != c
    ensures CountChar(s, c) == 0
  {
    if s != [] {
      CountCharAbsent(s[1..], c);
    }
  }

  /** Pieces that each lack `c` lack it in total. */
  lemma {:induction false} SumCountAbsent(parts: seq<string>, c: char)
    requires forall k :: 0 <= k < |parts| ==> CountChar(parts[k], c) == 0
    ensures SumCount(parts, c) == 0
  {
    if parts != [] {
      SumCountAbsent(parts[1..], c);
    }
  }

  /** A piece holding `c` makes the total positive. */
  lemma {:induction false} SumCountPresent(parts: seq<string>, c: char, k: nat)
    requires k < |parts| && CountChar(parts[k], c) > 0
    ensures SumCount(parts, c) > 0
  {
    if k > 0 {
      SumCountPresent(parts[1..], c, k - 1);
    }
  }
}
