/**
 * The string operations the widget relies on: JavaScript's `String.prototype.split`
 * with a one-character separator, the matching join, and decimal digit strings
 * (what `parseInt` reads and what a number turns into when it is shown).
 */
module Text {

  /** The pieces of `s` between the occurrences of `c`, in order; like `s.split(c)`,
      there is always at least one piece, and an empty `s` gives one empty piece. */
  function Split(s: string, c: char): (parts: seq<string>)
    ensures |parts| >= 1
    decreases |s|
  {
    if |s| == 0 then [""]
    else
      var rest := Split(s[1..], c);
      if s[0] == c then [""] + rest
      else [[s[0]] + rest[0]] + rest[1..]
  }

  /** The pieces glued back together with `c` between neighbours, like `parts.join(c)`. */
  function Join(parts: seq<string>, c: char): string
  {
    if |parts| == 0 then ""
    else if |parts| == 1 then parts[0]
    else parts[0] + [c] + Join(parts[1..], c)
  }

  /** No piece contains `c`. */
  predicate Free(parts: seq<string>, c: char)
  {
    forall i :: 0 <= i < |parts| ==> c !in parts[i]
  }

  /** Joining the pieces of a split gives back the original string. */
  lemma {:induction false} JoinSplit(s: string, c: char)
    ensures Join(Split(s, c), c) == s
    decreases |s|
  {
    if |s| > 0 {
      var rest := Split(s[1..], c);
      JoinSplit(s[1..], c);
      if s[0] == c {
        assert Split(s, c) == [""] + rest;
        assert ([""] + rest)[1..] == rest;
        assert Join(Split(s, c), c) == "" + [c] + Join(rest, c);
      } else if |rest| == 1 {
        assert Join(Split(s, c), c) == [s[0]] + rest[0];
      } else {
        var parts := Split(s, c);
        assert parts[1..] == rest[1..];
        assert Join(parts, c) == [s[0]] + rest[0] + [c] + Join(rest[1..], c);
        assert Join(rest, c) == rest[0] + [c] + Join(rest[1..], c);
      }
    }
  }

  /** No piece of a split contains the separator. */
  lemma {:induction false} SplitFree(s: string, c: char)
    ensures Free(Split(s, c), c)
    decreases |s|
  {
    if |s| > 0 {
      SplitFree(s[1..], c);
      var rest := Split(s[1..], c);
      var parts := Split(s, c);
      if s[0] != c {
        forall i | 0 <= i < |parts| ensures c !in parts[i] {
          if i == 0 {
            assert parts[0] == [s[0]] + rest[0];
            assert c !in rest[0];
          } else {
            assert parts[i] == rest[i];
          }
        }
      } else {
        forall i | 0 <= i < |parts| ensures c !in parts[i] {
          if i > 0 { assert parts[i] == rest[i - 1]; }
        }
      }
    }
  }

  /** A string without the separator splits into itself. */
  lemma {:induction false} SplitWithoutSeparator(p: string, c: char)
    requires c !in p
    ensures Split(p, c) == [p]
    decreases |p|
  {
    if |p| > 0 {
      assert c !in p[1..];
      SplitWithoutSeparator(p[1..], c);
      assert [p[0]] + p[1..] == p;
    }
  }

  /** A separator-free prefix followed by the separator comes off as the first piece. */
  lemma {:induction false} SplitAfterPrefix(p: string, c: char, t: string)
    requires c !in p
    ensures Split(p + [c] + t, c) == [p] + Split(t, c)
    decreases |p|
  {
    var s := p + [c] + t;
    if |p| == 0 {
      assert s[0] == c && s[1..] == t;
    } else {
      assert c !in p[1..];
      assert s[0] == p[0] && s[1..] == p[1..] + [c] + t;
      SplitAfterPrefix(p[1..], c, t);
      assert [p[0]] + p[1..] == p;
    }
  }

  /** Splitting a join of separator-free pieces gives the pieces back. */
  lemma {:induction false} SplitJoin(parts: seq<string>, c: char)
    requires |parts| >= 1 && Free(parts, c)
    ensures Split(Join(parts, c), c) == parts
    decreases |parts|
  {
    assert c !in parts[0];
    if |parts| == 1 {
      SplitWithoutSeparator(parts[0], c);
    } else {
      SplitJoin(parts[1..], c);
      SplitAfterPrefix(parts[0], c, Join(parts[1..], c));
      assert [parts[0]] + parts[1..] == parts;
    }
  }

  /** The first piece of a join is a prefix of it. */
  lemma JoinStartsWithHead(parts: seq<string>, c: char)
    requires |parts| >= 1
    ensures parts[0] <= Join(parts, c)
  {
  }

  /** The first piece of a split is the text before the first separator: it has no
      separator in it, it is all of `s` when `s` has none, and otherwise `s` goes on
      with the separator and the join of the later pieces. */
  lemma SplitHead(s: string, c: char)
    ensures var parts := Split(s, c);
      && c !in parts[0]
      && (|parts| == 1 <==> c !in s)
      && (|parts| >= 2 ==> s == parts[0] + [c] + Join(parts[1..], c))
  {
    var parts := Split(s, c);
    JoinSplit(s, c);
    SplitFree(s, c);
    if |parts| >= 2 {
      assert s[|parts[0]|] == c;
    }
  }

  /** A character the string lacks is in none of its pieces. */
  lemma {:induction false} SplitKeepsAbsent(s: string, c: char, d: char)
    requires d !in s
    ensures Free(Split(s, c), d)
    decreases |s|
  {
    if |s| > 0 {
      assert d !in s[1..];
      SplitKeepsAbsent(s[1..], c, d);
      var rest := Split(s[1..], c);
      var parts := Split(s, c);
      forall i | 0 <= i < |parts| ensures d !in parts[i] {
        if s[0] != c {
          if i == 0 { assert parts[0] == [s[0]] + rest[0]; } else { assert parts[i] == rest[i]; }
        } else if i > 0 {
          assert parts[i] == rest[i - 1];
        }
      }
    }
  }

  /** The first piece of a join is either all of it or is followed by the separator. */
  lemma JoinHeadEnds(parts: seq<string>, c: char)
    requires |parts| >= 1
    ensures parts[0] == Join(parts, c) || parts[0] + [c] <= Join(parts, c)
  {
    if |parts| >= 2 {
      assert Join(parts, c) == parts[0] + [c] + Join(parts[1..], c);
    }
  }

  /** Joining a first piece onto at least one more puts the separator after it. */
  lemma JoinCons(p: string, ps: seq<string>, c: char)
    requires |ps| >= 1
    ensures Join([p] + ps, c) == p + [c] + Join(ps, c)
  {
    assert ([p] + ps)[1..] == ps;
  }

  /** With two pieces or more, the string opens with the first two around a separator. */
  lemma SplitFirstTwo(s: string, c: char)
    requires |Split(s, c)| >= 2
    ensures var parts := Split(s, c);
      && parts[0] + [c] + parts[1] <= s
      && (parts[0] + [c] + parts[1] == s || parts[0] + [c] + parts[1] + [c] <= s)
      && c !in parts[0] && c !in parts[1]
  {
    var parts := Split(s, c);
    SplitHead(s, c);
    SplitFree(s, c);
    JoinHeadEnds(parts[1..], c);
  }

  /** With four pieces or more, the string opens with the first four, separated. */
  lemma SplitFirstFour(s: string, c: char)
    requires |Split(s, c)| >= 4
    ensures var parts := Split(s, c);
      && parts[0] + [c] + parts[1] + [c] + parts[2] + [c] + parts[3] <= s
      && (parts[0] + [c] + parts[1] + [c] + parts[2] + [c] + parts[3] == s
          || parts[0] + [c] + parts[1] + [c] + parts[2] + [c] + parts[3] + [c] <= s)
      && Free(parts, c)
  {
    var parts := Split(s, c);
    JoinSplit(s, c);
    SplitFree(s, c);
    var r1, r2, r3 := parts[1..], parts[2..], parts[3..];
    assert r1[1..] == r2 && r2[1..] == r3;
    assert s == parts[0] + [c] + Join(r1, c);
    assert Join(r1, c) == parts[1] + [c] + Join(r2, c);
    assert Join(r2, c) == parts[2] + [c] + Join(r3, c);
    JoinHeadEnds(r3, c);
  }

  // ---------------------------------------------------------------------------
  // Decimal digit strings

  predicate IsDigit(ch: char)
  {
    '0' <= ch <= '9'
  }

  predicate AllDigits(s: string)
  {
    forall i :: 0 <= i < |s| ==> IsDigit(s[i])
  }

  /** A non-empty string of decimal digits, such as the `%H` or `%S` field of `date`. */
  predicate IsDigits(s: string)
  {
    |s| > 0 && AllDigits(s)
  }

  type DigitString = s: string | IsDigits(s) witness "0"

  function DigitValue(ch: char): (d: nat)
    requires IsDigit(ch)
    ensures d < 10
  {
    (ch as int) - ('0' as int)
  }

  function DigitChar(d: nat): (ch: char)
    requires d < 10
    ensures IsDigit(ch) && DigitValue(ch) == d
  {
    ('0' as int + d) as char
  }

  function Pow10(k: nat): (p: nat)
    ensures p >= 1
  {
    if k == 0 then 1 else 10 * Pow10(k - 1)
  }

  /** The number a string of decimal digits denotes, most significant digit first;
      leading zeros count for nothing (`parseInt("09") == 9`). */
  function DigitsValue(s: string): (v: nat)
    requires AllDigits(s)
    ensures v < Pow10(|s|)
    decreases |s|
  {
    if |s| == 0 then 0
    else DigitsValue(s[..|s| - 1]) * 10 + DigitValue(s[|s| - 1])
  }

  /** The decimal text of a natural number, without leading zeros (JavaScript's `String(n)`). */
  function Decimal(n: nat): (s: string)
    ensures IsDigits(s)
    ensures |s| >= 2 ==> s[0] != '0'
  {
    if n < 10 then [DigitChar(n)]
    else Decimal(n / 10) + [DigitChar(n % 10)]
  }

  /** Reading back the decimal text of `n` gives `n`. */
  lemma {:induction false} DecimalValue(n: nat)
    ensures DigitsValue(Decimal(n)) == n
  {
    if n >= 10 {
      var d := Decimal(n / 10);
      DecimalValue(n / 10);
      assert (d + [DigitChar(n % 10)])[..|d|] == d;
    }
  }

  /** One digit below ten, two from ten to ninety-nine. */
  lemma {:induction false} DecimalLength(n: nat)
    ensures n < 10 <==> |Decimal(n)| == 1
    ensures 10 <= n < 100 <==> |Decimal(n)| == 2
  {
    if n >= 10 {
      DecimalLength(n / 10);
    }
  }

  /** A leading zero does not change the value of a digit string. */
  lemma {:induction false} LeadingZeroValue(s: string)
    requires AllDigits(s)
    ensures AllDigits("0" + s) && DigitsValue("0" + s) == DigitsValue(s)
    decreases |s|
  {
    if |s| > 0 {
      var t := "0" + s;
      assert t[..|t| - 1] == "0" + s[..|s| - 1];
      assert t[|t| - 1] == s[|s| - 1];
      LeadingZeroValue(s[..|s| - 1]);
    }
  }
}
