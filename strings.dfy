/**
 * The few string operations of the JavaScript runtime the server relies on:
 * `String.prototype.split` with a one-character separator, ASCII
 * `toLowerCase`, and the decimal rendering of an integer in a template
 * literal.
 */
module Strings {

  /**
   * `s.split(sep)`: the pieces between separators, in order. A string with no
   * separator yields itself, and the empty string yields `[""]`.
   */
  function Split(s: string, sep: char): (parts: seq<string>)
    ensures |parts| >= 1
    ensures forall i :: 0 <= i < |parts| ==> sep !in parts[i]
    decreases |s|
  {
    if s == [] then [""]
    else if s[0] == sep then [""] + Split(s[1..], sep)
    else
      var rest := Split(s[1..], sep);
      [[s[0]] + rest[0]] + rest[1..]
  }

  /** `parts.join(sep)`: the parts in order, one separator between neighbours. */
  function Join(parts: seq<string>, sep: char): (r: string)
    ensures |parts| == 1 ==> r == parts[0]
    ensures |parts| >= 2 ==> |r| > |parts[0]| && r[..|parts[0]| + 1] == parts[0] + [sep]
  {
    if parts == [] then ""
    else if |parts| == 1 then parts[0]
    else
      var rest := Join(parts[1..], sep);
      assert (parts[0] + [sep] + rest)[..|parts[0]| + 1] == parts[0] + [sep];
      parts[0] + [sep] + rest
  }

  /** Splitting loses nothing: joining the pieces back gives the input. */
  lemma {:induction false} SplitJoin(s: string, sep: char)
    ensures Join(Split(s, sep), sep) == s
    decreases |s|
  {
    if s == [] {
    } else if s[0] == sep {
      SplitJoin(s[1..], sep);
      var rest := Split(s[1..], sep);
      assert Split(s, sep) == [""] + rest;
      assert ([""] + rest)[1..] == rest;
    } else {
      SplitJoin(s[1..], sep);
      var rest := Split(s[1..], sep);
      var head := [s[0]] + rest[0];
      assert Split(s, sep) == [head] + rest[1..];
      if |rest| == 1 {
        assert Join([head], sep) == head;
      } else {
        assert ([head] + rest[1..])[1..] == rest[1..];
        assert Join(rest, sep) == rest[0] + [sep] + Join(rest[1..], sep);
      }
    }
  }

  /** A string with no separator in it splits into itself alone. */
  lemma {:induction false} SplitWithoutSeparator(s: string, sep: char)
    requires sep !in s
    ensures Split(s, sep) == [s]
    decreases |s|
  {
    if s != [] {
      assert s[0] != sep && sep !in s[1..];
      SplitWithoutSeparator(s[1..], sep);
      assert [s[0]] + s[1..] == s;
    }
  }

  /** Joining pieces without separator and splitting again gives the pieces back. */
  lemma {:induction false} JoinSplit(parts: seq<string>, sep: char)
    requires |parts| >= 1
    requires forall i :: 0 <= i < |parts| ==> sep !in parts[i]
    ensures Split(Join(parts, sep), sep) == parts
    decreases |parts|
  {
    if |parts| == 1 {
      SplitWithoutSeparator(parts[0], sep);
    } else {
      JoinSplit(parts[1..], sep);
      SplitFirst(parts[0], Join(parts[1..], sep), sep);
      assert [parts[0]] + parts[1..] == parts;
    }
  }

  /** A leading piece without separator splits off as the first part. */
  lemma {:induction false} SplitFirst(a: string, b: string, sep: char)
    requires sep !in a
    ensures Split(a + [sep] + b, sep) == [a] + Split(b, sep)
    decreases |a|
  {
    var s := a + [sep] + b;
    if a == [] {
      assert s == [sep] + b;
      assert s[1..] == b;
    } else {
      assert s[0] == a[0] && s[0] != sep;
      assert s[1..] == a[1..] + [sep] + b;
      assert sep !in a[1..];
      SplitFirst(a[1..], b, sep);
      assert [a[0]] + a[1..] == a;
    }
  }

  /** ASCII `toLowerCase` of one character: a capital becomes the same letter in lower case. */
  function LowerChar(c: char): (r: char)
    ensures 'A' <= c <= 'Z' ==> 'a' <= r <= 'z' && r as int - 'a' as int == c as int - 'A' as int
    ensures !('A' <= c <= 'Z') ==> r == c
  {
    if 'A' <= c <= 'Z' then (c as int - 'A' as int + 'a' as int) as char else c
  }

  /** ASCII `toLowerCase`, character by character. */
  function Lower(s: string): (r: string)
    ensures |r| == |s|
    ensures forall i :: 0 <= i < |s| ==> r[i] == LowerChar(s[i])
  {
    seq(|s|, i requires 0 <= i < |s| => LowerChar(s[i]))
  }

  /** Lowering leaves no upper-case letter and changes nothing else than upper-case letters. */
  lemma LowerLeavesNoUpper(s: string)
    ensures forall i :: 0 <= i < |s| ==> !('A' <= Lower(s)[i] <= 'Z')
    ensures forall i :: 0 <= i < |s| && !('A' <= s[i] <= 'Z') ==> Lower(s)[i] == s[i]
  {
  }

  /** The digit character for 0..9. */
  function Digit(d: nat): (c: char)
    requires d < 10
    ensures '0' <= c <= '9'
    ensures c as int - '0' as int == d
  {
    ('0' as int + d) as char
  }

  /** The number a string of decimal digits denotes, most significant digit first. */
  function DigitsValue(s: string): int
  {
    if s == [] then 0 else DigitsValue(s[..|s| - 1]) * 10 + (s[|s| - 1] as int - '0' as int)
  }

  /**
   * Decimal rendering of a natural number: digits, most significant first,
   * that denote `n`, without a leading zero.
   */
  function NatDecimal(n: nat): (s: string)
    ensures |s| >= 1
    ensures forall i :: 0 <= i < |s| ==> '0' <= s[i] <= '9'
    ensures DigitsValue(s) == n
    ensures |s| == 1 || s[0] != '0'
    ensures n >= 1 ==> s[0] != '0'
    ensures n >= 10 ==> |s| >= 2
    decreases n
  {
    if n < 10 then [Digit(n)]
    else
      var p := NatDecimal(n / 10);
      assert (p + [Digit(n % 10)])[..|p|] == p;
      p + [Digit(n % 10)]
  }

  /**
   * `${n}` for an integer `n`: a minus sign exactly for a negative number,
   * followed by the digits of its magnitude.
   */
  function Decimal(n: int): (s: string)
    ensures |s| >= 2 || (|s| == 1 && n >= 0)
    ensures s[0] == '-' <==> n < 0
    ensures n < 0 ==> DigitsValue(s[1..]) == -n
    ensures n >= 0 ==> DigitsValue(s) == n
    ensures var digits := if n < 0 then s[1..] else s;
      && (forall i :: 0 <= i < |digits| ==> '0' <= digits[i] <= '9')
      && (|digits| == 1 || digits[0] != '0')
  {
    if n < 0 then
      var d := NatDecimal(-n);
      assert ("-" + d)[1..] == d;
      "-" + d
    else NatDecimal(n)
  }

  /** Different natural numbers have different decimal renderings. */
  lemma {:induction false} NatDecimalInjective(a: nat, b: nat)
    requires NatDecimal(a) == NatDecimal(b)
    ensures a == b
    decreases a
  {
    var s := NatDecimal(a);
    if a < 10 && b < 10 {
      assert Digit(a) == s[0] == Digit(b);
    } else if a < 10 || b < 10 {
      assert false;
    } else {
      var pa, pb := NatDecimal(a / 10), NatDecimal(b / 10);
      assert s == pa + [Digit(a % 10)] && s == pb + [Digit(b % 10)];
      assert Digit(a % 10) == s[|s| - 1] == Digit(b % 10);
      assert pa == s[..|s| - 1] == pb;
      NatDecimalInjective(a / 10, b / 10);
    }
  }

  /** Different integers have different decimal renderings. */
  lemma DecimalInjective(a: int, b: int)
    ensures Decimal(a) == Decimal(b) ==> a == b
  {
    if a < 0 && b < 0 {
      if Decimal(a) == Decimal(b) {
        assert NatDecimal(-a) == Decimal(a)[1..] == NatDecimal(-b);
        NatDecimalInjective(-a, -b);
      }
    } else if a >= 0 && b >= 0 {
      if Decimal(a) == Decimal(b) {
        NatDecimalInjective(a, b);
      }
    } else {
      // exactly one of them renders with a leading minus sign
      assert Decimal(a)[0] != Decimal(b)[0];
    }
  }

  /** Prefixing a fixed string keeps distinct strings distinct. */
  lemma PrefixInjective(p: string, x: string, y: string)
    requires p + x == p + y
    ensures x == y
  {
    assert x == (p + x)[|p|..];
    assert y == (p + y)[|p|..];
  }
}
