/** The few JavaScript values and built-ins the gateway's logic depends on:
    an optional value, truthiness of a request parameter, `String.prototype.split`
    on a one-character separator, and `String(n)` for an integer. */
module Js {

  /** `None` stands for JavaScript's "no value" in the context where it is used:
      an absent query parameter, `NaN` from `parseInt`, or an Invalid Date. */
  datatype Option<+T> = None | Some(value: T)

  /** A query parameter is truthy when it is present and not the empty string. */
  predicate Truthy(p: Option<string>)
  {
    p.Some? && p.value != ""
  }

  /** `s.split(c)`: the pieces of `s` between occurrences of `c`. */
  function Split(s: string, c: char): (parts: seq<string>)
    ensures |parts| >= 1
    ensures forall i :: 0 <= i < |parts| ==> c !in parts[i]
    ensures c in s ==> |parts| >= 2
    decreases |s|
  {
    if s == [] then [""]
    else
      var rest := Split(s[1..], c);
      if s[0] == c then [""] + rest
      else [[s[0]] + rest[0]] + rest[1..]
  }

  /** `parts.join(c)`, the inverse of `Split`. */
  function Join(parts: seq<string>, c: char): string
    requires |parts| >= 1
    decreases |parts|
  {
    if |parts| == 1 then parts[0] else parts[0] + [c] + Join(parts[1..], c)
  }

  /** Splitting loses nothing: joining the pieces back gives the original string. */
  lemma {:induction false} JoinSplit(s: string, c: char)
    ensures Join(Split(s, c), c) == s
    decreases |s|
  {
    if s != [] {
      var rest := Split(s[1..], c);
      JoinSplit(s[1..], c);
      if s[0] == c {
        assert Split(s, c)[1..] == rest;
      } else if |rest| == 1 {
        assert Split(s, c) == [[s[0]] + rest[0]];
      } else {
        assert Split(s, c)[1..] == rest[1..];
        assert Join(rest, c) == rest[0] + [c] + Join(rest[1..], c);
      }
    }
  }

  /** A string without the separator is a single piece. */
  lemma {:induction false} SplitWithoutSeparator(t: string, c: char)
    requires c !in t
    ensures Split(t, c) == [t]
    decreases |t|
  {
    if t != [] {
      SplitWithoutSeparator(t[1..], c);
      assert [t[0]] + t[1..] == t;
    }
  }

  /** When the first separator of `p + [c] + t` follows `p`, the second piece
      is the first piece of `t`. */
  lemma {:induction false} SecondPiece(p: string, t: string, c: char)
    requires c !in p
    ensures |Split(p + [c] + t, c)| >= 2
    ensures Split(p + [c] + t, c)[0] == p
    ensures Split(p + [c] + t, c)[1] == Split(t, c)[0]
    decreases |p|
  {
    var s := p + [c] + t;
    if p == [] {
      assert s[1..] == t;
    } else {
      assert s[1..] == p[1..] + [c] + t;
      SecondPiece(p[1..], t, c);
      assert [p[0]] + p[1..] == p;
    }
  }

  /** The character of a decimal digit. */
  function DigitChar(d: nat): (ch: char)
    requires d < 10
    ensures '0' <= ch <= '9'
  {
    ('0' as int + d) as char
  }

  /** The decimal digits of `n`, without leading zeros. */
  function Digits(n: nat): (s: string)
    ensures |s| >= 1
    ensures forall i :: 0 <= i < |s| ==> '0' <= s[i] <= '9'
    decreases n
  {
    if n < 10 then [DigitChar(n)] else Digits(n / 10) + [DigitChar(n % 10)]
  }

  /** The number a string of decimal digits denotes. */
  function DecimalValue(s: string): nat
    requires forall i :: 0 <= i < |s| ==> '0' <= s[i] <= '9'
    decreases |s|
  {
    if s == [] then 0
    else 10 * DecimalValue(s[..|s| - 1]) + (s[|s| - 1] as int - '0' as int)
  }

  /** Reading back the digits of `n` gives `n`, so no two numbers print alike. */
  lemma {:induction false} DigitsRoundTrip(n: nat)
    ensures DecimalValue(Digits(n)) == n
    decreases n
  {
    if n >= 10 {
      DigitsRoundTrip(n / 10);
      var s := Digits(n);
      assert s[..|s| - 1] == Digits(n / 10);
    }
  }

  /** `String(n)` for an integer `n`. */
  function NumberToString(n: int): (s: string)
    ensures |s| >= 1
    ensures s[0] == '-' <==> n < 0
  {
    if n < 0 then "-" + Digits(-n) else Digits(n)
  }

  /** Different naturals have different digits. */
  lemma DigitsInjective(a: nat, b: nat)
    requires Digits(a) == Digits(b)
    ensures a == b
  {
    DigitsRoundTrip(a);
    DigitsRoundTrip(b);
  }

  /** Different integers print as different strings. */
  lemma NumberToStringInjective(m: int, n: int)
    requires NumberToString(m) == NumberToString(n)
    ensures m == n
  {
    var sm, sn := NumberToString(m), NumberToString(n);
    if m < 0 && n < 0 {
      assert sm == "-" + Digits(-m) && sn == "-" + Digits(-n);
      assert Digits(-m) == sm[1..];
      DigitsInjective(-m, -n);
    } else if m >= 0 && n >= 0 {
      DigitsInjective(m, n);
    }
  }

  /** A scalar as the device may report it: a string or an integer. */
  datatype Scalar = Text(text: string) | Number(number: int)

  /** `String(v)` for a scalar. */
  function ScalarToString(v: Scalar): string
  {
    match v
    case Text(s) => s
    case Number(n) => NumberToString(n)
  }
}
