/** Integer printing of the signal-safe output functions. */
module Ltoa {
  import opened Sequences
  import opened Arithmetic

  /** A `long`. */
  const LONG_MIN: int := -0x8000_0000_0000_0000
  const LONG_MAX: int := 0x7fff_ffff_ffff_ffff

  function Digit(c: nat): char
    requires c < 36
  {
    if c < 10 then '0' + c as char else 'a' + (c - 10) as char
  }

  /** Digits are the figures, then the letters of the alphabet. */
  lemma DigitIs(c: nat)
    requires c < 36
    ensures Digit(c) == "0123456789abcdefghijklmnopqrstuvwxyz"[c]
  {
  }

  function Value(d: char): nat {
    if '0' <= d <= '9' then (d - '0') as nat
    else if 'a' <= d <= 'z' then (d - 'a') as nat + 10
    else 0
  }

  function Quotient(v: nat, b: nat): (q: nat)
    requires 2 <= b
    ensures q * b <= v < q * b + b
    ensures q == 0 <==> v < b
    ensures v > 0 ==> q < v
  {
    if v < b then 0 else 1 + Quotient(v - b, b)
  }

  /** The recursion counts what the division of C computes on non-negative operands. */
  lemma QuotientIsDivision(v: nat, b: nat)
    requires 2 <= b
    ensures Quotient(v, b) == v / b && v - Quotient(v, b) * b == v % b
  {
    assert (Quotient(v, b) + 1) * b == Quotient(v, b) * b + b;
    QuotientUnique(v, b, Quotient(v, b));
  }

  function Remainder(v: nat, b: nat): (r: nat)
    requires 2 <= b
    ensures r < b && v == Quotient(v, b) * b + r
  {
    v - Quotient(v, b) * b
  }

  /** The digits of `v`, most significant first. */
  function Digits(v: nat, b: nat): (s: string)
    requires 2 <= b <= 36
    ensures |s| >= 1
    ensures forall i :: 0 <= i < |s| ==> s[i] != '\0' && s[i] != '-'
  {
    if v < b then [Digit(v)] else Digits(Quotient(v, b), b) + [Digit(Remainder(v, b))]
  }

  function Printed(v: int, b: nat): string
    requires 2 <= b <= 36
  {
    if v < 0 then "-" + Digits(-v, b) else Digits(v, b)
  }

  /** A minus sign stands before the digits of a negative number, and nowhere else. */
  lemma SignIff(v: int, b: nat)
    requires 2 <= b <= 36
    ensures Printed(v, b)[0] == '-' <==> v < 0
    ensures '-' !in Printed(v, b)[1..]
  {
  }

  function ParseDigits(s: string, b: nat): nat {
    if s == "" then 0 else ParseDigits(s[..|s| - 1], b) * b + Value(s[|s| - 1])
  }

  function Parse(s: string, b: nat): int {
    if s != "" && s[0] == '-' then 0 - ParseDigits(s[1..], b) else ParseDigits(s, b)
  }

  lemma ParseSnoc(s: string, c: nat, b: nat)
    requires c < 36
    ensures ParseDigits(s + [Digit(c)], b) == ParseDigits(s, b) * b + c
  {
    assert (s + [Digit(c)])[..|s|] == s;
  }

  lemma {:induction false} DigitsParse(v: nat, b: nat)
    requires 2 <= b <= 36
    ensures ParseDigits(Digits(v, b), b) == v
  {
    if v >= b {
      DigitsParse(Quotient(v, b), b);
      ParseSnoc(Digits(Quotient(v, b), b), Remainder(v, b), b);
    } else {
      ParseSnoc("", v, b);
      assert "" + [Digit(v)] == Digits(v, b);
    }
  }

  /** Parsing what was printed gives the number back. */
  lemma PrintedParses(v: int, b: nat)
    requires 2 <= b <= 36
    ensures Parse(Printed(v, b), b) == v
  {
    DigitsParse(if v < 0 then -v else v, b);
    if v < 0 {
      assert Printed(v, b)[1..] == Digits(-v, b);
    }
  }

  lemma {:induction false} NoLeadingZero(v: nat, b: nat)
    requires 2 <= b <= 36
    ensures Digits(v, b)[0] == '0' <==> v == 0
  {
    if v >= b {
      NoLeadingZero(Quotient(v, b), b);
    }
  }

  function Pow(b: nat, k: nat): nat {
    if k == 0 then 1 else b * Pow(b, k - 1)
  }

  /** A number below 2^k has at most k digits in every base, or one. */
  lemma {:induction false} DigitsShort(v: nat, b: nat, k: nat)
    requires 2 <= b <= 36 && v < Pow(2, k) && k >= 1
    ensures |Digits(v, b)| <= k
  {
    if v >= b {
      AtMostHalf(v, b);
      DigitsShort(Quotient(v, b), b, k - 1);
    }
  }

  lemma AtMostHalf(v: nat, b: nat)
    requires 2 <= b
    ensures 2 * Quotient(v, b) <= v
  {
    var q := Quotient(v, b);
    assert q * b == q * 2 + q * (b - 2);
  }

  lemma {:induction false} PowAdd(k: nat, l: nat)
    ensures Pow(2, k + l) == Pow(2, k) * Pow(2, l)
  {
    if k > 0 {
      PowAdd(k - 1, l);
    }
  }

  lemma LongFits()
    ensures Pow(2, 63) == LONG_MAX + 1 == -LONG_MIN
  {
    assert Pow(2, 7) == 128;
    PowAdd(7, 7);
    PowAdd(14, 14);
    PowAdd(28, 28);
    PowAdd(56, 7);
  }

  function Reversed(s: string): (r: string)
    ensures |r| == |s|
    ensures forall i :: 0 <= i < |s| ==> r[i] == s[|s| - 1 - i]
  {
    if s == "" then "" else Reversed(s[1..]) + [s[0]]
  }

  method Strlen(s: array<char>) returns (n: nat)
    requires exists k :: 0 <= k < s.Length && s[k] == '\0'
    ensures n < s.Length && s[n] == '\0' && '\0' !in s[..n]
  {
    n := 0;
    while s[n] != '\0'
      invariant n < s.Length && '\0' !in s[..n]
      invariant exists k :: n <= k < s.Length && s[k] == '\0'
      decreases s.Length - n
    {
      n := n + 1;
    }
  }

  /** sio_reverse: swaps from both ends of the C string in place. */
  method Reverse(s: array<char>)
    requires exists k :: 0 <= k < s.Length && s[k] == '\0'
    modifies s
    ensures exists n :: 0 <= n < s.Length && IsReversal(s[..], old(s[..]), n)
  {
    ghost var was := s[..];
    var n := Strlen(s);
    var i, j := 0, n - 1;
    while i < j
      invariant 0 <= i <= n && j == n - 1 - i && i <= j + 1
      invariant forall k :: 0 <= k < i || j < k < n ==> s[k] == was[n - 1 - k]
      invariant forall k :: i <= k <= j || n <= k < s.Length ==> s[k] == was[k]
    {
      s[i], s[j] := s[j], s[i];
      i, j := i + 1, j - 1;
    }
    assert '\0' !in was[..n];
    assert IsReversal(s[..], was, n);
  }

  /** `a` is `b` with its C string of length `n` reversed. */
  ghost predicate IsReversal(a: seq<char>, b: seq<char>, n: nat) {
    && n < |a| == |b| && b[n] == '\0' && '\0' !in b[..n]
    && a[..n] == Reversed(b[..n]) && a[n..] == b[n..]
  }

  /** `done` are the last digits of `v`, and `rest` is what the others say. */
  ghost predicate Split(v: nat, b: nat, rest: nat, done: string)
    requires 2 <= b <= 36
  {
    Digits(v, b) == Digits(rest, b) + done
  }

  lemma SplitStep(v: nat, b: nat, rest: nat, done: string)
    requires 2 <= b <= 36 && Split(v, b, rest, done)
    ensures var q, longer := Quotient(rest, b), [Digit(Remainder(rest, b))] + done;
      if q == 0 then Digits(v, b) == longer else Split(v, b, q, longer)
  {
    var q, d := Quotient(rest, b), [Digit(Remainder(rest, b))];
    if q == 0 {
      assert Digits(rest, b) == d;
    } else {
      assert Digits(rest, b) == Digits(q, b) + d;
      assert Digits(q, b) + d + done == Digits(q, b) + (d + done);
    }
  }

  lemma SplitLength(v: nat, b: nat, rest: nat, done: string)
    requires 2 <= b <= 36 && Split(v, b, rest, done)
    ensures |done| < |Digits(v, b)|
  {
  }

  /** s[i++] = c */
  method Put(s: array<char>, i: nat, c: char)
    requires i < s.Length
    modifies s
    ensures s[..i + 1] == old(s[..i]) + [c] && s[i + 1..] == old(s[i + 1..])
  {
    s[i] := c;
  }

  lemma ReversedCons(c: char, s: string)
    ensures Reversed([c] + s) == Reversed(s) + [c]
  {
    assert ([c] + s)[1..] == s;
  }

  /** The digit loop of sio_ltoa: least significant digit first. */
  method PutDigits(v: nat, s: array<char>, b: nat) returns (i: nat)
    requires 2 <= b <= 36 && |Digits(v, b)| <= s.Length
    modifies s
    ensures i == |Digits(v, b)| && s[..i] == Reversed(Digits(v, b)) && s[i..] == old(s[i..])
  {
    i := 0;
    var rest: int := v;
    ghost var done := "";
    assert Digits(v, b) + done == Digits(v, b);
    while true
      invariant rest >= 0 && |done| == i && Split(v, b, rest, done) && s[..i] == Reversed(done)
      invariant i <= s.Length && s[i..] == old(s[..])[i..]
      decreases rest
    {
      SplitLength(v, b, rest, done);
      SplitStep(v, b, rest, done);
      QuotientIsDivision(rest, b);
      var c := Digit(rest % b);
      ghost var before := s[..];
      Put(s, i, c);
      assert s[i + 1..] == before[i..][1..];
      ReversedCons(c, done);
      done, i := [c] + done, i + 1;
      rest := rest / b;
      if rest == 0 {
        break;
      }
    }
  }

  /** Digits, sign and NUL, in the order in which sio_ltoa finds them. */
  method PutBackwards(v: int, s: array<char>, b: nat) returns (i: nat)
    requires 2 <= b <= 36 && LONG_MIN < v <= LONG_MAX && s.Length >= 128
    modifies s
    ensures i == |Printed(v, b)| < 65 && s[..i] == Reversed(Printed(v, b)) && s[i] == '\0'
    ensures s[i + 1..] == old(s[i + 1..])
  {
    var abs: nat := if v < 0 then -v else v;
    LongFits();
    DigitsShort(abs, b, 63);
    i := PutDigits(abs, s, b);
    if v < 0 {
      assert ("-" + Digits(abs, b))[1..] == Digits(abs, b);
      s[i] := '-';
      i := i + 1;
    }
    s[i] := '\0';
  }

  /** sio_ltoa: every long but the least prints into 128 characters as sign, digits and NUL. */
  method Ltoa(v: int, s: array<char>, b: nat)
    requires 2 <= b <= 36 && LONG_MIN < v <= LONG_MAX && s.Length >= 128
    modifies s
    ensures var text := Printed(v, b);
      && |text| < 65 && s[..|text|] == text && s[|text|] == '\0' && Parse(s[..|text|], b) == v
      && s[|text| + 1..] == old(s[|text| + 1..])
  {
    var i := PutBackwards(v, s, b);
    ghost var was := s[..];
    Reverse(s);
    ghost var n :| 0 <= n < s.Length && IsReversal(s[..], was, n);
    NulPlace(was, i, n, Printed(v, b));
    Turned(s[..], was, n);
    PrintedParses(v, b);
  }

  lemma Turned(now: seq<char>, was: seq<char>, n: nat)
    requires IsReversal(now, was, n)
    ensures now[..n] == Reversed(was[..n]) && now[n] == '\0' && now[n + 1..] == was[n + 1..]
  {
    assert now[n] == now[n..][0] && was[n] == was[n..][0];
    assert now[n + 1..] == now[n..][1..] && was[n + 1..] == was[n..][1..];
  }

  lemma NulPlace(was: seq<char>, i: nat, n: nat, text: string)
    requires i < |was| && n < |was| && was[..i] == Reversed(text) && was[i] == was[n] == '\0'
    requires '\0' !in was[..n] && forall k :: 0 <= k < |text| ==> text[k] != '\0'
    ensures n == i == |text| && Reversed(was[..n]) == text
  {
    forall k | 0 <= k < i
      ensures was[k] != '\0'
    {
      assert was[k] == was[..i][k] == Reversed(text)[k];
    }
    FirstNul(was, i, n);
    ReversedTwice(text);
  }

  lemma FirstNul(s: seq<char>, i: nat, n: nat)
    requires i < |s| && n < |s| && s[i] == s[n] == '\0'
    requires forall k :: 0 <= k < i ==> s[k] != '\0'
    requires '\0' !in s[..n]
    ensures i == n
  {
    forall k | 0 <= k < n
      ensures s[k] != '\0'
    {
      assert s[k] == s[..n][k];
    }
  }

  lemma ReversedTwice(s: string)
    ensures Reversed(Reversed(s)) == s
  {
  }
}
