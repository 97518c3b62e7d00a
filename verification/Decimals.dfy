/** Decimal numbers as text. */
module Decimals {
  import opened Bytes

  const MINUS: byte := 45
  const MAX_INTEGER: int := 0x7FFF_FFFF_FFFF_FFFF

  predicate Digit(c: byte) {
    48 <= c <= 57
  }

  predicate AllDigits(s: seq<byte>) {
    forall i :: 0 <= i < |s| ==> Digit(s[i])
  }

  predicate Digits(s: seq<byte>) {
    s != [] && AllDigits(s)
  }

  /** The number a run of digits stands for. */
  function Value(s: seq<byte>): nat
    requires AllDigits(s)
  {
    if s == [] then 0
    else
      assert Digit(s[|s| - 1]);
      10 * Value(s[..|s| - 1]) + (s[|s| - 1] as int - 48)
  }

  /** Digits only, or a minus sign and digits. */
  predicate Decimal(s: seq<byte>) {
    if s != [] && s[0] == MINUS then Digits(s[1..]) else Digits(s)
  }

  function Meaning(s: seq<byte>): int
    requires Decimal(s)
  {
    if s[0] == MINUS then 0 - Value(s[1..]) else Value(s)
  }

  function Print(n: nat): (s: seq<byte>)
    ensures Digits(s)
  {
    if n < 10 then [48 + n] else Print(n / 10) + [48 + n % 10]
  }

  function PrintInt(v: int): (s: seq<byte>)
    ensures Decimal(s) && s != []
  {
    if v < 0 then [MINUS] + Print(-v) else Print(v)
  }

  lemma {:induction false} ValuePrint(n: nat)
    ensures Value(Print(n)) == n
  {
    if n >= 10 {
      ValuePrint(n / 10);
      assert Print(n)[..|Print(n)| - 1] == Print(n / 10);
    }
  }

  /** Printing and reading are inverse. */
  lemma MeaningPrint(v: int)
    ensures Meaning(PrintInt(v)) == v
  {
    ValuePrint(if v < 0 then -v else v);
    if v < 0 {
      assert PrintInt(v)[1..] == Print(-v);
    } else {
      assert Digit(Print(v)[0]);
    }
  }

  lemma {:induction false} ValueGrows(s: seq<byte>, n: nat)
    requires AllDigits(s)
    requires n <= |s|
    ensures Value(s[..n]) <= Value(s)
    decreases |s|
  {
    if n < |s| {
      assert s[..|s| - 1][..n] == s[..n];
      ValueGrows(s[..|s| - 1], n);
    } else {
      assert s[..n] == s;
    }
  }

  /** The end of the run of digits at p. */
  function RunEnd(t: seq<byte>, p: nat): (q: nat)
    requires p <= |t|
    ensures p <= q <= |t| && AllDigits(t[p..q])
    decreases |t| - p
  {
    if p < |t| && Digit(t[p]) then
      var q := RunEnd(t, p + 1);
      assert t[p..q] == [t[p]] + t[p + 1..q];
      q
    else p
  }

  method SkipDigits(s: seq<byte>, p: nat) returns (q: nat)
    requires p <= |s|
    ensures q == RunEnd(s, p)
  {
    q := p;
    while q < |s| && Digit(s[q])
      invariant p <= q <= |s| && RunEnd(s, p) == RunEnd(s, q)
    {
      q := q + 1;
    }
  }
}
