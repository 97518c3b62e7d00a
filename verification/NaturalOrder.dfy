/** The order in which sensor readings are listed: labels compare with digit runs as numbers. */
module NaturalOrder {
  import opened Bytes
  import opened Decimals

  const ZERO: byte := 48

  function Sign(v: int): int {
    if v < 0 then -1 else if v > 0 then 1 else 0
  }

  // ---- Tokens --------------------------------------------------------------------------------------------

  predicate Token?(x: Token) {
    x.Char? ==> !Digit(x.c)
  }

  /** A label is read as maximal digit runs and single other bytes. */
  datatype Token = Run(digits: seq<byte>) | Char(c: byte)

  function TokenAt(s: seq<byte>, p: nat): Token
    requires p < |s|
  {
    if Digit(s[p]) then Run(s[p..RunEnd(s, p)]) else Char(s[p])
  }

  function TokenEnd(s: seq<byte>, p: nat): (q: nat)
    requires p < |s|
    ensures p < q <= |s|
  {
    if Digit(s[p]) then RunEnd(s, p) else p + 1
  }

  /** The leading zeros of a run. */
  function Zeros(s: seq<byte>): (n: nat)
    ensures n <= |s|
  {
    if s == [] || s[0] != ZERO then 0 else 1 + Zeros(s[1..])
  }

  /** Bytewise comparison, a proper prefix coming first. */
  function ByteCompare(s: seq<byte>, t: seq<byte>): int {
    if s == [] || t == [] then Sign(|s| - |t|)
    else if s[0] != t[0] then Sign(s[0] as int - t[0] as int)
    else ByteCompare(s[1..], t[1..])
  }

  /** Runs compare by the number they stand for - length without leading zeros, then digits - and then by
      how many zeros lead. */
  function RunCompare(s: seq<byte>, t: seq<byte>): int {
    var (a, b) := (s[Zeros(s)..], t[Zeros(t)..]);
    if |a| != |b| then Sign(|a| - |b|)
    else if ByteCompare(a, b) != 0 then ByteCompare(a, b)
    else Sign(|s| - |t|)
  }

  /** A run and another byte compare as bytes; digits are contiguous, so any digit of the run will do. */
  function TokenCompare(x: Token, y: Token): int {
    match (x, y)
    case (Run(s), Run(t)) => RunCompare(s, t)
    case (Char(c), Char(d)) => Sign(c as int - d as int)
    case (Run(_), Char(d)) => Sign(ZERO as int - d as int)
    case (Char(c), Run(_)) => Sign(c as int - ZERO as int)
  }

  /** Labels compare token by token. */
  function Compare(a: seq<byte>, i: nat, b: seq<byte>, j: nat): int
    requires i <= |a| && j <= |b|
    decreases |a| - i
  {
    if i == |a| || j == |b| then (if i < |a| then 1 else 0) - (if j < |b| then 1 else 0)
    else
      var order := TokenCompare(TokenAt(a, i), TokenAt(b, j));
      if order != 0 then order else Compare(a, TokenEnd(a, i), b, TokenEnd(b, j))
  }

  // ---- Tokens are totally ordered ---------------------------------------------------------------------------

  lemma {:induction false} ByteOrder(s: seq<byte>, t: seq<byte>)
    ensures ByteCompare(s, t) == -ByteCompare(t, s)
    ensures ByteCompare(s, t) == 0 <==> s == t
    decreases |s|
  {
    if s != [] && t != [] && s[0] == t[0] {
      ByteOrder(s[1..], t[1..]);
      assert s == [s[0]] + s[1..] && t == [t[0]] + t[1..];
    }
  }

  lemma {:induction false} ByteTransitive(s: seq<byte>, t: seq<byte>, u: seq<byte>)
    requires ByteCompare(s, t) <= 0 && ByteCompare(t, u) <= 0
    ensures ByteCompare(s, u) <= 0
    decreases |s|
  {
    if s != [] && t != [] && u != [] && s[0] == t[0] == u[0] {
      ByteTransitive(s[1..], t[1..], u[1..]);
    }
  }

  lemma {:induction false} ZerosLead(s: seq<byte>)
    ensures forall k :: 0 <= k < Zeros(s) ==> s[k] == ZERO
    decreases |s|
  {
    if s != [] && s[0] == ZERO {
      ZerosLead(s[1..]);
      assert forall k :: 1 <= k < |s| ==> s[k] == s[1..][k - 1];
    }
  }

  lemma RunOrder(s: seq<byte>, t: seq<byte>)
    ensures RunCompare(s, t) == -RunCompare(t, s)
    ensures RunCompare(s, t) == 0 <==> s == t
  {
    var (a, b) := (s[Zeros(s)..], t[Zeros(t)..]);
    ByteOrder(a, b);
    if a == b && |s| == |t| {
      ZerosLead(s);
      ZerosLead(t);
      assert s == s[..Zeros(s)] + a && t == t[..Zeros(t)] + b;
      assert s[..Zeros(s)] == t[..Zeros(t)];
    }
  }

  lemma RunTransitive(s: seq<byte>, t: seq<byte>, u: seq<byte>)
    requires RunCompare(s, t) <= 0 && RunCompare(t, u) <= 0
    ensures RunCompare(s, u) <= 0
  {
    var (a, b, c) := (s[Zeros(s)..], t[Zeros(t)..], u[Zeros(u)..]);
    if |a| == |b| == |c| {
      ByteOrder(a, b);
      ByteOrder(b, c);
      ByteOrder(a, c);
      ByteTransitive(a, b, c);
    }
  }

  lemma TokenOrder(x: Token, y: Token)
    requires Token?(x) && Token?(y)
    ensures TokenCompare(x, y) == -TokenCompare(y, x)
    ensures TokenCompare(x, y) == 0 <==> x == y
  {
    if x.Run? && y.Run? {
      RunOrder(x.digits, y.digits);
    }
  }

  lemma RunSqueezed(s: seq<byte>, t: seq<byte>, u: seq<byte>)
    requires RunCompare(s, t) <= 0 && RunCompare(t, u) <= 0 && RunCompare(s, u) == 0
    ensures s == t
  {
    RunOrder(s, u);
    RunOrder(s, t);
  }

  lemma TokenTransitive(x: Token, y: Token, z: Token)
    requires Token?(x) && Token?(y) && Token?(z) && TokenCompare(x, y) <= 0 && TokenCompare(y, z) <= 0
    ensures TokenCompare(x, z) <= 0
    ensures TokenCompare(x, z) == 0 ==> x == y == z
  {
    hide RunCompare;
    TokenOrder(x, y);
    TokenOrder(y, z);
    TokenOrder(x, z);
    if x.Run? && y.Run? && z.Run? {
      RunTransitive(x.digits, y.digits, z.digits);
      if RunCompare(x.digits, z.digits) == 0 {
        RunSqueezed(x.digits, y.digits, z.digits);
      }
    }
  }

  // ---- Labels are totally ordered ------------------------------------------------------------------------------

  lemma {:induction false} SameRun(a: seq<byte>, i: nat, b: seq<byte>, j: nat)
    requires i <= |a| && j <= |b| && a[i..] == b[j..]
    ensures RunEnd(a, i) - i == RunEnd(b, j) - j
    decreases |a| - i
  {
    if i < |a| {
      assert a[i] == a[i..][0] && b[j] == b[j..][0];
      assert a[i + 1..] == a[i..][1..] && b[j + 1..] == b[j..][1..];
      SameRun(a, i + 1, b, j + 1);
    }
  }

  /** Equal rests start with equal tokens, and equal tokens followed by equal rests make equal rests. */
  lemma TokensSpell(a: seq<byte>, i: nat, b: seq<byte>, j: nat)
    requires i < |a| && j < |b|
    ensures a[i..] == b[j..] <==> (TokenAt(a, i) == TokenAt(b, j) && a[TokenEnd(a, i)..] == b[TokenEnd(b, j)..])
  {
    var (p, q) := (TokenEnd(a, i), TokenEnd(b, j));
    assert a[i..] == a[i..p] + a[p..] && b[j..] == b[j..q] + b[q..];
    if a[i..] == b[j..] {
      assert a[i] == a[i..][0] == b[j..][0] == b[j];
      if Digit(a[i]) {
        SameRun(a, i, b, j);
      }
    } else if TokenAt(a, i) == TokenAt(b, j) {
      assert a[i..p] == b[j..q] by {
        if !Digit(a[i]) {
          assert a[i..p] == [a[i]] && b[j..q] == [b[j]];
        }
      }
    }
    if a[i..] == b[j..] {
      var n := p - i;
      assert a[p..] == a[i..][n..] && b[j + n..] == b[j..][n..];
      assert a[i..p] == a[i..][..n] && b[j..j + n] == b[j..][..n];
    }
  }

  /** Comparing the other way round gives the opposite answer, and only equal labels compare equal. */
  lemma {:induction false} CompareOrder(a: seq<byte>, i: nat, b: seq<byte>, j: nat)
    requires i <= |a| && j <= |b|
    ensures Compare(a, i, b, j) == -Compare(b, j, a, i)
    ensures Compare(a, i, b, j) == 0 <==> a[i..] == b[j..]
    decreases |a| - i
  {
    hide TokenCompare;
    if i < |a| && j < |b| {
      var (x, y) := (TokenAt(a, i), TokenAt(b, j));
      TokenOrder(x, y);
      TokensSpell(a, i, b, j);
      if x == y {
        CompareOrder(a, TokenEnd(a, i), b, TokenEnd(b, j));
      }
    } else {
      assert i == |a| ==> a[i..] == [];
      assert j == |b| ==> b[j..] == [];
    }
  }

  lemma {:induction false} CompareTransitive(a: seq<byte>, i: nat, b: seq<byte>, j: nat, c: seq<byte>, k: nat)
    requires i <= |a| && j <= |b| && k <= |c| && Compare(a, i, b, j) <= 0 && Compare(b, j, c, k) <= 0
    ensures Compare(a, i, c, k) <= 0
    decreases |a| - i
  {
    hide TokenCompare;
    if i < |a| && j < |b| && k < |c| {
      var (x, y, z) := (TokenAt(a, i), TokenAt(b, j), TokenAt(c, k));
      TokenTransitive(x, y, z);
      TokenOrder(x, z);
      TokenOrder(x, y);
      TokenOrder(y, z);
      if x == y == z {
        CompareTransitive(a, TokenEnd(a, i), b, TokenEnd(b, j), c, TokenEnd(c, k));
      }
    }
  }

  function Natural(a: seq<byte>, b: seq<byte>): int {
    Compare(a, 0, b, 0)
  }

  /** The label order is total: reflexive, antisymmetric, transitive, and never undecided between
      different labels. */
  lemma NaturalTotal(a: seq<byte>, b: seq<byte>, c: seq<byte>)
    ensures Natural(a, b) == 0 <==> a == b
    ensures Natural(a, b) == -Natural(b, a)
    ensures Natural(a, b) <= 0 && Natural(b, c) <= 0 ==> Natural(a, c) <= 0
  {
    hide Compare;
    assert a[0..] == a && b[0..] == b;
    CompareOrder(a, 0, b, 0);
    if Natural(a, b) <= 0 && Natural(b, c) <= 0 {
      CompareTransitive(a, 0, b, 0, c, 0);
    }
  }

  // ---- What the order means for labels --------------------------------------------------------------------------

  function Pow10(n: nat): (r: nat)
    ensures r > 0
  {
    if n == 0 then 1 else 10 * Pow10(n - 1)
  }

  lemma ValueMore(s: seq<byte>)
    requires AllDigits(s) && s != []
    ensures AllDigits(s[..|s| - 1]) && Value(s) == 10 * Value(s[..|s| - 1]) + (s[|s| - 1] as int - 48)
  {}

  lemma Scaled(c: nat, unit: nat, v: nat, d: nat)
    ensures 10 * (c * unit + v) + d == c * (10 * unit) + (10 * v + d)
  {}

  lemma NoDigits()
    ensures Value([]) == 0 && Pow10(0) == 1
  {}

  /** The first digit of a run counts most. */
  lemma {:induction false} ValueCons(c: byte, s: seq<byte>)
    requires Digit(c) && AllDigits(s)
    ensures AllDigits([c] + s) && Value([c] + s) == (c as int - 48) * Pow10(|s|) + Value(s)
    decreases |s|
  {
    hide Value;
    var all := [c] + s;
    ValueMore(all);
    if s == [] {
      assert all[..0] == [];
      NoDigits();
    } else {
      var n := |s| - 1;
      assert all[..n + 1] == [c] + s[..n] && all[n + 1] == s[n];
      ValueCons(c, s[..n]);
      ValueMore(s);
      Scaled(c as int - 48, Pow10(n), Value(s[..n]), s[n] as int - 48);
    }
  }

  lemma OneDigit(c: nat, unit: nat, rest: nat)
    requires c <= 9 && rest < unit
    ensures c * unit + rest < 10 * unit && (c > 0 ==> unit <= c * unit + rest)
  {
    assert c * unit <= 9 * unit;
    if c > 0 { assert 1 * unit <= c * unit; }
  }

  lemma {:induction false} ValueBound(s: seq<byte>)
    requires AllDigits(s)
    ensures Value(s) < Pow10(|s|)
    ensures s != [] && s[0] != ZERO ==> Pow10(|s| - 1) <= Value(s)
    decreases |s|
  {
    if s != [] {
      hide Value;
      assert s == [s[0]] + s[1..] && Digit(s[0]);
      ValueCons(s[0], s[1..]);
      ValueBound(s[1..]);
      OneDigit(s[0] as int - 48, Pow10(|s| - 1), Value(s[1..]));
    } else {
      assert Value([]) == 0;
    }
  }

  lemma {:induction false} ZerosIgnored(s: seq<byte>)
    requires AllDigits(s)
    ensures Value(s[Zeros(s)..]) == Value(s)
    ensures var a := s[Zeros(s)..]; a != [] ==> a[0] != ZERO
    decreases |s|
  {
    if s != [] && s[0] == ZERO {
      assert s == [s[0]] + s[1..] && s[Zeros(s)..] == s[1..][Zeros(s[1..])..];
      ValueCons(s[0], s[1..]);
      ZerosIgnored(s[1..]);
    } else {
      assert s[0..] == s;
    }
  }

  lemma Longer(m: nat, n: nat)
    requires m <= n
    ensures Pow10(m) <= Pow10(n)
    decreases n
  {
    if m < n { Longer(m, n - 1); }
  }

  lemma {:induction false} NotNegative(k: nat, unit: nat)
    ensures k * unit >= 0
  {
    if k > 0 {
      NotNegative(k - 1, unit);
      assert k * unit == (k - 1) * unit + unit;
    }
  }

  lemma LeadingLess(c: nat, d: nat, unit: nat, x: nat, y: nat)
    requires x < unit && c < d
    ensures c * unit + x < d * unit + y
  {
    var k := d - c - 1;
    NotNegative(k, unit);
    assert d == c + k + 1;
    assert d * unit == c * unit + k * unit + unit;
  }

  lemma LeadingDecides(c: nat, d: nat, unit: nat, x: nat, y: nat)
    requires x < unit && y < unit
    ensures Sign((c * unit + x) - (d * unit + y)) == if c != d then Sign(c - d) else Sign(x - y)
  {
    if c < d {
      LeadingLess(c, d, unit, x, y);
    } else if c > d {
      LeadingLess(d, c, unit, y, x);
    }
  }

  /** Runs of equal length compare bytewise as they do by value. */
  lemma {:induction false} SameLength(s: seq<byte>, t: seq<byte>)
    requires AllDigits(s) && AllDigits(t) && |s| == |t|
    ensures ByteCompare(s, t) == Sign(Value(s) - Value(t))
    decreases |s|
  {
    if s != [] {
      var n := |s| - 1;
      assert s == [s[0]] + s[1..] && t == [t[0]] + t[1..] && Digit(s[0]) && Digit(t[0]);
      ValueCons(s[0], s[1..]);
      ValueCons(t[0], t[1..]);
      ValueBound(s[1..]);
      ValueBound(t[1..]);
      SameLength(s[1..], t[1..]);
      LeadingDecides(s[0] as int - 48, t[0] as int - 48, Pow10(n), Value(s[1..]), Value(t[1..]));
    }
  }

  lemma LongerIsMore(a: seq<byte>, b: seq<byte>)
    requires AllDigits(a) && AllDigits(b) && |a| < |b| && b[0] != ZERO
    ensures Value(a) < Value(b)
  {
    hide Value;
    ValueBound(a);
    ValueBound(b);
    Longer(|a|, |b| - 1);
  }

  /** Digit runs compare by the numbers they stand for, and by their lengths when those are equal. */
  lemma RunsByValue(s: seq<byte>, t: seq<byte>)
    requires AllDigits(s) && AllDigits(t)
    ensures RunCompare(s, t) == if Value(s) != Value(t) then Sign(Value(s) - Value(t)) else Sign(|s| - |t|)
  {
    hide Value, ByteCompare, Zeros;
    var (a, b) := (s[Zeros(s)..], t[Zeros(t)..]);
    ZerosIgnored(s);
    ZerosIgnored(t);
    if |a| == |b| {
      SameLength(a, b);
    } else if |a| < |b| {
      LongerIsMore(a, b);
    } else {
      LongerIsMore(b, a);
    }
  }

  predicate StartsPlain(s: seq<byte>) {
    s == [] || !Digit(s[0])
  }

  /** The prefix cuts no digit run of either label. */
  predicate CutsNoRun(p: seq<byte>, s: seq<byte>, t: seq<byte>) {
    p == [] || !Digit(p[|p| - 1]) || (StartsPlain(s) && StartsPlain(t))
  }

  lemma {:induction false} RunEndShift(p: seq<byte>, s: seq<byte>, i: nat)
    requires i <= |s|
    ensures RunEnd(p + s, |p| + i) == |p| + RunEnd(s, i)
    decreases |s| - i
  {
    if i < |s| {
      assert (p + s)[|p| + i] == s[i];
      RunEndShift(p, s, i + 1);
    }
  }

  lemma {:induction false} RunEndPrefix(p: seq<byte>, s: seq<byte>, i: nat)
    requires i <= |p| && (StartsPlain(s) || (p != [] && !Digit(p[|p| - 1]) && i < |p|))
    ensures RunEnd(p + s, i) == RunEnd(p, i)
    decreases |p| - i
  {
    if i < |p| {
      assert (p + s)[i] == p[i];
      if Digit(p[i]) { RunEndPrefix(p, s, i + 1); }
    }
  }

  lemma TokenShift(p: seq<byte>, s: seq<byte>, i: nat)
    requires i < |s|
    ensures TokenAt(p + s, |p| + i) == TokenAt(s, i) && TokenEnd(p + s, |p| + i) == |p| + TokenEnd(s, i)
  {
    assert (p + s)[|p| + i] == s[i];
    RunEndShift(p, s, i);
    assert (p + s)[|p| + i..|p| + RunEnd(s, i)] == s[i..RunEnd(s, i)];
  }

  /** Only what lies behind the cursors matters. */
  lemma {:induction false} CompareShift(p: seq<byte>, s: seq<byte>, i: nat, q: seq<byte>, t: seq<byte>, j: nat)
    requires i <= |s| && j <= |t|
    ensures Compare(p + s, |p| + i, q + t, |q| + j) == Compare(s, i, t, j)
    decreases |s| - i
  {
    if i < |s| && j < |t| {
      hide TokenCompare;
      TokenShift(p, s, i);
      TokenShift(q, t, j);
      CompareShift(p, s, TokenEnd(s, i), q, t, TokenEnd(t, j));
    }
  }

  lemma TokenPrefix(p: seq<byte>, s: seq<byte>, i: nat)
    requires i < |p| && (StartsPlain(s) || !Digit(p[|p| - 1]))
    ensures TokenAt(p + s, i) == TokenAt(p, i) && TokenEnd(p + s, i) == TokenEnd(p, i)
  {
    assert (p + s)[i] == p[i];
    RunEndPrefix(p, s, i);
    assert (p + s)[i..RunEnd(p, i)] == p[i..RunEnd(p, i)];
  }

  lemma CompareUnfold(a: seq<byte>, i: nat, b: seq<byte>, j: nat)
    requires i < |a| && j < |b|
    ensures Compare(a, i, b, j) == (
      var order := TokenCompare(TokenAt(a, i), TokenAt(b, j));
      if order != 0 then order else Compare(a, TokenEnd(a, i), b, TokenEnd(b, j)))
  {}

  lemma {:induction false} SkipPrefix(p: seq<byte>, s: seq<byte>, t: seq<byte>, i: nat)
    requires i <= |p| && CutsNoRun(p, s, t)
    ensures Compare(p + s, i, p + t, i) == Compare(s, 0, t, 0)
    decreases |p| - i
  {
    if i == |p| {
      CompareShift(p, s, 0, p, t, 0);
    } else {
      hide TokenCompare;
      TokenPrefix(p, s, i);
      TokenPrefix(p, t, i);
      TokenOrder(TokenAt(p, i), TokenAt(p, i));
      CompareUnfold(p + s, i, p + t, i);
      SkipPrefix(p, s, t, TokenEnd(p, i));
    }
  }

  /** A common beginning that cuts no run does not matter. */
  lemma CommonPrefix(p: seq<byte>, s: seq<byte>, t: seq<byte>)
    requires CutsNoRun(p, s, t)
    ensures Natural(p + s, p + t) == Natural(s, t)
  {
    SkipPrefix(p, s, t, 0);
  }

  lemma {:induction false} AllRun(d: seq<byte>, i: nat)
    requires AllDigits(d) && i <= |d|
    ensures RunEnd(d, i) == |d|
    decreases |d| - i
  {
    if i < |d| { AllRun(d, i + 1); }
  }

  lemma WholeRun(d: seq<byte>, s: seq<byte>)
    requires Digits(d) && StartsPlain(s)
    ensures TokenAt(d + s, 0) == Run(d) && TokenEnd(d + s, 0) == |d|
  {
    assert (d + s)[0] == d[0] && Digit(d[0]);
    RunEndPrefix(d, s, 0);
    AllRun(d, 0);
    assert (d + s)[..|d|] == d;
  }

  lemma FirstRuns(d: seq<byte>, e: seq<byte>, s: seq<byte>, t: seq<byte>)
    requires Digits(d) && Digits(e) && StartsPlain(s) && StartsPlain(t)
    ensures Natural(d + s, e + t) ==
      if Value(d) != Value(e) then Sign(Value(d) - Value(e))
      else if |d| != |e| then Sign(|d| - |e|) else Natural(s, t)
  {
    hide RunCompare, Value, Compare, TokenAt, TokenEnd;
    WholeRun(d, s);
    WholeRun(e, t);
    RunsByValue(d, e);
    CompareUnfold(d + s, 0, e + t, 0);
    CompareShift(d, s, 0, e, t, 0);
  }

  /** Numbers at the same place compare as numbers, however many digits they have; of two spellings of one
      number the shorter comes first. */
  lemma NumbersAsNumbers(p: seq<byte>, d: seq<byte>, e: seq<byte>, s: seq<byte>, t: seq<byte>)
    requires (p == [] || !Digit(p[|p| - 1])) && Digits(d) && Digits(e) && StartsPlain(s) && StartsPlain(t)
    ensures Value(d) < Value(e) ==> Natural(p + d + s, p + e + t) == -1
    ensures Value(d) > Value(e) ==> Natural(p + d + s, p + e + t) == 1
    ensures Value(d) == Value(e) && |d| < |e| ==> Natural(p + d + s, p + e + t) == -1
    ensures Value(d) == Value(e) && |d| > |e| ==> Natural(p + d + s, p + e + t) == 1
    ensures d == e ==> Natural(p + d + s, p + e + t) == Natural(s, t)
  {
    hide Value, Natural, Compare;
    assert p + d + s == p + (d + s) && p + e + t == p + (e + t);
    CommonPrefix(p, d + s, e + t);
    FirstRuns(d, e, s, t);
  }

  /** So a label with the smaller number comes first, whatever follows. */
  lemma SmallerFirst(p: seq<byte>, m: nat, n: nat, s: seq<byte>, t: seq<byte>)
    requires (p == [] || !Digit(p[|p| - 1])) && StartsPlain(s) && StartsPlain(t) && m < n
    ensures Natural(p + Print(m) + s, p + Print(n) + t) == -1
  {
    ValuePrint(m);
    ValuePrint(n);
    NumbersAsNumbers(p, Print(m), Print(n), s, t);
  }

  /** Other bytes compare as bytes. */
  lemma BytesAsBytes(p: seq<byte>, c: byte, s: seq<byte>, d: byte, t: seq<byte>)
    requires CutsNoRun(p, [c] + s, [d] + t) && c != d && !(Digit(c) && Digit(d))
    ensures Natural(p + ([c] + s), p + ([d] + t)) == if c < d then -1 else 1
  {
    CommonPrefix(p, [c] + s, [d] + t);
    CompareUnfold([c] + s, 0, [d] + t, 0);
  }

  /** A label comes before its continuations. */
  lemma ShorterFirst(p: seq<byte>, t: seq<byte>)
    requires CutsNoRun(p, [], t) && t != []
    ensures Natural(p, p + t) == -1
  {
    assert p + [] == p;
    CommonPrefix(p, [], t);
  }

  // ---- The comparison as it is computed ---------------------------------------------------------------------------

  method SkipZeros(s: seq<byte>, p: nat, end: nat) returns (q: nat)
    requires p <= end <= |s|
    ensures q == p + Zeros(s[p..end])
  {
    q := p;
    while q < end && s[q] == ZERO
      invariant p <= q <= end && Zeros(s[p..end]) == q - p + Zeros(s[q..end])
    {
      assert s[q..end][1..] == s[q + 1..end];
      q := q + 1;
    }
  }

  /** memcmp over stretches of equal length. */
  method CompareBytes(a: seq<byte>, i: nat, b: seq<byte>, j: nat, n: nat) returns (order: int)
    requires i + n <= |a| && j + n <= |b|
    ensures order == ByteCompare(a[i..i + n], b[j..j + n])
  {
    var k: nat := 0;
    while k < n
      invariant k <= n && ByteCompare(a[i..i + n], b[j..j + n]) == ByteCompare(a[i + k..i + n], b[j + k..j + n])
    {
      if a[i + k] != b[j + k] { return Sign(a[i + k] as int - b[j + k] as int); }
      assert a[i + k..i + n][1..] == a[i + k + 1..i + n] && b[j + k..j + n][1..] == b[j + k + 1..j + n];
      k := k + 1;
    }
    order := 0;
  }

  /** Two runs, without leaving the strings. */
  method CompareRuns(a: seq<byte>, i: nat, b: seq<byte>, j: nat, p: nat, q: nat) returns (order: int)
    requires i <= p <= |a| && j <= q <= |b|
    ensures order == RunCompare(a[i..p], b[j..q])
  {
    var (s, t) := (a[i..p], b[j..q]);
    var x := SkipZeros(a, i, p);
    var y := SkipZeros(b, j, q);
    assert s[Zeros(s)..] == a[x..p] && t[Zeros(t)..] == b[y..q];
    if p - x != q - y { return if p - x < q - y then -1 else 1; }
    order := CompareBytes(a, x, b, y, p - x);
    if order != 0 { return; }
    if p - i != q - j { return if p - i < q - j then -1 else 1; }
  }

  method NaturalCompare(a: seq<byte>, b: seq<byte>) returns (order: int)
    ensures order == Natural(a, b)
  {
    hide RunCompare, RunEnd;
    var i: nat, j: nat := 0, 0;
    while i < |a| && j < |b|
      invariant i <= |a| && j <= |b| && Natural(a, b) == Compare(a, i, b, j)
      decreases |a| - i
    {
      CompareUnfold(a, i, b, j);
      if Digit(a[i]) && Digit(b[j]) {
        var p := SkipDigits(a, i);
        var q := SkipDigits(b, j);
        order := CompareRuns(a, i, b, j, p, q);
        if order != 0 { return; }
        i, j := TokenEnd(a, i), TokenEnd(b, j);
      } else {
        if a[i] != b[j] { return if a[i] < b[j] then -1 else 1; }
        i, j := i + 1, j + 1;
      }
    }
    order := (if i < |a| then 1 else 0) - (if j < |b| then 1 else 0);
  }

  // ---- Readings ------------------------------------------------------------------------------------------------------

  datatype Reading = Reading(device: seq<byte>, name: seq<byte>, registryId: u64, ordinal: int)

  /** The first comparison that decides. */
  function Then(first: int, next: int): int {
    if first != 0 then first else next
  }

  function ReadingOrder(a: Reading, b: Reading): int {
    Then(ByteCompare(a.device, b.device), Then(Natural(a.name, b.name),
      Then(Sign(a.registryId as int - b.registryId as int), Sign(a.ordinal - b.ordinal))))
  }

  method CompareText(a: seq<byte>, b: seq<byte>) returns (order: int)
    ensures order == ByteCompare(a, b)
  {
    var n := if |a| < |b| then |a| else |b|;
    var k: nat := 0;
    while k < n
      invariant k <= n && ByteCompare(a, b) == ByteCompare(a[k..], b[k..])
    {
      if a[k] != b[k] { return Sign(a[k] as int - b[k] as int); }
      assert a[k..][1..] == a[k + 1..] && b[k..][1..] == b[k + 1..];
      k := k + 1;
    }
    order := Sign(|a| - |b|);
  }

  method ReadingCompare(a: Reading, b: Reading) returns (order: int)
    ensures order == ReadingOrder(a, b)
  {
    hide ByteCompare, Natural;
    order := CompareText(a.device, b.device);
    if order == 0 { order := NaturalCompare(a.name, b.name); }
    if order == 0 && a.registryId != b.registryId { order := if a.registryId < b.registryId then -1 else 1; }
    if order == 0 { order := (if a.ordinal > b.ordinal then 1 else 0) - (if a.ordinal < b.ordinal then 1 else 0); }
  }

  /** Devices compare byte by byte at the first difference, a beginning of another coming first. */
  lemma {:induction false} DevicesByBytes(p: seq<byte>, s: seq<byte>, t: seq<byte>)
    requires s == [] || t == [] || s[0] != t[0]
    ensures ByteCompare(p + s, p + t) ==
      if s == [] && t == [] then 0 else if s == [] then -1 else if t == [] then 1 else if s[0] < t[0] then -1 else 1
    decreases |p|
  {
    if p == [] {
      assert p + s == s && p + t == t;
    } else {
      assert (p + s)[1..] == p[1..] + s && (p + t)[1..] == p[1..] + t;
      DevicesByBytes(p[1..], s, t);
    }
  }

  /** The device decides, then the label, then the registry number, then the ordinal. */
  lemma ReadingMeans(a: Reading, b: Reading, p: seq<byte>, s: seq<byte>, t: seq<byte>)
    requires a.device == p + s && b.device == p + t && (s == [] || t == [] || s[0] != t[0])
    ensures a.device != b.device ==> ReadingOrder(a, b) == if s == [] || (t != [] && s[0] < t[0]) then -1 else 1
    ensures a.device == b.device && a.name != b.name ==> ReadingOrder(a, b) == Natural(a.name, b.name)
    ensures a.device == b.device && a.name == b.name && a.registryId < b.registryId ==> ReadingOrder(a, b) == -1
    ensures a.device == b.device && a.name == b.name && a.registryId == b.registryId && a.ordinal < b.ordinal ==>
      ReadingOrder(a, b) == -1
  {
    hide ByteCompare, Natural;
    DevicesByBytes(p, s, t);
    ByteOrder(a.device, b.device);
    NaturalTotal(a.name, b.name, a.name);
  }

  /** The readings' order is total too, and rows that differ in anything - the ordinal at least - are never
      left undecided. */
  lemma ReadingTotal(a: Reading, b: Reading, c: Reading)
    ensures ReadingOrder(a, b) == 0 <==> a == b
    ensures ReadingOrder(a, b) == -ReadingOrder(b, a)
    ensures ReadingOrder(a, b) <= 0 && ReadingOrder(b, c) <= 0 ==> ReadingOrder(a, c) <= 0
  {
    hide ByteCompare, Natural;
    ByteOrder(a.device, b.device);
    ByteOrder(b.device, c.device);
    ByteOrder(a.device, c.device);
    NaturalTotal(a.name, b.name, c.name);
    NaturalTotal(b.name, c.name, a.name);
    NaturalTotal(a.name, c.name, b.name);
    if ByteCompare(a.device, b.device) <= 0 && ByteCompare(b.device, c.device) <= 0 {
      ByteTransitive(a.device, b.device, c.device);
    }
  }

  ghost predicate Sorted(rs: seq<Reading>) {
    forall i, j :: 0 <= i < j < |rs| ==> ReadingOrder(rs[i], rs[j]) <= 0
  }

  lemma SortedTail(s: seq<Reading>)
    requires s != [] && Sorted(s)
    ensures Sorted(s[1..])
  {
    hide ReadingOrder;
  }

  lemma Uncons(s: seq<Reading>)
    requires s != []
    ensures s == [s[0]] + s[1..] && multiset(s[1..]) == multiset(s) - multiset{s[0]}
  {
    assert s == [s[0]] + s[1..];
  }

  lemma FirstLeast(s: seq<Reading>, t: seq<Reading>)
    requires s != [] && t != [] && Sorted(s) && multiset(s) == multiset(t)
    ensures ReadingOrder(s[0], t[0]) <= 0
  {
    hide ReadingOrder;
    assert t[0] in multiset(t);
    assert t[0] in multiset(s);
    var k :| 0 <= k < |s| && s[k] == t[0];
    ReadingTotal(s[0], s[k], s[k]);
  }

  lemma FirstSame(s: seq<Reading>, t: seq<Reading>)
    requires s != [] && t != [] && Sorted(s) && Sorted(t) && multiset(s) == multiset(t)
    ensures s[0] == t[0]
  {
    hide ReadingOrder, Sorted;
    FirstLeast(s, t);
    FirstLeast(t, s);
    ReadingTotal(s[0], t[0], t[0]);
  }

  /** So any correct sorting routine lists the same readings in the same order. */
  lemma {:induction false} SortedOnce(s: seq<Reading>, t: seq<Reading>)
    requires Sorted(s) && Sorted(t) && multiset(s) == multiset(t)
    ensures s == t
    decreases |s|
  {
    assert |multiset(s)| == |s| && |multiset(t)| == |t|;
    if s != [] {
      hide Sorted, ReadingOrder;
      FirstSame(s, t);
      SortedTail(s);
      SortedTail(t);
      Uncons(s);
      Uncons(t);
      SortedOnce(s[1..], t[1..]);
    }
  }
}
