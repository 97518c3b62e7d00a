/** The fast path for /proc/<pid>/stat records and the reader of a process's start time. */
module ProcStat {
  import opened Bytes
  import opened Decimals

  const OPEN: byte := 40
  const CLOSE: byte := 41
  const MAX_PID: int := 2147483647

  predicate Space(c: byte) {
    c == 32 || 9 <= c <= 13
  }

  // ---- Integers ------------------------------------------------------------------------------------------

  predicate InRange(v: int) {
    -MAX_INTEGER - 1 <= v <= MAX_INTEGER
  }

  function Parsed(s: seq<byte>): Option<int> {
    if Decimal(s) && InRange(Meaning(s)) then Some(Meaning(s)) else None
  }

  /** Accepts exactly the decimal strings of the signed 64-bit range, its minimum included. The accumulator
      never leaves the unsigned 64-bit range. */
  method Integer(s: seq<byte>) returns (r: Option<int>)
    ensures r.Some? <==> Decimal(s) && -0x8000_0000_0000_0000 <= Meaning(s) <= 0x7FFF_FFFF_FFFF_FFFF
    ensures r.Some? ==> r.value == Meaning(s)
  {
    var negative := s != [] && s[0] == MINUS;
    var limit := MAX_INTEGER + if negative then 1 else 0;
    var digits := if negative then s[1..] else s;
    if digits == [] { return None; }
    var value: u64 := 0;
    for i := 0 to |digits|
      invariant AllDigits(digits[..i])
      invariant value == Value(digits[..i]) <= limit
    {
      if !Digit(digits[i]) {
        assert !AllDigits(digits);
        return None;
      }
      var digit: nat := digits[i] as int - 48;
      assert digits[..i + 1][..i] == digits[..i];
      if value > (limit - digit) / 10 {
        if Digits(digits) { ValueGrows(digits, i + 1); }
        return None;
      }
      value := value * 10 + digit;
    }
    assert digits[..|digits|] == digits;
    r := Some(if negative then 0 - value else value);
  }

  // ---- The record as the fast path reads it ---------------------------------------------------------------

  function SkipSpace(s: seq<byte>, p: nat): (q: nat)
    requires p <= |s|
    ensures p <= q <= |s|
    decreases |s| - p
  {
    if p < |s| && Space(s[p]) then SkipSpace(s, p + 1) else p
  }

  function TokenEnd(s: seq<byte>, p: nat): (q: nat)
    requires p <= |s|
    ensures p <= q <= |s|
    decreases |s| - p
  {
    if p < |s| && !Space(s[p]) then TokenEnd(s, p + 1) else p
  }

  function FirstOpen(s: seq<byte>, p: nat): (q: nat)
    requires p <= |s|
    ensures p <= q <= |s| && (q < |s| ==> s[q] == OPEN)
    decreases |s| - p
  {
    if p < |s| && s[p] != OPEN then FirstOpen(s, p + 1) else p
  }

  /** The last closing parenthesis in [lo, n), or lo when there is none. */
  function LastClose(s: seq<byte>, lo: nat, n: nat): (q: nat)
    requires lo <= n <= |s|
    ensures lo <= q <= n
    decreases n
  {
    if n == lo then lo else if s[n - 1] == CLOSE then n - 1 else LastClose(s, lo, n - 1)
  }

  function TrimEnd(s: seq<byte>, n: nat): (q: nat)
    requires n <= |s|
    ensures q <= n
    decreases n
  {
    if n > 0 && Space(s[n - 1]) then TrimEnd(s, n - 1) else n
  }

  predicate Needed(f: nat) {
    f in {1, 2, 3, 4, 6, 7, 9, 11, 12, 15, 16, 17, 19, 20, 21}
  }

  predicate NonNegative(f: nat) {
    f in {1, 2, 3, 6, 7, 9, 11, 12, 17, 19, 20}
  }

  /** The numbered fields after the state: those read so far and how many tokens were seen. */
  datatype Fields = Fields(values: seq<int>, count: nat)

  function Store(f: Fields, token: seq<byte>): Option<Fields>
    requires |f.values| == 37 && f.count < 36
  {
    var n := f.count + 1;
    if !Needed(n) && n != 36 then Some(f.(count := n))
    else
      var v := Parsed(token);
      if v.None? || (n == 36 && v.value < 0) then None else Some(Fields(f.values[n := v.value], n))
  }

  function Walk(s: seq<byte>, p: nat, f: Fields): Option<Fields>
    requires p <= |s| && |f.values| == 37 && f.count <= 36
    decreases |s| - p
  {
    var q := SkipSpace(s, p);
    if f.count == 36 || q == |s| then Some(f)
    else
      var next := Store(f, s[q..TokenEnd(s, q)]);
      if next.None? then None else Walk(s, TokenEnd(s, q), next.value)
  }

  datatype Stat = Stat(pid: int, name: seq<byte>, state: byte, values: seq<int>, cpuTicks: int, processor: Option<int>)

  /** The fields that must not be negative are not, and the tick sum fits. */
  predicate Acceptable(f: Fields) {
    |f.values| == 37 && f.count >= 21 && (forall i :: 0 <= i < 37 && NonNegative(i) ==> f.values[i] >= 0)
    && f.values[11] + f.values[12] <= MAX_INTEGER
  }

  function NoFields(): (f: Fields)
    ensures |f.values| == 37 && f.count == 0
  {
    Fields(seq(37, _ => 0), 0)
  }

  function PidOf(s: seq<byte>, open: nat): Option<int>
    requires open <= |s|
  {
    var end := TrimEnd(s, open);
    if end == open || s == [] || !Digit(s[0]) then None
    else
      var pid := Parsed(s[..end]);
      if pid.None? || pid.value <= 0 || pid.value > MAX_PID then None else pid
  }

  function ReadStat(s: seq<byte>): Option<Stat> {
    var open := FirstOpen(s, 0);
    if open == |s| || open == 0 then None
    else
      var (close, pid) := (LastClose(s, open + 1, |s|), PidOf(s, open));
      if close == open + 1 || pid.None? then None
      else
        var at := SkipSpace(s, close + 1);
        if at == |s| then None
        else
          var f := Walk(s, at + 1, NoFields());
          if f.None? || !Acceptable(f.value) then None
          else
            var v := f.value.values;
            Some(Stat(pid.value, s[open + 1..close], s[at], v, v[11] + v[12], if f.value.count == 36 then Some(v[36]) else None))
  }

  method SkipSpaces(s: seq<byte>, p: nat) returns (q: nat)
    requires p <= |s|
    ensures q == SkipSpace(s, p)
  {
    q := p;
    while q < |s| && Space(s[q])
      invariant p <= q <= |s| && SkipSpace(s, p) == SkipSpace(s, q)
    {
      q := q + 1;
    }
  }

  method SkipToken(s: seq<byte>, p: nat) returns (q: nat)
    requires p <= |s|
    ensures q == TokenEnd(s, p)
  {
    q := p;
    while q < |s| && !Space(s[q])
      invariant p <= q <= |s| && TokenEnd(s, p) == TokenEnd(s, q)
    {
      q := q + 1;
    }
  }

  lemma ParsedIs(token: seq<byte>, v: Option<int>)
    requires v.Some? <==> Decimal(token) && -0x8000_0000_0000_0000 <= Meaning(token) <= 0x7FFF_FFFF_FFFF_FFFF
    requires v.Some? ==> v.value == Meaning(token)
    ensures v == Parsed(token)
  {}

  /** Reading on from the start of a token. */
  function WalkFrom(s: seq<byte>, q: nat, f: Fields): Option<Fields>
    requires q < |s| && |f.values| == 37 && f.count < 36
  {
    var next := Store(f, s[q..TokenEnd(s, q)]);
    if next.None? then None else Walk(s, TokenEnd(s, q), next.value)
  }

  lemma WalkSkips(s: seq<byte>, q: nat, f: Fields)
    requires q <= |s| && |f.values| == 37 && f.count < 36
    ensures q == |s| ==> Walk(s, q, f) == Some(f)
    ensures SkipSpace(s, q) == q < |s| ==> Walk(s, q, f) == WalkFrom(s, q, f)
  {}

  method ReadFields(s: seq<byte>, start: nat) returns (f: Option<Fields>)
    requires start <= |s|
    ensures f == Walk(s, start, NoFields())
  {
    hide Needed, Parsed, NoFields;
    var cursor := start;
    var fields := NoFields();
    while cursor < |s| && fields.count < 36
      invariant cursor <= |s| && |fields.values| == 37 && fields.count <= 36
      invariant Walk(s, start, NoFields()) == Walk(s, cursor, fields)
      decreases |s| - cursor
    {
      cursor := SkipSpaces(s, cursor);
      WalkSkips(s, cursor, fields);
      if cursor == |s| { break; }
      var first := cursor;
      cursor := SkipToken(s, cursor);
      var n := fields.count + 1;
      var values := fields.values;
      if Needed(n) || n == 36 {
        var v := Integer(s[first..cursor]);
        ParsedIs(s[first..cursor], v);
        if v.None? || (n == 36 && v.value < 0) { return None; }
        values := values[n := v.value];
      }
      fields := Fields(values, n);
    }
    f := Some(fields);
  }

  lemma FieldBounds(f: Fields)
    requires Acceptable(f)
    ensures |f.values| == 37
  {}

  /** The fast path: any text that is not a record in the regular shape is declined. */
  method PushStatFields(s: seq<byte>) returns (r: Option<Stat>)
    ensures r == ReadStat(s)
  {
    hide Walk, Acceptable;
    var open := 0;
    while open < |s| && s[open] != OPEN
      invariant open <= |s| && FirstOpen(s, 0) == FirstOpen(s, open)
    {
      open := open + 1;
    }
    if open == |s| || open == 0 { return None; }
    var close := |s|;
    while close > open + 1 && s[close - 1] != CLOSE
      invariant open + 1 <= close <= |s| && LastClose(s, open + 1, |s|) == LastClose(s, open + 1, close)
    {
      close := close - 1;
    }
    if close == open + 1 { return None; }
    close := close - 1;
    if close == open + 1 { return None; }
    var end := open;
    while end > 0 && Space(s[end - 1])
      invariant end <= open && TrimEnd(s, open) == TrimEnd(s, end)
    {
      end := end - 1;
    }
    if end == open || !Digit(s[0]) { return None; }
    var pid := Integer(s[..end]);
    ParsedIs(s[..end], pid);
    if pid.None? || pid.value <= 0 || pid.value > MAX_PID { return None; }
    var at := SkipSpaces(s, close + 1);
    if at == |s| { return None; }
    var fields := ReadFields(s, at + 1);
    if fields.None? || !Acceptable(fields.value) { return None; }
    var v := fields.value.values;
    FieldBounds(fields.value);
    r := Some(Stat(pid.value, s[open + 1..close], s[at], v, v[11] + v[12],
      if fields.value.count == 36 then Some(v[36]) else None));
  }

  // ---- Printed records are read back -----------------------------------------------------------------------

  const BLANK: byte := 32
  const NEWLINE: byte := 10

  /** The numbers after the state, each after a blank, and the final newline. */
  function Tail(vs: seq<int>): (s: seq<byte>)
    ensures s != []
  {
    if vs == [] then [NEWLINE] else [BLANK] + PrintInt(vs[0]) + Tail(vs[1..])
  }

  /** A record in the kernel's layout. */
  function Record(pid: nat, name: seq<byte>, state: byte, vs: seq<int>): seq<byte> {
    Print(pid) + [BLANK, OPEN] + name + [CLOSE, BLANK, state] + Tail(vs)
  }

  /** Printed numbers hold neither blanks nor parentheses. */
  lemma PrintedPlain(v: int)
    ensures forall i :: 0 <= i < |PrintInt(v)| ==> Digit(PrintInt(v)[i]) || PrintInt(v)[i] == MINUS
  {
    var t := PrintInt(v);
    if v < 0 {
      assert t[1..] == Print(-v);
      forall i | 1 <= i < |t| ensures Digit(t[i]) {
        assert t[i] == t[1..][i - 1];
      }
    }
  }

  lemma {:induction false} TokenStops(s: seq<byte>, p: nat, q: nat)
    requires p <= q < |s| && Space(s[q]) && forall k :: p <= k < q ==> !Space(s[k])
    ensures TokenEnd(s, p) == q
    decreases q - p
  {
    if p < q {
      TokenStops(s, p + 1, q);
    }
  }

  /** From p on the text is exactly x. */
  predicate Rest(s: seq<byte>, p: nat, x: seq<byte>) {
    p <= |s| && s[p..] == x
  }

  lemma RestSplit(s: seq<byte>, p: nat, a: seq<byte>, b: seq<byte>)
    requires Rest(s, p, a + b)
    ensures p + |a| <= |s| && s[p..p + |a|] == a && Rest(s, p + |a|, b)
  {
    assert s[p..][..|a|] == a && s[p..][|a|..] == b;
  }

  lemma RestFirst(s: seq<byte>, p: nat, x: seq<byte>)
    requires Rest(s, p, x)
    ensures p + |x| == |s|
    ensures x != [] ==> p < |s| && s[p] == x[0]
  {
    if x != [] {
      assert s[p] == s[p..][0];
    }
  }

  lemma TailCons(v: int, rest: seq<int>)
    ensures Tail([v] + rest) == [BLANK] + (PrintInt(v) + Tail(rest))
    ensures Tail(rest)[0] == BLANK || Tail(rest)[0] == NEWLINE
  {
    assert ([v] + rest)[1..] == rest;
  }

  lemma TokenWhole(s: seq<byte>, p: nat, v: int)
    requires p + |PrintInt(v)| < |s| && s[p..p + |PrintInt(v)|] == PrintInt(v) && Space(s[p + |PrintInt(v)|])
    ensures TokenEnd(s, p) == p + |PrintInt(v)| && !Space(s[p])
  {
    hide PrintInt;
    var t := PrintInt(v);
    PrintedPlain(v);
    forall k | p <= k < p + |t| ensures !Space(s[k]) {
      assert s[k] == s[p..p + |t|][k - p];
    }
    TokenStops(s, p, p + |t|);
  }

  lemma BlankSkipped(s: seq<byte>, p: nat)
    requires p + 1 < |s| && s[p] == BLANK && !Space(s[p + 1])
    ensures SkipSpace(s, p) == p + 1
  {
    assert SkipSpace(s, p) == SkipSpace(s, p + 1);
  }

  lemma Separators()
    ensures Space(BLANK) && Space(NEWLINE)
  {}

  lemma TailParts(s: seq<byte>, p: nat, v: int, rest: seq<int>)
    requires Rest(s, p, Tail([v] + rest))
    ensures var e := p + 1 + |PrintInt(v)|;
      e < |s| && s[p] == BLANK && s[p + 1..e] == PrintInt(v) && Rest(s, e, Tail(rest))
      && (s[e] == BLANK || s[e] == NEWLINE)
  {
    hide *;
    var t := PrintInt(v);
    TailCons(v, rest);
    RestFirst(s, p, [BLANK] + (t + Tail(rest)));
    RestSplit(s, p, [BLANK], t + Tail(rest));
    RestSplit(s, p + 1, t, Tail(rest));
    RestFirst(s, p + 1 + |t|, Tail(rest));
  }

  /** Between two numbers of a tail: skip one blank, take the printed digits, stop before what follows. */
  lemma TailToken(s: seq<byte>, p: nat, v: int, rest: seq<int>)
    requires Rest(s, p, Tail([v] + rest))
    ensures var (q, e) := (p + 1, p + 1 + |PrintInt(v)|);
      SkipSpace(s, p) == q < e < |s| && TokenEnd(s, q) == e && s[q..e] == PrintInt(v) && Rest(s, e, Tail(rest))
      && s[p] == BLANK && (s[e] == BLANK || s[e] == NEWLINE)
  {
    hide *;
    TailParts(s, p, v, rest);
    Separators();
    TokenWhole(s, p + 1, v);
    BlankSkipped(s, p);
  }

  predicate TokenFits(n: nat, v: int) {
    (Needed(n) || n == 36 ==> InRange(v)) && (n == 36 ==> v >= 0)
  }

  function Stored(f: Fields, v: int): (r: Fields)
    requires |f.values| == 37 && f.count < 36
    ensures |r.values| == 37 && r.count == f.count + 1
  {
    var n := f.count + 1;
    Fields(if Needed(n) || n == 36 then f.values[n := v] else f.values, n)
  }

  /** The numbers a reader collects: needed positions take their value, the rest is skipped. */
  function Fill(f: Fields, vs: seq<int>): (r: Fields)
    requires |f.values| == 37 && f.count <= 36
    ensures |r.values| == 37
    decreases |vs|
  {
    if vs == [] || f.count == 36 then f else Fill(Stored(f, vs[0]), vs[1..])
  }

  lemma StorePrinted(f: Fields, v: int)
    requires |f.values| == 37 && f.count < 36 && TokenFits(f.count + 1, v)
    ensures Store(f, PrintInt(v)) == Some(Stored(f, v))
  {
    MeaningPrint(v);
  }

  lemma WalkEnds(s: seq<byte>, p: nat, f: Fields)
    requires p <= |s| && |f.values| == 37 && f.count <= 36 && SkipSpace(s, p) == |s|
    ensures Walk(s, p, f) == Some(f)
  {}

  lemma WalkOne(s: seq<byte>, p: nat, f: Fields)
    requires p <= |s| && |f.values| == 37 && f.count < 36 && SkipSpace(s, p) < |s|
    ensures Walk(s, p, f) == WalkFrom(s, SkipSpace(s, p), f)
  {}

  /** One printed number: the walk stores or skips it and goes on behind it. */
  lemma WalkNumber(s: seq<byte>, p: nat, f: Fields, v: int, rest: seq<int>)
    requires Rest(s, p, Tail([v] + rest)) && |f.values| == 37 && f.count < 36 && TokenFits(f.count + 1, v)
    ensures var e := p + 1 + |PrintInt(v)|;
      e < |s| && Rest(s, e, Tail(rest)) && Walk(s, p, f) == Walk(s, e, Stored(f, v))
  {
    hide Walk, TokenFits, Store, TokenEnd, SkipSpace, Rest, Tail, PrintInt, Stored;
    TailToken(s, p, v, rest);
    StorePrinted(f, v);
    WalkOne(s, p, f);
  }

  lemma WalkLast(s: seq<byte>, p: nat, f: Fields)
    requires Rest(s, p, Tail([])) && |f.values| == 37 && f.count <= 36
    ensures Walk(s, p, f) == Some(f)
  {
    RestFirst(s, p, [NEWLINE]);
    assert SkipSpace(s, p) == SkipSpace(s, p + 1) == |s|;
    WalkEnds(s, p, f);
  }

  /** The numbers from the f-th position on fit where they will be stored. */
  predicate AllFit(f: nat, vs: seq<int>) {
    forall i :: 0 <= i < |vs| && f + i < 36 ==> TokenFits(f + i + 1, vs[i])
  }

  lemma FitFirst(f: nat, vs: seq<int>)
    requires AllFit(f, vs) && vs != [] && f < 36
    ensures vs == [vs[0]] + vs[1..] && TokenFits(f + 1, vs[0]) && AllFit(f + 1, vs[1..])
  {
    hide TokenFits;
    forall i | 0 <= i < |vs[1..]| && f + 1 + i < 36 ensures TokenFits(f + 1 + i + 1, vs[1..][i]) {
      assert vs[1..][i] == vs[i + 1];
    }
  }

  lemma FillFirst(f: Fields, vs: seq<int>)
    requires |f.values| == 37 && f.count <= 36
    ensures vs == [] || f.count == 36 ==> Fill(f, vs) == f
    ensures vs != [] && f.count < 36 ==> Fill(f, vs) == Fill(Stored(f, vs[0]), vs[1..])
  {}

  lemma WalkFull(s: seq<byte>, p: nat, f: Fields)
    requires p <= |s| && |f.values| == 37 && f.count == 36
    ensures Walk(s, p, f) == Some(f)
  {}

  lemma {:induction false} WalkTail(s: seq<byte>, p: nat, f: Fields, vs: seq<int>)
    requires Rest(s, p, Tail(vs)) && |f.values| == 37 && f.count <= 36 && AllFit(f.count, vs)
    ensures p <= |s| && Walk(s, p, f) == Some(Fill(f, vs))
    decreases |vs|
  {
    hide *;
    RestFirst(s, p, Tail(vs));
    FillFirst(f, vs);
    if f.count == 36 {
      WalkFull(s, p, f);
    } else if vs == [] {
      WalkLast(s, p, f);
    } else {
      FitFirst(f.count, vs);
      WalkNumber(s, p, f, vs[0], vs[1..]);
      WalkTail(s, p + 1 + |PrintInt(vs[0])|, Stored(f, vs[0]), vs[1..]);
    }
  }

  lemma {:induction false} FillAt(f: Fields, vs: seq<int>, i: nat)
    requires |f.values| == 37 && f.count <= 36 && i < 37
    ensures Fill(f, vs).count == if f.count + |vs| < 36 then f.count + |vs| else 36
    ensures Fill(f, vs).values[i] ==
      if f.count < i <= f.count + |vs| && (Needed(i) || i == 36) then vs[i - f.count - 1] else f.values[i]
    decreases |vs|
  {
    hide Needed;
    if vs != [] && f.count < 36 {
      FillAt(Stored(f, vs[0]), vs[1..], i);
    }
  }

  /** What the kernel prints into the positions that are read. */
  predicate Printable(pid: int, name: seq<byte>, state: byte, vs: seq<int>) {
    0 < pid <= MAX_PID && name != [] && !Space(state) && state != CLOSE && |vs| >= 21
    && AllFit(0, vs)
    && (forall i :: 1 <= i <= 21 && NonNegative(i) ==> vs[i - 1] >= 0) && vs[10] + vs[11] <= MAX_INTEGER
  }

  lemma {:induction false} NoOpen(s: seq<byte>, p: nat, q: nat)
    requires p <= q < |s| && s[q] == OPEN && forall k :: p <= k < q ==> s[k] != OPEN
    ensures FirstOpen(s, p) == q
    decreases q - p
  {
    if p < q {
      NoOpen(s, p + 1, q);
    }
  }

  lemma {:induction false} NoClose(s: seq<byte>, lo: nat, q: nat, n: nat)
    requires lo <= q < n <= |s| && s[q] == CLOSE && forall k :: q < k < n ==> s[k] != CLOSE
    ensures LastClose(s, lo, n) == q
    decreases n
  {
    if q < n - 1 {
      NoClose(s, lo, q, n - 1);
    }
  }

  lemma {:induction false} TailPlain(vs: seq<int>)
    ensures forall i :: 0 <= i < |Tail(vs)| ==> Tail(vs)[i] != CLOSE && Tail(vs)[i] != 0
    decreases |vs|
  {
    if vs != [] {
      TailPlain(vs[1..]);
      PrintedPlain(vs[0]);
      var (t, rest) := (PrintInt(vs[0]), Tail(vs[1..]));
      forall i | 0 <= i < |Tail(vs)| ensures Tail(vs)[i] != CLOSE && Tail(vs)[i] != 0 {
        if i > |t| {
          assert Tail(vs)[i] == rest[i - 1 - |t|];
        } else if i > 0 {
          assert Tail(vs)[i] == t[i - 1];
        }
      }
    }
  }

  lemma RecordSplit(pid: nat, name: seq<byte>, state: byte, vs: seq<int>)
    ensures Record(pid, name, state, vs) == Print(pid) + ([BLANK, OPEN] + (name + ([CLOSE, BLANK, state] + Tail(vs))))
  {
    hide Print, Tail;
  }

  lemma Around(s: seq<byte>, t: seq<byte>, name: seq<byte>, state: byte, tail: seq<byte>)
    requires s == t + ([BLANK, OPEN] + (name + ([CLOSE, BLANK, state] + tail)))
    ensures var open := |t| + 1;
      var close := open + 1 + |name|;
      close + 3 <= |s| && s[..open - 1] == t && s[open - 1] == BLANK && s[open] == OPEN && s[open + 1..close] == name
      && s[close] == CLOSE && s[close + 1] == BLANK && s[close + 2] == state && Rest(s, close + 3, tail)
  {
    var (foot, c) := ([CLOSE, BLANK, state], |t| + 2 + |name|);
    assert Rest(s, 0, s);
    hide *;
    RestSplit(s, 0, t, [BLANK, OPEN] + (name + (foot + tail)));
    RestSplit(s, |t|, [BLANK, OPEN], name + (foot + tail));
    RestSplit(s, |t| + 2, name, foot + tail);
    RestSplit(s, c, foot, tail);
    assert s[..|t|] == s[0..0 + |t|];
    assert s[|t| + 1] == s[|t|..|t| + 2][1];
    assert s[c + 1] == s[c..c + 3][1] && s[c + 2] == s[c..c + 3][2];
  }

  /** Where the parts of a record lie. */
  lemma RecordParts(pid: nat, name: seq<byte>, state: byte, vs: seq<int>)
    ensures var (s, open) := (Record(pid, name, state, vs), |Print(pid)| + 1);
      var close := open + 1 + |name|;
      close + 3 <= |s| && s[..open - 1] == Print(pid) && s[open - 1] == BLANK && s[open] == OPEN && s[open + 1..close] == name
      && s[close] == CLOSE && s[close + 1] == BLANK && s[close + 2] == state && Rest(s, close + 3, Tail(vs))
  {
    hide *;
    RecordSplit(pid, name, state, vs);
    var (s, t) := (Record(pid, name, state, vs), Print(pid));
    Around(s, t, name, state, Tail(vs));
  }

  /** The delimiters are found where they were printed, whatever the name contains. */
  lemma RecordDelimiters(pid: nat, name: seq<byte>, state: byte, vs: seq<int>)
    requires state != CLOSE
    ensures var (s, open) := (Record(pid, name, state, vs), |Print(pid)| + 1);
      var close := open + 1 + |name|;
      open < close < |s| && FirstOpen(s, 0) == open && LastClose(s, open + 1, |s|) == close
  {
    hide Print, Tail, Record;
    RecordParts(pid, name, state, vs);
    var (s, open) := (Record(pid, name, state, vs), |Print(pid)| + 1);
    var close := open + 1 + |name|;
    forall k | 0 <= k < open ensures s[k] != OPEN {
      if k < open - 1 {
        assert s[k] == s[..open - 1][k] == Print(pid)[k];
        assert Digit(Print(pid)[k]);
      }
    }
    NoOpen(s, 0, open);
    TailPlain(vs);
    forall k | close < k < |s| ensures s[k] != CLOSE {
      if k >= close + 3 {
        assert s[k] == s[close + 3..][k - close - 3];
      }
    }
    NoClose(s, open + 1, close, |s|);
  }

  lemma RecordPid(pid: nat, name: seq<byte>, state: byte, vs: seq<int>)
    ensures var (s, open) := (Record(pid, name, state, vs), |Print(pid)| + 1);
      open <= |s| && PidOf(s, open) == if 0 < pid <= MAX_PID then Some(pid) else None
  {
    hide Print, Record;
    RecordParts(pid, name, state, vs);
    var (s, open) := (Record(pid, name, state, vs), |Print(pid)| + 1);
    var t := Print(pid);
    assert Digit(t[0]) && Digit(t[|t| - 1]);
    assert s[0] == s[..open - 1][0] && s[open - 2] == s[..open - 1][open - 2];
    assert TrimEnd(s, open) == TrimEnd(s, open - 1) == open - 1;
    ValuePrint(pid);
  }

  lemma FilledTicks(vs: seq<int>)
    requires |vs| >= 21
    ensures Fill(NoFields(), vs).values[11] == vs[10] && Fill(NoFields(), vs).values[12] == vs[11]
  {
    hide Fill;
    FillAt(NoFields(), vs, 11);
    FillAt(NoFields(), vs, 12);
  }

  lemma FilledAcceptable(vs: seq<int>)
    requires |vs| >= 21 && (forall i :: 1 <= i <= 21 && NonNegative(i) ==> vs[i - 1] >= 0) && vs[10] + vs[11] <= MAX_INTEGER
    ensures Acceptable(Fill(NoFields(), vs))
  {
    hide Fill;
    FilledTicks(vs);
    FillAt(NoFields(), vs, 0);
    var f := Fill(NoFields(), vs);
    forall i | 0 <= i < 37 && NonNegative(i) ensures f.values[i] >= 0 {
      FillAt(NoFields(), vs, i);
    }
  }

  /** The published numbers, by their position behind the state, and those of them that cannot be negative. */
  const PUBLISHED: set<nat> := {1, 2, 3, 4, 6, 7, 9, 11, 12, 15, 16, 17, 19, 20, 21}
  const COUNTS: set<nat> := {1, 2, 3, 6, 7, 9, 11, 12, 17, 19, 20}

  lemma PublishedIs()
    ensures forall i: nat :: (i in PUBLISHED <==> Needed(i)) && (i in COUNTS <==> NonNegative(i)) && (Needed(i) ==> 1 <= i <= 21)
  {}

  /** Every printable record, with any name at all between the parentheses, is read back: number, name, state
      and every published field. */
  lemma StatRoundTrip(pid: int, name: seq<byte>, state: byte, vs: seq<int>)
    requires Printable(pid, name, state, vs)
    ensures var r := ReadStat(Record(pid, name, state, vs));
      r.Some? && r.value.pid == pid && r.value.name == name && r.value.state == state
      && |r.value.values| == 37 && (forall i :: 1 <= i <= 21 && i in PUBLISHED ==> r.value.values[i] == vs[i - 1])
      && r.value.cpuTicks == vs[10] + vs[11]
      && r.value.processor == (if |vs| >= 36 then Some(vs[35]) else None)
  {
    hide Record, PidOf, Walk, Tail, Print, Needed, NonNegative, FirstOpen, LastClose, TokenFits, Fill;
    RecordParts(pid, name, state, vs);
    RecordDelimiters(pid, name, state, vs);
    RecordPid(pid, name, state, vs);
    var s := Record(pid, name, state, vs);
    var close := |Print(pid)| + 2 + |name|;
    assert SkipSpace(s, close + 1) == SkipSpace(s, close + 2) == close + 2;
    WalkTail(s, close + 3, NoFields(), vs);
    var f := Fill(NoFields(), vs);
    FilledAcceptable(vs);
    FillAt(NoFields(), vs, 36);
    PublishedIs();
    forall i | 1 <= i <= 21 && Needed(i) ensures f.values[i] == vs[i - 1] {
      FillAt(NoFields(), vs, i);
    }
    FilledTicks(vs);
  }

  lemma SomeMisfit(f: nat, vs: seq<int>)
    requires !AllFit(f, vs) && f <= 36
    ensures vs != [] && f < 36 && (TokenFits(f + 1, vs[0]) ==> !AllFit(f + 1, vs[1..]))
  {
    hide TokenFits;
    var i :| 0 <= i < |vs| && f + i < 36 && !TokenFits(f + i + 1, vs[i]);
    assert i > 0 ==> vs[1..][i - 1] == vs[i];
  }

  lemma StoreRefused(f: Fields, v: int)
    requires |f.values| == 37 && f.count < 36 && !TokenFits(f.count + 1, v)
    ensures Store(f, PrintInt(v)) == None
  {
    MeaningPrint(v);
  }

  lemma WalkRefused(s: seq<byte>, q: nat, f: Fields)
    requires q < |s| && |f.values| == 37 && f.count < 36 && Store(f, s[q..TokenEnd(s, q)]) == None
    ensures WalkFrom(s, q, f) == None
  {}

  /** Some number does not fit where it would be stored. */
  lemma {:induction false} WalkFails(s: seq<byte>, p: nat, f: Fields, vs: seq<int>)
    requires Rest(s, p, Tail(vs)) && |f.values| == 37 && f.count <= 36 && !AllFit(f.count, vs)
    ensures p <= |s| && Walk(s, p, f) == None
    decreases |vs|
  {
    hide *;
    SomeMisfit(f.count, vs);
    var (v, rest) := (vs[0], vs[1..]);
    RestFirst(s, p, Tail(vs));
    assert vs == [v] + rest;
    TailToken(s, p, v, rest);
    WalkOne(s, p, f);
    if TokenFits(f.count + 1, v) {
      StorePrinted(f, v);
      WalkNumber(s, p, f, v, rest);
      WalkFails(s, p + 1 + |PrintInt(v)|, Stored(f, v), rest);
    } else {
      StoreRefused(f, v);
      WalkRefused(s, p + 1, f);
    }
  }

  /** The numbers a record must have to be read: at least 21; the published ones in the signed 64-bit range, most of them
      not negative; the two times without an overflow in their sum; and a processor number, where there is one. */
  predicate Readable(vs: seq<int>) {
    |vs| >= 21
    && (forall i :: 1 <= i <= 21 && i in PUBLISHED ==> -0x8000_0000_0000_0000 <= vs[i - 1] <= 0x7FFF_FFFF_FFFF_FFFF)
    && (forall i :: 1 <= i <= 21 && i in COUNTS ==> vs[i - 1] >= 0)
    && vs[10] + vs[11] <= 0x7FFF_FFFF_FFFF_FFFF
    && (|vs| >= 36 ==> 0 <= vs[35] <= 0x7FFF_FFFF_FFFF_FFFF)
  }

  lemma ReadableIs(vs: seq<int>)
    requires |vs| >= 21
    ensures Readable(vs) <==> (AllFit(0, vs) && (forall i :: 1 <= i <= 21 && NonNegative(i) ==> vs[i - 1] >= 0)
      && vs[10] + vs[11] <= MAX_INTEGER)
  {
    hide Needed, NonNegative, PUBLISHED, COUNTS;
    PublishedIs();
    if AllFit(0, vs) {
      forall i | 1 <= i <= 21 && Needed(i) ensures InRange(vs[i - 1]) { assert TokenFits(0 + (i - 1) + 1, vs[i - 1]); }
      if |vs| >= 36 { assert TokenFits(0 + 35 + 1, vs[35]); }
    }
    if Readable(vs) {
      forall i | 0 <= i < |vs| && i < 36 ensures TokenFits(0 + i + 1, vs[i]) { assert Needed(i + 1) ==> i + 1 in PUBLISHED; }
    }
  }

  lemma FilledBad(vs: seq<int>)
    requires |vs| < 21 || !((forall i :: 1 <= i <= 21 && NonNegative(i) ==> vs[i - 1] >= 0) && vs[10] + vs[11] <= MAX_INTEGER)
    ensures !Acceptable(Fill(NoFields(), vs))
  {
    hide Fill;
    FillAt(NoFields(), vs, 0);
    if |vs| >= 21 {
      FilledTicks(vs);
      if i :| 1 <= i <= 21 && NonNegative(i) && vs[i - 1] < 0 { FillAt(NoFields(), vs, i); }
    }
  }

  lemma TooFew(vs: seq<int>)
    requires |vs| < 21
    ensures !Readable(vs)
  {}

  /** Which records are read at all: those of a process number in range, with a name, and with readable numbers. */
  lemma StatExactly(pid: nat, name: seq<byte>, state: byte, vs: seq<int>)
    requires !Space(state) && state != CLOSE
    ensures ReadStat(Record(pid, name, state, vs)).Some? <==> 0 < pid <= 0x7FFF_FFFF && name != [] && Readable(vs)
  {
    hide Record, PidOf, Walk, Tail, Print, Needed, NonNegative, FirstOpen, LastClose, TokenFits, Fill, Acceptable, Readable;
    RecordParts(pid, name, state, vs);
    RecordDelimiters(pid, name, state, vs);
    RecordPid(pid, name, state, vs);
    var s := Record(pid, name, state, vs);
    var close := |Print(pid)| + 2 + |name|;
    assert SkipSpace(s, close + 1) == SkipSpace(s, close + 2) == close + 2;
    if |vs| >= 21 { ReadableIs(vs); } else { TooFew(vs); }
    if AllFit(0, vs) {
      WalkTail(s, close + 3, NoFields(), vs);
      if Readable(vs) { FilledAcceptable(vs); } else { FilledBad(vs); }
    } else {
      WalkFails(s, close + 3, NoFields(), vs);
    }
  }

  // ---- The start time ----------------------------------------------------------------------------------------

  const TAB: byte := 9
  const PLUS: byte := 43
  const MAX_BUFFER: nat := 65535
  const ULLONG_MAX: int := 0xFFFF_FFFF_FFFF_FFFF

  predicate Stops(c: byte) {
    c == BLANK || c == TAB || c == NEWLINE
  }

  /** A C string ends at its first zero byte. */
  function Cut(s: seq<byte>): (t: seq<byte>)
    ensures t <= s && 0 !in t
  {
    if s == [] || s[0] == 0 then [] else [s[0]] + Cut(s[1..])
  }

  /** What strtol and strtoull see from p: leading space, a sign, digits; the value and where it ends. */
  function Leading(t: seq<byte>, p: nat): (r: Option<(int, nat)>)
    requires p <= |t|
    ensures r.Some? ==> p < r.value.1 <= |t|
  {
    var q := SkipSpace(t, p);
    var d := if q < |t| && (t[q] == MINUS || t[q] == PLUS) then q + 1 else q;
    var e := RunEnd(t, d);
    if e == d then None
    else Some((if d > q && t[q] == MINUS then 0 - Value(t[d..e]) else Value(t[d..e]), e))
  }

  function SkipBlank(t: seq<byte>, p: nat): (q: nat)
    requires p <= |t|
    ensures p <= q <= |t|
    decreases |t| - p
  {
    if p < |t| && (t[p] == BLANK || t[p] == TAB) then SkipBlank(t, p + 1) else p
  }

  function FieldEnd(t: seq<byte>, p: nat): (q: nat)
    requires p <= |t|
    ensures p <= q <= |t|
    decreases |t| - p
  {
    if p < |t| && !Stops(t[p]) then FieldEnd(t, p + 1) else p
  }

  /** The start of field 22, counting from `field` at p. */
  function Field22(t: seq<byte>, p: nat, field: nat): (r: Option<nat>)
    requires p <= |t| && field <= 22
    ensures r.Some? ==> p <= r.value < |t|
    decreases 22 - field
  {
    var q := SkipBlank(t, p);
    if q == |t| || t[q] == NEWLINE then None
    else if field == 22 then Some(q)
    else Field22(t, FieldEnd(t, q), field + 1)
  }

  /** An unsigned value as strtoull gives it: negative numbers wrap, larger ones fail. */
  function Unsigned64(v: int): Option<u64> {
    if v < -ULLONG_MAX || v > ULLONG_MAX then None
    else if v < 0 then Some(v + 0x1_0000_0000_0000_0000) else Some(v)
  }

  function ReadStart(t: seq<byte>, pid: int): Option<u64> {
    var head := Leading(t, 0);
    if head.None? || head.value.0 != pid || !InRange(pid) then None
    else
      var close := LastClose(t, head.value.1, |t|);
      if close == |t| || t[close] != CLOSE then None
      else
        var at := Field22(t, close + 1, 3);
        if at.None? then None
        else
          var number := Leading(t, at.value);
          if number.None? then None
          else
            var (v, end) := number.value;
            if end < |t| && !Stops(t[end]) then None else Unsigned64(v)
  }

  method SkipBlanks(t: seq<byte>, p: nat) returns (q: nat)
    requires p <= |t|
    ensures q == SkipBlank(t, p)
  {
    q := p;
    while q < |t| && (t[q] == BLANK || t[q] == TAB)
      invariant p <= q <= |t| && SkipBlank(t, p) == SkipBlank(t, q)
    {
      q := q + 1;
    }
  }

  method SkipField(t: seq<byte>, p: nat) returns (q: nat)
    requires p <= |t|
    ensures q == FieldEnd(t, p)
  {
    q := p;
    while q < |t| && !Stops(t[q])
      invariant p <= q <= |t| && FieldEnd(t, p) == FieldEnd(t, q)
    {
      q := q + 1;
    }
  }

  method FindField22(t: seq<byte>, start: nat) returns (at: Option<nat>)
    requires start <= |t|
    ensures at == Field22(t, start, 3)
  {
    var cursor := SkipBlanks(t, start);
    var field: nat := 3;
    ghost var before: nat := start;
    while field < 22
      invariant 3 <= field <= 22 && before <= |t| && cursor == SkipBlank(t, before)
      invariant Field22(t, start, 3) == Field22(t, before, field)
    {
      if cursor == |t| || t[cursor] == NEWLINE { return None; }
      cursor := SkipField(t, cursor);
      before, field := cursor, field + 1;
      cursor := SkipBlanks(t, cursor);
    }
    at := if cursor == |t| || t[cursor] == NEWLINE then None else Some(cursor);
  }

  /** The start time of the process a buffer describes; nothing unless it describes the expected one. */
  method ReadStartTime(buffer: seq<byte>, pid: int) returns (r: Option<u64>)
    ensures r == if |buffer| >= MAX_BUFFER then None else ReadStart(Cut(buffer), pid)
  {
    hide Leading, LastClose, Field22;
    if |buffer| >= MAX_BUFFER { return None; }
    var t := Cut(buffer);
    var head := Leading(t, 0);
    if head.None? || head.value.0 != pid || !InRange(pid) { return None; }
    var close := LastClose(t, head.value.1, |t|);
    if close == |t| || t[close] != CLOSE { return None; }
    var at := FindField22(t, close + 1);
    if at.None? { return None; }
    var number := Leading(t, at.value);
    if number.None? { return None; }
    if number.value.1 < |t| && !Stops(t[number.value.1]) { return None; }
    r := Unsigned64(number.value.0);
  }

  lemma {:induction false} DigitsStop(t: seq<byte>, p: nat, q: nat)
    requires p <= q <= |t| && (q < |t| ==> !Digit(t[q])) && forall k :: p <= k < q ==> Digit(t[k])
    ensures RunEnd(t, p) == q
    decreases q - p
  {
    if p < q {
      DigitsStop(t, p + 1, q);
    }
  }

  /** A printed number followed by anything but a digit is read in full. */
  lemma LeadingPrinted(t: seq<byte>, p: nat, n: nat)
    requires p + |Print(n)| < |t| && t[p..p + |Print(n)|] == Print(n) && !Digit(t[p + |Print(n)|])
    ensures Leading(t, p) == Some((n, p + |Print(n)|))
  {
    hide Print;
    var s := Print(n);
    forall k | p <= k < p + |s| ensures Digit(t[k]) {
      assert t[k] == t[p..p + |s|][k - p] && Digit(s[k - p]);
    }
    assert Digit(t[p]);
    DigitsStop(t, p, p + |s|);
    ValuePrint(n);
  }

  lemma {:induction false} FieldStops(t: seq<byte>, p: nat, q: nat)
    requires p <= q < |t| && Stops(t[q]) && forall k :: p <= k < q ==> !Stops(t[k])
    ensures FieldEnd(t, p) == q
    decreases q - p
  {
    if p < q {
      FieldStops(t, p + 1, q);
    }
  }

  /** The same token as the fast path's, for the narrower set of separators. */
  lemma TailField(t: seq<byte>, p: nat, v: int, rest: seq<int>)
    requires Rest(t, p, Tail([v] + rest))
    ensures var (q, e) := (p + 1, p + 1 + |PrintInt(v)|);
      SkipBlank(t, p) == q < e < |t| && FieldEnd(t, q) == e && Rest(t, e, Tail(rest)) && t[q..e] == PrintInt(v)
      && t[q] != NEWLINE && Stops(t[e]) && !Digit(t[e])
  {
    hide Tail, PrintInt, FieldEnd;
    TailToken(t, p, v, rest);
    var (s, e) := (PrintInt(v), p + 1 + |PrintInt(v)|);
    PrintedPlain(v);
    forall k | p + 1 <= k < e ensures !Stops(t[k]) {
      assert t[k] == t[p + 1..e][k - p - 1];
    }
    FieldStops(t, p + 1, e);
    assert SkipBlank(t, p) == SkipBlank(t, p + 1);
  }

  lemma PlainPrint(n: nat)
    ensures PrintInt(n) == Print(n)
  {}

  lemma {:induction false} Field22Tail(t: seq<byte>, p: nat, field: nat, vs: seq<int>)
    requires Rest(t, p, Tail(vs)) && 3 < field <= 22 && |vs| > 22 - field && vs[22 - field] >= 0
    ensures var at := Field22(t, p, field);
      at.Some? && Leading(t, at.value) == Some((vs[22 - field], at.value + |PrintInt(vs[22 - field])|))
      && at.value + |PrintInt(vs[22 - field])| < |t| && Stops(t[at.value + |PrintInt(vs[22 - field])|])
    decreases 22 - field
  {
    hide Tail, PrintInt, Leading, SkipBlank, FieldEnd, Stops;
    var (v, rest) := (vs[0], vs[1..]);
    assert vs == [v] + rest;
    TailField(t, p, v, rest);
    if field == 22 {
      PlainPrint(v);
      LeadingPrinted(t, p + 1, v);
    } else {
      Field22Tail(t, p + 1 + |PrintInt(v)|, field + 1, rest);
    }
  }

  lemma RecordLast(pid: nat, name: seq<byte>, state: byte, vs: seq<int>)
    requires state != CLOSE
    ensures var (t, lo) := (Record(pid, name, state, vs), |Print(pid)|);
      var close := lo + 2 + |name|;
      close < |t| && LastClose(t, lo, |t|) == close
  {
    hide Print, Tail, Record, LastClose;
    RecordParts(pid, name, state, vs);
    var t := Record(pid, name, state, vs);
    var close := |Print(pid)| + 2 + |name|;
    TailPlain(vs);
    forall k | close < k < |t| ensures t[k] != CLOSE {
      if k >= close + 3 {
        assert t[k] == t[close + 3..][k - close - 3];
      }
    }
    NoClose(t, |Print(pid)|, close, |t|);
  }

  lemma RecordState(t: seq<byte>, close: nat, state: byte, vs: seq<int>)
    requires close + 3 <= |t| && t[close + 1] == BLANK && t[close + 2] == state && Rest(t, close + 3, Tail(vs))
    requires !Space(state) && vs != []
    ensures Field22(t, close + 1, 3) == Field22(t, close + 3, 4)
  {
    hide Tail;
    assert vs == [vs[0]] + vs[1..];
    TailToken(t, close + 3, vs[0], vs[1..]);
    assert SkipBlank(t, close + 1) == SkipBlank(t, close + 2) == close + 2;
    assert FieldEnd(t, close + 2) == FieldEnd(t, close + 3) == close + 3;
  }

  /** The narrow reader extracts the printed start time from the same records, whatever the name holds, and
      only for the process it was asked about. */
  lemma StartTimeRoundTrip(pid: int, name: seq<byte>, state: byte, vs: seq<int>, expected: int)
    requires 0 < pid <= MAX_PID && !Space(state) && state != CLOSE
    requires |vs| >= 19 && 0 <= vs[18] <= ULLONG_MAX
    ensures ReadStart(Record(pid, name, state, vs), expected) == if pid == expected then Some(vs[18]) else None
  {
    hide Record, Print, Tail, PrintInt, LastClose, Leading, Field22;
    RecordParts(pid, name, state, vs);
    var (t, open) := (Record(pid, name, state, vs), |Print(pid)| + 1);
    var close := open + 1 + |name|;
    assert t[0..|Print(pid)|] == t[..open - 1];
    LeadingPrinted(t, 0, pid);
    if pid == expected {
      RecordLast(pid, name, state, vs);
      RecordState(t, close, state, vs);
      Field22Tail(t, close + 3, 4, vs);
    }
  }

  /** A record with a name free of zero bytes is its own C string. */
  lemma {:induction false} CutPlain(s: seq<byte>)
    requires 0 !in s
    ensures Cut(s) == s
    decreases |s|
  {
    if s != [] {
      CutPlain(s[1..]);
    }
  }

  lemma RecordNoZero(pid: nat, name: seq<byte>, state: byte, vs: seq<int>)
    requires 0 !in name && state != 0
    ensures 0 !in Record(pid, name, state, vs)
  {
    hide Print, Tail;
    TailPlain(vs);
    var t := Print(pid);
    assert forall i :: 0 <= i < |t| ==> Digit(t[i]);
  }

  /** Both readers take the same start time from a record: the one that is published and the one a signal is
      checked against. */
  lemma ReadersAgree(pid: int, name: seq<byte>, state: byte, vs: seq<int>)
    requires Printable(pid, name, state, vs) && 0 !in name && state != 0
    ensures var s := Record(pid, name, state, vs);
      ReadStat(s).Some? && |ReadStat(s).value.values| == 37
      && ReadStart(Cut(s), pid) == Some(ReadStat(s).value.values[19]) && ReadStat(s).value.values[19] == vs[18]
  {
    hide Record, ReadStat, ReadStart;
    StatRoundTrip(pid, name, state, vs);
    RecordNoZero(pid, name, state, vs);
    CutPlain(Record(pid, name, state, vs));
    assert TokenFits(0 + 18 + 1, vs[18]);
    assert NonNegative(19) && vs[19 - 1] >= 0;
    StartTimeRoundTrip(pid, name, state, vs, pid);
  }
}
