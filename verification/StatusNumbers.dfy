/** The number and affinity-list parsers of the status decoder. */
module StatusNumbers {
  import opened Bytes
  import opened Decimals

  const MAX_ID: nat := 65535
  const MAX_IDS: nat := 4096
  const MAX_TEXT: nat := 1024
  const COMMA: byte := 44

  /** The number at p, if one is there and it is at most `maximum`, and where it ends. */
  function Number(t: seq<byte>, p: nat, maximum: int): (r: Option<(nat, nat)>)
    requires p <= |t|
    ensures r.Some? ==> p < r.value.1 <= |t| && r.value.0 <= maximum
  {
    var e := RunEnd(t, p);
    if e == p || Value(t[p..e]) > maximum then None else Some((Value(t[p..e]), e))
  }

  /** Division by ten that rounds towards zero. */
  function TenthTowardsZero(n: int): int {
    if n >= 0 then n / 10 else -(-n / 10)
  }

  /** The largest number the overflow test lets through when asked for at most `maximum`. */
  function Effective(maximum: int): int {
    if maximum >= 9 then maximum else if maximum >= 0 then 9 else maximum + 9
  }

  /** The overflow test on the number read so far and the next digit. */
  lemma OverflowTest(value: nat, digit: nat, maximum: int)
    requires digit <= 9 && (value == 0 || value <= Effective(maximum))
    ensures value > TenthTowardsZero(maximum - digit) <==> value * 10 + digit > Effective(maximum)
  {
    if maximum < 0 {
      assert TenthTowardsZero(maximum - digit) <= 0;
    } else if maximum < 9 {
      assert TenthTowardsZero(maximum - digit) == 0;
    }
  }

  /** Reads the number under the bound as the overflow test keeps it. */
  method Uint(t: seq<byte>, p: nat, maximum: int) returns (r: Option<(nat, nat)>)
    requires p <= |t|
    ensures r == Number(t, p, Effective(maximum))
  {
    if p == |t| || !Digit(t[p]) { return None; }
    var q, value: nat := p, 0;
    hide TenthTowardsZero, Effective;
    while q < |t| && Digit(t[q])
      invariant p <= q <= |t| && RunEnd(t, p) == RunEnd(t, q) && (q == p ==> q < |t| && Digit(t[q]))
      invariant AllDigits(t[p..q]) && value == Value(t[p..q]) && (value == 0 || value <= Effective(maximum))
      invariant q > p ==> value <= Effective(maximum)
    {
      var digit: nat := t[q] as int - 48;
      assert t[p..q + 1][..q - p] == t[p..q];
      ghost var e := RunEnd(t, p);
      assert t[p..e][..q + 1 - p] == t[p..q + 1];
      ValueGrows(t[p..e], q + 1 - p);
      assert Value(t[p..q + 1]) == value * 10 + digit;
      OverflowTest(value, digit, maximum);
      if value > TenthTowardsZero(maximum - digit) { return None; }
      value := value * 10 + digit;
      q := q + 1;
    }
    r := Some((value, q));
  }

  /** The bound is kept exactly from nine on, and below minus nine, where nothing is accepted: between them
      the test lets a digit through that is above the bound. */
  lemma BoundKept(maximum: int)
    ensures (forall t: seq<byte>, p: nat | p <= |t| :: Number(t, p, Effective(maximum)) == Number(t, p, maximum))
      <==> maximum >= 9 || maximum < -9
  {
    if -9 <= maximum < 9 {
      var t: seq<byte> := [(48 + Effective(maximum)) as byte];
      assert RunEnd(t, 0) == 1 && t[0..1] == t && Value(t) == Effective(maximum);
      assert Number(t, 0, Effective(maximum)) != Number(t, 0, maximum);
    }
  }

  // ---- Affinity lists --------------------------------------------------------------------------------------

  datatype Range = Range(first: nat, last: nat)

  /** One item: a number, or two joined by a minus sign. */
  function Item(t: seq<byte>, p: nat): (r: Option<(Range, nat)>)
    requires p <= |t|
    ensures r.Some? ==> p < r.value.1 <= |t|
  {
    var a := Number(t, p, MAX_ID);
    if a.None? then None
    else
      var (first, q) := a.value;
      if q < |t| && t[q] == MINUS then
        var b := Number(t, q + 1, MAX_ID);
        if b.None? then None else Some((Range(first, b.value.0), b.value.1))
      else Some((Range(first, first), q))
  }

  /** Items separated by single commas, up to the end of the text. */
  function Items(t: seq<byte>, p: nat): Option<seq<Range>>
    requires p <= |t|
    decreases |t| - p
  {
    var item := Item(t, p);
    if item.None? then None
    else
      var (range, q) := item.value;
      if q == |t| then Some([range])
      else if t[q] != COMMA || q + 1 == |t| then None
      else
        var rest := Items(t, q + 1);
        if rest.None? then None else Some([range] + rest.value)
  }

  predicate Ascending(rs: seq<Range>, above: int) {
    rs == [] || (above < rs[0].first <= rs[0].last && Ascending(rs[1..], rs[0].last))
  }

  function Size(r: Range): int {
    r.last - r.first + 1
  }

  function Total(rs: seq<Range>): int {
    if rs == [] then 0 else Size(rs[0]) + Total(rs[1..])
  }

  ghost function Interval(a: nat, b: nat): (s: set<nat>)
    ensures forall i :: i in s <==> a <= i <= b
    ensures a <= b + 1 ==> |s| == b + 1 - a
    decreases b + 1 - a
  {
    if a > b then {} else Interval(a + 1, b) + {a}
  }

  /** The identifiers a list names. */
  ghost function Ids(rs: seq<Range>): set<nat> {
    if rs == [] then {} else Interval(rs[0].first, rs[0].last) + Ids(rs[1..])
  }

  ghost predicate Named(rs: seq<Range>, i: nat) {
    exists k :: 0 <= k < |rs| && rs[k].first <= i <= rs[k].last
  }

  lemma {:induction false} IdsMeans(rs: seq<Range>, i: nat)
    ensures i in Ids(rs) <==> Named(rs, i)
    decreases |rs|
  {
    if rs != [] {
      IdsMeans(rs[1..], i);
      assert forall k :: 1 <= k < |rs| ==> rs[k] == rs[1..][k - 1];
    }
  }

  lemma {:induction false} IdsAbove(rs: seq<Range>, above: int)
    requires Ascending(rs, above)
    ensures forall i :: i in Ids(rs) ==> i > above
    decreases |rs|
  {
    if rs != [] {
      IdsAbove(rs[1..], rs[0].last);
    }
  }

  lemma DisjointSize(a: set<nat>, b: set<nat>)
    requires a !! b
    ensures |a + b| == |a| + |b|
  {}

  /** Ascending ranges never overlap, so the sum of their sizes is the number of identifiers they name. */
  lemma {:induction false} TotalCounts(rs: seq<Range>, above: int)
    requires Ascending(rs, above)
    ensures Total(rs) == |Ids(rs)|
    decreases |rs|
  {
    if rs != [] {
      var (head, tail) := (rs[0], rs[1..]);
      TotalCounts(tail, head.last);
      IdsAbove(tail, head.last);
      var span := Interval(head.first, head.last);
      DisjointSize(span, Ids(tail));
    }
  }

  lemma {:induction false} TotalPositive(rs: seq<Range>, above: int)
    requires Ascending(rs, above)
    ensures Total(rs) >= 0
    decreases |rs|
  {
    if rs != [] {
      TotalPositive(rs[1..], rs[0].last);
    }
  }

  ghost predicate GoodList(t: seq<byte>) {
    0 < |t| <= MAX_TEXT && Items(t, 0).Some? && Ascending(Items(t, 0).value, -1) && |Ids(Items(t, 0).value)| <= MAX_IDS
  }

  /** What is left to be read must be acceptable after what has been. */
  ghost predicate Remains(t: seq<byte>, p: nat, previous: int, total: int)
    requires p <= |t|
  {
    Items(t, p).Some? && Ascending(Items(t, p).value, previous) && total + Total(Items(t, p).value) <= MAX_IDS
  }

  method ReadItem(t: seq<byte>, p: nat) returns (r: Option<(Range, nat)>)
    requires p <= |t|
    ensures r == Item(t, p)
  {
    var a := Uint(t, p, MAX_ID);
    if a.None? { return None; }
    var (first, q) := a.value;
    if q < |t| && t[q] == MINUS {
      var b := Uint(t, q + 1, MAX_ID);
      if b.None? { return None; }
      return Some((Range(first, b.value.0), b.value.1));
    }
    return Some((Range(first, first), q));
  }

  lemma WholeList(t: seq<byte>)
    requires 0 < |t| <= MAX_TEXT
    ensures GoodList(t) <==> Remains(t, 0, -1, 0)
    ensures Items(t, 0).Some? && Ascending(Items(t, 0).value, -1) ==> Total(Items(t, 0).value) == |Ids(Items(t, 0).value)|
  {
    if Items(t, 0).Some? && Ascending(Items(t, 0).value, -1) {
      TotalCounts(Items(t, 0).value, -1);
    }
  }

  predicate FitsNext(r: Range, previous: int, total: int) {
    previous < r.first <= r.last && total + Size(r) <= MAX_IDS
  }

  ghost predicate EndsWith(t: seq<byte>, p: nat, r: Range, previous: int, total: int)
    requires p <= |t|
  {
    Items(t, p) == Some([r]) && Total([r]) == Size(r)
    && (Remains(t, p, previous, total) <==> FitsNext(r, previous, total))
  }

  ghost predicate GoesOn(t: seq<byte>, p: nat, q: nat, r: Range, previous: int, total: int)
    requires p <= |t| && q <= |t|
  {
    (Items(t, p).Some? <==> Items(t, q).Some?)
    && (Items(t, p).Some? ==> Total(Items(t, p).value) == Size(r) + Total(Items(t, q).value))
    && (Remains(t, p, previous, total) <==> FitsNext(r, previous, total) && Remains(t, q, r.last, total + Size(r)))
  }

  /** How the last item decides. */
  lemma ItemLast(t: seq<byte>, p: nat, r: Range, previous: int, total: int)
    requires p <= |t| && Item(t, p) == Some((r, |t|))
    ensures EndsWith(t, p, r, previous, total)
  {
    hide Item;
    assert [r][1..] == [];
    assert Ascending([r], previous) <==> previous < r.first <= r.last;
    assert Total([r]) == Size(r);
  }

  /** How an item and what follows its comma decide together. */
  lemma ItemMore(t: seq<byte>, p: nat, q: nat, r: Range, previous: int, total: int)
    requires p <= |t| && q < |t| && Item(t, p) == Some((r, q)) && t[q] == COMMA && q + 1 < |t|
    ensures GoesOn(t, p, q + 1, r, previous, total)
  {
    hide Item;
    if Items(t, q + 1).Some? {
      var rest := Items(t, q + 1).value;
      assert Items(t, p) == Some([r] + rest);
      assert ([r] + rest)[1..] == rest;
      assert Ascending([r] + rest, previous) <==> previous < r.first <= r.last && Ascending(rest, r.last);
      if Ascending(rest, r.last) {
        TotalPositive(rest, r.last);
      }
    }
  }

  /** How the first item decides about the rest. */
  lemma ItemFirst(t: seq<byte>, p: nat, previous: int, total: int)
    requires p <= |t|
    ensures Item(t, p).None? ==> Items(t, p).None?
    ensures Item(t, p).Some? ==>
      var (range, q) := Item(t, p).value;
      if q == |t| then EndsWith(t, p, range, previous, total)
      else if t[q] != COMMA || q + 1 == |t| then Items(t, p).None?
      else GoesOn(t, p, q + 1, range, previous, total)
  {
    hide Item, EndsWith, GoesOn;
    if Item(t, p).Some? {
      var (range, q) := Item(t, p).value;
      if q == |t| {
        ItemLast(t, p, range, previous, total);
      } else if t[q] == COMMA && q + 1 < |t| {
        ItemMore(t, p, q, range, previous, total);
      }
    }
  }

  /** Counts the identifiers of an ascending list; anything else is declined. */
  method CountRange(t: seq<byte>) returns (count: Option<nat>)
    ensures count.Some? <==> GoodList(t)
    ensures count.Some? ==> count.value == |Ids(Items(t, 0).value)|
    ensures count.Some? ==> forall i :: i in Ids(Items(t, 0).value) <==> Named(Items(t, 0).value, i)
  {
    hide Item, Ids, Total;
    if |t| == 0 || |t| > MAX_TEXT { return None; }
    WholeList(t);
    forall i | Items(t, 0).Some? ensures i in Ids(Items(t, 0).value) <==> Named(Items(t, 0).value, i) {
      IdsMeans(Items(t, 0).value, i);
    }
    var p, total: int, previous: int := 0, 0, -1;
    while true
      invariant p <= |t| && 0 <= total <= MAX_IDS
      invariant Remains(t, 0, -1, 0) <==> Remains(t, p, previous, total)
      invariant Items(t, 0).Some? && Items(t, p).Some? ==> Total(Items(t, 0).value) == total + Total(Items(t, p).value)
      invariant Items(t, 0).None? <==> Items(t, p).None?
      decreases |t| - p
    {
      ItemFirst(t, p, previous, total);
      var item := ReadItem(t, p);
      if item.None? { return None; }
      var (range, q) := item.value;
      if range.first > range.last || range.first <= previous || range.last - range.first + 1 > MAX_IDS - total { return None; }
      total := total + range.last - range.first + 1;
      previous := range.last;
      if q == |t| { return Some(total); }
      if t[q] != COMMA || q + 1 == |t| { return None; }
      p := q + 1;
    }
  }

  // ---- What a list looks like -----------------------------------------------------------------------------------------

  /** An item as it is written: a run of digits, or two with a minus sign between them. */
  datatype Piece = Piece(low: seq<byte>, high: Option<seq<byte>>)
  {
    predicate Good() {
      Digits(low) && Value(low) <= 65535 && (high.Some? ==> Digits(high.value) && Value(high.value) <= 65535)
    }

    function Text(): seq<byte> {
      if high.Some? then low + [45] + high.value else low
    }

    function Means(): Range
      requires Good()
    {
      Range(Value(low), if high.Some? then Value(high.value) else Value(low))
    }
  }

  predicate AllGood(pieces: seq<Piece>) {
    forall i :: 0 <= i < |pieces| ==> pieces[i].Good()
  }

  /** Items with commas between them. */
  function Joined(pieces: seq<Piece>): seq<byte> {
    if pieces == [] then [] else if |pieces| == 1 then pieces[0].Text() else pieces[0].Text() + [44] + Joined(pieces[1..])
  }

  function Ranges(pieces: seq<Piece>): (rs: seq<Range>)
    requires AllGood(pieces)
    ensures |rs| == |pieces| && forall i :: 0 <= i < |rs| ==> rs[i] == pieces[i].Means()
  {
    seq(|pieces|, i requires 0 <= i < |pieces| => pieces[i].Means())
  }

  lemma {:induction false} RunEndIs(t: seq<byte>, p: nat, q: nat)
    requires p <= q <= |t| && AllDigits(t[p..q]) && (q < |t| ==> !Digit(t[q]))
    ensures RunEnd(t, p) == q
    decreases q - p
  {
    if p < q {
      assert Digit(t[p..q][0]);
      assert t[p + 1..q] == t[p..q][1..];
      RunEndIs(t, p + 1, q);
    }
  }

  lemma NumberWritten(t: seq<byte>, p: nat, digits: seq<byte>)
    requires Digits(digits) && Value(digits) <= 65535 && p + |digits| <= |t| && t[p..p + |digits|] == digits
    requires p + |digits| < |t| ==> !Digit(t[p + |digits|])
    ensures Number(t, p, MAX_ID) == Some((Value(digits), p + |digits|))
  {
    RunEndIs(t, p, p + |digits|);
  }

  lemma ItemWritten(t: seq<byte>, p: nat, piece: Piece, q: nat)
    requires piece.Good() && p <= q <= |t| && t[p..q] == piece.Text() && (q < |t| ==> t[q] == COMMA)
    ensures Item(t, p) == Some((piece.Means(), q))
  {
    hide RunEnd, Value, Number;
    var (low, high) := (piece.low, piece.high);
    if high.Some? {
      assert t[p..q] == low + ([45] + high.value);
      Located(t, p, low, [45] + high.value);
      Located(t, p + |low|, [45], high.value);
      assert t[p + |low|] == t[p + |low|..p + |low| + 1][0] == 45;
      NumberWritten(t, p + |low| + 1, high.value);
    }
    NumberWritten(t, p, low);
  }

  lemma JoinedSome(pieces: seq<Piece>)
    requires pieces != [] && AllGood(pieces)
    ensures Joined(pieces) != []
  {}

  lemma JoinedParts(t: seq<byte>, p: nat, pieces: seq<Piece>)
    requires |pieces| > 1 && AllGood(pieces) && p <= |t| && t[p..] == Joined(pieces)
    ensures var q := p + |pieces[0].Text()|;
      q + 1 < |t| && t[p..q] == pieces[0].Text() && t[q] == COMMA && t[q + 1..] == Joined(pieces[1..])
  {
    hide Piece.Text, Piece.Good;
    var (text, rest) := (pieces[0].Text(), Joined(pieces[1..]));
    var q := p + |text|;
    assert t[p..p + |t[p..]|] == t[p..] == text + ([44] + rest);
    Located(t, p, text, [44] + rest);
    Located(t, q, [44], rest);
    assert t[q] == t[q..q + 1][0];
    JoinedSome(pieces[1..]);
  }

  /** A list that was written out is read as the ranges it names. */
  lemma {:induction false} ItemsWritten(t: seq<byte>, p: nat, pieces: seq<Piece>)
    requires pieces != [] && AllGood(pieces) && p <= |t| && t[p..] == Joined(pieces)
    ensures Items(t, p) == Some(Ranges(pieces))
    decreases |pieces|
  {
    hide Item, Piece.Text, Piece.Means, Piece.Good;
    var (first, rest) := (pieces[0], pieces[1..]);
    var q := p + |first.Text()|;
    if |pieces| == 1 {
      assert t[p..|t|] == t[p..];
      ItemWritten(t, p, first, |t|);
      assert Ranges(pieces) == [first.Means()];
    } else {
      JoinedParts(t, p, pieces);
      ItemWritten(t, p, first, q);
      ItemsWritten(t, q + 1, rest);
      assert Ranges(pieces) == [first.Means()] + Ranges(rest);
    }
  }

  lemma NumberRead(t: seq<byte>, p: nat)
    requires p <= |t| && Number(t, p, MAX_ID).Some?
    ensures var (v, q) := Number(t, p, MAX_ID).value;
      p < q <= |t| && Digits(t[p..q]) && Value(t[p..q]) == v <= 65535
  {}

  lemma ItemRead(t: seq<byte>, p: nat) returns (piece: Piece)
    requires p <= |t| && Item(t, p).Some?
    ensures piece.Good() && piece.Means() == Item(t, p).value.0 && t[p..Item(t, p).value.1] == piece.Text()
  {
    hide Number, Value, Digits;
    NumberRead(t, p);
    var (q, end) := (Number(t, p, MAX_ID).value.1, Item(t, p).value.1);
    if q < |t| && t[q] == MINUS {
      NumberRead(t, q + 1);
      piece := Piece(t[p..q], Some(t[q + 1..end]));
      assert t[p..end] == t[p..q] + [t[q]] + t[q + 1..end];
    } else {
      piece := Piece(t[p..q], None);
    }
  }

  lemma PiecesCons(first: Piece, rest: seq<Piece>)
    requires first.Good() && AllGood(rest) && rest != []
    ensures var pieces := [first] + rest;
      AllGood(pieces) && Joined(pieces) == first.Text() + [44] + Joined(rest)
      && Ranges(pieces) == [first.Means()] + Ranges(rest)
  {
    hide Piece.Text, Piece.Means, Piece.Good;
    var pieces := [first] + rest;
    assert pieces[1..] == rest && forall i :: 1 <= i < |pieces| ==> pieces[i] == rest[i - 1];
    assert Ranges(pieces) == [first.Means()] + Ranges(rest);
  }

  /** And whatever is read is such a list. */
  lemma {:induction false} ItemsRead(t: seq<byte>, p: nat) returns (pieces: seq<Piece>)
    requires p <= |t| && Items(t, p).Some?
    ensures pieces != [] && AllGood(pieces) && t[p..] == Joined(pieces) && Ranges(pieces) == Items(t, p).value
    decreases |t| - p
  {
    hide Item, Piece.Text, Piece.Means, Piece.Good;
    var first := ItemRead(t, p);
    var q := Item(t, p).value.1;
    if q == |t| {
      pieces := [first];
      assert Ranges(pieces) == [first.Means()];
    } else {
      var rest := ItemsRead(t, q + 1);
      pieces := [first] + rest;
      PiecesCons(first, rest);
      assert t[p..] == t[p..q] + [t[q]] + t[q + 1..];
    }
  }

  ghost predicate Spells(t: seq<byte>, pieces: seq<Piece>) {
    pieces != [] && AllGood(pieces) && t == Joined(pieces)
  }

  /** A text is a list exactly if it is items with commas between them, and then it names what they say. */
  lemma ItemsMean(t: seq<byte>)
    ensures Items(t, 0).Some? <==> exists pieces :: Spells(t, pieces)
    ensures forall pieces :: Spells(t, pieces) ==> Items(t, 0) == Some(Ranges(pieces))
  {
    hide Items, Joined, AllGood;
    assert t[0..] == t;
    forall pieces | Spells(t, pieces) ensures Items(t, 0) == Some(Ranges(pieces)) { ItemsWritten(t, 0, pieces); }
    if Items(t, 0).Some? {
      var pieces := ItemsRead(t, 0);
      assert Spells(t, pieces);
    }
  }
}
