/** The private GPU reader protocol: table-building operations, their byte form, and the
    bounded stack machine that checks a whole stream before any Lua object is built. */
module GpuWire {
  import opened Bytes

  const LIMIT: nat := 16 * 1024 * 1024
  const MAX_OPERATIONS: nat := 600000
  const MAX_TABLES: nat := 131072
  const MAX_DEPTH: nat := 64
  const MAX_ENTRIES: nat := 4096

  datatype Op =
    | Table(slots: u32, fields: u32)
    | Integer(key: seq<byte>, value: int64)
    | Number(key: seq<byte>, bits: u64)
    | Text(key: seq<byte>, text: seq<byte>)
    | Boolean(key: seq<byte>, flag: byte)
    | Field(key: seq<byte>)
    | Index(index: u32)
    | Discard
  {
    predicate Keyed() { !Table? && !Index? && !Discard? }

    function Tag(): byte {
      match this
      case Table(_, _) => 1
      case Integer(_, _) => 2
      case Number(_, _) => 3
      case Text(_, _) => 4
      case Boolean(_, _) => 5
      case Field(_) => 6
      case Index(_) => 7
      case Discard => 8
    }

    /** What the encoder can write: the key and text lengths it refuses are excluded. */
    predicate Encodable() {
      (Keyed() ==> |key| <= 63) && (Text? ==> |text| <= 256)
    }
  }

  // ---- Byte form ------------------------------------------------------------------

  function Payload(op: Op): seq<byte>
    requires op.Encodable()
  {
    match op
    case Table(slots, fields) => ToLE(fields, 4) + ToLE(slots, 4)
    case Integer(_, value) => ToLE(Unsigned(value), 8)
    case Number(_, bits) => ToLE(bits, 8)
    case Text(_, text) => ToLE(|text|, 2) + text
    case Boolean(_, flag) => [flag]
    case Field(_) => []
    case Index(index) => ToLE(index, 4)
    case Discard => []
  }

  function KeyBytes(key: seq<byte>): (s: seq<byte>)
    requires |key| <= 63
    ensures |s| == 1 + |key|
  {
    [|key|] + key
  }

  function Header(op: Op): seq<byte>
    requires op.Encodable()
  {
    [op.Tag()] + (if op.Keyed() then KeyBytes(op.key) else [])
  }

  function Encode(op: Op): seq<byte>
    requires op.Encodable()
  {
    Header(op) + Payload(op)
  }

  ghost predicate AllEncodable(ops: seq<Op>) {
    forall i :: 0 <= i < |ops| ==> ops[i].Encodable()
  }

  ghost function EncodeAll(ops: seq<Op>): seq<byte>
    requires AllEncodable(ops)
  {
    if ops == [] then [] else Encode(ops[0]) + EncodeAll(ops[1..])
  }

  /** The payload of a keyed operation that starts at p, and the cursor after it. */
  function DecodePayload(data: seq<byte>, p: nat, tag: byte, key: seq<byte>): Option<(Op, nat)>
    requires p <= |data| && 2 <= tag <= 6
  {
    if tag == 6 then Some((Field(key), p))
    else if tag == 5 then
      if p == |data| then None else Some((Boolean(key, data[p]), p + 1))
    else if tag == 4 then
      if |data| - p < 2 then None else
      var n := U16(data[p..p + 2]);
      if n > 256 || n > |data| - (p + 2) then None
      else Some((Text(key, data[p + 2..p + 2 + n]), p + 2 + n))
    else if |data| - p < 8 then None
    else if tag == 2 then Some((Integer(key, Signed(U64(data[p..p + 8]))), p + 8))
    else Some((Number(key, U64(data[p..p + 8])), p + 8))
  }

  /** The length-prefixed key at p. */
  function DecodeKey(data: seq<byte>, p: nat): (key: Option<seq<byte>>)
    ensures key.Some? ==> |key.value| <= 63 && p + 1 + |key.value| <= |data|
  {
    if p >= |data| then None
    else
      var n := data[p];
      if n > 63 || n > |data| - (p + 1) then None else Some(data[p + 1..p + 1 + n])
  }

  /** The operation that starts at p, and the cursor after it; None when it does not fit. */
  function DecodeAt(data: seq<byte>, p: nat): Option<(Op, nat)>
    requires p < |data|
  {
    var tag := data[p];
    if tag == 1 then
      if |data| - (p + 1) < 8 then None
      else Some((Table(U32(data[p + 5..p + 9]), U32(data[p + 1..p + 5])), p + 9))
    else if tag == 7 then
      if |data| - (p + 1) < 4 then None else Some((Index(U32(data[p + 1..p + 5])), p + 5))
    else if tag == 8 then Some((Discard, p + 1))
    else if tag < 2 || tag > 6 then None
    else match DecodeKey(data, p + 1)
      case None => None
      case Some(key) => DecodePayload(data, p + 2 + |key|, tag, key)
  }

  lemma DecodeAtProgress(data: seq<byte>, p: nat)
    requires p < |data| && DecodeAt(data, p).Some?
    ensures p < DecodeAt(data, p).value.1 <= |data|
    ensures DecodeAt(data, p).value.0.Encodable()
  {}

  /** All operations from p to the end of the buffer. */
  ghost function DecodeFrom(data: seq<byte>, p: nat): Option<seq<Op>>
    requires p <= |data|
    decreases |data| - p
  {
    if p == |data| then Some([])
    else match DecodeAt(data, p)
      case None => None
      case Some((op, q)) =>
        DecodeAtProgress(data, p);
        match DecodeFrom(data, q)
        case None => None
        case Some(rest) => Some([op] + rest)
  }

  lemma DecodeEncodedPayload(data: seq<byte>, p: nat, op: Op)
    requires op.Encodable() && op.Keyed()
    requires p + |Payload(op)| <= |data| && data[p..p + |Payload(op)|] == Payload(op)
    ensures DecodePayload(data, p, op.Tag(), op.key) == Some((op, p + |Payload(op)|))
  {
    Widths();
    var e := Payload(op);
    match op
    case Integer(_, value) => FromToLE(Unsigned(value), 8);
    case Number(_, bits) => FromToLE(bits, 8);
    case Text(_, text) =>
      FromToLE(|text|, 2);
      Located(data, p, ToLE(|text|, 2), text);
    case Boolean(_, _) => assert data[p] == data[p..p + |e|][0];
    case Field(_) =>
  }

  lemma DecodeEncodedTable(data: seq<byte>, p: nat, op: Op)
    requires op.Table? && p + 9 <= |data| && data[p..p + 9] == Encode(op)
    ensures DecodeAt(data, p) == Some((op, p + 9))
  {
    Widths();
    FromToLE(op.fields, 4);
    FromToLE(op.slots, 4);
    Located(data, p, Header(op), Payload(op));
    Located(data, p + 1, ToLE(op.fields, 4), ToLE(op.slots, 4));
    assert data[p] == data[p..p + 1][0];
  }

  lemma DecodeEncodedKey(data: seq<byte>, p: nat, key: seq<byte>)
    requires |key| <= 63
    requires p + |KeyBytes(key)| <= |data| && data[p..p + |KeyBytes(key)|] == KeyBytes(key)
    ensures DecodeKey(data, p) == Some(key)
  {
    Located(data, p, [|key|], key);
    assert data[p] == data[p..p + 1][0];
  }

  /** The pieces of an encoded operation, where they lie in the buffer. */
  lemma LocateKeyed(data: seq<byte>, p: nat, tag: byte, key: seq<byte>, payload: seq<byte>)
    requires |key| <= 63
    requires p + 2 + |key| + |payload| <= |data|
    requires data[p..p + 2 + |key| + |payload|] == ([tag] + KeyBytes(key)) + payload
    ensures data[p] == tag
    ensures data[p + 1..p + 2 + |key|] == KeyBytes(key)
    ensures data[p + 2 + |key|..p + 2 + |key| + |payload|] == payload
  {
    Located(data, p, [tag] + KeyBytes(key), payload);
    Located(data, p, [tag], KeyBytes(key));
    assert data[p] == data[p..p + 1][0];
  }

  lemma DecodeEncodedKeyed(data: seq<byte>, p: nat, op: Op)
    requires op.Encodable() && op.Keyed()
    requires p + |Encode(op)| <= |data| && data[p..p + |Encode(op)|] == Encode(op)
    ensures DecodeAt(data, p) == Some((op, p + |Encode(op)|))
  {
    hide Payload, DecodePayload, KeyBytes, DecodeKey;
    var key, payload := op.key, Payload(op);
    LocateKeyed(data, p, op.Tag(), key, payload);
    DecodeEncodedKey(data, p + 1, key);
    DecodeEncodedPayload(data, p + 2 + |key|, op);
  }

  /** Decoding inverts the encoder, wherever the bytes lie in a buffer. */
  lemma DecodeEncoded(data: seq<byte>, p: nat, op: Op)
    requires op.Encodable()
    requires p + |Encode(op)| <= |data| && data[p..p + |Encode(op)|] == Encode(op)
    ensures p < |data| && DecodeAt(data, p) == Some((op, p + |Encode(op)|))
  {
    if op.Keyed() {
      DecodeEncodedKeyed(data, p, op);
    } else if op.Table? {
      DecodeEncodedTable(data, p, op);
    } else {
      assert data[p] == data[p..p + |Encode(op)|][0];
      if op.Index? {
        Widths();
        FromToLE(op.index, 4);
        assert data[p + 1..p + 5] == data[p..p + 5][1..] == ToLE(op.index, 4);
      }
    }
  }

  lemma EncodeDecodedPayload(data: seq<byte>, p: nat, tag: byte, key: seq<byte>)
    requires p <= |data| && 2 <= tag <= 6 && |key| <= 63
    requires DecodePayload(data, p, tag, key).Some?
    ensures var (op, q) := DecodePayload(data, p, tag, key).value;
      op.Encodable() && op.Keyed() && op.key == key && op.Tag() == tag
      && p <= q <= |data| && data[p..q] == Payload(op)
  {
    var (op, q) := DecodePayload(data, p, tag, key).value;
    match op
    case Integer(_, _) => ToFromLE(data[p..q]);
    case Number(_, _) => ToFromLE(data[p..q]);
    case Text(_, _) =>
      ToFromLE(data[p..p + 2]);
      assert data[p..q] == data[p..p + 2] + data[p + 2..q];
    case Boolean(_, _) =>
    case Field(_) =>
  }

  lemma EncodeDecodedTable(data: seq<byte>, p: nat)
    requires p + 9 <= |data| && data[p] == 1
    ensures data[p..p + 9] == Encode(Table(U32(data[p + 5..p + 9]), U32(data[p + 1..p + 5])))
  {
    var a, b := data[p + 1..p + 5], data[p + 5..p + 9];
    ToFromLE(a);
    ToFromLE(b);
    assert data[p..p + 9] == [data[p]] + (a + b);
  }

  lemma EncodeDecodedKey(data: seq<byte>, p: nat, q: nat)
    requires p + 1 <= q <= |data| && DecodeKey(data, p + 1).Some?
    requires q >= p + 2 + |DecodeKey(data, p + 1).value|
    ensures var r := p + 2 + |DecodeKey(data, p + 1).value|;
      data[p..q] == ([data[p]] + KeyBytes(DecodeKey(data, p + 1).value)) + data[r..q]
  {}

  lemma EncodeDecodedKeyed(data: seq<byte>, p: nat)
    requires p < |data| && 2 <= data[p] <= 6 && DecodeAt(data, p).Some?
    ensures var (op, q) := DecodeAt(data, p).value;
      op.Encodable() && p < q <= |data| && data[p..q] == Encode(op)
  {
    hide Payload, DecodePayload, KeyBytes, DecodeKey;
    var key := DecodeKey(data, p + 1).value;
    EncodeDecodedPayload(data, p + 2 + |key|, data[p], key);
    EncodeDecodedKey(data, p, DecodeAt(data, p).value.1);
  }

  /** Conversely, bytes that decode are exactly the encoding of what they decode to. */
  lemma EncodeDecoded(data: seq<byte>, p: nat)
    requires p < |data| && DecodeAt(data, p).Some?
    ensures var (op, q) := DecodeAt(data, p).value;
      op.Encodable() && p < q <= |data| && data[p..q] == Encode(op)
  {
    var tag := data[p];
    if tag == 1 {
      EncodeDecodedTable(data, p);
    } else if tag == 7 {
      ToFromLE(data[p + 1..p + 5]);
      assert data[p..p + 5] == [data[p]] + data[p + 1..p + 5];
    } else if tag != 8 {
      EncodeDecodedKeyed(data, p);
    }
  }

  /** Round trip over whole streams: decoding an encoded sequence gives it back. */
  lemma {:induction false} DecodeEncodedAll(data: seq<byte>, p: nat, ops: seq<Op>)
    requires AllEncodable(ops)
    requires p <= |data| && data[p..] == EncodeAll(ops)
    ensures DecodeFrom(data, p) == Some(ops)
    decreases |ops|
  {
    hide Encode, DecodeAt;
    if ops != [] {
      var e := Encode(ops[0]);
      assert data[p..][..|e|] == e;
      assert data[p..p + |e|] == e;
      DecodeEncoded(data, p, ops[0]);
      assert data[p + |e|..] == data[p..][|e|..] == EncodeAll(ops[1..]);
      DecodeEncodedAll(data, p + |e|, ops[1..]);
      assert ops == [ops[0]] + ops[1..];
    }
  }

  lemma EncodeAllCons(op: Op, rest: seq<Op>)
    requires op.Encodable() && AllEncodable(rest)
    ensures AllEncodable([op] + rest) && EncodeAll([op] + rest) == Encode(op) + EncodeAll(rest)
  {
    assert ([op] + rest)[1..] == rest;
  }

  /** And any stream that decodes is the encoding of that one sequence. */
  lemma {:induction false} EncodeDecodedAll(data: seq<byte>, p: nat)
    requires p <= |data| && DecodeFrom(data, p).Some?
    ensures AllEncodable(DecodeFrom(data, p).value)
    ensures EncodeAll(DecodeFrom(data, p).value) == data[p..]
    decreases |data| - p
  {
    hide Encode, DecodeAt;
    if p < |data| {
      EncodeDecoded(data, p);
      var (op, q) := DecodeAt(data, p).value;
      EncodeDecodedAll(data, q);
      EncodeAllCons(op, DecodeFrom(data, q).value);
      var front := data[p..q];
      assert data[p..] == front + data[q..];
    }
  }

  // ---- The bounded stack machine ----------------------------------------------------

  predicate KeyByte(c: byte) {
    0x61 <= c <= 0x7A || 0x30 <= c <= 0x39 || c == 0x5F
  }

  predicate GoodKey(key: seq<byte>) {
    1 <= |key| <= 63 && forall i :: 0 <= i < |key| ==> KeyByte(key[i])
  }

  /** Section 3.4 of IEEE 754-2008: finite unless the exponent field is all ones. */
  predicate Finite(bits: u64) {
    bits / 0x10_0000_0000_0000 % 0x800 != 0x7FF
  }

  predicate GoodText(text: seq<byte>) {
    |text| <= 256 && 0 !in text
  }

  /** The bounds an operation must respect whatever the machine state. */
  predicate GoodOp(op: Op) {
    match op
    case Table(slots, fields) => fields <= 128 && slots <= MAX_ENTRIES
    case Integer(key, _) => GoodKey(key)
    case Number(key, bits) => GoodKey(key) && Finite(bits)
    case Text(key, text) => GoodKey(key) && GoodText(text)
    case Boolean(key, flag) => GoodKey(key) && flag <= 1
    case Field(key) => GoodKey(key)
    case Index(index) => 1 <= index <= MAX_ENTRIES
    case Discard => true
  }

  /** `entries[d]` counts what was stored in the table at depth d, overwrites included. */
  datatype Machine = Machine(operations: nat, tables: nat, entries: seq<nat>)

  const START := Machine(0, 0, [])

  /** One more entry in the innermost table. */
  function Stored(entries: seq<nat>): Option<seq<nat>>
    requires entries != []
  {
    var d := |entries| - 1;
    if entries[d] + 1 > MAX_ENTRIES then None else Some(entries[..d] + [entries[d] + 1])
  }

  function StepEntries(entries: seq<nat>, op: Op): Option<seq<nat>> {
    match op
    case Table(_, _) => if |entries| == MAX_DEPTH then None else Some(entries + [0])
    case Discard => if |entries| < 2 then None else Some(entries[..|entries| - 1])
    case Index(_) => if |entries| < 2 then None else Stored(entries[..|entries| - 1])
    case Field(_) => if |entries| < 2 then None else Stored(entries[..|entries| - 1])
    case _ => if entries == [] then None else Stored(entries)
  }

  function Step(m: Machine, op: Op): Option<Machine> {
    var tables := if op.Table? then m.tables + 1 else m.tables;
    if m.operations + 1 > MAX_OPERATIONS || (op.Table? && tables > MAX_TABLES) || !GoodOp(op) then None
    else match StepEntries(m.entries, op)
      case None => None
      case Some(entries) => Some(Machine(m.operations + 1, tables, entries))
  }

  function Run(m: Machine, ops: seq<Op>): Option<Machine>
    decreases |ops|
  {
    if ops == [] then Some(m)
    else match Step(m, ops[0])
      case None => None
      case Some(next) => Run(next, ops[1..])
  }

  lemma {:induction false} RunAppend(m: Machine, a: seq<Op>, b: seq<Op>)
    ensures Run(m, a + b) == if Run(m, a).None? then None else Run(Run(m, a).value, b)
    decreases |a|
  {
    if a == [] {
      assert a + b == b;
    } else {
      assert (a + b)[1..] == a[1..] + b;
      match Step(m, a[0])
      case None =>
      case Some(next) => RunAppend(next, a[1..], b);
    }
  }

  /** Every stack operation is matched and every bound kept, with one table left over. */
  predicate Balanced(ops: seq<Op>) {
    Run(START, ops).Some? && |Run(START, ops).value.entries| == 1
  }

  /** The reference definition of an acceptable stream. */
  ghost predicate Accepts(data: seq<byte>) {
    |data| <= LIMIT && exists ops ::
      AllEncodable(ops) && Balanced(ops) && EncodeAll(ops) == data
  }

  // ---- The validator ----------------------------------------------------------------

  /** Whether the rest of the buffer is accepted from cursor p in state m. */
  ghost predicate Check(data: seq<byte>, p: nat, m: Machine)
    requires p <= |data|
    decreases |data| - p
  {
    if p == |data| then |m.entries| == 1
    else match DecodeAt(data, p)
      case None => false
      case Some((op, q)) =>
        DecodeAtProgress(data, p);
        Step(m, op).Some? && Check(data, q, Step(m, op).value)
  }

  lemma {:induction false} CheckIsDecodeAndRun(data: seq<byte>, p: nat, m: Machine)
    requires p <= |data|
    ensures Check(data, p, m) <==>
      DecodeFrom(data, p).Some? && Run(m, DecodeFrom(data, p).value).Some?
        && |Run(m, DecodeFrom(data, p).value).value.entries| == 1
    decreases |data| - p
  {
    if p < |data| && DecodeAt(data, p).Some? {
      DecodeAtProgress(data, p);
      var (op, q) := DecodeAt(data, p).value;
      if Step(m, op).Some? {
        CheckIsDecodeAndRun(data, q, Step(m, op).value);
      }
      if DecodeFrom(data, q).Some? {
        var rest := DecodeFrom(data, q).value;
        assert ([op] + rest)[0] == op && ([op] + rest)[1..] == rest;
      }
    }
  }

  /** Acceptance is existence of a balanced sequence with these bytes. */
  lemma CheckIsAccepts(data: seq<byte>)
    ensures |data| <= LIMIT && Check(data, 0, START) <==> Accepts(data)
    ensures Accepts(data) ==> DecodeFrom(data, 0).Some? && Balanced(DecodeFrom(data, 0).value)
  {
    CheckIsDecodeAndRun(data, 0, START);
    assert data[0..] == data;
    if Check(data, 0, START) {
      EncodeDecodedAll(data, 0);
      assert Balanced(DecodeFrom(data, 0).value);
    }
    if Accepts(data) {
      var ops :| AllEncodable(ops) && Balanced(ops) && EncodeAll(ops) == data;
      DecodeEncodedAll(data, 0, ops);
    }
  }

  method ValidKeyBytes(data: seq<byte>, p: nat, n: nat) returns (ok: bool)
    requires p + n <= |data|
    ensures ok <==> forall i :: p <= i < p + n ==> KeyByte(data[i])
  {
    for i := 0 to n
      invariant forall j :: p <= j < p + i ==> KeyByte(data[j])
    {
      var c := data[p + i];
      if !((c >= 0x61 && c <= 0x7A) || (c >= 0x30 && c <= 0x39) || c == 0x5F) {
        return false;
      }
    }
    return true;
  }

  method ContainsNul(data: seq<byte>, p: nat, n: nat) returns (found: bool)
    requires p + n <= |data|
    ensures found <==> 0 in data[p..p + n]
  {
    for i := 0 to n
      invariant 0 !in data[p..p + i]
    {
      if data[p + i] == 0 {
        assert data[p..p + n][i] == 0;
        return true;
      }
    }
    return false;
  }

  /** The key of a keyed operation: a length byte, then that many key characters. */
  method WireKey(data: seq<byte>, at: nat) returns (ok: bool, p: nat)
    requires at < |data|
    ensures ok <==> 1 <= data[at] <= |data| - (at + 1) && GoodKey(data[at + 1..at + 1 + data[at]])
    ensures ok ==> p == at + 1 + data[at] && data[at] <= 63
  {
    p := at;
    var n := data[p];
    p := p + 1;
    if n == 0 || n > 63 || n > |data| - p { return false, p; }
    ok := ValidKeyBytes(data, p, n);
    ghost var key := data[p..p + n];
    assert forall i :: 0 <= i < n ==> key[i] == data[p + i];
    assert forall i :: p <= i < p + n ==> data[i] == key[i - p];
    p := p + n;
  }

  /** The value of a keyed operation. */
  method WireValue(data: seq<byte>, at: nat, op: byte, ghost key: seq<byte>)
    returns (ok: bool, p: nat)
    requires at <= |data| && 2 <= op <= 6 && GoodKey(key)
    ensures var d := DecodePayload(data, at, op, key);
      (ok <==> d.Some? && GoodOp(d.value.0)) && (ok ==> d.value.1 == p)
  {
    p := at;
    if op == 2 || op == 3 {
      if |data| - p < 8 { return false, p; }
      if op == 3 && !Finite(U64(data[p..p + 8])) { return false, p; }
      p := p + 8;
    } else if op == 5 {
      if p >= |data| || data[p] > 1 { return false, p; }
      p := p + 1;
    } else if op == 4 {
      if |data| - p < 2 { return false, p; }
      var size := U16(data[p..p + 2]);
      p := p + 2;
      if size > 256 || size > |data| - p { return false, p; }
      var nul := ContainsNul(data, p, size);
      if nul { return false, p; }
      p := p + size;
    }
    return true, p;
  }

  /** Both halves of a keyed operation leave the entry counters as the machine does. */
  lemma KeyedStep(before: seq<nat>, depth: nat, op: Op)
    requires op.Keyed()
    requires depth == if op.Field? then |before| - 1 else |before|
    ensures StepEntries(before, op) ==
      if |before| < 1 || (op.Field? && |before| < 2) || before[depth - 1] + 1 > MAX_ENTRIES then None
      else Some(before[..depth - 1] + [before[depth - 1] + 1])
  {
    if op.Field? && |before| >= 2 {
      assert before[..depth][..depth - 1] == before[..depth - 1];
    }
    assert before[..|before|] == before;
  }

  /** The keyed tail of the loop body: from the byte after the tag to the next operation.
      `ok` is false when the stream must be refused; otherwise the state has advanced. */
  method WireKeyed(data: seq<byte>, at: nat, op: byte, entries: array<nat>, depthIn: nat)
    returns (ok: bool, p: nat, depth: nat)
    requires at < |data| && data[at] == op && op != 1 && op != 7 && op != 8
    requires entries.Length == MAX_DEPTH && depthIn <= MAX_DEPTH
    modifies entries
    ensures var d := DecodeAt(data, at);
      ok <==> d.Some? && GoodOp(d.value.0) && StepEntries(old(entries[..depthIn]), d.value.0).Some?
    ensures ok ==> var (o, q) := DecodeAt(data, at).value;
      at < p == q <= |data| && depth <= MAX_DEPTH && o.Keyed()
      && StepEntries(old(entries[..depthIn]), o) == Some(entries[..depth])
  {
    p, depth := at + 1, depthIn;
    ghost var before := entries[..depth];
    ghost var d := DecodeAt(data, at);
    if op < 2 || op > 6 || p >= |data| { return false, p, depth; }
    if depth == 0 {
      assert d.Some? ==> StepEntries(before, d.value.0).None?;
      return false, p, depth;
    }
    ok, p := WireKey(data, p);
    if !ok { return; }
    ghost var key := data[at + 2..p];
    assert DecodeKey(data, at + 1) == Some(key);
    assert d == DecodePayload(data, p, op, key);
    if d.Some? { KeyedStep(before, if op == 6 then depth - 1 else depth, d.value.0); }
    if op == 6 {
      if depth < 2 { return false, p, depth; }
      depth := depth - 1;
    }
    if entries[depth - 1] + 1 > MAX_ENTRIES { return false, p, depth; }
    entries[depth - 1] := entries[depth - 1] + 1;
    assert entries[..depth] == before[..depth - 1] + [before[depth - 1] + 1];
    ok, p := WireValue(data, p, op, key);
  }

  /** One operation of any kind: whether it may be read and applied at this depth. */
  method WireOperation(data: seq<byte>, at: nat, entries: array<nat>, depthIn: nat)
    returns (ok: bool, p: nat, depth: nat)
    requires at < |data| && entries.Length == MAX_DEPTH && depthIn <= MAX_DEPTH
    modifies entries
    ensures var d := DecodeAt(data, at);
      ok <==> d.Some? && GoodOp(d.value.0) && StepEntries(old(entries[..depthIn]), d.value.0).Some?
    ensures ok ==> var (o, q) := DecodeAt(data, at).value;
      at < p == q <= |data| && depth <= MAX_DEPTH && (o.Table? <==> data[at] == 1)
      && StepEntries(old(entries[..depthIn]), o) == Some(entries[..depth])
  {
    hide DecodePayload, DecodeKey, GoodKey;
    p, depth := at, depthIn;
    ghost var before := entries[..depth];
    var op := data[p];
    p := p + 1;
    if op == 1 {
      if |data| - p < 8 || depth == 64 { return false, p, depth; }
      if U32(data[p..p + 4]) > 128 || U32(data[p + 4..p + 8]) > 4096 { return false, p, depth; }
      p := p + 8;
      entries[depth] := 0;
      depth := depth + 1;
      assert entries[..depth] == before + [0];
      return true, p, depth;
    }
    if op == 7 {
      if depth < 2 || |data| - p < 4 || U32(data[p..p + 4]) == 0 || U32(data[p..p + 4]) > 4096 {
        return false, p, depth;
      }
      p := p + 4;
      depth := depth - 1;
      assert before[..depth][..depth - 1] == before[..depth - 1];
      entries[depth - 1] := entries[depth - 1] + 1;
      assert entries[..depth] == before[..depth - 1] + [before[depth - 1] + 1];
      return entries[depth - 1] <= 4096, p, depth;
    }
    if op == 8 {
      if depth < 2 { return false, p, depth; }
      depth := depth - 1;
      assert entries[..depth] == before[..depth];
      return true, p, depth;
    }
    ok, p, depth := WireKeyed(data, at, op, entries, depth);
  }

  /** `gpu_wire_valid`: one pass over arbitrary bytes with a 64-entry counter array. */
  method WireValid(data: seq<byte>) returns (ok: bool)
    ensures ok <==> Accepts(data)
  {
    hide DecodeAt, StepEntries, Accepts, GoodOp;
    CheckIsAccepts(data);
    var p, depth, operations, tables := 0, 0, 0, 0;
    var entries := new nat[64](_ => 0);
    if |data| == 0 || |data| > LIMIT { return false; }
    assert entries[..0] == [];
    while p < |data|
      invariant 0 <= p <= |data| && 0 <= depth <= MAX_DEPTH
      invariant operations <= MAX_OPERATIONS && tables <= MAX_TABLES
      invariant Check(data, p, Machine(operations, tables, entries[..depth])) == Check(data, 0, START)
    {
      operations := operations + 1;
      if operations > MAX_OPERATIONS { return false; }
      var at := p;
      var applied;
      applied, p, depth := WireOperation(data, at, entries, depth);
      if !applied { return false; }
      if data[at] == 1 {
        tables := tables + 1;
        if tables > MAX_TABLES { return false; }
      }
    }
    return depth == 1;
  }
}
