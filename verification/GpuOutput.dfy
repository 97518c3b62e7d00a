/** The worker's output object: operations serialised into a buffer that doubles. */
module GpuOutput {
  import opened Bytes
  import opened GpuWire
  import opened GpuReplay

  lemma {:induction false} EncodeAllAppend(a: seq<Op>, b: seq<Op>)
    requires AllEncodable(a) && AllEncodable(b)
    ensures AllEncodable(a + b) && EncodeAll(a + b) == EncodeAll(a) + EncodeAll(b)
    decreases |a|
  {
    hide Encode;
    if a == [] {
      assert a + b == b;
    } else {
      assert (a + b)[1..] == a[1..] + b;
      EncodeAllAppend(a[1..], b);
    }
  }

  lemma EncodeAllSnoc(ops: seq<Op>, op: Op)
    requires AllEncodable(ops) && op.Encodable()
    ensures AllEncodable(ops + [op]) && EncodeAll(ops + [op]) == EncodeAll(ops) + Encode(op)
  {
    hide Encode;
    EncodeAllAppend(ops, [op]);
    assert EncodeAll([op]) == Encode(op) + EncodeAll([op][1..]);
  }

  /** v shifted left by n bytes. */
  function Shift(v: nat, n: nat): nat {
    if n == 0 then v else 256 * Shift(v, n - 1)
  }

  /** A 64-bit field written at once is its low half followed by its high half. */
  lemma {:induction false} SplitLE(low: nat, high: nat, n: nat, m: nat)
    requires low < Pow256(n)
    ensures ToLE(low + Shift(high, n), n + m) == ToLE(low, n) + ToLE(high, m)
    decreases n
  {
    if n > 0 {
      var v := low + Shift(high, n);
      var rest := low / 256 + Shift(high, n - 1);
      assert v % 256 == low % 256 && v / 256 == rest;
      SplitLE(low / 256, high, n - 1, m);
      assert ToLE(v, n + m) == [v % 256] + ToLE(rest, n - 1 + m);
    }
  }

  lemma TableWord(slots: u32, fields: u32)
    ensures ToLE(fields + 0x1_0000_0000 * slots, 8) == ToLE(fields, 4) + ToLE(slots, 4)
  {
    hide ToLE;
    Widths();
    var halfway := Shift(slots, 2);
    assert halfway == 256 * Shift(slots, 1) == 0x1_0000 * slots;
    assert Shift(slots, 4) == 256 * Shift(slots, 3) == 0x1_0000 * halfway;
    SplitLE(fields, slots, 4, 4);
  }

  /** Capacities are 0 before the first allocation, then 64 KiB doubled at most eight times. */
  predicate Capacity(n: nat) {
    n in {0, 0x1_0000, 0x2_0000, 0x4_0000, 0x8_0000, 0x10_0000, 0x20_0000, 0x40_0000, 0x80_0000, LIMIT}
  }

  // ---- What the operations build, and how much of the bounds they use ---------------------

  /** A machine that still runs, with at least one table open. */
  ghost predicate Live(m: Option<Machine>) {
    m.Some? && m.value.entries != []
  }

  /** The stack of tables that are open. */
  ghost function Stack(m: Option<Machine>, below: seq<Frame>, table: Frame): seq<Frame> {
    if Live(m) then below + [table] else []
  }

  /** A C string literal as bytes. */
  function Ascii(s: string): (b: seq<byte>)
    ensures |b| == |s|
  {
    seq(|s|, i requires 0 <= i < |s| => if s[i] < 128 as char then s[i] as int else 0)
  }

  function Set(t: Frame, key: string, v: Value): Frame {
    t[Name(Ascii(key)) := v]
  }

  /** What an operation does to the open tables. */
  ghost predicate Moved(below: seq<Frame>, table: Frame, op: Op, below': seq<Frame>, table': Frame) {
    var d := |below| - 1;
    match op
    case Table(_, _) => below' == below + [table] && table' == map[]
    case Field(key) => d >= 0 && below' == below[..d] && table' == below[d][Name(key) := TableValue(table)]
    case Index(index) => d >= 0 && below' == below[..d] && table' == below[d][At(index) := TableValue(table)]
    case Discard => d >= 0 && below' == below[..d] && table' == below[d]
    case _ => below' == below && table' == table[Name(op.key) := Scalar(op)]
  }

  lemma StepMoves(below: seq<Frame>, table: Frame, op: Op, below': seq<Frame>, table': Frame)
    requires LuaStep(below + [table], op) == Some(below' + [table'])
    ensures Moved(below, table, op, below', table')
  {
    var (stack, next, d) := (below + [table], below' + [table'], |below| - 1);
    assert stack[..|below|] == below && next[..|below'|] == below' && next[|below'|] == table';
    if d >= 0 {
      assert stack[..d] == below[..d];
    }
  }

  /** The stack after one more operation that the machine allows. */
  lemma StackMore(ops: seq<Op>, op: Op)
    requires Run(START, ops).Some? && Run(START, ops + [op]).Some?
    ensures LuaRun([], ops).Some? && LuaRun([], ops + [op]).Some?
    ensures LuaStep(LuaRun([], ops).value, op) == LuaRun([], ops + [op])
    ensures |LuaRun([], ops + [op]).value| == |Run(START, ops + [op]).value.entries|
  {
    hide Small;
    RunAgrees(START, [], ops);
    RunAgrees(START, [], ops + [op]);
    LuaRunAppend([], ops, [op]);
    assert [op][1..] == [];
  }

  predicate GoodName(s: string) {
    1 <= |s| <= 63
    && forall i :: 0 <= i < |s| ==> 'a' <= s[i] <= 'z' || '0' <= s[i] <= '9' || s[i] == '_'
  }

  ghost function Operations(m: Option<Machine>): nat {
    if m.Some? then m.value.operations else 0
  }

  ghost function Tables(m: Option<Machine>): nat {
    if m.Some? then m.value.tables else 0
  }

  /** The entries of the innermost table, and of the tables around it. */
  ghost function Top(m: Option<Machine>): nat {
    if Live(m) then m.value.entries[|m.value.entries| - 1] else 0
  }

  ghost function Below(m: Option<Machine>): seq<nat> {
    if Live(m) then m.value.entries[..|m.value.entries| - 1] else []
  }

  /** Enough room for n operations, t tables and h levels, and k entries in the top table. */
  ghost predicate Room(m: Option<Machine>, n: nat, t: nat, k: nat, h: nat) {
    Live(m) && |Below(m)| + 1 + h <= MAX_DEPTH && Top(m) + k <= MAX_ENTRIES
    && Operations(m) + n <= MAX_OPERATIONS && Tables(m) + t <= MAX_TABLES
  }

  /** From a to b the tables around the top one are untouched, the top one gained at most k
      entries, and at most n operations and t tables were spent. */
  ghost predicate Grew(a: Option<Machine>, b: Option<Machine>, n: nat, t: nat, k: nat) {
    Live(a) && Live(b) && Below(a) == Below(b) && Top(b) <= Top(a) + k
    && Operations(b) <= Operations(a) + n && Tables(b) <= Tables(a) + t
  }

  ghost predicate Opened(a: Option<Machine>, b: Option<Machine>) {
    a.Some? && Live(b) && Top(b) == 0 && Operations(b) == Operations(a) + 1 && Tables(b) == Tables(a) + 1
    && Below(b) == if Live(a) then Below(a) + [Top(a)] else []
  }

  ghost predicate CanClose(m: Option<Machine>) {
    Live(m) && Below(m) != [] && Operations(m) < MAX_OPERATIONS
    && Below(m)[|Below(m)| - 1] < MAX_ENTRIES
  }

  /** The top table went into its parent, or away. */
  ghost predicate Closed(a: Option<Machine>, b: Option<Machine>) {
    Live(a) && Live(b) && Below(a) != [] && Operations(b) == Operations(a) + 1 && Tables(b) == Tables(a)
    && Below(b) == Below(a)[..|Below(a)| - 1] && Top(b) <= Below(a)[|Below(a)| - 1] + 1
  }

  lemma CloseStep(m: Machine, op: Op)
    requires CanClose(Some(m)) && GoodOp(op) && (op.Field? || op.Index? || op.Discard?)
    ensures Closed(Some(m), Step(m, op))
  {
    var d := |m.entries| - 2;
    var below := m.entries[..d + 1];
    assert Step(m, op).value.entries == if op.Discard? then below else below[..d] + [below[d] + 1];
    assert Step(m, op).value.entries[..d] == m.entries[..d] == below[..d];
  }

  lemma StoreStep(m: Machine, op: Op)
    requires Room(Some(m), 1, 0, 1, 0) && GoodOp(op) && op.Keyed() && !op.Field?
    ensures Grew(Some(m), Step(m, op), 1, 0, 1)
  {
    var d := |m.entries| - 1;
    assert Step(m, op).value.entries[..d] == m.entries[..d];
  }

  lemma OpenStep(m: Machine, op: Op)
    requires op.Table? && GoodOp(op) && |m.entries| < MAX_DEPTH
    requires m.tables < MAX_TABLES && m.operations < MAX_OPERATIONS
    ensures Opened(Some(m), Step(m, op))
  {
    assert Step(m, op).value.entries[..|m.entries|] == m.entries;
    if m.entries != [] { assert m.entries == Below(Some(m)) + [Top(Some(m))]; }
  }

  lemma RunOne(m: Option<Machine>, op: Op)
    ensures m.Some? ==> Run(m.value, [op]) == Step(m.value, op)
  {
    if m.Some? && Step(m.value, op).Some? {
      assert Run(Step(m.value, op).value, [op][1..]) == Step(m.value, op);
    }
  }

  /** The size computed before anything is written. */
  function EncodedLength(op: Op): (n: nat)
    requires op.Encodable()
    ensures n == |Header(op)| + |Payload(op)|
  {
    var payload := if op.Table? || op.Integer? || op.Number? then 8 else if op.Index? then 4
      else if op.Boolean? then 1 else if op.Text? then |op.text| + 2 else 0;
    1 + (if op.Keyed() then |op.key| + 1 else 0) + payload
  }

  // ---- The output object --------------------------------------------------------------------

  class Output {
    var data: array<byte>
    var size: nat
    /** 0 while every operation was written; 1 too large; 2 out of memory. */
    var failed: nat
    /** Every operation emitted since the last Reset, written or not. */
    ghost var emitted: seq<Op>
    ghost var machine: Option<Machine>
    /** What the same operations build on a Lua stack: the innermost table, and those around it. */
    ghost var table: Frame
    ghost var below: seq<Frame>

    ghost predicate Valid()
      reads this, data
    {
      size <= data.Length && size <= LIMIT && Capacity(data.Length) && failed <= 2
      && machine == Run(START, emitted)
      && (machine.Some? ==> LuaRun([], emitted) == Some(Stack(machine, below, table)))
      && (failed == 0 ==> AllEncodable(emitted) && data[..size] == EncodeAll(emitted))
    }

    constructor ()
      ensures Valid() && failed == 0 && emitted == [] && fresh(data)
    {
      data := new byte[0];
      size, failed := 0, 0;
      emitted, machine, below, table := [], Some(START), [], map[];
    }

    /** A new request reuses the buffer. */
    method Reset()
      requires Valid()
      modifies this
      ensures Valid() && failed == 0 && emitted == [] && data == old(data)
    {
      size, failed := 0, 0;
      emitted, machine, below, table := [], Some(START), [], map[];
    }

    /** Room for n more bytes at the returned offset. Earlier bytes survive the doubling. */
    method Reserve(n: nat) returns (ok: bool, p: nat)
      requires size <= data.Length && Capacity(data.Length) && failed <= 2
      modifies this
      ensures Capacity(data.Length) && size <= data.Length && failed <= 2
      ensures data == old(data) || fresh(data)
      ensures emitted == old(emitted) && machine == old(machine) && below == old(below) && table == old(table)
      ensures old(failed) != 0 ==> !ok && failed == 1
      ensures ok ==> failed == 0 && p == old(size) && size == p + n <= LIMIT
      ensures ok ==> data[..p] == old(data[..size])
      ensures !ok ==> failed != 0 && data == old(data) && size == old(size)
      ensures failed != 1 <==> old(failed) == 0 && n <= LIMIT - old(size)
      ensures failed == 2 ==> old(size) + n > old(data.Length)
    {
      p := size;
      if failed != 0 || n > LIMIT - size {
        failed := 1;
        return false, p;
      }
      if size + n > data.Length {
        var capacity := if data.Length != 0 then data.Length else 65536;
        while capacity < size + n
          invariant Capacity(capacity) && capacity != 0
          decreases LIMIT - capacity
        {
          capacity := capacity * 2;
        }
        var memory: bool := *;
        if !memory {
          failed := 2;
          return false, p;
        }
        var grown := new byte[capacity];
        forall i | 0 <= i < data.Length {
          grown[i] := data[i];
        }
        data := grown;
      }
      size := size + n;
      ok := true;
    }

    /** `memcpy` of a key or a text into reserved room. */
    method Copy(p: nat, bytes: seq<byte>)
      requires p + |bytes| <= data.Length
      modifies data
      ensures data[p..p + |bytes|] == bytes
      ensures forall i :: 0 <= i < p ==> data[i] == old(data[i])
    {
      forall i | 0 <= i < |bytes| {
        data[p + i] := bytes[i];
      }
    }

    /** `gpu_put32` and `gpu_put64`: n little-endian bytes of a value. */
    method Put(p: nat, value: nat, n: nat)
      requires p + n <= data.Length
      modifies data
      ensures data[p..p + n] == ToLE(value, n)
      ensures forall i :: 0 <= i < p ==> data[i] == old(data[i])
    {
      var v := value;
      for i := 0 to n
        invariant 0 <= v && data[p..p + i] + ToLE(v, n - i) == ToLE(value, n)
        invariant forall j :: 0 <= j < p ==> data[j] == old(data[j])
      {
        ghost var done := data[p..p + i];
        data[p + i] := v % 256;
        assert data[p..p + i + 1] == done + [v % 256];
        assert ToLE(v, n - i) == [v % 256] + ToLE(v / 256, n - i - 1);
        v := v / 256;
      }
    }

    method PutText(p: nat, text: seq<byte>)
      requires p + 2 + |text| <= data.Length
      modifies data
      ensures data[p..p + 2 + |text|] == ToLE(|text|, 2) + text
      ensures forall i :: 0 <= i < p ==> data[i] == old(data[i])
    {
      hide ToLE;
      Put(p, |text|, 2);
      ghost var length := data[p..p + 2];
      Copy(p + 2, text);
      assert data[p..p + 2] == length;
      assert data[p..p + 2 + |text|] == data[p..p + 2] + data[p + 2..p + 2 + |text|];
    }

    /** The payload of an operation, written into its reserved room. */
    method PutPayload(p: nat, op: Op)
      requires op.Encodable() && p + |Payload(op)| <= data.Length
      modifies data
      ensures data[p..p + |Payload(op)|] == Payload(op)
      ensures forall i :: 0 <= i < p ==> data[i] == old(data[i])
    {
      hide ToLE;
      match op {
        case Table(slots, fields) =>
          TableWord(slots, fields);
          Put(p, fields + 0x1_0000_0000 * slots, 8);
        case Integer(_, value) => Put(p, Unsigned(value), 8);
        case Number(_, bits) => Put(p, bits, 8);
        case Index(index) => Put(p, index, 4);
        case Boolean(_, flag) => data[p] := flag;
        case Text(_, text) => PutText(p, text);
        case _ =>
      }
    }

    method PutKey(p: nat, key: seq<byte>)
      requires |key| <= 63 && p + 1 + |key| <= data.Length
      modifies data
      ensures data[p..p + 1 + |key|] == KeyBytes(key)
      ensures forall i :: 0 <= i < p ==> data[i] == old(data[i])
    {
      data[p] := |key|;
      Copy(p + 1, key);
      assert data[p..p + 1 + |key|] == [data[p]] + data[p + 1..p + 1 + |key|];
    }

    /** The tag, and for a keyed operation the key behind its length byte. */
    method PutHeader(at: nat, op: Op) returns (p: nat)
      requires op.Encodable() && at + |Header(op)| <= data.Length
      modifies data
      ensures p == at + |Header(op)| && data[at..p] == Header(op)
      ensures forall i :: 0 <= i < at ==> data[i] == old(data[i])
    {
      hide KeyBytes;
      p := at;
      data[p] := op.Tag();
      p := p + 1;
      if op.Keyed() {
        PutKey(p, op.key);
        p := p + 1 + |op.key|;
      }
      assert data[at..p] == [data[at]] + data[at + 1..p];
    }

    /** Reserve the exact room an operation needs and write it there. */
    method Write(op: Op) returns (ok: bool)
      requires size <= data.Length && Capacity(data.Length) && failed <= 2 && op.Encodable()
      modifies this, data
      ensures Capacity(data.Length) && size <= data.Length && failed <= 2
      ensures data == old(data) || fresh(data)
      ensures emitted == old(emitted) && machine == old(machine) && below == old(below) && table == old(table)
      ensures old(failed) != 0 ==> !ok && failed == 1
      ensures ok ==> failed == 0 && size <= LIMIT
      ensures ok ==> data[..size] == old(data[..size]) + Encode(op)
      ensures !ok ==> failed != 0 && data == old(data) && size == old(size)
      ensures failed != 1 <==> old(failed) == 0 && |Encode(op)| <= LIMIT - old(size)
      ensures failed == 2 ==> old(size) + |Encode(op)| > old(data.Length)
    {
      hide Header, Payload, Capacity;
      var length := EncodedLength(op);
      assert length == |Encode(op)|;
      var at;
      ok, at := Reserve(length);
      if !ok { return; }
      ghost var before := data[..at];
      var p := PutHeader(at, op);
      ghost var header := data[at..p];
      PutPayload(p, op);
      assert data[at..p] == header;
      assert data[..size] == before + (data[at..p] + data[p..size]);
    }

    /** `wire_emit`. Nothing is ever written again once one operation was refused; one is refused exactly when
        another was before, it cannot be encoded, or the limit leaves no room, and otherwise fails only if the
        buffer has to grow and there is no memory. */
    method Emit(op: Op)
      requires Valid()
      modifies this, data
      ensures Valid() && (data == old(data) || fresh(data))
      ensures emitted == old(emitted) + [op]
      ensures machine == if old(machine).None? then None else Step(old(machine).value, op)
      ensures Live(machine) && old(Live(machine)) ==> Moved(old(below), old(table), op, below, table)
      ensures Live(machine) && old(machine) == Some(START) ==> below == [] && table == map[]
      ensures old(failed) != 0 ==> failed == 1
      ensures failed != 1 <==> old(failed) == 0 && op.Encodable() && |Encode(op)| <= LIMIT - old(size)
      ensures failed == 2 ==> op.Encodable() && old(size) + |Encode(op)| > old(data.Length)
      ensures failed != 0 ==> data == old(data) && size == old(size)
    {
      hide Encode, Step, EncodeAll, Capacity;
      ghost var ops := emitted;
      if (op.Keyed() && |op.key| > 63) || (op.Text? && |op.text| > 256) {
        failed := 1;
      } else {
        var ok := Write(op);
        if ok { EncodeAllSnoc(ops, op); }
      }
      Note(op);
    }

    /** Keeps the account of what was emitted. */
    ghost method Note(op: Op)
      requires machine == Run(START, emitted)
      requires machine.Some? ==> LuaRun([], emitted) == Some(Stack(machine, below, table))
      modifies this`emitted, this`machine, this`below, this`table
      ensures emitted == old(emitted) + [op] && machine == Run(START, emitted)
      ensures machine.Some? ==> LuaRun([], emitted) == Some(Stack(machine, below, table))
      ensures machine == if old(machine).None? then None else Step(old(machine).value, op)
      ensures Live(machine) && old(Live(machine)) ==> Moved(old(below), old(table), op, below, table)
      ensures Live(machine) && old(machine) == Some(START) ==> below == [] && table == map[]
    {
      hide Step, Moved;
      var ops := emitted;
      RunAppend(START, ops, [op]);
      RunOne(Run(START, ops), op);
      emitted, machine := ops + [op], Run(START, ops + [op]);
      if machine.Some? {
        StackMore(ops, op);
        var stack := LuaRun([], emitted).value;
        if stack != [] {
          below, table := stack[..|stack| - 1], stack[|stack| - 1];
          assert below + [table] == stack;
          if Live(old(machine)) { StepMoves(old(below), old(table), op, below, table); }
          if old(machine) == Some(START) { assert op.Table?; }
        }
        assert Stack(machine, below, table) == stack;
      }
    }

    // ---- The operations collectors use, with the bounds each leaves -------------------

    method Store(op: Op)
      requires Valid() && op.Keyed() && !op.Field? && GoodOp(op) && Room(machine, 1, 0, 1, 0)
      modifies this, data
      ensures below == old(below) && table == old(table)[Name(op.key) := Scalar(op)]
      ensures Valid() && (data == old(data) || fresh(data))
      ensures emitted == old(emitted) + [op] && Grew(old(machine), machine, 1, 0, 1)
    {
      StoreStep(machine.value, op);
      Emit(op);
    }

    method IntegerField(key: string, value: int64)
      requires Valid() && GoodName(key) && Room(machine, 1, 0, 1, 0)
      modifies this, data
      ensures Valid() && (data == old(data) || fresh(data))
      ensures emitted == old(emitted) + [Integer(Ascii(key), value)]
      ensures below == old(below) && table == Set(old(table), key, IntegerValue(value))
      ensures Grew(old(machine), machine, 1, 0, 1)
    {
      Store(Integer(Ascii(key), value));
    }

    method NumberField(key: string, bits: u64)
      requires Valid() && GoodName(key) && Finite(bits) && Room(machine, 1, 0, 1, 0)
      modifies this, data
      ensures Valid() && (data == old(data) || fresh(data))
      ensures emitted == old(emitted) + [Number(Ascii(key), bits)]
      ensures below == old(below) && table == Set(old(table), key, NumberValue(bits))
      ensures Grew(old(machine), machine, 1, 0, 1)
    {
      Store(Number(Ascii(key), bits));
    }

    method StringField(key: string, text: seq<byte>)
      requires Valid() && GoodName(key) && GoodText(text) && Room(machine, 1, 0, 1, 0)
      modifies this, data
      ensures Valid() && (data == old(data) || fresh(data))
      ensures emitted == old(emitted) + [Text(Ascii(key), text)]
      ensures below == old(below) && table == Set(old(table), key, TextValue(text))
      ensures Grew(old(machine), machine, 1, 0, 1)
    {
      Store(Text(Ascii(key), text));
    }

    method BooleanField(key: string, value: bool)
      requires Valid() && GoodName(key) && Room(machine, 1, 0, 1, 0)
      modifies this, data
      ensures Valid() && (data == old(data) || fresh(data))
      ensures emitted == old(emitted) + [Boolean(Ascii(key), if value then 1 else 0)]
      ensures below == old(below) && table == Set(old(table), key, BooleanValue(value))
      ensures Grew(old(machine), machine, 1, 0, 1)
    {
      Store(Boolean(Ascii(key), if value then 1 else 0));
    }

    method OpenTable(slots: u32, fields: u32)
      requires Valid() && GoodOp(Table(slots, fields))
      requires machine == Some(START) || Room(machine, 1, 1, 0, 1)
      modifies this, data
      ensures Valid() && (data == old(data) || fresh(data))
      ensures emitted == old(emitted) + [Table(slots, fields)] && Opened(old(machine), machine)
      ensures table == map[] && below == if Live(old(machine)) then old(below) + [old(table)] else []
    {
      OpenStep(machine.value, Table(slots, fields));
      Emit(Table(slots, fields));
    }

    method Attach(key: string)
      requires Valid() && GoodName(key) && CanClose(machine)
      modifies this, data
      ensures Valid() && (data == old(data) || fresh(data))
      ensures emitted == old(emitted) + [Field(Ascii(key))] && Closed(old(machine), machine)
      ensures old(below) != [] && below == old(below)[..|old(below)| - 1]
      ensures table == Set(old(below)[|old(below)| - 1], key, TableValue(old(table)))
    {
      CloseStep(machine.value, Field(Ascii(key)));
      Emit(Field(Ascii(key)));
    }

    method AttachIndex(index: nat)
      requires Valid() && 1 <= index <= MAX_ENTRIES && CanClose(machine)
      modifies this, data
      ensures Valid() && (data == old(data) || fresh(data))
      ensures emitted == old(emitted) + [Index(index)] && Closed(old(machine), machine)
      ensures old(below) != [] && below == old(below)[..|old(below)| - 1]
      ensures table == old(below)[|old(below)| - 1][At(index) := TableValue(old(table))]
    {
      CloseStep(machine.value, Index(index));
      Emit(Index(index));
    }

    method Drop()
      requires Valid() && CanClose(machine)
      modifies this, data
      ensures Valid() && (data == old(data) || fresh(data))
      ensures emitted == old(emitted) + [Discard] && Closed(old(machine), machine)
      ensures old(below) != [] && below == old(below)[..|old(below)| - 1]
      ensures table == old(below)[|old(below)| - 1]
    {
      CloseStep(machine.value, Discard);
      Emit(Discard);
    }
  }

  // ---- Composing bounded growth -----------------------------------------------------------

  lemma GrewTrans(a: Option<Machine>, b: Option<Machine>, c: Option<Machine>,
                  n: nat, t: nat, k: nat, n': nat, t': nat, k': nat)
    requires Grew(a, b, n, t, k) && Grew(b, c, n', t', k')
    ensures Grew(a, c, n + n', t + t', k + k')
  {}

  /** A table opened with room in its parent can be stored there whatever it gained. */
  lemma NestedCanClose(a: Option<Machine>, b: Option<Machine>, c: Option<Machine>, n: nat, t: nat, k: nat)
    requires Room(a, n + 2, t + 1, 1, 1) && Opened(a, b) && Grew(b, c, n, t, k)
    ensures CanClose(c)
  {}

  /** A finished sub-table costs its contents, two operations, one table and one entry. */
  lemma GrewNested(a: Option<Machine>, b: Option<Machine>, c: Option<Machine>, d: Option<Machine>,
                   n: nat, t: nat, k: nat)
    requires Live(a) && Opened(a, b) && Grew(b, c, n, t, k) && Closed(c, d)
    ensures Grew(a, d, n + 2, t + 1, 1)
  {}

  /** A worker that reports no failure holds the encoding of exactly what was emitted, so the
      check before the reply passes exactly when the operations were balanced. */
  lemma BufferAccepted(data: seq<byte>, ops: seq<Op>)
    requires AllEncodable(ops) && data == EncodeAll(ops) && |data| <= LIMIT
    ensures Accepts(data) <==> Balanced(ops)
  {
    hide Balanced, EncodeAll;
    assert data[0..] == data;
    DecodeEncodedAll(data, 0, ops);
    CheckIsAccepts(data);
  }
}
