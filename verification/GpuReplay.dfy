/** What the operations mean: the Lua sink, the parent's decoder, and the table both build. */
module GpuReplay {
  import opened Bytes
  import opened GpuWire

  datatype Key = Name(name: seq<byte>) | At(index: nat)

  datatype Value =
    | IntegerValue(integer: int64)
    | NumberValue(bits: u64)
    | TextValue(text: seq<byte>)
    | BooleanValue(truth: bool)
    | TableValue(fields: map<Key, Value>)

  /** A table under construction. Each table the protocol creates has exactly one owner, the
      stack slot it sits in or the field it was attached to, so tables are plain values. */
  type Frame = map<Key, Value>

  function Scalar(op: Op): Value
    requires op.Keyed() && !op.Field?
  {
    match op
    case Integer(_, value) => IntegerValue(value)
    case Number(_, bits) => NumberValue(bits)
    case Text(_, text) => TextValue(text)
    case Boolean(_, flag) => BooleanValue(flag != 0)
  }

  /** The table on top is stored in the one beneath it and popped. */
  function Attach(stack: seq<Frame>, key: Key): Option<seq<Frame>> {
    var d := |stack| - 1;
    if d < 1 then None else Some(stack[..d - 1] + [stack[d - 1][key := TableValue(stack[d])]])
  }

  /** One operation on the Lua stack; None when it would reach below the session's base. */
  function LuaStep(stack: seq<Frame>, op: Op): Option<seq<Frame>> {
    var d := |stack| - 1;
    match op
    case Table(_, _) => Some(stack + [map[]])
    case Field(key) => Attach(stack, Name(key))
    case Index(index) => Attach(stack, At(index))
    case Discard => if d < 1 then None else Some(stack[..d])
    case _ => if d < 0 then None else Some(stack[..d] + [stack[d][Name(op.key) := Scalar(op)]])
  }

  function LuaRun(stack: seq<Frame>, ops: seq<Op>): Option<seq<Frame>>
    decreases |ops|
  {
    if ops == [] then Some(stack)
    else match LuaStep(stack, ops[0])
      case None => None
      case Some(next) => LuaRun(next, ops[1..])
  }

  lemma {:induction false} LuaRunAppend(stack: seq<Frame>, a: seq<Op>, b: seq<Op>)
    ensures LuaRun(stack, a + b) ==
      if LuaRun(stack, a).None? then None else LuaRun(LuaRun(stack, a).value, b)
    decreases |a|
  {
    if a == [] {
      assert a + b == b;
    } else {
      assert (a + b)[1..] == a[1..] + b;
      match LuaStep(stack, a[0])
      case None =>
      case Some(next) => LuaRunAppend(next, a[1..], b);
    }
  }

  // ---- Bounds on the table that is built -----------------------------------------------

  /** No table holds more than MAX_ENTRIES fields and none nests deeper than `depth`. */
  predicate Small(v: Value, depth: nat)
    decreases v
  {
    v.TableValue? ==>
      depth > 0 && |v.fields| <= MAX_ENTRIES
      && forall k :: k in v.fields ==> Small(v.fields[k], depth - 1)
  }

  /** The stack agrees with the machine's counters, level by level. */
  ghost predicate Agrees(stack: seq<Frame>, entries: seq<nat>) {
    |stack| == |entries| <= MAX_DEPTH
    && forall d :: 0 <= d < |stack| ==>
      entries[d] <= MAX_ENTRIES && |stack[d]| <= entries[d]
      && Small(TableValue(stack[d]), MAX_DEPTH - d)
  }

  lemma SmallStore(table: Frame, key: Key, v: Value, depth: nat)
    requires depth > 0 && Small(TableValue(table), depth) && Small(v, depth - 1)
    requires |table| < MAX_ENTRIES
    ensures Small(TableValue(table[key := v]), depth)
    ensures |table[key := v]| <= |table| + 1
  {
    var stored := table[key := v];
    assert stored.Keys == table.Keys + {key};
    forall k | k in stored ensures Small(stored[k], depth - 1) {
      if k != key { assert stored[k] == table[k] == TableValue(table).fields[k]; }
    }
  }

  lemma AttachAgrees(stack: seq<Frame>, entries: seq<nat>, key: Key)
    requires Agrees(stack, entries) && |entries| >= 2
    requires Stored(entries[..|entries| - 1]).Some?
    ensures Attach(stack, key).Some?
    ensures Agrees(Attach(stack, key).value, Stored(entries[..|entries| - 1]).value)
  {
    hide Small;
    var d := |stack| - 1;
    SmallStore(stack[d - 1], key, TableValue(stack[d]), MAX_DEPTH - (d - 1));
  }

  lemma ScalarAgrees(stack: seq<Frame>, entries: seq<nat>, key: Key, v: Value)
    requires Agrees(stack, entries) && stack != [] && !v.TableValue? && Stored(entries).Some?
    ensures var d := |stack| - 1;
      Agrees(stack[..d] + [stack[d][key := v]], Stored(entries).value)
  {
    var d := |stack| - 1;
    SmallStore(stack[d], key, v, MAX_DEPTH - d);
  }

  /** The step an accepted operation takes is defined on the Lua stack and keeps agreement. */
  lemma StepAgrees(stack: seq<Frame>, entries: seq<nat>, op: Op)
    requires Agrees(stack, entries) && StepEntries(entries, op).Some?
    ensures LuaStep(stack, op).Some?
    ensures Agrees(LuaStep(stack, op).value, StepEntries(entries, op).value)
  {
    hide Attach, Stored;
    match op
    case Table(_, _) =>
    case Discard =>
    case Field(key) => AttachAgrees(stack, entries, Name(key));
    case Index(index) => AttachAgrees(stack, entries, At(index));
    case _ => ScalarAgrees(stack, entries, Name(op.key), Scalar(op));
  }

  lemma {:induction false} RunAgrees(m: Machine, stack: seq<Frame>, ops: seq<Op>)
    requires Agrees(stack, m.entries) && Run(m, ops).Some?
    ensures LuaRun(stack, ops).Some?
    ensures Agrees(LuaRun(stack, ops).value, Run(m, ops).value.entries)
    decreases |ops|
  {
    if ops != [] {
      StepAgrees(stack, m.entries, ops[0]);
      RunAgrees(Step(m, ops[0]).value, LuaStep(stack, ops[0]).value, ops[1..]);
    }
  }

  /** Replaying any prefix of an accepted sequence keeps the Lua stack as high as the
      validator's depth, and the whole sequence leaves exactly one small root table. */
  lemma ReplaySafe(ops: seq<Op>, k: nat)
    requires Balanced(ops) && k <= |ops|
    ensures LuaRun([], ops[..k]).Some? && Run(START, ops[..k]).Some?
    ensures |LuaRun([], ops[..k]).value| == |Run(START, ops[..k]).value.entries| <= MAX_DEPTH
    ensures LuaRun([], ops).Some? && |LuaRun([], ops).value| == 1
    ensures Small(TableValue(LuaRun([], ops).value[0]), MAX_DEPTH)
  {
    assert ops[..k] + ops[k..] == ops;
    RunAppend(START, ops[..k], ops[k..]);
    RunAgrees(START, [], ops[..k]);
    RunAgrees(START, [], ops);
  }

  // ---- The two executions ----------------------------------------------------------------

  class LuaState {
    var stack: seq<Frame>

    constructor ()
      ensures stack == []
    {
      stack := [];
    }

    /** `lua_setfield` and `lua_rawseti` at index -2: pop the top table into its parent. */
    method SetTable(key: Key)
      requires |stack| >= 2
      modifies this
      ensures Attach(old(stack), key) == Some(stack)
    {
      var d := |stack| - 1;
      stack := stack[..d - 1] + [stack[d - 1][key := TableValue(stack[d])]];
    }

    method SetScalar(key: seq<byte>, v: Value)
      requires stack != []
      modifies this
      ensures stack == old(stack[..|stack| - 1] + [stack[|stack| - 1][Name(key) := v]])
    {
      var d := |stack| - 1;
      stack := stack[..d] + [stack[d][Name(key) := v]];
    }

    /** `gpu_lua_emit`: a collector writing straight into Lua. */
    method Emit(op: Op)
      requires LuaStep(stack, op).Some?
      modifies this
      ensures LuaStep(old(stack), op) == Some(stack)
    {
      match op {
        case Table(_, _) => stack := stack + [map[]];
        case Field(key) => SetTable(Name(key));
        case Index(index) => SetTable(At(index));
        case Discard => stack := stack[..|stack| - 1];
        case Integer(key, value) => SetScalar(key, IntegerValue(value));
        case Number(key, bits) => SetScalar(key, NumberValue(bits));
        case Text(key, text) => SetScalar(key, TextValue(text));
        case Boolean(key, flag) => SetScalar(key, BooleanValue(flag != 0));
      }
    }

    /** One turn of the parent's loop: it reads at p without any check of its own. */
    method Replay(data: seq<byte>, at: nat) returns (p: nat)
      requires at < |data| && DecodeAt(data, at).Some?
      requires LuaStep(stack, DecodeAt(data, at).value.0).Some?
      modifies this
      ensures LuaStep(old(stack), DecodeAt(data, at).value.0) == Some(stack)
      ensures p == DecodeAt(data, at).value.1
    {
      p := at;
      var op := data[p];
      p := p + 1;
      if op == 1 {
        p := p + 8;
        stack := stack + [map[]];
        return;
      }
      if op == 7 {
        var index := U32(data[p..p + 4]);
        p := p + 4;
        SetTable(At(index));
        return;
      }
      if op == 8 {
        stack := stack[..|stack| - 1];
        return;
      }
      var n := data[p];
      p := p + 1;
      var key := data[p..p + n];
      p := p + n;
      if op == 6 {
        SetTable(Name(key));
      } else if op == 2 {
        SetScalar(key, IntegerValue(Signed(U64(data[p..p + 8]))));
        p := p + 8;
      } else if op == 3 {
        SetScalar(key, NumberValue(U64(data[p..p + 8])));
        p := p + 8;
      } else if op == 5 {
        SetScalar(key, BooleanValue(data[p] != 0));
        p := p + 1;
      } else {
        var size := U16(data[p..p + 2]);
        p := p + 2;
        SetScalar(key, TextValue(data[p..p + size]));
        p := p + size;
      }
    }
  }

  /** The machine, the decoder and the Lua stack advance together over accepted bytes. */
  lemma ReplayStep(data: seq<byte>, p: nat, m: Machine, stack: seq<Frame>)
    requires p < |data| && Check(data, p, m) && Agrees(stack, m.entries)
    ensures DecodeAt(data, p).Some?
    ensures var (op, q) := DecodeAt(data, p).value;
      p < q <= |data| && LuaStep(stack, op).Some? && Step(m, op).Some?
      && Check(data, q, Step(m, op).value)
      && Agrees(LuaStep(stack, op).value, Step(m, op).value.entries)
      && (DecodeFrom(data, q).Some? ==> (DecodeFrom(data, p).Some?
        && LuaRun(stack, DecodeFrom(data, p).value) == LuaRun(LuaStep(stack, op).value, DecodeFrom(data, q).value)))
  {
    hide DecodeAt, GoodOp, LuaStep, StepEntries, Agrees;
    DecodeAtProgress(data, p);
    var (op, q) := DecodeAt(data, p).value;
    StepAgrees(stack, m.entries, op);
    if DecodeFrom(data, q).Some? {
      var rest := DecodeFrom(data, q).value;
      assert ([op] + rest)[1..] == rest;
    }
  }

  /** `decode_frame`: on accepted bytes it stays inside the buffer and leaves one table,
      the one that running the decoded operations through the Lua sink builds. */
  method DecodeFrame(data: seq<byte>) returns (root: Value)
    requires Accepts(data)
    ensures DecodeFrom(data, 0).Some? && Balanced(DecodeFrom(data, 0).value)
    ensures root.TableValue? && Small(root, MAX_DEPTH)
    ensures LuaRun([], DecodeFrom(data, 0).value) == Some([root.fields])
  {
    hide DecodeAt, GoodOp, LuaStep, StepEntries, Accepts, Small;
    CheckIsAccepts(data);
    var L := new LuaState();
    var p := 0;
    ghost var m := START;
    while p < |data|
      invariant 0 <= p <= |data| && Check(data, p, m) && Agrees(L.stack, m.entries)
      invariant DecodeFrom(data, p).Some?
      invariant LuaRun(L.stack, DecodeFrom(data, p).value) == LuaRun([], DecodeFrom(data, 0).value)
    {
      ReplayStep(data, p, m, L.stack);
      m := Step(m, DecodeAt(data, p).value.0).value;
      p := L.Replay(data, p);
    }
    root := TableValue(L.stack[0]);
    assert L.stack == [root.fields];
  }

  /** A collector's operations in the two ways they become a table: relayed over the wire and decoded by the
      parent, and written straight into Lua. */
  method WireReplayIsDirect(ops: seq<Op>, data: seq<byte>) returns (relayed: Value, direct: Value)
    requires AllEncodable(ops) && Balanced(ops) && data == EncodeAll(ops) && |data| <= LIMIT
    ensures Accepts(data) && DecodeFrom(data, 0) == Some(ops)
    ensures relayed == direct && relayed.TableValue? && LuaRun([], ops) == Some([relayed.fields])
  {
    hide Balanced, DecodeFrom, EncodeAll, Small, LuaStep;
    assert Accepts(data);
    hide Accepts;
    assert data[0..] == data;
    DecodeEncodedAll(data, 0, ops);
    relayed := DecodeFrame(data);
    ReplaySafe(ops, |ops|);
    var L := new LuaState();
    for i := 0 to |ops|
      invariant LuaRun([], ops) == LuaRun(L.stack, ops[i..])
    {
      assert ops[i..][1..] == ops[i + 1..];
      L.Emit(ops[i]);
    }
    assert L.stack == [relayed.fields];
    direct := TableValue(L.stack[0]);
  }
}
