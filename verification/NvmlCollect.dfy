/** The NVML collection: whatever the driver replies, a collection that reports no reason has
    written a stream the validator accepts and that says exactly what the driver reported, and only
    such a collection moves the cursors forward. */
module NvmlCollect {
  import opened Bytes
  import opened GpuWire
  import opened GpuReplay
  import opened GpuOutput
  import opened NvmlText
  import opened NvmlDevice
  import P = NvmlProcesses

  // ---- Counting the contexts under a set of rows ----------------------------------------------

  function CountPid(records: seq<P.Allocation>, pid: u32): (n: nat)
    ensures n <= |records|
  {
    if records == [] then 0
    else
      var here := if records[|records| - 1].value.pid == pid then 1 else 0;
      CountPid(records[..|records| - 1], pid) + here
  }

  ghost function CountRows(records: seq<P.Allocation>, rows: seq<P.Row>): (n: nat)
    ensures n <= |records|
  {
    if records == [] then 0
    else
      var here := if P.HasRow(rows, records[|records| - 1].value.pid) then 1 else 0;
      CountRows(records[..|records| - 1], rows) + here
  }

  /** Rows have distinct processes, so no context is written under two of them. */
  lemma {:induction false} CountRowsMore(records: seq<P.Allocation>, rows: seq<P.Row>, row: P.Row)
    requires !P.HasRow(rows, row.pid)
    ensures CountRows(records, rows + [row]) == CountRows(records, rows) + CountPid(records, row.pid)
  {
    if records != [] {
      var last := |records| - 1;
      CountRowsMore(records[..last], rows, row);
      var more, pid := rows + [row], records[last].value.pid;
      assert more[|rows|] == row;
      assert forall i :: 0 <= i < |rows| ==> more[i] == rows[i];
      if P.HasRow(rows, pid) {
        var i :| 0 <= i < |rows| && rows[i].pid == pid;
        assert more[i].pid == pid;
      }
    }
  }

  // ---- Process rows ------------------------------------------------------------------------------

  lemma ContextKeys()
    ensures GoodName("gpu_instance_id") && GoodName("compute_instance_id")
    ensures GoodName("memory_bytes") && GoodName("kind")
  {}

  lemma RowKeys()
    ensures GoodName("pid") && GoodName("memory_quality") && GoodName("memory_scope")
    ensures GoodName("memory_contexts") && GoodName("processes") && GoodName("processes_truncated")
  {}

  lemma SampleKeys()
    ensures GoodName("sm_percent") && GoodName("memory_percent") && GoodName("encoder_percent")
    ensures GoodName("decoder_percent")
  {}

  lemma WindowKeys()
    ensures GoodName("sample_timestamp_us") && GoodName("sample_window")
  {}

  function KindText(sources: set<nat>): CText {
    if 0 in sources && 1 in sources then AsciiText("compute+graphics")
    else if 0 in sources then AsciiText("compute") else AsciiText("graphics")
  }

  function Known(v: u32): Option<int64> {
    AtMost(Some(v), P.UINT_MAX - 1)
  }

  function Accepted(memory: u64): Option<int64> {
    if memory < P.MEMORY_LIMIT then Some(memory) else None
  }

  function AddContext(t: Frame, a: P.Allocation): Frame {
    var t := With(t, "gpu_instance_id", Integral(Known(a.value.gpuInstance)));
    var t := With(t, "compute_instance_id", Integral(Known(a.value.computeInstance)));
    var t := With(t, "memory_bytes", Integral(Accepted(a.value.memory)));
    Set(t, "kind", TextValue(KindText(a.sources)))
  }

  /** The contexts of a process, numbered from one in record order. */
  function ContextsTable(records: seq<P.Allocation>, pid: u32): Frame {
    if records == [] then map[]
    else
      var (earlier, last) := (records[..|records| - 1], records[|records| - 1]);
      var t := ContextsTable(earlier, pid);
      if last.value.pid == pid then t[At(CountPid(records, pid)) := TableValue(AddContext(map[], last))] else t
  }

  method ContextFields(out: Output, a: P.Allocation)
    requires out.Valid() && Room(out.machine, 4, 0, 4, 0)
    modifies out, out.data
    ensures out.Valid() && (out.data == old(out.data) || fresh(out.data))
    ensures Grew(old(out.machine), out.machine, 4, 0, 4)
    ensures out.below == old(out.below) && out.table == AddContext(old(out.table), a)
  {
    hide GoodName, Ascii, Set, KindText, Output.Valid, Live, Top, Below, Operations, Tables;
    ContextKeys();
    var p := a.value;
    if p.gpuInstance != P.UINT_MAX { out.IntegerField("gpu_instance_id", p.gpuInstance); }
    if p.computeInstance != P.UINT_MAX { out.IntegerField("compute_instance_id", p.computeInstance); }
    if p.memory < P.MEMORY_LIMIT { out.IntegerField("memory_bytes", p.memory); }
    out.StringField("kind", KindText(a.sources));
  }

  method EmitContext(out: Output, a: P.Allocation, index: nat)
    requires out.Valid() && Room(out.machine, 6, 1, 1, 1) && 1 <= index <= MAX_ENTRIES
    modifies out, out.data
    ensures out.Valid() && (out.data == old(out.data) || fresh(out.data))
    ensures Grew(old(out.machine), out.machine, 6, 1, 1)
    ensures out.below == old(out.below) && out.table == old(out.table)[At(index) := TableValue(AddContext(map[], a))]
  {
    hide AddContext, Output.Valid, Top, Below, Operations, Tables;
    ghost var m := out.machine;
    out.OpenTable(0, 4);
    ghost var inner := out.machine;
    ContextFields(out, a);
    ghost var filled := out.machine;
    NestedCanClose(m, inner, filled, 4, 0, 4);
    out.AttachIndex(index);
    GrewNested(m, inner, filled, out.machine, 4, 0, 4);
  }

  lemma CountNone(records: seq<P.Allocation>, pid: u32)
    ensures CountPid(records[..0], pid) == 0 && records[0..] == records && ContextsTable(records[..0], pid) == map[]
  {}

  lemma ContextsMore(records: seq<P.Allocation>, j: nat, pid: u32)
    requires j < |records|
    ensures var (t, last) := (ContextsTable(records[..j], pid), records[j]);
      ContextsTable(records[..j + 1], pid)
      == if last.value.pid == pid then t[At(CountPid(records[..j + 1], pid)) := TableValue(AddContext(map[], last))] else t
  {
    assert records[..j + 1][..j] == records[..j];
  }

  lemma {:induction false} CountCons(a: P.Allocation, rest: seq<P.Allocation>, pid: u32)
    ensures CountPid([a] + rest, pid) == CountPid(rest, pid) + if a.value.pid == pid then 1 else 0
    decreases |rest|
  {
    if rest == [] {
      assert [a] + rest == [a];
      assert [a][..0] == [];
    } else {
      var last := |rest| - 1;
      assert ([a] + rest)[..last + 1] == [a] + rest[..last];
      CountCons(a, rest[..last], pid);
    }
  }

  lemma CountSplit(records: seq<P.Allocation>, j: nat, pid: u32)
    requires j < |records|
    ensures CountPid(records[..j + 1], pid)
      == CountPid(records[..j], pid) + if records[j].value.pid == pid then 1 else 0
    ensures CountPid(records[j..], pid)
      == CountPid(records[j + 1..], pid) + if records[j].value.pid == pid then 1 else 0
  {
    assert records[..j + 1][..j] == records[..j];
    CountCons(records[j], records[j + 1..], pid);
    assert records[j..] == [records[j]] + records[j + 1..];
  }

  /** Room left inside a table that was just opened. */
  lemma OpenedRoom(a: Option<Machine>, b: Option<Machine>, n: nat, t: nat, k: nat, h: nat)
    requires Room(a, n + 2, t + 1, 1, h + 1) && Opened(a, b) && k <= MAX_ENTRIES
    ensures Room(b, n + 1, t, k, h)
  {}

  /** The contexts of one process, in record order. */
  method EmitContexts(out: Output, pid: u32, records: seq<P.Allocation>)
    requires out.Valid() && |records| <= 2 * P.MAX_PROCESSES
    requires Room(out.machine, 6 * CountPid(records, pid) + 2, CountPid(records, pid) + 1, 1, 2)
    modifies out, out.data
    ensures out.Valid() && (out.data == old(out.data) || fresh(out.data))
    ensures Grew(old(out.machine), out.machine, 6 * CountPid(records, pid) + 2, CountPid(records, pid) + 1, 1)
    ensures out.below == old(out.below)
    ensures out.table == Set(old(out.table), "memory_contexts", TableValue(ContextsTable(records, pid)))
  {
    hide GoodName, Ascii, Set, AddContext, ContextsTable, CountPid, Output.Valid, Live, Top, Below, Operations, Tables;
    ghost var total := CountPid(records, pid);
    ghost var m := out.machine;
    out.OpenTable(0, 0);
    ghost var inner := out.machine;
    OpenedRoom(m, inner, 6 * total, total, |records|, 1);
    var contexts := 0;
    CountNone(records, pid);
    for j := 0 to |records|
      invariant out.Valid() && (out.data == old(out.data) || fresh(out.data))
      invariant contexts == CountPid(records[..j], pid) <= total
      invariant CountPid(records[..j], pid) + CountPid(records[j..], pid) == total
      invariant Grew(inner, out.machine, 6 * contexts, contexts, contexts)
      invariant out.below == old(out.below) + [old(out.table)] && out.table == ContextsTable(records[..j], pid)
    {
      CountSplit(records, j, pid);
      ContextsMore(records, j, pid);
      if records[j].value.pid != pid { continue; }
      contexts := contexts + 1;
      ghost var before := out.machine;
      EmitContext(out, records[j], contexts);
      GrewTrans(inner, before, out.machine, 6 * (contexts - 1), contexts - 1, contexts - 1, 6, 1, 1);
    }
    assert records[..|records|] == records;
    ghost var filled := out.machine;
    NestedCanClose(m, inner, filled, 6 * total, total, total);
    RowKeys();
    out.Attach("memory_contexts");
    GrewNested(m, inner, filled, out.machine, 6 * total, total, total);
  }

  function QualityText(r: P.Row): CText {
    if r.estimated then AsciiText("estimated") else AsciiText("fresh")
  }

  function ScopeText(r: P.Row): CText {
    if r.estimated then AsciiText("largest_reported_context")
    else if r.hasWhole then AsciiText("whole_device") else AsciiText("reported_context")
  }

  function RowKind(r: P.Row): CText {
    if r.sources == {} then AsciiText("sampled") else KindText(r.sources)
  }

  function WindowText(previous: u64): CText {
    if previous != 0 then AsciiText("since_last_query") else AsciiText("driver_buffer")
  }

  function AddRow(t: Frame, r: P.Row): Frame {
    var t := Set(t, "pid", IntegerValue(r.pid));
    var t := Set(t, "kind", TextValue(RowKind(r)));
    if !r.hasMemory then t
    else
      var t := Set(t, "memory_bytes", IntegerValue(Signed(r.memory)));
      var t := Set(t, "memory_quality", TextValue(QualityText(r)));
      Set(t, "memory_scope", TextValue(ScopeText(r)))
  }

  /** A sample covers the time since the previous query, if there was one. */
  function AddSample(t: Frame, r: P.Row, previous: u64): Frame {
    if !r.hasSample then t
    else
      var t := Set(t, "sm_percent", IntegerValue(r.sm));
      var t := Set(t, "memory_percent", IntegerValue(r.utilization));
      var t := Set(t, "encoder_percent", IntegerValue(r.encoder));
      var t := Set(t, "decoder_percent", IntegerValue(r.decoder));
      var t := Set(t, "sample_timestamp_us", IntegerValue(Signed(r.timestamp)));
      Set(t, "sample_window", TextValue(WindowText(previous)))
  }

  function RowTable(r: P.Row, records: seq<P.Allocation>, previous: u64): Frame {
    AddSample(Set(AddRow(map[], r), "memory_contexts", TableValue(ContextsTable(records, r.pid))), r, previous)
  }

  function RowsTable(rows: seq<P.Row>, records: seq<P.Allocation>, previous: u64): Frame {
    if rows == [] then map[]
    else
      var n := |rows| - 1;
      RowsTable(rows[..n], records, previous)[At(n + 1) := TableValue(RowTable(rows[n], records, previous))]
  }

  method EmitMemory(out: Output, r: P.Row)
    requires out.Valid() && Room(out.machine, 5, 0, 5, 0)
    modifies out, out.data
    ensures out.Valid() && (out.data == old(out.data) || fresh(out.data))
    ensures Grew(old(out.machine), out.machine, 5, 0, 5)
    ensures out.below == old(out.below) && out.table == AddRow(old(out.table), r)
  {
    hide GoodName, Ascii, Set, Signed, RowKind, QualityText, ScopeText, Output.Valid, Live, Top, Below, Operations, Tables;
    ContextKeys();
    RowKeys();
    out.IntegerField("pid", r.pid);
    out.StringField("kind", RowKind(r));
    if r.hasMemory {
      out.IntegerField("memory_bytes", Signed(r.memory));
      out.StringField("memory_quality", QualityText(r));
      out.StringField("memory_scope", ScopeText(r));
    }
  }

  method EmitSample(out: Output, r: P.Row, previous: u64)
    requires out.Valid() && Room(out.machine, 6, 0, 6, 0)
    modifies out, out.data
    ensures out.Valid() && (out.data == old(out.data) || fresh(out.data))
    ensures Grew(old(out.machine), out.machine, 6, 0, 6)
    ensures out.below == old(out.below) && out.table == AddSample(old(out.table), r, previous)
  {
    hide GoodName, Ascii, Set, Signed, WindowText, Output.Valid, Live, Top, Below, Operations, Tables;
    SampleKeys();
    WindowKeys();
    if r.hasSample {
      out.IntegerField("sm_percent", r.sm);
      out.IntegerField("memory_percent", r.utilization);
      out.IntegerField("encoder_percent", r.encoder);
      out.IntegerField("decoder_percent", r.decoder);
      out.IntegerField("sample_timestamp_us", Signed(r.timestamp));
      out.StringField("sample_window", WindowText(previous));
    }
  }

  method FillRow(out: Output, r: P.Row, records: seq<P.Allocation>, previous: u64)
    requires out.Valid() && |records| <= 2 * P.MAX_PROCESSES
    requires Room(out.machine, 6 * CountPid(records, r.pid) + 14, CountPid(records, r.pid) + 1, 12, 2)
    modifies out, out.data
    ensures out.Valid() && (out.data == old(out.data) || fresh(out.data))
    ensures Grew(old(out.machine), out.machine, 6 * CountPid(records, r.pid) + 13, CountPid(records, r.pid) + 1, 12)
    ensures out.below == old(out.below)
    ensures old(out.table) == map[] ==> out.table == RowTable(r, records, previous)
  {
    hide Ascii, Set, AddRow, AddSample, ContextsTable, CountPid, Output.Valid, Live, Top, Below, Operations, Tables;
    ghost var c := CountPid(records, r.pid);
    ghost var inner := out.machine;
    EmitMemory(out, r);
    ghost var one := out.machine;
    EmitContexts(out, r.pid, records);
    ghost var two := out.machine;
    GrewTrans(inner, one, two, 5, 0, 5, 6 * c + 2, c + 1, 1);
    EmitSample(out, r, previous);
    GrewTrans(inner, two, out.machine, 6 * c + 7, c + 1, 6, 6, 0, 6);
  }

  method EmitRow(out: Output, r: P.Row, records: seq<P.Allocation>, previous: u64, index: nat)
    requires out.Valid() && |records| <= 2 * P.MAX_PROCESSES && 1 <= index <= MAX_ENTRIES
    requires Room(out.machine, 6 * CountPid(records, r.pid) + 15, CountPid(records, r.pid) + 2, 1, 3)
    modifies out, out.data
    ensures out.Valid() && (out.data == old(out.data) || fresh(out.data))
    ensures Grew(old(out.machine), out.machine, 6 * CountPid(records, r.pid) + 15, CountPid(records, r.pid) + 2, 1)
    ensures out.below == old(out.below)
    ensures out.table == old(out.table)[At(index) := TableValue(RowTable(r, records, previous))]
  {
    hide RowTable, CountPid, Output.Valid, Live, Top, Below, Operations, Tables;
    ghost var c := CountPid(records, r.pid);
    ghost var m := out.machine;
    out.OpenTable(0, 10);
    ghost var inner := out.machine;
    OpenedRoom(m, inner, 6 * c + 13, c + 1, 12, 2);
    FillRow(out, r, records, previous);
    ghost var filled := out.machine;
    NestedCanClose(m, inner, filled, 6 * c + 13, c + 1, 12);
    out.AttachIndex(index);
    GrewNested(m, inner, filled, out.machine, 6 * c + 13, c + 1, 12);
  }

  const ROW_OPERATIONS: nat := 15 * P.MAX_PROCESSES + 6 * (2 * P.MAX_PROCESSES)
  const ROW_TABLES: nat := 2 * P.MAX_PROCESSES + 2 * P.MAX_PROCESSES

  lemma NoRows(rows: seq<P.Row>, records: seq<P.Allocation>, previous: u64)
    ensures RowsTable(rows[..0], records, previous) == map[]
  {}

  lemma RowsMore(rows: seq<P.Row>, i: nat, records: seq<P.Allocation>, previous: u64)
    requires i < |rows|
    ensures RowsTable(rows[..i + 1], records, previous)
      == RowsTable(rows[..i], records, previous)[At(i + 1) := TableValue(RowTable(rows[i], records, previous))]
  {
    assert rows[..i + 1][..i] == rows[..i];
  }

  /** The rows are numbered from one, and there is nothing else. */
  lemma {:induction false} RowsAt(rows: seq<P.Row>, records: seq<P.Allocation>, previous: u64, k: Key)
    ensures k in RowsTable(rows, records, previous) <==> k.At? && 1 <= k.index <= |rows|
    ensures k.At? && 1 <= k.index <= |rows| ==>
      RowsTable(rows, records, previous)[k] == TableValue(RowTable(rows[k.index - 1], records, previous))
    decreases |rows|
  {
    hide RowTable;
    if rows != [] {
      RowsAt(rows[..|rows| - 1], records, previous, k);
    }
  }

  lemma {:induction false} CountGrows(records: seq<P.Allocation>, pid: u32, j: nat)
    requires j <= |records|
    ensures CountPid(records[..j], pid) <= CountPid(records, pid)
    decreases |records|
  {
    if j < |records| {
      var n := |records| - 1;
      CountGrows(records[..n], pid, j);
      assert records[..n][..j] == records[..j];
    } else {
      assert records[..j] == records;
    }
  }

  /** Each record of a process is its own context, under its number among them. */
  lemma {:induction false} ContextsAt(records: seq<P.Allocation>, pid: u32, j: nat)
    requires j < |records| && records[j].value.pid == pid
    ensures var (t, k) := (ContextsTable(records, pid), At(CountPid(records[..j + 1], pid)));
      k in t && t[k] == TableValue(AddContext(map[], records[j]))
    decreases |records|
  {
    hide AddContext;
    var n := |records| - 1;
    if j < n {
      ContextsAt(records[..n], pid, j);
      assert records[..n][..j + 1] == records[..j + 1];
      CountGrows(records[..n], pid, j + 1);
    } else {
      assert records[..j + 1] == records;
    }
  }

  lemma {:induction false} CountNoRows(records: seq<P.Allocation>)
    ensures CountRows(records, []) == 0
  {
    if records != [] { CountNoRows(records[..|records| - 1]); }
  }

  lemma GrewMore(a: Option<Machine>, b: Option<Machine>, n: nat, t: nat, k: nat, n': nat, t': nat, k': nat)
    requires Grew(a, b, n, t, k) && n <= n' && t <= t' && k <= k'
    ensures Grew(a, b, n', t', k')
  {}

  lemma CountRowsNext(records: seq<P.Allocation>, rows: seq<P.Row>, i: nat)
    requires P.DistinctPids(rows) && i < |rows|
    ensures CountRows(records, rows[..i + 1]) == CountRows(records, rows[..i]) + CountPid(records, rows[i].pid)
  {
    assert rows[..i + 1] == rows[..i] + [rows[i]];
    CountRowsMore(records, rows[..i], rows[i]);
  }

  method EmitRows(out: Output, rows: seq<P.Row>, records: seq<P.Allocation>, previous: u64)
    requires out.Valid() && |records| <= 2 * P.MAX_PROCESSES
    requires |rows| <= P.MAX_PROCESSES && P.DistinctPids(rows)
    requires Room(out.machine, ROW_OPERATIONS + 2, ROW_TABLES + 1, 1, 4)
    modifies out, out.data
    ensures out.Valid() && (out.data == old(out.data) || fresh(out.data))
    ensures Grew(old(out.machine), out.machine, ROW_OPERATIONS + 2, ROW_TABLES + 1, 1)
    ensures out.below == old(out.below)
    ensures out.table == Set(old(out.table), "processes", TableValue(RowsTable(rows, records, previous)))
  {
    hide GoodName, Ascii, Set, RowTable, RowsTable, CountRows, CountPid, P.DistinctPids;
    hide Output.Valid, Live, Top, Below, Operations, Tables;
    ghost var m := out.machine;
    out.OpenTable(|rows|, 0);
    ghost var inner := out.machine;
    OpenedRoom(m, inner, ROW_OPERATIONS, ROW_TABLES, P.MAX_PROCESSES, 3);
    ghost var c := 0;
    assert CountRows(records, rows[..0]) == 0 by { CountNoRows(records); }
    NoRows(rows, records, previous);
    for i := 0 to |rows|
      invariant out.Valid() && (out.data == old(out.data) || fresh(out.data))
      invariant c == CountRows(records, rows[..i]) <= |records|
      invariant Grew(inner, out.machine, 15 * i + 6 * c, 2 * i + c, i)
      invariant out.below == old(out.below) + [old(out.table)] && out.table == RowsTable(rows[..i], records, previous)
    {
      CountRowsNext(records, rows, i);
      RowsMore(rows, i, records, previous);
      ghost var d := CountPid(records, rows[i].pid);
      assert c + d == CountRows(records, rows[..i + 1]) <= |records|;
      ghost var before := out.machine;
      EmitRow(out, rows[i], records, previous, i + 1);
      GrewTrans(inner, before, out.machine, 15 * i + 6 * c, 2 * i + c, i, 6 * d + 15, d + 2, 1);
      c := c + d;
    }
    assert rows[..|rows|] == rows;
    ghost var filled := out.machine;
    GrewMore(inner, filled, 15 * |rows| + 6 * c, 2 * |rows| + c, |rows|, ROW_OPERATIONS, ROW_TABLES, P.MAX_PROCESSES);
    NestedCanClose(m, inner, filled, ROW_OPERATIONS, ROW_TABLES, P.MAX_PROCESSES);
    RowKeys();
    out.Attach("processes");
    GrewNested(m, inner, filled, out.machine, ROW_OPERATIONS, ROW_TABLES, P.MAX_PROCESSES);
  }

  // ---- Devices ---------------------------------------------------------------------------------

  const DEVICE_OPERATIONS: nat := 46 + ROW_OPERATIONS
  const DEVICE_TABLES: nat := 2 + ROW_TABLES

  /** Everything a device table holds before its process rows. */
  function AddSections(t: Frame, d: Device, index: nat, uuid: CText): Frame
    requires index < MAX_DEVICES
  {
    var t := AddUtilization(AddPci(AddNames(t, Queried(d.name), index, uuid), d.pci), d.utilization);
    var t := AddPower(AddMemory(t, d.memory, d.temperature), d.power);
    var t := AddState(AddClocks(AddRates(AddLinks(t, d.pcie, 4), d.pcie), d.clocks), d.clocks);
    Set(t, "clock_events", TableValue(EventsTable(d.events)))
  }

  method EmitSections(out: Output, d: Device, index: nat, uuid: CText)
    requires out.Valid() && Room(out.machine, 43, 1, 36, 1) && index < MAX_DEVICES
    modifies out, out.data
    ensures out.Valid() && (out.data == old(out.data) || fresh(out.data))
    ensures Grew(old(out.machine), out.machine, 43, 1, 36)
    ensures out.below == old(out.below) && out.table == AddSections(old(out.table), d, index, uuid)
  {
    hide GoodName, Set, Output.Valid, Live, Top, Below, Operations, Tables, EventsTable;
    hide AddNames, AddPci, AddUtilization, AddMemory, AddPower, AddLinks, AddRates, AddClocks, AddState;
    DeviceNames(out, Queried(d.name), index, uuid);
    DevicePci(out, d.pci);
    DeviceUtilization(out, d.utilization);
    DeviceMemory(out, d.memory, d.temperature);
    DevicePower(out, d.power);
    DevicePcie(out, d.pcie);
    DeviceClocks(out, d.clocks);
    DeviceState(out, d.clocks);
    ClockEvents(out, d.events);
  }

  /** The cursor a device's samples leave. */
  ghost predicate NextCursor(d: Device, processes: bool, previous: u64, next: u64) {
    previous <= next
    && if processes then P.Newest(P.Delivered(d.samples), previous, next) else next == previous
  }

  /** What was worked out about the processes of a device. */
  datatype Detail = Detail(rows: seq<P.Row>, records: seq<P.Allocation>, totals: seq<P.Row>, truncated: bool)

  const NO_DETAIL := Detail([], [], [], false)

  /** A device answers at this index. */
  predicate Answers(driver: Driver, i: nat) {
    i < |driver.devices| && driver.devices[i].Some?
  }

  /** The UUID of a device, empty when it gave none that fits. */
  function Uuid(driver: Driver, i: nat): (u: CText)
    requires Answers(driver, i)
  {
    var name := Queried(driver.devices[i].value.uuid);
    if name.Some? && |name.value| < 128 then name.value else []
  }

  /** A device that gave the same UUID before and after its reading. */
  predicate Steady(driver: Driver, i: nat) {
    Answers(driver, i) && Uuid(driver, i) != [] && Queried(driver.devices[i].value.uuidAgain) == Some(Uuid(driver, i))
  }

  /** One of the first n devices was steady under this UUID. */
  predicate SteadyBefore(driver: Driver, n: nat, uuid: seq<byte>) {
    exists j: nat :: j < n && Steady(driver, j) && Uuid(driver, j) == uuid
  }

  /** The device is read: it answers, and its UUID is not that of a device already reported. */
  predicate Attempted(driver: Driver, i: nat) {
    Answers(driver, i) && (Uuid(driver, i) == [] || !SteadyBefore(driver, i, Uuid(driver, i)))
  }

  /** The device is reported: read, and still the same afterwards if it has a UUID. */
  predicate Reported(driver: Driver, i: nat) {
    Attempted(driver, i) && (Uuid(driver, i) == [] || Steady(driver, i))
  }

  /** Records, rows and samples are what the device's lists say; the mark says exactly whether anything
      is missing. */
  ghost predicate Supported(d: Device, previous: u64, detail: Detail) {
    P.Merged(detail.records, P.Reported(d.graphicsList, d.computeList))
    && P.SampledRows(detail.totals, detail.rows, P.Delivered(d.samples), previous)
    && (forall i :: 0 <= i < |detail.totals| ==> P.Published(detail.totals[i], detail.records))
    && (P.Covered(detail.totals, detail.records) || |detail.totals| == P.MAX_PROCESSES)
    && (detail.truncated <==> (P.Cut(d.graphicsList) || P.Cut(d.computeList) || P.Overflows(d.samples)
      || !P.Covered(detail.totals, detail.records) || !P.AllSampled(detail.rows, P.Delivered(d.samples), previous)))
  }

  function AddProcesses(t: Frame, detail: Detail, previous: u64): Frame {
    var t := Set(t, "processes", TableValue(RowsTable(detail.rows, detail.records, previous)));
    Set(t, "processes_truncated", BooleanValue(detail.truncated))
  }

  method EmitProcesses(out: Output, d: Device, previous: u64) returns (next: u64, truncated: bool, ghost detail: Detail)
    requires out.Valid() && Room(out.machine, ROW_OPERATIONS + 3, ROW_TABLES + 1, 2, 4)
    modifies out, out.data
    ensures out.Valid() && (out.data == old(out.data) || fresh(out.data))
    ensures Grew(old(out.machine), out.machine, ROW_OPERATIONS + 3, ROW_TABLES + 1, 2)
    ensures NextCursor(d, true, previous, next)
    ensures Supported(d, previous, detail) && detail.truncated == truncated
    ensures out.below == old(out.below) && out.table == AddProcesses(old(out.table), detail, previous)
  {
    hide GoodName, Set, RowsTable, Output.Valid, Live, Top, Below, Operations, Tables;
    hide P.Merged, P.Summarises, P.Newest, P.Covered, P.Sampled, P.Published;
    var rows, records;
    ghost var totals;
    rows, records, next, truncated, totals :=
      P.CollectProcesses(d.graphicsList, d.computeList, d.samples, previous);
    detail := Detail(rows, records, totals, truncated);
    ghost var m := out.machine;
    EmitRows(out, rows, records, previous);
    ghost var m' := out.machine;
    RowKeys();
    out.BooleanField("processes_truncated", truncated);
    GrewTrans(m, m', out.machine, ROW_OPERATIONS + 2, ROW_TABLES + 1, 1, 1, 0, 1);
  }

  function DeviceTable(d: Device, index: nat, uuid: CText, processes: bool, previous: u64, detail: Detail): Frame
    requires index < MAX_DEVICES
  {
    var t := AddSections(map[], d, index, uuid);
    if processes then AddProcesses(t, detail, previous) else t
  }

  /** The contents of one device table, which the caller opens and then stores or discards. */
  method EmitDevice(out: Output, d: Device, index: nat, uuid: CText, processes: bool, previous: u64)
    returns (next: u64, truncated: bool, ghost detail: Detail)
    requires out.Valid() && Room(out.machine, DEVICE_OPERATIONS, DEVICE_TABLES, 38, 4) && index < MAX_DEVICES
    modifies out, out.data
    ensures out.Valid() && (out.data == old(out.data) || fresh(out.data))
    ensures Grew(old(out.machine), out.machine, DEVICE_OPERATIONS, DEVICE_TABLES, 38)
    ensures NextCursor(d, processes, previous, next)
    ensures processes ==> Supported(d, previous, detail)
    ensures truncated <==> processes && detail.truncated
    ensures out.below == old(out.below)
    ensures old(out.table) == map[] ==> out.table == DeviceTable(d, index, uuid, processes, previous, detail)
  {
    hide GoodName, Output.Valid, Live, Top, Below, Operations, Tables, P.Newest, AddSections, AddProcesses, Supported;
    ghost var m := out.machine;
    EmitSections(out, d, index, uuid);
    ghost var m' := out.machine;
    next, truncated, detail := previous, false, NO_DETAIL;
    if processes {
      next, truncated, detail := EmitProcesses(out, d, previous);
      GrewTrans(m, m', out.machine, 43, 1, 36, ROW_OPERATIONS + 3, ROW_TABLES + 1, 2);
    }
  }

  // ---- Cursors and identities --------------------------------------------------------------------

  datatype Cursor = Cursor(uuid: seq<byte>, timestamp: u64)

  const NO_CURSOR := Cursor([], 0)

  /** The timestamp kept for a device: the last slot with its UUID, 0 when there is none. */
  function Kept(cursors: seq<Cursor>, uuid: seq<byte>): u64 {
    if cursors == [] then 0
    else if cursors[|cursors| - 1].uuid == uuid then cursors[|cursors| - 1].timestamp
    else Kept(cursors[..|cursors| - 1], uuid)
  }

  /** The time from which samples are asked for. */
  function Previous(cursors: seq<Cursor>, uuid: seq<byte>): u64 {
    if uuid == [] then 0 else Kept(cursors, uuid)
  }

  method FindKept(cursors: seq<Cursor>, uuid: seq<byte>) returns (previous: u64)
    ensures previous == Kept(cursors, uuid)
  {
    previous := 0;
    for i := 0 to |cursors|
      invariant previous == Kept(cursors[..i], uuid)
    {
      assert cursors[..i + 1][..i] == cursors[..i];
      if cursors[i].uuid == uuid { previous := cursors[i].timestamp; }
    }
    assert cursors[..|cursors|] == cursors;
  }

  ghost predicate DistinctUuids(cursors: seq<Cursor>) {
    forall i, j :: 0 <= i < j < |cursors| && cursors[i].uuid != [] ==> cursors[i].uuid != cursors[j].uuid
  }

  function CountReported(driver: Driver, n: nat): (c: nat)
    ensures c <= n
  {
    if n == 0 then 0 else CountReported(driver, n - 1) + if Reported(driver, n - 1) then 1 else 0
  }

  ghost predicate EarnedBy(c: Cursor, driver: Driver, i: nat, processes: bool, previous: u64) {
    Steady(driver, i) && Uuid(driver, i) == c.uuid
    && NextCursor(driver.devices[i].value, processes, previous, c.timestamp)
  }

  /** A committed cursor names a device whose UUID was the same before and after the reading,
      and has moved to the newest of its samples. */
  ghost predicate Earned(c: Cursor, driver: Driver, processes: bool, cursors: seq<Cursor>) {
    c == NO_CURSOR || exists i: nat :: EarnedBy(c, driver, i, processes, Kept(cursors, c.uuid))
  }

  ghost predicate AllEarned(pending: seq<Cursor>, driver: Driver, processes: bool, cursors: seq<Cursor>) {
    |pending| == MAX_DEVICES && DistinctUuids(pending)
    && forall i :: 0 <= i < MAX_DEVICES ==> Earned(pending[i], driver, processes, cursors)
  }

  ghost predicate HasCursor(pending: seq<Cursor>, uuid: seq<byte>) {
    exists j :: 0 <= j < |pending| && pending[j].uuid == uuid
  }

  /** The cursors are those of the steady devices among the first n. */
  ghost predicate Remembered(pending: seq<Cursor>, driver: Driver, n: nat) {
    forall uuid: seq<byte> :: uuid != [] ==> (HasCursor(pending, uuid) <==> SteadyBefore(driver, n, uuid))
  }

  lemma NothingEarned(pending: seq<Cursor>, driver: Driver, processes: bool, cursors: seq<Cursor>)
    requires |pending| == MAX_DEVICES && forall i :: 0 <= i < MAX_DEVICES ==> pending[i] == NO_CURSOR
    ensures AllEarned(pending, driver, processes, cursors) && Remembered(pending, driver, 0)
  {}

  lemma EarnedMore(pending: seq<Cursor>, at: nat, c: Cursor, driver: Driver, processes: bool, cursors: seq<Cursor>)
    requires AllEarned(pending, driver, processes, cursors) && at < MAX_DEVICES && Earned(c, driver, processes, cursors)
    requires c.uuid != [] ==> forall i :: 0 <= i < MAX_DEVICES ==> pending[i].uuid != c.uuid
    ensures AllEarned(pending[at := c], driver, processes, cursors)
  {
    hide Earned;
  }

  /** How the steady UUIDs grow with one more device. */
  lemma SteadyMore(driver: Driver, n: nat, uuid: seq<byte>)
    ensures SteadyBefore(driver, n + 1, uuid)
      <==> SteadyBefore(driver, n, uuid) || (Steady(driver, n) && Uuid(driver, n) == uuid)
  {}

  lemma HasCursorMore(pending: seq<Cursor>, at: nat, c: Cursor, uuid: seq<byte>)
    requires at < |pending| && pending[at] == NO_CURSOR && uuid != []
    ensures HasCursor(pending[at := c], uuid) <==> HasCursor(pending, uuid) || c.uuid == uuid
  {
    var next := pending[at := c];
    assert next[at] == c;
    if HasCursor(pending, uuid) {
      var j :| 0 <= j < |pending| && pending[j].uuid == uuid;
      assert next[j].uuid == uuid;
    }
  }

  /** After a device that is not stored, or stored in the next slot under its UUID. */
  lemma RememberedMore(pending: seq<Cursor>, at: nat, stored: bool, c: Cursor, driver: Driver, n: nat)
    requires Remembered(pending, driver, n) && at < |pending| && pending[at] == NO_CURSOR
    requires stored <==> Reported(driver, n)
    requires stored ==> c.uuid == Uuid(driver, n)
    ensures Remembered(if stored then pending[at := c] else pending, driver, n + 1)
  {
    hide Uuid, Queried;
    var next := if stored then pending[at := c] else pending;
    forall uuid: seq<byte> | uuid != [] ensures HasCursor(next, uuid) <==> SteadyBefore(driver, n + 1, uuid) {
      SteadyMore(driver, n, uuid);
      if stored {
        HasCursorMore(pending, at, c, uuid);
        assert Uuid(driver, n) != [] ==> Steady(driver, n);
      }
    }
  }

  // ---- The device list -----------------------------------------------------------------------------

  function ReportOf(driver: Driver, i: nat, processes: bool, cursors: seq<Cursor>, detail: Detail): Frame
    requires Answers(driver, i) && i < MAX_DEVICES
  {
    DeviceTable(driver.devices[i].value, i, Uuid(driver, i), processes, Previous(cursors, Uuid(driver, i)), detail)
  }

  /** The reported devices among the first n, numbered from one in the driver's order. */
  function DevicesTable(driver: Driver, processes: bool, cursors: seq<Cursor>, details: seq<Detail>, n: nat): Frame
    requires n <= |details| && n <= MAX_DEVICES
  {
    if n == 0 then map[]
    else
      var t := DevicesTable(driver, processes, cursors, details, n - 1);
      if Reported(driver, n - 1) then
        t[At(CountReported(driver, n)) := TableValue(ReportOf(driver, n - 1, processes, cursors, details[n - 1]))]
      else t
  }

  ghost predicate SupportedAt(driver: Driver, i: nat, cursors: seq<Cursor>, detail: Detail)
    requires Answers(driver, i)
  {
    Supported(driver.devices[i].value, Previous(cursors, Uuid(driver, i)), detail)
  }

  /** What was worked out about every device that was read is what its lists say. */
  ghost predicate AllSupported(driver: Driver, processes: bool, cursors: seq<Cursor>, details: seq<Detail>) {
    forall i: nat :: i < |details| && Attempted(driver, i) && processes ==> SupportedAt(driver, i, cursors, details[i])
  }

  /** Some device that was read has processes missing. */
  predicate Short(driver: Driver, processes: bool, details: seq<Detail>) {
    processes && exists i :: 0 <= i < |details| && Attempted(driver, i) && details[i].truncated
  }

  predicate AllReported(driver: Driver, n: nat) {
    forall i: nat :: i < n ==> Reported(driver, i)
  }

  lemma {:induction false} SameDevices(driver: Driver, processes: bool, cursors: seq<Cursor>, details: seq<Detail>,
      more: seq<Detail>, n: nat)
    requires n <= |details| <= MAX_DEVICES && details <= more
    ensures DevicesTable(driver, processes, cursors, more, n) == DevicesTable(driver, processes, cursors, details, n)
  {
    hide DeviceTable, Reported, CountReported;
    if n > 0 {
      SameDevices(driver, processes, cursors, details, more, n - 1);
      assert more[n - 1] == details[n - 1];
    }
  }

  lemma DetailsMore(driver: Driver, processes: bool, cursors: seq<Cursor>, details: seq<Detail>, detail: Detail)
    requires AllSupported(driver, processes, cursors, details) && |details| < MAX_DEVICES
    requires Attempted(driver, |details|) && processes ==> SupportedAt(driver, |details|, cursors, detail)
    ensures AllSupported(driver, processes, cursors, details + [detail])
    ensures Short(driver, processes, details + [detail])
      <==> Short(driver, processes, details) || (processes && Attempted(driver, |details|) && detail.truncated)
  {
    hide SupportedAt, SteadyBefore, Uuid, DeviceTable, Reported, CountReported;
    var more := details + [detail];
    forall i: nat | i < |more| && Attempted(driver, i) && processes ensures SupportedAt(driver, i, cursors, more[i]) {
      if i < |details| { assert more[i] == details[i]; }
    }
    if Short(driver, processes, details) {
      var i :| 0 <= i < |details| && Attempted(driver, i) && details[i].truncated;
      assert more[i].truncated;
    }
    if processes && Attempted(driver, |details|) && detail.truncated { assert more[|details|].truncated; }
  }

  lemma NoDetails(driver: Driver, processes: bool, cursors: seq<Cursor>)
    ensures AllSupported(driver, processes, cursors, []) && !Short(driver, processes, [])
    ensures DevicesTable(driver, processes, cursors, [], 0) == map[] && AllReported(driver, 0)
    ensures CountReported(driver, 0) == 0
  {}

  /** The list after one more device. */
  lemma DeviceMore(driver: Driver, processes: bool, cursors: seq<Cursor>, details: seq<Detail>, detail: Detail)
    requires |details| < MAX_DEVICES
    ensures var n := |details|;
      CountReported(driver, n + 1) == CountReported(driver, n) + (if Reported(driver, n) then 1 else 0) <= n + 1
      && (AllReported(driver, n + 1) <==> AllReported(driver, n) && Reported(driver, n))
      && DevicesTable(driver, processes, cursors, details + [detail], n + 1) == (
        var t := DevicesTable(driver, processes, cursors, details, n);
        if Reported(driver, n) then
          t[At(CountReported(driver, n + 1)) := TableValue(ReportOf(driver, n, processes, cursors, detail))]
        else t)
  {
    hide ReportOf, Attempted, Steady;
    SameDevices(driver, processes, cursors, details, details + [detail], |details|);
  }

  lemma RootKeys()
    ensures GoodName("driver_version") && GoodName("devices")
  {}

  /** Reads one device into a table of its own, which is stored or thrown away. */
  method ReadDevice(driver: Driver, index: nat, out: Output, processes: bool, cursors: seq<Cursor>, position: nat)
    returns (stored: bool, next: u64, truncated: bool, ghost detail: Detail)
    requires out.Valid() && index < MAX_DEVICES && Answers(driver, index) && 1 <= position <= MAX_DEVICES
    requires Room(out.machine, DEVICE_OPERATIONS + 2, DEVICE_TABLES + 1, 1, 5)
    modifies out, out.data
    ensures out.Valid() && (out.data == old(out.data) || fresh(out.data))
    ensures Grew(old(out.machine), out.machine, DEVICE_OPERATIONS + 2, DEVICE_TABLES + 1, 1)
    ensures stored <==> Uuid(driver, index) == [] || Steady(driver, index)
    ensures NextCursor(driver.devices[index].value, processes, Previous(cursors, Uuid(driver, index)), next)
    ensures processes ==> SupportedAt(driver, index, cursors, detail)
    ensures truncated <==> processes && detail.truncated
    ensures out.below == old(out.below)
    ensures out.table == if stored
      then old(out.table)[At(position) := TableValue(ReportOf(driver, index, processes, cursors, detail))]
      else old(out.table)
  {
    hide GoodName, Output.Valid, Live, Top, Below, Operations, Tables, NextCursor, Supported, DeviceTable, Queried;
    var d, uuid := driver.devices[index].value, Uuid(driver, index);
    var previous := 0;
    if uuid != [] { previous := FindKept(cursors, uuid); }
    ghost var m := out.machine;
    out.OpenTable(0, 28);
    ghost var inner := out.machine;
    OpenedRoom(m, inner, DEVICE_OPERATIONS, DEVICE_TABLES, 38, 4);
    next, truncated, detail := EmitDevice(out, d, index, uuid, processes, previous);
    ghost var filled := out.machine;
    NestedCanClose(m, inner, filled, DEVICE_OPERATIONS, DEVICE_TABLES, 38);
    stored := uuid == [] || Queried(d.uuidAgain) == Some(uuid);
    if stored {
      out.AttachIndex(position);
    } else {
      out.Drop();
    }
    GrewNested(m, inner, filled, out.machine, DEVICE_OPERATIONS, DEVICE_TABLES, 38);
  }

  method FindDuplicate(pending: seq<Cursor>, returned: nat, uuid: seq<byte>) returns (duplicate: bool)
    requires returned <= |pending| && uuid != []
    requires forall i :: returned <= i < |pending| ==> pending[i] == NO_CURSOR
    ensures duplicate <==> HasCursor(pending, uuid)
  {
    duplicate := false;
    for i := 0 to returned
      invariant duplicate <==> exists j :: 0 <= j < i && pending[j].uuid == uuid
    {
      if pending[i].uuid == uuid { duplicate := true; }
    }
  }

  lemma GrewNothing(m: Option<Machine>)
    requires Live(m)
    ensures forall n: nat, t: nat, k: nat :: Grew(m, m, n, t, k)
  {}

  /** One turn of the loop: skipped, discarded, or stored at the next position. */
  method DeviceRound(driver: Driver, index: nat, out: Output, processes: bool, cursors: seq<Cursor>,
                     pending: seq<Cursor>, returned: nat)
    returns (stored: bool, cursor: Cursor, truncated: bool, ghost detail: Detail)
    requires out.Valid() && returned <= index < MAX_DEVICES == |pending|
    requires Room(out.machine, DEVICE_OPERATIONS + 2, DEVICE_TABLES + 1, 1, 5)
    requires forall i :: returned <= i < MAX_DEVICES ==> pending[i] == NO_CURSOR
    requires Remembered(pending, driver, index)
    modifies out, out.data
    ensures out.Valid() && (out.data == old(out.data) || fresh(out.data))
    ensures Grew(old(out.machine), out.machine, DEVICE_OPERATIONS + 2, DEVICE_TABLES + 1, 1)
    ensures stored <==> Reported(driver, index)
    ensures stored ==> Earned(cursor, driver, processes, cursors) && cursor.uuid == Uuid(driver, index)
    ensures cursor.uuid != [] ==> forall i :: 0 <= i < MAX_DEVICES ==> pending[i].uuid != cursor.uuid
    ensures Attempted(driver, index) && processes ==> SupportedAt(driver, index, cursors, detail)
    ensures truncated <==> processes && Attempted(driver, index) && detail.truncated
    ensures out.below == old(out.below)
    ensures out.table == if stored
      then old(out.table)[At(returned + 1) := TableValue(ReportOf(driver, index, processes, cursors, detail))]
      else old(out.table)
  {
    hide Output.Valid, Live, Top, Below, Operations, Tables, NextCursor, SupportedAt, ReportOf, Queried, Uuid;
    stored, cursor, truncated, detail := false, NO_CURSOR, false, NO_DETAIL;
    GrewNothing(out.machine);
    if index >= |driver.devices| || driver.devices[index].None? { return; }
    var uuid := Uuid(driver, index);
    if uuid != [] {
      var duplicate := FindDuplicate(pending, returned, uuid);
      if duplicate { return; }
    }
    assert Attempted(driver, index);
    var next;
    stored, next, truncated, detail := ReadDevice(driver, index, out, processes, cursors, returned + 1);
    if stored && uuid != [] {
      cursor := Cursor(uuid, next);
      assert EarnedBy(cursor, driver, index, processes, Kept(cursors, uuid));
    }
  }

  /** The device loop of `nvml_collect`, inside the table of devices. */
  method EmitDeviceList(driver: Driver, count: nat, out: Output, processes: bool, cursors: seq<Cursor>)
    returns (pending: seq<Cursor>, partial: bool, truncated: bool, ghost details: seq<Detail>)
    requires out.Valid() && count <= MAX_DEVICES && Live(out.machine) && out.table == map[]
    requires Room(out.machine, MAX_DEVICES * (DEVICE_OPERATIONS + 2) + 1, MAX_DEVICES * (DEVICE_TABLES + 1), MAX_DEVICES, 5)
    modifies out, out.data
    ensures out.Valid() && (out.data == old(out.data) || fresh(out.data))
    ensures Grew(old(out.machine), out.machine, count * (DEVICE_OPERATIONS + 2), count * (DEVICE_TABLES + 1), count)
    ensures AllEarned(pending, driver, processes, cursors) && Remembered(pending, driver, count)
    ensures |details| == count && AllSupported(driver, processes, cursors, details)
    ensures truncated <==> Short(driver, processes, details)
    ensures partial <==> truncated || !AllReported(driver, count)
    ensures out.below == old(out.below) && out.table == DevicesTable(driver, processes, cursors, details, count)
  {
    hide Output.Valid, Live, Top, Below, Operations, Tables, NextCursor;
    hide Steady, HasCursor, Remembered, AllEarned, AllSupported, Short, ReportOf, Reported, SteadyBefore, Uuid, SupportedAt;
    hide DevicesTable, CountReported, AllReported;
    ghost var inner := out.machine;
    GrewNothing(inner);
    pending, partial, truncated, details := seq(MAX_DEVICES, _ => NO_CURSOR), false, false, [];
    NothingEarned(pending, driver, processes, cursors);
    NoDetails(driver, processes, cursors);
    var returned := 0;
    for index := 0 to count
      invariant out.Valid() && (out.data == old(out.data) || fresh(out.data))
      invariant returned == CountReported(driver, index) && |pending| == MAX_DEVICES
      invariant AllEarned(pending, driver, processes, cursors)
      invariant forall i :: returned <= i < MAX_DEVICES ==> pending[i] == NO_CURSOR
      invariant Remembered(pending, driver, index)
      invariant |details| == index && AllSupported(driver, processes, cursors, details)
      invariant truncated <==> Short(driver, processes, details)
      invariant partial <==> truncated || !AllReported(driver, index)
      invariant out.below == old(out.below)
      invariant out.table == DevicesTable(driver, processes, cursors, details, index)
      invariant Grew(inner, out.machine, index * (DEVICE_OPERATIONS + 2), index * (DEVICE_TABLES + 1), index)
    {
      ghost var before := out.machine;
      var stored, cursor, more;
      ghost var detail;
      stored, cursor, more, detail := DeviceRound(driver, index, out, processes, cursors, pending, returned);
      GrewTrans(inner, before, out.machine, index * (DEVICE_OPERATIONS + 2), index * (DEVICE_TABLES + 1), index,
        DEVICE_OPERATIONS + 2, DEVICE_TABLES + 1, 1);
      RememberedMore(pending, returned, stored, cursor, driver, index);
      DetailsMore(driver, processes, cursors, details, detail);
      DeviceMore(driver, processes, cursors, details, detail);
      details := details + [detail];
      if stored {
        EarnedMore(pending, returned, cursor, driver, processes, cursors);
        pending := pending[returned := cursor];
        returned := returned + 1;
      } else {
        partial := true;
      }
      truncated, partial := truncated || more, partial || more;
    }
  }

  method EmitDevices(driver: Driver, count: nat, out: Output, processes: bool, cursors: seq<Cursor>)
    returns (pending: seq<Cursor>, partial: bool, truncated: bool, ghost details: seq<Detail>)
    requires out.Valid() && count <= MAX_DEVICES
    requires Room(out.machine, MAX_DEVICES * (DEVICE_OPERATIONS + 2) + 2, MAX_DEVICES * (DEVICE_TABLES + 1) + 1, 1, 6)
    modifies out, out.data
    ensures out.Valid() && (out.data == old(out.data) || fresh(out.data))
    ensures Grew(old(out.machine), out.machine,
      MAX_DEVICES * (DEVICE_OPERATIONS + 2) + 2, MAX_DEVICES * (DEVICE_TABLES + 1) + 1, 1)
    ensures AllEarned(pending, driver, processes, cursors) && Remembered(pending, driver, count)
    ensures |details| == count && AllSupported(driver, processes, cursors, details)
    ensures truncated <==> Short(driver, processes, details)
    ensures partial <==> truncated || !AllReported(driver, count)
    ensures out.below == old(out.below)
    ensures out.table ==
      Set(old(out.table), "devices", TableValue(DevicesTable(driver, processes, cursors, details, count)))
  {
    hide GoodName, Set, Output.Valid, Live, Top, Below, Operations, Tables;
    hide Remembered, AllEarned, AllSupported, Short, AllReported, DevicesTable;
    ghost var m := out.machine;
    out.OpenTable(count, 0);
    ghost var inner := out.machine;
    OpenedRoom(m, inner, MAX_DEVICES * (DEVICE_OPERATIONS + 2), MAX_DEVICES * (DEVICE_TABLES + 1), MAX_DEVICES, 5);
    pending, partial, truncated, details := EmitDeviceList(driver, count, out, processes, cursors);
    ghost var filled := out.machine;
    GrewMore(inner, filled, count * (DEVICE_OPERATIONS + 2), count * (DEVICE_TABLES + 1), count,
      MAX_DEVICES * (DEVICE_OPERATIONS + 2), MAX_DEVICES * (DEVICE_TABLES + 1), MAX_DEVICES);
    NestedCanClose(m, inner, filled, MAX_DEVICES * (DEVICE_OPERATIONS + 2), MAX_DEVICES * (DEVICE_TABLES + 1), MAX_DEVICES);
    RootKeys();
    out.Attach("devices");
    GrewNested(m, inner, filled, out.machine,
      MAX_DEVICES * (DEVICE_OPERATIONS + 2), MAX_DEVICES * (DEVICE_TABLES + 1), MAX_DEVICES);
  }

  lemma FinalKeys()
    ensures GoodName("source") && GoodName("status") && GoodName("reason") && GoodName("truncated")
  {}

  // ---- The whole reply --------------------------------------------------------------------------------

  function StatusText(partial: bool): CText {
    if partial then AsciiText("partial") else AsciiText("ok")
  }

  function SourceText(): CText { AsciiText("nvml") }

  function ReasonText(): CText { AsciiText("nvml_enumeration_incomplete") }

  function AddClosing(t: Frame, partial: bool, truncated: bool): Frame {
    var t := Set(t, "source", TextValue(SourceText()));
    var t := Set(t, "status", TextValue(StatusText(partial)));
    var t := With(t, "reason", Words(if partial then Some(ReasonText()) else None));
    Set(t, "truncated", BooleanValue(truncated))
  }

  /** The closing fields of the root table. */
  method WriteStatus(out: Output, partial: bool, truncated: bool)
    requires out.Valid() && Room(out.machine, 4, 0, 4, 0)
    modifies out, out.data
    ensures out.Valid() && (out.data == old(out.data) || fresh(out.data))
    ensures Grew(old(out.machine), out.machine, 4, 0, 4)
    ensures out.below == old(out.below) && out.table == AddClosing(old(out.table), partial, truncated)
  {
    hide GoodName, Ascii, Set, StatusText, SourceText, ReasonText;
    hide Output.Valid, Live, Top, Below, Operations, Tables;
    FinalKeys();
    out.StringField("source", SourceText());
    out.StringField("status", StatusText(partial));
    if partial { out.StringField("reason", ReasonText()); }
    out.BooleanField("truncated", truncated);
  }

  function Visited(total: nat): nat {
    if total > MAX_DEVICES then MAX_DEVICES else total
  }

  /** Devices or processes are missing from the reply. */
  predicate Truncated(driver: Driver, total: nat, processes: bool, details: seq<Detail>) {
    total > MAX_DEVICES || Short(driver, processes, details)
  }

  /** Something may be missing: cut short, a device lost, or devices coming and going meanwhile. */
  predicate Partial(driver: Driver, total: nat, processes: bool, details: seq<Detail>) {
    Truncated(driver, total, processes, details) || !AllReported(driver, Visited(total))
    || driver.countAgain != Some(total)
  }

  /** The table a collection reports. */
  function ReplyTable(driver: Driver, total: nat, processes: bool, cursors: seq<Cursor>, details: seq<Detail>): Frame
    requires |details| == Visited(total)
  {
    var t := With(map[], "driver_version", Words(Queried(driver.version)));
    var t := Set(t, "devices", TableValue(DevicesTable(driver, processes, cursors, details, |details|)));
    AddClosing(t, Partial(driver, total, processes, details), Truncated(driver, total, processes, details))
  }

  lemma {:induction false} InPlace(driver: Driver, processes: bool, cursors: seq<Cursor>, details: seq<Detail>, i: nat, n: nat)
    requires i < n <= |details| <= MAX_DEVICES && AllReported(driver, n)
    ensures CountReported(driver, n) == n && Reported(driver, i)
    ensures var t := DevicesTable(driver, processes, cursors, details, n);
      At(i + 1) in t && t[At(i + 1)] == TableValue(ReportOf(driver, i, processes, cursors, details[i]))
  {
    hide DeviceTable, Attempted, Steady;
    assert Reported(driver, n - 1) && Reported(driver, i);
    if i < n - 1 {
      InPlace(driver, processes, cursors, details, i, n - 1);
    } else if n > 1 {
      InPlace(driver, processes, cursors, details, 0, n - 1);
    }
  }

  /** A reply that is not marked has every device at its place in the driver's order, and of each every
      process that was listed and every process that was sampled. */
  lemma UnmarkedIsComplete(driver: Driver, total: nat, cursors: seq<Cursor>, details: seq<Detail>, i: nat)
    requires |details| == Visited(total) && AllSupported(driver, true, cursors, details)
    requires !Partial(driver, total, true, details) && i < total
    ensures total <= MAX_DEVICES && Reported(driver, i)
    ensures var t := DevicesTable(driver, true, cursors, details, total);
      At(i + 1) in t && t[At(i + 1)] == TableValue(ReportOf(driver, i, true, cursors, details[i]))
    ensures P.Covered(details[i].totals, details[i].records)
    ensures P.AllSampled(details[i].rows, P.Delivered(driver.devices[i].value.samples), Previous(cursors, Uuid(driver, i)))
    ensures !P.Cut(driver.devices[i].value.graphicsList) && !P.Cut(driver.devices[i].value.computeList)
  {
    hide DeviceTable, P.Cut, P.Covered, P.AllSampled, P.SampledRows, P.Merged, Uuid, SteadyBefore;
    assert Reported(driver, i) && Attempted(driver, i);
    InPlace(driver, true, cursors, details, i, total);
    assert SupportedAt(driver, i, cursors, details[i]);
  }

  ghost predicate Ready(out: Output)
    reads out, out.data
  {
    out.Valid() && out.emitted == []
  }

  lemma RootRoom(out: Output)
    requires Ready(out)
    ensures out.machine == Some(START)
  {}

  lemma RootOpened(root: Option<Machine>)
    requires Opened(Some(START), root)
    ensures Below(root) == []
    ensures Room(root, MAX_DEVICES * (DEVICE_OPERATIONS + 2) + 7, MAX_DEVICES * (DEVICE_TABLES + 1) + 1, 6, 6)
  {}

  lemma RootBalanced(out: Output, root: Option<Machine>)
    requires out.Valid() && Below(root) == [] && Live(out.machine) && Below(out.machine) == Below(root)
    ensures Balanced(out.emitted) && (out.below == [] ==> LuaRun([], out.emitted) == Some([out.table]))
  {
    assert [] + [out.table] == [out.table];
  }

  function OutputReason(failed: nat): Option<string> {
    if failed == 0 then None else Some(if failed == 2 then "nvml_allocation_failed" else "nvml_output_too_large")
  }

  /** The statuses of a driver that has gone: uninitialised, not loaded, lost. */
  predicate SessionLost(driver: Driver) {
    driver.count.0 in {1, 9, 15}
  }

  const NO_CURSORS: seq<Cursor> := seq(MAX_DEVICES, _ => NO_CURSOR)

  class Nvml {
    var open: bool
    var cursors: seq<Cursor>

    /** A session that is not open remembers nothing. */
    ghost predicate Valid()
      reads this
    {
      |cursors| == MAX_DEVICES && (!open ==> cursors == NO_CURSORS)
    }

    constructor ()
      ensures Valid() && !open
    {
      open, cursors := false, NO_CURSORS;
    }

    /** `nvml_close`: the session and everything it remembers. */
    method Close()
      modifies this
      ensures Valid() && !open
    {
      open, cursors := false, NO_CURSORS;
    }

    /** `nvml_collect` through the worker's sink: a reason, or an acceptable reply that is the report. Of the
        failures only that of a driver that has gone touches the cursors: it closes the session. */
    method Collect(driver: Driver, out: Output, processes: bool)
      returns (reason: Option<string>, ghost details: seq<Detail>)
      requires Valid() && out.Valid() && out.failed == 0 && out.emitted == []
      modifies this, out, out.data
      ensures Valid() && out.Valid()
      ensures reason == (
        if !old(open) && driver.openError.Some? then driver.openError
        else if driver.count.0 != 0 then Some("nvml_device_count_failed") else OutputReason(out.failed))
      ensures reason.Some? ==> cursors == if SessionLost(driver) then NO_CURSORS else old(cursors)
      ensures reason.None? ==> open && driver.count.0 == 0 && |details| == Visited(driver.count.1)
      ensures reason.None? ==> out.failed == 0 && out.size <= LIMIT && Accepts(out.data[..out.size])
      ensures reason.None? ==> AllEarned(cursors, driver, processes, old(cursors))
      ensures reason.None? ==> Remembered(cursors, driver, |details|)
      ensures reason.None? ==> AllSupported(driver, processes, old(cursors), details)
      ensures reason.None? ==>
        LuaRun([], out.emitted) == Some([ReplyTable(driver, driver.count.1, processes, old(cursors), details)])
    {
      hide Remembered, AllSupported, ReplyTable;
      details := [];
      if !open {
        if driver.openError.Some? { return driver.openError, details; }
        open := true;
      }
      var status, total := driver.count.0, driver.count.1;
      if status != 0 {
        if status == 1 || status == 9 || status == 15 { Close(); }
        return Some("nvml_device_count_failed"), details;
      }
      var count := if total > MAX_DEVICES then MAX_DEVICES else total;
      var pending;
      pending, details := WriteReply(driver, total, count, out, processes);
      if out.failed != 0 { return OutputReason(out.failed), details; }
      BufferAccepted(out.data[..out.size], out.emitted);
      cursors := pending;
      return None, details;
    }

    /** The reply itself: the root table, its devices and the closing fields. */
    method WriteReply(driver: Driver, total: nat, count: nat, out: Output, processes: bool)
      returns (pending: seq<Cursor>, ghost details: seq<Detail>)
      requires out.Valid() && out.failed == 0 && out.emitted == [] && count == Visited(total)
      modifies out, out.data
      ensures out.Valid() && Balanced(out.emitted)
      ensures AllEarned(pending, driver, processes, cursors) && Remembered(pending, driver, count)
      ensures |details| == count && AllSupported(driver, processes, cursors, details)
      ensures LuaRun([], out.emitted) == Some([ReplyTable(driver, total, processes, cursors, details)])
    {
      hide GoodName, Set, Output.Valid, Live, Top, Below, Operations, Tables, AllEarned, Remembered, AllSupported;
      hide AllReported, Short, DevicesTable, AddClosing;
      var truncated, partial := total > count, total > count;
      RootRoom(out);
      out.OpenTable(0, 5);
      ghost var root := out.machine;
      RootOpened(root);
      RootKeys();
      var version := Queried(driver.version);
      if version.Some? { out.StringField("driver_version", version.value); }
      var partialDevices, truncatedDevices;
      pending, partialDevices, truncatedDevices, details := EmitDevices(driver, count, out, processes, cursors);
      partial, truncated := partial || partialDevices, truncated || truncatedDevices;
      if driver.countAgain != Some(total) { partial := true; }
      WriteStatus(out, partial, truncated);
      RootBalanced(out, root);
    }
  }

  const UUID: Buffer := [71, 80, 85, 0]
  const QUIET: Mask := Mask(None, None)
  const ONE_DEVICE: Device := Device(Some(UUID), Some(UUID), None, None, None, None, None, Power(None, None, None),
    Pcie(None, None, None, None, None, None), Clocks(None, None, None, None, None), Events(QUIET, QUIET),
    P.Lists(P.Missing, P.Missing, P.Missing), P.Lists(P.Missing, P.Missing, P.Missing), P.Missing)
  const ONE_DRIVER: Driver := Driver(None, (0, 1), Some(1), None, [Some(ONE_DEVICE)])

  lemma OneSteady()
    ensures Steady(ONE_DRIVER, 0) && Uuid(ONE_DRIVER, 0) == UUID[..3]
  {
    assert CLength(UUID[3..]) == 0 && UUID[2..][1..] == UUID[3..];
    assert CLength(UUID[2..]) == 1 && UUID[1..][1..] == UUID[2..];
    assert CLength(UUID[1..]) == 2 && CLength(UUID) == 3;
  }

  lemma OneRemembered(cursors: seq<Cursor>)
    requires Remembered(cursors, ONE_DRIVER, 1) && Steady(ONE_DRIVER, 0) && Uuid(ONE_DRIVER, 0) == UUID[..3]
    ensures HasCursor(cursors, UUID[..3])
  {
    hide Steady, Uuid;
    assert SteadyBefore(ONE_DRIVER, 1, UUID[..3]);
  }

  /** A cursor a collection has committed is gone after one more that finds the driver gone. */
  method LostClears(out: Output, again: Output) returns (reason: Option<string>, before: seq<Cursor>, after: seq<Cursor>)
    requires out.Valid() && out.failed == 0 && out.emitted == [] && again != out && again.data != out.data
    requires again.Valid() && again.failed == 0 && again.emitted == []
    modifies out, out.data, again, again.data
    ensures reason == OutputReason(out.failed)
    ensures reason.None? ==> HasCursor(before, UUID[..3]) && after == NO_CURSORS
  {
    hide AllEarned, Remembered, AllSupported, ReplyTable, Output.Valid;
    var nvml := new Nvml();
    before, after := [], [];
    ghost var details;
    reason, details := nvml.Collect(ONE_DRIVER, out, true);
    if reason.None? {
      before := nvml.cursors;
      OneSteady();
      OneRemembered(before);
      var _, _ := nvml.Collect(ONE_DRIVER.(count := (9, 0)), again, true);
      after := nvml.cursors;
    }
  }

  /** From the driver to the parent: the worker collects and checks its reply, the parent decodes the bytes
      without checks of its own, and holds the report of the driver's answers. */
  method CollectAndDecode(nvml: Nvml, driver: Driver, out: Output, processes: bool)
    returns (reason: Option<string>, root: Value, ghost details: seq<Detail>)
    requires nvml.Valid() && out.Valid() && out.failed == 0 && out.emitted == []
    modifies nvml, out, out.data
    ensures nvml.Valid()
    ensures reason == (
      if !old(nvml.open) && driver.openError.Some? then driver.openError
      else if driver.count.0 != 0 then Some("nvml_device_count_failed") else OutputReason(out.failed))
    ensures reason.Some? ==> nvml.cursors == if SessionLost(driver) then NO_CURSORS else old(nvml.cursors)
    ensures reason.None? ==> driver.count.0 == 0 && |details| == Visited(driver.count.1)
    ensures reason.None? ==> AllSupported(driver, processes, old(nvml.cursors), details)
    ensures reason.None? ==>
      root == TableValue(ReplyTable(driver, driver.count.1, processes, old(nvml.cursors), details))
  {
    hide AllEarned, Remembered, AllSupported, ReplyTable, Small;
    reason, details := nvml.Collect(driver, out, processes);
    root := BooleanValue(false);
    if reason.None? {
      var data := out.data[..out.size];
      assert data[0..] == data;
      DecodeEncodedAll(data, 0, out.emitted);
      root := DecodeFrame(data);
    }
  }
}
