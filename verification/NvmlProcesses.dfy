/** Per-device process rows from the driver's graphics, compute and utilisation lists. */
module NvmlProcesses {
  import opened Bytes

  const MAX_PROCESSES: nat := 256
  const INT_MAX: nat := 0x7FFF_FFFF
  const UINT_MAX: u32 := 0xFFFF_FFFF
  const UNKNOWN: u64 := 0xFFFF_FFFF_FFFF_FFFF
  const MEMORY_LIMIT: nat := 0x4_0000_0000_0000

  datatype Process = Process(pid: u32, memory: u64, gpuInstance: u32, computeInstance: u32)
  datatype Legacy = Legacy(pid: u32, memory: u64)
  datatype Sample = Sample(pid: u32, timestamp: u64, sm: u32, memory: u32, encoder: u32, decoder: u32)

  /** A driver list entry point: absent, or a status with the entries it reports. */
  datatype List<+T> = Missing | Answer(status: u32, entries: seq<T>)

  datatype Lists = Lists(current: List<Process>, second: List<Process>, legacy: List<Legacy>)

  /** One process, GPU instance and compute instance, with the lists that reported it. */
  datatype Allocation = Allocation(value: Process, sources: set<nat>)

  datatype Row = Row(
    pid: u32, memory: u64, wholeMemory: u64, contextMemory: u64, contexts: nat,
    hasMemory: bool, hasWhole: bool, estimated: bool, sources: set<nat>,
    hasSample: bool, timestamp: u64, sm: u32, utilization: u32, encoder: u32, decoder: u32)

  predicate Listed(pid: u32) { 1 <= pid <= INT_MAX }

  predicate SameContext(a: Process, b: Process) {
    a.pid == b.pid && a.gpuInstance == b.gpuInstance && a.computeInstance == b.computeInstance
  }

  // ---- What the merged records mean --------------------------------------------------------

  type Report = (nat, Process)

  /** The source lists that reported a context. */
  function SourcesOf(reports: seq<Report>, p: Process): set<nat> {
    set i | 0 <= i < |reports| && SameContext(reports[i].1, p) :: reports[i].0
  }

  /** The memory of a context is the largest known report, and unknown only if all are. */
  ghost predicate LargestKnown(reports: seq<Report>, p: Process, memory: u64) {
    (forall i :: 0 <= i < |reports| && SameContext(reports[i].1, p) && reports[i].1.memory != UNKNOWN
      ==> memory != UNKNOWN && reports[i].1.memory <= memory)
    && (exists i :: 0 <= i < |reports| && SameContext(reports[i].1, p) && reports[i].1.memory == memory)
  }

  ghost predicate DistinctContexts(records: seq<Allocation>) {
    forall i, j :: 0 <= i < j < |records| ==> !SameContext(records[i].value, records[j].value)
  }

  ghost predicate Represents(a: Allocation, reports: seq<Report>) {
    Listed(a.value.pid) && a.sources == SourcesOf(reports, a.value)
    && LargestKnown(reports, a.value, a.value.memory)
  }

  /** The records are exactly the reported contexts, once each, with nothing added up. */
  ghost predicate Merged(records: seq<Allocation>, reports: seq<Report>) {
    DistinctContexts(records)
    && (forall i :: 0 <= i < |reports| ==>
      exists j :: 0 <= j < |records| && SameContext(records[j].value, reports[i].1))
    && (forall j :: 0 <= j < |records| ==> Represents(records[j], reports))
  }

  /** A record after one more report of its context. */
  function Raise(a: Allocation, source: nat, p: Process): Allocation {
    var memory := if p.memory != UNKNOWN && (a.value.memory == UNKNOWN || p.memory > a.value.memory)
      then p.memory else a.value.memory;
    Allocation(a.value.(memory := memory), a.sources + {source})
  }

  function Merge(records: seq<Allocation>, found: int, source: nat, p: Process): seq<Allocation>
    requires -1 <= found < |records|
  {
    if found < 0 then records + [Allocation(p, {source})]
    else records[found := Raise(records[found], source, p)]
  }

  lemma SourcesSnoc(reports: seq<Report>, source: nat, p: Process, q: Process)
    ensures SourcesOf(reports + [(source, p)], q) ==
      if SameContext(p, q) then SourcesOf(reports, q) + {source} else SourcesOf(reports, q)
  {
    var more := reports + [(source, p)];
    assert forall i :: 0 <= i < |reports| ==> more[i] == reports[i];
    assert more[|reports|] == (source, p);
    var s := if SameContext(p, q) then SourcesOf(reports, q) + {source} else SourcesOf(reports, q);
    forall x ensures x in SourcesOf(more, q) <==> x in s {
      if x in SourcesOf(reports, q) {
        var i :| 0 <= i < |reports| && SameContext(reports[i].1, q) && reports[i].0 == x;
        assert more[i].0 == x;
      }
      if SameContext(p, q) && x == source { assert more[|reports|].0 == x; }
    }
  }

  lemma LargestSnoc(reports: seq<Report>, source: nat, p: Process, q: Process, memory: u64, next: u64)
    requires LargestKnown(reports, q, memory)
    requires next == if SameContext(p, q) && p.memory != UNKNOWN && (memory == UNKNOWN || p.memory > memory)
      then p.memory else memory
    ensures LargestKnown(reports + [(source, p)], q, next)
  {
    var more := reports + [(source, p)];
    assert forall i :: 0 <= i < |reports| ==> more[i] == reports[i];
    assert more[|reports|] == (source, p);
    var i :| 0 <= i < |reports| && SameContext(reports[i].1, q) && reports[i].1.memory == memory;
    assert SameContext(more[i].1, q) && more[i].1.memory == memory;
  }

  lemma LargestFirst(reports: seq<Report>, source: nat, p: Process)
    requires forall i :: 0 <= i < |reports| ==> !SameContext(reports[i].1, p)
    ensures LargestKnown(reports + [(source, p)], p, p.memory)
    ensures SourcesOf(reports, p) == {}
  {
    var more := reports + [(source, p)];
    assert more[|reports|] == (source, p);
  }

  /** Only the context of a record matters to what was reported about it. */
  lemma SameReports(reports: seq<Report>, p: Process, q: Process)
    requires SameContext(p, q)
    ensures SourcesOf(reports, p) == SourcesOf(reports, q)
    ensures forall m: u64 :: LargestKnown(reports, p, m) <==> LargestKnown(reports, q, m)
  {}

  lemma RepresentsMore(a: Allocation, reports: seq<Report>, source: nat, p: Process)
    requires Represents(a, reports)
    ensures Represents(if SameContext(a.value, p) then Raise(a, source, p) else a, reports + [(source, p)])
  {
    hide LargestKnown, SourcesOf;
    var b := if SameContext(a.value, p) then Raise(a, source, p) else a;
    SourcesSnoc(reports, source, p, a.value);
    LargestSnoc(reports, source, p, a.value, a.value.memory, b.value.memory);
    SameReports(reports + [(source, p)], a.value, b.value);
  }

  lemma RepresentsFirst(reports: seq<Report>, source: nat, p: Process)
    requires Listed(p.pid) && forall i :: 0 <= i < |reports| ==> !SameContext(reports[i].1, p)
    ensures Represents(Allocation(p, {source}), reports + [(source, p)])
  {
    SourcesSnoc(reports, source, p, p);
    LargestFirst(reports, source, p);
  }

  lemma MergeStep(records: seq<Allocation>, reports: seq<Report>, found: int, source: nat, p: Process)
    requires Merged(records, reports) && Listed(p.pid) && -1 <= found < |records|
    requires if found >= 0 then SameContext(records[found].value, p)
      else forall j :: 0 <= j < |records| ==> !SameContext(records[j].value, p)
    ensures Merged(Merge(records, found, source, p), reports + [(source, p)])
  {
    hide Represents;
    var next, more := Merge(records, found, source, p), reports + [(source, p)];
    assert forall j :: 0 <= j < |records| ==> SameContext(next[j].value, records[j].value);
    forall i, j | 0 <= i < j < |next| ensures !SameContext(next[i].value, next[j].value) {
      assert SameContext(next[i].value, records[i].value);
      if j < |records| {
        assert SameContext(next[j].value, records[j].value) && !SameContext(records[i].value, records[j].value);
      }
    }
    forall j | 0 <= j < |next| ensures Represents(next[j], more) {
      if j < |records| {
        assert SameContext(records[j].value, p) <==> j == found;
        RepresentsMore(records[j], reports, source, p);
      } else {
        forall i | 0 <= i < |reports| ensures !SameContext(reports[i].1, p) {
          var k :| 0 <= k < |records| && SameContext(records[k].value, reports[i].1);
        }
        RepresentsFirst(reports, source, p);
      }
    }
    forall i | 0 <= i < |more|
      ensures exists j :: 0 <= j < |next| && SameContext(next[j].value, more[i].1)
    {
      if i < |reports| {
        var j :| 0 <= j < |records| && SameContext(records[j].value, reports[i].1);
        assert SameContext(next[j].value, more[i].1);
      } else {
        var j := if found < 0 then |records| else found;
        assert SameContext(next[j].value, more[i].1);
      }
    }
    assert forall j :: 0 <= j < |next| ==> Represents(next[j], more);
  }

  // ---- Reading the lists ----------------------------------------------------------------------

  /** An entry point that is absent, unsupported or not found leaves the question to the next one. */
  predicate Passes<T>(l: List<T>) {
    l.Missing? || l.status == 3 || l.status == 13
  }

  predicate Delivers<T>(l: List<T>) {
    l.Answer? && l.status == 0 && |l.entries| <= MAX_PROCESSES
  }

  predicate Overflows<T>(l: List<T>) {
    l.Answer? && (|l.entries| > MAX_PROCESSES || l.status == 7)
  }

  function Converted(entries: seq<Legacy>): seq<Process> {
    seq(|entries|, i requires 0 <= i < |entries| => Process(entries[i].pid, entries[i].memory, UINT_MAX, UINT_MAX))
  }

  /** The list the first entry point that does not pass the question on delivers. */
  function Listing(lists: Lists): (values: seq<Process>)
    ensures |values| <= MAX_PROCESSES
  {
    if !Passes(lists.current) then (if Delivers(lists.current) then lists.current.entries else [])
    else if !Passes(lists.second) then (if Delivers(lists.second) then lists.second.entries else [])
    else if Delivers(lists.legacy) then Converted(lists.legacy.entries) else []
  }

  /** Whether one of the entry points that were asked had more than fits. */
  predicate Cut(lists: Lists) {
    Overflows(lists.current) || (Passes(lists.current)
      && (Overflows(lists.second) || (Passes(lists.second) && Overflows(lists.legacy))))
  }

  /** `process_list`: the newest entry point that answers; older ones only when it is absent,
      unsupported or not found. At most 256 entries are ever taken. */
  method ProcessList(lists: Lists, truncatedIn: bool) returns (values: seq<Process>, truncated: bool)
    ensures values == Listing(lists) && (truncated <==> truncatedIn || Cut(lists))
  {
    truncated := truncatedIn;
    var versions := [lists.current, lists.second];
    for v := 0 to 2
      invariant truncated <==> truncatedIn || (v > 0 && Overflows(lists.current)) || (v > 1 && Overflows(lists.second))
      invariant (v > 0 ==> Passes(lists.current)) && (v > 1 ==> Passes(lists.second))
    {
      if versions[v].Answer? {
        var (status, entries) := (versions[v].status, versions[v].entries);
        if |entries| > MAX_PROCESSES || status == 7 { truncated := true; }
        if status == 0 && |entries| <= MAX_PROCESSES { return entries, truncated; }
        if status != 3 && status != 13 { return [], truncated; }
      }
    }
    values := [];
    if lists.legacy.Answer? {
      var (status, entries) := (lists.legacy.status, lists.legacy.entries);
      if |entries| > MAX_PROCESSES || status == 7 { truncated := true; }
      if status == 0 && |entries| <= MAX_PROCESSES {
        values := seq(|entries|, i requires 0 <= i < |entries| =>
          Process(entries[i].pid, entries[i].memory, UINT_MAX, UINT_MAX));
      }
    }
  }

  /** The reports of one list that name a process. */
  function Named(source: nat, values: seq<Process>): seq<Report> {
    if values == [] then []
    else
      var n := |values| - 1;
      Named(source, values[..n]) + if Listed(values[n].pid) then [(source, values[n])] else []
  }

  /** All reports, compute list first. */
  function Reported(graphics: Lists, compute: Lists): seq<Report> {
    Named(0, Listing(compute)) + Named(1, Listing(graphics))
  }

  lemma NamedMore(source: nat, values: seq<Process>, i: nat)
    requires i < |values|
    ensures Named(source, values[..i + 1]) ==
      Named(source, values[..i]) + if Listed(values[i].pid) then [(source, values[i])] else []
  {
    assert values[..i + 1][..i] == values[..i];
  }

  method FindRecord(records: seq<Allocation>, p: Process) returns (found: int)
    ensures -1 <= found < |records|
    ensures if found >= 0 then SameContext(records[found].value, p)
      else forall j :: 0 <= j < |records| ==> !SameContext(records[j].value, p)
  {
    for j := 0 to |records|
      invariant forall k :: 0 <= k < j ==> !SameContext(records[k].value, p)
    {
      if SameContext(records[j].value, p) { return j; }
    }
    return -1;
  }

  /** One list merged into the records so far. */
  method MergeList(prior: seq<Allocation>, source: nat, values: seq<Process>, ghost reports: seq<Report>)
    returns (records: seq<Allocation>)
    requires Merged(prior, reports)
    ensures |records| <= |prior| + |values| && Merged(records, reports + Named(source, values))
  {
    hide Merged, Represents;
    records := prior;
    ghost var seen := reports;
    assert values[..0] == [] && reports + [] == reports;
    for i := 0 to |values|
      invariant |records| <= |prior| + i && Merged(records, seen) && seen == reports + Named(source, values[..i])
    {
      NamedMore(source, values, i);
      var p := values[i];
      if p.pid == 0 || p.pid > INT_MAX { continue; }
      var found := FindRecord(records, p);
      MergeStep(records, seen, found, source, p);
      records, seen := Merge(records, found, source, p), seen + [(source, p)];
    }
    assert values[..|values|] == values;
  }

  lemma NothingMerged()
    ensures Merged([], [])
  {}

  /** The first half of `collect_processes`: one record per context over both lists. */
  method CollectRecords(graphics: Lists, compute: Lists) returns (records: seq<Allocation>, truncated: bool)
    ensures |records| <= 2 * MAX_PROCESSES && Merged(records, Reported(graphics, compute))
    ensures truncated <==> Cut(graphics) || Cut(compute)
  {
    hide Merged, Listing, Cut, Named;
    NothingMerged();
    records, truncated := [], false;
    for source := 0 to 2
      invariant |records| <= source * MAX_PROCESSES
      invariant truncated <==> (source > 0 && Cut(compute)) || (source > 1 && Cut(graphics))
      invariant Merged(records, if source == 0 then [] else if source == 1 then Named(0, Listing(compute))
        else Reported(graphics, compute))
    {
      var values;
      values, truncated := ProcessList(if source == 0 then compute else graphics, truncated);
      ghost var reports := if source == 0 then [] else Named(0, Listing(compute));
      assert [] + Named(0, Listing(compute)) == Named(0, Listing(compute));
      records := MergeList(records, source, values, reports);
    }
  }

  // ---- Rows ------------------------------------------------------------------------------------

  ghost predicate DistinctPids(rows: seq<Row>) {
    forall i, j :: 0 <= i < j < |rows| ==> rows[i].pid != rows[j].pid
  }

  predicate Whole(p: Process) { p.gpuInstance == UINT_MAX && p.computeInstance == UINT_MAX }

  predicate Counted(p: Process, pid: u32, whole: bool) {
    p.pid == pid && p.memory < MEMORY_LIMIT && Whole(p) == whole
  }

  /** m is the largest accepted memory among records of pid of this kind; 0 when none. */
  ghost predicate Largest(records: seq<Allocation>, pid: u32, whole: bool, m: u64) {
    (forall j :: 0 <= j < |records| && Counted(records[j].value, pid, whole) ==> records[j].value.memory <= m)
    && (m == 0 || exists j :: 0 <= j < |records| && Counted(records[j].value, pid, whole) && records[j].value.memory == m)
  }

  ghost predicate AnyCounted(records: seq<Allocation>, pid: u32, whole: bool) {
    exists j :: 0 <= j < |records| && Counted(records[j].value, pid, whole)
  }

  /** The number of a process's context reports with an accepted size. */
  function ContextCount(records: seq<Allocation>, pid: u32): nat {
    if records == [] then 0
    else
      var n := |records| - 1;
      ContextCount(records[..n], pid) + if Counted(records[n].value, pid, false) then 1 else 0
  }

  /** The lists that reported a process in any context. */
  function RowSources(records: seq<Allocation>, pid: u32): set<nat> {
    if records == [] then {}
    else
      var n := |records| - 1;
      RowSources(records[..n], pid) + if records[n].value.pid == pid then records[n].sources else {}
  }

  lemma CountsMore(records: seq<Allocation>, a: Allocation, pid: u32)
    ensures ContextCount(records + [a], pid) == ContextCount(records, pid) + (if Counted(a.value, pid, false) then 1 else 0)
    ensures RowSources(records + [a], pid) == RowSources(records, pid) + (if a.value.pid == pid then a.sources else {})
  {
    assert (records + [a])[..|records|] == records;
  }

  lemma {:induction false} CountsNone(records: seq<Allocation>, pid: u32)
    requires forall j :: 0 <= j < |records| ==> records[j].value.pid != pid
    ensures ContextCount(records, pid) == 0 && RowSources(records, pid) == {}
    decreases |records|
  {
    if records != [] {
      CountsNone(records[..|records| - 1], pid);
    }
  }

  /** A row summarises the records of its process: maxima, never sums. */
  ghost predicate Summarises(r: Row, records: seq<Allocation>) {
    Largest(records, r.pid, true, r.wholeMemory) && Largest(records, r.pid, false, r.contextMemory)
    && (r.hasWhole <==> AnyCounted(records, r.pid, true))
    && (r.contexts > 0 <==> AnyCounted(records, r.pid, false))
    && r.contexts == ContextCount(records, r.pid) && r.sources == RowSources(records, r.pid)
    && (r.hasMemory <==> r.hasWhole || r.contexts > 0) && !r.hasSample
  }

  function EmptyRow(pid: u32): Row {
    Row(pid, 0, 0, 0, 0, false, false, false, {}, false, 0, 0, 0, 0, 0)
  }

  method FindProcess(rows: seq<Row>, pid: u32) returns (found: int)
    ensures -1 <= found < |rows|
    ensures if found >= 0 then rows[found].pid == pid
      else forall i :: 0 <= i < |rows| ==> rows[i].pid != pid
  {
    for i := 0 to |rows|
      invariant forall k :: 0 <= k < i ==> rows[k].pid != pid
    {
      if rows[i].pid == pid { return i; }
    }
    return -1;
  }

  /** One record folded into the row of its process. */
  function Fold(r: Row, a: Allocation): Row {
    var p := a.value;
    var s := r.(sources := r.sources + a.sources);
    if p.memory >= MEMORY_LIMIT then s
    else if Whole(p) then
      s.(wholeMemory := if p.memory > s.wholeMemory then p.memory else s.wholeMemory,
         hasWhole := true, hasMemory := true)
    else
      s.(contexts := s.contexts + 1, hasMemory := true,
         contextMemory := if p.memory > s.contextMemory then p.memory else s.contextMemory)
  }

  lemma LargestMore(records: seq<Allocation>, a: Allocation, pid: u32, whole: bool, m: u64, next: u64)
    requires Largest(records, pid, whole, m)
    requires next == if Counted(a.value, pid, whole) && a.value.memory > m then a.value.memory else m
    ensures Largest(records + [a], pid, whole, next)
    ensures AnyCounted(records + [a], pid, whole) <==> AnyCounted(records, pid, whole) || Counted(a.value, pid, whole)
  {
    var more := records + [a];
    assert forall j :: 0 <= j < |records| ==> more[j] == records[j];
    assert more[|records|] == a;
    if m != 0 {
      var j :| 0 <= j < |records| && Counted(records[j].value, pid, whole) && records[j].value.memory == m;
      assert more[j].value.memory == m;
    }
    if AnyCounted(records, pid, whole) {
      var j :| 0 <= j < |records| && Counted(records[j].value, pid, whole);
      assert Counted(more[j].value, pid, whole);
    }
  }

  lemma SummarisesMore(r: Row, records: seq<Allocation>, a: Allocation)
    requires Summarises(r, records)
    ensures Summarises(if r.pid == a.value.pid then Fold(r, a) else r, records + [a])
  {
    hide Largest, AnyCounted, ContextCount, RowSources;
    var next := if r.pid == a.value.pid then Fold(r, a) else r;
    CountsMore(records, a, r.pid);
    LargestMore(records, a, r.pid, true, r.wholeMemory, next.wholeMemory);
    LargestMore(records, a, r.pid, false, r.contextMemory, next.contextMemory);
  }

  /** One row per process, each summarising the records seen so far. */
  ghost predicate Tabulated(rows: seq<Row>, records: seq<Allocation>) {
    DistinctPids(rows)
    && forall i :: 0 <= i < |rows| ==> Listed(rows[i].pid) && Summarises(rows[i], records)
  }

  ghost predicate HasRow(rows: seq<Row>, pid: u32) {
    exists i :: 0 <= i < |rows| && rows[i].pid == pid
  }

  ghost predicate Covered(rows: seq<Row>, records: seq<Allocation>) {
    forall j :: 0 <= j < |records| ==> HasRow(rows, records[j].value.pid)
  }

  lemma FreshRow(records: seq<Allocation>, pid: u32)
    requires forall j :: 0 <= j < |records| ==> records[j].value.pid != pid
    ensures Summarises(EmptyRow(pid), records)
  {
    CountsNone(records, pid);
  }

  /** The table of rows after one more record. */
  function Tabulate(rows: seq<Row>, found: int, a: Allocation): seq<Row>
    requires -1 <= found < |rows|
  {
    if found < 0 then rows + [Fold(EmptyRow(a.value.pid), a)]
    else rows[found := Fold(rows[found], a)]
  }

  lemma FoldPid(r: Row, a: Allocation)
    ensures Fold(r, a).pid == r.pid
  {}

  lemma TabulateStep(rows: seq<Row>, records: seq<Allocation>, found: int, a: Allocation)
    requires Tabulated(rows, records) && Listed(a.value.pid) && -1 <= found < |rows|
    requires if found >= 0 then rows[found].pid == a.value.pid
      else !HasRow(rows, a.value.pid) && Covered(rows, records)
    ensures Tabulated(Tabulate(rows, found, a), records + [a])
    ensures Covered(Tabulate(rows, found, a), records + [a]) <==> Covered(rows, records)
  {
    hide Summarises, Fold;
    var next, more := Tabulate(rows, found, a), records + [a];
    forall r ensures Fold(r, a).pid == r.pid { FoldPid(r, a); }
    assert forall i :: 0 <= i < |rows| ==> next[i].pid == rows[i].pid;
    forall i | 0 <= i < |next| ensures Summarises(next[i], more) {
      if i < |rows| {
        SummarisesMore(rows[i], records, a);
      } else {
        forall j | 0 <= j < |records| ensures records[j].value.pid != a.value.pid {
          assert HasRow(rows, records[j].value.pid);
        }
        FreshRow(records, a.value.pid);
        SummarisesMore(EmptyRow(a.value.pid), records, a);
      }
    }
    assert next[if found < 0 then |rows| else found].pid == a.value.pid;
    forall pid | pid != a.value.pid ensures HasRow(rows, pid) <==> HasRow(next, pid) {
      if HasRow(rows, pid) {
        var i :| 0 <= i < |rows| && rows[i].pid == pid;
        assert next[i].pid == pid;
      }
    }
    assert forall j :: 0 <= j < |records| ==> more[j] == records[j];
  }

  /** A record whose process has no row while the table is full is left out of it. */
  lemma TabulateSkip(rows: seq<Row>, records: seq<Allocation>, a: Allocation)
    requires Tabulated(rows, records) && !HasRow(rows, a.value.pid)
    ensures Tabulated(rows, records + [a]) && !Covered(rows, records + [a])
  {
    hide Summarises;
    assert (records + [a])[|records|] == a;
    forall i | 0 <= i < |rows| ensures Summarises(rows[i], records + [a]) {
      SummarisesMore(rows[i], records, a);
    }
  }

  /** The second part of `collect_processes`: at most 256 processes get a row, each row is
      exact, and the result is marked truncated exactly when processes are missing. */
  method TabulateRecords(records: seq<Allocation>, truncatedIn: bool)
    returns (rows: seq<Row>, truncated: bool)
    requires forall j :: 0 <= j < |records| ==> Listed(records[j].value.pid)
    ensures |rows| <= MAX_PROCESSES && Tabulated(rows, records)
    ensures truncated <==> truncatedIn || !Covered(rows, records)
    ensures !Covered(rows, records) ==> |rows| == MAX_PROCESSES
  {
    rows, truncated := [], truncatedIn;
    for n := 0 to |records|
      invariant |rows| <= MAX_PROCESSES && Tabulated(rows, records[..n])
      invariant truncated <==> truncatedIn || !Covered(rows, records[..n])
      invariant !Covered(rows, records[..n]) ==> |rows| == MAX_PROCESSES
    {
      hide Tabulated, Covered, Fold;
      var a := records[n];
      assert records[..n + 1] == records[..n] + [a];
      var found := FindProcess(rows, a.value.pid);
      assert found >= 0 <==> HasRow(rows, a.value.pid);
      if found < 0 && |rows| == MAX_PROCESSES {
        TabulateSkip(rows, records[..n], a);
        truncated := true;
        continue;
      }
      TabulateStep(rows, records[..n], found, a);
      rows := Tabulate(rows, found, a);
    }
    assert records[..|records|] == records;
  }

  // ---- Totals and samples ------------------------------------------------------------------------

  /** What is published for a summarised row: the larger of the two maxima, and whether that
      is only an estimate because contexts may share memory. */
  function Total(r: Row): (t: Row)
    ensures t.pid == r.pid && t.memory >= r.wholeMemory && t.memory >= r.contextMemory
    ensures t.memory == r.wholeMemory || t.memory == r.contextMemory
  {
    r.(memory := if r.contextMemory > r.wholeMemory then r.contextMemory else r.wholeMemory,
       estimated := (r.contexts > 1 && !r.hasWhole) || (r.hasWhole && r.contextMemory > r.wholeMemory))
  }

  /** The published memory is the largest accepted report of the process, whatever its kind. */
  lemma TotalIsLargest(r: Row, records: seq<Allocation>)
    requires Summarises(r, records)
    ensures forall j | 0 <= j < |records| && records[j].value.pid == r.pid && records[j].value.memory < MEMORY_LIMIT ::
      records[j].value.memory <= Total(r).memory
    ensures r.hasMemory ==> exists j | 0 <= j < |records| && records[j].value.pid == r.pid ::
      records[j].value.memory == Total(r).memory
    ensures Total(r).memory < MEMORY_LIMIT
  {
    forall j | 0 <= j < |records| && records[j].value.pid == r.pid && records[j].value.memory < MEMORY_LIMIT
      ensures records[j].value.memory <= Total(r).memory
    {
      assert Counted(records[j].value, r.pid, Whole(records[j].value));
    }
    if r.hasMemory && Total(r).memory == 0 {
      var whole := r.hasWhole;
      var j :| 0 <= j < |records| && Counted(records[j].value, r.pid, whole);
      assert records[j].value.memory == Total(r).memory;
    }
  }

  method TotalRows(rows: seq<Row>) returns (totals: seq<Row>)
    requires DistinctPids(rows) && forall i :: 0 <= i < |rows| ==> Listed(rows[i].pid)
    ensures |totals| == |rows| && forall i :: 0 <= i < |rows| ==> totals[i] == Total(rows[i])
    ensures DistinctPids(totals) && forall i :: 0 <= i < |rows| ==> Listed(totals[i].pid)
  {
    totals := rows;
    for i := 0 to |rows|
      invariant |totals| == |rows|
      invariant forall k :: 0 <= k < |rows| ==> totals[k] == if k < i then Total(rows[k]) else rows[k]
    {
      totals := totals[i := Total(rows[i])];
    }
  }

  /** A sample that may move the cursor. */
  predicate Recent(s: Sample, previous: u64) {
    Listed(s.pid) && s.timestamp != UNKNOWN && s.timestamp > previous
  }

  predicate Usable(s: Sample, previous: u64) {
    Recent(s, previous) && s.sm <= 100 && s.memory <= 100 && s.encoder <= 100 && s.decoder <= 100
  }

  function WithSample(r: Row, s: Sample): Row {
    if !r.hasSample || s.timestamp > r.timestamp then
      r.(timestamp := s.timestamp, sm := s.sm, utilization := s.memory, encoder := s.encoder,
         decoder := s.decoder, hasSample := true)
    else r
  }

  /** A row carries the newest usable sample of its process, whole, or none if there is none. */
  ghost predicate Sampled(r: Row, samples: seq<Sample>, previous: u64) {
    if r.hasSample then
      (exists i | 0 <= i < |samples| && Usable(samples[i], previous) && samples[i].pid == r.pid ::
        samples[i] == Sample(r.pid, r.timestamp, r.sm, r.utilization, r.encoder, r.decoder))
      && (forall i | 0 <= i < |samples| && Usable(samples[i], previous) && samples[i].pid == r.pid ::
        samples[i].timestamp <= r.timestamp)
    else forall i | 0 <= i < |samples| && Usable(samples[i], previous) :: samples[i].pid != r.pid
  }

  lemma SampledMore(r: Row, samples: seq<Sample>, s: Sample, previous: u64)
    requires Sampled(r, samples, previous)
    ensures Sampled(if Usable(s, previous) && s.pid == r.pid then WithSample(r, s) else r, samples + [s], previous)
  {
    var more := samples + [s];
    assert forall i :: 0 <= i < |samples| ==> more[i] == samples[i];
    assert more[|samples|] == s;
    if r.hasSample {
      var i :| 0 <= i < |samples| && Usable(samples[i], previous) && samples[i].pid == r.pid
        && samples[i] == Sample(r.pid, r.timestamp, r.sm, r.utilization, r.encoder, r.decoder);
      assert more[i] == samples[i];
    }
  }

  /** The cursor after a list of samples: the newest timestamp of a recent one. */
  ghost predicate Newest(samples: seq<Sample>, previous: u64, next: u64) {
    (forall i :: 0 <= i < |samples| && Recent(samples[i], previous) ==> samples[i].timestamp <= next)
    && (next == previous || exists i :: 0 <= i < |samples| && Recent(samples[i], previous) && samples[i].timestamp == next)
  }

  /** The samples a list really delivered. */
  function Delivered(list: List<Sample>): seq<Sample> {
    if list.Answer? && list.status == 0 && |list.entries| <= MAX_PROCESSES then list.entries else []
  }

  /** A row without its sample. */
  function Untimed(r: Row): Row {
    r.(hasSample := false, timestamp := 0, sm := 0, utilization := 0, encoder := 0, decoder := 0)
  }

  ghost predicate SampledRows(rowsIn: seq<Row>, rows: seq<Row>, samples: seq<Sample>, previous: u64) {
    |rowsIn| <= |rows| <= MAX_PROCESSES && DistinctPids(rows)
    && (forall i :: 0 <= i < |rows| ==> Listed(rows[i].pid) && Sampled(rows[i], samples, previous))
    && (forall i :: 0 <= i < |rowsIn| ==> Untimed(rows[i]) == Untimed(rowsIn[i]))
    && (forall i :: |rowsIn| <= i < |rows| ==> Untimed(rows[i]) == EmptyRow(rows[i].pid))
    && (forall n :: 0 <= n < |samples| && Usable(samples[n], previous) ==>
      |rows| == MAX_PROCESSES || HasRow(rows, samples[n].pid))
  }

  lemma Unsampled(r: Row, samples: seq<Sample>, previous: u64)
    requires !r.hasSample && forall i | 0 <= i < |samples| && Usable(samples[i], previous) :: samples[i].pid != r.pid
    ensures Sampled(r, samples, previous)
  {}

  lemma SampledRowsStep(rowsIn: seq<Row>, rows: seq<Row>, samples: seq<Sample>, previous: u64, s: Sample, found: int)
    requires SampledRows(rowsIn, rows, samples, previous) && -1 <= found < |rows|
    requires Usable(s, previous)
    requires if found >= 0 then rows[found].pid == s.pid else !HasRow(rows, s.pid) && |rows| < MAX_PROCESSES
    ensures var row := WithSample(if found < 0 then EmptyRow(s.pid) else rows[found], s);
      SampledRows(rowsIn, if found < 0 then rows + [row] else rows[found := row], samples + [s], previous)
  {
    hide Sampled;
    var row := WithSample(if found < 0 then EmptyRow(s.pid) else rows[found], s);
    var next := if found < 0 then rows + [row] else rows[found := row];
    assert forall i :: 0 <= i < |rows| ==> next[i].pid == rows[i].pid;
    forall i | 0 <= i < |next| ensures Sampled(next[i], samples + [s], previous) {
      if i < |rows| {
        SampledMore(rows[i], samples, s, previous);
      } else {
        forall n | 0 <= n < |samples| && Usable(samples[n], previous) ensures samples[n].pid != s.pid {}
        assert Sampled(EmptyRow(s.pid), samples, previous) by { Unsampled(EmptyRow(s.pid), samples, previous); }
        SampledMore(EmptyRow(s.pid), samples, s, previous);
      }
    }
    assert next[if found < 0 then |rows| else found].pid == s.pid;
    forall n | 0 <= n < |samples + [s]| && Usable((samples + [s])[n], previous)
      ensures |next| == MAX_PROCESSES || HasRow(next, (samples + [s])[n].pid)
    {
      if n < |samples| && HasRow(rows, samples[n].pid) {
        var i :| 0 <= i < |rows| && rows[i].pid == samples[n].pid;
        assert next[i].pid == samples[n].pid;
      }
    }
  }

  lemma SampledRowsSkip(rowsIn: seq<Row>, rows: seq<Row>, samples: seq<Sample>, previous: u64, s: Sample)
    requires SampledRows(rowsIn, rows, samples, previous)
    requires Usable(s, previous) ==> !HasRow(rows, s.pid) && |rows| == MAX_PROCESSES
    ensures SampledRows(rowsIn, rows, samples + [s], previous)
  {
    hide Sampled;
    forall i | 0 <= i < |rows| ensures Sampled(rows[i], samples + [s], previous) {
      SampledMore(rows[i], samples, s, previous);
    }
  }

  /** Every process with a usable sample has a row. */
  ghost predicate AllSampled(rows: seq<Row>, samples: seq<Sample>, previous: u64) {
    forall n :: 0 <= n < |samples| && Usable(samples[n], previous) ==> HasRow(rows, samples[n].pid)
  }

  /** Rows that are not full leave nobody out. */
  lemma RoomMeansAll(rowsIn: seq<Row>, rows: seq<Row>, samples: seq<Sample>, previous: u64)
    requires SampledRows(rowsIn, rows, samples, previous)
    ensures |rows| <= MAX_PROCESSES && (|rows| < MAX_PROCESSES ==> AllSampled(rows, samples, previous))
  {}

  /** Who is left out after one more sample: rows only grow while nobody is. */
  lemma AllSampledNext(rows: seq<Row>, next: seq<Row>, samples: seq<Sample>, s: Sample, previous: u64)
    requires |next| >= |rows| && forall i :: 0 <= i < |rows| ==> next[i].pid == rows[i].pid
    requires next == rows || |next| == |rows| || AllSampled(rows, samples, previous)
    ensures AllSampled(next, samples + [s], previous) <==>
      AllSampled(rows, samples, previous) && (Usable(s, previous) ==> HasRow(next, s.pid))
  {
    hide Usable;
    var more := samples + [s];
    assert more[|samples|] == s && forall n :: 0 <= n < |samples| ==> more[n] == samples[n];
    forall pid | HasRow(rows, pid) ensures HasRow(next, pid) {
      var i :| 0 <= i < |rows| && rows[i].pid == pid;
      assert next[i].pid == pid;
    }
    if |next| == |rows| {
      forall pid | HasRow(next, pid) ensures HasRow(rows, pid) {
        var i :| 0 <= i < |next| && next[i].pid == pid;
        assert rows[i].pid == pid;
      }
    }
  }

  lemma AllSampledAppend(rows: seq<Row>, samples: seq<Sample>, s: Sample, previous: u64)
    requires AllSampled(rows, samples, previous)
    ensures AllSampled(rows + [WithSample(EmptyRow(s.pid), s)], samples + [s], previous)
  {
    var next := rows + [WithSample(EmptyRow(s.pid), s)];
    assert next[|rows|].pid == s.pid;
    AllSampledNext(rows, next, samples, s, previous);
  }

  lemma SamePid(r: Row, s: Sample)
    ensures WithSample(r, s).pid == r.pid
  {}

  lemma NewestMore(samples: seq<Sample>, p: Sample, previous: u64, next: u64)
    requires Newest(samples, previous, next) && previous <= next
    ensures Newest(samples + [p], previous, if Recent(p, previous) && p.timestamp > next then p.timestamp else next)
  {
    var more := samples + [p];
    assert forall i :: 0 <= i < |samples| ==> more[i] == samples[i];
    assert more[|samples|] == p;
    if next != previous {
      var i :| 0 <= i < |samples| && Recent(samples[i], previous) && samples[i].timestamp == next;
      assert Recent(more[i], previous) && more[i].timestamp == next;
    }
  }

  lemma NoSamples(rows: seq<Row>, previous: u64)
    ensures Newest([], previous, previous) && AllSampled(rows, [], previous)
  {}

  lemma UsableMeans(s: Sample, previous: u64)
    ensures Usable(s, previous) <==> (
      Recent(s, previous) && s.sm <= 100 && s.memory <= 100 && s.encoder <= 100 && s.decoder <= 100)
  {}

  /** The last part of `collect_processes`: utilisation samples newer than the cursor. */
  method AddSamples(rowsIn: seq<Row>, list: List<Sample>, previous: u64, truncatedIn: bool)
    returns (rows: seq<Row>, next: u64, truncated: bool)
    requires SampledRows(rowsIn, rowsIn, [], previous)
    ensures SampledRows(rowsIn, rows, Delivered(list), previous)
    ensures previous <= next && Newest(Delivered(list), previous, next)
    ensures truncated <==> truncatedIn || Overflows(list) || !AllSampled(rows, Delivered(list), previous)
  {
    hide SampledRows, Newest, AllSampled, Usable, WithSample;
    NoSamples(rowsIn, previous);
    rows, next, truncated := rowsIn, previous, truncatedIn;
    if list.Missing? { return; }
    if |list.entries| > MAX_PROCESSES || list.status == 7 { truncated := true; }
    if list.status != 0 || |list.entries| > MAX_PROCESSES { return; }
    var samples := list.entries;
    assert samples[..0] == [];
    for n := 0 to |samples|
      invariant SampledRows(rowsIn, rows, samples[..n], previous)
      invariant previous <= next && Newest(samples[..n], previous, next)
      invariant truncated <==> truncatedIn || Overflows(list) || !AllSampled(rows, samples[..n], previous)
    {
      UsableMeans(samples[n], previous);
      RoomMeansAll(rowsIn, rows, samples[..n], previous);
      AllSampledNext(rows, rows, samples[..n], samples[n], previous);
      var p := samples[n];
      NewestMore(samples[..n], p, previous, next);
      assert samples[..n + 1] == samples[..n] + [p];
      if p.pid == 0 || p.pid > INT_MAX || p.timestamp == UNKNOWN || p.timestamp <= previous {
        SampledRowsSkip(rowsIn, rows, samples[..n], previous, p);
        continue;
      }
      if p.timestamp > next { next := p.timestamp; }
      if p.sm > 100 || p.memory > 100 || p.encoder > 100 || p.decoder > 100 {
        SampledRowsSkip(rowsIn, rows, samples[..n], previous, p);
        continue;
      }
      var found := FindProcess(rows, p.pid);
      if found < 0 && |rows| == MAX_PROCESSES {
        SampledRowsSkip(rowsIn, rows, samples[..n], previous, p);
        truncated := true;
        continue;
      }
      SampledRowsStep(rowsIn, rows, samples[..n], previous, p, found);
      if found < 0 {
        AllSampledAppend(rows, samples[..n], p, previous);
        rows := rows + [WithSample(EmptyRow(p.pid), p)];
      } else {
        SamePid(rows[found], p);
        AllSampledNext(rows, rows[found := WithSample(rows[found], p)], samples[..n], p, previous);
        rows := rows[found := WithSample(rows[found], p)];
      }
    }
    assert samples[..|samples|] == samples;
  }

  ghost predicate Published(t: Row, records: seq<Allocation>) {
    exists r: Row :: Summarises(r, records) && t == Total(r)
  }

  lemma MergedListed(records: seq<Allocation>, reports: seq<Report>)
    requires Merged(records, reports)
    ensures forall j :: 0 <= j < |records| ==> Listed(records[j].value.pid)
  {
    forall j | 0 <= j < |records| ensures Listed(records[j].value.pid) {
      assert Represents(records[j], reports);
    }
  }

  lemma SameCover(rows: seq<Row>, totals: seq<Row>, records: seq<Allocation>)
    requires |totals| == |rows| && forall i :: 0 <= i < |rows| ==> totals[i].pid == rows[i].pid
    ensures Covered(totals, records) <==> Covered(rows, records)
  {
    forall pid ensures HasRow(totals, pid) <==> HasRow(rows, pid) {
      if i :| 0 <= i < |rows| && rows[i].pid == pid { assert totals[i].pid == pid; }
      if i :| 0 <= i < |rows| && totals[i].pid == pid { assert rows[i].pid == pid; }
    }
  }

  lemma SummariesUnsampled(rows: seq<Row>, records: seq<Allocation>)
    requires Tabulated(rows, records)
    ensures forall i :: 0 <= i < |rows| ==> !rows[i].hasSample
  {
    forall i | 0 <= i < |rows| ensures !rows[i].hasSample {
      assert Summarises(rows[i], records);
    }
  }

  /** `collect_processes`: records over both lists, their rows, and the samples on top. */
  method CollectProcesses(graphics: Lists, compute: Lists, list: List<Sample>, previous: u64)
    returns (rows: seq<Row>, records: seq<Allocation>, next: u64, truncated: bool, ghost totals: seq<Row>)
    ensures |records| <= 2 * MAX_PROCESSES && Merged(records, Reported(graphics, compute))
    ensures SampledRows(totals, rows, Delivered(list), previous)
    ensures forall i :: 0 <= i < |totals| ==> Published(totals[i], records)
    ensures Covered(totals, records) || |totals| == MAX_PROCESSES
    ensures truncated <==> (Cut(graphics) || Cut(compute) || Overflows(list)
      || !Covered(totals, records) || !AllSampled(rows, Delivered(list), previous))
    ensures previous <= next && Newest(Delivered(list), previous, next)
  {
    hide Merged, Summarises, Newest, Covered, Reported, Cut, AllSampled;
    records, truncated := CollectRecords(graphics, compute);
    MergedListed(records, Reported(graphics, compute));
    rows, truncated := TabulateRecords(records, truncated);
    ghost var summaries := rows;
    rows := TotalRows(rows);
    totals := rows;
    SameCover(summaries, totals, records);
    SummariesUnsampled(summaries, records);
    forall i | 0 <= i < |totals| ensures Published(totals[i], records) {
      assert Summarises(summaries[i], records) && totals[i] == Total(summaries[i]);
    }
    rows, next, truncated := AddSamples(rows, list, previous, truncated);
  }

  // ---- What the sources, the sizes and the lists mean ----------------------------------------------------------

  /** The first entry point that is neither absent nor answers that it is unsupported (3) or unknown (13) decides;
      it delivers only with a success of at most 256 entries. */
  lemma ListingMeans(lists: Lists)
    ensures var (first, second, last) := (lists.current, lists.second, lists.legacy);
      var (skipFirst, skipSecond) := (
        first.Answer? ==> first.status in {3, 13},
        second.Answer? ==> second.status in {3, 13});
      (!skipFirst ==> Listing(lists) == if first.status == 0 && |first.entries| <= 256 then first.entries else [])
      && (skipFirst && !skipSecond ==>
        Listing(lists) == if second.status == 0 && |second.entries| <= 256 then second.entries else [])
      && (skipFirst && skipSecond ==> (
        if last.Answer? && last.status == 0 && |last.entries| <= 256 then
          |Listing(lists)| == |last.entries| && forall i :: 0 <= i < |Listing(lists)| ==>
            Listing(lists)[i] == Process(last.entries[i].pid, last.entries[i].memory, 0xFFFF_FFFF, 0xFFFF_FFFF)
        else Listing(lists) == []))
  {}

  ghost predicate InList(values: seq<Process>, pid: u32) {
    exists i :: 0 <= i < |values| && values[i].pid == pid
  }

  lemma {:induction false} NamedHas(source: nat, values: seq<Process>, r: Report)
    ensures r in Named(source, values) <==> r.0 == source && Listed(r.1.pid) && r.1 in values
    decreases |values|
  {
    if values != [] {
      var n := |values| - 1;
      NamedHas(source, values[..n], r);
      assert values == values[..n] + [values[n]];
    }
  }

  lemma {:induction false} RowSourcesHave(records: seq<Allocation>, pid: u32, x: nat)
    ensures x in RowSources(records, pid)
      <==> exists j :: 0 <= j < |records| && records[j].value.pid == pid && x in records[j].sources
    decreases |records|
  {
    if records != [] {
      var n := |records| - 1;
      RowSourcesHave(records[..n], pid, x);
      assert forall j :: 0 <= j < n ==> records[..n][j] == records[j];
    }
  }

  lemma SourceReported(records: seq<Allocation>, reports: seq<Report>, pid: u32, x: nat)
    requires Merged(records, reports)
    ensures x in RowSources(records, pid) <==> exists i :: 0 <= i < |reports| && reports[i].1.pid == pid && reports[i].0 == x
  {
    hide LargestKnown, RowSources;
    RowSourcesHave(records, pid, x);
    if j :| 0 <= j < |records| && records[j].value.pid == pid && x in records[j].sources {
      assert Represents(records[j], reports);
    }
    if i :| 0 <= i < |reports| && reports[i].1.pid == pid && reports[i].0 == x {
      var j :| 0 <= j < |records| && SameContext(records[j].value, reports[i].1);
      assert Represents(records[j], reports);
      assert x in SourcesOf(reports, records[j].value);
    }
  }

  /** A process is counted as computing or drawing exactly if the list of that kind names it. */
  lemma SourcesMean(records: seq<Allocation>, graphics: Lists, compute: Lists, pid: u32)
    requires Merged(records, Reported(graphics, compute)) && Listed(pid)
    ensures 0 in RowSources(records, pid) <==> InList(Listing(compute), pid)
    ensures 1 in RowSources(records, pid) <==> InList(Listing(graphics), pid)
    ensures RowSources(records, pid) <= {0, 1}
  {
    hide Merged, RowSources, Named, Listing;
    var (c, g) := (Listing(compute), Listing(graphics));
    var reports := Named(0, c) + Named(1, g);
    forall r: Report ensures r in reports <==> Listed(r.1.pid) && ((r.0 == 0 && r.1 in c) || (r.0 == 1 && r.1 in g)) {
      NamedHas(0, c, r);
      NamedHas(1, g, r);
    }
    forall x
      ensures x in RowSources(records, pid) <==> exists i :: 0 <= i < |reports| && reports[i].1.pid == pid && reports[i].0 == x
    {
      SourceReported(records, reports, pid, x);
    }
    forall x ensures x in RowSources(records, pid) <==> (x == 0 && InList(c, pid)) || (x == 1 && InList(g, pid)) {
      if i :| 0 <= i < |reports| && reports[i].1.pid == pid && reports[i].0 == x {
        assert reports[i] in reports;
      }
      if i :| x == 0 && 0 <= i < |c| && c[i].pid == pid { assert (0, c[i]) in reports; }
      if i :| x == 1 && 0 <= i < |g| && g[i].pid == pid { assert (1, g[i]) in reports; }
    }
  }

  ghost predicate Two(records: seq<Allocation>, pid: u32) {
    exists i, j :: 0 <= i < j < |records| && Counted(records[i].value, pid, false) && Counted(records[j].value, pid, false)
  }

  lemma {:induction false} TwoContexts(records: seq<Allocation>, pid: u32)
    ensures ContextCount(records, pid) > 0 <==> AnyCounted(records, pid, false)
    ensures ContextCount(records, pid) > 1 <==> Two(records, pid)
    decreases |records|
  {
    hide Counted;
    if records != [] {
      var n := |records| - 1;
      TwoContexts(records[..n], pid);
      assert forall j :: 0 <= j < n ==> records[..n][j] == records[j];
    }
  }

  /** A record of the process with a believable size. */
  predicate Sized(records: seq<Allocation>, pid: u32, j: nat) {
    j < |records| && records[j].value.pid == pid && records[j].value.memory < 0x4_0000_0000_0000
  }

  /** The record is about the whole device: neither instance is given. */
  predicate OfDevice(records: seq<Allocation>, j: nat) {
    j < |records| && records[j].value.gpuInstance == 0xFFFF_FFFF && records[j].value.computeInstance == 0xFFFF_FFFF
  }

  ghost predicate Exceeds(records: seq<Allocation>, pid: u32, i: nat) {
    forall k: nat :: Sized(records, pid, k) && OfDevice(records, k) && i < |records| ==>
      records[k].value.memory < records[i].value.memory
  }

  ghost predicate DoubtfulAt(records: seq<Allocation>, pid: u32, i: nat, j: nat) {
    Sized(records, pid, i) && Sized(records, pid, j) && i != j && !OfDevice(records, i) && Exceeds(records, pid, i)
  }

  /** Some context is larger than all the device's own figures for the process, and not the only record of it. */
  ghost predicate Doubtful(records: seq<Allocation>, pid: u32) {
    exists i: nat, j: nat :: DoubtfulAt(records, pid, i, j)
  }

  lemma CountedMeans(records: seq<Allocation>, pid: u32, j: nat, whole: bool)
    requires j < |records|
    ensures Counted(records[j].value, pid, whole) <==> Sized(records, pid, j) && OfDevice(records, j) == whole
  {}

  lemma SizesMean(r: Row, records: seq<Allocation>)
    requires Summarises(r, records)
    ensures r.hasMemory <==> exists j: nat :: Sized(records, r.pid, j)
    ensures r.hasWhole <==> exists j: nat :: Sized(records, r.pid, j) && OfDevice(records, j)
  {
    hide Largest;
    forall j: nat, whole: bool | j < |records|
      ensures Counted(records[j].value, r.pid, whole) <==> Sized(records, r.pid, j) && OfDevice(records, j) == whole
    {
      CountedMeans(records, r.pid, j, whole);
    }
    if j: nat :| Sized(records, r.pid, j) {
      assert Counted(records[j].value, r.pid, OfDevice(records, j));
    }
  }

  lemma EstimatedIsDoubtful(r: Row, records: seq<Allocation>)
    requires Summarises(r, records) && Total(r).estimated
    ensures Doubtful(records, r.pid)
  {
    TwoContexts(records, r.pid);
    if r.contexts > 1 && !r.hasWhole {
      var i, j :| 0 <= i < j < |records| && Counted(records[i].value, r.pid, false) && Counted(records[j].value, r.pid, false);
      assert Exceeds(records, r.pid, i) by {
        forall k: nat | Sized(records, r.pid, k) ensures !OfDevice(records, k) { CountedMeans(records, r.pid, k, true); }
      }
      assert DoubtfulAt(records, r.pid, i, j);
    } else {
      var i :| 0 <= i < |records| && Counted(records[i].value, r.pid, false) && records[i].value.memory == r.contextMemory;
      var j :| 0 <= j < |records| && Counted(records[j].value, r.pid, true);
      assert Exceeds(records, r.pid, i) by {
        forall k: nat | Sized(records, r.pid, k) && OfDevice(records, k)
          ensures records[k].value.memory < records[i].value.memory
        {
          CountedMeans(records, r.pid, k, true);
        }
      }
      assert DoubtfulAt(records, r.pid, i, j);
    }
  }

  /** A device's own figure that is the largest of its kind. */
  lemma LargestOfDevice(r: Row, records: seq<Allocation>) returns (k: nat)
    requires Summarises(r, records) && r.hasWhole
    ensures Sized(records, r.pid, k) && OfDevice(records, k) && records[k].value.memory == r.wholeMemory
  {
    if r.wholeMemory > 0 {
      k :| 0 <= k < |records| && Counted(records[k].value, r.pid, true) && records[k].value.memory == r.wholeMemory;
    } else {
      k :| 0 <= k < |records| && Counted(records[k].value, r.pid, true);
    }
  }

  lemma DoubtfulIsEstimated(r: Row, records: seq<Allocation>, i: nat, j: nat)
    requires Summarises(r, records) && DoubtfulAt(records, r.pid, i, j)
    ensures Total(r).estimated
  {
    CountedMeans(records, r.pid, i, false);
    if r.hasWhole {
      var k := LargestOfDevice(r, records);
      assert records[k].value.memory < records[i].value.memory;
    } else {
      CountedMeans(records, r.pid, j, true);
      CountedMeans(records, r.pid, j, false);
      TwoContexts(records, r.pid);
    }
  }

  /** The published size is marked as an estimate exactly when it is doubtful. */
  lemma EstimatedMeans(r: Row, records: seq<Allocation>)
    requires Summarises(r, records)
    ensures Total(r).estimated <==> Doubtful(records, r.pid)
  {
    hide Summarises, Total, DoubtfulAt;
    if Total(r).estimated { EstimatedIsDoubtful(r, records); }
    if i: nat, j: nat :| DoubtfulAt(records, r.pid, i, j) { DoubtfulIsEstimated(r, records, i, j); }
  }
}
