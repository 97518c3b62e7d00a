/** Reconciling two descriptions of the processor topology: per-processor CPU Set records and
    per-core or per-package affinity masks. Bit sets are sets of positions. */
module CpuTopology {
  const MAX_CPUS: nat := 512
  const CORE: nat := 0
  const PACKAGE: nat := 3

  datatype Row = Row(group: nat, index: nat, core: nat, hasSet: bool, coreKnown: bool, packageKnown: bool,
    package: nat, siblings: set<nat>)

  /** A 32-bit affinity mask. */
  type Mask = s: set<nat> | forall n :: n in s ==> n < 32

  /** A relation of the affinity layout: per group the positions it covers. */
  datatype Record = Record(kind: nat, masks: seq<Mask>)

  datatype Layout = Layout(active: seq<nat>, records: seq<Record>, setsValid: bool, layoutValid: bool)

  function FlatId(row: Row): nat {
    row.group * 64 + row.index
  }

  /** 32-bit masks can speak about a group only if nothing in it lies beyond position 31. */
  predicate MaskSafe(l: Layout, rows: seq<Row>, g: nat) {
    g < |l.active| && l.active[g] <= 32
    && (l.setsValid ==> forall i :: 0 <= i < |rows| && rows[i].group == g ==> rows[i].index < 32)
  }

  predicate Contains(record: Record, row: Row) {
    row.index < 32 && row.group < |record.masks| && row.index in record.masks[row.group]
  }

  function Population(masks: seq<Mask>): nat {
    if masks == [] then 0 else |masks[0]| + Population(masks[1..])
  }

  /** The rows a record covers, if every position of its masks is a row. */
  function Members(l: Layout, rows: seq<Row>, record: Record): set<nat> {
    var bits := set i | 0 <= i < |rows| && Contains(record, rows[i]);
    if (forall g :: 0 <= g < |record.masks| && record.masks[g] != {} ==> MaskSafe(l, rows, g))
      && |bits| == Population(record.masks)
    then bits else {}
  }

  /** The member sets of the usable records of a kind that cover row i, among the first n. */
  function Covering(l: Layout, rows: seq<Row>, i: nat, kind: nat, n: nat): seq<set<nat>>
    requires n <= |l.records|
  {
    if n == 0 then []
    else
      var bits := Members(l, rows, l.records[n - 1]);
      Covering(l, rows, i, kind, n - 1) + if l.records[n - 1].kind == kind && i in bits then [bits] else []
  }

  function Cores(l: Layout, rows: seq<Row>, i: nat): seq<set<nat>> {
    Covering(l, rows, i, CORE, |l.records|)
  }

  function Packages(l: Layout, rows: seq<Row>, i: nat): seq<set<nat>> {
    Covering(l, rows, i, PACKAGE, |l.records|)
  }

  /** The number of the first row of a set. */
  function FirstMember(rows: seq<Row>, bits: set<nat>, from: nat): nat
    decreases |rows| - from
  {
    if from >= |rows| then 0 else if from in bits then FlatId(rows[from]) else FirstMember(rows, bits, from + 1)
  }

  /** The rows that share a CPU Set core with a row. */
  function SetSiblings(rows: seq<Row>, row: Row): set<nat> {
    set j | 0 <= j < |rows| && rows[j].group == row.group && rows[j].core == row.core
  }

  /** A row after both descriptions have been consulted. */
  function Related(l: Layout, rows: seq<Row>, i: nat): Row
    requires i < |rows|
  {
    var (row, cores, packages) := (rows[i], Cores(l, rows, i), Packages(l, rows, i));
    var cored :=
      if row.hasSet then
        var siblings := row.siblings + SetSiblings(rows, row);
        row.(siblings := siblings, coreKnown := row.coreKnown && |cores| <= 1 && (|cores| == 1 ==> cores[0] == siblings))
      else if |cores| == 1 then row.(coreKnown := true, core := FirstMember(rows, cores[0], 0), siblings := cores[0])
      else row;
    if |packages| == 1 then cored.(packageKnown := true, package := FirstMember(rows, packages[0], 0)) else cored
  }

  function AllRelated(l: Layout, rows: seq<Row>): (r: seq<Row>)
    ensures |r| == |rows| && forall i :: 0 <= i < |rows| ==> r[i] == Related(l, rows, i)
  {
    seq(|rows|, i requires 0 <= i < |rows| => Related(l, rows, i))
  }

  predicate Clashes(rows: seq<Row>, i: nat, j: nat) {
    i < |rows| && j < |rows| && j in rows[i].siblings && rows[j].packageKnown && rows[j].package != rows[i].package
  }

  /** Row i's core spans two known packages. */
  predicate Splits(rows: seq<Row>, i: nat) {
    i < |rows| && rows[i].coreKnown && rows[i].packageKnown
    && exists j :: 0 <= j < |rows| && Clashes(rows, i, j)
  }

  predicate Marks(rows: seq<Row>, i: nat, j: nat) {
    i < |rows| && Splits(rows, i) && j in rows[i].siblings
  }

  predicate Inconsistent(rows: seq<Row>, j: nat) {
    exists i :: 0 <= i < |rows| && Marks(rows, i, j)
  }

  function Settled(rows: seq<Row>, j: nat): Row
    requires j < |rows|
  {
    if Inconsistent(rows, j) then rows[j].(packageKnown := false, coreKnown := rows[j].coreKnown && rows[j].hasSet)
    else rows[j]
  }

  function AllSettled(rows: seq<Row>): (r: seq<Row>)
    ensures |r| == |rows| && forall i :: 0 <= i < |rows| ==> r[i] == Settled(rows, i)
  {
    seq(|rows|, i requires 0 <= i < |rows| => Settled(rows, i))
  }

  // ---- What reconciliation promises -----------------------------------------------------------------------

  /** Known cores contain their own row, and rows of one known core agree on its members. */
  predicate Grouped(rows: seq<Row>) {
    (forall i :: 0 <= i < |rows| && rows[i].coreKnown ==> i in rows[i].siblings)
    && (forall i, j :: 0 <= i < |rows| && 0 <= j < |rows| && rows[i].coreKnown && rows[j].coreKnown && j in rows[i].siblings ==>
      rows[j].siblings == rows[i].siblings)
  }

  /** And no known core spans two known packages. */
  ghost predicate Coherent(rows: seq<Row>) {
    Grouped(rows) && forall i: nat :: !Splits(rows, i)
  }

  /** How an observation hands its rows over: all from CPU Sets with their cores known, or all seeded from
      masks with nothing known. */
  predicate FromSets(rows: seq<Row>) {
    forall i :: 0 <= i < |rows| ==> rows[i].hasSet && rows[i].coreKnown && !rows[i].packageKnown && rows[i].siblings == {}
  }

  predicate FromMasks(rows: seq<Row>) {
    forall i :: 0 <= i < |rows| ==> !rows[i].hasSet && !rows[i].coreKnown && !rows[i].packageKnown && rows[i].siblings == {}
  }

  lemma {:induction false} CoveringMeans(l: Layout, rows: seq<Row>, i: nat, kind: nat, n: nat)
    requires n <= |l.records|
    ensures forall k :: 0 <= k < |Covering(l, rows, i, kind, n)| ==> i in Covering(l, rows, i, kind, n)[k]
    decreases n
  {
    if n > 0 {
      CoveringMeans(l, rows, i, kind, n - 1);
    }
  }

  /** A record's member set is listed for every row in it: what covers i and contains j also covers j. */
  lemma {:induction false} CoveringShared(l: Layout, rows: seq<Row>, i: nat, j: nat, kind: nat, n: nat, bits: set<nat>)
    requires n <= |l.records| && bits in Covering(l, rows, i, kind, n) && j in bits
    ensures bits in Covering(l, rows, j, kind, n)
    decreases n
  {
    if n > 0 {
      var last := Members(l, rows, l.records[n - 1]);
      if bits in Covering(l, rows, i, kind, n - 1) {
        CoveringShared(l, rows, i, j, kind, n - 1, bits);
      }
    }
  }

  lemma SetsAgree(l: Layout, rows: seq<Row>, i: nat, j: nat)
    requires FromSets(rows) && i < |rows| && j < |rows|
    ensures i in Related(l, rows, i).siblings
    ensures j in Related(l, rows, i).siblings ==> Related(l, rows, j).siblings == Related(l, rows, i).siblings
  {
    hide Covering, FirstMember;
  }

  lemma MasksAgree(l: Layout, rows: seq<Row>, i: nat, j: nat)
    requires FromMasks(rows) && i < |rows| && j < |rows|
    requires Related(l, rows, i).coreKnown
    ensures i in Related(l, rows, i).siblings
    ensures j in Related(l, rows, i).siblings && Related(l, rows, j).coreKnown ==>
      Related(l, rows, j).siblings == Related(l, rows, i).siblings
  {
    hide Covering, FirstMember;
    CoveringMeans(l, rows, i, CORE, |l.records|);
    if j in Related(l, rows, i).siblings && Related(l, rows, j).coreKnown {
      CoveringShared(l, rows, i, j, CORE, |l.records|, Cores(l, rows, i)[0]);
    }
  }

  lemma RelatedGrouped(l: Layout, rows: seq<Row>)
    requires FromSets(rows) || FromMasks(rows)
    ensures Grouped(AllRelated(l, rows))
  {
    hide Related;
    var r := AllRelated(l, rows);
    forall i, j | 0 <= i < |r| && 0 <= j < |r| && r[i].coreKnown
      ensures i in r[i].siblings && (r[j].coreKnown && j in r[i].siblings ==> r[j].siblings == r[i].siblings) {
      if FromSets(rows) {
        SetsAgree(l, rows, i, j);
      } else {
        MasksAgree(l, rows, i, j);
      }
    }
  }

  /** Withdrawing contradicted relations leaves only coherent ones. */
  lemma SettledCoherent(rows: seq<Row>)
    requires Grouped(rows)
    ensures Coherent(AllSettled(rows))
  {
    var r := AllSettled(rows);
    forall i: nat ensures !Splits(r, i) {
      if i < |r| && r[i].coreKnown && r[i].packageKnown {
        assert i in rows[i].siblings && !Inconsistent(rows, i);
        assert Splits(rows, i) ==> Marks(rows, i, i);
        assert forall j: nat :: Clashes(r, i, j) ==> Clashes(rows, i, j);
      }
    }
  }

  // ---- The collector -----------------------------------------------------------------------------------------

  function Reconciled(l: Layout, rows: seq<Row>): (r: seq<Row>)
    ensures |r| == |rows|
  {
    AllSettled(AllRelated(l, rows))
  }

  predicate CoreCovers(record: Record, g: nat, n: nat) {
    record.kind == CORE && g < |record.masks| && n in record.masks[g]
  }

  predicate Covered(l: Layout, g: nat, n: nat) {
    exists r :: 0 <= r < |l.records| && CoreCovers(l.records[r], g, n)
  }

  /** The union of the core masks of a group. */
  function CoreMask(l: Layout, g: nat): Mask {
    set n | 0 <= n < 32 && Covered(l, g, n)
  }

  predicate Before(h: nat, m: nat, g: nat, n: nat) {
    h < g || (h == g && m < n)
  }

  predicate HasRow(rows: seq<Row>, g: nat, n: nat) {
    exists k :: 0 <= k < |rows| && rows[k].group == g && rows[k].index == n
  }

  /** The rows are, in order, the positions before (g, n) that some core mask covers. */
  ghost predicate SeededUpTo(l: Layout, rows: seq<Row>, g: nat, n: nat) {
    (forall k :: 0 <= k < |rows| ==> rows[k].index in CoreMask(l, rows[k].group) && Before(rows[k].group, rows[k].index, g, n))
    && (forall h: nat, m: nat :: m in CoreMask(l, h) && Before(h, m, g, n) ==> HasRow(rows, h, m))
    && (forall i, j :: 0 <= i < j < |rows| ==> FlatId(rows[i]) < FlatId(rows[j]))
  }

  /** Rows that stand for every position of the core masks, in order. */
  ghost predicate Seeded(l: Layout, rows: seq<Row>) {
    FromMasks(rows) && SeededUpTo(l, rows, |l.active|, 0)
  }

  lemma SeededMore(l: Layout, rows: seq<Row>, row: Row)
    requires SeededUpTo(l, rows, row.group, row.index) && row.index in CoreMask(l, row.group)
    ensures SeededUpTo(l, rows + [row], row.group, row.index + 1)
  {
    hide CoreMask;
    var more := rows + [row];
    assert more[|rows|] == row;
    forall h: nat, m: nat | m in CoreMask(l, h) && Before(h, m, row.group, row.index + 1) ensures HasRow(more, h, m) {
      if h != row.group || m != row.index {
        assert HasRow(rows, h, m);
        var k :| 0 <= k < |rows| && rows[k].group == h && rows[k].index == m;
        assert more[k] == rows[k];
      }
    }
  }

  lemma SeededSkip(l: Layout, rows: seq<Row>, g: nat, n: nat)
    requires SeededUpTo(l, rows, g, n) && n !in CoreMask(l, g)
    ensures SeededUpTo(l, rows, g, n + 1)
  {}

  lemma SeededGroup(l: Layout, rows: seq<Row>, g: nat)
    requires SeededUpTo(l, rows, g, 32)
    ensures SeededUpTo(l, rows, g + 1, 0)
  {}

  /** Rows nothing was related for: known cores without members, or nothing known. */
  lemma Unrelated(rows: seq<Row>)
    requires FromSets(rows) || rows == []
    ensures Coherent(rows) <==> rows == []
  {
    if rows != [] {
      assert rows[0].coreKnown && 0 !in rows[0].siblings;
    }
  }

  lemma RelatedPlace(l: Layout, rows: seq<Row>, i: nat)
    requires i < |rows|
    ensures var r := Related(l, rows, i);
      r.group == rows[i].group && r.index == rows[i].index && (rows[i].hasSet ==> r.core == rows[i].core)
  {}

  lemma SettledKept(rows: seq<Row>)
    requires !exists j :: 0 <= j < |rows| && Inconsistent(rows, j)
    ensures AllSettled(rows) == rows
  {}

  /** Rows may differ in what is known about them, but not in where they are; a CPU Set row keeps its core. */
  predicate SamePlaces(rows: seq<Row>, now: seq<Row>) {
    |rows| == |now|
    && (forall k :: 0 <= k < |rows| ==> now[k].group == rows[k].group && now[k].index == rows[k].index)
    && (forall k :: 0 <= k < |rows| && rows[k].hasSet ==> now[k].core == rows[k].core)
  }

  lemma PlacesMembers(l: Layout, rows: seq<Row>, now: seq<Row>, record: Record)
    requires SamePlaces(rows, now)
    ensures Members(l, now, record) == Members(l, rows, record)
  {
    assert (set i | 0 <= i < |now| && Contains(record, now[i])) == set i | 0 <= i < |rows| && Contains(record, rows[i]);
    assert forall g :: MaskSafe(l, now, g) <==> MaskSafe(l, rows, g);
  }

  lemma {:induction false} PlacesCover(l: Layout, rows: seq<Row>, now: seq<Row>, i: nat, kind: nat, n: nat)
    requires SamePlaces(rows, now) && n <= |l.records|
    ensures Covering(l, now, i, kind, n) == Covering(l, rows, i, kind, n)
    decreases n
  {
    if n > 0 {
      PlacesMembers(l, rows, now, l.records[n - 1]);
      PlacesCover(l, rows, now, i, kind, n - 1);
    }
  }

  lemma {:induction false} PlacesFirst(rows: seq<Row>, now: seq<Row>, bits: set<nat>, from: nat)
    requires SamePlaces(rows, now)
    ensures FirstMember(now, bits, from) == FirstMember(rows, bits, from)
    decreases |rows| - from
  {
    if from < |rows| {
      PlacesFirst(rows, now, bits, from + 1);
    }
  }

  lemma SetPlaces(rows: seq<Row>, now: seq<Row>, row: Row)
    requires SamePlaces(rows, now) && FromSets(rows)
    ensures SetSiblings(now, row) == SetSiblings(rows, row)
  {}

  lemma {:induction false} PopulationSnoc(masks: seq<Mask>, g: nat)
    requires g < |masks|
    ensures Population(masks[..g + 1]) == Population(masks[..g]) + |masks[g]|
    decreases g
  {
    if g > 0 {
      assert masks[..g + 1][1..] == masks[1..][..g] && masks[..g][1..] == masks[1..][..g - 1];
      PopulationSnoc(masks[1..], g - 1);
    }
  }

  class Capture {
    const layout: Layout
    var cpus: seq<Row>
    var partial: bool
    var stable: bool

    constructor (layout: Layout, cpus: seq<Row>, partial: bool, stable: bool)
      ensures this.layout == layout && this.cpus == cpus && this.partial == partial && this.stable == stable
    {
      this.layout, this.cpus, this.partial, this.stable := layout, cpus, partial, stable;
    }

    /** The member sets of one kind that cover row i; each record's members are worked out anew. */
    method Cover(i: nat, kind: nat) returns (count: nat, last: set<nat>)
      ensures var all := Covering(layout, cpus, i, kind, |layout.records|);
        count == |all| && (count > 0 ==> last == all[count - 1])
    {
      hide Members;
      count, last := 0, {};
      for r := 0 to |layout.records|
        invariant count == |Covering(layout, cpus, i, kind, r)|
        invariant count > 0 ==> last == Covering(layout, cpus, i, kind, r)[count - 1]
      {
        if layout.records[r].kind == kind {
          var bits := MembersOf(layout.records[r]);
          if i in bits { count, last := count + 1, bits; }
        }
      }
    }

    /** The rows of a record, counted against its masks. */
    method MembersOf(record: Record) returns (bits: set<nat>)
      ensures bits == Members(layout, cpus, record)
    {
      bits := {};
      var expected := 0;
      for g := 0 to |record.masks|
        invariant expected == Population(record.masks[..g])
        invariant forall k :: 0 <= k < g && record.masks[k] != {} ==> MaskSafe(layout, cpus, k)
      {
        PopulationSnoc(record.masks, g);
        if record.masks[g] != {} {
          if !MaskSafe(layout, cpus, g) { return {}; }
          expected := expected + |record.masks[g]|;
        }
      }
      assert record.masks[..|record.masks|] == record.masks;
      for i := 0 to |cpus|
        invariant bits == set k | 0 <= k < i && Contains(record, cpus[k])
      {
        if Contains(record, cpus[i]) { bits := bits + {i}; }
      }
      if |bits| != expected { bits := {}; }
    }

    method First(bits: set<nat>) returns (id: nat)
      ensures id == FirstMember(cpus, bits, 0)
    {
      for i := 0 to |cpus|
        invariant FirstMember(cpus, bits, 0) == FirstMember(cpus, bits, i)
      {
        if i in bits { return FlatId(cpus[i]); }
      }
      return 0;
    }

    /** One row against all records. Earlier rows have been changed already, but not where anything looks. */
    method RelateRow(i: nat, ghost rows: seq<Row>)
      requires i < |cpus| && SamePlaces(rows, cpus) && cpus[i] == rows[i] && (FromSets(rows) || FromMasks(rows))
      modifies this`cpus, this`partial
      ensures cpus == old(cpus)[i := Related(layout, rows, i)]
      ensures partial == (old(partial) || !cpus[i].coreKnown || !cpus[i].packageKnown || |Packages(layout, rows, i)| > 1
        || |Cores(layout, rows, i)| > 1)
    {
      hide Covering, FirstMember;
      PlacesCover(layout, rows, cpus, i, CORE, |layout.records|);
      PlacesCover(layout, rows, cpus, i, PACKAGE, |layout.records|);
      var row := cpus[i];
      var cores, core := Cover(i, CORE);
      var packages, package := Cover(i, PACKAGE);
      if row.hasSet {
        var siblings := row.siblings;
        for j := 0 to |cpus|
          invariant siblings == row.siblings + set k | 0 <= k < j && cpus[k].group == row.group && cpus[k].core == row.core
          invariant cpus == old(cpus) && partial == old(partial)
        {
          if cpus[j].group == row.group && cpus[j].core == row.core { siblings := siblings + {j}; }
        }
        SetPlaces(rows, cpus, row);
        row := row.(siblings := siblings);
        if cores > 1 || (cores == 1 && core != siblings) {
          row := row.(coreKnown := false);
          partial := true;
        }
      } else if cores == 1 {
        var id := First(core);
        PlacesFirst(rows, cpus, core, 0);
        row := row.(coreKnown := true, core := id, siblings := core);
      }
      if packages == 1 {
        var id := First(package);
        PlacesFirst(rows, cpus, package, 0);
        row := row.(packageKnown := true, package := id);
      }
      if !row.coreKnown || !row.packageKnown { partial := true; }
      if cores > 1 || packages > 1 { partial := true; }
      cpus := cpus[i := row];
    }

    /** Without CPU Sets the rows come from the core masks, if those account for every active processor. */
    method SeedFromMasks() returns (ok: bool)
      requires cpus == []
      modifies this`cpus
      ensures FromMasks(cpus) && (ok <==> cpus != [])
      ensures ok ==> SeededUpTo(layout, cpus, |layout.active|, 0) && |cpus| <= MAX_CPUS
      ensures ok ==> forall g :: 0 <= g < |layout.active| ==> |CoreMask(layout, g)| == layout.active[g] <= 32
    {
      for g := 0 to |layout.active|
        invariant cpus == [] && forall k :: 0 <= k < g ==> |CoreMask(layout, k)| == layout.active[k] <= 32
      {
        if !MaskSafe(layout, cpus, g) || |CoreMask(layout, g)| != layout.active[g] { return false; }
      }
      for g := 0 to |layout.active|
        invariant FromMasks(cpus) && SeededUpTo(layout, cpus, g, 0) && |cpus| <= MAX_CPUS
      {
        var mask := CoreMask(layout, g);
        hide CoreMask;
        for n := 0 to 32
          invariant FromMasks(cpus) && SeededUpTo(layout, cpus, g, n) && |cpus| <= MAX_CPUS
        {
          if n in mask {
            if |cpus| == MAX_CPUS {
              cpus := [];
              return false;
            }
            var row := Row(g, n, 0, false, false, false, 0, {});
            SeededMore(layout, cpus, row);
            cpus := cpus + [row];
          } else {
            SeededSkip(layout, cpus, g, n);
          }
        }
        SeededGroup(layout, cpus, g);
      }
      return cpus != [];
    }

    /** Marks the rows of every core that spans two packages, then withdraws what the marks contradict. */
    method Settle()
      modifies this`cpus, this`partial
      ensures cpus == AllSettled(old(cpus))
      ensures partial == (old(partial) || exists j :: 0 <= j < |old(cpus)| && Inconsistent(old(cpus), j))
    {
      var marked := seq(|cpus|, _ => false);
      for i := 0 to |cpus|
        invariant cpus == old(cpus) && partial == old(partial) && |marked| == |cpus|
        invariant forall j :: 0 <= j < |cpus| ==> (marked[j] <==> exists k :: 0 <= k < i && Marks(cpus, k, j))
      {
        if cpus[i].coreKnown && cpus[i].packageKnown {
          var split := false;
          for j := 0 to |cpus|
            invariant cpus == old(cpus) && partial == old(partial)
            invariant split <==> exists k :: 0 <= k < j && Clashes(cpus, i, k)
          {
            if j in cpus[i].siblings && cpus[j].packageKnown && cpus[j].package != cpus[i].package {
              assert Clashes(cpus, i, j);
              split := true;
            }
          }
          assert split <==> Splits(cpus, i);
          if split {
            var (siblings, prior) := (cpus[i].siblings, marked);
            marked := seq(|prior|, j requires 0 <= j < |prior| => prior[j] || j in siblings);
            assert forall j :: 0 <= j < |cpus| ==> (marked[j] <==> (prior[j] || Marks(cpus, i, j)));
          }
        }
      }
      Withdraw(marked);
    }

    method Withdraw(marked: seq<bool>)
      requires |marked| == |cpus| && forall j :: 0 <= j < |cpus| ==> (marked[j] <==> Inconsistent(cpus, j))
      modifies this`cpus, this`partial
      ensures cpus == AllSettled(old(cpus))
      ensures partial == (old(partial) || exists j :: 0 <= j < |old(cpus)| && Inconsistent(old(cpus), j))
    {
      hide Inconsistent;
      ghost var rows := cpus;
      for i := 0 to |cpus|
        invariant |cpus| == |rows|
        invariant forall k :: 0 <= k < i ==> cpus[k] == Settled(rows, k)
        invariant forall k :: i <= k < |rows| ==> cpus[k] == rows[k]
        invariant partial == (old(partial) || exists j :: 0 <= j < i && Inconsistent(rows, j))
      {
        if marked[i] {
          var row := cpus[i].(packageKnown := false);
          if !row.hasSet { row := row.(coreKnown := false); }
          cpus := cpus[i := row];
          partial := true;
        }
      }
    }

    /** Reconciles a stable observation. Afterwards the rows are coherent exactly if the observation was stable
        or had no CPU Set rows; and without the partial mark every core and package is known. */
    method Relate()
      requires if layout.setsValid then FromSets(cpus) else cpus == []
      modifies this`cpus, this`partial
      ensures !stable ==> cpus == old(cpus)
      ensures stable && layout.setsValid ==> cpus == Reconciled(layout, old(cpus))
      ensures stable && !layout.setsValid && cpus != [] ==>
        exists seeded :: Seeded(layout, seeded) && cpus == Reconciled(layout, seeded)
      ensures Coherent(cpus) <==> (stable || old(cpus) == [])
      ensures stable && !partial ==> forall i :: 0 <= i < |cpus| ==> cpus[i].coreKnown && cpus[i].packageKnown
    {
      hide Related, Settled, Inconsistent;
      if !stable {
        Unrelated(cpus);
        return;
      }
      if !layout.setsValid {
        if !layout.layoutValid {
          partial := true;
          Unrelated(cpus);
          return;
        }
        var seeded := SeedFromMasks();
        if !seeded {
          partial := true;
          Unrelated(cpus);
          return;
        }
      }
      ghost var rows := cpus;
      assert !layout.setsValid ==> Seeded(layout, rows);
      for i := 0 to |cpus|
        invariant |cpus| == |rows| && SamePlaces(rows, cpus)
        invariant forall k :: 0 <= k < i ==> cpus[k] == Related(layout, rows, k)
        invariant forall k :: i <= k < |rows| ==> cpus[k] == rows[k]
        invariant !partial ==> forall k :: 0 <= k < i ==> cpus[k].coreKnown && cpus[k].packageKnown
      {
        RelatedPlace(layout, rows, i);
        RelateRow(i, rows);
      }
      assert cpus == AllRelated(layout, rows);
      RelatedGrouped(layout, rows);
      SettledCoherent(cpus);
      ghost var related := cpus;
      Settle();
      assert cpus == Reconciled(layout, rows);
      if !partial { SettledKept(related); }
    }
  }

  /** One processor from a CPU Set, in an observation that did not repeat: reconciling leaves its row as it
      came, with a known core and no siblings. */
  method UnstableIncoherent() returns (before: seq<Row>, after: seq<Row>)
    ensures before != [] && FromSets(before) && after == before && !Coherent(after)
  {
    before := [Row(0, 0, 0, true, true, false, 0, {})];
    var capture := new Capture(Layout([1], [], true, false), before, false, false);
    capture.Relate();
    after := capture.cpus;
  }
}
