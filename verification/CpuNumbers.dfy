/** What the reconciled topology says, in terms of the masks and CPU Sets it came from: which rows share a core, which
    number a core or a package carries, and when either is known. */
module CpuNumbers {
  import opened CpuTopology

  /** Rows are at distinct places, ordered by group and index. */
  predicate Placed(rows: seq<Row>) {
    (forall i :: 0 <= i < |rows| ==> rows[i].index < 64)
    && forall i, j :: 0 <= i < j < |rows| ==> rows[i].group * 64 + rows[i].index < rows[j].group * 64 + rows[j].index
  }

  predicate Covers(record: Record, row: Row) {
    row.group < |record.masks| && row.index in record.masks[row.group]
  }

  predicate HasPlace(rows: seq<Row>, g: nat, n: nat) {
    exists i :: 0 <= i < |rows| && rows[i].group == g && rows[i].index == n
  }

  /** Groups 32-bit masks can describe: at most 32 active processors, and no CPU Set row beyond position 31. */
  predicate Describable(l: Layout, rows: seq<Row>, g: nat) {
    g < |l.active| && l.active[g] <= 32
    && (l.setsValid ==> forall i :: 0 <= i < |rows| && rows[i].group == g ==> rows[i].index <= 31)
  }

  /** Every position the record's masks cover is a row, in a group they can describe. */
  predicate Usable(l: Layout, rows: seq<Row>, record: Record) {
    forall g, n :: 0 <= g < |record.masks| && n in record.masks[g] ==> HasPlace(rows, g, n) && Describable(l, rows, g)
  }

  // ---- The members of a record -----------------------------------------------------------------------------------

  type Place = (nat, nat)

  ghost function Positions(masks: seq<Mask>, n: nat): set<Place>
    requires n <= |masks|
  {
    set g: nat, m: nat | g < n && m in masks[g] :: (g, m)
  }

  ghost function InGroup(g: nat, mask: Mask): set<Place> {
    set m: nat | m in mask :: (g, m)
  }

  lemma {:induction false} GroupSize(g: nat, mask: set<nat>)
    requires forall m :: m in mask ==> m < 32
    ensures |InGroup(g, mask)| == |mask|
    decreases |mask|
  {
    if mask != {} {
      var m :| m in mask;
      var rest := mask - {m};
      GroupSize(g, rest);
      assert InGroup(g, mask) == InGroup(g, rest) + {(g, m)};
    } else {
      assert InGroup(g, mask) == {};
    }
  }

  lemma {:induction false} PopulationCounts(masks: seq<Mask>, n: nat)
    requires n <= |masks|
    ensures |Positions(masks, n)| == Population(masks[..n])
    decreases n
  {
    if n > 0 {
      PopulationCounts(masks, n - 1);
      PopulationSnoc(masks, n - 1);
      GroupSize(n - 1, masks[n - 1]);
      var (front, last) := (Positions(masks, n - 1), InGroup(n - 1, masks[n - 1]));
      assert Positions(masks, n) == front + last && front !! last;
    } else {
      assert Positions(masks, 0) == {};
    }
  }

  ghost function PlacesOf(rows: seq<Row>, bits: set<nat>): set<Place>
    requires forall i :: i in bits ==> i < |rows|
  {
    set i | i in bits :: (rows[i].group, rows[i].index)
  }

  lemma {:induction false} PlacesSize(rows: seq<Row>, bits: set<nat>)
    requires Placed(rows) && forall i :: i in bits ==> i < |rows|
    ensures |PlacesOf(rows, bits)| == |bits|
    decreases |bits|
  {
    if bits != {} {
      var i :| i in bits;
      var rest := bits - {i};
      PlacesSize(rows, rest);
      assert PlacesOf(rows, bits) == PlacesOf(rows, rest) + {(rows[i].group, rows[i].index)};
      assert (rows[i].group, rows[i].index) !in PlacesOf(rows, rest);
    } else {
      assert PlacesOf(rows, bits) == {};
    }
  }

  lemma SameSize<T>(a: set<T>, b: set<T>)
    requires a <= b
    ensures |a| == |b| <==> a == b
  {
    assert b == a + (b - a);
  }

  /** A record's count matches exactly if every position it covers is a row. */
  lemma CountMatches(rows: seq<Row>, record: Record, bits: set<nat>)
    requires Placed(rows) && forall i :: i in bits <==> 0 <= i < |rows| && Covers(record, rows[i])
    ensures |bits| == Population(record.masks)
      <==> forall g, n :: 0 <= g < |record.masks| && n in record.masks[g] ==> HasPlace(rows, g, n)
  {
    var (places, all) := (PlacesOf(rows, bits), Positions(record.masks, |record.masks|));
    PlacesSize(rows, bits);
    PopulationCounts(record.masks, |record.masks|);
    assert record.masks[..|record.masks|] == record.masks;
    assert places <= all;
    SameSize(places, all);
    if places == all {
      forall g, n | 0 <= g < |record.masks| && n in record.masks[g] ensures HasPlace(rows, g, n) {
        assert (g, n) in all;
        var i :| i in bits && (rows[i].group, rows[i].index) == (g, n);
      }
    }
    if forall g, n :: 0 <= g < |record.masks| && n in record.masks[g] ==> HasPlace(rows, g, n) {
      forall p | p in all ensures p in places {
        assert HasPlace(rows, p.0, p.1);
        var i :| 0 <= i < |rows| && rows[i].group == p.0 && rows[i].index == p.1;
        assert i in bits;
      }
    }
  }

  lemma MembersMean(l: Layout, rows: seq<Row>, record: Record, i: nat)
    requires Placed(rows)
    ensures i in Members(l, rows, record) <==> i < |rows| && Usable(l, rows, record) && Covers(record, rows[i])
  {
    var bits := set k | 0 <= k < |rows| && Contains(record, rows[k]);
    CountMatches(rows, record, bits);
    if i in bits {
      assert (forall g :: 0 <= g < |record.masks| && record.masks[g] != {} ==> MaskSafe(l, rows, g)) <==>
        (forall g, n :: 0 <= g < |record.masks| && n in record.masks[g] ==> Describable(l, rows, g));
    }
  }

  // ---- The records that cover a row ------------------------------------------------------------------------------

  /** A usable record of the kind covers the row. */
  predicate Speaks(l: Layout, rows: seq<Row>, i: nat, kind: nat, r: nat) {
    r < |l.records| && i < |rows| && l.records[r].kind == kind && Usable(l, rows, l.records[r]) && Covers(l.records[r], rows[i])
  }

  predicate NoneSpeaks(l: Layout, rows: seq<Row>, i: nat, kind: nat, n: nat) {
    forall r: nat :: r < n ==> !Speaks(l, rows, i, kind, r)
  }

  predicate OneSpeaks(l: Layout, rows: seq<Row>, i: nat, kind: nat, n: nat, r: nat) {
    r < n && Speaks(l, rows, i, kind, r) && forall s: nat :: s < n && Speaks(l, rows, i, kind, s) ==> s == r
  }

  /** It is the only one. */
  predicate Alone(l: Layout, rows: seq<Row>, i: nat, kind: nat, r: nat) {
    OneSpeaks(l, rows, i, kind, |l.records|, r)
  }

  lemma CoveringNext(l: Layout, rows: seq<Row>, i: nat, kind: nat, n: nat)
    requires Placed(rows) && n < |l.records|
    ensures Covering(l, rows, i, kind, n + 1) == Covering(l, rows, i, kind, n)
      + if Speaks(l, rows, i, kind, n) then [Members(l, rows, l.records[n])] else []
  {
    hide Members, Usable, Covers;
    MembersMean(l, rows, l.records[n], i);
  }

  lemma {:induction false} CoveringNone(l: Layout, rows: seq<Row>, i: nat, kind: nat, n: nat)
    requires Placed(rows) && n <= |l.records|
    ensures Covering(l, rows, i, kind, n) == [] <==> NoneSpeaks(l, rows, i, kind, n)
    decreases n
  {
    hide Speaks, Members;
    if n > 0 {
      CoveringNone(l, rows, i, kind, n - 1);
      CoveringNext(l, rows, i, kind, n - 1);
    }
  }

  lemma {:induction false} CoveringOne(l: Layout, rows: seq<Row>, i: nat, kind: nat, n: nat, r: nat)
    requires Placed(rows) && n <= |l.records| && OneSpeaks(l, rows, i, kind, n, r)
    ensures Covering(l, rows, i, kind, n) == [Members(l, rows, l.records[r])]
    decreases n
  {
    hide Speaks, Members, Covering;
    CoveringNext(l, rows, i, kind, n - 1);
    if r == n - 1 {
      CoveringNone(l, rows, i, kind, n - 1);
    } else {
      CoveringOne(l, rows, i, kind, n - 1, r);
    }
  }

  lemma {:induction false} OneCovering(l: Layout, rows: seq<Row>, i: nat, kind: nat, n: nat) returns (r: nat)
    requires Placed(rows) && n <= |l.records| && |Covering(l, rows, i, kind, n)| == 1
    ensures OneSpeaks(l, rows, i, kind, n, r)
    decreases n
  {
    hide Speaks, Members;
    CoveringNext(l, rows, i, kind, n - 1);
    if Speaks(l, rows, i, kind, n - 1) {
      CoveringNone(l, rows, i, kind, n - 1);
      r := n - 1;
    } else {
      r := OneCovering(l, rows, i, kind, n - 1);
    }
  }

  /** The usable records of a kind over a row are none, one, or more. */
  lemma CoveringMean(l: Layout, rows: seq<Row>, i: nat, kind: nat)
    requires Placed(rows)
    ensures var c := Covering(l, rows, i, kind, |l.records|);
      (c == [] <==> NoneSpeaks(l, rows, i, kind, |l.records|))
      && (|c| == 1 <==> exists r: nat :: Alone(l, rows, i, kind, r))
      && (forall r: nat :: Alone(l, rows, i, kind, r) ==> c == [Members(l, rows, l.records[r])])
  {
    hide Covering, Members, Speaks;
    CoveringNone(l, rows, i, kind, |l.records|);
    if |Covering(l, rows, i, kind, |l.records|)| == 1 {
      var r := OneCovering(l, rows, i, kind, |l.records|);
      assert Alone(l, rows, i, kind, r);
    }
    forall r: nat | Alone(l, rows, i, kind, r)
      ensures Covering(l, rows, i, kind, |l.records|) == [Members(l, rows, l.records[r])]
    {
      CoveringOne(l, rows, i, kind, |l.records|, r);
    }
  }

  // ---- Numbers ------------------------------------------------------------------------------------------------------

  /** Row k is the first one the record covers. */
  predicate First(rows: seq<Row>, record: Record, k: nat) {
    k < |rows| && Covers(record, rows[k]) && forall j :: 0 <= j < k ==> !Covers(record, rows[j])
  }

  /** The one usable record of the kind that covers the row starts with the row of this number. */
  ghost predicate Numbered(l: Layout, rows: seq<Row>, i: nat, kind: nat, number: nat) {
    exists r: nat, k: nat :: Alone(l, rows, i, kind, r) && First(rows, l.records[r], k)
      && number == rows[k].group * 64 + rows[k].index
  }

  lemma {:induction false} FirstMemberIs(rows: seq<Row>, bits: set<nat>, from: nat, k: nat)
    requires from <= k < |rows| && k in bits && forall j :: from <= j < k ==> j !in bits
    ensures FirstMember(rows, bits, from) == rows[k].group * 64 + rows[k].index
    decreases k - from
  {
    if from < k { FirstMemberIs(rows, bits, from + 1, k); }
  }

  lemma LeastCovered(rows: seq<Row>, record: Record, i: nat) returns (k: nat)
    requires i < |rows| && Covers(record, rows[i])
    ensures First(rows, record, k)
  {
    k := 0;
    while !Covers(record, rows[k])
      invariant k <= i && forall j :: 0 <= j < k ==> !Covers(record, rows[j])
      decreases i - k
    {
      k := k + 1;
    }
  }

  lemma AloneNumbered(l: Layout, rows: seq<Row>, i: nat, kind: nat, r: nat)
    requires Placed(rows) && Alone(l, rows, i, kind, r)
    ensures Numbered(l, rows, i, kind, FirstMember(rows, Members(l, rows, l.records[r]), 0))
  {
    hide Members, Usable, Covers;
    var k := LeastCovered(rows, l.records[r], i);
    var bits := Members(l, rows, l.records[r]);
    forall j: nat ensures j in bits <==> j < |rows| && Covers(l.records[r], rows[j]) { MembersMean(l, rows, l.records[r], j); }
    FirstMemberIs(rows, bits, 0, k);
  }

  /** A row has one number of a kind at most, and none unless exactly one usable record of the kind covers it. */
  lemma NumberUnique(l: Layout, rows: seq<Row>, i: nat, kind: nat, m: nat, n: nat)
    requires Numbered(l, rows, i, kind, m) && Numbered(l, rows, i, kind, n)
    ensures m == n
  {
    hide Usable, Covers;
    var r: nat, k: nat :| Alone(l, rows, i, kind, r) && First(rows, l.records[r], k)
      && m == rows[k].group * 64 + rows[k].index;
    var s: nat, j: nat :| Alone(l, rows, i, kind, s) && First(rows, l.records[s], j)
      && n == rows[j].group * 64 + rows[j].index;
    assert r == s && !(j < k) && !(k < j);
  }

  // ---- Rows against the records -----------------------------------------------------------------------------------

  /** Row j shares the core of row i: by its CPU Set, or by the one core record that covers row i. */
  ghost predicate Shares(l: Layout, rows: seq<Row>, i: nat, j: nat) {
    i < |rows| && j < |rows|
    && if rows[i].hasSet then rows[j].group == rows[i].group && rows[j].core == rows[i].core
      else exists r: nat :: Alone(l, rows, i, 0, r) && Covers(l.records[r], rows[j])
  }

  /** The record covers exactly the rows that share the core. */
  ghost predicate Agrees(l: Layout, rows: seq<Row>, i: nat, r: nat)
    requires r < |l.records|
  {
    forall j: nat :: j < |rows| ==> (Covers(l.records[r], rows[j]) <==> Shares(l, rows, i, j))
  }

  /** Whether the core of a row is known before packages are looked at: a CPU Set's core unless core records contradict
      it, a mask's core if there is exactly one. */
  ghost predicate HasCore(l: Layout, rows: seq<Row>, i: nat) {
    i < |rows| && (
      (rows[i].hasSet && NoneSpeaks(l, rows, i, 0, |l.records|))
      || exists r: nat :: Alone(l, rows, i, 0, r) && (rows[i].hasSet ==> Agrees(l, rows, i, r)))
  }

  ghost predicate SameCore(rows: seq<Row>, i: nat, siblings: set<nat>)
    requires i < |rows|
  {
    forall j: nat :: j in siblings <==> j < |rows| && rows[j].group == rows[i].group && rows[j].core == rows[i].core
  }

  lemma AloneIs(l: Layout, rows: seq<Row>, i: nat, kind: nat, r: nat)
    requires Alone(l, rows, i, kind, r)
    ensures r < |l.records| && i < |rows| && Usable(l, rows, l.records[r]) && Covers(l.records[r], rows[i])
  {}

  lemma AloneUnique(l: Layout, rows: seq<Row>, i: nat, kind: nat, r: nat, s: nat)
    requires Alone(l, rows, i, kind, r) && Alone(l, rows, i, kind, s)
    ensures r == s
  {}

  lemma AloneMembers(l: Layout, rows: seq<Row>, i: nat, kind: nat, r: nat, j: nat)
    requires Placed(rows) && Alone(l, rows, i, kind, r)
    ensures r < |l.records| && (j in Members(l, rows, l.records[r]) <==> j < |rows| && Covers(l.records[r], rows[j]))
  {
    hide Members, Covers, Usable;
    MembersMean(l, rows, l.records[r], j);
  }

  lemma RelatedSet(l: Layout, rows: seq<Row>, i: nat)
    requires Placed(rows) && FromSets(rows) && i < |rows|
    ensures var row := Related(l, rows, i);
      SameCore(rows, i, row.siblings) && row.core == rows[i].core && (row.coreKnown <==> HasCore(l, rows, i))
  {
    hide Covering, Members, Alone, NoneSpeaks, FirstMember, Covers;
    CoveringMean(l, rows, i, 0);
    var (row, cores) := (Related(l, rows, i), Cores(l, rows, i));
    assert SameCore(rows, i, row.siblings);
    if r: nat :| Alone(l, rows, i, 0, r) {
      assert r < |l.records| by { AloneIs(l, rows, i, 0, r); }
      forall j: nat ensures j in cores[0] <==> j < |rows| && Covers(l.records[r], rows[j]) {
        AloneMembers(l, rows, i, 0, r, j);
      }
      assert cores[0] == row.siblings <==> Agrees(l, rows, i, r);
      forall s: nat | Alone(l, rows, i, 0, s) ensures s == r { AloneIs(l, rows, i, 0, s); AloneUnique(l, rows, i, 0, r, s); }
    }
  }

  lemma RelatedMask(l: Layout, rows: seq<Row>, i: nat)
    requires Placed(rows) && FromMasks(rows) && i < |rows|
    ensures var row := Related(l, rows, i);
      (row.coreKnown <==> HasCore(l, rows, i))
      && (row.coreKnown ==> Numbered(l, rows, i, 0, row.core))
      && forall j: nat :: j in row.siblings <==> row.coreKnown && Shares(l, rows, i, j)
  {
    hide Covering, Members, Alone, NoneSpeaks, FirstMember, Covers, Numbered;
    CoveringMean(l, rows, i, 0);
    var row := Related(l, rows, i);
    if r: nat :| Alone(l, rows, i, 0, r) {
      AloneNumbered(l, rows, i, 0, r);
      forall s: nat | Alone(l, rows, i, 0, s) ensures s == r { AloneUnique(l, rows, i, 0, r, s); }
      forall j: nat ensures r < |l.records| && (j in row.siblings <==> j < |rows| && Covers(l.records[r], rows[j])) {
        AloneMembers(l, rows, i, 0, r, j);
      }
    }
  }

  lemma RelatedPackage(l: Layout, rows: seq<Row>, i: nat)
    requires Placed(rows) && (FromSets(rows) || FromMasks(rows)) && i < |rows|
    ensures var row := Related(l, rows, i);
      (row.packageKnown <==> exists r: nat :: Alone(l, rows, i, 3, r))
      && (row.packageKnown ==> Numbered(l, rows, i, 3, row.package))
  {
    hide Covering, Members, Alone, NoneSpeaks, FirstMember, Covers, Numbered;
    CoveringMean(l, rows, i, 3);
    if r: nat :| Alone(l, rows, i, 3, r) { AloneNumbered(l, rows, i, 3, r); }
  }

  // ---- The reconciled rows ----------------------------------------------------------------------------------------

  /** Rows m and j share a core, and the package records number them differently. */
  ghost predicate Conflict(l: Layout, rows: seq<Row>, m: nat, j: nat) {
    Shares(l, rows, m, j) && exists p, q :: Numbered(l, rows, m, 3, p) && Numbered(l, rows, j, 3, q) && p != q
  }

  /** Row i is in some known core that spans two packages. */
  ghost predicate Contradicted(l: Layout, rows: seq<Row>, i: nat) {
    exists m: nat, j: nat :: HasCore(l, rows, m) && Shares(l, rows, m, i) && Conflict(l, rows, m, j)
  }

  /** What is known of a row before packages are compared. */
  ghost predicate Consulted(l: Layout, rows: seq<Row>, i: nat, row: Row) {
    (row.coreKnown <==> HasCore(l, rows, i))
    && (row.coreKnown ==> forall j: nat :: j in row.siblings <==> Shares(l, rows, i, j))
    && (row.coreKnown && !row.hasSet ==> Numbered(l, rows, i, 0, row.core))
    && (row.packageKnown <==> exists n :: Numbered(l, rows, i, 3, n))
    && (row.packageKnown ==> Numbered(l, rows, i, 3, row.package))
  }

  lemma NumberedAlone(l: Layout, rows: seq<Row>, i: nat, kind: nat)
    requires Placed(rows)
    ensures (exists n :: Numbered(l, rows, i, kind, n)) <==> exists r: nat :: Alone(l, rows, i, kind, r)
  {
    hide Alone, First;
    if r: nat :| Alone(l, rows, i, kind, r) { AloneNumbered(l, rows, i, kind, r); }
  }

  lemma SharesSet(l: Layout, rows: seq<Row>, i: nat, siblings: set<nat>)
    requires i < |rows| && rows[i].hasSet && SameCore(rows, i, siblings)
    ensures forall j: nat :: j in siblings <==> Shares(l, rows, i, j)
  {}

  lemma RelatedConsulted(l: Layout, rows: seq<Row>, i: nat)
    requires Placed(rows) && (FromSets(rows) || FromMasks(rows)) && i < |rows|
    ensures Consulted(l, rows, i, Related(l, rows, i)) && Related(l, rows, i).hasSet == rows[i].hasSet
    ensures rows[i].hasSet ==> Related(l, rows, i).core == rows[i].core
  {
    hide Alone, HasCore, Shares, Numbered, Covering, FirstMember, SameCore;
    NumberedAlone(l, rows, i, 3);
    RelatedPackage(l, rows, i);
    if FromSets(rows) {
      RelatedSet(l, rows, i);
      SharesSet(l, rows, i, Related(l, rows, i).siblings);
    } else {
      RelatedMask(l, rows, i);
    }
  }

  ghost predicate AllConsulted(l: Layout, rows: seq<Row>, now: seq<Row>) {
    |now| == |rows| && forall i: nat :: i < |rows| ==> Consulted(l, rows, i, now[i])
  }

  lemma SharesRow(l: Layout, rows: seq<Row>, i: nat, j: nat)
    requires Shares(l, rows, i, j)
    ensures i < |rows| && j < |rows|
  {}

  lemma ClashIsConflict(l: Layout, rows: seq<Row>, now: seq<Row>, m: nat, j: nat)
    requires AllConsulted(l, rows, now) && m < |rows| && now[m].coreKnown
    ensures now[m].packageKnown && Clashes(now, m, j) <==> Conflict(l, rows, m, j)
  {
    hide HasCore, Numbered, Shares;
    assert Consulted(l, rows, m, now[m]);
    if Conflict(l, rows, m, j) {
      SharesRow(l, rows, m, j);
      assert Consulted(l, rows, j, now[j]);
      var p, q :| Numbered(l, rows, m, 3, p) && Numbered(l, rows, j, 3, q) && p != q;
      NumberUnique(l, rows, m, 3, p, now[m].package);
      NumberUnique(l, rows, j, 3, q, now[j].package);
    }
    if now[m].packageKnown && Clashes(now, m, j) { assert Consulted(l, rows, j, now[j]); }
  }

  lemma ConflictShares(l: Layout, rows: seq<Row>, m: nat, j: nat)
    requires Conflict(l, rows, m, j)
    ensures Shares(l, rows, m, j)
  {}

  lemma InconsistentMeans(l: Layout, rows: seq<Row>, now: seq<Row>, i: nat)
    requires AllConsulted(l, rows, now)
    ensures Inconsistent(now, i) <==> Contradicted(l, rows, i)
  {
    hide HasCore, Numbered, Shares, Conflict, Clashes;
    if Inconsistent(now, i) {
      var m: nat :| m < |now| && Marks(now, m, i);
      assert Consulted(l, rows, m, now[m]);
      var j: nat :| j < |now| && Clashes(now, m, j);
      ClashIsConflict(l, rows, now, m, j);
    }
    if m: nat, j: nat :| HasCore(l, rows, m) && Shares(l, rows, m, i) && Conflict(l, rows, m, j) {
      SharesRow(l, rows, m, i);
      assert Shares(l, rows, m, j) by { ConflictShares(l, rows, m, j); }
      SharesRow(l, rows, m, j);
      assert Consulted(l, rows, m, now[m]);
      ClashIsConflict(l, rows, now, m, j);
      assert Splits(now, m);
      assert Marks(now, m, i);
    }
  }

  /** A reconciled row. Its package is known exactly if one usable package record covers it and its core does not span
      two packages, and its number is that of the record's first row. Its core is the CPU Set's unless core records
      contradict it, or else that of the one usable core record, again under the number of its first row. */
  lemma ReconciledMeans(l: Layout, rows: seq<Row>, i: nat)
    requires Placed(rows) && (FromSets(rows) || FromMasks(rows)) && i < |rows|
    ensures var row := Reconciled(l, rows)[i];
      (row.packageKnown <==> (exists r: nat :: Alone(l, rows, i, 3, r)) && !Contradicted(l, rows, i))
      && (row.packageKnown ==> Numbered(l, rows, i, 3, row.package))
      && (row.coreKnown <==> HasCore(l, rows, i) && (rows[i].hasSet || !Contradicted(l, rows, i)))
      && (row.coreKnown ==> forall j: nat :: j in row.siblings <==> Shares(l, rows, i, j))
      && (row.coreKnown ==> if rows[i].hasSet then row.core == rows[i].core else Numbered(l, rows, i, 0, row.core))
  {
    hide Alone, HasCore, Shares, Numbered, Related, Contradicted, Inconsistent;
    var now := AllRelated(l, rows);
    forall k: nat | k < |rows| ensures Consulted(l, rows, k, now[k]) && now[k].hasSet == rows[k].hasSet
      && (rows[k].hasSet ==> now[k].core == rows[k].core)
    {
      RelatedConsulted(l, rows, k);
    }
    InconsistentMeans(l, rows, now, i);
    NumberedAlone(l, rows, i, 3);
  }

  // ---- Equal numbers -------------------------------------------------------------------------------------------------

  lemma PlaceUnique(rows: seq<Row>, i: nat, j: nat)
    requires Placed(rows) && i < |rows| && j < |rows|
    ensures rows[i].group * 64 + rows[i].index == rows[j].group * 64 + rows[j].index <==> i == j
  {}

  lemma FirstUnique(rows: seq<Row>, record: Record, k: nat, p: nat)
    requires First(rows, record, k) && First(rows, record, p)
    ensures k == p
  {
    assert !(k < p) && !(p < k);
  }

  /** Two rows have the same number of a kind exactly if their records start with the same row; and if only one record
      of the kind covers that row, exactly if it is the same record. */
  lemma SameNumber(l: Layout, rows: seq<Row>, i: nat, j: nat, kind: nat, r: nat, s: nat, k: nat, m: nat, n: nat)
    requires Placed(rows) && Alone(l, rows, i, kind, r) && Alone(l, rows, j, kind, s) && First(rows, l.records[r], k)
    requires Numbered(l, rows, i, kind, m) && Numbered(l, rows, j, kind, n)
    ensures m == n <==> First(rows, l.records[s], k)
    ensures Alone(l, rows, k, kind, r) ==> (m == n <==> r == s)
  {
    hide Usable, Covers;
    var p := LeastCovered(rows, l.records[s], j);
    assert Numbered(l, rows, i, kind, rows[k].group * 64 + rows[k].index);
    assert Numbered(l, rows, j, kind, rows[p].group * 64 + rows[p].index);
    NumberUnique(l, rows, i, kind, m, rows[k].group * 64 + rows[k].index);
    NumberUnique(l, rows, j, kind, n, rows[p].group * 64 + rows[p].index);
    PlaceUnique(rows, k, p);
    if First(rows, l.records[s], k) {
      FirstUnique(rows, l.records[s], k, p);
      assert Speaks(l, rows, k, kind, s);
    }
  }

  /** With every package known, rows have the same package number exactly if the same usable package record covers
      both. */
  lemma PackagesTold(l: Layout, rows: seq<Row>, i: nat, j: nat)
    requires Placed(rows) && (FromSets(rows) || FromMasks(rows)) && i < |rows| && j < |rows|
    requires forall k: nat :: k < |rows| ==> Reconciled(l, rows)[k].packageKnown
    ensures Reconciled(l, rows)[i].package == Reconciled(l, rows)[j].package
      <==> exists r: nat :: Alone(l, rows, i, 3, r) && Alone(l, rows, j, 3, r)
  {
    hide Usable, Covers, Reconciled, Contradicted, HasCore, Shares, Numbered;
    ReconciledMeans(l, rows, i);
    ReconciledMeans(l, rows, j);
    var r: nat :| Alone(l, rows, i, 3, r);
    var s: nat :| Alone(l, rows, j, 3, s);
    var k := LeastCovered(rows, l.records[r], i);
    ReconciledMeans(l, rows, k);
    assert Speaks(l, rows, k, 3, r);
    SameNumber(l, rows, i, j, 3, r, s, k, Reconciled(l, rows)[i].package, Reconciled(l, rows)[j].package);
  }

  // ---- Two packages under one number ---------------------------------------------------------------------------------

  const SHARED: Layout := Layout([3], [Record(3, [{0, 2}]), Record(3, [{0, 3}])], true, true)
  const SHARED_ROWS: seq<Row> := [
    Row(0, 0, 0, true, true, false, 0, {}), Row(0, 2, 2, true, true, false, 0, {}), Row(0, 3, 3, true, true, false, 0, {})]

  lemma SharedUsable(r: nat)
    requires r < 2
    ensures Usable(SHARED, SHARED_ROWS, SHARED.records[r])
  {
    var rows := SHARED_ROWS;
    assert rows[0].index == 0 && rows[1].index == 2 && rows[2].index == 3;
    assert HasPlace(rows, 0, 0) && HasPlace(rows, 0, 2) && HasPlace(rows, 0, 3);
  }

  lemma SharedNumbers(i: nat)
    requires 1 <= i <= 2
    ensures Alone(SHARED, SHARED_ROWS, i, 3, i - 1) && Numbered(SHARED, SHARED_ROWS, i, 3, 0)
  {
    SharedUsable(0);
    SharedUsable(1);
    hide Usable;
    assert First(SHARED_ROWS, SHARED.records[i - 1], 0);
  }

  lemma SharedAgrees(i: nat)
    ensures !Contradicted(SHARED, SHARED_ROWS, i)
  {
    hide Numbered, HasCore;
    forall m: nat, j: nat ensures !Conflict(SHARED, SHARED_ROWS, m, j) {
      if Shares(SHARED, SHARED_ROWS, m, j) {
        assert m == j;
        forall p, q | Numbered(SHARED, SHARED_ROWS, m, 3, p) && Numbered(SHARED, SHARED_ROWS, m, 3, q) ensures p == q {
          NumberUnique(SHARED, SHARED_ROWS, m, 3, p, q);
        }
      }
    }
  }

  /** Two package records that share their first processor: it is in neither package, and the two others, each in one of
      them, come out under one package number. */
  method SharedNumber() returns (rows: seq<Row>)
    ensures |rows| == 3 && rows[1].packageKnown && rows[2].packageKnown && rows[1].package == rows[2].package
    ensures Alone(SHARED, SHARED_ROWS, 1, 3, 0) && Alone(SHARED, SHARED_ROWS, 2, 3, 1)
  {
    hide Alone, Numbered, Contradicted, HasCore, Shares, Reconciled;
    var capture := new Capture(SHARED, SHARED_ROWS, false, true);
    capture.Relate();
    rows := capture.cpus;
    assert Placed(SHARED_ROWS) && FromSets(SHARED_ROWS);
    SharedNumbers(1);
    SharedNumbers(2);
    SharedAgrees(1);
    SharedAgrees(2);
    ReconciledMeans(SHARED, SHARED_ROWS, 1);
    ReconciledMeans(SHARED, SHARED_ROWS, 2);
    NumberUnique(SHARED, SHARED_ROWS, 1, 3, rows[1].package, 0);
    NumberUnique(SHARED, SHARED_ROWS, 2, 3, rows[2].package, 0);
  }
}
