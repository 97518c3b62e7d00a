/** The isolated reader: bounded leaf capture on one processor, and the loop that builds the
    packet for every requested processor. The instruction's answers, the deadline and the
    affinity calls are arbitrary. */
module CpuidCapture {
  import opened Bytes
  import opened CpuidPacket

  predicate WordFlags(flags: u32) {
    flags < Pow2(8)
  }

  lemma FlagSet(flags: u32, k: nat)
    requires WordFlags(flags) && k < 8
    ensures SetBit(flags, k) < 0x1_0000_0000 && WordFlags(SetBit(flags, k))
    ensures Bit(SetBit(flags, k), k) && forall j: nat :: Bit(flags, j) ==> Bit(SetBit(flags, k), j)
  {
    SetBitFits(flags, k, 8);
    assert Pow2(8) == 256;
    SetBitSets(flags, k, k);
    forall j: nat | Bit(flags, j) ensures Bit(SetBit(flags, k), j) {
      SetBitSets(flags, k, j);
    }
  }

  /** A capture never changes which processor it is about, never drops a leaf and never clears a flag. */
  ghost predicate Kept(a: Captured, b: Captured) {
    b.cpu.id == a.cpu.id && b.cpu.group == a.cpu.group && b.cpu.index == a.cpu.index
    && a.leaves <= b.leaves && forall j: nat :: Bit(a.cpu.flags, j) ==> Bit(b.cpu.flags, j)
  }

  lemma KeptThrough(a: Captured, b: Captured, c: Captured)
    requires Kept(a, b) && Kept(b, c)
    ensures Kept(a, c) && (Bit(b.cpu.flags, CPUID) ==> Bit(c.cpu.flags, CPUID)) && |b.leaves| <= |c.leaves|
  {}

  lemma KeptFields(a: Captured, b: Captured, c: Captured)
    requires Kept(a, b) && c.leaves == b.leaves
    requires c.cpu == b.cpu.(status := c.cpu.status, maxBasic := c.cpu.maxBasic, maxExtended := c.cpu.maxExtended,
      xcr0Low := c.cpu.xcr0Low, xcr0High := c.cpu.xcr0High, signatureAfter := c.cpu.signatureAfter, apicAfter := c.cpu.apicAfter)
    ensures Kept(a, c)
  {}

  lemma KeptSame(a: Captured)
    ensures Kept(a, a)
  {}

  /** The entry that ends an enumeration: no cache, or an empty topology level. */
  predicate Terminates(l: Leaf, cache: bool) {
    if cache then l.eax % 32 == 0 else l.ebx % 0x1_0000 == 0 || (l.ecx / 256) % 256 == 0
  }

  /** The leaves one enumeration appended: consecutive subleaves, none but the last a terminator. */
  ghost predicate Enumerated(before: seq<Leaf>, after: seq<Leaf>, leaf: u32, cache: bool) {
    before <= after && |after| - |before| <= (if cache then 32 else 16)
    && (forall i :: |before| <= i < |after| ==> after[i].leaf == leaf && after[i].subleaf == i - |before|)
    && (forall i :: |before| <= i < |after| - 1 ==> !Terminates(after[i], cache))
  }

  lemma EnumeratedNone(before: seq<Leaf>, leaf: u32, cache: bool)
    ensures Enumerated(before, before, leaf, cache)
  {}

  lemma EnumeratedMore(before: seq<Leaf>, prior: seq<Leaf>, l: Leaf, cache: bool)
    requires Enumerated(before, prior, l.leaf, cache) && |prior| - |before| < (if cache then 32 else 16)
    requires |prior| > |before| ==> !Terminates(prior[|prior| - 1], cache)
    requires l.subleaf == |prior| - |before|
    ensures Enumerated(before, prior + [l], l.leaf, cache)
  {}

  // ---- A complete capture ------------------------------------------------------------------------------

  predicate Asks(l: Leaf, leaf: u32, sub: u32) {
    l.leaf == leaf && l.subleaf == sub
  }

  predicate Has(leaves: seq<Leaf>, leaf: u32, sub: u32) {
    exists i :: 0 <= i < |leaves| && Asks(leaves[i], leaf, sub)
  }

  ghost predicate SteppedFrom(leaves: seq<Leaf>, i: nat, j: nat, leaf: u32, cache: bool) {
    i < j <= |leaves| && Enumerated(leaves[..i], leaves[..j], leaf, cache) && Terminates(leaves[j - 1], cache)
  }

  /** An enumeration from subleaf 0 up to its terminator. */
  ghost predicate Stepped(leaves: seq<Leaf>, leaf: u32, cache: bool) {
    exists i: nat, j: nat :: SteppedFrom(leaves, i, j, leaf, cache)
  }

  const BASIC: seq<u32> := [2, 5, 6, 7, 0x15, 0x16, 0x1a]

  predicate SubleavesDone(leaves: seq<Leaf>, maximum: u32) {
    (maximum >= 1 ==> Has(leaves, 7, 1)) && (maximum >= 2 ==> Has(leaves, 7, 2))
  }

  /** The first n basic leaves are there, as far as the processor has them, leaf 7 with its subleaves. */
  ghost predicate BasicDone(leaves: seq<Leaf>, maxBasic: u32, n: nat)
    requires n <= |BASIC|
  {
    (forall k :: 0 <= k < n && maxBasic >= BASIC[k] ==> Has(leaves, BASIC[k], 0))
    && (n > 3 && maxBasic >= 7 ==> exists i :: 0 <= i < |leaves| && Asks(leaves[i], 7, 0) && SubleavesDone(leaves, leaves[i].eax))
  }

  /** The extended leaves below `next` are there, and `features` is what the first of them said. */
  ghost predicate ExtendedDone(leaves: seq<Leaf>, maxExtended: u32, next: u32, features: u32) {
    (forall leaf: u32 :: 0x8000_0001 <= leaf < next && leaf <= maxExtended ==> Has(leaves, leaf, 0))
    && if next > 0x8000_0001 && maxExtended >= 0x8000_0001
       then exists i :: 0 <= i < |leaves| && Asks(leaves[i], 0x8000_0001, 0) && leaves[i].ecx == features
       else features == 0
  }

  /** Extended state and hypervisor leaves, if the identification leaf announces them. */
  ghost predicate AnnouncedDone(leaves: seq<Leaf>, maxBasic: u32, first: Leaf) {
    (maxBasic >= 0xd && Bit(first.ecx, 26) ==> Has(leaves, 0xd, 0) && Has(leaves, 0xd, 1))
    && (Bit(first.ecx, 31) ==> Has(leaves, 0x4000_0000, 0))
  }

  function Vendor(l: Leaf): (u32, u32, u32) {
    (l.ebx, l.edx, l.ecx)
  }

  const GENUINE_INTEL := (0x756e6547, 0x49656e69, 0x6c65746e)
  const AUTHENTIC_AMD := (0x68747541, 0x69746e65, 0x444d4163)

  /** The topology and cache enumerations that vendor, limits and features call for. */
  ghost predicate TopologyDone(leaves: seq<Leaf>, vendor: (u32, u32, u32), maxBasic: u32, maxExtended: u32, features: u32) {
    (vendor == GENUINE_INTEL && maxBasic >= 4 ==> Stepped(leaves, 4, true))
    && (maxBasic >= 0xb ==> Stepped(leaves, 0xb, false))
    && (maxBasic >= 0x1f ==> Stepped(leaves, 0x1f, false))
    && (vendor == AUTHENTIC_AMD && Bit(features, 22) ==>
      (maxExtended >= 0x8000_001d ==> Stepped(leaves, 0x8000_001d, true))
      && (maxExtended >= 0x8000_001e ==> Has(leaves, 0x8000_001e, 0)))
    && (vendor == AUTHENTIC_AMD && maxExtended >= 0x8000_0026 ==> Stepped(leaves, 0x8000_0026, false))
  }

  /** The identification leaf, when there is one. */
  function Identification(leaves: seq<Leaf>, maxBasic: u32): Leaf {
    if maxBasic >= 1 && |leaves| > 2 then leaves[2] else Leaf(0, 0, 0, 0, 0, 0)
  }

  ghost predicate FeaturesDone(c: Captured, features: u32) {
    c.leaves != [] && ExtendedDone(c.leaves, c.cpu.maxExtended, 0x8000_0009, features)
    && TopologyDone(c.leaves, Vendor(c.leaves[0]), c.cpu.maxBasic, c.cpu.maxExtended, features)
  }

  /** Everything this processor was to be asked is in the record. */
  ghost predicate Complete(c: Captured) {
    |c.leaves| >= 2 && Asks(c.leaves[0], 0, 0) && Asks(c.leaves[1], 0x8000_0000, 0)
    && (c.cpu.maxBasic >= 1 ==> |c.leaves| > 2 && Asks(c.leaves[2], 1, 0))
    && BasicDone(c.leaves, c.cpu.maxBasic, |BASIC|)
    && AnnouncedDone(c.leaves, c.cpu.maxBasic, Identification(c.leaves, c.cpu.maxBasic))
    && exists features: u32 :: FeaturesDone(c, features)
  }

  /** Leaf 7 is at i, and the subleaves it announces are there. */
  predicate SeventhAt(leaves: seq<Leaf>, i: nat)
    requires i < |leaves|
  {
    Asks(leaves[i], 7, 0) && (leaves[i].eax >= 1 ==> Has(leaves, 7, 1)) && (leaves[i].eax >= 2 ==> Has(leaves, 7, 2))
  }

  /** A complete record has these leaves, as far as the processor's ranges go. */
  lemma CompleteLeaves(c: Captured, leaf: u32)
    requires Complete(c)
    ensures leaf in {0, 1, 2, 5, 6, 7, 0x15, 0x16, 0x1a} && leaf <= c.cpu.maxBasic ==> Has(c.leaves, leaf, 0)
    ensures 0x8000_0000 <= leaf <= 0x8000_0008 && (leaf == 0x8000_0000 || leaf <= c.cpu.maxExtended) ==> Has(c.leaves, leaf, 0)
    ensures c.cpu.maxBasic >= 7 ==> exists i :: 0 <= i < |c.leaves| && SeventhAt(c.leaves, i)
  {
    hide AnnouncedDone, TopologyDone, Bit;
    assert Asks(c.leaves[0], 0, 0) && Asks(c.leaves[1], 0x8000_0000, 0);
    if c.cpu.maxBasic >= 1 { assert Asks(c.leaves[2], 1, 0); }
    if leaf in {2, 5, 6, 7, 0x15, 0x16, 0x1a} {
      assert BASIC[0] == 2 && BASIC[1] == 5 && BASIC[2] == 6 && BASIC[3] == 7;
      assert BASIC[4] == 0x15 && BASIC[5] == 0x16 && BASIC[6] == 0x1a;
    }
    if c.cpu.maxBasic >= 7 {
      var i :| 0 <= i < |c.leaves| && Asks(c.leaves[i], 7, 0) && SubleavesDone(c.leaves, c.leaves[i].eax);
      assert SeventhAt(c.leaves, i);
    }
    var features: u32 :| FeaturesDone(c, features);
  }

  lemma HasMore(a: seq<Leaf>, b: seq<Leaf>)
    requires a <= b
    ensures forall leaf: u32, sub: u32 :: Has(a, leaf, sub) ==> Has(b, leaf, sub)
  {
    forall leaf: u32, sub: u32 | Has(a, leaf, sub) ensures Has(b, leaf, sub) {
      var i :| 0 <= i < |a| && Asks(a[i], leaf, sub);
      assert Asks(b[i], leaf, sub);
    }
  }

  lemma StepsMore(a: seq<Leaf>, b: seq<Leaf>)
    requires a <= b
    ensures forall leaf: u32, cache: bool :: Stepped(a, leaf, cache) ==> Stepped(b, leaf, cache)
  {
    forall leaf: u32, cache: bool | Stepped(a, leaf, cache) ensures Stepped(b, leaf, cache) {
      var i: nat, j: nat :| SteppedFrom(a, i, j, leaf, cache);
      assert a[..i] == b[..i] && a[..j] == b[..j];
      assert SteppedFrom(b, i, j, leaf, cache);
    }
  }

  lemma BasicMore(a: seq<Leaf>, b: seq<Leaf>, maxBasic: u32, n: nat)
    requires a <= b && n <= |BASIC| && BasicDone(a, maxBasic, n)
    ensures BasicDone(b, maxBasic, n)
  {
    HasMore(a, b);
    if n > 3 && maxBasic >= 7 {
      var i :| 0 <= i < |a| && Asks(a[i], 7, 0) && SubleavesDone(a, a[i].eax);
      assert Asks(b[i], 7, 0) && SubleavesDone(b, b[i].eax);
    }
  }

  lemma ExtendedMore(a: seq<Leaf>, b: seq<Leaf>, maxExtended: u32, next: u32, features: u32)
    requires a <= b && ExtendedDone(a, maxExtended, next, features)
    ensures ExtendedDone(b, maxExtended, next, features)
  {
    HasMore(a, b);
    if next > 0x8000_0001 && maxExtended >= 0x8000_0001 {
      var i :| 0 <= i < |a| && Asks(a[i], 0x8000_0001, 0) && a[i].ecx == features;
      assert Asks(b[i], 0x8000_0001, 0) && b[i].ecx == features;
    }
  }

  lemma NoBasic(leaves: seq<Leaf>, maxBasic: u32)
    ensures BasicDone(leaves, maxBasic, 0)
  {}

  /** Basic leaf i is there if the processor has it, with its subleaves if it is leaf 7. */
  ghost predicate BasicLeafDone(leaves: seq<Leaf>, i: nat)
    requires i < |BASIC|
  {
    Has(leaves, BASIC[i], 0)
    && (i == 3 ==> exists k :: 0 <= k < |leaves| && Asks(leaves[k], 7, 0) && SubleavesDone(leaves, leaves[k].eax))
  }

  lemma BasicLeafMet(leaves: seq<Leaf>, i: nat, k: nat)
    requires i < |BASIC| && k < |leaves| && Asks(leaves[k], BASIC[i], 0)
    requires BASIC[i] == 7 ==> SubleavesDone(leaves, leaves[k].eax)
    ensures BasicLeafDone(leaves, i)
  {}

  lemma BasicNext(a: seq<Leaf>, b: seq<Leaf>, maxBasic: u32, i: nat)
    requires a <= b && i < |BASIC| && BasicDone(a, maxBasic, i) && (maxBasic >= BASIC[i] ==> BasicLeafDone(b, i))
    ensures BasicDone(b, maxBasic, i + 1)
  {
    BasicMore(a, b, maxBasic, i);
  }

  lemma NoExtended(leaves: seq<Leaf>, maxExtended: u32)
    ensures ExtendedDone(leaves, maxExtended, 0x8000_0001, 0)
  {}

  lemma HasLast(leaves: seq<Leaf>, l: Leaf)
    ensures Has(leaves + [l], l.leaf, l.subleaf)
  {
    assert Asks((leaves + [l])[|leaves|], l.leaf, l.subleaf);
  }

  lemma ExtendedNext(a: seq<Leaf>, l: Leaf, maxExtended: u32, leaf: u32, known: u32, features: u32)
    requires ExtendedDone(a, maxExtended, leaf, known) && Asks(l, leaf, 0) && 0x8000_0001 <= leaf <= maxExtended
    requires leaf < 0x8000_0009 && features == if leaf == 0x8000_0001 then l.ecx else known
    ensures ExtendedDone(a + [l], maxExtended, leaf + 1, features)
  {
    HasLast(a, l);
    HasMore(a, a + [l]);
    ExtendedMore(a, a + [l], maxExtended, leaf, known);
    assert (a + [l])[|a|] == l;
  }

  lemma ExtendedRest(leaves: seq<Leaf>, maxExtended: u32, leaf: u32, features: u32)
    requires ExtendedDone(leaves, maxExtended, leaf, features) && maxExtended < leaf <= 0x8000_0009
    ensures ExtendedDone(leaves, maxExtended, 0x8000_0009, features)
  {}

  lemma EnumeratedPrefix(before: seq<Leaf>, after: seq<Leaf>, leaf: u32, cache: bool)
    requires Enumerated(before, after, leaf, cache)
    ensures before <= after
  {}

  lemma EnumeratedSteps(before: seq<Leaf>, after: seq<Leaf>, leaf: u32, cache: bool)
    requires Enumerated(before, after, leaf, cache) && |after| > |before| && Terminates(after[|after| - 1], cache)
    ensures before <= after && Stepped(after, leaf, cache)
  {
    assert after[..|before|] == before && after[..|after|] == after;
    assert SteppedFrom(after, |before|, |after|, leaf, cache);
  }

  /** The time a reader has: once it has passed it stays passed. */
  class Deadline {
    var passed: bool

    constructor ()
      ensures !passed
    {
      passed := false;
    }

    method Alive() returns (ok: bool)
      modifies this
      ensures ok <==> !passed
      ensures old(passed) ==> passed
    {
      var late: bool := *;
      passed := passed || late;
      ok := !passed;
    }
  }

  /** The leaves every capture starts with. */
  predicate Opened(leaves: seq<Leaf>, maxBasic: u32) {
    |leaves| >= 2 && Asks(leaves[0], 0, 0) && Asks(leaves[1], 0x8000_0000, 0)
    && (maxBasic >= 1 ==> |leaves| > 2 && Asks(leaves[2], 1, 0))
  }

  lemma StillOpened(a: seq<Leaf>, b: seq<Leaf>, maxBasic: u32)
    requires Opened(a, maxBasic) && a <= b
    ensures Opened(b, maxBasic) && Identification(b, maxBasic) == Identification(a, maxBasic) && b != []
  {}

  lemma AnnouncedMet(a: seq<Leaf>, b: seq<Leaf>, c: seq<Leaf>, maxBasic: u32, first: Leaf)
    requires a <= c && b <= c
    requires maxBasic >= 0xd && Bit(first.ecx, 26) ==> Has(a, 0xd, 0) && Has(a, 0xd, 1)
    requires Bit(first.ecx, 31) ==> Has(b, 0x4000_0000, 0)
    ensures AnnouncedDone(c, maxBasic, first)
  {
    HasMore(a, c);
    HasMore(b, c);
  }

  /** The parts of a snapshot make a complete record. */
  lemma WholeRecord(start: seq<Leaf>, basic: seq<Leaf>, extended: seq<Leaf>, c: Captured, features: u32)
    requires start <= c.leaves && basic <= c.leaves && extended <= c.leaves
    requires Opened(start, c.cpu.maxBasic) && BasicDone(basic, c.cpu.maxBasic, |BASIC|)
    requires AnnouncedDone(c.leaves, c.cpu.maxBasic, Identification(start, c.cpu.maxBasic))
    requires ExtendedDone(extended, c.cpu.maxExtended, 0x8000_0009, features)
    requires c.leaves != [] && TopologyDone(c.leaves, Vendor(c.leaves[0]), c.cpu.maxBasic, c.cpu.maxExtended, features)
    ensures Complete(c)
  {
    hide BasicDone, ExtendedDone, TopologyDone, AnnouncedDone;
    StillOpened(start, c.leaves, c.cpu.maxBasic);
    BasicMore(basic, c.leaves, c.cpu.maxBasic, |BASIC|);
    ExtendedMore(extended, c.leaves, c.cpu.maxExtended, 0x8000_0009, features);
    assert FeaturesDone(c, features);
  }

  lemma SameRecord(a: Captured, b: Captured)
    requires b.leaves == a.leaves && b.cpu.maxBasic == a.cpu.maxBasic && b.cpu.maxExtended == a.cpu.maxExtended
    ensures Complete(a) ==> Complete(b)
  {
    hide BasicDone, ExtendedDone, TopologyDone, AnnouncedDone;
    if Complete(a) {
      var features: u32 :| FeaturesDone(a, features);
      assert FeaturesDone(b, features);
    }
  }

  class Reader {
    var cpu: Cpu
    const leaves: array<Leaf>
    const deadline: Deadline

    ghost predicate Valid()
      reads this
    {
      leaves.Length == MAX_LEAVES && cpu.count <= MAX_LEAVES && WordFlags(cpu.flags)
    }

    ghost function View(): Captured
      reads this, leaves
      requires Valid()
    {
      Captured(cpu, leaves[..cpu.count])
    }

    lemma Looks()
      requires Valid()
      ensures View().cpu == cpu && |View().leaves| == cpu.count
    {}

    /** Something may be missing: the record says so, or time is up. */
    ghost predicate Cut()
      reads this, deadline
    {
      Bit(cpu.flags, TRUNCATED) || deadline.passed
    }

    constructor (t: Target, deadline: Deadline)
      ensures Valid() && fresh(leaves) && this.deadline == deadline
      ensures View() == Captured(Cpu(t.id, t.group, t.index, AFFINITY, 0, 0, 0, 0, 0, 0, 0, 0), [])
    {
      cpu := Cpu(t.id, t.group, t.index, AFFINITY, 0, 0, 0, 0, 0, 0, 0, 0);
      leaves := new Leaf[MAX_LEAVES](_ => Leaf(0, 0, 0, 0, 0, 0));
      this.deadline := deadline;
      assert Pow2(8) == 256;
    }

    function Result(): (c: Captured)
      requires Valid()
      reads this, leaves
      ensures c == View()
    {
      Captured(cpu, leaves[..cpu.count])
    }

    method SetStatus(status: u32, ghost from: Captured)
      requires Valid() && Kept(from, View())
      modifies this
      ensures Valid() && Kept(from, View()) && cpu == old(cpu).(status := status)
    {
      cpu := cpu.(status := status);
    }

    method SetFlag(k: nat, ghost from: Captured)
      requires Valid() && k < 8 && Kept(from, View())
      modifies this
      ensures Valid() && cpu == old(cpu).(flags := SetBit(old(cpu.flags), k)) && Bit(cpu.flags, k)
      ensures Kept(from, View()) && View().leaves == old(View()).leaves
      ensures old(Cut()) ==> Cut()
    {
      FlagSet(cpu.flags, k);
      cpu := cpu.(flags := SetBit(cpu.flags, k));
    }

    /** Executes the instruction once, if there is room and time left. */
    method Add(leaf: u32, sub: u32, ghost from: Captured) returns (ok: bool, value: Leaf)
      requires Valid() && Kept(from, View())
      modifies this, leaves, deadline
      ensures Valid() && Kept(from, View()) && Grown()
      ensures ok <==> cpu.count > old(cpu.count)
      ensures ok ==> cpu == old(cpu).(count := old(cpu.count) + 1) && View().leaves == old(View()).leaves + [value]
      ensures ok ==> value.leaf == leaf && value.subleaf == sub
      ensures !ok ==> View().leaves == old(View()).leaves && Cut()
      ensures !ok && old(cpu.count) < MAX_LEAVES ==> cpu == old(cpu) && deadline.passed
      ensures old(cpu.count) == MAX_LEAVES ==> cpu == old(cpu).(flags := SetBit(old(cpu.flags), TRUNCATED))
      ensures old(Cut()) ==> Cut()
      ensures Has(View().leaves, leaf, sub) || Cut()
      ensures old(deadline.passed) ==> deadline.passed
    {
      hide Bit, SetBit;
      ok, value := false, Leaf(leaf, sub, 0, 0, 0, 0);
      if cpu.count == MAX_LEAVES {
        SetFlag(TRUNCATED, from);
        return;
      }
      var alive := deadline.Alive();
      if !alive { return; }
      var eax: u32, ebx: u32, ecx: u32, edx: u32 := *, *, *, *;
      value := Leaf(leaf, sub, eax, ebx, ecx, edx);
      HasLast(leaves[..cpu.count], value);
      leaves[cpu.count] := value;
      cpu := cpu.(count := cpu.count + 1);
      ok := true;
      assert View().leaves == old(View()).leaves + [value];
    }

    /** A step of a snapshot adds leaves and may set flags; it leaves the rest alone. */
    twostate predicate Grown()
      requires old(Valid()) && Valid()
      reads this, leaves
    {
      cpu == old(cpu).(count := cpu.count, flags := cpu.flags) && cpu.count >= old(cpu.count)
      && old(View()).leaves <= View().leaves
    }

    /** Walks subleaves up to the first terminator; stopping anywhere else is recorded as truncation. */
    method Enumerate(leaf: u32, cache: bool, ghost from: Captured)
      requires Valid() && Kept(from, View())
      modifies this, leaves, deadline
      ensures Valid() && Kept(from, View()) && Grown()
      ensures Enumerated(old(View()).leaves, View().leaves, leaf, cache)
      ensures Bit(cpu.flags, TRUNCATED) || (cpu.count > old(cpu.count)
        && var l := leaves[cpu.count - 1];
          if cache then l.eax % 32 == 0 else l.ebx % 0x1_0000 == 0 || (l.ecx / 0x100) % 0x100 == 0)
      ensures Stepped(View().leaves, leaf, cache) || Cut()
      ensures old(Cut()) ==> Cut()
      ensures old(deadline.passed) ==> deadline.passed
    {
      hide Enumerated, Kept, Bit, SetBit;
      EnumeratedNone(View().leaves, leaf, cache);
      var bound: u32 := if cache then 32 else 16;
      var terminated := false;
      var sub: u32 := 0;
      ghost var start := View();
      while sub < bound && !terminated
        invariant 0 <= sub <= bound && Valid() && Kept(from, View()) && cpu.count == start.cpu.count + sub
        invariant cpu == start.cpu.(count := cpu.count, flags := cpu.flags)
        invariant Enumerated(start.leaves, View().leaves, leaf, cache)
        invariant terminated <==> (sub > 0 && Terminates(leaves[cpu.count - 1], cache))
        invariant old(Cut()) ==> Cut()
        invariant old(deadline.passed) ==> deadline.passed
        decreases bound - sub, !terminated
      {
        ghost var prior := View().leaves;
        var ok, value := Add(leaf, sub, from);
        if !ok { break; }
        EnumeratedMore(start.leaves, prior, value, cache);
        terminated := Terminates(value, cache);
        sub := sub + 1;
      }
      ghost var all := View().leaves;
      if !terminated {
        EnumeratedPrefix(start.leaves, all, leaf, cache);
        SetFlag(TRUNCATED, from);
      } else {
        EnumeratedSteps(start.leaves, all, leaf, cache);
      }
    }

    /** The basic leaves in ascending order, as far as the processor has them. */
    method AddBasic(ghost from: Captured)
      requires Valid() && Kept(from, View())
      modifies this, leaves, deadline
      ensures Valid() && Kept(from, View()) && Grown()
      ensures BasicDone(View().leaves, cpu.maxBasic, |BASIC|) || Cut()
      ensures old(Cut()) ==> Cut()
      ensures old(deadline.passed) ==> deadline.passed
    {
      hide Kept, Bit, SetBit, BasicDone, Has;
      NoBasic(View().leaves, cpu.maxBasic);
      for i := 0 to |BASIC|
        invariant Valid() && Kept(from, View())
        invariant Grown()
        invariant BasicDone(View().leaves, cpu.maxBasic, i) || Cut()
        invariant old(Cut()) ==> Cut()
        invariant old(deadline.passed) ==> deadline.passed
      {
        ghost var before := View().leaves;
        if cpu.maxBasic >= BASIC[i] {
          var ok := BasicLeaf(i, from);
          if !ok { break; }
        }
        if !Cut() { BasicNext(before, View().leaves, cpu.maxBasic, i); }
      }
    }

    /** One basic leaf; leaf 2 may announce more than it can say, leaf 7 has subleaves. */
    method BasicLeaf(i: nat, ghost from: Captured) returns (ok: bool)
      requires Valid() && Kept(from, View()) && i < |BASIC|
      modifies this, leaves, deadline
      ensures Valid() && Kept(from, View()) && Grown()
      ensures !ok ==> Cut()
      ensures BasicLeafDone(View().leaves, i) || Cut()
      ensures old(Cut()) ==> Cut()
      ensures old(deadline.passed) ==> deadline.passed
    {
      hide Kept, Bit, SetBit, Has;
      ghost var at := cpu.count;
      var l;
      ok, l := Add(BASIC[i], 0, from);
      if !ok { return; }
      ghost var seen := View().leaves;
      if BASIC[i] == 2 && l.eax % 256 > 1 {
        SetFlag(TRUNCATED, from);
      }
      if BASIC[i] == 7 {
        var sub: u32 := 1;
        while sub <= 2 && sub <= l.eax
          invariant 1 <= sub && Valid() && Kept(from, View()) && seen <= View().leaves
          invariant Grown()
          invariant Cut() || ((sub > 1 ==> Has(View().leaves, 7, 1)) && (sub > 2 ==> Has(View().leaves, 7, 2)))
          invariant old(Cut()) ==> Cut()
          invariant old(deadline.passed) ==> deadline.passed
        {
          ghost var prior := View().leaves;
          var _, _ := Add(7, sub, from);
          HasMore(prior, View().leaves);
          sub := sub + 1;
        }
      }
      HasMore(seen, View().leaves);
      assert View().leaves[at] == l;
      if !Cut() { BasicLeafMet(View().leaves, i, at); }
    }

    /** The extended leaves up to 0x80000008; returns ECX of 0x80000001. */
    method AddExtended(ghost from: Captured) returns (features: u32)
      requires Valid() && Kept(from, View())
      modifies this, leaves, deadline
      ensures Valid() && Kept(from, View()) && Grown()
      ensures ExtendedDone(View().leaves, cpu.maxExtended, 0x8000_0009, features) || Cut()
      ensures old(Cut()) ==> Cut()
      ensures old(deadline.passed) ==> deadline.passed
    {
      hide Kept, Bit, SetBit, ExtendedDone, Has;
      features := 0;
      var leaf: u32 := 0x8000_0001;
      NoExtended(View().leaves, cpu.maxExtended);
      while leaf <= 0x8000_0008 && leaf <= cpu.maxExtended
        invariant 0x8000_0001 <= leaf <= 0x8000_0009 && Valid() && Kept(from, View())
        invariant Grown()
        invariant ExtendedDone(View().leaves, cpu.maxExtended, leaf, features) || Cut()
        invariant old(Cut()) ==> Cut()
        invariant old(deadline.passed) ==> deadline.passed
      {
        ghost var before := View().leaves;
        ghost var known := features;
        var ok, value := Add(leaf, 0, from);
        if !ok { break; }
        if leaf == 0x8000_0001 { features := value.ecx; }
        if !Cut() { ExtendedNext(before, value, cpu.maxExtended, leaf, known, features); }
        leaf := leaf + 1;
      }
      if !Cut() && leaf > cpu.maxExtended { ExtendedRest(View().leaves, cpu.maxExtended, leaf, features); }
    }

    /** The topology and cache enumerations the vendor string and the limits call for. */
    method AddTopology(features: u32, ghost from: Captured)
      requires Valid() && Kept(from, View()) && cpu.count > 0
      modifies this, leaves, deadline
      ensures Valid() && Kept(from, View()) && Grown()
      ensures TopologyDone(View().leaves, Vendor(View().leaves[0]), cpu.maxBasic, cpu.maxExtended, features) || Cut()
      ensures old(Cut()) ==> Cut()
      ensures old(deadline.passed) ==> deadline.passed
    {
      hide Kept, Bit, SetBit, Stepped, Has, Enumerated, Cut, WordFlags;
      var name := Vendor(leaves[0]);
      assert leaves[0] == View().leaves[0];
      AddCommon(name, from);
      ghost var l1 := View().leaves;
      if name == AUTHENTIC_AMD && Bit(features, 22) { AddAmd(from); }
      ghost var l2 := View().leaves;
      if name == AUTHENTIC_AMD && cpu.maxExtended >= 0x8000_0026 { Enumerate(0x8000_0026, false, from); }
      ghost var end := View().leaves;
      assert end[0] == l1[0];
      StepsMore(l1, end);
      StepsMore(l2, end);
      HasMore(l2, end);
    }

    /** The enumerations that do not depend on features. */
    method AddCommon(name: (u32, u32, u32), ghost from: Captured)
      requires Valid() && Kept(from, View())
      modifies this, leaves, deadline
      ensures Valid() && Kept(from, View()) && Grown()
      ensures (name == GENUINE_INTEL && cpu.maxBasic >= 4 ==> Stepped(View().leaves, 4, true)) || Cut()
      ensures (cpu.maxBasic >= 0xb ==> Stepped(View().leaves, 0xb, false)) || Cut()
      ensures (cpu.maxBasic >= 0x1f ==> Stepped(View().leaves, 0x1f, false)) || Cut()
      ensures old(Cut()) ==> Cut()
      ensures old(deadline.passed) ==> deadline.passed
    {
      hide Kept, Bit, SetBit, Stepped, Has, Enumerated, Cut, WordFlags;
      if name == GENUINE_INTEL && cpu.maxBasic >= 4 { Enumerate(4, true, from); }
      ghost var l1 := View().leaves;
      if cpu.maxBasic >= 0xb { Enumerate(0xb, false, from); }
      ghost var l2 := View().leaves;
      if cpu.maxBasic >= 0x1f { Enumerate(0x1f, false, from); }
      StepsMore(l1, View().leaves);
      StepsMore(l2, View().leaves);
    }

    /** The two leaves of the older AMD topology extensions. */
    method AddAmd(ghost from: Captured)
      requires Valid() && Kept(from, View())
      modifies this, leaves, deadline
      ensures Valid() && Kept(from, View()) && Grown()
      ensures (cpu.maxExtended >= 0x8000_001d ==> Stepped(View().leaves, 0x8000_001d, true)) || Cut()
      ensures (cpu.maxExtended >= 0x8000_001e ==> Has(View().leaves, 0x8000_001e, 0)) || Cut()
      ensures old(Cut()) ==> Cut()
      ensures old(deadline.passed) ==> deadline.passed
    {
      hide Kept, Bit, SetBit, Stepped, Has, Enumerated, Cut, WordFlags;
      if cpu.maxExtended >= 0x8000_001d { Enumerate(0x8000_001d, true, from); }
      ghost var l := View().leaves;
      if cpu.maxExtended >= 0x8000_001e { var _, _ := Add(0x8000_001e, 0, from); }
      StepsMore(l, View().leaves);
    }

    /** The whole snapshot of one processor. A record that claims success carries the flag that the
        instruction exists, starts with the two range leaves, and is complete unless it or the clock says
        otherwise. */
    method Snapshot(ghost from: Captured)
      requires Valid() && Kept(from, View()) && cpu.count == 0
      modifies this, leaves, deadline
      ensures Valid() && Kept(from, View())
      ensures cpu.status in {OK, UNSUPPORTED, UNSTABLE, BAD_RANGE}
      ensures cpu.status == OK ==> Bit(cpu.flags, CPUID) && cpu.count >= 2 && cpu.maxBasic <= 0xffff
      ensures cpu.status == OK ==> Complete(View()) || Cut()
      ensures old(deadline.passed) ==> deadline.passed
    {
      hide Bit, SetBit, Kept, Complete;
      var maxBasic: u32, vendor: u32 := *, *;
      ghost var v := View();
      cpu := cpu.(maxBasic := maxBasic);
      KeptFields(from, v, View());
      if maxBasic == 0 && vendor == 0 {
        SetStatus(UNSUPPORTED, from);
        return;
      }
      SetFlag(CPUID, from);
      var ok := Ranges(from);
      if !ok { return; }
      var first := Leaf(0, 0, 0, 0, 0, 0);
      if maxBasic >= 1 {
        ok, first := Add(1, 0, from);
        if !ok {
          SetStatus(UNSTABLE, from);
          return;
        }
      }
      Rest(first, from);
    }

    /** The two leaves that say how far the others go. */
    method Ranges(ghost from: Captured) returns (ok: bool)
      requires Valid() && Kept(from, View()) && cpu.count == 0 && Bit(cpu.flags, CPUID)
      modifies this, leaves, deadline
      ensures Valid() && Kept(from, View()) && cpu.maxBasic == old(cpu.maxBasic) && Bit(cpu.flags, CPUID)
      ensures ok ==> cpu.maxBasic <= 0xffff && cpu.count == 2
      ensures ok ==> Asks(View().leaves[0], 0, 0) && Asks(View().leaves[1], 0x8000_0000, 0)
      ensures !ok ==> cpu.status in {UNSTABLE, BAD_RANGE}
      ensures old(deadline.passed) ==> deadline.passed
    {
      hide Bit, SetBit, Kept;
      var value;
      ok, value := Add(0, 0, from);
      if ok { ok, value := Add(0x8000_0000, 0, from); }
      if !ok {
        SetStatus(UNSTABLE, from);
        return;
      }
      ghost var v := View();
      cpu := cpu.(maxExtended := if value.eax < 0x8000_0000 then 0 else value.eax);
      KeptFields(from, v, View());
      if cpu.maxBasic > 0xffff || cpu.maxExtended > 0x8000_ffff {
        SetStatus(BAD_RANGE, from);
        ok := false;
      }
    }

    /** Everything after the range leaves and the first identification leaf. */
    method Rest(first: Leaf, ghost from: Captured)
      requires Valid() && Kept(from, View()) && Opened(View().leaves, cpu.maxBasic)
      requires first == Identification(View().leaves, cpu.maxBasic)
      modifies this, leaves, deadline
      ensures Valid() && Kept(from, View()) && cpu.count >= old(cpu.count)
      ensures cpu.status in {OK, UNSTABLE} && cpu.maxBasic == old(cpu.maxBasic)
      ensures Bit(old(cpu.flags), CPUID) ==> Bit(cpu.flags, CPUID)
      ensures Complete(View()) || Cut()
      ensures old(deadline.passed) ==> deadline.passed
    {
      hide Bit, SetBit, Kept, Complete, Opened, Identification;
      ghost var start := View();
      KeptSame(start);
      Leaves(first, start);
      ghost var done := View();
      Finish(first, start);
      KeptThrough(from, start, View());
      SameRecord(done, View());
    }

    /** All leaves behind the identification leaf. */
    method Leaves(first: Leaf, ghost from: Captured)
      requires Valid() && Kept(from, View()) && Opened(View().leaves, cpu.maxBasic)
      requires first == Identification(View().leaves, cpu.maxBasic)
      modifies this, leaves, deadline
      ensures Valid() && Kept(from, View()) && Grown()
      ensures Complete(View()) || Cut()
      ensures old(deadline.passed) ==> deadline.passed
    {
      hide Bit, SetBit, Kept, Complete, Opened, Identification, BasicDone, ExtendedDone, TopologyDone, AnnouncedDone;
      hide Has, Cut, WordFlags, View, Reader.Valid;
      ghost var l0 := View().leaves;
      var features := Early(first, from);
      ghost var l1 := View().leaves;
      if Bit(first.ecx, 31) { var _, _ := Add(0x4000_0000, 0, from); }
      ghost var l2 := View().leaves;
      StillOpened(l0, l2, cpu.maxBasic);
      Looks();
      AddTopology(features, from);
      Looks();
      if !Cut() {
        AnnouncedMet(l1, l2, View().leaves, cpu.maxBasic, first);
        WholeRecord(l0, l1, l1, View(), features);
      }
    }

    /** The leaves with fixed numbers; returns the features the first extended one announces. */
    method Early(first: Leaf, ghost from: Captured) returns (features: u32)
      requires Valid() && Kept(from, View())
      modifies this, leaves, deadline
      ensures Valid() && Kept(from, View()) && Grown()
      ensures Cut() || BasicDone(View().leaves, cpu.maxBasic, |BASIC|)
      ensures Cut() || ExtendedDone(View().leaves, cpu.maxExtended, 0x8000_0009, features)
      ensures Cut() || (cpu.maxBasic >= 0xd && Bit(first.ecx, 26) ==> Has(View().leaves, 0xd, 0) && Has(View().leaves, 0xd, 1))
      ensures old(Cut()) ==> Cut()
      ensures old(deadline.passed) ==> deadline.passed
    {
      hide Bit, SetBit, Kept, BasicDone, ExtendedDone, Has, Cut, WordFlags, View, Reader.Valid;
      AddBasic(from);
      ghost var l1 := View().leaves;
      if cpu.maxBasic >= 0xd && Bit(first.ecx, 26) { AddState(from); }
      ghost var l2 := View().leaves;
      features := AddExtended(from);
      HasMore(l2, View().leaves);
      if !Cut() { BasicMore(l1, View().leaves, cpu.maxBasic, |BASIC|); }
    }

    /** The two leaves about extended state. */
    method AddState(ghost from: Captured)
      requires Valid() && Kept(from, View())
      modifies this, leaves, deadline
      ensures Valid() && Kept(from, View()) && Grown()
      ensures (Has(View().leaves, 0xd, 0) && Has(View().leaves, 0xd, 1)) || Cut()
      ensures old(Cut()) ==> Cut()
      ensures old(deadline.passed) ==> deadline.passed
    {
      hide Kept, Bit, SetBit, Has, Cut;
      var _, _ := Add(0xd, 0, from);
      ghost var l := View().leaves;
      var _, _ := Add(0xd, 1, from);
      HasMore(l, View().leaves);
    }

    /** The register state and the second identification, which must match the first. */
    method Finish(first: Leaf, ghost from: Captured)
      requires Valid() && Kept(from, View())
      modifies this
      ensures Valid() && Kept(from, View())
      ensures cpu.status in {OK, UNSTABLE} && cpu.maxBasic == old(cpu.maxBasic) && cpu.count == old(cpu.count)
      ensures cpu.maxExtended == old(cpu.maxExtended) && View().leaves == old(View()).leaves
      ensures old(Cut()) ==> Cut()
    {
      hide Bit, SetBit, Kept;
      if Bit(first.ecx, 26) && Bit(first.ecx, 27) {
        var low: u32, high: u32 := *, *;
        ghost var v := View();
        cpu := cpu.(xcr0Low := low, xcr0High := high);
        KeptFields(from, v, View());
        SetFlag(XCR0, from);
      }
      var eax: u32, ebx: u32 := *, *;
      if cpu.maxBasic < 1 { eax, ebx := 0, 0; }
      var changed := cpu.maxBasic >= 1 && (eax != first.eax || ebx / 0x100_0000 != first.ebx / 0x100_0000);
      ghost var v := View();
      cpu := cpu.(signatureAfter := eax, apicAfter := ebx / 0x100_0000, status := if changed then UNSTABLE else OK);
      KeptFields(from, v, View());
    }
  }

  /** A processor that was read is read completely, or its record is marked, or time is up. */
  ghost predicate Believable(c: Captured, passed: bool) {
    c.cpu.status == OK ==> Complete(c) || Bit(c.cpu.flags, TRUNCATED) || passed
  }

  lemma StillBelievable(a: Captured, b: Captured, before: bool, after: bool)
    requires Believable(a, before) && Kept(a, b) && (before ==> after) && b.leaves == a.leaves
    requires b.cpu.maxBasic == a.cpu.maxBasic && b.cpu.maxExtended == a.cpu.maxExtended
    requires b.cpu.status == OK ==> a.cpu.status == OK
    ensures Believable(b, after)
  {
    hide Bit, Complete;
    SameRecord(a, b);
  }

  /** What the helper program was given by its operating system. */
  datatype Host = Host(pointerBits: nat, setGroup: bool, currentProcessor: bool)

  /** The snapshot, and what the system says about the processor's features. */
  method Read(r: Reader, ghost start: Captured)
    requires r.Valid() && Kept(start, r.View()) && r.cpu.count == 0
    modifies r, r.leaves, r.deadline
    ensures r.Valid() && Kept(start, r.View())
    ensures r.cpu.status in {OK, UNSUPPORTED, UNSTABLE, BAD_RANGE}
    ensures r.cpu.status == OK ==> Bit(r.cpu.flags, CPUID) && r.cpu.count >= 2 && r.cpu.maxBasic <= 0xffff
    ensures Believable(r.View(), r.deadline.passed)
    ensures old(r.deadline.passed) ==> r.deadline.passed
  {
    hide Bit, SetBit, Kept, Complete;
    r.Snapshot(start);
    ghost var taken := r.View();
    KeptSame(taken);
    var xmm: bool, sse2: bool := *, *;
    if xmm { r.SetFlag(XMM, taken); }
    if sse2 { r.SetFlag(SSE2, taken); }
    KeptThrough(start, taken, r.View());
    StillBelievable(taken, r.View(), r.deadline.passed, r.deadline.passed);
  }

  lemma KeptTarget(a: Captured, b: Captured)
    requires Kept(a, b)
    ensures b.cpu.id == a.cpu.id && b.cpu.group == a.cpu.group && b.cpu.index == a.cpu.index
  {}

  /** One processor: pin, check, capture, check again, unpin. Whatever the system answers, the record
      is one the parent believes. */
  method Capture(t: Target, host: Host, deadline: Deadline) returns (c: Captured)
    modifies deadline
    ensures GoodCpu(c, t) && Believable(c, deadline.passed)
    ensures old(deadline.passed) ==> deadline.passed
  {
    hide Bit, SetBit, Kept, Complete;
    assert Pow2(8) == 256;
    var r := new Reader(t, deadline);
    ghost var start := r.View();
    KeptSame(start);
    if t.index >= host.pointerBits || (!host.setGroup && t.group != 0) {
      return r.Result();
    }
    var pinned: bool := *;
    if !pinned {
      return r.Result();
    }
    if host.setGroup { r.SetFlag(GROUP_PIN, start); }
    if host.currentProcessor { r.SetFlag(OS_ID, start); }
    var onTarget: bool := *;
    if !onTarget {
      r.SetStatus(WRONG_CPU, start);
    } else {
      Read(r, start);
      onTarget := *;
      if r.cpu.status == OK && !onTarget { r.SetStatus(UNSTABLE, start); }
    }
    ghost var taken := r.View();
    KeptSame(taken);
    var restored: bool := *;
    if restored {
      r.SetFlag(RESTORED, taken);
    } else {
      r.SetStatus(RESTORE, taken);
    }
    KeptThrough(start, taken, r.View());
    StillBelievable(taken, r.View(), deadline.passed, deadline.passed);
    KeptTarget(start, r.View());
    return r.Result();
  }

  method Put(data: array<byte>, at: nat, s: seq<byte>)
    requires at + |s| <= data.Length
    modifies data
    ensures data[..] == old(data[..at]) + s + old(data[at + |s|..])
  {
    for i := 0 to |s|
      invariant data[..] == old(data[..at]) + s[..i] + old(data[at + i..])
    {
      data[at + i] := s[i];
    }
  }

  /** What a write leaves where it was. */
  lemma Spliced(was: seq<byte>, now: seq<byte>, at: nat, s: seq<byte>)
    requires at + |s| <= |was| && now == was[..at] + s + was[at + |s|..]
    ensures |now| == |was| && now[at..at + |s|] == s
    ensures forall lo: nat :: lo <= at ==> now[lo..at + |s|] == was[lo..at] + s
    ensures forall lo: nat, hi: nat :: at + |s| <= lo <= hi <= |was| ==> now[lo..hi] == was[lo..hi]
  {}

  lemma StillBelieved(c: Captured, before: bool, after: bool)
    requires Believable(c, before) && (before ==> after)
    ensures Believable(c, after)
  {}

  lemma OnTime(c: Captured, passed: bool)
    requires Believable(c, passed) && !passed && c.cpu.status == OK
    ensures Complete(c) || Bit(c.cpu.flags, TRUNCATED)
  {}

  lemma Sizes(c: Captured, t: Target)
    requires GoodCpu(c, t)
    ensures c.cpu.count == |c.leaves| <= MAX_LEAVES && |CapturedBytes(c)| == 48 + 24 * c.cpu.count
  {}

  /** The helper's main loop: every message it sends fits the limit and answers exactly the targets it was
      asked about with exactly what it captured, and whoever is read without a mark is read completely. It
      sends none only if time is up or its output is closed. */
  method Build(targets: seq<Target>, host: Host, bits: u32, deadline: Deadline, open: bool)
    returns (sent: Option<seq<byte>>, captured: seq<Captured>)
    requires |targets| <= MAX_CPUS
    modifies deadline
    ensures sent.Some? ==> |sent.value| <= MAX_BYTES && Answers(sent.value, captured, targets, bits)
    ensures sent.Some? ==> forall c :: c in captured && c.cpu.status == OK ==> Complete(c) || Bit(c.cpu.flags, TRUNCATED)
    ensures sent.None? <==> deadline.passed || !open
  {
    hide Body, CapturedBytes, GoodCpu, Fnv, Words, Partial, Believable;
    sent, captured := None, [];
    var data := new byte[MAX_BYTES](_ => 0);
    var offset, partial := 32, false;
    EmptyBody(data[..]);
    for i := 0 to |targets|
      invariant |captured| == i && forall j :: 0 <= j < i ==> GoodCpu(captured[j], targets[j])
      invariant offset <= 32 + i * (48 + 24 * MAX_LEAVES)
      invariant 32 <= offset <= MAX_BYTES && data[..][32..offset] == Body(captured)
      invariant partial == AnyPartial(captured)
      invariant forall c :: c in captured ==> Believable(c, deadline.passed)
    {
      ghost var late := deadline.passed;
      var alive := deadline.Alive();
      if !alive { return; }
      if offset > MAX_BYTES - 48 - 24 * MAX_LEAVES {
        assert false;
      }
      var c := Capture(targets[i], host, deadline);
      forall d | d in captured ensures Believable(d, deadline.passed) {
        StillBelieved(d, late, deadline.passed);
      }
      Sizes(c, targets[i]);
      BodySnoc(captured, c);
      MorePartial(captured, c);
      ghost var was := data[..];
      Put(data, offset, CapturedBytes(c));
      Spliced(was, data[..], offset, CapturedBytes(c));
      var next := offset + 48 + 24 * c.cpu.count;
      partial := partial || Partial(c);
      captured := captured + [c];
      offset := next;
    }
    ghost var was := data[..];
    var hash := Checksum(data[..offset], 32);
    assert data[..offset][32..] == was[32..offset];
    var header := Words(HeaderWords(offset, |captured|, bits, partial, hash));
    Put(data, 0, header);
    Spliced(was, data[..], 0, header);
    ghost var late := deadline.passed;
    var alive := deadline.Alive();
    if !alive || !open { return; }
    forall c | c in captured && c.cpu.status == OK ensures Complete(c) || Bit(c.cpu.flags, TRUNCATED) {
      OnTime(c, late);
    }
    sent := Some(data[..offset]);
    assert data[..offset] == data[..][0..32] + data[..][32..offset];
    assert sent.value == Packet(captured, bits);
  }
}
