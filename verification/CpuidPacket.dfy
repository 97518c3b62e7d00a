/** The packet an isolated CPUID reader sends to the monitor: its layout, what the parent
    accepts, and how the reader captures processors and builds it. */
module CpuidPacket {
  import opened Bytes

  const MAX_CPUS: nat := 512
  const MAX_LEAVES: nat := 96
  const MAX_BYTES: nat := 2 * 1024 * 1024
  const MAGIC: u32 := 0x50435457
  const VERSION: u32 := 1

  // Bit numbers of a processor record's flags.
  const XCR0: nat := 0
  const XMM: nat := 1
  const SSE2: nat := 2
  const OS_ID: nat := 3
  const RESTORED: nat := 4
  const TRUNCATED: nat := 5
  const GROUP_PIN: nat := 6
  const CPUID: nat := 7

  const OK: u32 := 0
  const AFFINITY: u32 := 1
  const UNSUPPORTED: u32 := 2
  const WRONG_CPU: u32 := 3
  const RESTORE: u32 := 4
  const UNSTABLE: u32 := 5
  const BAD_RANGE: u32 := 6

  datatype Target = Target(id: u32, group: u16, index: u16)
  datatype Leaf = Leaf(leaf: u32, subleaf: u32, eax: u32, ebx: u32, ecx: u32, edx: u32)
  datatype Cpu = Cpu(id: u32, group: u32, index: u32, status: u32, count: u32, maxBasic: u32, maxExtended: u32,
    flags: u32, xcr0Low: u32, xcr0High: u32, signatureAfter: u32, apicAfter: u32)
  datatype Captured = Captured(cpu: Cpu, leaves: seq<Leaf>)

  // ---- Layout ----------------------------------------------------------------------------------------

  function Words(ws: seq<u32>): (s: seq<byte>)
    ensures |s| == 4 * |ws|
  {
    if ws == [] then [] else ToLE(ws[0], 4) + Words(ws[1..])
  }

  function ReadWords(data: seq<byte>, p: nat, n: nat): (ws: seq<u32>)
    requires p + 4 * n <= |data|
    ensures |ws| == n
    decreases n
  {
    if n == 0 then [] else [U32(data[p..p + 4])] + ReadWords(data, p + 4, n - 1)
  }

  lemma {:induction false} WordsRead(data: seq<byte>, p: nat, n: nat)
    requires p + 4 * n <= |data|
    ensures Words(ReadWords(data, p, n)) == data[p..p + 4 * n]
    decreases n
  {
    if n > 0 {
      var ws := ReadWords(data, p, n);
      assert ws[1..] == ReadWords(data, p + 4, n - 1);
      WordsRead(data, p + 4, n - 1);
      ToFromLE(data[p..p + 4]);
      assert data[p..p + 4 * n] == data[p..p + 4] + data[p + 4..p + 4 * n];
    }
  }

  lemma {:induction false} ReadWritten(data: seq<byte>, p: nat, ws: seq<u32>)
    requires p + 4 * |ws| <= |data| && data[p..p + 4 * |ws|] == Words(ws)
    ensures ReadWords(data, p, |ws|) == ws
    decreases |ws|
  {
    if ws != [] {
      Located(data, p, ToLE(ws[0], 4), Words(ws[1..]));
      Widths();
      FromToLE(ws[0], 4);
      ReadWritten(data, p + 4, ws[1..]);
    }
  }

  function LeafWords(l: Leaf): (ws: seq<u32>)
    ensures |ws| == 6
  {
    [l.leaf, l.subleaf, l.eax, l.ebx, l.ecx, l.edx]
  }

  function LeafOf(ws: seq<u32>): Leaf
    requires |ws| == 6
  {
    Leaf(ws[0], ws[1], ws[2], ws[3], ws[4], ws[5])
  }

  function CpuWords(c: Cpu): (ws: seq<u32>)
    ensures |ws| == 12
  {
    [c.id, c.group, c.index, c.status, c.count, c.maxBasic, c.maxExtended, c.flags,
      c.xcr0Low, c.xcr0High, c.signatureAfter, c.apicAfter]
  }

  function CpuOf(ws: seq<u32>): Cpu
    requires |ws| == 12
  {
    Cpu(ws[0], ws[1], ws[2], ws[3], ws[4], ws[5], ws[6], ws[7], ws[8], ws[9], ws[10], ws[11])
  }

  function LeavesBytes(ls: seq<Leaf>): (s: seq<byte>)
    ensures |s| == 24 * |ls|
  {
    if ls == [] then [] else Words(LeafWords(ls[0])) + LeavesBytes(ls[1..])
  }

  function CapturedBytes(c: Captured): (s: seq<byte>)
    ensures |s| == 48 + 24 * |c.leaves|
  {
    Words(CpuWords(c.cpu)) + LeavesBytes(c.leaves)
  }

  function Body(cs: seq<Captured>): seq<byte> {
    if cs == [] then [] else CapturedBytes(cs[0]) + Body(cs[1..])
  }

  predicate Partial(c: Captured) {
    c.cpu.status != OK || Bit(c.cpu.flags, TRUNCATED)
  }

  predicate AnyPartial(cs: seq<Captured>) {
    exists i :: 0 <= i < |cs| && Partial(cs[i])
  }

  /** The whole message for a list of captured processors. */
  function Packet(cs: seq<Captured>, bits: u32): (s: seq<byte>)
    requires |cs| < 0x1_0000_0000 && |Body(cs)| <= MAX_BYTES
    ensures |s| == 32 + |Body(cs)|
  {
    var body := Body(cs);
    Words([MAGIC, VERSION, 32 + |body|, |cs|, bits, if AnyPartial(cs) then 1 else 0, Fnv(body), 0]) + body
  }

  /** What a record must say to be believed for a target. */
  predicate GoodCpu(c: Captured, t: Target) {
    c.cpu.id == t.id && c.cpu.group == t.group && c.cpu.index == t.index
    && c.cpu.count == |c.leaves| <= MAX_LEAVES
    && c.cpu.status <= BAD_RANGE && c.cpu.flags <= 255
    && (c.cpu.status == OK ==> Bit(c.cpu.flags, CPUID) && Bit(c.cpu.flags, RESTORED))
  }

  predicate GoodCpus(cs: seq<Captured>, targets: seq<Target>) {
    |cs| == |targets| && forall i :: 0 <= i < |cs| ==> GoodCpu(cs[i], targets[i])
  }

  /** The messages that answer exactly these targets. */
  ghost predicate Answers(data: seq<byte>, cs: seq<Captured>, targets: seq<Target>, bits: u32) {
    |cs| < 0x1_0000_0000 && |Body(cs)| <= MAX_BYTES && GoodCpus(cs, targets) && data == Packet(cs, bits)
  }

  // ---- Reading a record back ----------------------------------------------------------------------------

  function ReadLeaves(data: seq<byte>, p: nat, n: nat): (ls: seq<Leaf>)
    requires p + 24 * n <= |data|
    ensures |ls| == n
    decreases n
  {
    if n == 0 then [] else [LeafOf(ReadWords(data, p, 6))] + ReadLeaves(data, p + 24, n - 1)
  }

  function ReadCpu(data: seq<byte>, p: nat): Cpu
    requires p + 48 <= |data|
  {
    CpuOf(ReadWords(data, p, 12))
  }

  lemma {:induction false} LeavesRead(data: seq<byte>, p: nat, n: nat)
    requires p + 24 * n <= |data|
    ensures LeavesBytes(ReadLeaves(data, p, n)) == data[p..p + 24 * n]
    decreases n
  {
    hide Words, ReadWords;
    if n > 0 {
      var ls := ReadLeaves(data, p, n);
      assert ls[1..] == ReadLeaves(data, p + 24, n - 1);
      LeavesRead(data, p + 24, n - 1);
      WordsRead(data, p, 6);
      assert LeafWords(ls[0]) == ReadWords(data, p, 6);
      assert data[p..p + 24 * n] == data[p..p + 24] + data[p + 24..p + 24 * n];
    }
  }

  lemma {:induction false} LeavesWritten(data: seq<byte>, p: nat, ls: seq<Leaf>)
    requires p + 24 * |ls| <= |data| && data[p..p + 24 * |ls|] == LeavesBytes(ls)
    ensures ReadLeaves(data, p, |ls|) == ls
    decreases |ls|
  {
    hide Words, ReadWords;
    if ls != [] {
      Located(data, p, Words(LeafWords(ls[0])), LeavesBytes(ls[1..]));
      ReadWritten(data, p, LeafWords(ls[0]));
      LeavesWritten(data, p + 24, ls[1..]);
    }
  }

  /** A record in a message reads back as what was written, and writing what was read gives the
      same bytes. */
  lemma RecordWritten(data: seq<byte>, p: nat, c: Captured)
    requires p + |CapturedBytes(c)| <= |data| && data[p..p + |CapturedBytes(c)|] == CapturedBytes(c)
    ensures ReadCpu(data, p) == c.cpu && ReadLeaves(data, p + 48, |c.leaves|) == c.leaves
  {
    hide Words, ReadWords, LeavesBytes, ReadLeaves;
    Located(data, p, Words(CpuWords(c.cpu)), LeavesBytes(c.leaves));
    ReadWritten(data, p, CpuWords(c.cpu));
    LeavesWritten(data, p + 48, c.leaves);
  }

  lemma RecordRead(data: seq<byte>, p: nat, n: nat)
    requires p + 48 + 24 * n <= |data|
    ensures CapturedBytes(Captured(ReadCpu(data, p), ReadLeaves(data, p + 48, n))) == data[p..p + 48 + 24 * n]
  {
    hide Words, ReadWords, LeavesBytes, ReadLeaves;
    WordsRead(data, p, 12);
    assert CpuWords(ReadCpu(data, p)) == ReadWords(data, p, 12);
    LeavesRead(data, p + 48, n);
    assert data[p..p + 48 + 24 * n] == data[p..p + 48] + data[p + 48..p + 48 + 24 * n];
  }

  lemma {:induction false} BodySnoc(cs: seq<Captured>, c: Captured)
    ensures Body(cs + [c]) == Body(cs) + CapturedBytes(c)
    decreases |cs|
  {
    if cs == [] {
      assert [c][1..] == [];
    } else {
      assert (cs + [c])[1..] == cs[1..] + [c];
      BodySnoc(cs[1..], c);
    }
  }

  lemma {:induction false} BodySplit(cs: seq<Captured>, n: nat)
    requires n <= |cs|
    ensures Body(cs) == Body(cs[..n]) + Body(cs[n..])
    decreases n
  {
    if n > 0 {
      BodySplit(cs[1..], n - 1);
      assert cs[1..][..n - 1] == cs[..n][1..];
      assert cs[1..][n - 1..] == cs[n..];
    } else {
      assert cs[n..] == cs;
    }
  }

  // ---- The parent's check ---------------------------------------------------------------------------------

  method Checksum(data: seq<byte>, start: nat) returns (hash: u32)
    requires start <= |data|
    ensures hash == Fnv(data[start..])
  {
    hash := 2166136261;
    var i := start;
    while i < |data|
      invariant start <= i <= |data|
      invariant hash == Fnv(data[start..i])
    {
      assert data[start..i + 1] == data[start..i] + [data[i]];
      hash := (Xor(hash, data[i]) * 16777619) % 0x1_0000_0000;
      i := i + 1;
    }
    assert data[start..i] == data[start..];
  }

  function HeaderWords(size: u32, cpus: u32, bits: u32, partial: bool, hash: u32): (ws: seq<u32>)
    ensures |ws| == 8
  {
    [MAGIC, VERSION, size, cpus, bits, if partial then 1 else 0, hash, 0]
  }

  /** A message is a packet exactly when its header words and its body are. */
  lemma PacketParts(data: seq<byte>, cs: seq<Captured>, bits: u32)
    requires |cs| < 0x1_0000_0000 && |Body(cs)| <= MAX_BYTES && 32 <= |data| < 0x1_0000_0000
    ensures data == Packet(cs, bits) <==> (data[32..] == Body(cs)
      && ReadWords(data, 0, 8) == HeaderWords(|data|, |cs|, bits, AnyPartial(cs), Fnv(data[32..])))
  {
    hide Words, ReadWords, Body, Fnv, AnyPartial;
    var ws := HeaderWords(|Body(cs)| + 32, |cs|, bits, AnyPartial(cs), Fnv(Body(cs)));
    assert data == data[..32] + data[32..];
    assert data[0..32] == data[..32];
    WordsRead(data, 0, 8);
    if data == Packet(cs, bits) {
      assert Packet(cs, bits)[..32] == Words(ws) && Packet(cs, bits)[32..] == Body(cs);
      ReadWritten(data, 0, ws);
    }
  }

  /** Any list of records a message could stand for continues at the cursor with the record read there. */
  lemma NextRecord(data: seq<byte>, cs: seq<Captured>, targets: seq<Target>, bits: u32, i: nat, p: nat)
    requires Answers(data, cs, targets, bits)
    requires i < |cs| && p == 32 + |Body(cs[..i])|
    ensures p + 48 + 24 * |cs[i].leaves| <= |data|
    ensures ReadCpu(data, p) == cs[i].cpu && ReadLeaves(data, p + 48, |cs[i].leaves|) == cs[i].leaves
    ensures p + 48 + 24 * |cs[i].leaves| == 32 + |Body(cs[..i + 1])|
  {
    hide Words, ReadWords, Fnv, AnyPartial, ReadLeaves, ReadCpu, CapturedBytes, GoodCpus;
    PacketParts(data, cs, bits);
    BodySplit(cs, i);
    assert cs[i..] != [] && cs[i..][1..] == cs[i + 1..];
    var (front, record, rest) := (Body(cs[..i]), CapturedBytes(cs[i]), Body(cs[i + 1..]));
    assert data[32..] == front + (record + rest);
    assert data[p..] == record + rest;
    assert data[p..p + |record|] == record;
    RecordWritten(data, p, cs[i]);
    BodySnoc(cs[..i], cs[i]);
    assert cs[..i] + [cs[i]] == cs[..i + 1];
  }

  predicate Believable(data: seq<byte>, p: nat, t: Target) {
    p + 48 <= |data|
    && (var cpu := ReadCpu(data, p);
      p + 48 + 24 * cpu.count <= |data|
      && GoodCpu(Captured(cpu, ReadLeaves(data, p + 48, cpu.count)), t))
  }

  /** Reads one processor record at the cursor; none if it leaves the message or is not about the target. */
  method ReadRecord(data: seq<byte>, offset: nat, t: Target) returns (c: Option<Captured>)
    requires |data| <= MAX_BYTES
    ensures c.Some? <==> Believable(data, offset, t)
    ensures c.Some? ==> GoodCpu(c.value, t) && offset + |CapturedBytes(c.value)| <= |data|
    ensures c.Some? ==> data[offset..offset + |CapturedBytes(c.value)|] == CapturedBytes(c.value)
  {
    hide ReadWords, Bit, Words, LeavesBytes;
    if offset > |data| || |data| - offset < 48 { return None; }
    var cpu := ReadCpu(data, offset);
    if cpu.id != t.id || cpu.group != t.group || cpu.index != t.index || cpu.count > MAX_LEAVES
      || cpu.status > BAD_RANGE || cpu.flags > 255 || cpu.count > (|data| - offset - 48) / 24 { return None; }
    if cpu.status == OK && !(Bit(cpu.flags, CPUID) && Bit(cpu.flags, RESTORED)) { return None; }
    c := Some(Captured(cpu, ReadLeaves(data, offset + 48, cpu.count)));
    RecordRead(data, offset, cpu.count);
  }

  /** What the loop of the parent's check knows: the records so far are good and lie before the
      cursor, and every list of records the message could stand for starts with them. */
  ghost predicate Walked(data: seq<byte>, targets: seq<Target>, bits: u32, cs: seq<Captured>, offset: nat) {
    32 <= offset <= |data| && |cs| <= |targets| && data[32..offset] == Body(cs)
    && (forall i :: 0 <= i < |cs| ==> GoodCpu(cs[i], targets[i]))
    && (forall ds :: Answers(data, ds, targets, bits) ==> cs <= ds)
  }

  lemma MustContinue(data: seq<byte>, targets: seq<Target>, bits: u32, cs: seq<Captured>, offset: nat,
      ds: seq<Captured>)
    requires Walked(data, targets, bits, cs, offset) && |cs| < |targets| && |data| <= MAX_BYTES
    requires Answers(data, ds, targets, bits)
    ensures |cs| < |ds| && ds[..|cs|] == cs && GoodCpu(ds[|cs|], targets[|cs|])
    ensures offset + 48 + 24 * |ds[|cs|].leaves| <= |data|
    ensures ReadCpu(data, offset) == ds[|cs|].cpu
    ensures ReadLeaves(data, offset + 48, |ds[|cs|].leaves|) == ds[|cs|].leaves
  {
    hide Body, Packet, Fnv, ReadLeaves, ReadCpu;
    assert ds[..|cs|] == cs;
    NextRecord(data, ds, targets, bits, |cs|, offset);
  }

  lemma SameCount(c: Captured, d: Captured, t: Target)
    requires GoodCpu(c, t) && GoodCpu(d, t) && c.cpu == d.cpu
    ensures |c.leaves| == |d.leaves|
  {}

  lemma WalkedMore(data: seq<byte>, targets: seq<Target>, bits: u32, cs: seq<Captured>, offset: nat, c: Captured)
    requires Walked(data, targets, bits, cs, offset) && |cs| < |targets| && |data| <= MAX_BYTES
    requires GoodCpu(c, targets[|cs|]) && offset + |CapturedBytes(c)| <= |data|
    requires data[offset..offset + |CapturedBytes(c)|] == CapturedBytes(c)
    ensures Walked(data, targets, bits, cs + [c], offset + |CapturedBytes(c)|)
  {
    hide Body, CapturedBytes, GoodCpu, Answers, ReadLeaves, ReadCpu;
    BodySnoc(cs, c);
    var next := offset + |CapturedBytes(c)|;
    assert data[32..next] == data[32..offset] + data[offset..next];
    RecordWritten(data, offset, c);
    forall ds | Answers(data, ds, targets, bits) ensures cs + [c] <= ds {
      MustContinue(data, targets, bits, cs, offset, ds);
      SameCount(c, ds[|cs|], targets[|cs|]);
    }
  }

  lemma Refused(data: seq<byte>, targets: seq<Target>, bits: u32, cs: seq<Captured>, offset: nat)
    requires Walked(data, targets, bits, cs, offset) && |cs| < |targets| && |data| <= MAX_BYTES
    requires !Believable(data, offset, targets[|cs|])
    ensures !exists ds :: Answers(data, ds, targets, bits)
  {
    hide Body, Answers, ReadLeaves, ReadCpu;
    forall ds | Answers(data, ds, targets, bits) ensures false {
      MustContinue(data, targets, bits, cs, offset, ds);
    }
  }

  /** The end of the walk decides: whole message consumed, and the partial flag tells the truth. */
  lemma WalkedAll(data: seq<byte>, targets: seq<Target>, bits: u32, cs: seq<Captured>, offset: nat, flag: bool)
    requires Walked(data, targets, bits, cs, offset) && |cs| == |targets| <= MAX_CPUS && |data| <= MAX_BYTES
    requires ReadWords(data, 0, 8) == HeaderWords(|data|, |targets|, bits, flag, Fnv(data[32..]))
    ensures (offset == |data| && flag == AnyPartial(cs)) <==> exists ds :: Answers(data, ds, targets, bits)
  {
    hide Body, Fnv, ReadWords, AnyPartial, Packet;
    if offset == |data| && flag == AnyPartial(cs) {
      assert data[32..offset] == data[32..];
      PacketParts(data, cs, bits);
      assert Answers(data, cs, targets, bits);
    }
    if ds :| Answers(data, ds, targets, bits) {
      assert ds == cs;
      PacketParts(data, cs, bits);
    }
  }

  lemma EmptyBody(data: seq<byte>)
    requires |data| >= 32
    ensures data[32..32] == Body([])
  {}

  lemma MorePartial(cs: seq<Captured>, c: Captured)
    ensures AnyPartial(cs + [c]) <==> AnyPartial(cs) || Partial(c)
  {
    if i :| 0 <= i < |cs| && Partial(cs[i]) {
      assert (cs + [c])[i] == cs[i];
    }
    assert (cs + [c])[|cs|] == c;
  }

  lemma BadHeader(data: seq<byte>, targets: seq<Target>, bits: u32)
    requires 32 <= |data| <= MAX_BYTES
    requires var head := ReadWords(data, 0, 8);
      head[0] != MAGIC || head[1] != VERSION || head[2] != |data| || head[3] != |targets|
      || head[4] != bits || head[7] != 0 || head[5] > 1 || head[6] != Fnv(data[32..])
    ensures !exists cs :: Answers(data, cs, targets, bits)
  {
    hide Fnv, ReadWords, Body, AnyPartial, GoodCpu, Packet;
    forall cs | Answers(data, cs, targets, bits) ensures false {
      PacketParts(data, cs, bits);
    }
  }

  /** The parent accepts a message exactly when it is a well-formed answer for the very processors
      it asked about; memory outside the message is never read. */
  method ValidPacket(data: seq<byte>, targets: seq<Target>, bits: u32) returns (ok: bool)
    requires |data| <= MAX_BYTES && |targets| <= MAX_CPUS
    ensures ok <==> exists cs :: Answers(data, cs, targets, bits)
  {
    hide Packet, Fnv, ReadWords, Body, ReadLeaves, GoodCpu, CapturedBytes;
    if |data| < 32 { return false; }
    var head := ReadWords(data, 0, 8);
    var hash := Checksum(data, 32);
    if head[0] != MAGIC || head[1] != VERSION || head[2] != |data| || head[3] != |targets|
      || head[4] != bits || head[7] != 0 || head[5] > 1 || head[6] != hash {
      BadHeader(data, targets, bits);
      return false;
    }
    assert head == HeaderWords(|data|, |targets|, bits, head[5] == 1, hash);
    var offset: nat, i: nat, partial := 32, 0, false;
    ghost var cs: seq<Captured> := [];
    EmptyBody(data);
    while i < |targets|
      invariant 0 <= i <= |targets| && |cs| == i
      invariant Walked(data, targets, bits, cs, offset)
      invariant partial == AnyPartial(cs)
    {
      var c := ReadRecord(data, offset, targets[i]);
      if c.None? {
        Refused(data, targets, bits, cs, offset);
        return false;
      }
      WalkedMore(data, targets, bits, cs, offset, c.value);
      MorePartial(cs, c.value);
      partial := partial || Partial(c.value);
      offset := offset + 48 + 24 * |c.value.leaves|;
      cs := cs + [c.value];
      i := i + 1;
    }
    WalkedAll(data, targets, bits, cs, offset, head[5] == 1);
    ok := offset == |data| && (head[5] == 1) == partial;
  }

  /** Reading a whole accepted message back. */
  function ReadAll(data: seq<byte>, p: nat, n: nat): Option<seq<Captured>>
    decreases n
  {
    if n == 0 then (if p == |data| then Some([]) else None)
    else if p + 48 > |data| || p + 48 + 24 * ReadCpu(data, p).count > |data| then None
    else
      var c := Captured(ReadCpu(data, p), ReadLeaves(data, p + 48, ReadCpu(data, p).count));
      var rest := ReadAll(data, p + 48 + 24 * c.cpu.count, n - 1);
      if rest.None? then None else Some([c] + rest.value)
  }

  lemma PacketEnds(data: seq<byte>, cs: seq<Captured>, targets: seq<Target>, bits: u32)
    requires Answers(data, cs, targets, bits)
    ensures |data| == 32 + |Body(cs)|
  {}

  lemma {:induction false} ReadsBack(data: seq<byte>, cs: seq<Captured>, targets: seq<Target>, bits: u32, i: nat)
    requires Answers(data, cs, targets, bits) && i <= |cs|
    ensures ReadAll(data, 32 + |Body(cs[..i])|, |cs| - i) == Some(cs[i..])
    decreases |cs| - i
  {
    hide Body, Packet, Fnv, ReadLeaves, ReadCpu;
    if i == |cs| {
      PacketEnds(data, cs, targets, bits);
      assert cs[..i] == cs && cs[i..] == [];
    } else {
      PacketEnds(data, cs, targets, bits);
      NextRecord(data, cs, targets, bits, i, 32 + |Body(cs[..i])|);
      assert GoodCpu(cs[i], targets[i]);
      ReadsBack(data, cs, targets, bits, i + 1);
      assert cs[i..] == [cs[i]] + cs[i + 1..];
    }
  }

  lemma SameLength(data: seq<byte>, cs: seq<Captured>, targets: seq<Target>, bits: u32)
    requires Answers(data, cs, targets, bits)
    ensures |cs| == |targets| && |Body([])| == 0
  {}

  /** An accepted message decodes to exactly the processors and leaves it was built from, so it
      stands for one list of captures only. */
  lemma AnswerUnique(data: seq<byte>, cs: seq<Captured>, ds: seq<Captured>, targets: seq<Target>, bits: u32)
    requires |data| <= MAX_BYTES && Answers(data, cs, targets, bits) && Answers(data, ds, targets, bits)
    ensures cs == ds && ReadAll(data, 32, |targets|) == Some(cs)
  {
    hide Answers, ReadAll;
    assert cs[..0] == [] && ds[..0] == [] && cs[0..] == cs && ds[0..] == ds;
    ReadsBack(data, cs, targets, bits, 0);
    ReadsBack(data, ds, targets, bits, 0);
    SameLength(data, cs, targets, bits);
    SameLength(data, ds, targets, bits);
  }
}
