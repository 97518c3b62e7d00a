/** Power from energy counters: per power handle a cursor remembers the last counter reading used, and
    a collection that fails anywhere leaves every cursor as it was. */
module LevelZeroEnergy {
  import opened Bytes

  const DEVICES: nat := 64
  const DOMAINS: nat := 32
  const SHORTEST: nat := 100000
  const LONGEST: nat := 5000000
  const TOP: u64 := 0xFFFF_FFFF_FFFF_FFFF

  type Handle = nat

  /** A counter reading: microjoules and microseconds. */
  datatype Cursor = Cursor(power: Handle, energy: u64, timestamp: u64)
  datatype Reason = Warmup | Reset | CounterGap | Invalid
  datatype Quality = Unavailable | Gap(reason: Reason) | Fresh(watts: real, interval: nat)

  datatype Identity = Uuid(uuid: string) | Bdf(bdf: string) | Opaque(driver: Handle, device: Handle)
  datatype DeviceCursor = DeviceCursor(device: Handle, identity: Identity, powers: seq<Cursor>)

  // ---- One reading ------------------------------------------------------------------------------------

  /** The average power since the remembered reading, and the reading to remember. */
  function EnergyStep(before: Option<Cursor>, now: Cursor): (Quality, Cursor) {
    if before.None? then (Gap(Warmup), now)
    else
      var b := before.value;
      if now.timestamp <= b.timestamp || now.energy < b.energy then (Gap(Reset), now)
      else
        var delta := now.timestamp - b.timestamp;
        if delta < SHORTEST then (Gap(Warmup), b)
        else if delta > LONGEST then (Gap(CounterGap), now)
        else
          var watts := (now.energy - b.energy) as real / delta as real;
          if watts < 100000.0 then (Fresh(watts, delta), now) else (Gap(Invalid), now)
  }

  lemma Quotient(a: real, b: real)
    requires a >= 0.0 && b > 0.0
    ensures a / b * b == a && a / b >= 0.0
    ensures a / b < 100000.0 <==> a < 100000.0 * b
  {
    var q := a / b;
    assert q * b == a;
    if q < 100000.0 {
      assert q * b < 100000.0 * b;
    } else {
      assert q * b >= 100000.0 * b;
    }
  }

  /** A reading is published as fresh exactly when the counter advanced for 100 ms to 5 s at a plausible
      rate; then it accounts for all energy between the two cursors. */
  lemma FreshMeans(before: Option<Cursor>, now: Cursor)
    ensures EnergyStep(before, now).0.Fresh? <==>
      before.Some? && before.value.energy <= now.energy
      && SHORTEST <= now.timestamp - before.value.timestamp <= LONGEST
      && (now.energy - before.value.energy) as real < 100000.0 * (now.timestamp - before.value.timestamp) as real
    ensures EnergyStep(before, now).0.Fresh? ==>
      var (q, next) := EnergyStep(before, now);
      q.watts * q.interval as real == (next.energy - before.value.energy) as real && next == now
      && q.interval == now.timestamp - before.value.timestamp && 0.0 <= q.watts < 100000.0
  {
    if before.Some? && now.timestamp > before.value.timestamp && now.energy >= before.value.energy {
      var (delta, used) := ((now.timestamp - before.value.timestamp) as real, (now.energy - before.value.energy) as real);
      Quotient(used, delta);
    }
  }

  // ---- One handle over a run --------------------------------------------------------------------------

  /** What a collection did for a handle: it failed, it had no valid reading for it, or it read it. */
  datatype Observation = Failed | Missing | Read(now: Cursor)

  function After(before: Option<Cursor>, o: Observation): Option<Cursor> {
    match o
    case Failed => before
    case Missing => None
    case Read(now) => Some(EnergyStep(before, now).1)
  }

  function Published(before: Option<Cursor>, o: Observation): Quality {
    if o.Read? then EnergyStep(before, o.now).0 else Unavailable
  }

  function EnergyOf(q: Quality): real {
    if q.Fresh? then q.watts * q.interval as real else 0.0
  }

  /** All energy published over a run, in microjoules. */
  function Total(before: Option<Cursor>, run: seq<Observation>): real
    decreases |run|
  {
    if run == [] then 0.0 else EnergyOf(Published(before, run[0])) + Total(After(before, run[0]), run[1..])
  }

  function Final(before: Option<Cursor>, run: seq<Observation>): Option<Cursor>
    decreases |run|
  {
    if run == [] then before else Final(After(before, run[0]), run[1..])
  }

  predicate ShortPoll(before: Option<Cursor>, o: Observation) {
    before.Some? && o.Read? && before.value.energy <= o.now.energy
    && 0 < o.now.timestamp - before.value.timestamp < SHORTEST
  }

  /** Every reading but a short poll becomes the cursor, whether it is published or not. */
  lemma CursorMoves(before: Option<Cursor>, now: Cursor)
    requires !ShortPoll(before, Read(now))
    ensures After(before, Read(now)) == Some(now)
  {}

  /** Whatever came before, a reading that moved the cursor is the start of the next interval: one that follows
      it by 100 ms to 5 s at a plausible rate is published with the energy between the two. */
  lemma Recovers(before: Option<Cursor>, first: Cursor, second: Cursor)
    requires !ShortPoll(before, Read(first))
    requires 100000 <= second.timestamp - first.timestamp <= 5000000 && first.energy <= second.energy
    requires (second.energy - first.energy) as real < 100000.0 * (second.timestamp - first.timestamp) as real
    ensures var q := Published(After(before, Read(first)), Read(second));
      q.Fresh? && q.interval == second.timestamp - first.timestamp
      && q.watts * q.interval as real == (second.energy - first.energy) as real
    ensures After(After(before, Read(first)), Read(second)) == Some(second)
  {
    CursorMoves(before, first);
    FreshMeans(Some(first), second);
  }

  /** Why a reading is not published, on the two readings. */
  lemma GapMeans(before: Option<Cursor>, now: Cursor)
    ensures before.None? ==> Published(before, Read(now)) == Gap(Warmup)
    ensures before.Some? ==>
      var (q, b) := (Published(before, Read(now)), before.value);
      if now.timestamp <= b.timestamp || now.energy < b.energy then q == Gap(Reset)
      else if now.timestamp - b.timestamp < 100000 then q == Gap(Warmup)
      else if now.timestamp - b.timestamp > 5000000 then q == Gap(CounterGap)
      else if (now.energy - b.energy) as real >= 100000.0 * (now.timestamp - b.timestamp) as real then q == Gap(Invalid)
      else q.Fresh?
  {
    FreshMeans(before, now);
  }

  /** No collection of the run loses the thread: each fails, is a short poll, or publishes a value. */
  predicate Unbroken(before: Option<Cursor>, run: seq<Observation>)
    decreases |run|
  {
    run == [] || ((run[0].Failed? || ShortPoll(before, run[0]) || Published(before, run[0]).Fresh?)
      && Unbroken(After(before, run[0]), run[1..]))
  }

  /** A failed collection and a poll after less than 100 ms leave the cursor where it was. */
  lemma CursorKept(before: Option<Cursor>, o: Observation)
    requires o.Failed? || ShortPoll(before, o)
    ensures After(before, o) == before && EnergyOf(Published(before, o)) == 0.0
  {}

  /** Over any unbroken stretch the published energy is exactly the counter's advance between its first
      and its last cursor. */
  lemma {:induction false} Telescopes(before: Option<Cursor>, run: seq<Observation>)
    requires before.Some? && Unbroken(before, run)
    ensures Final(before, run).Some? && before.value.energy <= Final(before, run).value.energy
    ensures Total(before, run) == (Final(before, run).value.energy - before.value.energy) as real
    decreases |run|
  {
    if run != [] {
      var o := run[0];
      if o.Failed? || ShortPoll(before, o) {
        CursorKept(before, o);
      } else {
        FreshMeans(before, o.now);
      }
      Telescopes(After(before, o), run[1..]);
    }
  }

  /** Every published interval lies between 100 ms and 5 s, whatever came before. */
  lemma IntervalBounds(before: Option<Cursor>, o: Observation)
    requires Published(before, o).Fresh?
    ensures SHORTEST <= Published(before, o).interval <= LONGEST
  {}

  // ---- Enumeration ----------------------------------------------------------------------------------------

  /** A driver result; losing the device is remembered. */
  datatype Result = Ok | Error | Lost

  /** The driver's two answers: how many handles there are, then the count it left behind, whether or not the
      call succeeded, and which handles it filled in. */
  datatype Enumeration = Enumeration(counted: Result, total: u32, filled: Result, amount: u32, handles: seq<Handle>)

  /** The non-null handles without repetition, in the order of their first occurrence. */
  function Distinct(handles: seq<Handle>): seq<Handle> {
    if handles == [] then []
    else
      var n := |handles| - 1;
      var front := Distinct(handles[..n]);
      if handles[n] == 0 || handles[n] in front then front else front + [handles[n]]
  }

  predicate NoRepeat(handles: seq<Handle>) {
    forall i, j :: 0 <= i < j < |handles| ==> handles[i] != handles[j]
  }

  lemma {:induction false} DistinctMeans(handles: seq<Handle>)
    ensures |Distinct(handles)| <= |handles| && NoRepeat(Distinct(handles))
    ensures forall h :: h in Distinct(handles) <==> h in handles && h != 0
    decreases |handles|
  {
    if handles != [] {
      var n := |handles| - 1;
      DistinctMeans(handles[..n]);
      assert handles == handles[..n] + [handles[n]];
    }
  }

  /** Squeezes the filled part in place. */
  method Squeeze(handles: array<Handle>, count: nat) returns (used: nat, dropped: bool)
    requires count <= handles.Length
    modifies handles
    ensures used <= count && handles[..used] == Distinct(old(handles[..count]))
    ensures dropped <==> used < count
  {
    used, dropped := 0, false;
    ghost var was := handles[..];
    for i := 0 to count
      invariant used <= i && handles[..used] == Distinct(was[..i])
      invariant handles[i..] == was[i..] && (dropped <==> used < i)
    {
      assert was[..i + 1][..i] == was[..i];
      assert handles[i] == was[i];
      var duplicate := false;
      ghost var now := handles[..];
      for j := 0 to used
        invariant duplicate <==> handles[i] in handles[..j]
        invariant handles[..] == now
      {
        duplicate := duplicate || handles[j] == handles[i];
      }
      if handles[i] == 0 || duplicate {
        dropped := true;
      } else {
        handles[used] := handles[i];
        used := used + 1;
      }
    }
  }

  function Capacity(e: Enumeration): (c: nat)
    ensures c <= DOMAINS
  {
    if e.total < DOMAINS then e.total else DOMAINS
  }

  /** The buffer after the second call: what the driver wrote over zeros. */
  function Buffer(e: Enumeration): (b: seq<Handle>)
    ensures |b| == DOMAINS
  {
    seq(DOMAINS, i => if 0 <= i < |e.handles| && i < e.amount then e.handles[i] else 0)
  }

  function Enumerated(e: Enumeration, lost: bool): seq<Handle> {
    if lost || e.counted != Ok || Capacity(e) == 0 || e.filled != Ok || e.amount > Capacity(e) then []
    else Distinct(Buffer(e)[..e.amount])
  }

  predicate EnumerationLoses(e: Enumeration) {
    e.counted == Lost || (e.counted == Ok && Capacity(e) > 0 && e.filled == Lost)
  }

  /** Lists the handles of one kind. The partial mark is set exactly when the list is not everything the driver
      has, the truncated mark when the driver named more than fit, even in a call that failed. */
  method Enumerate(e: Enumeration, wasLost: bool, wasPartial: bool)
    returns (handles: seq<Handle>, partial: bool, truncated: bool, lost: bool)
    ensures handles == Enumerated(e, wasLost) && |handles| <= DOMAINS && NoRepeat(handles) && 0 !in handles
    ensures lost <==> wasLost || EnumerationLoses(e)
    ensures partial <==> wasPartial || (!wasLost && (e.counted != Ok || |handles| != e.total))
    ensures truncated <==> !wasLost && e.counted == Ok && (e.total > DOMAINS || (e.total > 0 && e.amount > Capacity(e)))
  {
    hide Distinct;
    DistinctMeans([]);
    handles, partial, truncated, lost := [], wasPartial, false, wasLost;
    if lost { return; }
    lost := e.counted == Lost;
    if e.counted != Ok {
      partial := true;
      return;
    }
    if e.total > DOMAINS { partial, truncated := true, true; }
    var capacity := Capacity(e);
    if capacity == 0 { return; }
    lost := e.filled == Lost;
    if e.filled != Ok || e.amount > capacity {
      partial := true;
      if e.amount > capacity { truncated := true; }
      return;
    }
    if e.amount != capacity { partial := true; }
    var buffer := new Handle[DOMAINS](i => if 0 <= i < |e.handles| && i < e.amount then e.handles[i] else 0);
    assert buffer[..] == Buffer(e);
    var used, dropped := Squeeze(buffer, e.amount);
    if dropped { partial := true; }
    assert buffer[..e.amount] == buffer[..][..e.amount];
    DistinctMeans(Buffer(e)[..e.amount]);
    handles := buffer[..used];
  }

  // ---- One device -------------------------------------------------------------------------------------------

  /** The last cursor of a list for a handle, as the search loop finds it. */
  function LastPower(powers: seq<Cursor>, h: Handle): Option<Cursor> {
    if powers == [] then None
    else
      var n := |powers| - 1;
      if powers[n].power == h then Some(powers[n]) else LastPower(powers[..n], h)
  }

  function LastDevice(cursors: seq<DeviceCursor>, device: Handle, identity: Identity): Option<DeviceCursor> {
    if cursors == [] then None
    else
      var n := |cursors| - 1;
      if cursors[n].device == device && cursors[n].identity == identity then Some(cursors[n])
      else LastDevice(cursors[..n], device, identity)
  }

  function PowersOf(device: Option<DeviceCursor>): seq<Cursor> {
    if device.None? then [] else device.value.powers
  }

  /** What one power handle answered: properties, scope and counter, and whether its limits lose the driver. */
  datatype Domain = Domain(properties: Result, retried: Result, onSubdevice: u32, scope: u32,
    counter: Result, energy: u64, timestamp: u64, limitsLose: bool)

  /** A published power row; `read` is the valid counter reading behind it. */
  datatype Row = Row(power: Handle, read: Option<Cursor>, quality: Quality, rank: Option<nat>)

  function ObservationOf(row: Row): Observation {
    if row.read.Some? then Read(row.read.value) else Missing
  }

  /** A row repeats what the step from the prior cursor gives. */
  predicate RowOk(row: Row, prior: seq<Cursor>) {
    row.quality == Published(LastPower(prior, row.power), ObservationOf(row))
    && (row.read.Some? ==> row.read.value.power == row.power)
  }

  /** The cursors a list of rows leaves behind. */
  function NextPowers(rows: seq<Row>, prior: seq<Cursor>): (next: seq<Cursor>)
    ensures |next| <= |rows|
  {
    if rows == [] then []
    else
      var n := |rows| - 1;
      NextPowers(rows[..n], prior)
      + if rows[n].read.None? then [] else [EnergyStep(LastPower(prior, rows[n].power), rows[n].read.value).1]
  }

  method Energy(handle: Handle, read: Option<Cursor>, prior: seq<Cursor>, next: seq<Cursor>)
    returns (q: Quality, more: seq<Cursor>)
    requires read.Some? ==> read.value.power == handle
    requires |next| < DOMAINS
    ensures q == Published(LastPower(prior, handle), if read.Some? then Read(read.value) else Missing)
    ensures more == next + if read.None? then [] else [EnergyStep(LastPower(prior, handle), read.value).1]
  {
    q, more := Unavailable, next;
    if read.None? { return; }
    var before: Option<Cursor> := None;
    for i := 0 to |prior|
      invariant before == LastPower(prior[..i], handle)
    {
      assert prior[..i + 1][..i] == prior[..i];
      if prior[i].power == handle { before := Some(prior[i]); }
    }
    assert prior[..|prior|] == prior;
    var now := read.value;
    var cursor := now;
    q := Gap(Warmup);
    if before.Some? {
      var b := before.value;
      if now.timestamp <= b.timestamp || now.energy < b.energy {
        q := Gap(Reset);
      } else {
        var delta := now.timestamp - b.timestamp;
        if delta < SHORTEST {
          cursor := b;
        } else if delta > LONGEST {
          q := Gap(CounterGap);
        } else {
          var watts := (now.energy - b.energy) as real / delta as real;
          q := if watts < 100000.0 then Fresh(watts, delta) else Gap(Invalid);
        }
      }
    }
    if |more| < DOMAINS { more := more + [cursor]; }
  }

  /** Which scope a domain is preferred for: the card, the package, the GPU, an unknown root domain. */
  function Rank(d: Domain, isCard: bool): Option<nat> {
    var scope := if isCard then 1 else if d.scope <= 5 then d.scope else 0;
    if d.onSubdevice != 0 then None
    else if scope == 1 then Some(0) else if scope == 2 then Some(1) else if scope == 5 then Some(2)
    else if scope == 0 then Some(3) else None
  }

  predicate Better(a: Option<nat>, b: Option<nat>) {
    a.Some? && (b.None? || a.value < b.value)
  }

  /** The headline row: the only one of the best rank. */
  ghost predicate Headline(rows: seq<Row>, i: nat) {
    i < |rows| && rows[i].rank.Some? && forall j :: 0 <= j < |rows| && j != i ==> Better(rows[i].rank, rows[j].rank)
  }

  predicate RowsOk(rows: seq<Row>, prior: seq<Cursor>) {
    (forall r :: r in rows ==> RowOk(r, prior))
    && (forall i, j :: 0 <= i < j < |rows| ==> rows[i].power != rows[j].power)
  }

  lemma RowsMore(rows: seq<Row>, row: Row, prior: seq<Cursor>)
    requires RowsOk(rows, prior) && RowOk(row, prior) && forall r :: r in rows ==> r.power != row.power
    ensures RowsOk(rows + [row], prior)
    ensures NextPowers(rows + [row], prior) == NextPowers(rows, prior)
      + if row.read.None? then [] else [EnergyStep(LastPower(prior, row.power), row.read.value).1]
  {
    assert (rows + [row])[..|rows|] == rows;
  }

  function ReadingOf(h: Handle, d: Domain): (read: Option<Cursor>)
    ensures read.Some? ==> read.value.power == h
  {
    if d.counter == Ok && d.energy != TOP && 0 < d.timestamp != TOP then Some(Cursor(h, d.energy, d.timestamp)) else None
  }

  predicate Answered(d: Domain) {
    (d.properties == Ok || (d.properties == Error && d.retried == Ok)) && d.onSubdevice <= 1
  }

  /** One of the calls made for a handle says that the driver is lost. */
  predicate DomainLoses(d: Domain) {
    d.properties == Lost || (d.properties == Error && d.retried == Lost)
    || (Answered(d) && (d.counter == Lost || d.limitsLose))
  }

  /** The choice the loop has made among the first rows: the best rank, how often it occurs, and where first. */
  ghost predicate Choice(rows: seq<Row>, best: Option<nat>, selected: nat, ties: nat) {
    (forall r :: r in rows ==> !Better(r.rank, best))
    && (best.Some? ==> selected < |rows| && rows[selected].rank == best && ties > 0)
    && (best.Some? ==> (ties == 1 <==> forall j :: 0 <= j < |rows| && j != selected ==> rows[j].rank != best))
  }

  lemma ChoiceMeans(rows: seq<Row>, best: Option<nat>, selected: nat, ties: nat)
    requires Choice(rows, best, selected, ties)
    ensures best.Some? && ties == 1 ==> Headline(rows, selected)
    ensures !(best.Some? && ties == 1) ==> forall i: nat :: !Headline(rows, i)
  {
    forall i: nat | Headline(rows, i) ensures best.Some? && ties == 1 {
      assert !Better(rows[i].rank, best);
    }
  }

  /** The row an answering domain gets. */
  function RowFor(h: Handle, d: Domain, isCard: bool, prior: seq<Cursor>): Row {
    var read := ReadingOf(h, d);
    Row(h, read, Published(LastPower(prior, h), if read.Some? then Read(read.value) else Missing), Rank(d, isCard))
  }

  /** The row is that of a listed handle that answered. */
  predicate Stands(row: Row, handles: seq<Handle>, answers: Handle -> Domain, card: Option<Handle>, prior: seq<Cursor>) {
    row.power in handles && Answered(answers(row.power))
    && row == RowFor(row.power, answers(row.power), card == Some(row.power), prior)
  }

  lemma NoRows(prior: seq<Cursor>)
    ensures RowsOk([], prior) && NextPowers([], prior) == [] && Choice([], None, 0, 0)
  {}

  lemma ChoiceMore(rows: seq<Row>, row: Row, best: Option<nat>, selected: nat, ties: nat)
    requires Choice(rows, best, selected, ties)
    ensures Better(row.rank, best) ==> Choice(rows + [row], row.rank, |rows|, 1)
    ensures !Better(row.rank, best) && row.rank == best ==> Choice(rows + [row], best, selected, ties + 1)
    ensures !Better(row.rank, best) && row.rank != best ==> Choice(rows + [row], best, selected, ties)
  {
    var more := rows + [row];
    assert more[|rows|] == row;
    assert forall j :: 0 <= j < |rows| ==> more[j] == rows[j] && rows[j] in rows;
  }

  /** Every power handle of one device: its row, the cursors for next time, and the headline. */
  method Powers(handles: seq<Handle>, answers: Handle -> Domain, card: Option<Handle>, prior: seq<Cursor>)
    returns (rows: seq<Row>, next: seq<Cursor>, headline: Option<nat>, lost: bool)
    requires NoRepeat(handles) && |handles| <= DOMAINS
    ensures RowsOk(rows, prior) && next == NextPowers(rows, prior)
    ensures headline.Some? ==> Headline(rows, headline.value)
    ensures headline.None? ==> forall i: nat :: !Headline(rows, i)
    ensures lost <==> exists h :: h in handles && DomainLoses(answers(h))
    ensures !lost ==> forall h :: h in handles && Answered(answers(h)) ==> RowFor(h, answers(h), card == Some(h), prior) in rows
    ensures forall r :: r in rows ==> Stands(r, handles, answers, card, prior)
  {
    hide RowsOk, NextPowers, Choice, Rank, ReadingOf;
    rows, next, lost := [], [], false;
    var best: Option<nat>, selected: nat, ties: nat := None, 0, 0;
    NoRows(prior);
    for i := 0 to |handles|
      invariant RowsOk(rows, prior) && next == NextPowers(rows, prior) && |next| <= |rows| <= i
      invariant forall r :: r in rows ==> r.power in handles[..i] && Stands(r, handles, answers, card, prior)
      invariant Choice(rows, best, selected, ties)
      invariant lost <==> exists k :: 0 <= k < i && DomainLoses(answers(handles[k]))
      invariant !lost ==> forall k :: 0 <= k < i && Answered(answers(handles[k])) ==>
        RowFor(handles[k], answers(handles[k]), card == Some(handles[k]), prior) in rows
    {
      if lost { break; }
      var (h, d) := (handles[i], answers(handles[i]));
      lost := d.properties == Lost || (d.properties == Error && d.retried == Lost);
      if Answered(d) {
        var rank := Rank(d, card == Some(h));
        var read := ReadingOf(h, d);
        lost := lost || d.counter == Lost || d.limitsLose;
        var quality, more := Energy(h, read, prior, next);
        var row := Row(h, read, quality, rank);
        RowsMore(rows, row, prior);
        ChoiceMore(rows, row, best, selected, ties);
        if Better(rank, best) {
          best, selected, ties := rank, |rows|, 1;
        } else if rank == best {
          ties := ties + 1;
        }
        rows, next := rows + [row], more;
      }
    }
    ChoiceMeans(rows, best, selected, ties);
    headline := if best.Some? && ties == 1 then Some(selected) else None;
  }

  // ---- A whole collection --------------------------------------------------------------------------------------

  /** One enumerated device and everything its driver answers about it. Three of its fields say which calls lose
      the driver: those for its identity, those for temperatures and frequencies, and the one for its card. */
  datatype Device = Device(handle: Handle, driver: Handle, identified: bool, isGpu: bool, bdf: Option<string>,
    uuid: Option<string>, identityLoses: bool, sensorsLose: bool, powers: Enumeration, card: Option<Handle>,
    cardLoses: bool, answers: Handle -> Domain)

  /** What the driver answers to one poll; `listLoses` is a device list that loses the driver while the
      enumeration as a whole goes on. */
  datatype Poll = Poll(enumeration: Result, listLoses: bool, devices: seq<Device>, outputFailed: bool)

  datatype Report = Report(device: Handle, identity: Identity, rows: seq<Row>, headline: Option<nat>)

  function IdentityOf(d: Device): Identity {
    if d.identified && d.uuid.Some? then Uuid(d.uuid.value)
    else if d.bdf.Some? then Bdf(d.bdf.value) else Opaque(d.driver, d.handle)
  }

  predicate Wanted(d: Device) {
    !d.identified || d.isGpu
  }

  predicate HasBdf(devices: seq<Device>, b: string) {
    exists k :: 0 <= k < |devices| && devices[k].bdf == Some(b)
  }

  predicate Repeats(earlier: seq<Device>, d: Device) {
    (d.bdf.Some? && HasBdf(earlier, d.bdf.value))
    || (d.identified && d.uuid.Some? && exists k :: 0 <= k < |earlier| && IdentityOf(earlier[k]) == Uuid(d.uuid.value))
  }

  /** Devices that get a report: graphics devices whose address and identity no earlier one has. */
  function Accepted(devices: seq<Device>): seq<Device> {
    if devices == [] then []
    else
      var n := |devices| - 1;
      var earlier := Accepted(devices[..n]);
      if Wanted(devices[n]) && !Repeats(earlier, devices[n]) then earlier + [devices[n]] else earlier
  }

  predicate Different(a: Device, b: Device) {
    (a.bdf.Some? ==> a.bdf != b.bdf)
    && (a.identified && a.uuid.Some? && b.identified ==> a.uuid != b.uuid)
  }

  lemma UuidIdentifies(d: Device)
    requires d.identified && d.uuid.Some?
    ensures IdentityOf(d) == Uuid(d.uuid.value)
  {}

  /** No two devices are reported under one address or one UUID. */
  lemma {:induction false} AcceptedDistinct(devices: seq<Device>)
    ensures forall j, k :: 0 <= j < k < |Accepted(devices)| ==> Different(Accepted(devices)[j], Accepted(devices)[k])
    decreases |devices|
  {
    hide IdentityOf;
    if devices != [] {
      var n := |devices| - 1;
      AcceptedDistinct(devices[..n]);
      var earlier := Accepted(devices[..n]);
      if !Repeats(earlier, devices[n]) {
        forall j | 0 <= j < |earlier| ensures Different(earlier[j], devices[n]) {
          if devices[n].identified && devices[n].uuid.Some? {
            UuidIdentifies(devices[n]);
          }
          if earlier[j].identified && earlier[j].uuid.Some? { UuidIdentifies(earlier[j]); }
          assert earlier[j].bdf.Some? ==> HasBdf(earlier, earlier[j].bdf.value);
        }
      }
    }
  }

  // ---- Losing the driver ----------------------------------------------------------------------------------------

  /** Reading the device, once it is accepted, loses the driver. */
  predicate ReadLoses(d: Device) {
    d.sensorsLose || EnumerationLoses(d.powers) || d.cardLoses
    || exists h :: h in Enumerated(d.powers, false) && DomainLoses(d.answers(h))
  }

  /** The driver was lost before, or identifying one of the first n devices lost it. Nothing looks at that
      before the next accepted device has been read. */
  predicate Flagged(devices: seq<Device>, n: nat, before: bool) {
    before || exists j :: 0 <= j < n && j < |devices| && Wanted(devices[j]) && devices[j].identityLoses
  }

  predicate AcceptedAt(devices: seq<Device>, n: nat)
    requires n < |devices|
  {
    Wanted(devices[n]) && !Repeats(Accepted(devices[..n]), devices[n])
  }

  predicate FailsAt(devices: seq<Device>, n: nat, before: bool)
    requires n < |devices|
  {
    AcceptedAt(devices, n) && (Flagged(devices, n + 1, before) || ReadLoses(devices[n]))
  }

  /** The device loop ends with a lost driver. */
  predicate Fails(devices: seq<Device>, before: bool) {
    exists n :: 0 <= n < |devices| && FailsAt(devices, n, before)
  }

  /** The mark for a lost driver after a poll, which a loss on a last, skipped device sets too. */
  predicate Gone(p: Poll, before: bool) {
    if p.enumeration != Ok then before || p.enumeration == Lost
    else Fails(p.devices, before || p.listLoses) || Flagged(p.devices, |p.devices|, before || p.listLoses)
  }

  /** The poll commits its cursors. */
  predicate Commits(p: Poll, before: bool) {
    p.enumeration == Ok && !Fails(p.devices, before || p.listLoses) && !p.outputFailed
  }

  lemma FlaggedMore(devices: seq<Device>, n: nat, before: bool)
    requires n < |devices|
    ensures Flagged(devices, n + 1, before) <==>
      Flagged(devices, n, before) || (Wanted(devices[n]) && devices[n].identityLoses)
  {}

  // ---- Reports and cursors ----------------------------------------------------------------------------------------

  /** A report covers its device: every power handle that answered has the row it should have. */
  predicate Covers(r: Report, d: Device, cursors: seq<DeviceCursor>) {
    r.device == d.handle && r.identity == IdentityOf(d)
    && forall h :: h in Enumerated(d.powers, false) && Answered(d.answers(h)) ==>
      RowFor(h, d.answers(h), d.card == Some(h), PowersOf(LastDevice(cursors, r.device, r.identity))) in r.rows
  }

  /** And it has no other rows. */
  predicate OnlyAnswers(r: Report, d: Device, cursors: seq<DeviceCursor>) {
    forall row :: row in r.rows ==>
      Stands(row, Enumerated(d.powers, false), d.answers, d.card, PowersOf(LastDevice(cursors, r.device, r.identity)))
  }

  /** The rows follow from the cursors, and the headline, if any, is the only row of the best rank. */
  ghost predicate ReportOk(r: Report, cursors: seq<DeviceCursor>) {
    RowsOk(r.rows, PowersOf(LastDevice(cursors, r.device, r.identity)))
    && forall i: nat :: Headline(r.rows, i) <==> r.headline == Some(i)
  }

  lemma OneHeadline(rows: seq<Row>, headline: Option<nat>)
    requires headline.Some? ==> Headline(rows, headline.value)
    requires headline.None? ==> forall i: nat :: !Headline(rows, i)
    ensures forall i: nat :: Headline(rows, i) <==> headline == Some(i)
  {}

  /** The cursors a list of reports leaves behind. */
  function CursorsOf(reports: seq<Report>, cursors: seq<DeviceCursor>): (next: seq<DeviceCursor>)
    ensures |next| == |reports|
  {
    if reports == [] then []
    else
      var n := |reports| - 1;
      var r := reports[n];
      CursorsOf(reports[..n], cursors)
      + [DeviceCursor(r.device, r.identity, NextPowers(r.rows, PowersOf(LastDevice(cursors, r.device, r.identity))))]
  }

  lemma CursorsMore(reports: seq<Report>, r: Report, cursors: seq<DeviceCursor>)
    ensures CursorsOf(reports + [r], cursors) == CursorsOf(reports, cursors)
      + [DeviceCursor(r.device, r.identity, NextPowers(r.rows, PowersOf(LastDevice(cursors, r.device, r.identity))))]
  {
    assert (reports + [r])[..|reports|] == reports;
  }

  /** What the device loop knows: reports and cursors belong, one by one, to the devices accepted so far. */
  ghost predicate Progress(done: seq<Device>, list: seq<Report>, pending: seq<DeviceCursor>, bdfs: set<string>,
      cursors: seq<DeviceCursor>)
  {
    var a := Accepted(done);
    |list| == |pending| == |a| <= |done| && (forall r :: r in list ==> ReportOk(r, cursors))
    && (forall b :: b in bdfs <==> HasBdf(a, b))
    && (forall k :: 0 <= k < |a| ==> pending[k].identity == IdentityOf(a[k]))
    && (forall k :: 0 <= k < |a| ==> Covers(list[k], a[k], cursors) && OnlyAnswers(list[k], a[k], cursors))
  }

  lemma ProgressMeans(done: seq<Device>, list: seq<Report>, pending: seq<DeviceCursor>, bdfs: set<string>,
      cursors: seq<DeviceCursor>)
    requires Progress(done, list, pending, bdfs, cursors)
    ensures |list| == |Accepted(done)| <= |done| && forall r :: r in list ==> ReportOk(r, cursors)
    ensures forall k :: 0 <= k < |list| ==>
      Covers(list[k], Accepted(done)[k], cursors) && OnlyAnswers(list[k], Accepted(done)[k], cursors)
  {}

  lemma AcceptedMore(done: seq<Device>, d: Device)
    ensures Accepted(done + [d]) ==
      if Wanted(d) && !Repeats(Accepted(done), d) then Accepted(done) + [d] else Accepted(done)
  {
    assert (done + [d])[..|done|] == done;
  }

  /** The loop's test for a repeated device, and what skipping one does. */
  lemma ProgressSkip(done: seq<Device>, list: seq<Report>, pending: seq<DeviceCursor>, bdfs: set<string>,
      cursors: seq<DeviceCursor>, d: Device)
    requires Progress(done, list, pending, bdfs, cursors)
    ensures Repeats(Accepted(done), d) <==> ((d.bdf.Some? && d.bdf.value in bdfs)
      || (d.identified && d.uuid.Some? && exists c :: c in pending && c.identity == Uuid(d.uuid.value)))
    ensures !Wanted(d) || Repeats(Accepted(done), d) ==> Progress(done + [d], list, pending, bdfs, cursors)
  {
    hide Covers, OnlyAnswers, ReportOk, IdentityOf, Accepted;
    AcceptedMore(done, d);
    var a := Accepted(done);
    if d.identified && d.uuid.Some? {
      if k :| 0 <= k < |a| && IdentityOf(a[k]) == Uuid(d.uuid.value) {
        assert pending[k] in pending;
      }
      if c :| c in pending && c.identity == Uuid(d.uuid.value) {
        var k :| 0 <= k < |pending| && pending[k] == c;
        assert IdentityOf(a[k]) == Uuid(d.uuid.value);
      }
    }
  }

  lemma BdfsMore(earlier: seq<Device>, d: Device)
    ensures forall b :: HasBdf(earlier + [d], b) <==> HasBdf(earlier, b) || d.bdf == Some(b)
  {
    var all := earlier + [d];
    assert all[|earlier|] == d && forall k :: 0 <= k < |earlier| ==> all[k] == earlier[k];
    forall b ensures HasBdf(all, b) <==> HasBdf(earlier, b) || d.bdf == Some(b) {
      if k :| 0 <= k < |earlier| && earlier[k].bdf == Some(b) {
        assert all[k].bdf == Some(b);
      }
    }
  }

  lemma ProgressMore(done: seq<Device>, list: seq<Report>, pending: seq<DeviceCursor>, bdfs: set<string>,
      cursors: seq<DeviceCursor>, d: Device, r: Report, c: DeviceCursor)
    requires Progress(done, list, pending, bdfs, cursors) && Wanted(d) && !Repeats(Accepted(done), d)
    requires ReportOk(r, cursors) && Covers(r, d, cursors) && OnlyAnswers(r, d, cursors) && c.identity == IdentityOf(d)
    ensures Progress(done + [d], list + [r], pending + [c], bdfs + (if d.bdf.Some? then {d.bdf.value} else {}), cursors)
  {
    hide Covers, OnlyAnswers, ReportOk, IdentityOf, Repeats, HasBdf, Accepted, Wanted;
    AcceptedMore(done, d);
    BdfsMore(Accepted(done), d);
  }

  lemma CoversBuilt(r: Report, d: Device, cursors: seq<DeviceCursor>)
    requires r.device == d.handle && r.identity == IdentityOf(d)
    requires forall h :: h in Enumerated(d.powers, false) && Answered(d.answers(h)) ==>
      RowFor(h, d.answers(h), d.card == Some(h), PowersOf(LastDevice(cursors, r.device, r.identity))) in r.rows
    requires forall row :: row in r.rows ==>
      Stands(row, Enumerated(d.powers, false), d.answers, d.card, PowersOf(LastDevice(cursors, r.device, r.identity)))
    ensures Covers(r, d, cursors) && OnlyAnswers(r, d, cursors)
  {}

  /** The reports of a collection: one for every accepted device, covering it. */
  ghost predicate Built(reports: seq<Report>, devices: seq<Device>, cursors: seq<DeviceCursor>) {
    |reports| == |Accepted(devices)| && (forall r :: r in reports ==> ReportOk(r, cursors))
    && forall k :: 0 <= k < |reports| ==>
      Covers(reports[k], Accepted(devices)[k], cursors) && OnlyAnswers(reports[k], Accepted(devices)[k], cursors)
  }

  lemma NoneFlagged(devices: seq<Device>, before: bool)
    ensures Flagged(devices, 0, before) <==> before
  {}

  lemma FailsMeans(devices: seq<Device>, n: nat, before: bool)
    requires n < |devices|
    ensures FailsAt(devices, n, before) <==> (
      Wanted(devices[n]) && !Repeats(Accepted(devices[..n]), devices[n])
      && (Flagged(devices, n + 1, before) || ReadLoses(devices[n])))
  {}

  lemma NoReports(cursors: seq<DeviceCursor>)
    ensures CursorsOf([], cursors) == [] && Progress([], [], [], {}, cursors)
  {}

  class Reader {
    var ready: bool
    var lost: bool
    var cursors: seq<DeviceCursor>

    /** A session that is not open remembers nothing. */
    ghost predicate Valid()
      reads this
    {
      |cursors| <= DEVICES && (!ready ==> !lost && cursors == [])
    }

    constructor ()
      ensures Valid() && !ready
    {
      ready, lost, cursors := false, false, [];
    }

    /** The remembered cursors of a device. */
    method FindDevice(device: Handle, identity: Identity) returns (found: Option<DeviceCursor>)
      ensures found == LastDevice(cursors, device, identity)
    {
      found := None;
      for j := 0 to |cursors|
        invariant found == LastDevice(cursors[..j], device, identity)
      {
        assert cursors[..j + 1][..j] == cursors[..j];
        if cursors[j].device == device && cursors[j].identity == identity { found := Some(cursors[j]); }
      }
      assert cursors[..|cursors|] == cursors;
    }

    /** One device: its rows and its next cursors, unless the driver was lost before or on the way. */
    method ReadDevice(d: Device) returns (report: Report, cursor: DeviceCursor)
      modifies this`lost
      ensures lost <==> old(lost) || ReadLoses(d)
      ensures !lost ==> ReportOk(report, cursors) && Covers(report, d, cursors) && OnlyAnswers(report, d, cursors)
      ensures report.device == d.handle && report.identity == IdentityOf(d)
      ensures cursor == DeviceCursor(d.handle, IdentityOf(d),
        NextPowers(report.rows, PowersOf(LastDevice(cursors, d.handle, IdentityOf(d)))))
    {
      hide RowsOk, NextPowers, LastDevice, Covers, OnlyAnswers, Enumerated, Answered, RowFor, DomainLoses, EnumerationLoses;
      hide Headline;
      var identity := IdentityOf(d);
      var known := FindDevice(d.handle, identity);
      NoRows(PowersOf(known));
      report, cursor := Report(d.handle, identity, [], None), DeviceCursor(d.handle, identity, []);
      if lost || d.sensorsLose {
        lost := true;
        return;
      }
      var handles, _, _, enumerationLost := Enumerate(d.powers, false, false);
      lost := enumerationLost || d.cardLoses;
      if lost { return; }
      var rows, next, headline, gone := Powers(handles, d.answers, d.card, PowersOf(known));
      report, cursor := Report(d.handle, identity, rows, headline), DeviceCursor(d.handle, identity, next);
      lost := gone;
      OneHeadline(rows, headline);
      if !lost { CoversBuilt(report, d, cursors); }
    }

    /** A collection commits all its cursors at the very end or none at all, and it fails exactly when the
        enumeration does, the driver is lost before an accepted device has been read, or the output is full. */
    method Collect(p: Poll) returns (reports: Option<seq<Report>>)
      requires Valid() && ready && |p.devices| <= DEVICES
      modifies this`lost, this`cursors
      ensures Valid()
      ensures reports.Some? <==> Commits(p, old(lost))
      ensures lost <==> Gone(p, old(lost))
      ensures reports.None? ==> cursors == old(cursors)
      ensures reports.Some? ==> Built(reports.value, p.devices, old(cursors)) && cursors == CursorsOf(reports.value, old(cursors))
    {
      hide ReportOk, NextPowers, CursorsOf, LastDevice, Covers, OnlyAnswers, Progress, Repeats;
      hide Accepted, Flagged, FailsAt, ReadLoses;
      hide IdentityOf, HasBdf;
      if p.enumeration != Ok {
        lost := lost || p.enumeration == Lost;
        return None;
      }
      lost := lost || p.listLoses;
      ghost var (before, devices) := (lost, p.devices);
      var list: seq<Report>, pending: seq<DeviceCursor>, bdfs: set<string> := [], [], {};
      NoReports(cursors);
      NoneFlagged(devices, before);
      assert devices[..0] == [];
      for i := 0 to |p.devices|
        invariant cursors == old(cursors) && pending == CursorsOf(list, cursors)
        invariant Progress(devices[..i], list, pending, bdfs, cursors)
        invariant lost <==> Flagged(devices, i, before)
        invariant forall n :: 0 <= n < i ==> !FailsAt(devices, n, before)
      {
        var d := p.devices[i];
        assert devices[..i + 1] == devices[..i] + [d];
        ProgressSkip(devices[..i], list, pending, bdfs, cursors, d);
        FlaggedMore(devices, i, before);
        FailsMeans(devices, i, before);
        if !d.identified || d.isGpu {
          lost := lost || d.identityLoses;
          var duplicate := (d.bdf.Some? && d.bdf.value in bdfs)
            || (d.identified && d.uuid.Some? && exists c :: c in pending && c.identity == Uuid(d.uuid.value));
          if !duplicate {
            ghost var earlier := bdfs;
            if d.bdf.Some? { bdfs := bdfs + {d.bdf.value}; }
            var report, cursor := ReadDevice(d);
            if lost { return None; }
            CursorsMore(list, report, cursors);
            ProgressMore(devices[..i], list, pending, earlier, cursors, d, report, cursor);
            assert bdfs == earlier + if d.bdf.Some? then {d.bdf.value} else {};
            list, pending := list + [report], pending + [cursor];
          }
        }
      }
      assert devices[..|devices|] == devices;
      ProgressMeans(devices, list, pending, bdfs, cursors);
      if p.outputFailed { return None; }
      cursors := pending;
      return Some(list);
    }

    /** A query outside the worker opens the session when it has to, and closes it with all its cursors exactly
        when it fails and the driver is lost. */
    method Query(p: Poll, opens: bool) returns (reports: Option<seq<Report>>)
      requires Valid() && |p.devices| <= DEVICES
      modifies this
      ensures Valid()
      ensures reports.Some? <==> (old(ready) || opens) && Commits(p, old(lost))
      ensures reports.Some? ==> Built(reports.value, p.devices, old(cursors)) && cursors == CursorsOf(reports.value, old(cursors))
      ensures reports.None? && Gone(p, old(lost)) ==> cursors == [] && !ready && !lost
      ensures reports.None? && !Gone(p, old(lost)) ==> cursors == old(cursors)
    {
      reports := None;
      if !ready && !opens { return; }
      ready := true;
      reports := Collect(p);
      if reports.None? && lost { ready, lost, cursors := false, false, []; }
    }
  }

  const STEADY: Domain := Domain(Ok, Ok, 0, 1, Ok, 7, 9, false)
  const ONE_DEVICE: Device := Device(1, 1, true, true, None, None, false, false, Enumeration(Ok, 1, Ok, 1, [5]), None,
    false, h => STEADY)

  lemma OneCommits()
    ensures Commits(Poll(Ok, false, [ONE_DEVICE], false), false) && |Accepted([ONE_DEVICE])| == 1
  {}

  /** A collection can commit and yet end with the driver lost: a second listing of a device loses it. */
  lemma CommittedAndLost()
    ensures exists p: Poll :: Commits(p, false) && Gone(p, false)
  {
    var first := ONE_DEVICE.(bdf := Some("a"));
    var p := Poll(Ok, false, [first, first.(identityLoses := true)], false);
    assert p.devices[..1] == [first] && p.devices[..1][..0] == [] && p.devices[..0] == [];
    assert Accepted([]) == [] && Accepted([first]) == [first] by { assert [first][..0] == []; }
    assert HasBdf([first], "a") by { assert [first][0].bdf == Some("a"); }
    assert !FailsAt(p.devices, 1, false) && !FailsAt(p.devices, 0, false);
    assert Wanted(p.devices[1]) && p.devices[1].identityLoses;
    assert Commits(p, false) && Gone(p, false);
  }

  /** A reading that was remembered is gone after one more query that finds the driver lost. */
  method LostClears() returns (before: seq<DeviceCursor>, after: seq<DeviceCursor>)
    ensures before != [] && after == []
  {
    var reader := new Reader();
    OneCommits();
    var _ := reader.Query(Poll(Ok, false, [ONE_DEVICE], false), true);
    before := reader.cursors;
    var _ := reader.Query(Poll(Lost, false, [], false), true);
    after := reader.cursors;
  }

  /** The cursor remembered for one power handle of one device. */
  function Remembered(cursors: seq<DeviceCursor>, device: Handle, identity: Identity, h: Handle): Option<Cursor> {
    LastPower(PowersOf(LastDevice(cursors, device, identity)), h)
  }

  function LastReport(reports: seq<Report>, device: Handle, identity: Identity): seq<Row> {
    if reports == [] then []
    else
      var n := |reports| - 1;
      if reports[n].device == device && reports[n].identity == identity then reports[n].rows
      else LastReport(reports[..n], device, identity)
  }

  function SeenIn(rows: seq<Row>, h: Handle): Observation {
    if rows == [] then Missing
    else
      var n := |rows| - 1;
      if rows[n].power == h then ObservationOf(rows[n]) else SeenIn(rows[..n], h)
  }

  /** What a collection did for one power handle. */
  function Observed(reports: Option<seq<Report>>, device: Handle, identity: Identity, h: Handle): Observation {
    if reports.None? then Failed else SeenIn(LastReport(reports.value, device, identity), h)
  }

  lemma StepPower(prior: seq<Cursor>, now: Cursor)
    ensures EnergyStep(LastPower(prior, now.power), now).1.power == now.power
    decreases |prior|
  {
    if prior != [] {
      StepPower(prior[..|prior| - 1], now);
    }
  }

  lemma {:induction false} NotSeen(rows: seq<Row>, h: Handle)
    requires forall r :: r in rows ==> r.power != h
    ensures SeenIn(rows, h) == Missing
    decreases |rows|
  {
    if rows != [] {
      NotSeen(rows[..|rows| - 1], h);
    }
  }

  lemma RowsFront(rows: seq<Row>, prior: seq<Cursor>)
    requires RowsOk(rows, prior) && rows != []
    ensures var (front, row) := (rows[..|rows| - 1], rows[|rows| - 1]);
      RowsOk(front, prior) && RowOk(row, prior) && forall r :: r in front ==> r.power != row.power
  {
    hide RowOk;
    assert rows[|rows| - 1] in rows;
  }

  lemma LastAppend(powers: seq<Cursor>, c: Cursor, h: Handle)
    ensures LastPower(powers + [c], h) == if c.power == h then Some(c) else LastPower(powers, h)
  {
    assert (powers + [c])[..|powers|] == powers;
  }

  lemma NothingLast(h: Handle)
    ensures LastPower([], h) == None
  {}

  lemma {:induction false} RowsRefine(rows: seq<Row>, prior: seq<Cursor>, h: Handle)
    requires RowsOk(rows, prior)
    ensures LastPower(NextPowers(rows, prior), h) == After(LastPower(prior, h), SeenIn(rows, h))
    decreases |rows|
  {
    hide RowsOk, LastPower, EnergyStep, Published;
    if rows != [] {
      var n := |rows| - 1;
      var (front, row) := (rows[..n], rows[n]);
      RowsFront(rows, prior);
      RowsRefine(front, prior, h);
      var next := NextPowers(front, prior);
      if row.read.Some? {
        StepPower(prior, row.read.value);
        LastAppend(next, EnergyStep(LastPower(prior, row.power), row.read.value).1, h);
      } else {
        assert next + [] == next;
        if row.power == h { NotSeen(front, h); }
      }
    } else {
      assert LastPower([], h) == None by { NothingLast(h); }
    }
  }

  lemma {:induction false} ReportsRefine(reports: seq<Report>, cursors: seq<DeviceCursor>, device: Handle, identity: Identity)
    requires forall r :: r in reports ==> ReportOk(r, cursors)
    ensures PowersOf(LastDevice(CursorsOf(reports, cursors), device, identity))
      == NextPowers(LastReport(reports, device, identity), PowersOf(LastDevice(cursors, device, identity)))
    ensures RowsOk(LastReport(reports, device, identity), PowersOf(LastDevice(cursors, device, identity)))
    decreases |reports|
  {
    if reports != [] {
      hide RowsOk, NextPowers;
      var n := |reports| - 1;
      ReportsRefine(reports[..n], cursors, device, identity);
      assert reports == reports[..n] + [reports[n]];
      CursorsMore(reports[..n], reports[n], cursors);
      var front := CursorsOf(reports[..n], cursors);
      assert CursorsOf(reports, cursors)[..n] == front;
      assert reports[n] in reports;
    } else {
      NoRows(PowersOf(LastDevice(cursors, device, identity)));
    }
  }

  /** Every collection moves the cursor of every power handle of every device by exactly one step of the
      single-handle machine, so its theorems hold for each handle over any sequence of collections. */
  lemma CollectionIsStep(cursors: seq<DeviceCursor>, reports: Option<seq<Report>>, next: seq<DeviceCursor>,
      device: Handle, identity: Identity, h: Handle)
    requires reports.None? ==> next == cursors
    requires reports.Some? ==> next == CursorsOf(reports.value, cursors)
    requires reports.Some? ==> forall r :: r in reports.value ==> ReportOk(r, cursors)
    ensures Remembered(next, device, identity, h)
      == After(Remembered(cursors, device, identity, h), Observed(reports, device, identity, h))
  {
    if reports.Some? {
      hide RowsOk, NextPowers, CursorsOf, LastReport, LastDevice;
      ReportsRefine(reports.value, cursors, device, identity);
      RowsRefine(LastReport(reports.value, device, identity), PowersOf(LastDevice(cursors, device, identity)), h);
    }
  }

  lemma {:induction false} LastDeviceIn(cursors: seq<DeviceCursor>, device: Handle, identity: Identity)
    ensures var found := LastDevice(cursors, device, identity);
      found.Some? ==> found.value in cursors && found.value.device == device && found.value.identity == identity
    ensures LastDevice(cursors, device, identity).None? ==>
      forall c :: c in cursors ==> c.device != device || c.identity != identity
    decreases |cursors|
  {
    if cursors != [] {
      var n := |cursors| - 1;
      LastDeviceIn(cursors[..n], device, identity);
      assert cursors == cursors[..n] + [cursors[n]];
    }
  }

  lemma {:induction false} LastPowerIn(powers: seq<Cursor>, h: Handle)
    ensures LastPower(powers, h).Some? ==> LastPower(powers, h).value in powers && LastPower(powers, h).value.power == h
    ensures LastPower(powers, h).None? ==> forall c :: c in powers ==> c.power != h
    decreases |powers|
  {
    if powers != [] {
      var n := |powers| - 1;
      LastPowerIn(powers[..n], h);
      assert powers == powers[..n] + [powers[n]];
    }
  }

  predicate LeftBy(c: DeviceCursor, device: Handle, identity: Identity, power: Cursor) {
    c.device == device && c.identity == identity && power in c.powers
  }

  /** What is remembered for a power handle was left for that handle, by that device under that identity. */
  lemma RememberedIsOwn(cursors: seq<DeviceCursor>, device: Handle, identity: Identity, h: Handle)
    ensures Remembered(cursors, device, identity, h).Some? ==>
      Remembered(cursors, device, identity, h).value.power == h
      && exists c :: c in cursors && LeftBy(c, device, identity, Remembered(cursors, device, identity, h).value)
    ensures (forall c :: c in cursors && c.device == device && c.identity == identity ==> c.powers == []) ==>
      Remembered(cursors, device, identity, h).None?
  {
    var found := LastDevice(cursors, device, identity);
    LastDeviceIn(cursors, device, identity);
    if found.Some? { LastPowerIn(found.value.powers, h); }
  }

  /** A valid counter reading: answered, not all ones, at a positive time. */
  predicate ValidReading(d: Domain) {
    d.counter == Ok && d.energy < 0xFFFF_FFFF_FFFF_FFFF && 0 < d.timestamp < 0xFFFF_FFFF_FFFF_FFFF
  }

  /** A handle whose properties were read, at the second attempt if need be. */
  predicate HasRow(d: Domain) {
    d.onSubdevice <= 1 && (d.properties == Ok || (d.properties == Error && d.retried == Ok))
  }

  /** What a committed report says about a power handle that answered: the energy and time of its counter, as
      they stand between the cursor remembered before and the one remembered now. */
  lemma AnswerPublished(r: Report, d: Device, cursors: seq<DeviceCursor>, h: Handle)
    requires Covers(r, d, cursors) && h in Enumerated(d.powers, false) && HasRow(d.answers(h))
    ensures var (a, before) := (d.answers(h), Remembered(cursors, r.device, r.identity, h));
      exists row :: row in r.rows && row.power == h
        && row.read == (if ValidReading(a) then Some(Cursor(h, a.energy, a.timestamp)) else None)
        && row.quality == (if ValidReading(a) then Published(before, Read(Cursor(h, a.energy, a.timestamp))) else Unavailable)
  {
    var row := RowFor(h, d.answers(h), d.card == Some(h), PowersOf(LastDevice(cursors, r.device, r.identity)));
    assert row in r.rows;
  }

  // ---- The headline -----------------------------------------------------------------------------------------------

  /** The scopes a headline is taken from, the best first: card, package, GPU, unknown. */
  const PREFERRED: seq<u32> := [1, 2, 5, 0]

  /** What a domain measures: the handle the driver calls the card measures the card. */
  function ScopeOf(d: Device, h: Handle): u32 {
    if d.card == Some(h) then 1 else if d.answers(h).scope <= 5 then d.answers(h).scope else 0
  }

  predicate Ahead(a: u32, b: u32) {
    exists i, j :: 0 <= i < j < |PREFERRED| && PREFERRED[i] == a && PREFERRED[j] == b
  }

  /** A root domain of one of those scopes. */
  predicate Eligible(d: Device, h: Handle) {
    h in Enumerated(d.powers, false) && HasRow(d.answers(h)) && d.answers(h).onSubdevice == 0 && ScopeOf(d, h) in PREFERRED
  }

  /** Every other eligible domain is of a scope behind this one's. */
  predicate Chosen(d: Device, h: Handle) {
    Eligible(d, h)
    && forall g :: g in Enumerated(d.powers, false) && g != h && Eligible(d, g) ==> Ahead(ScopeOf(d, h), ScopeOf(d, g))
  }

  lemma RankMeans(d: Device, h: Handle, g: Handle)
    ensures var (a, b) := (Rank(d.answers(h), d.card == Some(h)), Rank(d.answers(g), d.card == Some(g)));
      (d.answers(h).onSubdevice == 0 && ScopeOf(d, h) in PREFERRED <==> a.Some?)
      && (a.Some? && b.Some? ==> (Better(a, b) <==> Ahead(ScopeOf(d, h), ScopeOf(d, g))))
  {
    assert PREFERRED[0] == 1 && PREFERRED[1] == 2 && PREFERRED[2] == 5 && PREFERRED[3] == 0;
  }

  /** Ranks of rows are scopes of domains. */
  lemma RowRanks(r: Report, d: Device, cursors: seq<DeviceCursor>, i: nat, j: nat)
    requires OnlyAnswers(r, d, cursors) && i < |r.rows| && j < |r.rows|
    ensures var (x, y) := (r.rows[i], r.rows[j]);
      (Eligible(d, x.power) <==> x.rank.Some?)
      && (x.rank.Some? && y.rank.Some? ==> (Better(x.rank, y.rank) <==> Ahead(ScopeOf(d, x.power), ScopeOf(d, y.power))))
  {
    hide Rank, ScopeOf, Ahead, Enumerated, ReadingOf, Published;
    assert r.rows[i] in r.rows && r.rows[j] in r.rows;
    RankMeans(d, r.rows[i].power, r.rows[j].power);
  }

  lemma RowOf(r: Report, d: Device, cursors: seq<DeviceCursor>, h: Handle) returns (i: nat)
    requires Covers(r, d, cursors) && Eligible(d, h)
    ensures i < |r.rows| && r.rows[i].power == h
  {
    hide Rank, ScopeOf, Enumerated, ReadingOf, Published;
    var row := RowFor(h, d.answers(h), d.card == Some(h), PowersOf(LastDevice(cursors, r.device, r.identity)));
    assert row in r.rows;
    i :| 0 <= i < |r.rows| && r.rows[i] == row;
  }

  lemma Unranked(a: Option<nat>, b: Option<nat>)
    requires a.Some? && b.None?
    ensures Better(a, b)
  {}

  lemma ChosenIsHeadline(r: Report, d: Device, cursors: seq<DeviceCursor>, h: Handle)
    requires ReportOk(r, cursors) && Covers(r, d, cursors) && OnlyAnswers(r, d, cursors) && Chosen(d, h)
    ensures r.headline.Some? && r.headline.value < |r.rows| && r.rows[r.headline.value].power == h
  {
    hide ScopeOf, Ahead, Enumerated, HasRow, Covers, OnlyAnswers, RowOk, Better;
    var i := RowOf(r, d, cursors, h);
    RowRanks(r, d, cursors, i, i);
    forall j | 0 <= j < |r.rows| && j != i ensures Better(r.rows[i].rank, r.rows[j].rank) {
      RowRanks(r, d, cursors, i, j);
      RowRanks(r, d, cursors, j, i);
      if r.rows[j].rank.None? { Unranked(r.rows[i].rank, r.rows[j].rank); }
    }
    assert Headline(r.rows, i);
  }

  lemma HeadlineIsOnly(r: Report, d: Device, cursors: seq<DeviceCursor>, i: nat)
    requires ReportOk(r, cursors) && Covers(r, d, cursors) && OnlyAnswers(r, d, cursors) && r.headline == Some(i)
    ensures i < |r.rows| && Chosen(d, r.rows[i].power)
  {
    hide ScopeOf, Ahead, Enumerated, HasRow, Covers, OnlyAnswers, RowOk, Better;
    assert Headline(r.rows, i);
    RowRanks(r, d, cursors, i, i);
    var h := r.rows[i].power;
    forall g | g in Enumerated(d.powers, false) && g != h && Eligible(d, g) ensures Ahead(ScopeOf(d, h), ScopeOf(d, g)) {
      var j := RowOf(r, d, cursors, g);
      RowRanks(r, d, cursors, i, j);
      RowRanks(r, d, cursors, j, i);
    }
  }

  /** The headline of a report is the reading of the one domain whose scope is preferred to all others', if
      there is one. */
  lemma HeadlineIsChosen(r: Report, d: Device, cursors: seq<DeviceCursor>, h: Handle)
    requires ReportOk(r, cursors) && Covers(r, d, cursors) && OnlyAnswers(r, d, cursors)
    ensures Chosen(d, h) <==> r.headline.Some? && r.headline.value < |r.rows| && r.rows[r.headline.value].power == h
  {
    hide ReportOk, Covers, OnlyAnswers, Chosen;
    if Chosen(d, h) { ChosenIsHeadline(r, d, cursors, h); }
    if r.headline.Some? { HeadlineIsOnly(r, d, cursors, r.headline.value); }
  }

  // ---- Sequences of collections ---------------------------------------------------------------------------------

  /** The quality published for a handle. */
  function QualityIn(rows: seq<Row>, h: Handle): Quality {
    if rows == [] then Unavailable
    else
      var n := |rows| - 1;
      if rows[n].power == h then rows[n].quality else QualityIn(rows[..n], h)
  }

  /** The energy a collection published for a power handle, read off its report. */
  function Reported(reports: Option<seq<Report>>, device: Handle, identity: Identity, h: Handle): real {
    if reports.None? then 0.0 else EnergyOf(QualityIn(LastReport(reports.value, device, identity), h))
  }

  function ReportedTotal(all: seq<Option<seq<Report>>>, device: Handle, identity: Identity, h: Handle): real {
    if all == [] then 0.0
    else ReportedTotal(all[..|all| - 1], device, identity, h) + Reported(all[|all| - 1], device, identity, h)
  }

  /** What a sequence of collections did for one power handle. */
  function History(all: seq<Option<seq<Report>>>, device: Handle, identity: Identity, h: Handle): seq<Observation> {
    if all == [] then []
    else History(all[..|all| - 1], device, identity, h) + [Observed(all[|all| - 1], device, identity, h)]
  }

  lemma {:induction false} QualityPublished(rows: seq<Row>, prior: seq<Cursor>, h: Handle)
    requires RowsOk(rows, prior)
    ensures QualityIn(rows, h) == Published(LastPower(prior, h), SeenIn(rows, h))
    decreases |rows|
  {
    hide EnergyStep, RowsOk, LastPower;
    if rows != [] {
      RowsFront(rows, prior);
      QualityPublished(rows[..|rows| - 1], prior, h);
    }
  }

  lemma ReportPublished(reports: Option<seq<Report>>, cursors: seq<DeviceCursor>, device: Handle, identity: Identity, h: Handle)
    requires reports.Some? ==> forall r :: r in reports.value ==> ReportOk(r, cursors)
    ensures Reported(reports, device, identity, h)
      == EnergyOf(Published(Remembered(cursors, device, identity, h), Observed(reports, device, identity, h)))
  {
    if reports.Some? {
      hide RowsOk, NextPowers, CursorsOf, LastReport, LastDevice;
      ReportsRefine(reports.value, cursors, device, identity);
      QualityPublished(LastReport(reports.value, device, identity), PowersOf(LastDevice(cursors, device, identity)), h);
    }
  }

  lemma {:induction false} RunSnoc(before: Option<Cursor>, run: seq<Observation>, o: Observation)
    ensures Final(before, run + [o]) == After(Final(before, run), o)
    ensures Total(before, run + [o]) == Total(before, run) + EnergyOf(Published(Final(before, run), o))
    decreases |run|
  {
    if run == [] {
      assert [] + [o] == [o] && [o][1..] == [];
    } else {
      assert (run + [o])[1..] == run[1..] + [o];
      RunSnoc(After(before, run[0]), run[1..], o);
    }
  }

  /** Reports and cursors of a sequence of collections are the run of the single-handle machine. */
  ghost predicate Follows(start: seq<DeviceCursor>, all: seq<Option<seq<Report>>>, end: seq<DeviceCursor>,
      device: Handle, identity: Identity, h: Handle)
  {
    var (before, run) := (Remembered(start, device, identity, h), History(all, device, identity, h));
    Remembered(end, device, identity, h) == Final(before, run)
    && ReportedTotal(all, device, identity, h) == Total(before, run)
  }

  /** Over an unbroken stretch the reported energy is the counter's advance. */
  ghost predicate Accounts(start: seq<DeviceCursor>, all: seq<Option<seq<Report>>>, end: seq<DeviceCursor>,
      device: Handle, identity: Identity, h: Handle)
  {
    var (first, last) := (Remembered(start, device, identity, h), Remembered(end, device, identity, h));
    first.Some? && Unbroken(first, History(all, device, identity, h)) ==>
      last.Some? && first.value.energy <= last.value.energy
      && ReportedTotal(all, device, identity, h) == (last.value.energy - first.value.energy) as real
  }

  lemma NothingFollows(start: seq<DeviceCursor>, device: Handle, identity: Identity, h: Handle)
    ensures Follows(start, [], start, device, identity, h)
  {}

  lemma FollowsMore(start: seq<DeviceCursor>, all: seq<Option<seq<Report>>>, cursors: seq<DeviceCursor>,
      reports: Option<seq<Report>>, next: seq<DeviceCursor>, device: Handle, identity: Identity, h: Handle)
    requires Follows(start, all, cursors, device, identity, h)
    requires reports.None? ==> next == cursors
    requires reports.Some? ==> next == CursorsOf(reports.value, cursors)
    requires reports.Some? ==> forall r :: r in reports.value ==> ReportOk(r, cursors)
    ensures Follows(start, all + [reports], next, device, identity, h)
  {
    hide Remembered, Observed, Reported, ReportOk, CursorsOf, After, Published, EnergyOf;
    CollectionIsStep(cursors, reports, next, device, identity, h);
    ReportPublished(reports, cursors, device, identity, h);
    RunSnoc(Remembered(start, device, identity, h), History(all, device, identity, h), Observed(reports, device, identity, h));
    assert (all + [reports])[..|all|] == all;
  }

  lemma FollowsAccounts(start: seq<DeviceCursor>, all: seq<Option<seq<Report>>>, end: seq<DeviceCursor>,
      device: Handle, identity: Identity, h: Handle)
    requires Follows(start, all, end, device, identity, h)
    ensures Accounts(start, all, end, device, identity, h)
  {
    var first := Remembered(start, device, identity, h);
    if first.Some? && Unbroken(first, History(all, device, identity, h)) {
      Telescopes(first, History(all, device, identity, h));
    }
  }

  /** Every published value stands for 100 ms to 5 s. */
  predicate Timely(reports: seq<Report>) {
    forall r, row :: r in reports && row in r.rows && row.quality.Fresh? ==> SHORTEST <= row.quality.interval <= LONGEST
  }

  lemma ReportsTimely(reports: seq<Report>, cursors: seq<DeviceCursor>)
    requires forall r :: r in reports ==> ReportOk(r, cursors)
    ensures Timely(reports)
  {
    forall r, row | r in reports && row in r.rows && row.quality.Fresh?
      ensures SHORTEST <= row.quality.interval <= LONGEST {
      var prior := PowersOf(LastDevice(cursors, r.device, r.identity));
      assert ReportOk(r, cursors) && RowOk(row, prior);
      IntervalBounds(LastPower(prior, row.power), ObservationOf(row));
    }
  }

  /** Any sequence of collections by one reader: as long as a power handle's readings are unbroken, the energy
      published for it over all of them is exactly the advance of its counter between the cursor remembered at
      the start and the one remembered at the end. */
  method Session(reader: Reader, polls: seq<Poll>) returns (all: seq<Option<seq<Report>>>)
    requires reader.Valid() && reader.ready && forall p :: p in polls ==> |p.devices| <= DEVICES
    modifies reader`lost, reader`cursors
    ensures reader.Valid() && |all| == |polls|
    ensures forall device, identity, h :: Follows(old(reader.cursors), all, reader.cursors, device, identity, h)
    ensures forall device, identity, h :: Accounts(old(reader.cursors), all, reader.cursors, device, identity, h)
    ensures forall reports :: reports in all && reports.Some? ==> Timely(reports.value)
  {
    hide Follows, Timely, ReportOk;
    all := [];
    ghost var start := reader.cursors;
    forall device, identity, h ensures Follows(start, [], start, device, identity, h) {
      NothingFollows(start, device, identity, h);
    }
    for k := 0 to |polls|
      invariant reader.Valid() && reader.ready && |all| == k
      invariant forall device, identity, h :: Follows(start, all, reader.cursors, device, identity, h)
      invariant forall reports :: reports in all && reports.Some? ==> Timely(reports.value)
    {
      assert polls[k] in polls;
      ghost var (prior, earlier) := (reader.cursors, all);
      var reports := reader.Collect(polls[k]);
      if reports.Some? { ReportsTimely(reports.value, prior); }
      all := all + [reports];
      forall device, identity, h ensures Follows(start, all, reader.cursors, device, identity, h) {
        FollowsMore(start, earlier, prior, reports, reader.cursors, device, identity, h);
      }
    }
    forall device, identity, h ensures Accounts(start, all, reader.cursors, device, identity, h) {
      FollowsAccounts(start, all, reader.cursors, device, identity, h);
    }
  }
}
