/** Capacity probes of removable drives: two background workers at most, one slot per drive
    letter, and a discard flag for workers overtaken by a change of the drive. */
module RemovableProbes {
  import opened Bytes

  const DRIVES: nat := 26
  const MAX_PROBES: nat := 2
  const REFRESH: u32 := 30000
  const MISS_REFRESH: u32 := 5000

  datatype Kind = Unknown | NoRoot | Removable | Fixed | Remote | Cdrom | RamDisk

  datatype Measurement = Measurement(available: u64, total: u64, freeTotal: u64, filesystem: string, flags: u32,
    completedAt: u32, capacityOk: bool, identityOk: bool)

  const ZERO := Measurement(0, 0, 0, "", 0, 0, false, false)

  /** The thread handle: absent, or present with the worker still running or already finished. */
  datatype Thread = NoThread | Running | Exited

  /** `epoch` counts the observed kind changes and disappearances of the letter; `run` and `cachedRun`
      name the worker that fills or filled the two measurements. They record history and steer nothing. */
  datatype Probe = Probe(thread: Thread, working: Measurement, cached: Measurement, kind: Kind,
    hasCached: bool, discard: bool, epoch: nat, run: nat, cachedRun: nat)

  /** One worker: its letter, the epoch it was started in, and what it had stored when it ended. */
  datatype Run = Run(letter: nat, epoch: nat, result: Option<Measurement>)
  datatype State = State(probes: seq<Probe>, runs: seq<Run>)

  function Busy(probes: seq<Probe>): nat {
    if probes == [] then 0 else (if probes[0].thread == NoThread then 0 else 1) + Busy(probes[1..])
  }

  /** Steps of the two sides. Store and Exit belong to the worker, everything else to the collector. */
  datatype Event =
    | Store(i: nat, m: Measurement)
    | Exit(i: nat)
    | Reap(i: nat)
    | Observe(i: nat, kind: Kind)
    | Miss(i: nat)
    | Start(i: nat, created: bool)

  predicate ByWorker(e: Event) {
    e.Store? || e.Exit?
  }

  predicate Enabled(s: State, e: Event) {
    e.i < |s.probes| && (ByWorker(e) ==> s.probes[e.i].thread == Running && s.probes[e.i].run < |s.runs|)
    && (e.Start? ==> s.probes[e.i].thread == NoThread)
  }

  function Reaped(p: Probe): Probe {
    if p.thread != Exited then p
    else if p.discard then p.(thread := NoThread, discard := false)
    else p.(thread := NoThread, cached := p.working, hasCached := true, cachedRun := p.run)
  }

  function Observed(p: Probe, kind: Kind): Probe {
    if p.kind == kind then p
    else p.(hasCached := false, discard := p.thread != NoThread, kind := kind, epoch := p.epoch + 1)
  }

  function Missed(p: Probe): Probe {
    p.(hasCached := false, discard := p.thread != NoThread, kind := Unknown, epoch := p.epoch + 1)
  }

  function Next(s: State, e: Event): State
    requires Enabled(s, e)
  {
    var p := s.probes[e.i];
    match e
    case Store(i, m) => s.(probes := s.probes[i := p.(working := m)])
    case Exit(i) =>
      State(s.probes[i := p.(thread := Exited)], s.runs[p.run := s.runs[p.run].(result := Some(p.working))])
    case Reap(i) => s.(probes := s.probes[i := Reaped(p)])
    case Observe(i, kind) => s.(probes := s.probes[i := Observed(p, kind)])
    case Miss(i) => s.(probes := s.probes[i := Missed(p)])
    case Start(i, created) =>
      if Busy(s.probes) >= MAX_PROBES then s
      else
        var cleared := p.(working := ZERO, discard := false);
        if !created then s.(probes := s.probes[i := cleared])
        else State(s.probes[i := cleared.(thread := Running, run := |s.runs|)], s.runs + [Run(i, p.epoch, None)])
  }

  // ---- The invariant ------------------------------------------------------------------------------------

  /** A measurement is current when a worker for this letter, started since the letter's last change,
      had stored exactly it when it ended. */
  predicate Current(m: Measurement, i: nat, p: Probe, runs: seq<Run>) {
    p.cachedRun < |runs| && runs[p.cachedRun] == Run(i, p.epoch, Some(m))
  }

  predicate Tracked(i: nat, p: Probe, runs: seq<Run>) {
    p.run < |runs| && runs[p.run].letter == i && (!p.discard ==> runs[p.run].epoch == p.epoch)
    && runs[p.run].result == (if p.thread == Exited then Some(p.working) else None)
  }

  predicate ProbeInv(i: nat, p: Probe, runs: seq<Run>) {
    (p.hasCached ==> Current(p.cached, i, p, runs))
    && (p.discard ==> p.thread != NoThread)
    && (p.thread != NoThread ==> Tracked(i, p, runs))
  }

  predicate Inv(s: State) {
    |s.probes| == DRIVES && Busy(s.probes) <= MAX_PROBES
    && forall i :: 0 <= i < DRIVES ==> ProbeInv(i, s.probes[i], s.runs)
  }

  const FRESH := Probe(NoThread, ZERO, ZERO, Unknown, false, false, 0, 0, 0)
  const INITIAL := State(seq(DRIVES, _ => FRESH), [])

  lemma {:induction false} BusyNone(probes: seq<Probe>)
    requires forall p :: p in probes ==> p.thread == NoThread
    ensures Busy(probes) == 0
    decreases |probes|
  {
    if probes != [] {
      BusyNone(probes[1..]);
    }
  }

  lemma InvInitial()
    ensures Inv(INITIAL)
  {
    BusyNone(INITIAL.probes);
  }

  lemma {:induction false} BusyUpdate(probes: seq<Probe>, i: nat, p: Probe)
    requires i < |probes|
    ensures Busy(probes[i := p]) == Busy(probes) + (if p.thread == NoThread then 0 else 1)
      - (if probes[i].thread == NoThread then 0 else 1)
    decreases i
  {
    if i > 0 {
      assert probes[i := p][1..] == probes[1..][i - 1 := p];
      BusyUpdate(probes[1..], i - 1, p);
    } else {
      assert probes[0 := p][1..] == probes[1..];
    }
  }

  /** A probe's invariant survives what happens to other letters' workers. */
  lemma RunsElsewhere(i: nat, p: Probe, runs: seq<Run>, more: seq<Run>, r: nat)
    requires ProbeInv(i, p, runs) && r <= |runs| <= |more|
    requires forall k :: 0 <= k < |runs| && k != r ==> more[k] == runs[k]
    requires r < |runs| ==> runs[r].letter != i
    ensures ProbeInv(i, p, more)
  {}

  /** Every step of the collector and of every worker keeps the invariant. */
  lemma InvStep(s: State, e: Event)
    requires Inv(s) && Enabled(s, e)
    ensures Inv(Next(s, e))
  {
    hide Busy;
    var t := Next(s, e);
    BusyUpdate(s.probes, e.i, t.probes[e.i]);
    assert ProbeInv(e.i, s.probes[e.i], s.runs);
    assert t.probes == s.probes[e.i := t.probes[e.i]];
    forall i | 0 <= i < DRIVES ensures ProbeInv(i, t.probes[i], t.runs) {
      assert ProbeInv(i, s.probes[i], s.runs);
      if i != e.i {
        RunsElsewhere(i, s.probes[i], s.runs, t.runs, if e.Exit? then s.probes[e.i].run else |s.runs|);
      }
    }
  }

  predicate Runs(s: State, events: seq<Event>, t: State)
    decreases |events|
  {
    if events == [] then s == t
    else Enabled(s, events[0]) && Runs(Next(s, events[0]), events[1..], t)
  }

  lemma {:induction false} InvRun(s: State, events: seq<Event>, t: State)
    requires Inv(s) && Runs(s, events, t)
    ensures Inv(t)
    decreases |events|
  {
    hide Inv, Next, Enabled;
    if events != [] {
      InvStep(s, events[0]);
      InvRun(Next(s, events[0]), events[1..], t);
    }
  }

  /** In every reachable state at most two workers have been started and not reaped, and what the
      collector may publish for a letter is current. */
  lemma Published(events: seq<Event>, t: State, i: nat)
    requires Runs(INITIAL, events, t) && i < DRIVES
    ensures |t.probes| == DRIVES && Busy(t.probes) <= 2
    ensures t.probes[i].hasCached ==> Current(t.probes[i].cached, i, t.probes[i], t.runs)
  {
    hide Runs, Current;
    InvInitial();
    InvRun(INITIAL, events, t);
    assert ProbeInv(i, t.probes[i], t.runs);
  }

  /** One side at a time: while a letter's worker runs no step of the collector changes its buffer, its
      handle or its run record, and a worker changes nothing but its own buffer, handle and record. */
  lemma OneSide(s: State, e: Event, i: nat)
    requires Inv(s) && Enabled(s, e) && i < DRIVES
    ensures var (p, q) := (s.probes[i], Next(s, e).probes[i]);
      p.thread == Running && !(ByWorker(e) && e.i == i) ==> (q.thread == Running && q.working == p.working
        && q.run == p.run && Next(s, e).runs[p.run] == s.runs[p.run])
    ensures var (p, q) := (s.probes[i], Next(s, e).probes[i]);
      ByWorker(e) ==> (q == p.(working := q.working, thread := q.thread) && (i != e.i ==> q == p))
  {
    assert ProbeInv(i, s.probes[i], s.runs) && ProbeInv(e.i, s.probes[e.i], s.runs);
  }

  // ---- The collector --------------------------------------------------------------------------------------

  /** What the system said about one drive of the list: its letter, if it has one, its type, whether a
      thread could be created, and the direct reading of a drive that needs no worker. */
  datatype Drive = Drive(letter: Option<nat>, kind: Kind, created: bool, direct: Measurement)

  /** A published row; `source` is the worker whose result it repeats and the letter's epoch then. */
  datatype Row = Row(drive: Drive, measurement: Measurement, stale: bool, started: int, source: Option<(nat, nat)>)

  predicate Asynchronous(kind: Kind) {
    kind.Removable? || kind.Cdrom? || kind.Unknown?
  }

  function RefreshAfter(p: Probe): u32 {
    if p.hasCached && p.cached.capacityOk && p.cached.identityOk then REFRESH else MISS_REFRESH
  }

  /** A full reading is good for thirty seconds, a failed one for five. */
  predicate Expired(m: Measurement, now: u32) {
    Age(now, m.completedAt) >= if m.capacityOk && m.identityOk then REFRESH else MISS_REFRESH
  }

  predicate Sourced(row: Row, letter: nat, runs: seq<Run>)
    requires row.source.Some?
  {
    var (run, epoch) := row.source.value;
    run < |runs| && runs[run] == Run(letter, epoch, Some(row.measurement))
  }

  /** A row about a removable drive carries nothing, or what one of this letter's workers measured. */
  predicate RowSourced(row: Row, runs: seq<Run>) {
    row.drive.kind != NoRoot
    && (Asynchronous(row.drive.kind) && row.drive.letter.Some? ==>
      if row.source.None? then row.measurement == ZERO else Sourced(row, row.drive.letter.value, runs))
  }

  /** What a collection makes of one drive: its kind is noted, and a worker is started when the letter has none
      and nothing fresh is remembered. */
  function Visited(s: State, d: Drive, now: u32): State
    requires d.letter.Some? ==> d.letter.value < |s.probes|
  {
    if d.letter.None? then s
    else
      var i := d.letter.value;
      var t := Next(s, Observe(i, d.kind));
      var p := t.probes[i];
      if Asynchronous(d.kind) && p.thread == NoThread && (!p.hasCached || Age(now, p.cached.completedAt) >= RefreshAfter(p))
      then Next(t, Start(i, d.created)) else t
  }

  /** What a row shows: the remembered reading of a removable drive if there is one, nothing of a remote
      drive, and the direct reading of any other. */
  predicate Shows(row: Row, s: State) {
    if row.drive.kind.Remote? then row.measurement == ZERO && row.source.None?
    else if Asynchronous(row.drive.kind) && row.drive.letter.Some? && row.drive.letter.value < |s.probes| then
      var p := s.probes[row.drive.letter.value];
      row.source == (if p.hasCached then Some((p.cachedRun, p.epoch)) else None)
      && row.measurement == (if p.hasCached then p.cached else ZERO)
    else row.measurement == row.drive.direct
  }

  /** With the letter's probe as it was, a removable drive shows the remembered reading if its kind is unchanged, and
      nothing otherwise. */
  ghost predicate Recalls(row: Row, before: seq<Probe>) {
    row.drive.letter.Some? && row.drive.letter.value < |before| && Asynchronous(row.drive.kind) ==>
      var p := before[row.drive.letter.value];
      row.measurement == if p.kind == row.drive.kind && p.hasCached then p.cached else ZERO
  }

  /** The same in terms of the workers: a result just finished and not overtaken comes first. */
  ghost predicate Tells(row: Row, before: seq<Probe>) {
    row.drive.letter.Some? && row.drive.letter.value < |before|
    && (row.drive.kind.Removable? || row.drive.kind.Cdrom? || row.drive.kind.Unknown?) ==>
      var p := before[row.drive.letter.value];
      row.measurement == (
        if p.kind != row.drive.kind then ZERO
        else if p.thread == Exited && !p.discard then p.working
        else if p.hasCached then p.cached else ZERO)
  }

  lemma RecallsTells(row: Row, before: seq<Probe>, reaped: seq<Probe>)
    requires |reaped| == |before| && forall i :: 0 <= i < |before| ==> reaped[i] == Reaped(before[i])
    requires Recalls(row, reaped)
    ensures Tells(row, before)
  {}

  /** A drive shows what was remembered of its letter when the letter was visited, which is what was before. */
  lemma StillRecalls(row: Row, now: seq<Probe>, before: seq<Probe>)
    requires Recalls(row, now) && |now| == |before|
    requires row.drive.letter.Some? && row.drive.letter.value < |now| ==>
      now[row.drive.letter.value] == before[row.drive.letter.value]
    ensures Recalls(row, before)
  {}

  lemma {:induction false} BusySnoc(probes: seq<Probe>, p: Probe)
    ensures Busy(probes + [p]) == Busy(probes) + (if p.thread == NoThread then 0 else 1)
    decreases |probes|
  {
    if probes == [] {
      assert [p][1..] == [];
    } else {
      assert (probes + [p])[1..] == probes[1..] + [p];
      BusySnoc(probes[1..], p);
    }
  }

  lemma {:induction false} BusyCounts(probes: seq<Probe>, n: nat)
    requires n <= |probes|
    ensures Busy(probes[..n]) == |set i | 0 <= i < n && probes[i].thread != NoThread|
    decreases n
  {
    if n > 0 {
      BusyCounts(probes, n - 1);
      BusySnoc(probes[..n - 1], probes[n - 1]);
      assert probes[..n] == probes[..n - 1] + [probes[n - 1]];
      var few := set i | 0 <= i < n - 1 && probes[i].thread != NoThread;
      var all := set i | 0 <= i < n && probes[i].thread != NoThread;
      assert all == if probes[n - 1].thread != NoThread then few + {n - 1} else few;
    }
  }

  lemma LettersOnly(s: State)
    requires Inv(s)
    ensures |s.probes| == DRIVES
  {}

  /** A worker is started for a removable drive exactly if its letter has none, fewer than two letters have one, and
      nothing is remembered of the drive or its reading is thirty seconds old, five if it was incomplete. */
  lemma StartsWhenDue(s: State, d: Drive, now: u32, i: nat)
    requires Inv(s) && i < DRIVES && d.letter == Some(i) && d.created
    requires d.kind.Removable? || d.kind.Cdrom? || d.kind.Unknown?
    ensures var (p, t) := (s.probes[i], Visited(s, d, now));
      var busy := |set k | 0 <= k < DRIVES && s.probes[k].thread != NoThread|;
      var age := (now - p.cached.completedAt) % 0x1_0000_0000;
      var due := p.kind != d.kind || !p.hasCached
        || age >= if p.cached.capacityOk && p.cached.identityOk then 30000 else 5000;
      if p.thread == NoThread && busy < 2 && due then
        t.runs == s.runs + [Run(i, if p.kind == d.kind then p.epoch else p.epoch + 1, None)]
        && t.probes[i].thread == Running && t.probes[i].run == |s.runs|
      else t.runs == s.runs && t.probes[i].thread == p.thread
  {
    hide Inv, Busy;
    assert |s.probes| == DRIVES by { LettersOnly(s); }
    assert s.probes[..DRIVES] == s.probes;
    BusyCounts(s.probes, DRIVES);
    BusyUpdate(s.probes, i, Observed(s.probes[i], d.kind));
  }

  /** The drives that get a row. */
  function Present(drives: seq<Drive>): seq<Drive> {
    if drives == [] then []
    else
      var n := |drives| - 1;
      Present(drives[..n]) + if drives[n].kind.NoRoot? then [] else [drives[n]]
  }

  function Letters(drives: seq<Drive>): set<nat> {
    set d | d in drives && d.letter.Some? :: d.letter.value
  }

  predicate GoodDrives(drives: seq<Drive>) {
    forall d :: d in drives && d.letter.Some? ==> d.letter.value < DRIVES
  }

  predicate DistinctLetters(drives: seq<Drive>) {
    forall a, b :: 0 <= a < b < |drives| && drives[a].letter.Some? ==> drives[a].letter != drives[b].letter
  }

  /** The row's worker was started after the letter's latest change. */
  predicate RowCurrent(row: Row, probes: seq<Probe>) {
    row.drive.letter.Some? && row.source.Some? && row.drive.letter.value < |probes| ==>
      row.source.value.1 == probes[row.drive.letter.value].epoch
  }

  lemma NothingPresent()
    ensures Present([]) == [] && Letters([]) == {}
  {}

  lemma PresentMore(drives: seq<Drive>, n: nat)
    requires n < |drives|
    ensures Present(drives[..n + 1]) == Present(drives[..n]) + if drives[n].kind.NoRoot? then [] else [drives[n]]
    ensures Letters(Present(drives[..n + 1])) == Letters(Present(drives[..n]))
      + if drives[n].kind.NoRoot? || drives[n].letter.None? then {} else {drives[n].letter.value}
  {
    assert drives[..n + 1][..n] == drives[..n];
    var (few, all) := (Present(drives[..n]), Present(drives[..n + 1]));
    forall x ensures x in Letters(all) <==>
      x in Letters(few) || (!drives[n].kind.NoRoot? && drives[n].letter == Some(x)) {
      if !drives[n].kind.NoRoot? {
        assert all[|few|] == drives[n];
      }
      if x in Letters(few) {
        var d :| d in few && d.letter == Some(x);
        assert d in all;
      }
    }
  }

  lemma StillSourced(row: Row, runs: seq<Run>, more: seq<Run>)
    requires RowSourced(row, runs) && runs <= more
    ensures RowSourced(row, more)
  {
    if row.source.Some? && row.source.value.0 < |runs| {
      assert more[row.source.value.0] == runs[row.source.value.0];
    }
  }

  lemma StillCurrent(row: Row, probes: seq<Probe>, after: seq<Probe>)
    requires RowCurrent(row, probes) && |after| == |probes|
    requires row.drive.letter.Some? && row.drive.letter.value < |probes| ==>
      after[row.drive.letter.value] == probes[row.drive.letter.value]
    ensures RowCurrent(row, after)
  {}

  class Mounts {
    const probes: array<Probe>
    var runs: seq<Run>

    ghost function View(): State
      reads this, probes
    {
      State(probes[..], runs)
    }

    constructor ()
      ensures fresh(probes) && View() == INITIAL && Inv(View())
    {
      probes := new Probe[DRIVES](_ => FRESH);
      runs := [];
      new;
      InvInitial();
    }

    /** Takes over the result of every worker that has ended. */
    method CollectCompleted()
      requires Inv(View())
      modifies probes
      ensures Inv(View())
      ensures forall i :: 0 <= i < DRIVES ==> probes[i] == Reaped(old(probes[i]))
    {
      for i := 0 to DRIVES
        invariant Inv(View())
        invariant forall k :: 0 <= k < i ==> probes[k] == Reaped(old(probes[k]))
        invariant forall k :: i <= k < DRIVES ==> probes[k] == old(probes[k])
      {
        InvStep(View(), Reap(i));
        ghost var t := Next(View(), Reap(i));
        var p := probes[i];
        if p.thread == Exited {
          p := p.(thread := NoThread);
          if !p.discard { p := p.(cached := p.working, hasCached := true, cachedRun := p.run); }
          probes[i] := p.(discard := false);
        }
        assert probes[..] == t.probes;
      }
    }

    /** Starts a worker for a letter that has none, unless two are out already. */
    method StartProbe(i: nat, created: bool) returns (outcome: int)
      requires Inv(View()) && i < DRIVES && probes[i].thread == NoThread
      modifies this`runs, probes
      ensures View() == Next(old(View()), Start(i, created)) && Inv(View())
      ensures outcome == (if Busy(old(probes[..])) >= MAX_PROBES then 0 else if created then 1 else -1)
    {
      InvStep(View(), Start(i, created));
      ghost var t := Next(View(), Start(i, created));
      var running := 0;
      for k := 0 to DRIVES
        invariant running == Busy(probes[..k])
        invariant View() == old(View())
      {
        BusySnoc(probes[..k], probes[k]);
        assert probes[..k + 1] == probes[..k] + [probes[k]];
        if probes[k].thread != NoThread { running := running + 1; }
      }
      assert probes[..DRIVES] == probes[..];
      if running >= MAX_PROBES { return 0; }
      probes[i] := probes[i].(working := ZERO, discard := false);
      if !created {
        assert probes[..] == t.probes;
        return -1;
      }
      probes[i] := probes[i].(thread := Running, run := |runs|);
      runs := runs + [Run(i, probes[i].epoch, None)];
      assert probes[..] == t.probes;
      return 1;
    }

    /** Compares a drive's kind with the one last seen. */
    method Note(i: nat, kind: Kind)
      requires Inv(View()) && i < DRIVES
      modifies probes
      ensures View() == Next(old(View()), Observe(i, kind)) && Inv(View())
    {
      ghost var t := Next(View(), Observe(i, kind));
      InvStep(View(), Observe(i, kind));
      if probes[i].kind != kind {
        probes[i] := probes[i].(hasCached := false, discard := probes[i].thread != NoThread, kind := kind,
          epoch := probes[i].epoch + 1);
      }
      assert probes[..] == t.probes;
    }

    /** One drive of the list. */
    method PushDrive(d: Drive, now: u32) returns (row: Row)
      requires Inv(View()) && d.kind != NoRoot && (d.letter.Some? ==> d.letter.value < DRIVES)
      modifies this`runs, probes
      ensures Inv(View()) && row.drive == d && RowSourced(row, runs) && RowCurrent(row, probes[..])
      ensures View() == Visited(old(View()), d, now) && Shows(row, View()) && Recalls(row, old(probes[..]))
      ensures row.source.Some? ==> (row.stale <==> Expired(row.measurement, now))
      ensures old(runs) <= runs
      ensures forall i :: 0 <= i < DRIVES && Some(i) != d.letter ==> probes[i] == old(probes[i])
    {
      row := Row(d, ZERO, false, 0, None);
      if d.letter.Some? {
        Note(d.letter.value, d.kind);
      }
      if d.kind == Remote {
        return;
      }
      if Asynchronous(d.kind) && d.letter.Some? {
        var i := d.letter.value;
        var refresh := RefreshAfter(probes[i]);
        if probes[i].thread == NoThread
          && (!probes[i].hasCached || Age(now, probes[i].cached.completedAt) >= refresh) {
          var outcome := StartProbe(i, d.created);
          row := row.(started := outcome);
        }
        if probes[i].hasCached {
          assert ProbeInv(i, View().probes[i], runs);
          row := row.(measurement := probes[i].cached, stale := Age(now, probes[i].cached.completedAt) >= refresh,
            source := Some((probes[i].cachedRun, probes[i].epoch)));
        }
      } else {
        row := row.(measurement := d.direct);
      }
    }

    /** A letter that was not in the list. */
    method Forget(i: nat)
      requires Inv(View()) && i < DRIVES
      modifies probes
      ensures Inv(View())
      ensures probes[i] == Missed(old(probes[i])) && runs == old(runs)
      ensures forall k :: 0 <= k < DRIVES && k != i ==> probes[k] == old(probes[k])
    {
      ghost var t := Next(View(), Miss(i));
      InvStep(View(), Miss(i));
      probes[i] := probes[i].(hasCached := false, discard := probes[i].thread != NoThread, kind := Unknown,
        epoch := probes[i].epoch + 1);
      assert probes[..] == t.probes;
    }

    /** The rows of all drives, and the letters they cover. */
    method PushDrives(drives: seq<Drive>, now: u32) returns (rows: seq<Row>, seen: set<nat>)
      requires Inv(View()) && GoodDrives(drives)
      modifies this`runs, probes
      ensures Inv(View()) && seen == Letters(Present(drives))
      ensures |rows| == |Present(drives)| && forall k :: 0 <= k < |rows| ==> rows[k].drive == Present(drives)[k]
      ensures forall row :: row in rows ==> RowSourced(row, runs)
      ensures forall row :: row in rows && row.drive.letter.Some? ==> row.drive.letter.value in seen
      ensures DistinctLetters(drives) ==> forall row :: row in rows ==> RowCurrent(row, probes[..])
      ensures DistinctLetters(drives) ==> forall row :: row in rows ==> Recalls(row, old(probes[..]))
    {
      hide Inv, RowSourced, RowCurrent, Present, Letters, Visited, Shows, Expired, Recalls;
      ghost var start := probes[..];
      rows, seen := [], {};
      NothingPresent();
      assert drives[..0] == [];
      for k := 0 to |drives|
        invariant Inv(View())
        invariant forall row :: row in rows ==> RowSourced(row, runs) && row.drive in drives[..k]
        invariant forall row :: row in rows && row.drive.letter.Some? ==> row.drive.letter.value in seen
        invariant |rows| == |Present(drives[..k])| && forall j :: 0 <= j < |rows| ==> rows[j].drive == Present(drives[..k])[j]
        invariant seen == Letters(Present(drives[..k]))
        invariant DistinctLetters(drives) ==> forall row :: row in rows ==> RowCurrent(row, probes[..])
        invariant DistinctLetters(drives) ==> forall row :: row in rows ==> Recalls(row, start)
        invariant forall i | 0 <= i < probes.Length && (forall j :: 0 <= j < k ==> drives[j].letter != Some(i)) ::
          probes[i] == start[i]
      {
        var d := drives[k];
        PresentMore(drives, k);
        if d.kind != NoRoot {
          ghost var (before, prior) := (probes[..], runs);
          assert d in drives;
          var row := PushDrive(d, now);
          if d.letter.Some? { seen := seen + {d.letter.value}; }
          forall r | r in rows ensures RowSourced(r, runs) { StillSourced(r, prior, runs); }
          if DistinctLetters(drives) {
            forall r | r in rows ensures RowCurrent(r, probes[..]) { StillCurrent(r, before, probes[..]); }
            StillRecalls(row, before, start);
          }
          rows := rows + [row];
        }
      }
      assert drives[..|drives|] == drives;
    }

    /** A whole collection. Every capacity it publishes for a removable drive was measured by a worker
        for that letter; with every letter listed once, one started since the letter's latest change. */
    method PushMountRecords(drives: seq<Drive>, now: u32) returns (rows: seq<Row>)
      requires Inv(View()) && GoodDrives(drives)
      modifies this`runs, probes
      ensures Inv(View())
      ensures |rows| == |Present(drives)| && forall k :: 0 <= k < |rows| ==> rows[k].drive == Present(drives)[k]
      ensures forall i :: 0 <= i < DRIVES && i !in Letters(Present(drives)) ==> !probes[i].hasCached && probes[i].kind == Unknown
      ensures forall row :: row in rows ==> RowSourced(row, runs)
      ensures DistinctLetters(drives) ==> forall row :: row in rows ==> RowCurrent(row, probes[..])
      ensures DistinctLetters(drives) ==> forall row :: row in rows ==> Tells(row, old(probes[..]))
    {
      hide Inv, RowSourced, RowCurrent, Present, Letters, Recalls, Tells, Reaped;
      ghost var start := probes[..];
      CollectCompleted();
      ghost var reaped := probes[..];
      var seen;
      rows, seen := PushDrives(drives, now);
      if DistinctLetters(drives) {
        forall row | row in rows ensures Tells(row, start) { RecallsTells(row, start, reaped); }
      }
      for i := 0 to DRIVES
        invariant forall k :: 0 <= k < i && k !in seen ==> !probes[k].hasCached && probes[k].kind == Unknown
        invariant Inv(View()) && forall row :: row in rows ==> RowSourced(row, runs)
        invariant DistinctLetters(drives) ==> forall row :: row in rows ==> RowCurrent(row, probes[..])
      {
        if i !in seen {
          ghost var before := probes[..];
          Forget(i);
          if DistinctLetters(drives) {
            forall r | r in rows ensures RowCurrent(r, probes[..]) { StillCurrent(r, before, probes[..]); }
          }
        }
      }
    }
  }
}
