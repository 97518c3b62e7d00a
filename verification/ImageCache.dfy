/** The shared worker executable: a reference-counted descriptor per slot, looked up and
    installed under a mutex while construction happens outside it. */
module ImageCache {
  import opened Bytes

  const VENDORS: nat := 3

  datatype Identity = Identity(device: nat, inode: nat, size: nat)
  datatype File = File(identity: Identity, immutable: bool)
  datatype Slot = Slot(fd: int, users: nat, identity: Identity)

  /** Where a controller thread stands. Acquired holds the executable it was given; in Unlocked
      it has given its reference back but not yet cleared its own flag. */
  datatype Phase = Idle | Building | Built(file: nat) | Acquired(file: nat) | Unlocked | Done
  datatype Job = Job(vendor: nat, shared: bool, phase: Phase, image: Option<Identity>)

  /** The two cache slots, every job, and what each open descriptor refers to. */
  datatype State = State(slots: seq<Slot>, jobs: map<nat, Job>, files: map<nat, File>)

  function SlotOf(vendor: nat): nat {
    if vendor < VENDORS then 0 else 1
  }

  predicate CachedIdentity(slot: Slot, files: map<nat, File>) {
    slot.fd >= 0 && slot.fd in files && files[slot.fd].identity == slot.identity
  }

  predicate CachedImmutable(slot: Slot, files: map<nat, File>) {
    CachedIdentity(slot, files) && files[slot.fd].immutable
  }

  /** One atomic step. The operating system's answers are part of the step: `copy` is the
      descriptor a duplication returned, or None when it failed. */
  datatype Event =
    | Start(job: nat, vendor: nat)
    | Lookup(job: nat, copy: Option<nat>)
    | Construct(job: nat, built: Option<(nat, File)>)
    | Install(job: nat, copy: Option<nat>, stat: bool)
    | Release(job: nat)
    | Clear(job: nat)
    /** The embedding program may open, close or replace any descriptor at any time. */
    | Environment(table: map<nat, File>)

  ghost predicate In(s: State, j: nat, phase: Phase) {
    j in s.jobs && s.jobs[j].phase == phase
  }

  ghost predicate FreshCopy(s: State, copy: Option<nat>, source: int) {
    copy.Some? ==> copy.value !in s.files && source >= 0 && source in s.files
  }

  ghost predicate Enabled(s: State, e: Event) {
    |s.slots| == 2 &&
    match e
    case Start(j, _) => j !in s.jobs
    case Lookup(j, copy) => In(s, j, Idle) && FreshCopy(s, copy, s.slots[SlotOf(s.jobs[j].vendor)].fd)
    case Construct(j, built) => In(s, j, Building) && (built.Some? ==> built.value.0 !in s.files)
    case Install(j, copy, _) =>
      j in s.jobs && s.jobs[j].phase.Built?
      && (var slot := s.slots[SlotOf(s.jobs[j].vendor)];
        FreshCopy(s, copy, if slot.users == 0 && slot.fd < 0 then s.jobs[j].phase.file else slot.fd))
    case Release(j) => j in s.jobs && s.jobs[j].phase.Acquired?
    case Clear(j) => In(s, j, Unlocked)
    case Environment(_) => true
  }

  function Share(s: State, k: nat, j: nat, copy: nat): State
    requires k < |s.slots| && j in s.jobs && s.slots[k].fd >= 0 && s.slots[k].fd in s.files
  {
    var slot := s.slots[k];
    var job := s.jobs[j].(shared := true, phase := Acquired(copy), image := Some(slot.identity));
    State(s.slots[k := slot.(users := slot.users + 1)], s.jobs[j := job], s.files[copy := s.files[slot.fd]])
  }

  function Next(s: State, e: Event): State
    requires Enabled(s, e)
  {
    match e
    case Start(j, vendor) => s.(jobs := s.jobs[j := Job(vendor, false, Idle, None)])
    case Lookup(j, copy) =>
      var k := SlotOf(s.jobs[j].vendor);
      if s.slots[k].users > 0 && CachedImmutable(s.slots[k], s.files) && copy.Some?
      then Share(s, k, j, copy.value)
      else s.(jobs := s.jobs[j := s.jobs[j].(phase := Building)])
    case Construct(j, built) =>
      if built.None? then s.(jobs := s.jobs[j := s.jobs[j].(phase := Done)])
      else
        var (fd, file) := built.value;
        var phase := if file.immutable then Built(fd) else Acquired(fd);
        s.(jobs := s.jobs[j := s.jobs[j].(phase := phase)], files := s.files[fd := file])
    case Install(j, copy, stat) =>
      var k := SlotOf(s.jobs[j].vendor);
      var (slot, job) := (s.slots[k], s.jobs[j]);
      var kept := s.jobs[j := job.(phase := Acquired(job.phase.file))];
      if slot.users == 0 && slot.fd < 0 then
        if copy.Some? && stat then
          var held := s.files[job.phase.file];
          State(s.slots[k := Slot(copy.value, 1, held.identity)],
            s.jobs[j := job.(shared := true, phase := Acquired(job.phase.file), image := Some(held.identity))],
            s.files[copy.value := held])
        else s.(jobs := kept)
      else if slot.users > 0 && CachedImmutable(slot, s.files) && copy.Some? then
        var t := Share(s, k, j, copy.value);
        t.(files := t.files - {job.phase.file})
      else s.(jobs := kept)
    case Release(j) =>
      var job := s.jobs[j];
      if !job.shared then s.(jobs := s.jobs[j := job.(phase := Done)])
      else
        var k := SlotOf(job.vendor);
        var slot := s.slots[k];
        var jobs := s.jobs[j := job.(phase := Unlocked)];
        if slot.users == 0 then s.(jobs := jobs)
        else if slot.users > 1 then State(s.slots[k := slot.(users := slot.users - 1)], jobs, s.files)
        else State(s.slots[k := slot.(users := 0, fd := -1)], jobs,
          if CachedIdentity(slot, s.files) then s.files - {slot.fd} else s.files)
    case Clear(j) => s.(jobs := s.jobs[j := s.jobs[j].(shared := false, phase := Done)])
    case Environment(table) => s.(files := table)
  }

  // ---- The invariant ------------------------------------------------------------------------------

  /** The jobs of slot k whose flag is set, and those among them that still own a reference. */
  ghost function Flagged(s: State, k: nat): set<nat> {
    set j | j in s.jobs && SlotOf(s.jobs[j].vendor) == k && s.jobs[j].shared
  }

  predicate Holds(s: State, k: nat, j: nat) {
    j in s.jobs && SlotOf(s.jobs[j].vendor) == k && s.jobs[j].shared && !s.jobs[j].phase.Unlocked?
  }

  ghost function Holders(s: State, k: nat): set<nat> {
    set j | j in s.jobs && Holds(s, k, j)
  }

  ghost function Leaving(s: State, k: nat): set<nat> {
    set j | j in s.jobs && SlotOf(s.jobs[j].vendor) == k && s.jobs[j].phase.Unlocked?
  }

  ghost predicate SlotInv(s: State, k: nat)
    requires k < |s.slots|
  {
    s.slots[k].users == |Holders(s, k)|
    && (s.slots[k].users == 0 <==> s.slots[k].fd == -1) && s.slots[k].fd >= -1
    && forall j :: j in Holders(s, k) ==> s.jobs[j].image == Some(s.slots[k].identity)
  }

  ghost predicate JobInv(job: Job) {
    (job.shared ==> job.phase.Acquired? || job.phase.Unlocked?) && (job.phase.Unlocked? ==> job.shared)
  }

  ghost predicate Inv(s: State) {
    |s.slots| == 2 && SlotInv(s, 0) && SlotInv(s, 1) && forall j :: j in s.jobs ==> JobInv(s.jobs[j])
  }

  const INITIAL := State([Slot(-1, 0, Identity(0, 0, 0)), Slot(-1, 0, Identity(0, 0, 0))], map[], map[])

  lemma InvInitial()
    ensures Inv(INITIAL)
  {
    assert Holders(INITIAL, 0) == {} && Holders(INITIAL, 1) == {};
  }

  ghost predicate SameOthers(s: State, t: State, j: nat) {
    forall i :: i != j ==> (i in s.jobs <==> i in t.jobs) && (i in s.jobs ==> s.jobs[i] == t.jobs[i])
  }

  /** A step on job j keeps a slot's invariant when the count moves with j's own holding, and the
      cached executable is only replaced while nobody holds it. */
  lemma KeepsSlot(s: State, t: State, j: nat, k: nat)
    requires k < |s.slots| && k < |t.slots| && SlotInv(s, k) && SameOthers(s, t, j)
    requires var (was, now) := (Holds(s, k, j), Holds(t, k, j));
      t.slots[k].users == s.slots[k].users + (if now then 1 else 0) - (if was then 1 else 0)
    requires t.slots[k].users == 0 <==> t.slots[k].fd == -1
    requires t.slots[k].fd >= -1
    requires t.slots[k].identity == s.slots[k].identity || s.slots[k].users == 0
    requires Holds(t, k, j) ==> t.jobs[j].image == Some(t.slots[k].identity)
    ensures SlotInv(t, k)
  {
    var (old_, new_) := (Holders(s, k), Holders(t, k));
    if Holds(t, k, j) {
      assert new_ == old_ + {j};
    } else {
      assert new_ == old_ - {j};
    }
    forall i | i in new_ && i != j ensures t.jobs[i].image == Some(t.slots[k].identity) {
      assert i in old_;
    }
  }

  lemma Counted(s: State, k: nat, j: nat)
    requires k < |s.slots| && SlotInv(s, k) && Holds(s, k, j)
    ensures s.slots[k].users >= 1 && s.jobs[j].image == Some(s.slots[k].identity)
  {
    assert j in Holders(s, k);
  }

  lemma KeepsSlots(s: State, e: Event)
    requires Inv(s) && Enabled(s, e) && !e.Environment?
    ensures var t := Next(s, e); |t.slots| == 2 && SlotInv(t, 0) && SlotInv(t, 1)
  {
    hide Holders;
    var (t, j) := (Next(s, e), e.job);
    if Holds(s, 0, j) {
      Counted(s, 0, j);
    } else if Holds(s, 1, j) {
      Counted(s, 1, j);
    }
    KeepsSlot(s, t, j, 0);
    KeepsSlot(s, t, j, 1);
  }

  /** Every step of every job, and every interference, keeps the counts right. */
  lemma InvStep(s: State, e: Event)
    requires Inv(s) && Enabled(s, e)
    ensures Inv(Next(s, e))
  {
    var t := Next(s, e);
    if e.Environment? {
      assert Holders(t, 0) == Holders(s, 0) && Holders(t, 1) == Holders(s, 1);
    } else {
      hide SlotInv;
      KeepsSlots(s, e);
    }
  }

  ghost predicate Runs(s: State, events: seq<Event>, t: State)
    decreases |events|
  {
    if events == [] then s == t
    else Enabled(s, events[0]) && Runs(Next(s, events[0]), events[1..], t)
  }

  /** Safety over every interleaving. */
  lemma {:induction false} InvRun(s: State, events: seq<Event>, t: State)
    requires Inv(s) && Runs(s, events, t)
    ensures Inv(t)
    decreases |events|
  {
    if events != [] {
      InvStep(s, events[0]);
      InvRun(Next(s, events[0]), events[1..], t);
    }
  }

  /** A slot's count equals the number of jobs with their flag set exactly while none of them is
      between giving its reference back and clearing the flag. */
  lemma CountExact(s: State, k: nat)
    requires Inv(s) && k < 2
    ensures s.slots[k].users + |Leaving(s, k)| == |Flagged(s, k)|
    ensures s.slots[k].users == |Flagged(s, k)| <==> Leaving(s, k) == {}
  {
    assert Flagged(s, k) == Holders(s, k) + Leaving(s, k);
    assert Holders(s, k) !! Leaving(s, k);
  }

  ghost predicate Takes(s: State, e: Event, t: State) {
    Enabled(s, e) && Next(s, e) == t
  }

  lemma RunsOne(t: State)
    ensures Runs(t, [], t)
  {}

  lemma Prefix(s: State, e: Event, rest: seq<Event>, next: State, t: State)
    requires Takes(s, e, next) && Runs(next, rest, t)
    ensures Runs(s, [e] + rest, t)
  {
    assert ([e] + rest)[1..] == rest;
  }

  // One job that starts, builds, installs and has just given its reference back.
  const FILE := File(Identity(1, 2, 3), true)
  const STARTED := INITIAL.(jobs := map[7 := Job(0, false, Idle, None)])
  const MISSED := INITIAL.(jobs := map[7 := Job(0, false, Building, None)])
  const BUILT := State(INITIAL.slots, map[7 := Job(0, false, Built(10), None)], map[10 := FILE])
  const INSTALLED := State([Slot(11, 1, FILE.identity), INITIAL.slots[1]],
    map[7 := Job(0, true, Acquired(10), Some(FILE.identity))], map[10 := FILE, 11 := FILE])
  const RELEASED := State([Slot(-1, 0, FILE.identity), INITIAL.slots[1]],
    map[7 := Job(0, true, Unlocked, Some(FILE.identity))], map[10 := FILE])

  lemma SampleSteps()
    ensures Takes(INITIAL, Start(7, 0), STARTED) && Takes(STARTED, Lookup(7, None), MISSED)
    ensures Takes(MISSED, Construct(7, Some((10, FILE))), BUILT)
    ensures Takes(BUILT, Install(7, Some(11), true), INSTALLED)
    ensures Takes(INSTALLED, Release(7), RELEASED)
  {}

  /** What can happen after that installation can happen from the start. */
  lemma AfterInstall(rest: seq<Event>, t: State)
    requires Runs(INSTALLED, rest, t)
    ensures exists events :: Runs(INITIAL, events, t)
  {
    hide Runs, Takes;
    SampleSteps();
    Prefix(BUILT, Install(7, Some(11), true), rest, INSTALLED, t);
    var last := [Install(7, Some(11), true)] + rest;
    Prefix(MISSED, Construct(7, Some((10, FILE))), last, BUILT, t);
    Prefix(STARTED, Lookup(7, None), [Construct(7, Some((10, FILE)))] + last, MISSED, t);
    Prefix(INITIAL, Start(7, 0), [Lookup(7, None)] + ([Construct(7, Some((10, FILE)))] + last), STARTED, t);
  }

  /** The flag count does run ahead of the slot's count in a reachable state. */
  lemma CountRunsAhead()
    ensures exists events, t :: Runs(INITIAL, events, t) && |t.slots| == 2 && |Flagged(t, 0)| == t.slots[0].users + 1
  {
    hide Runs, Takes;
    SampleSteps();
    RunsOne(RELEASED);
    Prefix(INSTALLED, Release(7), [], RELEASED, RELEASED);
    AfterInstall([Release(7)] + [], RELEASED);
    assert Flagged(RELEASED, 0) == {7};
  }

  /** A release is the last one exactly when it clears the slot, and the only descriptor it
      can close is one that still refers to the cached executable. */
  lemma ReleaseSafe(s: State, j: nat)
    requires Inv(s) && Enabled(s, Release(j)) && s.jobs[j].shared
    ensures var (k, t) := (SlotOf(s.jobs[j].vendor), Next(s, Release(j)));
      t.slots[k].users == s.slots[k].users - 1
      && (t.slots[k].fd == -1 <==> Holders(s, k) == {j})
      && (t.slots[k].fd != -1 ==> t.slots[k].fd == s.slots[k].fd && t.files == s.files)
      && (forall fd :: fd in s.files && fd !in t.files ==>
        fd == s.slots[k].fd && s.files[fd].identity == s.slots[k].identity && Holders(s, k) == {j})
  {
    var k := SlotOf(s.jobs[j].vendor);
    assert j in Holders(s, k);
    if Holders(s, k) != {j} {
      assert |Holders(s, k) - {j}| > 0 by {
        var i :| i in Holders(s, k) && i != j;
        assert i in Holders(s, k) - {j};
      }
    }
  }

  /** The copy got the number of the job's own descriptor, which something else had closed meanwhile. */
  predicate OwnNumber(s: State, e: Event)
    requires e.Install? && e.job in s.jobs && s.jobs[e.job].phase.Built?
  {
    e.copy == Some(s.jobs[e.job].phase.file)
  }

  /** A job that is given a reference ends up with a descriptor of the very executable its slot caches,
      write-protected if it was taken from the cache, unless the copy got the number of the job's own
      descriptor: closing the latter then closes the copy. While the job's own descriptor is open that
      cannot happen. */
  lemma SharedCopy(s: State, e: Event)
    requires Inv(s) && Enabled(s, e) && (e.Lookup? || e.Install?) && Next(s, e).jobs[e.job].shared
    ensures var (k, t) := (SlotOf(s.jobs[e.job].vendor), Next(s, e));
      t.jobs[e.job].phase.Acquired? && t.jobs[e.job].image == Some(t.slots[k].identity)
      && (var own := t.jobs[e.job].phase.file;
        (own in t.files && t.files[own].identity == t.slots[k].identity
          && (s.slots[k].users > 0 ==> t.files[own].immutable && t.slots[k].identity == s.slots[k].identity))
        <==> !(e.Install? && OwnNumber(s, e)))
    ensures e.Install? && s.jobs[e.job].phase.file in s.files ==> !OwnNumber(s, e)
  {
    assert !s.jobs[e.job].shared;
  }

  // A second job whose own descriptor is closed by something else before it installs.
  const SECOND := INSTALLED.(jobs := INSTALLED.jobs[8 := Job(0, false, Idle, None)])
  const SECOND_MISSED := INSTALLED.(jobs := INSTALLED.jobs[8 := Job(0, false, Building, None)])
  const SECOND_BUILT := State(INSTALLED.slots, INSTALLED.jobs[8 := Job(0, false, Built(12), None)],
    INSTALLED.files[12 := FILE])
  const CLOSED := SECOND_BUILT.(files := INSTALLED.files)
  const LOST := State([Slot(11, 2, FILE.identity), INITIAL.slots[1]],
    INSTALLED.jobs[8 := Job(0, true, Acquired(12), Some(FILE.identity))], INSTALLED.files)

  lemma LosingSteps()
    ensures Takes(INSTALLED, Start(8, 0), SECOND) && Takes(SECOND, Lookup(8, None), SECOND_MISSED)
    ensures Takes(SECOND_MISSED, Construct(8, Some((12, FILE))), SECOND_BUILT)
    ensures Takes(SECOND_BUILT, Environment(INSTALLED.files), CLOSED)
    ensures Takes(CLOSED, Install(8, Some(12), true), LOST)
  {}

  predicate Stranded(t: State, j: nat) {
    j in t.jobs && t.jobs[j].shared && t.jobs[j].phase.Acquired? && t.jobs[j].phase.file !in t.files
  }

  /** In a reachable state a job was given a reference and a descriptor that is not open. */
  lemma CopyLost()
    ensures exists events, t :: Runs(INITIAL, events, t) && Stranded(t, 8)
  {
    hide Runs, Takes;
    LosingSteps();
    RunsOne(LOST);
    Prefix(CLOSED, Install(8, Some(12), true), [], LOST, LOST);
    var last := [Install(8, Some(12), true)] + [];
    Prefix(SECOND_BUILT, Environment(INSTALLED.files), last, CLOSED, LOST);
    last := [Environment(INSTALLED.files)] + last;
    Prefix(SECOND_MISSED, Construct(8, Some((12, FILE))), last, SECOND_BUILT, LOST);
    last := [Construct(8, Some((12, FILE)))] + last;
    Prefix(SECOND, Lookup(8, None), last, SECOND_MISSED, LOST);
    Prefix(INSTALLED, Start(8, 0), [Lookup(8, None)] + last, SECOND, LOST);
    AfterInstall([Start(8, 0)] + ([Lookup(8, None)] + last), LOST);
  }

  /** A shared installation closes the cached descriptor itself, with users above zero, exactly when the job's
      own descriptor has its number. */
  lemma InstallClosesCached(s: State, e: Event)
    requires Inv(s) && Enabled(s, e) && e.Install? && Next(s, e).jobs[e.job].shared
    requires s.slots[SlotOf(s.jobs[e.job].vendor)].users > 0
    ensures var (k, t) := (SlotOf(s.jobs[e.job].vendor), Next(s, e));
      t.slots[k].users == s.slots[k].users + 1 && t.slots[k].fd == s.slots[k].fd
      && (t.slots[k].fd !in t.files <==> s.jobs[e.job].phase.file == s.slots[k].fd)
  {
    assert !s.jobs[e.job].shared;
  }

  // A job whose own descriptor is closed by something else, so that the cache gets its number.
  const OTHER := File(Identity(1, 4, 3), true)
  const WAITING := Job(0, false, Built(12), None)
  const FIRST_STARTED := INITIAL.(jobs := map[8 := Job(0, false, Idle, None)])
  const FIRST_MISSED := INITIAL.(jobs := map[8 := Job(0, false, Building, None)])
  const FIRST_BUILT := State(INITIAL.slots, map[8 := WAITING], map[12 := OTHER])
  const FIRST_CLOSED := State(INITIAL.slots, map[8 := WAITING], map[])
  const LATER_STARTED := FIRST_CLOSED.(jobs := map[8 := WAITING, 7 := Job(0, false, Idle, None)])
  const LATER_MISSED := FIRST_CLOSED.(jobs := map[8 := WAITING, 7 := Job(0, false, Building, None)])
  const LATER_BUILT := State(INITIAL.slots, map[8 := WAITING, 7 := Job(0, false, Built(10), None)], map[10 := FILE])
  const LATER_CACHED := State([Slot(12, 1, FILE.identity), INITIAL.slots[1]],
    map[8 := WAITING, 7 := Job(0, true, Acquired(10), Some(FILE.identity))], map[10 := FILE, 12 := FILE])
  const CACHE_CLOSED := State([Slot(12, 2, FILE.identity), INITIAL.slots[1]],
    map[8 := Job(0, true, Acquired(13), Some(FILE.identity)), 7 := LATER_CACHED.jobs[7]], map[10 := FILE, 13 := FILE])

  lemma FirstSteps()
    ensures Takes(INITIAL, Start(8, 0), FIRST_STARTED) && Takes(FIRST_STARTED, Lookup(8, None), FIRST_MISSED)
    ensures Takes(FIRST_MISSED, Construct(8, Some((12, OTHER))), FIRST_BUILT)
    ensures Takes(FIRST_BUILT, Environment(map[]), FIRST_CLOSED)
  {}

  lemma LaterSteps()
    ensures Takes(FIRST_CLOSED, Start(7, 0), LATER_STARTED) && Takes(LATER_STARTED, Lookup(7, None), LATER_MISSED)
    ensures Takes(LATER_MISSED, Construct(7, Some((10, FILE))), LATER_BUILT)
    ensures Takes(LATER_BUILT, Install(7, Some(12), true), LATER_CACHED)
  {}

  lemma ClosingStep()
    ensures Takes(LATER_CACHED, Install(8, Some(13), true), CACHE_CLOSED)
  {}

  predicate Unbacked(t: State, k: nat) {
    k < |t.slots| && t.slots[k].users > 0 && t.slots[k].fd !in t.files
  }

  lemma AfterClosed(rest: seq<Event>, tail: seq<Event>)
    requires rest == [Start(7, 0)] + ([Lookup(7, None)] + tail)
    requires Runs(LATER_STARTED, [Lookup(7, None)] + tail, CACHE_CLOSED)
    ensures exists events :: Runs(INITIAL, events, CACHE_CLOSED)
  {
    hide Runs, Takes;
    FirstSteps();
    LaterSteps();
    Prefix(FIRST_CLOSED, Start(7, 0), [Lookup(7, None)] + tail, LATER_STARTED, CACHE_CLOSED);
    Prefix(FIRST_BUILT, Environment(map[]), rest, FIRST_CLOSED, CACHE_CLOSED);
    var e3 := [Environment(map[])] + rest;
    Prefix(FIRST_MISSED, Construct(8, Some((12, OTHER))), e3, FIRST_BUILT, CACHE_CLOSED);
    var e2 := [Construct(8, Some((12, OTHER)))] + e3;
    Prefix(FIRST_STARTED, Lookup(8, None), e2, FIRST_MISSED, CACHE_CLOSED);
    Prefix(INITIAL, Start(8, 0), [Lookup(8, None)] + e2, FIRST_STARTED, CACHE_CLOSED);
  }

  /** In a reachable state the cached descriptor is closed although two jobs hold the slot. */
  lemma CacheClosed()
    ensures exists events, t :: Runs(INITIAL, events, t) && Unbacked(t, 0)
  {
    hide Runs, Takes;
    FirstSteps();
    LaterSteps();
    ClosingStep();
    RunsOne(CACHE_CLOSED);
    Prefix(LATER_CACHED, Install(8, Some(13), true), [], CACHE_CLOSED, CACHE_CLOSED);
    var e8 := [Install(8, Some(13), true)] + [];
    Prefix(LATER_BUILT, Install(7, Some(12), true), e8, LATER_CACHED, CACHE_CLOSED);
    var e7 := [Install(7, Some(12), true)] + e8;
    Prefix(LATER_MISSED, Construct(7, Some((10, FILE))), e7, LATER_BUILT, CACHE_CLOSED);
    var e6 := [Construct(7, Some((10, FILE)))] + e7;
    Prefix(LATER_STARTED, Lookup(7, None), e6, LATER_MISSED, CACHE_CLOSED);
    AfterClosed([Start(7, 0)] + ([Lookup(7, None)] + e6), e6);
  }

  /** In every reachable state all jobs that hold a slot were given the same executable, the one the
      slot still records, however their steps and the environment's were interleaved. */
  lemma HoldersShareImage(events: seq<Event>, t: State, i: nat, j: nat, k: nat)
    requires Runs(INITIAL, events, t) && k < 2
    requires i in Holders(t, k) && j in Holders(t, k)
    ensures |t.slots| == 2 && t.jobs[i].image == t.jobs[j].image == Some(t.slots[k].identity)
  {
    InvInitial();
    InvRun(INITIAL, events, t);
    assert SlotInv(t, 0) && SlotInv(t, 1);
  }

  // ---- The locked regions, updating the shared cache in place -----------------------------------------

  class Controllers {
    var slots: seq<Slot>
    var jobs: map<nat, Job>
    var files: map<nat, File>

    function View(): State
      reads this
    {
      State(slots, jobs, files)
    }

    constructor ()
      ensures View() == INITIAL
    {
      slots, jobs, files := INITIAL.slots, map[], map[];
    }

    /** One more reference for job j to the executable of slot k, through the new descriptor. */
    method Take(j: nat, k: nat, copy: nat)
      requires k < |slots| && j in jobs && slots[k].fd >= 0 && slots[k].fd in files
      modifies this
      ensures View() == Share(old(View()), k, j, copy)
    {
      files := files[copy := files[slots[k].fd]];
      slots := slots[k := slots[k].(users := slots[k].users + 1)];
      jobs := jobs[j := jobs[j].(shared := true, phase := Acquired(copy), image := Some(slots[k].identity))];
    }

    method AcquireLookup(j: nat, copy: Option<nat>) returns (duplicate: int)
      requires Enabled(View(), Lookup(j, copy)) && Inv(View())
      modifies this
      ensures View() == Next(old(View()), Lookup(j, copy)) && Inv(View())
      ensures jobs[j].shared <==> duplicate >= 0
    {
      InvStep(View(), Lookup(j, copy));
      var k := SlotOf(jobs[j].vendor);
      duplicate := -1;
      if slots[k].users > 0 && CachedImmutable(slots[k], files) && copy.Some? {
        duplicate := copy.value;
        Take(j, k, copy.value);
      } else {
        jobs := jobs[j := jobs[j].(phase := Building)];
      }
    }

    method AcquireInstall(j: nat, copy: Option<nat>, stat: bool) returns (file: nat)
      requires Enabled(View(), Install(j, copy, stat)) && Inv(View())
      modifies this
      ensures View() == Next(old(View()), Install(j, copy, stat)) && Inv(View())
      ensures jobs[j].phase == Acquired(file)
    {
      InvStep(View(), Install(j, copy, stat));
      var k := SlotOf(jobs[j].vendor);
      file := jobs[j].phase.file;
      if slots[k].users == 0 && slots[k].fd < 0 {
        if copy.Some? && stat {
          var held := files[file];
          slots := slots[k := Slot(copy.value, 1, held.identity)];
          jobs := jobs[j := jobs[j].(shared := true, phase := Acquired(file), image := Some(held.identity))];
          files := files[copy.value := held];
          return;
        }
      } else if slots[k].users > 0 && CachedImmutable(slots[k], files) && copy.Some? {
        Take(j, k, copy.value);
        files := files - {file};
        file := copy.value;
        return;
      }
      jobs := jobs[j := jobs[j].(phase := Acquired(file))];
    }

    method ReleaseImage(j: nat)
      requires Enabled(View(), Release(j)) && Inv(View())
      modifies this
      ensures View() == Next(old(View()), Release(j)) && Inv(View())
    {
      InvStep(View(), Release(j));
      if !jobs[j].shared {
        jobs := jobs[j := jobs[j].(phase := Done)];
        return;
      }
      var k := SlotOf(jobs[j].vendor);
      if slots[k].users > 0 {
        slots := slots[k := slots[k].(users := slots[k].users - 1)];
        if slots[k].users == 0 {
          if CachedIdentity(slots[k], files) {
            files := files - {slots[k].fd};
          }
          slots := slots[k := slots[k].(fd := -1)];
        }
      }
      jobs := jobs[j := jobs[j].(phase := Unlocked)];
    }
  }
}
