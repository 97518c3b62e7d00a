/** Lifetime of a CPUID job shared by a Lua context and a worker thread. Every interlocked
    operation is a step of its own, and steps of all contexts and threads interleave freely. */
module CpuidJobs {
  import opened Bytes
  import opened CpuidPacket

  const MAX_WORKERS: int := 2

  datatype Request = Request(targets: seq<Target>, bits: u32, roster: u64)

  /** A worker's position. Pending: the job exists but no thread does. Finished: the result is
      stored. Announced: `done` is set. Uncounted: the global count is lowered. Gone: its reference is
      given back. */
  datatype Worker = Pending | Running | Finished | Announced | Uncounted | Gone

  /** `outcome` holds the packet when the stored reason is null. `frees` counts how often the
      memory was freed and `abandoned` records that the context was closed. */
  datatype Job = Job(owner: nat, request: Request, refs: int, done: bool, cancelled: bool, worker: Worker,
    outcome: Option<seq<byte>>, frees: nat, abandoned: bool)

  /** Where a context stands inside one collection. */
  datatype Position =
    | Idle
    | Checking(request: Request)
    | Stale(request: Request)
    | Dropping(request: Request)
    | Admitting(request: Request)
    | Rejected
    | Admitted(request: Request)
    | Spawning(request: Request, job: nat)
    | Discarding(job: nat)
    | Attaching(request: Request, job: nat)
    | Reporting(request: Request)
    | Delivering(request: Request, done: bool)

  datatype Context = Context(job: Option<nat>, at: Position)
  datatype Publication = Publication(request: Request, job: nat, raw: seq<byte>)
  datatype State = State(count: int, contexts: map<nat, Context>, jobs: map<nat, Job>, published: seq<Publication>)

  datatype Action =
    | Collect(request: Request)
    | Check(expired: bool)
    | Cancel
    | Drop
    | Admit(pinned: bool)
    | Withdraw
    | Allocate(job: Option<nat>)
    | Spawn(started: bool)
    | Discard
    | Attach
    | Report
    | Deliver
    | Close

  datatype ThreadAction = Complete(raw: seq<byte>, exited: bool) | Announce | Uncount | Leave

  datatype Event = Open(c: nat) | Lua(c: nat, action: Action) | Thread(j: nat, step: ThreadAction)

  ghost predicate ValidRaw(raw: seq<byte>, r: Request) {
    exists cs :: Answers(raw, cs, r.targets, r.bits)
  }

  // ---- Steps ------------------------------------------------------------------------------------------

  /** Dropping one reference; the last one frees. */
  function Released(job: Job): Job {
    job.(refs := job.refs - 1, frees := if job.refs == 1 then job.frees + 1 else job.frees)
  }

  predicate Has(s: State, c: nat) {
    c in s.contexts && s.contexts[c].job.Some? && s.contexts[c].job.value in s.jobs
  }

  predicate Lacks(s: State, c: nat) {
    c in s.contexts && s.contexts[c].job.None?
  }

  predicate LuaEnabled(s: State, c: nat, a: Action) {
    c in s.contexts &&
    var at := s.contexts[c].at;
    match a
    case Collect(_) => at.Idle?
    case Check(_) => at.Checking? && (Has(s, c) || Lacks(s, c))
    case Cancel => at.Stale? && Has(s, c)
    case Drop => at.Dropping? && Has(s, c)
    case Admit(_) => at.Admitting?
    case Withdraw => at.Rejected?
    case Allocate(j) => at.Admitted? && (j.Some? ==> j.value !in s.jobs)
    case Spawn(_) => at.Spawning? && at.job in s.jobs
    case Discard => at.Discarding? && at.job in s.jobs
    case Attach => at.Attaching?
    case Report => at.Reporting? && Has(s, c)
    case Deliver => at.Delivering? && Has(s, c)
    case Close => at.Idle? && (Has(s, c) || Lacks(s, c))
  }

  predicate ThreadEnabled(s: State, j: nat, a: ThreadAction) {
    j in s.jobs &&
    var w := s.jobs[j].worker;
    match a
    case Complete(_, _) => w.Running?
    case Announce => w.Finished?
    case Uncount => w.Announced?
    case Leave => w.Uncounted?
  }

  predicate Enabled(s: State, e: Event) {
    match e
    case Open(c) => c !in s.contexts
    case Lua(c, a) => LuaEnabled(s, c, a)
    case Thread(j, a) => ThreadEnabled(s, j, a)
  }

  /** What a step does to its context and, when it touches one, to a job. */
  function Moved(s: State, c: nat, at: Position): State
    requires c in s.contexts
  {
    s.(contexts := s.contexts[c := s.contexts[c].(at := at)])
  }

  function Stored(s: State, j: nat, job: Job): State {
    s.(jobs := s.jobs[j := job])
  }

  function LuaNext(s: State, c: nat, a: Action): State
    requires LuaEnabled(s, c, a)
  {
    var context := s.contexts[c];
    match a
    case Collect(r) => Moved(s, c, Checking(r))
    case Check(expired) =>
      if context.job.None? then Moved(s, c, Admitting(context.at.request))
      else
        var job := s.jobs[context.job.value];
        if job.request != context.at.request || (job.done && expired) then Moved(s, c, Stale(context.at.request))
        else Moved(s, c, Reporting(context.at.request))
    case Cancel =>
      var (j, job) := (context.job.value, s.jobs[context.job.value]);
      Stored(Moved(s, c, Dropping(context.at.request)), j, job.(cancelled := job.cancelled || !job.done))
    case Drop =>
      var (j, job) := (context.job.value, s.jobs[context.job.value]);
      if job.done then
        Stored(s.(contexts := s.contexts[c := Context(None, Admitting(context.at.request))]), j, Released(job))
      else Moved(s, c, Reporting(context.at.request))
    case Admit(pinned) =>
      if !pinned then Moved(s, c, Idle)
      else if s.count + 1 > MAX_WORKERS then Moved(s, c, Rejected).(count := s.count + 1)
      else Moved(s, c, Admitted(context.at.request)).(count := s.count + 1)
    case Withdraw => Moved(s, c, Idle).(count := s.count - 1)
    case Allocate(j) =>
      if j.None? then Moved(s, c, Rejected)
      else Stored(Moved(s, c, Spawning(context.at.request, j.value)), j.value,
        Job(c, context.at.request, 2, false, false, Pending, None, 0, false))
    case Spawn(started) =>
      var (j, job) := (context.at.job, s.jobs[context.at.job]);
      if started then Stored(Moved(s, c, Attaching(context.at.request, j)), j, job.(worker := Running))
      else Moved(s, c, Discarding(j)).(count := s.count - 1)
    case Discard =>
      var (j, job) := (context.at.job, s.jobs[context.at.job]);
      Stored(Moved(s, c, Idle), j, job.(worker := Gone, frees := job.frees + 1))
    case Attach =>
      s.(contexts := s.contexts[c := Context(Some(context.at.job), Reporting(context.at.request))])
    case Report => Moved(s, c, Delivering(context.at.request, s.jobs[context.job.value].done))
    case Deliver =>
      var (j, job, r) := (context.job.value, s.jobs[context.job.value], context.at.request);
      if job.request == r && context.at.done && job.outcome.Some? then
        Moved(s, c, Idle).(published := s.published + [Publication(r, j, job.outcome.value)])
      else Moved(s, c, Idle)
    case Close =>
      if context.job.None? then s
      else
        var (j, job) := (context.job.value, s.jobs[context.job.value]);
        Stored(s.(contexts := s.contexts[c := Context(None, Idle)]), j, Released(job.(cancelled := true, abandoned := true)))
  }

  ghost function ThreadNext(s: State, j: nat, a: ThreadAction): State
    requires ThreadEnabled(s, j, a)
  {
    var job := s.jobs[j];
    match a
    case Complete(raw, exited) =>
      Stored(s, j, job.(worker := Finished, outcome := if exited && ValidRaw(raw, job.request) then Some(raw) else None))
    case Announce => Stored(s, j, job.(worker := Announced, done := true))
    case Uncount => Stored(s, j, job.(worker := Uncounted)).(count := s.count - 1)
    case Leave => Stored(s, j, Released(job.(worker := Gone)))
  }

  ghost function Next(s: State, e: Event): State
    requires Enabled(s, e)
  {
    match e
    case Open(c) => s.(contexts := s.contexts[c := Context(None, Idle)])
    case Lua(c, a) => LuaNext(s, c, a)
    case Thread(j, a) => ThreadNext(s, j, a)
  }

  // ---- The invariant ------------------------------------------------------------------------------------

  /** The job a context owns a reference to. */
  function Owned(context: Context): Option<nat> {
    match context.at
    case Spawning(_, j) => Some(j)
    case Discarding(j) => Some(j)
    case Attaching(_, j) => Some(j)
    case _ => context.job
  }

  predicate ContextOwns(s: State, j: nat)
    requires j in s.jobs
  {
    s.jobs[j].owner in s.contexts && Owned(s.contexts[s.jobs[j].owner]) == Some(j)
  }

  ghost predicate JobInv(s: State, j: nat)
    requires j in s.jobs
  {
    var job := s.jobs[j];
    var (context, worker) := (ContextOwns(s, j), job.worker != Gone);
    job.frees == (if context || worker then 0 else 1)
    && (job.frees == 0 ==> job.refs == (if context then 1 else 0) + (if worker then 1 else 0))
    && (job.worker.Pending? ==> context && !job.done)
    && (job.done ==> job.worker in {Announced, Uncounted, Gone})
    && (job.worker in {Announced, Uncounted} ==> job.done)
    && (job.worker in {Pending, Running} ==> job.outcome.None?)
    && (job.outcome.Some? ==> ValidRaw(job.outcome.value, job.request))
    && (!job.done && !job.abandoned && !job.worker.Gone? ==> context)
  }

  predicate OwnedInv(x: Context, c: nat, job: Job) {
    job.owner == c && (job.worker.Pending? <==> x.at.Spawning? || x.at.Discarding?)
    && (x.at.Delivering? && x.at.done ==> job.done)
  }

  predicate ContextInv(s: State, c: nat)
    requires c in s.contexts
  {
    var x := s.contexts[c];
    (x.at.Spawning? || x.at.Discarding? || x.at.Attaching? || x.at.Admitting? || x.at.Rejected? || x.at.Admitted? ==> x.job.None?)
    && (x.at.Stale? || x.at.Dropping? || x.at.Reporting? || x.at.Delivering? ==> x.job.Some?)
    && (Owned(x).Some? ==> Owned(x).value in s.jobs && OwnedInv(x, c, s.jobs[Owned(x).value]))
  }

  /** Contexts and threads that have raised the global count and not lowered it yet, and among them
      those that were let in. */
  predicate Raised(x: Context) {
    x.at.Rejected? || x.at.Admitted? || x.at.Spawning?
  }

  predicate Working(job: Job) {
    job.worker in {Running, Finished, Announced}
  }

  ghost function Raisers(s: State): set<nat> {
    set c | c in s.contexts && Raised(s.contexts[c])
  }

  ghost function Starters(s: State): set<nat> {
    set c | c in s.contexts && (s.contexts[c].at.Admitted? || s.contexts[c].at.Spawning?)
  }

  ghost function Workers(s: State): set<nat> {
    set j | j in s.jobs && Working(s.jobs[j])
  }

  ghost predicate CountInv(s: State) {
    s.count == |Raisers(s)| + |Workers(s)| && |Starters(s)| + |Workers(s)| <= MAX_WORKERS
  }

  /** A published result is the packet a finished job stored, and it answers what was asked. */
  ghost predicate Backed(p: Publication, job: Job) {
    ValidRaw(p.raw, p.request) && job.done && job.request == p.request && job.outcome == Some(p.raw)
  }

  ghost predicate PublishedInv(s: State) {
    forall p :: p in s.published ==> p.job in s.jobs && Backed(p, s.jobs[p.job])
  }

  ghost predicate Inv(s: State) {
    (forall j :: j in s.jobs ==> JobInv(s, j)) && (forall c :: c in s.contexts ==> ContextInv(s, c))
    && CountInv(s) && PublishedInv(s)
  }

  const INITIAL := State(0, map[], map[], [])

  lemma InvInitial()
    ensures Inv(INITIAL)
  {
    assert Raisers(INITIAL) == {} && Workers(INITIAL) == {} && Starters(INITIAL) == {};
  }

  /** The steps that create, start or give up a job, against those that use the current one. */
  predicate Creates(a: Action) {
    a.Admit? || a.Withdraw? || a.Allocate? || a.Spawn? || a.Discard? || a.Attach?
  }

  lemma JobsKept(s: State, c: nat, a: Action, j: nat)
    requires Inv(s) && LuaEnabled(s, c, a) && j in LuaNext(s, c, a).jobs && !Creates(a)
    ensures JobInv(LuaNext(s, c, a), j)
  {
    hide ValidRaw, CountInv, PublishedInv;
    assert ContextInv(s, c) && JobInv(s, j);
  }

  lemma JobsAdded(s: State, c: nat, a: Action, j: nat)
    requires Inv(s) && LuaEnabled(s, c, a) && j in LuaNext(s, c, a).jobs && (a.Allocate? || a.Admit? || a.Withdraw?)
    ensures JobInv(LuaNext(s, c, a), j)
  {
    hide ValidRaw, CountInv, PublishedInv;
    assert ContextInv(s, c);
    if j in s.jobs {
      assert JobInv(s, j);
    }
  }

  lemma JobsStarted(s: State, c: nat, a: Action, j: nat)
    requires Inv(s) && LuaEnabled(s, c, a) && j in LuaNext(s, c, a).jobs && (a.Spawn? || a.Discard? || a.Attach?)
    ensures JobInv(LuaNext(s, c, a), j)
  {
    hide ValidRaw, CountInv, PublishedInv;
    assert ContextInv(s, c) && JobInv(s, j);
  }

  lemma JobsCreated(s: State, c: nat, a: Action, j: nat)
    requires Inv(s) && LuaEnabled(s, c, a) && j in LuaNext(s, c, a).jobs && Creates(a)
    ensures JobInv(LuaNext(s, c, a), j)
  {
    hide ValidRaw, CountInv, PublishedInv, LuaNext;
    if a.Allocate? || a.Admit? || a.Withdraw? {
      JobsAdded(s, c, a, j);
    } else {
      JobsStarted(s, c, a, j);
    }
  }

  lemma ContextsKept(s: State, c: nat, a: Action, i: nat)
    requires Inv(s) && LuaEnabled(s, c, a) && i in LuaNext(s, c, a).contexts && !Creates(a)
    ensures ContextInv(LuaNext(s, c, a), i)
  {
    hide ValidRaw, JobInv, CountInv, PublishedInv;
    assert ContextInv(s, i) && ContextInv(s, c);
  }

  lemma ContextsCreated(s: State, c: nat, a: Action, i: nat)
    requires Inv(s) && LuaEnabled(s, c, a) && i in LuaNext(s, c, a).contexts && Creates(a)
    ensures ContextInv(LuaNext(s, c, a), i)
  {
    hide ValidRaw, JobInv, CountInv, PublishedInv;
    assert ContextInv(s, i) && ContextInv(s, c);
  }

  lemma ThreadKept(s: State, j: nat, a: ThreadAction)
    requires Inv(s) && ThreadEnabled(s, j, a)
    ensures var t := ThreadNext(s, j, a);
      (forall i :: i in t.jobs ==> JobInv(t, i)) && forall c :: c in t.contexts ==> ContextInv(t, c)
  {
    hide ValidRaw, CountInv, PublishedInv;
    var t := ThreadNext(s, j, a);
    forall i | i in t.jobs ensures JobInv(t, i) {
      assert JobInv(s, i);
    }
    forall c | c in t.contexts ensures ContextInv(t, c) {
      assert ContextInv(s, c);
    }
  }

  /** How a step on one element moves the size of a set that can only change there. */
  lemma OneMoves(a: set<nat>, b: set<nat>, x: nat)
    requires a - {x} == b - {x}
    ensures |b| == |a| + (if x in b then 1 else 0) - (if x in a then 1 else 0)
  {
    assert a == (a - {x}) + (if x in a then {x} else {});
    assert b == (b - {x}) + (if x in b then {x} else {});
  }

  lemma SameSets(s: State, t: State)
    ensures s.contexts == t.contexts ==> Raisers(t) == Raisers(s) && Starters(t) == Starters(s)
    ensures s.jobs == t.jobs ==> Workers(t) == Workers(s)
  {}

  predicate RaisedAt(s: State, c: nat) {
    c in s.contexts && Raised(s.contexts[c])
  }

  predicate StartingAt(s: State, c: nat) {
    c in s.contexts && (s.contexts[c].at.Admitted? || s.contexts[c].at.Spawning?)
  }

  predicate WorkingAt(s: State, j: nat) {
    j in s.jobs && Working(s.jobs[j])
  }

  lemma ContextMoves(s: State, t: State, c: nat)
    requires c in t.contexts && t.contexts == s.contexts[c := t.contexts[c]]
    ensures |Raisers(t)| == |Raisers(s)| + (if RaisedAt(t, c) then 1 else 0) - (if RaisedAt(s, c) then 1 else 0)
    ensures |Starters(t)| == |Starters(s)| + (if StartingAt(t, c) then 1 else 0) - (if StartingAt(s, c) then 1 else 0)
  {
    assert Raisers(t) - {c} == Raisers(s) - {c} && Starters(t) - {c} == Starters(s) - {c};
    OneMoves(Raisers(s), Raisers(t), c);
    OneMoves(Starters(s), Starters(t), c);
  }

  lemma WorkerMoves(s: State, t: State, j: nat)
    requires j in t.jobs && t.jobs == s.jobs[j := t.jobs[j]]
    ensures |Workers(t)| == |Workers(s)| + (if WorkingAt(t, j) then 1 else 0) - (if WorkingAt(s, j) then 1 else 0)
  {
    assert Workers(t) - {j} == Workers(s) - {j};
    OneMoves(Workers(s), Workers(t), j);
  }

  /** The job whose record a context step writes. */
  function Written(s: State, c: nat, a: Action): nat
    requires LuaEnabled(s, c, a)
  {
    if a.Allocate? && a.job.Some? then a.job.value
    else if a.Spawn? || a.Discard? then s.contexts[c].at.job
    else if s.contexts[c].job.Some? then s.contexts[c].job.value else 0
  }

  lemma StartersRaise(s: State)
    ensures |Starters(s)| <= |Raisers(s)|
  {
    assert Raisers(s) == Starters(s) + (Raisers(s) - Starters(s));
  }

  /** Letting a context in only below the limit keeps the number of admitted workers at two, while
      the raw count may pass it by the refused ones. */
  lemma LuaCount(s: State, c: nat, a: Action)
    requires Inv(s) && LuaEnabled(s, c, a)
    ensures CountInv(LuaNext(s, c, a))
  {
    hide ValidRaw, PublishedInv;
    hide Raisers, Starters, Workers, JobInv;
    var (t, j) := (LuaNext(s, c, a), Written(s, c, a));
    assert ContextInv(s, c);
    ContextMoves(s, t, c);
    StartersRaise(s);
    if j in t.jobs {
      WorkerMoves(s, t, j);
    } else {
      SameSets(s, t);
    }
  }

  lemma ThreadCount(s: State, j: nat, a: ThreadAction)
    requires Inv(s) && ThreadEnabled(s, j, a)
    ensures CountInv(ThreadNext(s, j, a))
  {
    hide ValidRaw, Raisers, Starters, Workers;
    var t := ThreadNext(s, j, a);
    SameSets(s, t);
    WorkerMoves(s, t, j);
  }

  /** What was asked of a job never changes, and once `done` is seen neither does its result. */
  predicate Settled(before: Job, after: Job) {
    after.request == before.request && after.owner == before.owner && after.frees >= before.frees
    && (before.done ==> after.done && after.outcome == before.outcome)
  }

  lemma LuaSettles(s: State, c: nat, a: Action, j: nat)
    requires LuaEnabled(s, c, a) && j in s.jobs
    ensures j in LuaNext(s, c, a).jobs && Settled(s.jobs[j], LuaNext(s, c, a).jobs[j])
  {}

  lemma ThreadSettles(s: State, i: nat, a: ThreadAction, j: nat)
    requires Inv(s) && ThreadEnabled(s, i, a) && j in s.jobs
    ensures j in ThreadNext(s, i, a).jobs && Settled(s.jobs[j], ThreadNext(s, i, a).jobs[j])
  {
    hide ValidRaw;
    assert JobInv(s, i);
  }

  lemma StillBacked(s: State, e: Event, p: Publication)
    requires Inv(s) && Enabled(s, e) && p in s.published
    ensures p.job in Next(s, e).jobs && Backed(p, Next(s, e).jobs[p.job])
  {
    hide ValidRaw, CountInv, JobInv, ContextInv, LuaNext, ThreadNext;
    match e {
      case Open(c) =>
      case Lua(c, a) => LuaSettles(s, c, a, p.job);
      case Thread(j, a) => ThreadSettles(s, j, a, p.job);
    }
  }

  lemma NewlyPublished(s: State, c: nat)
    requires Inv(s) && LuaEnabled(s, c, Deliver)
    requires var x := s.contexts[c];
      var job := s.jobs[x.job.value];
      job.request == x.at.request && x.at.done && job.outcome.Some?
    ensures var x := s.contexts[c];
      var job := s.jobs[x.job.value];
      Backed(Publication(x.at.request, x.job.value, job.outcome.value), job)
  {
    assert ContextInv(s, c) && JobInv(s, s.contexts[c].job.value);
  }

  lemma PublishedKept(s: State, e: Event)
    requires Inv(s) && Enabled(s, e)
    ensures PublishedInv(Next(s, e))
  {
    hide ValidRaw, CountInv, Backed, JobInv, ContextInv;
    var t := Next(s, e);
    forall p | p in t.published ensures p.job in t.jobs && Backed(p, t.jobs[p.job]) {
      if p in s.published {
        StillBacked(s, e, p);
      } else {
        NewlyPublished(s, e.c);
      }
    }
  }

  lemma Opened(s: State, c: nat)
    requires Inv(s) && c !in s.contexts
    ensures var t := s.(contexts := s.contexts[c := Context(None, Idle)]);
      CountInv(t) && (forall j :: j in t.jobs ==> JobInv(t, j)) && forall i :: i in t.contexts ==> ContextInv(t, i)
  {
    var t := s.(contexts := s.contexts[c := Context(None, Idle)]);
    ContextMoves(s, t, c);
    SameSets(s, t);
    forall j | j in t.jobs ensures JobInv(t, j) {
      assert JobInv(s, j);
    }
    forall i | i in t.contexts ensures ContextInv(t, i) {
      if i in s.contexts {
        assert ContextInv(s, i);
      }
    }
  }

  /** Every step of every context and every thread keeps the whole invariant. */
  lemma InvStep(s: State, e: Event)
    requires Inv(s) && Enabled(s, e)
    ensures Inv(Next(s, e))
  {
    hide JobInv, ContextInv, CountInv, PublishedInv, LuaNext, ThreadNext;
    PublishedKept(s, e);
    var t := Next(s, e);
    match e {
      case Open(c) => Opened(s, c);
      case Lua(c, a) =>
        LuaCount(s, c, a);
        forall j | j in t.jobs ensures JobInv(t, j) {
          if Creates(a) { JobsCreated(s, c, a, j); } else { JobsKept(s, c, a, j); }
        }
        forall i | i in t.contexts ensures ContextInv(t, i) {
          if Creates(a) { ContextsCreated(s, c, a, i); } else { ContextsKept(s, c, a, i); }
        }
      case Thread(j, a) =>
        ThreadCount(s, j, a);
        ThreadKept(s, j, a);
    }
  }

  // ---- What holds over every run ------------------------------------------------------------------------

  ghost predicate Runs(s: State, events: seq<Event>, t: State)
    decreases |events|
  {
    if events == [] then s == t
    else Enabled(s, events[0]) && Runs(Next(s, events[0]), events[1..], t)
  }

  lemma {:induction false} InvRun(s: State, events: seq<Event>, t: State)
    requires Inv(s) && Runs(s, events, t)
    ensures Inv(t)
    decreases |events|
  {
    hide Inv, Next, Enabled;
    if events != [] {
      InvStep(s, events[0]);
      InvRun(Next(s, events[0]), events[1..], t);
    }
  }

  ghost predicate Reachable(s: State) {
    exists events :: Runs(INITIAL, events, s)
  }

  lemma ReachableInv(s: State)
    requires Reachable(s)
    ensures Inv(s)
  {
    hide Runs, Inv;
    var events :| Runs(INITIAL, events, s);
    InvInitial();
    InvRun(INITIAL, events, s);
  }

  /** At most two workers are admitted at any time: let in and about to start, or running and not yet
      signed off. The shared counter is exact once refused contexts have stepped back. */
  lemma AtMostTwo(s: State)
    requires Reachable(s)
    ensures |Starters(s)| + |Workers(s)| <= 2
    ensures s.count == |Raisers(s)| + |Workers(s)|
    ensures Raisers(s) == Starters(s) ==> s.count <= 2
  {
    ReachableInv(s);
  }

  /** A job's memory is freed at most once, and it has been freed exactly when its context and its
      worker have both let go of it. */
  lemma FreedOnce(s: State, j: nat)
    requires Reachable(s) && j in s.jobs
    ensures s.jobs[j].frees <= 1
    ensures s.jobs[j].frees == 1 <==> (!ContextOwns(s, j) && s.jobs[j].worker == Gone)
  {
    ReachableInv(s);
    assert JobInv(s, j);
  }

  /** The job a step reads or writes. */
  function Touched(s: State, e: Event): Option<nat>
    requires Enabled(s, e)
  {
    match e
    case Open(_) => None
    case Thread(j, _) => Some(j)
    case Lua(c, a) =>
      if a.Collect? || a.Admit? || a.Withdraw? || a.Allocate? then None else Owned(s.contexts[c])
  }

  lemma NoUseAfterFree(s: State, e: Event)
    requires Reachable(s) && Enabled(s, e) && Touched(s, e).Some?
    ensures Touched(s, e).value in s.jobs && s.jobs[Touched(s, e).value].frees == 0
  {
    hide ValidRaw, Runs, CountInv, PublishedInv;
    ReachableInv(s);
    if e.Lua? {
      assert ContextInv(s, e.c);
    }
    assert JobInv(s, Touched(s, e).value);
  }

  /** A context lets go of a job only when it saw it finished, or because the context itself closes;
      so it never has two unfinished jobs, however often it is asked for other targets. */
  lemma UnfinishedKept(s: State, c: nat, a: Action)
    requires Reachable(s) && LuaEnabled(s, c, a) && !a.Close? && Has(s, c)
    ensures LuaNext(s, c, a).contexts[c].job != s.contexts[c].job ==> s.jobs[s.contexts[c].job.value].done
  {
    hide Runs;
    ReachableInv(s);
    assert ContextInv(s, c);
  }

  lemma OneUnfinished(s: State, i: nat, j: nat)
    requires Reachable(s) && i in s.jobs && j in s.jobs && s.jobs[i].owner == s.jobs[j].owner
    requires !s.jobs[i].done && !s.jobs[i].abandoned && s.jobs[i].frees == 0
    requires !s.jobs[j].done && !s.jobs[j].abandoned && s.jobs[j].frees == 0
    ensures i == j
  {
    hide ValidRaw, Runs;
    ReachableInv(s);
    assert JobInv(s, i) && JobInv(s, j);
  }

  /** Only packets that passed the parent's check for exactly the targets and architecture asked for are
      published as a result. */
  lemma OkIsValid(s: State, p: Publication)
    requires Reachable(s) && p in s.published
    ensures exists cs :: Answers(p.raw, cs, p.request.targets, p.request.bits)
    ensures p.job in s.jobs && s.jobs[p.job].done && s.jobs[p.job].request == p.request
  {
    hide Answers;
    ReachableInv(s);
    assert Backed(p, s.jobs[p.job]);
  }
}
