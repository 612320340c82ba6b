/**
The Manager's job table: admission limits, idempotent starts, pruning, and
stopping.  Each lock-held block is one step; a process exiting is a step of the
environment.

A job is started under a key, runs as one process, and has one collector thread
which, in two separate lock sections, first records the end of the job and then
drops the process handle kept under the job's key.  The stdin queue of an
interactive job and the sandbox of a restricted one are registered and dropped by
key together with the handle, so what is said of handles holds of them too.
*/
module JobTable {
  import opened Prelude

  const MAX_RUNNING := 16
  const MAX_PER_MAPPING := 4
  const KEEP_NEWEST := 4
  const KEEP_SECONDS := 3600.0

  /** `serial` is the insertion order, which also identifies the process and its collector. */
  datatype Job = Job(mapping: string, digest: string, serial: nat, finishedAt: Option<real>, collectedAt: Option<real>)

  type Table = map<string, Job>

  /** A collector waiting for its process, or between its two lock sections. */
  datatype Collector = Collector(key: string, ended: bool)

  datatype Cause = Idle | Unforced | Forced | Exit

  datatype State = State(
    jobs: Table,
    handles: map<string, nat>,          // key -> serial of the process behind it
    live: set<nat>,                     // processes that have not exited
    collectors: map<nat, Collector>,    // by serial
    serial: nat,
    stopping: Option<Cause>)

  // ---------------------------------------------------------------- keys

  predicate AlphaNum(c: char) {
    'a' <= c <= 'z' || 'A' <= c <= 'Z' || '0' <= c <= '9'
  }

  predicate MappingSyntax(s: string) {
    |s| == 24 && forall i :: 0 <= i < 24 ==> AlphaNum(s[i]) || s[i] == '_' || s[i] == '-'
  }

  predicate TaskSyntax(s: string) {
    |s| == 6 && s[0] == '&' && s[5] == '&' && forall i :: 1 <= i < 5 ==> AlphaNum(s[i])
  }

  function Key(mapping: string, task: string): string {
    mapping + "." + task
  }

  /** A key determines its mapping and its public identifier. */
  lemma KeyInjective(m1: string, t1: string, m2: string, t2: string)
    requires MappingSyntax(m1) && MappingSyntax(m2) && Key(m1, t1) == Key(m2, t2)
    ensures m1 == m2 && t1 == t2
  {
    var k := Key(m1, t1);
    assert k[..24] == m1 && k[..24] == m2;
    assert k[25..] == t1 && k[25..] == t2;
  }

  function Lower(c: char): char {
    if 'A' <= c <= 'Z' then (c as int + 32) as char else c
  }

  /** The NOCASE collation. */
  function Fold(s: string): string {
    seq(|s|, i requires 0 <= i < |s| => Lower(s[i]))
  }

  // ---------------------------------------------------------------- queries

  function Running(jobs: Table): set<string> {
    set k | k in jobs && jobs[k].finishedAt.None?
  }

  function RunningOf(jobs: Table, mapping: string): set<string> {
    set k | k in jobs && jobs[k].finishedAt.None? && jobs[k].mapping == mapping
  }

  /**
  What one pruning pass sees: the clock when it looks at each row, and the order
  its query gives to rows that finished at the same time, which may be any.
  */
  datatype Pass = Pass(clock: string -> real, rank: string -> int)

  /** Row `a` comes before row `b` in the listing of finished jobs, newest first. */
  predicate Newer(jobs: Table, pass: Pass, a: string, b: string)
    requires a in jobs && b in jobs
  {
    && jobs[a].finishedAt.Some? && jobs[b].finishedAt.Some? && jobs[a].mapping == jobs[b].mapping
    && (jobs[a].finishedAt.value > jobs[b].finishedAt.value
        || (jobs[a].finishedAt.value == jobs[b].finishedAt.value && pass.rank(a) < pass.rank(b)))
  }

  function NewerThan(jobs: Table, pass: Pass, key: string): set<string>
    requires key in jobs
  {
    set k | k in jobs && Newer(jobs, pass, k, key)
  }

  /** Finished, collected, and neither recent nor among the newest four. */
  predicate Disposable(jobs: Table, mapping: string, pass: Pass, key: string) {
    && key in jobs && jobs[key].mapping == mapping
    && jobs[key].finishedAt.Some? && jobs[key].collectedAt.Some?
    && (|NewerThan(jobs, pass, key)| >= KEEP_NEWEST || pass.clock(key) - jobs[key].collectedAt.value > KEEP_SECONDS)
  }

  function Prune(jobs: Table, mapping: string, pass: Pass): Table {
    map k | k in jobs && !Disposable(jobs, mapping, pass, k) :: jobs[k]
  }

  // ---------------------------------------------------------------- steps

  datatype Refusal = Stopping | BadMapping | BadJobId | CaseCollision | OtherRequest | GlobalLimit | MappingLimit | Invalid | SpawnFailed
  datatype Reply = Spawned | Existing | Refused(error: Refusal)

  /** The one row a case-insensitive lookup may return. */
  predicate Collides(jobs: Table, key: string) {
    exists k :: k in jobs && k != key && Fold(k) == Fold(key)
  }

  function StartReply(jobs: Table, mapping: string, key: string, digest: string, valid: bool, spawns: bool): Reply {
    if Collides(jobs, key) then Refused(CaseCollision)
    else if key in jobs then
      if jobs[key].mapping != mapping || jobs[key].digest != digest then Refused(OtherRequest) else Existing
    else if |Running(jobs)| >= MAX_RUNNING then Refused(GlobalLimit)
    else if |RunningOf(jobs, mapping)| >= MAX_PER_MAPPING then Refused(MappingLimit)
    else if !valid then Refused(Invalid)
    else if !spawns then Refused(SpawnFailed)
    else Spawned
  }

  datatype Step =
    | Start(mapping: string, task: string, digest: string, valid: bool, spawns: bool, pass: Pass)
    | Query(mapping: string, pass: Pass)      // any other request of a mapping, which prunes
    | Collect(key: string, now: real)        // a read that reached the end of a finished job
    | ExitProcess(serial: nat)               // the process ends
    | End(serial: nat, now: real)            // collector, first lock section
    | Retire(serial: nat)                    // collector, second lock section
    | Shutdown(force: bool)
    | IdleCheck(idle: bool)
    | ServeExit                              // the accept loop ends

  ghost predicate Enabled(s: State, step: Step) {
    match step
    case Query(_, _) => s.stopping.None?
    case Collect(key, _) => s.stopping.None? && key in s.jobs && s.jobs[key].finishedAt.Some?
    case ExitProcess(n) => n in s.live
    case End(n, _) => n in s.collectors && !s.collectors[n].ended && n !in s.live
    case Retire(n) => n in s.collectors && s.collectors[n].ended
    case _ => true
  }

  /** Every request of a valid mapping prunes first; a stopping Manager refuses before that. */
  function DoStart(s: State, step: Step): (State, Reply)
    requires step.Start?
  {
    if s.stopping.Some? then (s, Refused(Stopping))
    else if !MappingSyntax(step.mapping) then (s, Refused(BadMapping))
    else
      var jobs, key := Prune(s.jobs, step.mapping, step.pass), Key(step.mapping, step.task);
      var reply := if !TaskSyntax(step.task) then Refused(BadJobId) else StartReply(jobs, step.mapping, key, step.digest, step.valid, step.spawns);
      var pruned := s.(jobs := jobs);
      (if reply == Spawned then Registered(pruned, step.mapping, key, step.digest) else pruned, reply)
  }

  /** A spawned job: its row, its handle, its process and its collector. */
  function Registered(s: State, mapping: string, key: string, digest: string): State {
    State(s.jobs[key := Job(mapping, digest, s.serial, None, None)],
          s.handles[key := s.serial],
          s.live + {s.serial},
          s.collectors[s.serial := Collector(key, false)],
          s.serial + 1, s.stopping)
  }

  /** The serials whose live processes get a kill signal by key. */
  function Signalled(s: State, keys: set<string>): set<nat> {
    set k | k in keys && k in s.handles && s.handles[k] in s.live :: s.handles[k]
  }

  function DoShutdown(s: State, force: bool): State {
    if s.stopping.Some? || (Running(s.jobs) != {} && !force) then s
    else s.(stopping := Some(if force then Forced else Unforced))
  }

  function DoIdleCheck(s: State, idle: bool): State {
    if s.stopping.Some? || !idle || Running(s.jobs) != {} then s else s.(stopping := Some(Idle))
  }

  function DoEnd(s: State, n: nat, now: real): State
    requires n in s.collectors
  {
    var key := s.collectors[n].key;
    s.(jobs := if key in s.jobs then s.jobs[key := s.jobs[key].(finishedAt := Some(now))] else s.jobs,
       collectors := s.collectors[n := Collector(key, true)])
  }

  ghost function Next(s: State, step: Step): State
    requires Enabled(s, step)
  {
    match step
    case Start(_, _, _, _, _, _) => DoStart(s, step).0
    case Query(mapping, pass) => s.(jobs := Prune(s.jobs, mapping, pass))
    case Collect(key, now) => s.(jobs := s.jobs[key := s.jobs[key].(collectedAt := Some(now))])
    case ExitProcess(n) => s.(live := s.live - {n})
    case End(n, now) => DoEnd(s, n, now)
    case Retire(n) => s.(handles := s.handles - {s.collectors[n].key}, collectors := s.collectors - {n})
    case Shutdown(force) => DoShutdown(s, force)
    case IdleCheck(idle) => DoIdleCheck(s, idle)
    case ServeExit => if s.stopping.Some? then s else s.(stopping := Some(Exit))
  }

  ghost function Run(s: State, steps: seq<Step>): Option<State> {
    if steps == [] then Some(s)
    else match Run(s, steps[..|steps| - 1])
      case None => None
      case Some(t) => if Enabled(t, steps[|steps| - 1]) then Some(Next(t, steps[|steps| - 1])) else None
  }

  // ---------------------------------------------------------------- invariant

  /** Rows the Manager may find when it starts: keys distinct ignoring case. */
  ghost predicate CaseDistinct(jobs: Table) {
    forall k1, k2 :: k1 in jobs && k2 in jobs && Fold(k1) == Fold(k2) ==> k1 == k2
  }

  ghost predicate KeyOf(k: string, mapping: string) {
    MappingSyntax(mapping) && exists task :: TaskSyntax(task) && k == Key(mapping, task)
  }

  ghost predicate KeysWellFormed(jobs: Table) {
    forall k :: k in jobs ==> KeyOf(k, jobs[k].mapping)
  }

  ghost predicate Limits(jobs: Table) {
    && |Running(jobs)| <= MAX_RUNNING
    && forall mapping :: |RunningOf(jobs, mapping)| <= MAX_PER_MAPPING
  }

  /** Collector `n` waits for the process of job `k`. */
  ghost predicate Waits(s: State, n: nat, k: string) {
    n in s.collectors && s.collectors[n] == Collector(k, false)
  }

  /** Running rows, waiting collectors and live processes correspond. */
  ghost predicate Threads(s: State) {
    && (forall k :: k in s.jobs ==> s.jobs[k].serial < s.serial)
    && (forall k1, k2 :: k1 in s.jobs && k2 in s.jobs && s.jobs[k1].serial == s.jobs[k2].serial ==> k1 == k2)
    && (forall n :: n in s.collectors ==> n < s.serial)
    && (forall k :: k in Running(s.jobs) ==> Waits(s, s.jobs[k].serial, k))
    && (forall n :: n in s.collectors && !s.collectors[n].ended ==>
          s.collectors[n].key in Running(s.jobs) && s.jobs[s.collectors[n].key].serial == n)
    && (forall n :: n in s.live ==> n in s.collectors && !s.collectors[n].ended)
  }

  /** A voluntary stop happens, and stays, with no job running. */
  ghost predicate StopsIdle(s: State) {
    s.stopping in {Some(Idle), Some(Unforced)} ==> Running(s.jobs) == {}
  }

  ghost predicate Inv(s: State) {
    CaseDistinct(s.jobs) && KeysWellFormed(s.jobs) && Limits(s.jobs) && Threads(s) && StopsIdle(s)
  }

  /** The state a new Manager builds from a stored table: unfinished jobs are marked finished. */
  function Boot(jobs: Table, serial: nat, now: real): State {
    State(map k | k in jobs :: if jobs[k].finishedAt.None? then jobs[k].(finishedAt := Some(now)) else jobs[k],
          map[], {}, map[], serial, None)
  }

  // ---------------------------------------------------------------- pruning

  /** Pruning never touches a running or uncollected job, nor one of another mapping. */
  lemma PruneKeepsNeeded(jobs: Table, mapping: string, pass: Pass, k: string)
    requires k in jobs
    requires jobs[k].finishedAt.None? || jobs[k].collectedAt.None? || jobs[k].mapping != mapping
    ensures k in Prune(jobs, mapping, pass) && Prune(jobs, mapping, pass)[k] == jobs[k]
  {}

  /** Pruning again at the same time removes nothing more, whatever the order of ties, as long as it is the same. */
  lemma PruneIdempotent(jobs: Table, mapping: string, pass: Pass)
    ensures Prune(Prune(jobs, mapping, pass), mapping, pass) == Prune(jobs, mapping, pass)
  {
    var once := Prune(jobs, mapping, pass);
    forall k | k in once ensures !Disposable(once, mapping, pass, k) {
      SubsetSize(NewerThan(once, pass, k), NewerThan(jobs, pass, k));
    }
  }

  /** The newest four finished jobs of a mapping survive for an hour after they were collected. */
  lemma NewestSurvive(jobs: Table, mapping: string, pass: Pass, k: string)
    requires k in jobs && |NewerThan(jobs, pass, k)| < KEEP_NEWEST
    requires jobs[k].collectedAt.Some? ==> pass.clock(k) - jobs[k].collectedAt.value <= KEEP_SECONDS
    ensures k in Prune(jobs, mapping, pass)
  {}

  // ---------------------------------------------------------------- every step keeps the invariant

  lemma PruneKeeps(jobs: Table, mapping: string, pass: Pass)
    requires CaseDistinct(jobs) && KeysWellFormed(jobs) && Limits(jobs)
    ensures var t := Prune(jobs, mapping, pass);
      && CaseDistinct(t) && KeysWellFormed(t) && Limits(t)
      && Running(t) == Running(jobs) && forall k :: k in t ==> k in jobs && t[k] == jobs[k]
  {
    var t := Prune(jobs, mapping, pass);
    assert Running(t) == Running(jobs);
    forall m ensures RunningOf(t, m) == RunningOf(jobs, m) {}
  }

  lemma PruneStateKeeps(s: State, mapping: string, pass: Pass)
    requires Inv(s)
    ensures Inv(s.(jobs := Prune(s.jobs, mapping, pass)))
  {
    PruneKeeps(s.jobs, mapping, pass);
  }

  lemma RunningAfterInsert(jobs: Table, key: string, job: Job, m: string)
    requires key !in jobs && job.finishedAt.None?
    ensures Running(jobs[key := job]) == Running(jobs) + {key}
    ensures RunningOf(jobs[key := job], m) == RunningOf(jobs, m) + if m == job.mapping then {key} else {}
  {}

  lemma InsertKeepsLimits(jobs: Table, key: string, job: Job)
    requires Limits(jobs) && key !in jobs && job.finishedAt.None?
    requires |Running(jobs)| < MAX_RUNNING && |RunningOf(jobs, job.mapping)| < MAX_PER_MAPPING
    ensures Limits(jobs[key := job])
    ensures Running(jobs[key := job]) == Running(jobs) + {key}
  {
    RunningAfterInsert(jobs, key, job, job.mapping);
    var t := jobs[key := job];
    forall m ensures |RunningOf(t, m)| <= MAX_PER_MAPPING {
      RunningAfterInsert(jobs, key, job, m);
    }
  }

  lemma InsertKeepsKeys(jobs: Table, key: string, job: Job)
    requires CaseDistinct(jobs) && KeysWellFormed(jobs) && !Collides(jobs, key) && KeyOf(key, job.mapping)
    ensures CaseDistinct(jobs[key := job]) && KeysWellFormed(jobs[key := job])
  {}

  lemma StartKeepsThreads(s: State, t: State, pruned: Table, key: string, job: Job)
    requires Threads(s) && Running(pruned) == Running(s.jobs)
    requires forall k :: k in pruned ==> k in s.jobs && pruned[k] == s.jobs[k]
    requires key !in pruned && job.serial == s.serial && job.finishedAt.None?
    requires t.jobs == pruned[key := job] && Running(t.jobs) == Running(pruned) + {key}
    requires t.live == s.live + {s.serial} && t.serial == s.serial + 1
    requires t.collectors == s.collectors[s.serial := Collector(key, false)]
    ensures Threads(t)
  {
    forall k | k in Running(t.jobs) ensures Waits(t, t.jobs[k].serial, k) {
      if k != key { assert Waits(s, s.jobs[k].serial, k); }
    }
  }

  lemma StartKeeps(s: State, step: Step)
    requires Inv(s) && step.Start? && DoStart(s, step).1 == Spawned
    ensures Inv(DoStart(s, step).0)
  {
    var t := DoStart(s, step).0;
    var pruned, key := Prune(s.jobs, step.mapping, step.pass), Key(step.mapping, step.task);
    var job := Job(step.mapping, step.digest, s.serial, None, None);
    PruneKeeps(s.jobs, step.mapping, step.pass);
    InsertKeepsLimits(pruned, key, job);
    InsertKeepsKeys(pruned, key, job);
    StartKeepsThreads(s, t, pruned, key, job);
  }

  lemma FewerRunning(jobs: Table, t: Table)
    requires Limits(jobs)
    requires forall k :: k in t && t[k].finishedAt.None? ==> k in jobs && jobs[k].finishedAt.None? && jobs[k].mapping == t[k].mapping
    ensures Limits(t)
  {
    SubsetSize(Running(t), Running(jobs));
    forall m ensures |RunningOf(t, m)| <= MAX_PER_MAPPING { SubsetSize(RunningOf(t, m), RunningOf(jobs, m)); }
  }

  /** Changing one row, in a way that does not make it run, keeps the table well formed. */
  lemma RowUpdateKeepsTable(jobs: Table, key: string, job: Job)
    requires CaseDistinct(jobs) && KeysWellFormed(jobs) && Limits(jobs) && key in jobs
    requires job.mapping == jobs[key].mapping && job.serial == jobs[key].serial && job.finishedAt.Some?
    ensures CaseDistinct(jobs[key := job]) && KeysWellFormed(jobs[key := job]) && Limits(jobs[key := job])
    ensures Running(jobs[key := job]) == Running(jobs) - {key}
  {
    FewerRunning(jobs, jobs[key := job]);
  }

  lemma EndKeepsThreads(s: State, t: State, n: nat, key: string, job: Job)
    requires Threads(s) && n in s.collectors && s.collectors[n] == Collector(key, false) && n !in s.live
    requires job.serial == n
    requires t.jobs == s.jobs[key := job] && Running(t.jobs) == Running(s.jobs) - {key}
    requires t.collectors == s.collectors[n := Collector(key, true)] && t.live == s.live && t.serial == s.serial
    ensures Threads(t)
  {
    forall k | k in Running(t.jobs) ensures Waits(t, t.jobs[k].serial, k) {
      assert Waits(s, s.jobs[k].serial, k);
    }
  }

  lemma EndKeeps(s: State, n: nat, now: real)
    requires Inv(s) && Enabled(s, End(n, now))
    ensures Inv(DoEnd(s, n, now))
  {
    var key := s.collectors[n].key;
    var job := s.jobs[key].(finishedAt := Some(now));
    RowUpdateKeepsTable(s.jobs, key, job);
    EndKeepsThreads(s, DoEnd(s, n, now), n, key, job);
  }

  lemma CollectKeepsThreads(s: State, key: string, job: Job)
    requires Threads(s) && key in s.jobs && job.serial == s.jobs[key].serial && key !in Running(s.jobs)
    requires Running(s.jobs[key := job]) == Running(s.jobs)
    ensures Threads(s.(jobs := s.jobs[key := job]))
  {
    var t := s.(jobs := s.jobs[key := job]);
    forall k | k in Running(t.jobs) ensures Waits(t, t.jobs[k].serial, k) {
      assert Waits(s, s.jobs[k].serial, k);
    }
  }

  lemma CollectKeeps(s: State, key: string, now: real)
    requires Inv(s) && Enabled(s, Collect(key, now))
    ensures Inv(Next(s, Collect(key, now)))
  {
    var job := s.jobs[key].(collectedAt := Some(now));
    RowUpdateKeepsTable(s.jobs, key, job);
    CollectKeepsThreads(s, key, job);
  }

  lemma RetireKeeps(s: State, n: nat)
    requires Inv(s) && Enabled(s, Retire(n))
    ensures Inv(Next(s, Retire(n)))
  {
    var t := Next(s, Retire(n));
    forall k | k in Running(t.jobs) ensures Waits(t, t.jobs[k].serial, k) {
      assert Waits(s, s.jobs[k].serial, k);
    }
  }

  /** Processes may exit and the Manager may stop, voluntarily only when nothing runs. */
  lemma FlagsKeep(s: State, t: State)
    requires Inv(s) && t.jobs == s.jobs && t.collectors == s.collectors && t.serial == s.serial && t.live <= s.live
    requires t.stopping == s.stopping || t.stopping in {Some(Forced), Some(Exit)} || Running(s.jobs) == {}
    ensures Inv(t)
  {
    forall k | k in Running(t.jobs) ensures Waits(t, t.jobs[k].serial, k) {
      assert Waits(s, s.jobs[k].serial, k);
    }
  }

  lemma NextKeeps(s: State, step: Step)
    requires Inv(s) && Enabled(s, step)
    ensures Inv(Next(s, step))
  {
    match step
    case Start(_, _, _, _, _, _) => StartStepKeeps(s, step);
    case Query(mapping, pass) => PruneStateKeeps(s, mapping, pass);
    case Collect(key, now) => CollectKeeps(s, key, now);
    case End(n, now) => EndKeeps(s, n, now);
    case Retire(n) => RetireKeeps(s, n);
    case ExitProcess(_) => FlagsKeep(s, Next(s, step));
    case Shutdown(force) => FlagsKeep(s, DoShutdown(s, force));
    case IdleCheck(idle) => FlagsKeep(s, DoIdleCheck(s, idle));
    case ServeExit => FlagsKeep(s, Next(s, step));
  }

  lemma StartStepKeeps(s: State, step: Step)
    requires Inv(s) && step.Start?
    ensures Inv(DoStart(s, step).0)
  {
    if DoStart(s, step).1 == Spawned {
      StartKeeps(s, step);
    } else if s.stopping.None? && MappingSyntax(step.mapping) {
      PruneStateKeeps(s, step.mapping, step.pass);
    }
  }

  lemma {:induction false} RunKeeps(s: State, steps: seq<Step>)
    requires Inv(s) && Run(s, steps).Some?
    ensures Inv(Run(s, steps).value)
  {
    if steps != [] {
      RunKeeps(s, steps[..|steps| - 1]);
      NextKeeps(Run(s, steps[..|steps| - 1]).value, steps[|steps| - 1]);
    }
  }

  /** A Manager started on the table another one left behind satisfies the invariant. */
  lemma BootKeeps(s: State, now: real)
    requires Inv(s)
    ensures Inv(Boot(s.jobs, s.serial, now))
  {
    var t := Boot(s.jobs, s.serial, now);
    assert Running(t.jobs) == {};
    forall m ensures RunningOf(t.jobs, m) == {} {}
  }

  // ---------------------------------------------------------------- theorems

  /** In every run: the limits hold, and a case-insensitive lookup finds at most one row. */
  lemma LimitsHold(now: real, steps: seq<Step>, key: string)
    requires Run(Boot(map[], 0, now), steps).Some?
    ensures var jobs := Run(Boot(map[], 0, now), steps).value.jobs;
      && |Running(jobs)| <= 16
      && (forall m :: |RunningOf(jobs, m)| <= 4)
      && (forall k1, k2 :: k1 in jobs && k2 in jobs && Fold(k1) == Fold(key) == Fold(k2) ==> k1 == k2)
  {
    RunKeeps(Boot(map[], 0, now), steps);
  }

  /** Retrying a start whose row still exists spawns nothing, whatever the limits, arguments and spawner would say. */
  lemma RetryIsIdempotent(s: State, step: Step)
    requires Inv(s) && step.Start? && s.stopping.None? && MappingSyntax(step.mapping)
    requires var jobs, key := Prune(s.jobs, step.mapping, step.pass), Key(step.mapping, step.task);
      key in jobs && jobs[key].digest == step.digest
    ensures DoStart(s, step) == (s.(jobs := Prune(s.jobs, step.mapping, step.pass)), Existing)
  {
    var jobs, key := Prune(s.jobs, step.mapping, step.pass), Key(step.mapping, step.task);
    PruneKeeps(s.jobs, step.mapping, step.pass);
    var task :| TaskSyntax(task) && key == Key(jobs[key].mapping, task);
    KeyInjective(step.mapping, step.task, jobs[key].mapping, task);
  }

  /** Stopping is never taken back, and its cause is the first one. */
  lemma {:induction false} StoppingIsFinal(s: State, steps: seq<Step>)
    requires s.stopping.Some? && Run(s, steps).Some?
    ensures Run(s, steps).value.stopping == s.stopping
  {
    if steps != [] { StoppingIsFinal(s, steps[..|steps| - 1]); }
  }

  /**
  A voluntary stop is harmless: from the moment the Manager stops for idleness or
  an unforced shutdown, and in every later state, no job runs, no process is
  alive, and a kill loop over all handles signals nothing.
  */
  lemma {:induction false} VoluntaryStopHarmless(s: State, steps: seq<Step>)
    requires Inv(s) && s.stopping in {Some(Idle), Some(Unforced)} && Run(s, steps).Some?
    ensures var t := Run(s, steps).value;
      t.stopping == s.stopping && Running(t.jobs) == {} && t.live == {} && Signalled(t, t.handles.Keys) == {}
  {
    StoppingIsFinal(s, steps);
    RunKeeps(s, steps);
  }

  /** A shutdown that is not forced changes nothing exactly when jobs are running or the stop was under way. */
  lemma UnforcedShutdown(s: State)
    ensures DoShutdown(s, false) == s <==> Running(s.jobs) != {} || s.stopping.Some?
  {}

  // ---------------------------------------------------------------- handles of running jobs

  /** Every running job can be signalled through the handle kept under its key. */
  ghost predicate Tracked(s: State) {
    forall k :: k in Running(s.jobs) ==> k in s.handles && s.handles[k] == s.jobs[k].serial
  }

  /**
  A collector drops the handle under its key in a second lock section.  That
  loses the handle of a running job exactly when the job now under that key is
  running, which takes a prune and a new start in between.
  */
  lemma RetireKeepsHandles(s: State, n: nat)
    requires Tracked(s) && Enabled(s, Retire(n))
    ensures Tracked(Next(s, Retire(n))) <==> s.collectors[n].key !in Running(s.jobs)
  {
    assert Next(s, Retire(n)).jobs == s.jobs;
  }

  lemma OthersKeepHandles(s: State, step: Step)
    requires Tracked(s) && Enabled(s, step) && !step.Retire?
    ensures Tracked(Next(s, step))
  {
    match step
    case Start(_, _, _, _, _, _) => StartKeepsHandles(s, step);
    case Query(mapping, pass) => FewerTracked(s, s.(jobs := Prune(s.jobs, mapping, pass)));
    case Collect(key, now) => FewerTracked(s, Next(s, step));
    case ExitProcess(_) => FewerTracked(s, Next(s, step));
    case End(n, now) => FewerTracked(s, DoEnd(s, n, now));
    case Shutdown(force) => FewerTracked(s, DoShutdown(s, force));
    case IdleCheck(idle) => FewerTracked(s, DoIdleCheck(s, idle));
    case ServeExit => FewerTracked(s, Next(s, step));
  }

  /** A step that keeps the handles and starts nothing keeps the handles of what still runs. */
  lemma FewerTracked(s: State, t: State)
    requires Tracked(s) && t.handles == s.handles
    requires forall k :: k in t.jobs && t.jobs[k].finishedAt.None? ==>
      k in s.jobs && s.jobs[k].finishedAt.None? && t.jobs[k].serial == s.jobs[k].serial
    ensures Tracked(t)
  {
    forall k | k in Running(t.jobs) ensures k in t.handles && t.handles[k] == t.jobs[k].serial {
      assert k in Running(s.jobs);
    }
  }

  lemma StartKeepsHandles(s: State, step: Step)
    requires Tracked(s) && step.Start?
    ensures Tracked(DoStart(s, step).0)
  {
    FewerTracked(s, s.(jobs := Prune(s.jobs, step.mapping, step.pass)));
  }

  /** The state after the first `n` steps. */
  ghost function StateAt(s: State, steps: seq<Step>, n: nat): State
    requires n <= |steps|
  {
    var t := Run(s, steps[..n]);
    if t.Some? then t.value else s
  }

  /** Step `m` of the run drops the handle under the key of a job that is running. */
  ghost predicate DropsRunning(s: State, steps: seq<Step>, m: nat)
    requires m < |steps|
  {
    && steps[m].Retire?
    && var t := StateAt(s, steps, m);
    steps[m].serial in t.collectors && t.collectors[steps[m].serial].key in Running(t.jobs)
  }

  lemma {:induction false} RunPrefix(s: State, steps: seq<Step>, n: nat)
    requires n <= |steps| && Run(s, steps).Some?
    ensures Run(s, steps[..n]).Some?
  {
    if n < |steps| {
      RunPrefix(s, steps[..|steps| - 1], n);
      assert steps[..|steps| - 1][..n] == steps[..n];
    } else {
      assert steps[..n] == steps;
    }
  }

  lemma {:induction false} RunNext(s: State, steps: seq<Step>, m: nat)
    requires m < |steps| && Run(s, steps).Some? && Inv(s)
    ensures Inv(StateAt(s, steps, m)) && Enabled(StateAt(s, steps, m), steps[m])
    ensures StateAt(s, steps, m + 1) == Next(StateAt(s, steps, m), steps[m])
  {
    RunPrefix(s, steps, m);
    RunPrefix(s, steps, m + 1);
    RunKeeps(s, steps[..m]);
    assert steps[..m + 1][..m] == steps[..m];
  }

  /** One step of a run keeps the handles of running jobs exactly when it does not drop one. */
  lemma {:induction false} HandleStep(s: State, steps: seq<Step>, m: nat)
    requires m < |steps| && Run(s, steps).Some? && Inv(s) && Tracked(StateAt(s, steps, m))
    ensures Tracked(StateAt(s, steps, m + 1)) <==> !DropsRunning(s, steps, m)
  {
    RunNext(s, steps, m);
    var t := StateAt(s, steps, m);
    if steps[m].Retire? { RetireKeepsHandles(t, steps[m].serial); } else { OthersKeepHandles(t, steps[m]); }
  }

  lemma {:induction false} HandlesUntil(s: State, steps: seq<Step>, n: nat)
    requires n <= |steps| && Run(s, steps).Some? && Inv(s) && Tracked(s)
    requires forall m :: 0 <= m < n ==> !DropsRunning(s, steps, m)
    ensures Tracked(StateAt(s, steps, n))
  {
    if n == 0 {
      assert steps[..0] == [];
    } else {
      HandlesUntil(s, steps, n - 1);
      HandleStep(s, steps, n - 1);
    }
  }

  /**
  Over whole runs from a new Manager: every running job keeps its handle at every
  point exactly when no collector retires while the job under its key is running.
  */
  lemma {:induction false} HandlesKeptExactly(stored: State, now: real, steps: seq<Step>)
    requires Inv(stored) && Run(Boot(stored.jobs, stored.serial, now), steps).Some?
    ensures var s := Boot(stored.jobs, stored.serial, now);
      (forall n :: 0 <= n <= |steps| ==> Tracked(StateAt(s, steps, n))) <==>
      (forall m :: 0 <= m < |steps| ==> !DropsRunning(s, steps, m))
  {
    var s := Boot(stored.jobs, stored.serial, now);
    BootKeeps(stored, now);
    assert Tracked(s);
    if forall n :: 0 <= n <= |steps| ==> Tracked(StateAt(s, steps, n)) {
      forall m | 0 <= m < |steps| ensures !DropsRunning(s, steps, m) {
        assert Tracked(StateAt(s, steps, m)) && Tracked(StateAt(s, steps, m + 1));
        HandleStep(s, steps, m);
      }
    }
    if forall m :: 0 <= m < |steps| ==> !DropsRunning(s, steps, m) {
      forall n | 0 <= n <= |steps| ensures Tracked(StateAt(s, steps, n)) { HandlesUntil(s, steps, n); }
    }
  }

  function At(now: real): Pass {
    Pass(k => now, k => 0)
  }

  const MAPPING := "AAAAAAAAAAAAAAAAAAAAAAAA"
  const TASK := "&0000&"

  /** The race behind `RetireKeepsHandles`: end, collect, prune and restart, then the old collector retires. */
  const STALE_RETIRE: seq<Step> := [
    Start(MAPPING, TASK, "first", true, true, At(0.0)),
    ExitProcess(0),
    End(0, 1.0),
    Collect(Key(MAPPING, TASK), 2.0),
    Start(MAPPING, TASK, "second", true, true, At(4000.0)),
    Retire(0)]

  lemma {:induction false} RunStep(s: State, steps: seq<Step>, n: nat)
    requires n < |steps| && Run(s, steps[..n]).Some? && Enabled(Run(s, steps[..n]).value, steps[n])
    ensures Run(s, steps[..n + 1]) == Some(Next(Run(s, steps[..n]).value, steps[n]))
  {
    assert steps[..n + 1][..n] == steps[..n];
  }

  /** A valid start on an empty table spawns. */
  lemma StartSpawns(s: State, step: Step)
    requires step.Start? && s.stopping.None? && Prune(s.jobs, step.mapping, step.pass) == map[]
    requires step.valid && step.spawns && MappingSyntax(step.mapping) && TaskSyntax(step.task)
    ensures var key := Key(step.mapping, step.task);
      DoStart(s, step).0 == State(map[key := Job(step.mapping, step.digest, s.serial, None, None)],
                                  s.handles[key := s.serial], s.live + {s.serial},
                                  s.collectors[s.serial := Collector(key, false)], s.serial + 1, None)
  {
    assert Running(map[]) == {} && RunningOf(map[], step.mapping) == {};
  }

  /** The state in which the first job has ended and was collected, and its collector is between its sections. */
  function BetweenSections(): State {
    var k := Key(MAPPING, TASK);
    State(map[k := Job(MAPPING, "first", 0, Some(1.0), Some(2.0))], map[k := 0], {}, map[0 := Collector(k, true)], 1, None)
  }

  /** The state in which the first job runs. */
  function FirstRuns(): State {
    var k := Key(MAPPING, TASK);
    State(map[k := Job(MAPPING, "first", 0, None, None)], map[k := 0], {0}, map[0 := Collector(k, false)], 1, None)
  }

  lemma ReachFirstRuns()
    ensures Run(Boot(map[], 0, 0.0), STALE_RETIRE[..1]) == Some(FirstRuns())
  {
    var s0, steps := Boot(map[], 0, 0.0), STALE_RETIRE;
    assert steps[..0] == [];
    assert Prune(s0.jobs, MAPPING, At(0.0)) == map[];
    StartSpawns(s0, steps[0]);
    RunStep(s0, steps, 0);
  }

  /** The state in which it has ended, and nobody has read its output. */
  function FirstEnded(): State {
    var k := Key(MAPPING, TASK);
    State(map[k := Job(MAPPING, "first", 0, Some(1.0), None)], map[k := 0], {}, map[0 := Collector(k, true)], 1, None)
  }

  lemma FirstEnds()
    ensures Enabled(FirstRuns(), ExitProcess(0))
    ensures var exited := Next(FirstRuns(), ExitProcess(0));
      Enabled(exited, End(0, 1.0)) && Next(exited, End(0, 1.0)) == FirstEnded()
  {
    var exited := Next(FirstRuns(), ExitProcess(0));
    assert exited.live == {};
    assert DoEnd(exited, 0, 1.0).jobs == FirstEnded().jobs;
  }

  lemma FirstCollected()
    ensures Enabled(FirstEnded(), Collect(Key(MAPPING, TASK), 2.0))
    ensures Next(FirstEnded(), Collect(Key(MAPPING, TASK), 2.0)) == BetweenSections()
  {
    assert Next(FirstEnded(), Collect(Key(MAPPING, TASK), 2.0)).jobs == BetweenSections().jobs;
  }

  lemma {:induction false} ReachBetweenSections(s0: State, steps: seq<Step>)
    requires |steps| > 4 && Run(s0, steps[..1]) == Some(FirstRuns())
    requires steps[1] == ExitProcess(0) && steps[2] == End(0, 1.0) && steps[3] == Collect(Key(MAPPING, TASK), 2.0)
    ensures Run(s0, steps[..4]) == Some(BetweenSections())
  {
    FirstEnds();
    RunStep(s0, steps, 1);
    RunStep(s0, steps, 2);
    FirstCollected();
    RunStep(s0, steps, 3);
  }

  /** A running job can lose its handle: the restarted job runs, and no signal can reach it by its key. */
  lemma StaleCollectorDropsHandle()
    ensures Run(Boot(map[], 0, 0.0), STALE_RETIRE).Some?
    ensures var t := Run(Boot(map[], 0, 0.0), STALE_RETIRE).value; var k := Key(MAPPING, TASK);
      k in Running(t.jobs) && t.jobs[k].serial in t.live && k !in t.handles
  {
    var s0, k, steps := Boot(map[], 0, 0.0), Key(MAPPING, TASK), STALE_RETIRE;
    ReachFirstRuns();
    ReachBetweenSections(s0, steps);
    assert Disposable(BetweenSections().jobs, MAPPING, At(4000.0), k);
    assert Prune(BetweenSections().jobs, MAPPING, At(4000.0)) == map[];
    StartSpawns(BetweenSections(), steps[4]);
    RunStep(s0, steps, 4);
    RunStep(s0, steps, 5);
    assert steps[..6] == steps;
  }
}
