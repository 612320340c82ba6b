/** Every answer of a start request, and what identifies a job over whole runs. */
module JobStarts {
  import opened Prelude
  import opened JobTable

  // ---------------------------------------------------------------- identifiers

  predicate Letter(c: char) {
    'a' <= c <= 'z' || 'A' <= c <= 'Z'
  }

  /** A job identifier is four letters or digits between ampersands. */
  lemma TaskExactly(task: string)
    ensures TaskSyntax(task) <==>
      exists name: string :: |name| == 4 && task == "&" + name + "&" && forall i :: 0 <= i < 4 ==> Letter(name[i]) || '0' <= name[i] <= '9'
  {
    if TaskSyntax(task) {
      var name := task[1..5];
      assert task == "&" + name + "&";
      assert forall i :: 0 <= i < 4 ==> name[i] == task[i + 1];
    }
    if name: string :| |name| == 4 && task == "&" + name + "&" && forall i :: 0 <= i < 4 ==> Letter(name[i]) || '0' <= name[i] <= '9' {
      assert forall i :: 1 <= i < 5 ==> task[i] == name[i - 1];
    }
  }

  /** Two characters are equal, or the two cases of one letter. */
  ghost predicate SameLetter(a: char, b: char) {
    a == b || (Letter(a) && Letter(b) && (a as int == b as int + 32 || b as int == a as int + 32))
  }

  /** Keys collide exactly when they differ at most in the case of letters. */
  lemma FoldExactly(s: string, t: string)
    ensures Fold(s) == Fold(t) <==> |s| == |t| && forall i :: 0 <= i < |s| ==> SameLetter(s[i], t[i])
  {
    if Fold(s) == Fold(t) {
      assert |Fold(s)| == |s| && |Fold(t)| == |t|;
      forall i | 0 <= i < |s| ensures SameLetter(s[i], t[i]) { assert Fold(s)[i] == Fold(t)[i]; }
    }
  }

  // ---------------------------------------------------------------- one start

  /** The request names a mapping and a job properly, and the Manager is not stopping. */
  ghost predicate Considered(s: State, step: Step)
    requires step.Start?
  {
    s.stopping == None && MappingSyntax(step.mapping) && TaskSyntax(step.task)
  }

  /** No row, after pruning, has this key in any case of its letters. */
  ghost predicate Unused(s: State, step: Step)
    requires step.Start?
  {
    forall k :: k in Prune(s.jobs, step.mapping, step.pass) ==> Fold(k) != Fold(step.mapping + "." + step.task)
  }

  /** The answer to every start, in a reachable state. */
  lemma StartAnswers(s: State, step: Step)
    requires Inv(s) && step.Start?
    ensures var (t, reply) := DoStart(s, step);
      var jobs, key := Prune(s.jobs, step.mapping, step.pass), step.mapping + "." + step.task;
      var running, own := |Running(s.jobs)|, |RunningOf(s.jobs, step.mapping)|;
      && (reply == Spawned <==> Considered(s, step) && Unused(s, step) && running < 16 && own < 4 && step.valid && step.spawns)
      && (reply == Existing <==> Considered(s, step) && key in jobs && jobs[key].digest == step.digest)
      && (reply == Refused(OtherRequest) <==> Considered(s, step) && key in jobs && jobs[key].digest != step.digest)
      && (reply == Refused(CaseCollision) <==> Considered(s, step) && key !in jobs && !Unused(s, step))
      && (reply == Refused(GlobalLimit) <==> Considered(s, step) && Unused(s, step) && running >= 16)
      && (reply == Refused(MappingLimit) <==> Considered(s, step) && Unused(s, step) && running < 16 && own >= 4)
  {
    var jobs, key := Prune(s.jobs, step.mapping, step.pass), Key(step.mapping, step.task);
    PruneKeeps(s.jobs, step.mapping, step.pass);
    assert RunningOf(jobs, step.mapping) == RunningOf(s.jobs, step.mapping);
    assert Fold(key) == Fold(step.mapping + "." + step.task);
    if key in jobs && MappingSyntax(step.mapping) { OwnRow(jobs, step.mapping, step.task); }
    if Considered(s, step) { ReplyExactly(jobs, step.mapping, key, step.digest, step.valid, step.spawns); }
  }

  /** The row under a key belongs to the mapping in the key. */
  lemma OwnRow(jobs: Table, mapping: string, task: string)
    requires KeysWellFormed(jobs) && MappingSyntax(mapping) && Key(mapping, task) in jobs
    ensures jobs[Key(mapping, task)].mapping == mapping
  {
    var row := jobs[Key(mapping, task)];
    var other :| TaskSyntax(other) && Key(mapping, task) == Key(row.mapping, other);
    KeyInjective(mapping, task, row.mapping, other);
  }

  lemma ReplyExactly(jobs: Table, mapping: string, key: string, digest: string, valid: bool, spawns: bool)
    requires CaseDistinct(jobs) && (key in jobs ==> jobs[key].mapping == mapping)
    ensures var reply := StartReply(jobs, mapping, key, digest, valid, spawns);
      var unused := forall k :: k in jobs ==> Fold(k) != Fold(key);
      var running, own := |Running(jobs)|, |RunningOf(jobs, mapping)|;
      && (reply == Spawned <==> unused && running < 16 && own < 4 && valid && spawns)
      && (reply == Existing <==> key in jobs && jobs[key].digest == digest)
      && (reply == Refused(OtherRequest) <==> key in jobs && jobs[key].digest != digest)
      && (reply == Refused(CaseCollision) <==> key !in jobs && !unused)
      && (reply == Refused(GlobalLimit) <==> unused && running >= 16)
      && (reply == Refused(MappingLimit) <==> unused && running < 16 && own >= 4)
  {}

  /** A start that does not spawn leaves everything but expired rows as it is. */
  lemma OnlySpawningStarts(s: State, step: Step)
    requires step.Start? && DoStart(s, step).1 != Spawned
    ensures var t := DoStart(s, step).0;
      t == s.(jobs := t.jobs) && (t.jobs == s.jobs || t.jobs == Prune(s.jobs, step.mapping, step.pass))
  {}

  /** A start that spawns adds one row for the request, with its process, handle and collector. */
  lemma SpawningStarts(s: State, step: Step)
    requires step.Start? && DoStart(s, step).1 == Spawned
    ensures var t, key := DoStart(s, step).0, step.mapping + "." + step.task;
      && key in t.jobs && t.jobs[key] == Job(step.mapping, step.digest, s.serial, None, None)
      && (forall k :: k != key ==> (k in t.jobs <==> k in Prune(s.jobs, step.mapping, step.pass)))
      && t.live == s.live + {s.serial} && key in t.handles && t.handles[key] == s.serial && Waits(t, s.serial, key)
  {}

  // ---------------------------------------------------------------- whole runs

  /** What a step answers, if it is a start. */
  ghost function Answer(s: State, step: Step): Option<Reply> {
    if step.Start? then Some(DoStart(s, step).1) else None
  }

  /** The states between the steps of a run, and the answers of its starts. */
  ghost predicate Chain(states: seq<State>, replies: seq<Option<Reply>>, steps: seq<Step>) {
    && |states| == |steps| + 1 && |replies| == |steps|
    && forall i :: 0 <= i < |steps| ==>
         Enabled(states[i], steps[i]) && states[i + 1] == Next(states[i], steps[i]) && replies[i] == Answer(states[i], steps[i])
  }

  ghost predicate SameRow(a: Job, b: Job) {
    a.mapping == b.mapping && a.digest == b.digest && a.serial == b.serial
  }

  /** The row that a spawning start adds. */
  ghost predicate NewRow(s: State, step: Step, reply: Option<Reply>, key: string, row: Job) {
    && step.Start? && reply == Some(Spawned) && key == Key(step.mapping, step.task)
    && row.mapping == step.mapping && row.digest == step.digest && row.serial == s.serial
  }

  /** Rows are new or carried, old rows have old serials, and a spawning start adds its row. */
  ghost predicate RowStep(s: State, step: Step, reply: Option<Reply>, t: State) {
    && (forall k :: k in t.jobs ==> (k in s.jobs && SameRow(s.jobs[k], t.jobs[k])) || NewRow(s, step, reply, k, t.jobs[k]))
    && (forall k :: k in s.jobs ==> s.jobs[k].serial < s.serial)
    && (reply == Some(Spawned) ==>
          && step.Start? && Key(step.mapping, step.task) in t.jobs
          && NewRow(s, step, reply, Key(step.mapping, step.task), t.jobs[Key(step.mapping, step.task)]))
  }

  lemma StartRowStep(s: State, step: Step)
    requires step.Start? && forall k :: k in s.jobs ==> s.jobs[k].serial < s.serial
    ensures RowStep(s, step, Some(DoStart(s, step).1), DoStart(s, step).0)
  {}

  lemma NextRowStep(s: State, step: Step)
    requires Enabled(s, step) && forall k :: k in s.jobs ==> s.jobs[k].serial < s.serial
    ensures RowStep(s, step, Answer(s, step), Next(s, step))
  {
    if step.Start? {
      StartRowStep(s, step);
    } else {
      var t := Next(s, step);
      forall k | k in t.jobs ensures k in s.jobs && SameRow(s.jobs[k], t.jobs[k]) { RowCarried(s, step, k); }
      OtherRowStep(s, step, t);
    }
  }

  lemma RowCarried(s: State, step: Step, k: string)
    requires Enabled(s, step) && !step.Start? && k in Next(s, step).jobs
    ensures k in s.jobs && SameRow(s.jobs[k], Next(s, step).jobs[k])
  {}

  lemma OtherRowStep(s: State, step: Step, t: State)
    requires forall k :: k in s.jobs ==> s.jobs[k].serial < s.serial
    requires forall k :: k in t.jobs ==> k in s.jobs && SameRow(s.jobs[k], t.jobs[k])
    ensures RowStep(s, step, None, t)
  {}

  lemma OldSerials(s: State)
    requires Inv(s)
    ensures forall k :: k in s.jobs ==> s.jobs[k].serial < s.serial
  {}

  /** The run's states as far as rows are concerned. */
  ghost predicate Rows(states: seq<State>, replies: seq<Option<Reply>>, steps: seq<Step>) {
    && |states| == |steps| + 1 && |replies| == |steps| && states[0].jobs == map[]
    && forall i :: 0 <= i < |steps| ==> RowStep(states[i], steps[i], replies[i], states[i + 1])
  }

  lemma {:induction false} RunChain(s: State, steps: seq<Step>) returns (states: seq<State>, replies: seq<Option<Reply>>)
    requires Inv(s) && Run(s, steps).Some?
    ensures Chain(states, replies, steps) && states[0] == s && states[|steps|] == Run(s, steps).value
    ensures Inv(states[|steps|]) && (s.jobs == map[] ==> Rows(states, replies, steps))
  {
    states := seq(|steps| + 1, i requires 0 <= i <= |steps| => StateAt(s, steps, i));
    replies := seq(|steps|, i requires 0 <= i < |steps| => Answer(states[i], steps[i]));
    assert steps[..|steps|] == steps && steps[..0] == [];
    forall i | 0 <= i < |steps|
      ensures Enabled(states[i], steps[i]) && states[i + 1] == Next(states[i], steps[i])
      ensures RowStep(states[i], steps[i], replies[i], states[i + 1])
    {
      RunNext(s, steps, i);
      OldSerials(states[i]);
      NextRowStep(states[i], steps[i]);
    }
    RunKeeps(s, steps);
  }

  /** Step `m` started this job: the mapping, the identifier and the digest of the request. */
  ghost predicate SpawnedAt(replies: seq<Option<Reply>>, steps: seq<Step>, m: nat, mapping: string, task: string, digest: string) {
    && m < |steps| == |replies| && replies[m] == Some(Spawned) && steps[m].Start?
    && steps[m].mapping == mapping && steps[m].task == task && steps[m].digest == digest
  }

  /** The row with which step `m` started a job is there after every later step: never pruned, never replaced. */
  ghost predicate RowKept(states: seq<State>, m: nat, n: nat, key: string) {
    m < n < |states| && forall j :: m < j <= n ==> key in states[j].jobs && states[j].jobs[key].serial == states[m].serial
  }

  /** Every row of a run from an empty table was started by a step of the run, and kept since. */
  lemma {:induction false} RowSpawned(states: seq<State>, replies: seq<Option<Reply>>, steps: seq<Step>, n: nat, key: string)
    returns (m: nat)
    requires Rows(states, replies, steps) && n <= |steps| && key in states[n].jobs
    ensures m < n && steps[m].Start? && replies[m] == Some(Spawned) && key == Key(steps[m].mapping, steps[m].task)
    ensures RowKept(states, m, n, key)
    ensures states[n].jobs[key].mapping == steps[m].mapping && states[n].jobs[key].digest == steps[m].digest
  {
    var before := states[n - 1];
    assert RowStep(before, steps[n - 1], replies[n - 1], states[n]);
    if key in before.jobs && SameRow(before.jobs[key], states[n].jobs[key]) {
      m := RowSpawned(states, replies, steps, n - 1, key);
    } else {
      m := n - 1;
    }
  }

  /** A row that is kept keeps the digest and mapping it was started with. */
  lemma {:induction false} KeptRowSame(states: seq<State>, replies: seq<Option<Reply>>, steps: seq<Step>, m: nat, n: nat,
                                       mapping: string, task: string, digest: string)
    requires Rows(states, replies, steps) && n <= |steps| && SpawnedAt(replies, steps, m, mapping, task, digest)
    requires RowKept(states, m, n, Key(mapping, task))
    ensures states[n].jobs[Key(mapping, task)].mapping == mapping && states[n].jobs[Key(mapping, task)].digest == digest
  {
    var key := Key(mapping, task);
    assert RowStep(states[n - 1], steps[n - 1], replies[n - 1], states[n]);
    if n > m + 1 {
      KeptRowSame(states, replies, steps, m, n - 1, mapping, task, digest);
      assert key in states[n - 1].jobs && states[n - 1].jobs[key].serial == states[m].serial;
    }
  }

  /**
  In every run of a new Manager, a start is answered with an existing job exactly
  when an earlier start of the run with the same mapping, identifier and digest
  spawned it, its row was kept since, and the row survives the pruning of this very
  request; so nobody is ever given the job of another request.
  */
  lemma {:induction false} ExistingExactly(now: real, steps: seq<Step>, step: Step)
    returns (states: seq<State>, replies: seq<Option<Reply>>)
    requires step.Start? && Run(Boot(map[], 0, now), steps).Some?
    ensures Chain(states, replies, steps) && states[0] == Boot(map[], 0, now)
    ensures var t, key := states[|steps|], Key(step.mapping, step.task);
      DoStart(t, step).1 == Existing <==>
      && t.stopping == None && key in Prune(t.jobs, step.mapping, step.pass)
      && exists m: nat :: SpawnedAt(replies, steps, m, step.mapping, step.task, step.digest) && RowKept(states, m, |steps|, key)
  {
    var s := Boot(map[], 0, now);
    assert Running(s.jobs) == {} && Inv(s);
    states, replies := RunChain(s, steps);
    ExistingInChain(states, replies, steps, step);
  }

  lemma ExistingInChain(states: seq<State>, replies: seq<Option<Reply>>, steps: seq<Step>, step: Step)
    requires step.Start? && Chain(states, replies, steps) && Rows(states, replies, steps) && Inv(states[|steps|])
    ensures var t, key := states[|steps|], Key(step.mapping, step.task);
      DoStart(t, step).1 == Existing <==>
      && t.stopping == None && key in Prune(t.jobs, step.mapping, step.pass)
      && exists m: nat :: SpawnedAt(replies, steps, m, step.mapping, step.task, step.digest) && RowKept(states, m, |steps|, key)
  {
    var t, key := states[|steps|], Key(step.mapping, step.task);
    StartAnswers(t, step);
    if DoStart(t, step).1 == Existing {
      var m := RowSpawned(states, replies, steps, |steps|, key);
      assert DoStart(states[m], steps[m]).1 == Spawned;
      SpawnedConsidered(states[m], steps[m]);
      KeyInjective(step.mapping, step.task, steps[m].mapping, steps[m].task);
      assert SpawnedAt(replies, steps, m, step.mapping, step.task, step.digest);
    }
    if m: nat :| SpawnedAt(replies, steps, m, step.mapping, step.task, step.digest) && RowKept(states, m, |steps|, key) {
      KeptRowSame(states, replies, steps, m, |steps|, step.mapping, step.task, step.digest);
      assert DoStart(states[m], steps[m]).1 == Spawned;
      SpawnedConsidered(states[m], steps[m]);
    }
  }

  lemma SpawnedConsidered(s: State, step: Step)
    requires step.Start? && DoStart(s, step).1 == Spawned
    ensures MappingSyntax(step.mapping) && TaskSyntax(step.task)
  {}

  // ---------------------------------------------------------------- pruning and stopping

  /** What a pruning pass leaves of a mapping's collected jobs: the newest four, for an hour. */
  lemma PruneExactly(jobs: Table, mapping: string, pass: Pass, k: string)
    requires k in jobs
    ensures k !in Prune(jobs, mapping, pass) <==>
      && jobs[k].mapping == mapping && jobs[k].finishedAt.Some? && jobs[k].collectedAt.Some?
      && (|NewerThan(jobs, pass, k)| >= 4 || pass.clock(k) - jobs[k].collectedAt.value > 3600.0)
    ensures k in Prune(jobs, mapping, pass) ==> Prune(jobs, mapping, pass)[k] == jobs[k]
  {}

  /** A Manager stops for idleness exactly when idle with nothing running, and always when forced. */
  lemma StopsExactly(s: State, idle: bool)
    requires s.stopping == None
    ensures DoIdleCheck(s, idle).stopping == (if idle && Running(s.jobs) == {} then Some(Idle) else None)
    ensures DoShutdown(s, false).stopping == (if Running(s.jobs) == {} then Some(Unforced) else None)
    ensures DoShutdown(s, true).stopping == Some(Forced)
  {}

  /** With all handles in place, signalling the running jobs reaches exactly the live processes. */
  lemma ForcedStopReachesAll(s: State)
    requires Inv(s) && Tracked(s)
    ensures Signalled(s, Running(s.jobs)) == s.live
  {
    forall n | n in s.live ensures n in Signalled(s, Running(s.jobs)) {
      var k := s.collectors[n].key;
      assert k in Running(s.jobs) && s.handles[k] == n;
    }
  }
}
