/**
The Manager's lock-held methods, statement by statement, each proved to perform
its step of the job table model.
*/
module JobManager {
  import opened Prelude
  import opened JobTable

  /** The result of listing a mapping's finished jobs, newest first. */
  ghost predicate Listing(jobs: Table, mapping: string, pass: Pass, rows: seq<string>) {
    && (forall k :: k in rows <==> k in jobs && jobs[k].mapping == mapping && jobs[k].finishedAt.Some?)
    && (forall i, j :: 0 <= i < j < |rows| && rows[i] in jobs && rows[j] in jobs ==> Newer(jobs, pass, rows[i], rows[j]))
  }

  function Elements(rows: seq<string>): set<string> {
    set k | k in rows
  }

  lemma {:induction false} DistinctPrefix(rows: seq<string>, n: nat)
    requires n <= |rows| && forall i, j :: 0 <= i < j < |rows| ==> rows[i] != rows[j]
    ensures |Elements(rows[..n])| == n
  {
    if n > 0 {
      DistinctPrefix(rows, n - 1);
      assert rows[..n] == rows[..n - 1] + [rows[n - 1]];
      assert Elements(rows[..n]) == Elements(rows[..n - 1]) + {rows[n - 1]};
    }
  }

  /** A row's position in the listing is the number of newer rows. */
  lemma ListingIndex(jobs: Table, mapping: string, pass: Pass, rows: seq<string>, i: nat)
    requires Listing(jobs, mapping, pass, rows) && i < |rows|
    ensures rows[i] in jobs && |NewerThan(jobs, pass, rows[i])| == i
  {
    assert forall j :: 0 <= j < |rows| ==> rows[j] in rows;
    var newer := NewerThan(jobs, pass, rows[i]);
    assert newer == Elements(rows[..i]) by {
      forall k | k in newer ensures k in rows[..i] {
        assert k in rows;
        var j :| 0 <= j < |rows| && rows[j] == k;
        assert rows[..i][j] == k;
      }
      forall k | k in rows[..i] ensures k in newer {
        var j :| 0 <= j < i && rows[..i][j] == k;
        assert rows[j] == k;
      }
    }
    DistinctPrefix(rows, i);
  }

  class Manager {
    var jobs: Table
    var handles: map<string, nat>
    var live: set<nat>
    var collectors: map<nat, Collector>
    var serial: nat
    var stopping: Option<Cause>

    function View(): State
      reads this
    {
      State(jobs, handles, live, collectors, serial, stopping)
    }

    constructor (stored: Table, serial: nat, now: real)
      ensures View() == Boot(stored, serial, now)
    {
      jobs := map k | k in stored :: if stored[k].finishedAt.None? then stored[k].(finishedAt := Some(now)) else stored[k];
      handles, live, collectors, this.serial, stopping := map[], {}, map[], serial, None;
    }

    /** Walks the listing and deletes as it goes. */
    method PruneFinished(mapping: string, rows: seq<string>, pass: Pass)
      requires Listing(jobs, mapping, pass, rows)
      modifies this`jobs
      ensures jobs == Prune(old(jobs), mapping, pass)
    {
      ghost var before := jobs;
      ghost var gone := {};
      for i := 0 to |rows|
        invariant jobs == before - gone
        invariant forall k :: k in gone <==> k in rows[..i] && Disposable(before, mapping, pass, k)
      {
        ListingIndex(before, mapping, pass, rows, i);
        var key := rows[i];
        assert key !in rows[..i];
        assert rows[..i + 1] == rows[..i] + [key];
        var collected := jobs[key].collectedAt;
        if collected.Some? && (i >= KEEP_NEWEST || pass.clock(key) - collected.value > KEEP_SECONDS) {
          jobs, gone := jobs - {key}, gone + {key};
        }
      }
      assert rows[..|rows|] == rows;
      assert forall k :: Disposable(before, mapping, pass, k) ==> k in rows;
    }

    /** The checks of a start request on the pruned table, in their order. */
    method AnswerStart(mapping: string, key: string, digest: string, valid: bool, spawns: bool) returns (reply: Reply)
      ensures reply == StartReply(jobs, mapping, key, digest, valid, spawns)
    {
      if exists k :: k in jobs && k != key && Fold(k) == Fold(key) { return Refused(CaseCollision); }
      if key in jobs {
        if jobs[key].mapping != mapping || jobs[key].digest != digest { return Refused(OtherRequest); }
        return Existing;
      }
      if |Running(jobs)| >= MAX_RUNNING { return Refused(GlobalLimit); }
      if |RunningOf(jobs, mapping)| >= MAX_PER_MAPPING { return Refused(MappingLimit); }
      if !valid { return Refused(Invalid); }
      if !spawns { return Refused(SpawnFailed); }
      reply := Spawned;
    }

    /** A start request, from the stopping test to the new row and its threads. */
    method StartJob(mapping: string, task: string, digest: string, valid: bool, spawns: bool, pass: Pass,
                    rows: seq<string>) returns (reply: Reply)
      requires Listing(jobs, mapping, pass, rows)
      modifies this
      ensures (View(), reply) == DoStart(old(View()), Start(mapping, task, digest, valid, spawns, pass))
    {
      if stopping.Some? { return Refused(Stopping); }
      if !MappingSyntax(mapping) { return Refused(BadMapping); }
      PruneFinished(mapping, rows, pass);
      assert View() == old(View()).(jobs := Prune(old(jobs), mapping, pass));
      if !TaskSyntax(task) { return Refused(BadJobId); }
      var key := Key(mapping, task);
      reply := AnswerStart(mapping, key, digest, valid, spawns);
      if reply == Spawned { RegisterJob(mapping, key, digest); }
    }

    /** The new row, the process handle and the collector of a spawned job. */
    method RegisterJob(mapping: string, key: string, digest: string)
      modifies this
      ensures View() == Registered(old(View()), mapping, key, digest)
    {
      var n := serial;
      live, serial := live + {n}, n + 1;
      jobs := jobs[key := Job(mapping, digest, n, None, None)];
      handles := handles[key := n];
      collectors := collectors[n := Collector(key, false)];
    }

    /** A collector's first lock section. */
    method EndJob(n: nat, now: real)
      requires n in collectors
      modifies this`jobs, this`collectors
      ensures View() == DoEnd(old(View()), n, now)
    {
      var key := collectors[n].key;
      if key in jobs { jobs := jobs[key := jobs[key].(finishedAt := Some(now))]; }
      collectors := collectors[n := Collector(key, true)];
    }

    /** A shutdown request; the result lists the keys whose processes get killed. */
    method RequestShutdown(force: bool) returns (stops: bool, killed: set<nat>)
      modifies this`stopping
      ensures View() == DoShutdown(old(View()), force)
      ensures stops <==> stopping.Some?
      ensures killed == if old(stopping).None? && force then Signalled(old(View()), Running(jobs)) else {}
    {
      var pending := Running(jobs);
      killed := {};
      if stopping.Some? { return true, {}; }
      if pending != {} && !force { return false, {}; }
      stopping := Some(if force then Forced else Unforced);
      if force { killed := Signalled(View(), pending); }
      stops := true;
    }

    method CheckIdle(idle: bool) returns (stops: bool)
      modifies this`stopping
      ensures View() == DoIdleCheck(old(View()), idle)
      ensures stops <==> stopping != old(stopping)
    {
      if stopping.Some? || !idle { return false; }
      if Running(jobs) != {} { return false; }
      stopping := Some(Idle);
      stops := true;
    }
  }
}
