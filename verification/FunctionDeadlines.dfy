/**
Deadlines of function authorizations over whole runs: every active item lies
within an approval of its scope, and an item that is returned unchanged keeps the
deadlines it has, so that only further copies of it can get new ones.
*/
module FunctionDeadlines {
  import opened Prelude
  import opened GrantDeadlines
  import opened FunctionGrants
  import opened FunctionApprovals

  ghost predicate RevokesScope(f: Fact, scope: Scope) {
    f == Revoked(scope) || f == RevokedWorkspace(scope.workspace)
  }

  /**
  The approval at position `i` of the log published this item for the scope, the
  deadline lies within the seconds it approved, and the scope was not revoked since.
  */
  ghost predicate Backed(log: seq<Fact>, scope: Scope, t: Timed, i: nat) {
    && i < |log| && log[i].Published? && log[i].scope == scope
    && t.item in log[i].auth.grants
    && t.deadline <= log[i].started + log[i].seconds as real + 60.0
    && forall j :: i < j < |log| ==> !RevokesScope(log[j], scope)
  }

  ghost predicate IsBacked(log: seq<Fact>, scope: Scope, t: Timed) {
    exists i :: Backed(log, scope, t, i)
  }

  ghost predicate EntryBacked(log: seq<Fact>, scope: Scope, e: Entry) {
    Aligned(e) && forall k :: 0 <= k < |e.deadlines| ==> IsBacked(log, scope, Timed(e.auth.grants[k], e.deadlines[k]))
  }

  ghost predicate AllBacked(log: seq<Fact>, s: State) {
    forall scope :: scope in s.active ==> EntryBacked(log, scope, s.active[scope])
  }

  lemma BackedExtends(log: seq<Fact>, f: Fact, scope: Scope, t: Timed)
    requires IsBacked(log, scope, t) && !RevokesScope(f, scope)
    ensures IsBacked(log + [f], scope, t)
  {
    var i :| Backed(log, scope, t, i);
    assert Backed(log + [f], scope, t, i);
  }

  lemma EntryExtends(log: seq<Fact>, f: Fact, scope: Scope, e: Entry)
    requires EntryBacked(log, scope, e) && !RevokesScope(f, scope)
    ensures EntryBacked(log + [f], scope, e)
  {
    forall k | 0 <= k < |e.deadlines| ensures IsBacked(log + [f], scope, Timed(e.auth.grants[k], e.deadlines[k])) {
      BackedExtends(log, f, scope, Timed(e.auth.grants[k], e.deadlines[k]));
    }
  }

  lemma PruneEntryBacked(log: seq<Fact>, scope: Scope, e: Entry, now: real)
    requires EntryBacked(log, scope, e) && PruneEntry(e, now).Some?
    ensures EntryBacked(log, scope, PruneEntry(e, now).value)
  {
    PruneEntryPairs(e, now);
    var p, timed := PruneEntry(e, now).value, Zip(e.auth.grants, e.deadlines);
    forall k | 0 <= k < |p.deadlines| ensures IsBacked(log, scope, Timed(p.auth.grants[k], p.deadlines[k])) {
      assert Zip(p.auth.grants, p.deadlines)[k] == Timed(p.auth.grants[k], p.deadlines[k]);
      var i := AliveFrom(timed, now, k);
      assert timed[i] == Timed(e.auth.grants[i], e.deadlines[i]);
    }
  }

  lemma PruneBacked(log: seq<Fact>, s: State, now: real)
    requires AllBacked(log, s)
    ensures AllBacked(log, Prune(s, now))
  {
    forall scope | scope in Prune(s, now).active ensures EntryBacked(log, scope, Prune(s, now).active[scope]) {
      PruneEntryBacked(log, scope, s.active[scope], now);
    }
  }

  /** Matched items stay backed by the approval they came from, new ones are backed by this one. */
  lemma CandidateBacked(log: seq<Fact>, s: State, scope: Scope, proposal: Auth, seconds: int, started: real, checked: real,
                        f: Fact)
    requires AllBacked(log, s) && Candidate(s, scope, proposal, seconds, started, checked).Ok?
    requires f.Published? && f.scope == scope && f.auth == proposal && f.seconds == seconds && f.started == started
    ensures var entry := Candidate(s, scope, proposal, seconds, started, checked).value;
      && EntryBacked(log + [f], scope, entry)
      && forall k :: 0 <= k < |entry.deadlines| && Source(Prior(Previous(s, scope)), proposal.grants, k).Some? ==>
           IsBacked(log, scope, Timed(entry.auth.grants[k], entry.deadlines[k]))
  {
    CandidateAligned(s, scope, proposal, seconds, started, checked);
    var entry := Candidate(s, scope, proposal, seconds, started, checked).value;
    var prior := Prior(Previous(s, scope));
    forall k | 0 <= k < |entry.deadlines|
      ensures IsBacked(log + [f], scope, Timed(entry.auth.grants[k], entry.deadlines[k]))
      ensures Source(prior, proposal.grants, k).Some? ==>
        IsBacked(log, scope, Timed(entry.auth.grants[k], entry.deadlines[k]))
    {
      var t := Timed(entry.auth.grants[k], entry.deadlines[k]);
      ItemInherits(prior, proposal.grants, started, seconds as real, k);
      FreshBound(prior, proposal.grants, started, seconds as real);
      if Source(prior, proposal.grants, k).Some? {
        var j := Source(prior, proposal.grants, k).value;
        assert t == Timed(s.active[scope].auth.grants[j], s.active[scope].deadlines[j]);
        BackedExtends(log, f, scope, t);
      } else {
        assert t.item in proposal.grants;
        assert Backed(log + [f], scope, t, |log|);
      }
    }
  }

  /** Facts other than approvals and revocations leave every entry backed. */
  lemma FactBacked(log: seq<Fact>, s: State, f: Fact)
    requires AllBacked(log, s) && forall scope :: scope in s.active ==> !RevokesScope(f, scope)
    ensures AllBacked(log + [f], s)
  {
    forall scope | scope in s.active ensures EntryBacked(log + [f], scope, s.active[scope]) {
      EntryExtends(log, f, scope, s.active[scope]);
    }
  }

  lemma ApproveBacked(w: World, e: Event)
    requires AllBacked(w.log, w.state) && e.Approve?
    ensures AllBacked(Next(w, e).log, Next(w, e).state)
  {
    if DurationOk(e.seconds) {
      var p := Prune(w.state, e.clock.enter);
      PruneBacked(w.log, w.state, e.clock.enter);
      if e.ticket in p.pending {
        var q, scope := Prune(p, e.clock.again), p.pending[e.ticket].scope;
        PruneBacked(w.log, p, e.clock.again);
        var o := DoApprove(w.state, e.ticket, e.confirmer, e.seconds, e.proposal, e.clock);
        if o.refusal.None? { PublishBacked(w.log, p, q, e, scope, o.fact.value); }
      }
    }
  }

  lemma PublishBacked(log: seq<Fact>, p: State, q: State, e: Event, scope: Scope, f: Fact)
    requires e.Approve? && AllBacked(log, p) && AllBacked(log, q)
    requires Candidate(p, scope, e.proposal, e.seconds, e.clock.started, e.clock.checked).Ok?
    requires f == Published(e.ticket, scope, e.proposal, e.confirmer, e.seconds, e.clock.started)
    ensures var entry := Candidate(p, scope, e.proposal, e.seconds, e.clock.started, e.clock.checked).value;
      AllBacked(log + [f], Prune(State(q.pending - {e.ticket}, q.active[scope := entry], q.confirmations - {e.ticket}), e.clock.last))
  {
    var entry := Candidate(p, scope, e.proposal, e.seconds, e.clock.started, e.clock.checked).value;
    FactBacked(log, q, f);
    CandidateBacked(log, p, scope, e.proposal, e.seconds, e.clock.started, e.clock.checked, f);
    PruneBacked(log + [f], State(q.pending - {e.ticket}, q.active[scope := entry], q.confirmations - {e.ticket}), e.clock.last);
  }

  lemma NextBacked(w: World, e: Event)
    requires AllBacked(w.log, w.state)
    ensures AllBacked(Next(w, e).log, Next(w, e).state)
  {
    match e
    case Request(ticket, scope, now) => NoticeBacked(w, e, now, Requested(ticket, scope));
    case Verdict(ticket, _, now) => NoticeBacked(w, e, now, WrongPassword(ticket));
    case Prepare(ticket, browser, seconds, proposal, clock) =>
      NoticeBacked(w, e, clock.enter, Shown(ticket, browser, proposal, seconds));
    case Approve(_, _, _, _, _) => ApproveBacked(w, e);
    case Revoke(_) => RevokeBacked(w, e);
    case RevokeWorkspace(_) => RevokeBacked(w, e);
    case Look(now) => PruneBacked(w.log, w.state, now);
  }

  /** A call that at most prunes the active entries, with a fact that revokes nothing. */
  lemma NoticeBacked(w: World, e: Event, now: real, f: Fact)
    requires AllBacked(w.log, w.state) && !f.Revoked? && !f.RevokedWorkspace?
    requires var o := Apply(w.state, e);
      && (o.state.active == w.state.active || o.state.active == Prune(w.state, now).active)
      && (o.fact == None || o.fact == Some(f))
    ensures AllBacked(Next(w, e).log, Next(w, e).state)
  {
    PruneBacked(w.log, w.state, now);
    SameActiveBacked(w.log, w.state, Prune(w.state, now), Apply(w.state, e).state);
    FactBacked(w.log, Apply(w.state, e).state, f);
  }

  lemma SameActiveBacked(log: seq<Fact>, s: State, p: State, t: State)
    requires AllBacked(log, s) && AllBacked(log, p) && (t.active == s.active || t.active == p.active)
    ensures AllBacked(log, t)
  {}

  lemma RevokeBacked(w: World, e: Event)
    requires AllBacked(w.log, w.state) && (e.Revoke? || e.RevokeWorkspace?)
    ensures AllBacked(Next(w, e).log, Next(w, e).state)
  {
    FactBacked(w.log, Apply(w.state, e).state, Apply(w.state, e).fact.value);
  }

  /**
  In every run, every active item was published for its scope by some approval
  since the scope's last revocation, and its deadline is at most that approval's
  start plus its seconds plus the grace.
  */
  lemma {:induction false} DeadlinesWithinApproval(es: seq<Event>, scope: Scope, k: nat) returns (i: nat)
    requires Run(es).Some? && scope in Run(es).value.state.active
    requires k < |Run(es).value.state.active[scope].deadlines|
    ensures var w := Run(es).value; var entry := w.state.active[scope];
      && |entry.auth.grants| == |entry.deadlines|
      && Backed(w.log, scope, Timed(entry.auth.grants[k], entry.deadlines[k]), i)
  {
    RunBacked(es);
    var w := Run(es).value;
    assert EntryBacked(w.log, scope, w.state.active[scope]);
    i :| Backed(w.log, scope, Timed(w.state.active[scope].auth.grants[k], w.state.active[scope].deadlines[k]), i);
  }

  lemma {:induction false} RunBacked(es: seq<Event>)
    requires Run(es).Some?
    ensures AllBacked(Run(es).value.log, Run(es).value.state)
  {
    if es != [] {
      RunBacked(es[..|es| - 1]);
      NextBacked(Run(es[..|es| - 1]).value, es[|es| - 1]);
    }
  }

  // ---------------------------------------------------------------- no extension

  /** How many copies of an item the scope holds with one and the same deadline. */
  function HeldBy(s: State, scope: Scope, t: Timed): nat {
    Held(Prior(Previous(s, scope)), t)
  }

  lemma {:induction false} AliveHeld(timed: seq<Timed>, now: real, t: Timed)
    ensures Held(Alive(timed, now), t) <= Held(timed, t)
  {
    if timed != [] {
      var before := timed[..|timed| - 1];
      AliveHeld(before, now, t);
      var alive := Alive(timed, now);
      if timed[|timed| - 1].deadline > now {
        assert alive[..|alive| - 1] == Alive(before, now);
      } else {
        assert alive == Alive(before, now);
      }
    }
  }

  lemma PruneHeld(s: State, now: real, scope: Scope, t: Timed)
    requires AllAligned(s)
    ensures HeldBy(Prune(s, now), scope, t) <= HeldBy(s, scope, t)
  {
    if scope in s.active {
      var e := s.active[scope];
      PruneEntryPairs(e, now);
      AliveHeld(Zip(e.auth.grants, e.deadlines), now, t);
    }
  }

  /**
  The call publishes more copies of the item for the scope than the scope held
  when the call began.
  */
  ghost predicate AddsCopies(s: State, e: Event, scope: Scope, x: Item) {
    && e.Approve?
    && var o := DoApprove(s, e.ticket, e.confirmer, e.seconds, e.proposal, e.clock);
    && o.fact.Some? && o.fact.value.Published? && o.fact.value.scope == scope
    && Count(e.proposal.grants, x) > Copies(Prior(Previous(Prune(s, e.clock.enter), scope)), x)
  }

  lemma CandidateHeld(s: State, scope: Scope, proposal: Auth, seconds: int, started: real, checked: real, t: Timed)
    requires Candidate(s, scope, proposal, seconds, started, checked).Ok?
    requires Count(proposal.grants, t.item) <= Copies(Prior(Previous(s, scope)), t.item)
    ensures var entry := Candidate(s, scope, proposal, seconds, started, checked).value;
      Held(Prior(Some(entry)), t) <= HeldBy(s, scope, t)
  {
    MatchingKeepsDeadlines(Prior(Previous(s, scope)), proposal.grants, started, seconds as real, t);
  }

  lemma PublishHeld(q: State, target: Scope, entry: Entry, last: real, scope: Scope, t: Timed, bound: nat, pending: map<string, Ticket>,
                    confirmations: map<string, Confirmation>)
    requires AllAligned(q) && Aligned(entry) && HeldBy(q, scope, t) <= bound
    requires target == scope ==> Held(Prior(Some(entry)), t) <= bound
    ensures HeldBy(Prune(State(pending, q.active[target := entry], confirmations), last), scope, t) <= bound
  {
    PruneHeld(State(pending, q.active[target := entry], confirmations), last, scope, t);
  }

  lemma ApproveHeld(s: State, e: Event, scope: Scope, t: Timed)
    requires AllAligned(s) && e.Approve? && !AddsCopies(s, e, scope, t.item)
    ensures HeldBy(Apply(s, e).state, scope, t) <= HeldBy(s, scope, t)
  {
    var before := Prune(s, e.clock.enter);
    PruneAligned(s, e.clock.enter);
    PruneAligned(before, e.clock.again);
    PruneHeld(s, e.clock.enter, scope, t);
    PruneHeld(before, e.clock.again, scope, t);
    if Apply(s, e).fact.Some? {
      var p, q, target, entry := PublishedShape(s, e);
      if target == scope { CandidateHeld(p, scope, e.proposal, e.seconds, e.clock.started, e.clock.checked, t); }
      PublishHeld(q, target, entry, e.clock.last, scope, t, HeldBy(p, scope, t), q.pending - {e.ticket}, q.confirmations - {e.ticket});
    } else {
      UnpublishedShape(s, e);
    }
  }

  /** A call that publishes no further copy of an item gives no copy of it a deadline it did not have. */
  lemma StepHeld(s: State, e: Event, scope: Scope, t: Timed)
    requires AllAligned(s) && !AddsCopies(s, e, scope, t.item)
    ensures HeldBy(Apply(s, e).state, scope, t) <= HeldBy(s, scope, t)
  {
    match e
    case Request(_, _, now) => PruneHeld(s, now, scope, t);
    case Verdict(_, _, now) => PruneHeld(s, now, scope, t);
    case Prepare(_, _, _, _, clock) => PruneHeld(s, clock.enter, scope, t);
    case Approve(_, _, _, _, _) => ApproveHeld(s, e, scope, t);
    case Revoke(_) =>
    case RevokeWorkspace(_) =>
    case Look(now) => PruneHeld(s, now, scope, t);
  }

  /** The state after the first `n` calls of a run. */
  function StateAt(es: seq<Event>, n: nat): State
    requires n <= |es|
  {
    var w := Run(es[..n]);
    if w.Some? then w.value.state else INITIAL
  }

  /**
  No extension, in every run: while no approval of the scope returns more copies
  of an item than the scope holds, the deadlines of that item are among those it
  had, counted with repetition, whatever else is approved, shown or revoked.
  */
  lemma {:induction false} DeadlinesNeverExtended(es: seq<Event>, n: nat, scope: Scope, t: Timed)
    requires Run(es).Some? && n <= |es|
    requires forall m :: n <= m < |es| ==> !AddsCopies(StateAt(es, m), es[m], scope, t.item)
    ensures HeldBy(StateAt(es, |es|), scope, t) <= HeldBy(StateAt(es, n), scope, t)
  {
    if n < |es| {
      var before, e := es[..|es| - 1], es[|es| - 1];
      forall m | n <= m < |before| ensures !AddsCopies(StateAt(before, m), before[m], scope, t.item) {
        assert before[..m] == es[..m];
      }
      DeadlinesNeverExtended(before, n, scope, t);
      assert before[..n] == es[..n] && before[..|before|] == before && es[..|es|] == es;
      RunKeeps(before);
      StepHeld(Run(before).value.state, e, scope, t);
    }
  }

  /** So a deadline that was not there before takes an approval that returned further copies of the item. */
  lemma {:induction false} NewDeadlineTakesCopies(es: seq<Event>, n: nat, scope: Scope, t: Timed) returns (m: nat)
    requires Run(es).Some? && n <= |es| && HeldBy(StateAt(es, |es|), scope, t) > HeldBy(StateAt(es, n), scope, t)
    ensures n <= m < |es| && AddsCopies(StateAt(es, m), es[m], scope, t.item)
  {
    if forall k :: n <= k < |es| ==> !AddsCopies(StateAt(es, k), es[k], scope, t.item) {
      DeadlinesNeverExtended(es, n, scope, t);
      assert false;
    }
    m :| n <= m < |es| && AddsCopies(StateAt(es, m), es[m], scope, t.item);
  }
}
