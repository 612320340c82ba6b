/** When the function store accepts, and what an accepted call leaves behind. */
module FunctionAnswers {
  import opened Prelude
  import opened GrantDeadlines
  import opened FunctionGrants
  import opened FunctionApprovals
  import opened FunctionDeadlines

  /** The ticket is pending and does not expire by `now`. */
  ghost predicate TicketAlive(s: State, ticket: string, now: real) {
    ticket in s.pending && s.pending[ticket].deadline > now
  }

  lemma PruneTickets(s: State, now: real, ticket: string)
    ensures ticket in Prune(s, now).pending <==> TicketAlive(s, ticket, now)
    ensures TicketAlive(s, ticket, now) ==> Prune(s, now).pending[ticket] == s.pending[ticket]
    ensures ticket in Prune(s, now).confirmations <==> ticket in s.confirmations && TicketAlive(s, ticket, now)
    ensures ticket in Prune(s, now).confirmations ==> Prune(s, now).confirmations[ticket] == s.confirmations[ticket]
  {}

  /** A request is admitted exactly below the quota, and then waits for half an hour. */
  lemma RequestedExactly(s: State, ticket: string, scope: Scope, now: real)
    ensures var o := Apply(s, Request(ticket, scope, now));
      && (o.refusal.None? <==> |set t | t in s.pending && s.pending[t].deadline > now && s.pending[t].scope.workspace == scope.workspace| < 32)
      && (o.refusal.None? ==> ticket in o.state.pending && o.state.pending[ticket] == Ticket(scope, now + 1800.0, 0))
  {
    assert TicketsOf(Prune(s, now).pending, scope.workspace)
      == set t | t in s.pending && s.pending[t].deadline > now && s.pending[t].scope.workspace == scope.workspace;
  }

  /** A wrong password is recorded exactly for a live ticket. */
  lemma VerdictExactly(s: State, ticket: string, valid: bool, now: real)
    ensures var o := Apply(s, Verdict(ticket, valid, now));
      && (o.fact == Some(WrongPassword(ticket)) <==> TicketAlive(s, ticket, now) && !valid)
      && (o.refusal.None? <==> TicketAlive(s, ticket, now))
      && (valid && TicketAlive(s, ticket, now) ==> ticket in o.state.pending && o.state.pending[ticket] == s.pending[ticket])
  {
    PruneTickets(s, now, ticket);
  }

  /** What the Server asks of a Client's proposal: sensible expiries, and some item still active when checked. */
  ghost predicate Acceptable(s: State, scope: Scope, proposal: Auth, seconds: int, clock: Clock) {
    && (forall i :: 0 <= i < |proposal.grants| ==> 0.0 <= proposal.grants[i].expiresAt <= 10000000000000.0)
    && var deadlines := Deadlines(Prior(Previous(Prune(s, clock.enter), scope)), proposal.grants, clock.started, seconds as real);
    exists i :: 0 <= i < |deadlines| && deadlines[i] > clock.checked
  }

  lemma CandidateExactly(s: State, scope: Scope, proposal: Auth, seconds: int, clock: Clock)
    ensures Candidate(Prune(s, clock.enter), scope, proposal, seconds, clock.started, clock.checked).Ok? <==>
      Acceptable(s, scope, proposal, seconds, clock)
  {}

  /** A confirmation page is shown exactly for a live ticket, an allowed duration and an acceptable proposal. */
  lemma ShownExactly(s: State, e: Event)
    requires e.Prepare?
    ensures Apply(s, e).fact.Some? <==>
      && 60 <= e.seconds <= 86400 && TicketAlive(s, e.ticket, e.clock.enter) && TicketAlive(s, e.ticket, e.clock.again)
      && Acceptable(s, s.pending[e.ticket].scope, e.proposal, e.seconds, e.clock)
    ensures Apply(s, e).fact.Some? ==>
      && e.ticket in Apply(s, e).state.confirmations
      && Apply(s, e).state.confirmations[e.ticket] == Confirmation(e.browser, e.proposal, e.seconds,
           RevisionOf(Previous(Prune(s, e.clock.enter), s.pending[e.ticket].scope)))
  {
    PruneTickets(s, e.clock.enter, e.ticket);
    if e.ticket in s.pending { CandidateExactly(s, s.pending[e.ticket].scope, e.proposal, e.seconds, e.clock); }
  }

  /** What this browser was shown for the ticket is what it confirms, and the scope's revision is the same. */
  ghost predicate PageMatches(s: State, e: Event, scope: Scope)
    requires e.Approve? && e.confirmer.Some?
  {
    && e.ticket in s.confirmations
    && var c := s.confirmations[e.ticket];
    && c.browser == e.confirmer.value && c.seconds == e.seconds && SameApartFromExpiry(c.auth, e.proposal)
    && c.revision == RevisionOf(Previous(Prune(s, e.clock.enter), scope))
  }

  /**
  An approval publishes exactly for a live ticket, an allowed duration, an acceptable
  proposal, and, from a browser, a matching page.
  */
  lemma PublishedExactly(s: State, e: Event)
    requires e.Approve?
    ensures Apply(s, e).fact.Some? <==>
      && 60 <= e.seconds <= 86400 && TicketAlive(s, e.ticket, e.clock.enter) && TicketAlive(s, e.ticket, e.clock.again)
      && Acceptable(s, s.pending[e.ticket].scope, e.proposal, e.seconds, e.clock)
      && (e.confirmer.Some? ==> PageMatches(s, e, s.pending[e.ticket].scope))
    ensures Apply(s, e).fact.Some? ==>
      Apply(s, e).fact == Some(Published(e.ticket, s.pending[e.ticket].scope, e.proposal, e.confirmer, e.seconds, e.clock.started))
  {
    var p := Prune(s, e.clock.enter);
    PruneTickets(s, e.clock.enter, e.ticket);
    PruneTickets(p, e.clock.again, e.ticket);
    if e.ticket in s.pending { CandidateExactly(s, s.pending[e.ticket].scope, e.proposal, e.seconds, e.clock); }
    if e.ticket in s.confirmations { SemanticExactly(s.confirmations[e.ticket].auth, e.proposal); }
  }

  /** What is published becomes active: the proposal's items with their deadlines, as far as these are not over. */
  lemma PublishedIsActive(s: State, e: Event)
    requires e.Approve? && Apply(s, e).fact.Some?
    ensures var scope := s.pending[e.ticket].scope;
      var deadlines := Deadlines(Prior(Previous(Prune(s, e.clock.enter), scope)), e.proposal.grants, e.clock.started, e.seconds as real);
      Prior(Previous(Apply(s, e).state, scope)) == Alive(Zip(e.proposal.grants, deadlines), e.clock.last)
    ensures e.ticket !in Apply(s, e).state.pending && e.ticket !in Apply(s, e).state.confirmations
  {
    PruneTickets(s, e.clock.enter, e.ticket);
    var p, q, scope, entry := PublishedShape(s, e);
    ActiveAfter(q.pending - {e.ticket}, q.active, q.confirmations - {e.ticket}, scope, entry, e.clock.last);
  }

  lemma ActiveAfter(pending: map<string, Ticket>, active: map<Scope, Entry>, confirmations: map<string, Confirmation>, scope: Scope,
                    entry: Entry, last: real)
    requires Aligned(entry)
    ensures var t := Prune(State(pending, active[scope := entry], confirmations), last);
      Prior(Previous(t, scope)) == Alive(Zip(entry.auth.grants, entry.deadlines), last)
  {
    PruneEntryPairs(entry, last);
  }

  /** Revoking a scope, or all of a Workspace, takes away its tickets, pages and authorizations and nothing else. */
  lemma RevokedExactly(s: State, scope: Scope, workspace: string)
    ensures var t := Apply(s, Revoke(scope)).state;
      && (forall x :: x in t.pending <==> x in s.pending && s.pending[x].scope != scope)
      && (forall x :: x in t.pending ==> t.pending[x] == s.pending[x])
      && (forall k :: k in t.active <==> k in s.active && k != scope) && (forall k :: k in t.active ==> t.active[k] == s.active[k])
    ensures var t := Apply(s, RevokeWorkspace(workspace)).state;
      && (forall x :: x in t.pending <==> x in s.pending && s.pending[x].scope.workspace != workspace)
      && (forall x :: x in t.pending ==> t.pending[x] == s.pending[x])
      && (forall k :: k in t.active <==> k in s.active && k.workspace != workspace)
      && (forall k :: k in t.active ==> t.active[k] == s.active[k])
  {}

  // ---------------------------------------------------------------- other scopes

  /** The latest time at which a call prunes. */
  ghost predicate PrunesBefore(e: Event, t: real) {
    match e
    case Request(_, _, now) => now < t
    case Verdict(_, _, now) => now < t
    case Prepare(_, _, _, _, clock) => clock.enter < t
    case Approve(_, _, _, _, clock) => clock.enter < t && clock.again < t && clock.last < t
    case Look(now) => now < t
    case _ => true
  }

  /** The call publishes for the scope or revokes it. */
  ghost predicate Touches(s: State, e: Event, scope: Scope) {
    match e
    case Approve(_, _, _, _, _) => Apply(s, e).fact.Some? && Apply(s, e).fact.value.scope == scope
    case Revoke(k) => k == scope
    case RevokeWorkspace(workspace) => workspace == scope.workspace
    case _ => false
  }

  lemma {:induction false} AliveHolds(timed: seq<Timed>, now: real, t: Timed)
    requires t.deadline > now
    ensures Held(Alive(timed, now), t) == Held(timed, t)
  {
    if timed != [] {
      var before, alive := timed[..|timed| - 1], Alive(timed, now);
      AliveHolds(before, now, t);
      if timed[|timed| - 1].deadline > now {
        assert alive[..|alive| - 1] == Alive(before, now);
      } else {
        assert alive == Alive(before, now);
      }
    }
  }

  lemma PruneHolds(s: State, now: real, scope: Scope, t: Timed)
    requires AllAligned(s) && t.deadline > now
    ensures HeldBy(Prune(s, now), scope, t) == HeldBy(s, scope, t) && AllAligned(Prune(s, now))
  {
    PruneAligned(s, now);
    if scope in s.active {
      PruneEntryPairs(s.active[scope], now);
      AliveHolds(Zip(s.active[scope].auth.grants, s.active[scope].deadlines), now, t);
    }
  }

  /** A call leaves the live items of every scope it does not publish for or revoke exactly as they are. */
  lemma ScopesAreIsolated(s: State, e: Event, scope: Scope, t: Timed)
    requires AllAligned(s) && !Touches(s, e, scope) && PrunesBefore(e, t.deadline)
    ensures HeldBy(Apply(s, e).state, scope, t) == HeldBy(s, scope, t)
  {
    match e
    case Request(_, _, now) => PruneHolds(s, now, scope, t);
    case Verdict(_, _, now) => PruneHolds(s, now, scope, t);
    case Prepare(_, _, _, _, clock) => PruneHolds(s, clock.enter, scope, t);
    case Approve(_, _, _, _, _) => ApproveIsolated(s, e, scope, t);
    case Revoke(_) =>
    case RevokeWorkspace(_) =>
    case Look(now) => PruneHolds(s, now, scope, t);
  }

  lemma ApproveIsolated(s: State, e: Event, scope: Scope, t: Timed)
    requires e.Approve? && AllAligned(s) && !Touches(s, e, scope) && PrunesBefore(e, t.deadline)
    ensures HeldBy(Apply(s, e).state, scope, t) == HeldBy(s, scope, t)
  {
    var before := Prune(s, e.clock.enter);
    PruneHolds(s, e.clock.enter, scope, t);
    PruneHolds(before, e.clock.again, scope, t);
    if Apply(s, e).fact.Some? {
      var p, q, target, entry := PublishedShape(s, e);
      PublishIsolated(q, target, entry, e.clock.last, scope, t, q.pending - {e.ticket}, q.confirmations - {e.ticket});
    } else {
      UnpublishedShape(s, e);
    }
  }

  lemma PublishIsolated(q: State, target: Scope, entry: Entry, last: real, scope: Scope, t: Timed, pending: map<string, Ticket>,
                        confirmations: map<string, Confirmation>)
    requires AllAligned(q) && Aligned(entry) && target != scope && t.deadline > last
    ensures HeldBy(Prune(State(pending, q.active[target := entry], confirmations), last), scope, t) == HeldBy(q, scope, t)
  {
    PruneHolds(State(pending, q.active[target := entry], confirmations), last, scope, t);
  }
}
