/** Whole runs of function approvals: what is confirmed was shown, and tickets are spent once. */
module FunctionApprovals {
  import opened Prelude
  import opened GrantDeadlines
  import opened FunctionGrants

  /** `s` holds some of the tickets and confirmations of `w`, unchanged. */
  ghost predicate Shrinks(w: World, s: State) {
    && AllAligned(s)
    && (forall t :: t in s.pending ==> t in w.state.pending && s.pending[t] == w.state.pending[t])
    && (forall t :: t in s.confirmations ==> t in w.state.confirmations && s.confirmations[t] == w.state.confirmations[t])
  }

  lemma ShrinkKeeps(w: World, s: State)
    requires Inv(w) && Shrinks(w, s)
    ensures Inv(w.(state := s))
  {
    var n := w.(state := s);
    forall t | t in s.pending ensures TicketOk(n, t) { assert TicketOk(w, t); }
    forall t | t in s.confirmations ensures ConfirmationOk(n, t) { assert ConfirmationOk(w, t); }
  }

  lemma PruneShrinks(w: World, now: real)
    requires Inv(w)
    ensures Inv(w.(state := Prune(w.state, now)))
  {
    PruneAligned(w.state, now);
    ShrinkKeeps(w, Prune(w.state, now));
  }

  // ---------------------------------------------------------------- one more fact

  lemma Appended(log: seq<Fact>, f: Fact, ticket: string, scope: Scope)
    ensures LastShown(log + [f], ticket) == if f.Shown? && f.ticket == ticket then Some(f) else LastShown(log, ticket)
    ensures Failures(log + [f], ticket) == Failures(log, ticket) + if f == WrongPassword(ticket) then 1 else 0
    ensures Untouched(log + [f], ticket, scope) <==>
      f == Requested(ticket, scope) || (!Ends(f, ticket, scope) && Untouched(log, ticket, scope))
  {
    assert (log + [f])[..|log|] == log;
  }

  lemma FactExtends(log: seq<Fact>, f: Fact, i: nat)
    requires i < |log| && FactOk(log, i)
    ensures FactOk(log + [f], i)
  {
    assert (log + [f])[..i] == log[..i];
    forall j | 0 <= j < i && log[i].Published? ensures !IsPublished(log + [f], j, log[i].ticket) {
      assert !IsPublished(log, j, log[i].ticket);
    }
  }

  /** A ticket survives a fact that does not end it. */
  lemma TicketExtends(w: World, n: World, f: Fact, t: string)
    requires t in w.state.pending && TicketOk(w, t) && t in n.state.pending
    requires n.log == w.log + [f] && w.issued <= n.issued
    requires n.state.pending[t].scope == w.state.pending[t].scope && !Ends(f, t, w.state.pending[t].scope)
    requires n.state.pending[t].attempts == w.state.pending[t].attempts + (if f == WrongPassword(t) then 1 else 0)
    requires n.state.pending[t].attempts < MAX_FAILURES
    ensures TicketOk(n, t)
  {
    Appended(w.log, f, t, w.state.pending[t].scope);
    forall i ensures !IsPublished(n.log, i, t) {
      assert !IsPublished(w.log, i, t);
    }
  }

  ghost predicate LogOk(w: World) {
    forall i :: 0 <= i < |w.log| ==> FactOk(w.log, i) && Named(w, w.log[i])
  }

  lemma LogExtends(w: World, n: World, f: Fact)
    requires LogOk(w) && n.log == w.log + [f] && w.issued <= n.issued
    requires FactOk(n.log, |w.log|) && Named(n, f)
    ensures LogOk(n)
  {
    forall i | 0 <= i < |n.log| ensures FactOk(n.log, i) && Named(n, n.log[i]) {
      if i < |w.log| { FactExtends(w.log, f, i); }
    }
  }

  lemma {:induction false} NewTicketClean(log: seq<Fact>, t: string)
    requires forall i :: 0 <= i < |log| ==> log[i] != WrongPassword(t)
    ensures Failures(log, t) == 0
  {
    if log != [] { NewTicketClean(log[..|log| - 1], t); }
  }

  // ---------------------------------------------------------------- each operation

  lemma RequestKeeps(w: World, ticket: string, scope: Scope, deadline: real)
    requires Inv(w) && ticket !in w.issued
    ensures Inv(World(w.state.(pending := w.state.pending[ticket := Ticket(scope, deadline, 0)]),
                      w.log + [Requested(ticket, scope)], w.issued + {ticket}))
  {
    var f := Requested(ticket, scope);
    var n := World(w.state.(pending := w.state.pending[ticket := Ticket(scope, deadline, 0)]),
                   w.log + [f], w.issued + {ticket});
    LogExtends(w, n, f);
    assert forall i :: 0 <= i < |w.log| ==> Named(w, w.log[i]);
    NewTicketClean(w.log, ticket);
    Appended(w.log, f, ticket, scope);
    forall t | t in n.state.pending ensures TicketOk(n, t) {
      if t != ticket { TicketExtends(w, n, f, t); }
    }
    forall t | t in n.state.confirmations ensures ConfirmationOk(n, t) {
      assert ConfirmationOk(w, t);
      Appended(w.log, f, t, scope);
    }
  }

  lemma VerdictKeeps(w: World, ticket: string)
    requires Inv(w) && ticket in w.state.pending
    ensures var item := w.state.pending[ticket];
      var pending := if item.attempts + 1 >= MAX_FAILURES then w.state.pending - {ticket}
                     else w.state.pending[ticket := item.(attempts := item.attempts + 1)];
      Inv(World(w.state.(pending := pending), w.log + [WrongPassword(ticket)], w.issued))
  {
    var item, f := w.state.pending[ticket], WrongPassword(ticket);
    var pending := if item.attempts + 1 >= MAX_FAILURES then w.state.pending - {ticket}
                   else w.state.pending[ticket := item.(attempts := item.attempts + 1)];
    var n := World(w.state.(pending := pending), w.log + [f], w.issued);
    assert TicketOk(w, ticket);
    LogExtends(w, n, f);
    forall t | t in n.state.pending ensures TicketOk(n, t) { TicketExtends(w, n, f, t); }
    forall t | t in n.state.confirmations ensures ConfirmationOk(n, t) {
      assert ConfirmationOk(w, t);
      Appended(w.log, f, t, item.scope);
    }
  }

  lemma PrepareKeeps(w: World, ticket: string, c: Confirmation)
    requires Inv(w) && ticket in w.state.pending
    ensures Inv(World(w.state.(confirmations := w.state.confirmations[ticket := c]),
                      w.log + [Shown(ticket, c.browser, c.auth, c.seconds)], w.issued))
  {
    var f := Shown(ticket, c.browser, c.auth, c.seconds);
    var n := World(w.state.(confirmations := w.state.confirmations[ticket := c]), w.log + [f], w.issued);
    assert TicketOk(w, ticket);
    LogExtends(w, n, f);
    forall t | t in n.state.pending ensures TicketOk(n, t) { TicketExtends(w, n, f, t); }
    forall t | t in n.state.confirmations ensures ConfirmationOk(n, t) {
      if t != ticket { assert ConfirmationOk(w, t); }
      Appended(w.log, f, t, w.state.pending[ticket].scope);
    }
  }

  lemma PublishKeeps(w: World, ticket: string, entry: Entry, confirmer: Option<string>, seconds: int, started: real)
    requires Inv(w) && ticket in w.state.pending && Aligned(entry)
    requires confirmer.Some? ==> exists revision :: Confirms(w.state, ticket, confirmer.value, seconds, revision, entry.auth)
    ensures var scope := w.state.pending[ticket].scope;
      Inv(World(State(w.state.pending - {ticket}, w.state.active[scope := entry], w.state.confirmations - {ticket}),
                w.log + [Published(ticket, scope, entry.auth, confirmer, seconds, started)], w.issued))
  {
    var scope := w.state.pending[ticket].scope;
    var f := Published(ticket, scope, entry.auth, confirmer, seconds, started);
    var n := World(State(w.state.pending - {ticket}, w.state.active[scope := entry], w.state.confirmations - {ticket}),
                   w.log + [f], w.issued);
    assert TicketOk(w, ticket);
    assert FactOk(n.log, |w.log|) by {
      assert n.log[..|w.log|] == w.log;
      forall j | 0 <= j < |w.log| ensures !IsPublished(n.log, j, ticket) { assert !IsPublished(w.log, j, ticket); }
      if confirmer.Some? { assert ConfirmationOk(w, ticket); }
    }
    LogExtends(w, n, f);
    forall t | t in n.state.pending ensures TicketOk(n, t) { TicketExtends(w, n, f, t); }
    forall t | t in n.state.confirmations ensures ConfirmationOk(n, t) {
      assert ConfirmationOk(w, t);
      Appended(w.log, f, t, scope);
    }
  }

  lemma RevokeKeeps(w: World, gone: set<string>, active: map<Scope, Entry>, f: Fact)
    requires Inv(w) && (f.Revoked? || f.RevokedWorkspace?)
    requires forall t :: t in w.state.pending && Ends(f, t, w.state.pending[t].scope) ==> t in gone
    requires forall k :: k in active ==> Aligned(active[k])
    ensures Inv(World(DropTickets(w.state, gone, active), w.log + [f], w.issued))
  {
    var n := World(DropTickets(w.state, gone, active), w.log + [f], w.issued);
    LogExtends(w, n, f);
    forall t | t in n.state.pending ensures TicketOk(n, t) {
      assert TicketOk(w, t);
      TicketExtends(w, n, f, t);
    }
    forall t | t in n.state.confirmations ensures ConfirmationOk(n, t) {
      assert ConfirmationOk(w, t);
      Appended(w.log, f, t, n.state.pending[t].scope);
    }
  }

  lemma CandidateAligned(s: State, scope: Scope, proposal: Auth, seconds: int, started: real, checked: real)
    requires Candidate(s, scope, proposal, seconds, started, checked).Ok?
    ensures var entry := Candidate(s, scope, proposal, seconds, started, checked).value;
      Aligned(entry) && entry.auth == proposal
  {}

  /** What an approval that publishes does: two prunes, the entry of its candidate, and a last prune. */
  lemma PublishedShape(s: State, e: Event) returns (p: State, q: State, scope: Scope, entry: Entry)
    requires e.Approve? && Apply(s, e).fact.Some?
    ensures p == Prune(s, e.clock.enter) && q == Prune(p, e.clock.again)
    ensures e.ticket in p.pending && p.pending[e.ticket].scope == scope
    ensures Candidate(p, scope, e.proposal, e.seconds, e.clock.started, e.clock.checked) == Ok(entry)
    ensures Aligned(entry) && entry.auth == e.proposal && entry.revision == RevisionOf(Previous(p, scope)) + 1
    ensures Apply(s, e).fact == Some(Published(e.ticket, scope, e.proposal, e.confirmer, e.seconds, e.clock.started))
    ensures Apply(s, e).state
      == Prune(State(q.pending - {e.ticket}, q.active[scope := entry], q.confirmations - {e.ticket}), e.clock.last)
  {
    p := Prune(s, e.clock.enter);
    q := Prune(p, e.clock.again);
    scope := p.pending[e.ticket].scope;
    entry := Candidate(p, scope, e.proposal, e.seconds, e.clock.started, e.clock.checked).value;
  }

  /** An approval that publishes nothing at most prunes. */
  lemma UnpublishedShape(s: State, e: Event)
    requires e.Approve? && Apply(s, e).fact.None?
    ensures var p := Prune(s, e.clock.enter); var t := Apply(s, e).state; t == s || t == p || t == Prune(p, e.clock.again)
  {}

  lemma ApproveKeeps(w: World, e: Event)
    requires Inv(w) && e.Approve?
    ensures Inv(Next(w, e))
  {
    if DurationOk(e.seconds) {
      var p := Prune(w.state, e.clock.enter);
      PruneShrinks(w, e.clock.enter);
      if e.ticket in p.pending {
        var scope := p.pending[e.ticket].scope;
        var candidate := Candidate(p, scope, e.proposal, e.seconds, e.clock.started, e.clock.checked);
        if candidate.Ok? {
          CandidateAligned(p, scope, e.proposal, e.seconds, e.clock.started, e.clock.checked);
          var q := Prune(p, e.clock.again);
          var v := w.(state := q);
          PruneShrinks(w.(state := p), e.clock.again);
          if DoApprove(w.state, e.ticket, e.confirmer, e.seconds, e.proposal, e.clock).refusal.None? {
            assert q.pending[e.ticket].scope == scope;
            PublishKeeps(v, e.ticket, candidate.value, e.confirmer, e.seconds, e.clock.started);
            PruneShrinks(World(State(q.pending - {e.ticket}, q.active[scope := candidate.value],
                                     q.confirmations - {e.ticket}),
                               w.log + [Published(e.ticket, scope, e.proposal, e.confirmer, e.seconds, e.clock.started)], w.issued),
                         e.clock.last);
          }
        }
      }
    }
  }

  /** A refused request still used up its name. */
  lemma IssuedMay(w: World, ticket: string)
    requires Inv(w)
    ensures Inv(w.(issued := w.issued + {ticket}))
  {
    var n := w.(issued := w.issued + {ticket});
    forall t | t in n.state.pending ensures TicketOk(n, t) { assert TicketOk(w, t); }
    forall t | t in n.state.confirmations ensures ConfirmationOk(n, t) { assert ConfirmationOk(w, t); }
  }

  lemma RequestStep(w: World, e: Event)
    requires Inv(w) && e.Request? && Enabled(w, e)
    ensures Inv(Next(w, e))
  {
    PruneShrinks(w, e.now);
    var v := w.(state := Prune(w.state, e.now));
    if DoRequest(w.state, e.ticket, e.scope, e.now).refusal.None? {
      RequestKeeps(v, e.ticket, e.scope, e.now + PENDING_SECONDS);
    } else {
      IssuedMay(v, e.ticket);
    }
  }

  lemma VerdictStep(w: World, e: Event)
    requires Inv(w) && e.Verdict?
    ensures Inv(Next(w, e))
  {
    PruneShrinks(w, e.now);
    var v := w.(state := Prune(w.state, e.now));
    if e.ticket in v.state.pending && !e.valid { VerdictKeeps(v, e.ticket); }
  }

  lemma PrepareStep(w: World, e: Event)
    requires Inv(w) && e.Prepare?
    ensures Inv(Next(w, e))
  {
    PruneShrinks(w, e.clock.enter);
    var v := w.(state := Prune(w.state, e.clock.enter));
    if DoPrepare(w.state, e.ticket, e.browser, e.seconds, e.proposal, e.clock).refusal.None? {
      var scope := v.state.pending[e.ticket].scope;
      PrepareKeeps(v, e.ticket, Confirmation(e.browser, e.proposal, e.seconds, RevisionOf(Previous(v.state, scope))));
    }
  }

  lemma RevokeStep(w: World, e: Event)
    requires Inv(w) && (e.Revoke? || e.RevokeWorkspace?)
    ensures Inv(Next(w, e))
  {
    if e.Revoke? {
      RevokeKeeps(w, (set t | t in w.state.pending && w.state.pending[t].scope == e.scope), w.state.active - {e.scope},
                  Revoked(e.scope));
    } else {
      RevokeKeeps(w, TicketsOf(w.state.pending, e.workspace),
                  map k | k in w.state.active && k.workspace != e.workspace :: w.state.active[k],
                  RevokedWorkspace(e.workspace));
    }
  }

  /** Every call keeps the invariant. */
  lemma NextKeeps(w: World, e: Event)
    requires Inv(w) && Enabled(w, e)
    ensures Inv(Next(w, e))
  {
    match e
    case Request(_, _, _) => RequestStep(w, e);
    case Verdict(_, _, _) => VerdictStep(w, e);
    case Prepare(_, _, _, _, _) => PrepareStep(w, e);
    case Approve(_, _, _, _, _) => ApproveKeeps(w, e);
    case Revoke(_) => RevokeStep(w, e);
    case RevokeWorkspace(_) => RevokeStep(w, e);
    case Look(now) => PruneShrinks(w, now);
  }

  lemma {:induction false} RunKeeps(es: seq<Event>)
    requires Run(es).Some?
    ensures Inv(Run(es).value)
  {
    if es != [] {
      RunKeeps(es[..|es| - 1]);
      NextKeeps(Run(es[..|es| - 1]).value, es[|es| - 1]);
    }
  }

  // ---------------------------------------------------------------- quota

  lemma PruneFewer(s: State, now: real, workspace: string)
    ensures TicketsOf(Prune(s, now).pending, workspace) <= TicketsOf(s.pending, workspace)
  {}

  /** Apart from an admitted request, a call leaves a Workspace only tickets it had. */
  lemma OthersFewer(s: State, e: Event, workspace: string)
    requires !e.Request?
    ensures TicketsOf(Apply(s, e).state.pending, workspace) <= TicketsOf(s.pending, workspace)
  {
    if e.Approve? { ApproveFewer(s, e, workspace); }
  }

  lemma ApproveFewer(s: State, e: Event, workspace: string)
    requires e.Approve?
    ensures TicketsOf(DoApprove(s, e.ticket, e.confirmer, e.seconds, e.proposal, e.clock).state.pending, workspace)
            <= TicketsOf(s.pending, workspace)
  {
    var p := Prune(s, e.clock.enter);
    PruneFewer(s, e.clock.enter, workspace);
    PruneFewer(p, e.clock.again, workspace);
  }

  lemma RequestWithinQuota(s: State, e: Event, workspace: string)
    requires e.Request? && |TicketsOf(s.pending, workspace)| <= MAX_PENDING
    ensures |TicketsOf(Apply(s, e).state.pending, workspace)| <= MAX_PENDING
  {
    var p := Prune(s, e.now);
    PruneFewer(s, e.now, workspace);
    var live, after := TicketsOf(p.pending, workspace), TicketsOf(Apply(s, e).state.pending, workspace);
    SubsetSize(live, TicketsOf(s.pending, workspace));
    if e.scope.workspace == workspace {
      SubsetSize(after, live + {e.ticket});
    } else {
      SubsetSize(after, live);
    }
  }

  /** In every run a Workspace has at most 32 pending function approvals. */
  lemma {:induction false} FewPending(es: seq<Event>, workspace: string)
    requires Run(es).Some?
    ensures |TicketsOf(Run(es).value.state.pending, workspace)| <= 32
  {
    if es != [] {
      var w, e := Run(es[..|es| - 1]).value, es[|es| - 1];
      FewPending(es[..|es| - 1], workspace);
      if e.Request? {
        RequestWithinQuota(w.state, e, workspace);
      } else {
        OthersFewer(w.state, e, workspace);
        SubsetSize(TicketsOf(Run(es).value.state.pending, workspace), TicketsOf(w.state.pending, workspace));
      }
    }
  }

  // ---------------------------------------------------------------- theorems

  /**
  Confirmed means shown: in every run, an authorization published by a browser
  equals, apart from expiries, what that browser was shown last for the ticket,
  for the same duration.
  */
  lemma ConfirmedMeansShown(es: seq<Event>, i: nat)
    requires Run(es).Some? && i < |Run(es).value.log|
    requires Run(es).value.log[i].Published? && Run(es).value.log[i].confirmer.Some?
    ensures var log := Run(es).value.log; var shown := LastShown(log[..i], log[i].ticket);
      && shown.Some? && shown.value.Shown? && shown.value.browser == log[i].confirmer.value
      && shown.value.seconds == log[i].seconds && SameApartFromExpiry(shown.value.auth, log[i].auth)
  {
    RunKeeps(es);
    assert FactOk(Run(es).value.log, i);
    SemanticExactly(LastShown(Run(es).value.log[..i], Run(es).value.log[i].ticket).value.auth, Run(es).value.log[i].auth);
  }

  /** Two authorizations agree in all but the expiries of their items. */
  ghost predicate SameApartFromExpiry(a: Auth, b: Auth) {
    a.fields == b.fields && |a.grants| == |b.grants| && forall i :: 0 <= i < |a.grants| ==> a.grants[i].body == b.grants[i].body
  }

  lemma SemanticExactly(a: Auth, b: Auth)
    ensures Semantic(a) == Semantic(b) <==> SameApartFromExpiry(a, b)
  {
    if SameApartFromExpiry(a, b) { assert Semantic(a).1 == Semantic(b).1; }
    if Semantic(a) == Semantic(b) {
      assert |Semantic(a).1| == |Semantic(b).1|;
      forall i | 0 <= i < |a.grants| ensures a.grants[i].body == b.grants[i].body { assert Semantic(a).1[i] == Semantic(b).1[i]; }
    }
  }

  /** In every run, a ticket publishes at most once. */
  lemma PublishedOnce(es: seq<Event>, i: nat, j: nat, ticket: string)
    requires Run(es).Some? && IsPublished(Run(es).value.log, i, ticket) && IsPublished(Run(es).value.log, j, ticket)
    ensures i == j
  {
    RunKeeps(es);
    assert FactOk(Run(es).value.log, i) && FactOk(Run(es).value.log, j);
  }

  /** In every run, a pending ticket has not been revoked or published since its request, nor failed five times. */
  lemma PendingIsUntouched(es: seq<Event>, ticket: string)
    requires Run(es).Some? && ticket in Run(es).value.state.pending
    ensures var w := Run(es).value;
      Untouched(w.log, ticket, w.state.pending[ticket].scope) && Failures(w.log, ticket) < 5
  {
    RunKeeps(es);
    assert TicketOk(Run(es).value, ticket);
  }

  lemma {:induction false} AliveFrom(timed: seq<Timed>, now: real, k: nat) returns (i: nat)
    requires k < |Alive(timed, now)|
    ensures i < |timed| && timed[i] == Alive(timed, now)[k]
  {
    var before := timed[..|timed| - 1];
    if k < |Alive(before, now)| {
      i := AliveFrom(before, now, k);
    } else {
      i := |timed| - 1;
    }
  }

  /**
  What an approval leaves active for its scope: every item either keeps the
  deadline of an equal item that was active before, or comes when the proposal has
  used up all earlier copies of it, and then lasts at most the approved seconds and
  the grace from the start of the approval.
  */
  lemma ApprovalDeadlines(s: State, e: Event, k: nat)
    requires e.Approve? && Apply(s, e).refusal.None?
    requires var t, scope := Apply(s, e).state, Prune(s, e.clock.enter).pending[e.ticket].scope;
      scope in t.active && Aligned(t.active[scope]) && k < |t.active[scope].deadlines|
    ensures var p := Prune(s, e.clock.enter); var scope := p.pending[e.ticket].scope;
      var entry := Apply(s, e).state.active[scope];
      var prior := Prior(Previous(p, scope));
      || (exists j :: 0 <= j < |prior| && prior[j] == Timed(entry.auth.grants[k], entry.deadlines[k]))
      || (&& entry.deadlines[k] <= e.clock.started + e.seconds as real + GRACE_SECONDS
          && exists i :: UsedUp(prior, e.proposal.grants, entry.auth.grants[k], i))
  {
    var p := Prune(s, e.clock.enter);
    var scope := p.pending[e.ticket].scope;
    var prior := Prior(Previous(p, scope));
    var candidate := Candidate(p, scope, e.proposal, e.seconds, e.clock.started, e.clock.checked).value;
    CandidateAligned(p, scope, e.proposal, e.seconds, e.clock.started, e.clock.checked);
    PruneEntryPairs(candidate, e.clock.last);
    var entry := Apply(s, e).state.active[scope];
    assert PruneEntry(candidate, e.clock.last) == Some(entry);
    var timed := Zip(candidate.auth.grants, candidate.deadlines);
    assert Zip(entry.auth.grants, entry.deadlines)[k] == Timed(entry.auth.grants[k], entry.deadlines[k]);
    var i := AliveFrom(timed, e.clock.last, k);
    ItemInherits(prior, e.proposal.grants, e.clock.started, e.seconds as real, i);
    FreshBound(prior, e.proposal.grants, e.clock.started, e.seconds as real);
    if Source(prior, e.proposal.grants, i).Some? {
      var j := Source(prior, e.proposal.grants, i).value;
      assert prior[j] == Timed(entry.auth.grants[k], entry.deadlines[k]);
    } else {
      assert UsedUp(prior, e.proposal.grants, entry.auth.grants[k], i);
    }
  }

  /** Item `i` of the proposal is this item, and the items before it leave no earlier copy of it. */
  ghost predicate UsedUp(prior: seq<Timed>, items: seq<Item>, x: Item, i: nat) {
    i < |items| && items[i] == x && Count(items[..i], x) >= Copies(prior, x)
  }

  // ---------------------------------------------------------------- the store, statement by statement

  class Store {
    var pending: map<string, Ticket>
    var active: map<Scope, Entry>
    var confirmations: map<string, Confirmation>

    function View(): State
      reads this
    {
      State(pending, active, confirmations)
    }

    constructor ()
      ensures View() == INITIAL
    {
      pending, active, confirmations := map[], map[], map[];
    }

    method PruneStore(now: real)
      modifies this
      ensures View() == Prune(old(View()), now)
    {
      pending := PrunePending(pending, now);
      active := PruneActive(active, now);
      confirmations := map t | t in confirmations && t in pending :: confirmations[t];
    }

    method RequestApproval(ticket: string, scope: Scope, now: real) returns (refusal: Option<Refusal>)
      modifies this
      ensures View() == DoRequest(old(View()), ticket, scope, now).state
      ensures refusal == DoRequest(old(View()), ticket, scope, now).refusal
    {
      PruneStore(now);
      if |TicketsOf(pending, scope.workspace)| >= MAX_PENDING { return Some(TooMany); }
      pending := pending[ticket := Ticket(scope, now + PENDING_SECONDS, 0)];
      refusal := None;
    }

    /** The second lock section of a password attempt, with the verdict reached in between. */
    method RecordVerdict(ticket: string, valid: bool, now: real) returns (r: Result<bool, Refusal>)
      modifies this
      ensures View() == DoVerdict(old(View()), ticket, valid, now).state
      ensures r == if DoVerdict(old(View()), ticket, valid, now).refusal.Some? then Err(Gone) else Ok(valid)
    {
      PruneStore(now);
      if ticket !in pending { return Err(Gone); }
      if !valid {
        var attempts := pending[ticket].attempts + 1;
        if attempts >= MAX_FAILURES {
          pending := pending - {ticket};
        } else {
          pending := pending[ticket := pending[ticket].(attempts := attempts)];
        }
        return Ok(false);
      }
      r := Ok(true);
    }

    /** The candidate computation, with the matching loop of its deadlines. */
    method Propose(scope: Scope, proposal: Auth, seconds: int, started: real, checked: real) returns (r: Result<Entry, Refusal>)
      ensures r == Candidate(View(), scope, proposal, seconds, started, checked)
    {
      var previous := Previous(View(), scope);
      if !ValidAuth(proposal) { return Err(BadAuth); }
      var deadlines := ComputeDeadlines(Prior(previous), proposal.grants, started, seconds as real);
      if forall i :: 0 <= i < |deadlines| ==> deadlines[i] <= checked { return Err(NothingActive); }
      r := Ok(Entry(proposal, deadlines, RevisionOf(previous) + 1));
    }

    method PrepareConfirmation(ticket: string, browser: string, seconds: int, proposal: Auth, clock: Clock)
      returns (refusal: Option<Refusal>)
      modifies this
      ensures View() == DoPrepare(old(View()), ticket, browser, seconds, proposal, clock).state
      ensures refusal == DoPrepare(old(View()), ticket, browser, seconds, proposal, clock).refusal
    {
      if !DurationOk(seconds) { return Some(BadDuration); }
      PruneStore(clock.enter);
      if ticket !in pending { return Some(Gone); }
      var scope := pending[ticket].scope;
      var candidate := Propose(scope, proposal, seconds, clock.started, clock.checked);
      if candidate.Err? { return Some(candidate.error); }
      if pending[ticket].deadline <= clock.again { return Some(Gone); }
      confirmations := confirmations[ticket :=
        Confirmation(browser, proposal, seconds, RevisionOf(Previous(View(), scope)))];
      refusal := None;
    }

    method ApproveTicket(ticket: string, confirmer: Option<string>, seconds: int, proposal: Auth, clock: Clock)
      returns (refusal: Option<Refusal>)
      modifies this
      ensures View() == DoApprove(old(View()), ticket, confirmer, seconds, proposal, clock).state
      ensures refusal == DoApprove(old(View()), ticket, confirmer, seconds, proposal, clock).refusal
    {
      if !DurationOk(seconds) { return Some(BadDuration); }
      PruneStore(clock.enter);
      if ticket !in pending { return Some(Gone); }
      var scope := pending[ticket].scope;
      var candidate := Propose(scope, proposal, seconds, clock.started, clock.checked);
      if candidate.Err? { return Some(candidate.error); }
      PruneStore(clock.again);
      if ticket !in pending { return Some(Gone); }
      if confirmer.Some?
         && !Confirms(View(), ticket, confirmer.value, seconds, candidate.value.revision - 1, proposal)
      {
        return Some(Changed);
      }
      active := active[scope := candidate.value];
      pending := pending - {ticket};
      confirmations := confirmations - {ticket};
      PruneStore(clock.last);
      refusal := None;
    }

    method RevokeScope(scope: Scope)
      modifies this
      ensures View() == DoRevoke(old(View()), scope).state
    {
      active := active - {scope};
      var gone := set t | t in pending && pending[t].scope == scope;
      pending := pending - gone;
      confirmations := map t | t in confirmations && t in pending :: confirmations[t];
    }

    method RevokeAllOf(workspace: string)
      modifies this
      ensures View() == DoRevokeWorkspace(old(View()), workspace).state
    {
      active := map k | k in active && k.workspace != workspace :: active[k];
      pending := pending - TicketsOf(pending, workspace);
      confirmations := map t | t in confirmations && t in pending :: confirmations[t];
    }
  }
}
