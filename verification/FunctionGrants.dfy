/**
Function authorizations: tickets that wait for an approval, what a browser was
shown for confirmation, and the authorizations that are active.

The Client callback is an input (its proposal), as are the ticket names, which
are new, and the clock readings of each call.
*/
module FunctionGrants {
  import opened Prelude
  import opened GrantDeadlines

  const PENDING_SECONDS := 1800.0
  const MIN_SECONDS := 60
  const MAX_SECONDS := 86400
  const MAX_PENDING := 32
  const MAX_FAILURES := 5
  const MAX_EXPIRY := 10000000000000.0

  /** A Client authorization: the fields the Server never looks at, and the items. */
  datatype Auth = Auth(fields: string, grants: seq<Item>)

  datatype Scope = Scope(workspace: string, conversation: nat, target: string, function_: string)
  datatype Ticket = Ticket(scope: Scope, deadline: real, attempts: nat)
  datatype Entry = Entry(auth: Auth, deadlines: seq<real>, revision: nat)

  /** What was last shown to a browser for a ticket. */
  datatype Confirmation = Confirmation(browser: string, auth: Auth, seconds: int, revision: nat)

  datatype State = State(
    pending: map<string, Ticket>,
    active: map<Scope, Entry>,
    confirmations: map<string, Confirmation>)

  const INITIAL := State(map[], map[], map[])

  /** An authorization without its clock-dependent expiries. */
  function Semantic(a: Auth): (string, seq<string>) {
    (a.fields, seq(|a.grants|, i requires 0 <= i < |a.grants| => a.grants[i].body))
  }

  predicate ValidAuth(a: Auth) {
    forall i :: 0 <= i < |a.grants| ==> 0.0 <= a.grants[i].expiresAt <= MAX_EXPIRY
  }

  // ---------------------------------------------------------------- pruning

  function Alive(timed: seq<Timed>, now: real): seq<Timed> {
    if timed == [] then []
    else Alive(timed[..|timed| - 1], now)
         + (if timed[|timed| - 1].deadline > now then [timed[|timed| - 1]] else [])
  }

  function Items(timed: seq<Timed>): seq<Item> {
    seq(|timed|, i requires 0 <= i < |timed| => timed[i].item)
  }

  function Times(timed: seq<Timed>): seq<real> {
    seq(|timed|, i requires 0 <= i < |timed| => timed[i].deadline)
  }

  ghost predicate Aligned(e: Entry) {
    |e.auth.grants| == |e.deadlines| > 0
  }

  /** Expired items leave together with their deadlines; an entry without live items leaves altogether. */
  function PruneEntry(e: Entry, now: real): Option<Entry> {
    if |e.auth.grants| != |e.deadlines| then None
    else
      var kept := Alive(Zip(e.auth.grants, e.deadlines), now);
      if |kept| == |e.deadlines| then Some(e)
      else if kept == [] then None
      else Some(e.(auth := e.auth.(grants := Items(kept)), deadlines := Times(kept)))
  }

  function PrunePending(pending: map<string, Ticket>, now: real): map<string, Ticket> {
    map t | t in pending && pending[t].deadline > now :: pending[t]
  }

  function PruneActive(active: map<Scope, Entry>, now: real): map<Scope, Entry> {
    map k | k in active && PruneEntry(active[k], now).Some? :: PruneEntry(active[k], now).value
  }

  function Prune(s: State, now: real): State {
    var pending := PrunePending(s.pending, now);
    State(pending, PruneActive(s.active, now),
          map t | t in s.confirmations && t in pending :: s.confirmations[t])
  }

  lemma {:induction false} AliveAll(timed: seq<Timed>, now: real)
    ensures |Alive(timed, now)| <= |timed|
    ensures |Alive(timed, now)| == |timed| ==> Alive(timed, now) == timed
  {
    if timed != [] { AliveAll(timed[..|timed| - 1], now); }
  }

  lemma {:induction false} AliveConcat(a: seq<Timed>, b: seq<Timed>, now: real)
    ensures Alive(a + b, now) == Alive(a, now) + Alive(b, now)
  {
    if b == [] {
      assert a + b == a;
    } else {
      AliveConcat(a, b[..|b| - 1], now);
      assert (a + b)[..|a + b| - 1] == a + b[..|b| - 1];
    }
  }

  lemma {:induction false} AliveCompose(timed: seq<Timed>, t1: real, t2: real)
    requires t1 <= t2
    ensures Alive(Alive(timed, t1), t2) == Alive(timed, t2)
  {
    if timed != [] {
      var before, last := timed[..|timed| - 1], timed[|timed| - 1];
      AliveCompose(before, t1, t2);
      AliveConcat(Alive(before, t1), [last], t2);
      assert Alive([last], t2) == if last.deadline > t2 then [last] else [];
      if last.deadline <= t1 { assert Alive(timed, t1) == Alive(before, t1); }
    }
  }

  lemma ZipItems(timed: seq<Timed>)
    ensures Zip(Items(timed), Times(timed)) == timed
  {}

  /** What a pruned entry holds: exactly the live pairs, in order, still paired. */
  lemma PruneEntryPairs(e: Entry, now: real)
    requires Aligned(e)
    ensures var kept := Alive(Zip(e.auth.grants, e.deadlines), now);
      match PruneEntry(e, now)
      case None => kept == []
      case Some(p) => Aligned(p) && Zip(p.auth.grants, p.deadlines) == kept && p.auth.fields == e.auth.fields
                      && p.revision == e.revision
  {
    var timed := Zip(e.auth.grants, e.deadlines);
    AliveAll(timed, now);
    ZipItems(Alive(timed, now));
  }

  lemma SameEntry(p: Entry, q: Entry)
    requires Aligned(p) && Aligned(q) && Zip(p.auth.grants, p.deadlines) == Zip(q.auth.grants, q.deadlines)
    requires p.auth.fields == q.auth.fields && p.revision == q.revision
    ensures p == q
  {
    var zp, zq := Zip(p.auth.grants, p.deadlines), Zip(q.auth.grants, q.deadlines);
    assert |zp| == |zq|;
    forall i | 0 <= i < |p.deadlines|
      ensures p.auth.grants[i] == q.auth.grants[i] && p.deadlines[i] == q.deadlines[i]
    {
      assert zp[i] == zq[i];
    }
  }

  /** Pruning an entry at one time and again later is pruning it at the later time. */
  lemma PruneEntryComposes(e: Entry, t1: real, t2: real)
    requires Aligned(e) && t1 <= t2
    ensures PruneEntry(e, t2) ==
      match PruneEntry(e, t1)
      case None => None
      case Some(p) => PruneEntry(p, t2)
  {
    var timed := Zip(e.auth.grants, e.deadlines);
    AliveCompose(timed, t1, t2);
    PruneEntryPairs(e, t1);
    PruneEntryPairs(e, t2);
    var first := PruneEntry(e, t1);
    if first.Some? {
      PruneEntryPairs(first.value, t2);
      var a, b := PruneEntry(first.value, t2), PruneEntry(e, t2);
      if a.Some? && b.Some? { SameEntry(a.value, b.value); }
    }
  }

  ghost predicate AllAligned(s: State) {
    forall k :: k in s.active ==> Aligned(s.active[k])
  }

  /** Pruning the store composes in the same way. */
  lemma PruneComposes(s: State, t1: real, t2: real)
    requires AllAligned(s) && t1 <= t2
    ensures Prune(Prune(s, t1), t2) == Prune(s, t2)
  {
    PruneActiveComposes(s.active, t1, t2);
    var a, b := Prune(Prune(s, t1), t2), Prune(s, t2);
    assert a.pending == b.pending;
    assert a.confirmations == b.confirmations;
  }

  lemma PruneActiveComposes(active: map<Scope, Entry>, t1: real, t2: real)
    requires t1 <= t2 && forall k :: k in active ==> Aligned(active[k])
    ensures PruneActive(PruneActive(active, t1), t2) == PruneActive(active, t2)
  {
    forall k | k in active
      ensures PruneEntry(active[k], t2) ==
        match PruneEntry(active[k], t1) case None => None case Some(p) => PruneEntry(p, t2)
    {
      PruneEntryComposes(active[k], t1, t2);
    }
  }

  lemma PruneAligned(s: State, now: real)
    requires AllAligned(s)
    ensures AllAligned(Prune(s, now))
  {
    forall k | k in Prune(s, now).active ensures Aligned(Prune(s, now).active[k]) {
      PruneEntryPairs(s.active[k], now);
    }
  }

  // ---------------------------------------------------------------- operations

  datatype Refusal = Gone | TooMany | BadDuration | BadAuth | NothingActive | Changed

  /** Clock readings of one call: its prune, the approval start, the candidate check, the second prune, the last. */
  datatype Clock = Clock(enter: real, started: real, checked: real, again: real, last: real)

  datatype Event =
    | Request(ticket: string, scope: Scope, now: real)
    | Verdict(ticket: string, valid: bool, now: real)      // the second lock section of a password attempt
    | Prepare(ticket: string, browser: string, seconds: int, proposal: Auth, clock: Clock)
    | Approve(ticket: string, confirmer: Option<string>, seconds: int, proposal: Auth, clock: Clock)
    | Revoke(scope: Scope)
    | RevokeWorkspace(workspace: string)
    | Look(now: real)                                      // any reading call

  /** What an accepted call did, as far as tickets are concerned. */
  datatype Fact =
    | Requested(ticket: string, scope: Scope)
    | WrongPassword(ticket: string)
    | Shown(ticket: string, browser: string, auth: Auth, seconds: int)
    | Published(ticket: string, scope: Scope, auth: Auth, confirmer: Option<string>, seconds: int, started: real)
    | Revoked(scope: Scope)
    | RevokedWorkspace(workspace: string)

  datatype Outcome = Outcome(state: State, fact: Option<Fact>, refusal: Option<Refusal>)

  function TicketsOf(pending: map<string, Ticket>, workspace: string): set<string> {
    set t | t in pending && pending[t].scope.workspace == workspace
  }

  function DoRequest(s: State, ticket: string, scope: Scope, now: real): Outcome {
    var p := Prune(s, now);
    if |TicketsOf(p.pending, scope.workspace)| >= MAX_PENDING then Outcome(p, None, Some(TooMany))
    else Outcome(p.(pending := p.pending[ticket := Ticket(scope, now + PENDING_SECONDS, 0)]),
                 Some(Requested(ticket, scope)), None)
  }

  function DoVerdict(s: State, ticket: string, valid: bool, now: real): Outcome {
    var p := Prune(s, now);
    if ticket !in p.pending then Outcome(p, None, Some(Gone))
    else if valid then Outcome(p, None, None)
    else
      var item := p.pending[ticket];
      var pending := if item.attempts + 1 >= MAX_FAILURES then p.pending - {ticket}
                     else p.pending[ticket := item.(attempts := item.attempts + 1)];
      Outcome(p.(pending := pending), Some(WrongPassword(ticket)), None)
  }

  predicate DurationOk(seconds: int) {
    MIN_SECONDS <= seconds <= MAX_SECONDS
  }

  function Prior(e: Option<Entry>): seq<Timed> {
    if e.None? || |e.value.auth.grants| != |e.value.deadlines| then []
    else Zip(e.value.auth.grants, e.value.deadlines)
  }

  function RevisionOf(e: Option<Entry>): nat {
    if e.None? then 0 else e.value.revision
  }

  function Previous(s: State, scope: Scope): Option<Entry> {
    if scope in s.active then Some(s.active[scope]) else None
  }

  /** The entry a proposal would publish. */
  function Candidate(s: State, scope: Scope, proposal: Auth, seconds: int, started: real, checked: real)
    : Result<Entry, Refusal>
  {
    var deadlines := Deadlines(Prior(Previous(s, scope)), proposal.grants, started, seconds as real);
    if !ValidAuth(proposal) then Err(BadAuth)
    else if forall i :: 0 <= i < |deadlines| ==> deadlines[i] <= checked then Err(NothingActive)
    else Ok(Entry(proposal, deadlines, RevisionOf(Previous(s, scope)) + 1))
  }

  function DoPrepare(s: State, ticket: string, browser: string, seconds: int, proposal: Auth, clock: Clock): Outcome {
    if !DurationOk(seconds) then Outcome(s, None, Some(BadDuration))
    else
      var p := Prune(s, clock.enter);
      if ticket !in p.pending then Outcome(p, None, Some(Gone))
      else
        var scope := p.pending[ticket].scope;
        match Candidate(p, scope, proposal, seconds, clock.started, clock.checked)
        case Err(e) => Outcome(p, None, Some(e))
        case Ok(entry) =>
          if p.pending[ticket].deadline <= clock.again then Outcome(p, None, Some(Gone))
          else Outcome(p.(confirmations := p.confirmations[ticket :=
                              Confirmation(browser, proposal, seconds, RevisionOf(Previous(p, scope)))]),
                       Some(Shown(ticket, browser, proposal, seconds)), None)
  }

  /** A browser approval must match what that browser was last shown for the ticket. */
  predicate Confirms(s: State, ticket: string, browser: string, seconds: int, revision: nat, proposal: Auth) {
    && ticket in s.confirmations
    && var c := s.confirmations[ticket];
    && c.browser == browser && c.seconds == seconds && c.revision == revision && Semantic(c.auth) == Semantic(proposal)
  }

  function DoApprove(s: State, ticket: string, confirmer: Option<string>, seconds: int, proposal: Auth, clock: Clock)
    : Outcome
  {
    if !DurationOk(seconds) then Outcome(s, None, Some(BadDuration))
    else
      var p := Prune(s, clock.enter);
      if ticket !in p.pending then Outcome(p, None, Some(Gone))
      else
        var scope := p.pending[ticket].scope;
        match Candidate(p, scope, proposal, seconds, clock.started, clock.checked)
        case Err(e) => Outcome(p, None, Some(e))
        case Ok(entry) =>
          var q := Prune(p, clock.again);
          if ticket !in q.pending then Outcome(q, None, Some(Gone))
          else if confirmer.Some? && !Confirms(q, ticket, confirmer.value, seconds, entry.revision - 1, proposal)
          then Outcome(q, None, Some(Changed))
          else Outcome(Prune(State(q.pending - {ticket}, q.active[scope := entry], q.confirmations - {ticket}), clock.last),
                       Some(Published(ticket, scope, proposal, confirmer, seconds, clock.started)), None)
  }

  function DropTickets(s: State, gone: set<string>, active: map<Scope, Entry>): State {
    var pending := s.pending - gone;
    State(pending, active, map t | t in s.confirmations && t in pending :: s.confirmations[t])
  }

  function DoRevoke(s: State, scope: Scope): Outcome {
    Outcome(DropTickets(s, (set t | t in s.pending && s.pending[t].scope == scope), s.active - {scope}),
            Some(Revoked(scope)), None)
  }

  function DoRevokeWorkspace(s: State, workspace: string): Outcome {
    Outcome(DropTickets(s, TicketsOf(s.pending, workspace),
                        map k | k in s.active && k.workspace != workspace :: s.active[k]),
            Some(RevokedWorkspace(workspace)), None)
  }

  function Apply(s: State, e: Event): Outcome {
    match e
    case Request(ticket, scope, now) => DoRequest(s, ticket, scope, now)
    case Verdict(ticket, valid, now) => DoVerdict(s, ticket, valid, now)
    case Prepare(ticket, browser, seconds, proposal, clock) => DoPrepare(s, ticket, browser, seconds, proposal, clock)
    case Approve(ticket, confirmer, seconds, proposal, clock) => DoApprove(s, ticket, confirmer, seconds, proposal, clock)
    case Revoke(scope) => DoRevoke(s, scope)
    case RevokeWorkspace(workspace) => DoRevokeWorkspace(s, workspace)
    case Look(now) => Outcome(Prune(s, now), None, None)
  }

  // ---------------------------------------------------------------- runs

  datatype World = World(state: State, log: seq<Fact>, issued: set<string>)

  /** Ticket names are never drawn twice. */
  predicate Enabled(w: World, e: Event) {
    e.Request? ==> e.ticket !in w.issued
  }

  function Next(w: World, e: Event): World {
    var o := Apply(w.state, e);
    World(o.state, if o.fact.Some? then w.log + [o.fact.value] else w.log,
          if e.Request? then w.issued + {e.ticket} else w.issued)
  }

  function Run(es: seq<Event>): Option<World> {
    if es == [] then Some(World(INITIAL, [], {}))
    else match Run(es[..|es| - 1])
      case None => None
      case Some(w) => if Enabled(w, es[|es| - 1]) then Some(Next(w, es[|es| - 1])) else None
  }

  /** The latest confirmation page shown for a ticket. */
  function LastShown(log: seq<Fact>, ticket: string): Option<Fact> {
    if log == [] then None
    else
      var f := log[|log| - 1];
      if f.Shown? && f.ticket == ticket then Some(f) else LastShown(log[..|log| - 1], ticket)
  }

  function Failures(log: seq<Fact>, ticket: string): nat {
    if log == [] then 0
    else Failures(log[..|log| - 1], ticket) + (if log[|log| - 1] == WrongPassword(ticket) then 1 else 0)
  }

  predicate Ends(f: Fact, ticket: string, scope: Scope) {
    match f
    case Published(t, _, _, _, _, _) => t == ticket
    case Revoked(k) => k == scope
    case RevokedWorkspace(workspace) => workspace == scope.workspace
    case _ => false
  }

  /** The ticket was requested for this scope, and nothing since has published or revoked it. */
  predicate Untouched(log: seq<Fact>, ticket: string, scope: Scope) {
    log != [] &&
    var f := log[|log| - 1];
    f == Requested(ticket, scope) || (!Ends(f, ticket, scope) && Untouched(log[..|log| - 1], ticket, scope))
  }

  predicate IsPublished(log: seq<Fact>, i: nat, ticket: string) {
    i < |log| && log[i].Published? && log[i].ticket == ticket
  }

  /** What a pending ticket has behind it. */
  ghost predicate TicketOk(w: World, t: string)
    requires t in w.state.pending
  {
    var item := w.state.pending[t];
    && t in w.issued && Untouched(w.log, t, item.scope)
    && Failures(w.log, t) == item.attempts < MAX_FAILURES
    && forall i :: !IsPublished(w.log, i, t)
  }

  ghost predicate ConfirmationOk(w: World, t: string)
    requires t in w.state.confirmations
  {
    var c := w.state.confirmations[t];
    LastShown(w.log, t) == Some(Shown(t, c.browser, c.auth, c.seconds))
  }

  /** A published fact is preceded by its confirmation page, and is the only one for its ticket. */
  ghost predicate FactOk(log: seq<Fact>, i: nat) {
    i < |log| && log[i].Published? ==>
      && (log[i].confirmer.Some? ==>
            var shown := LastShown(log[..i], log[i].ticket);
            && shown.Some? && shown.value.Shown? && shown.value.browser == log[i].confirmer.value
            && shown.value.seconds == log[i].seconds && Semantic(shown.value.auth) == Semantic(log[i].auth))
      && forall j :: 0 <= j < i ==> !IsPublished(log, j, log[i].ticket)
  }

  ghost predicate Named(w: World, f: Fact) {
    match f
    case Requested(t, _) => t in w.issued
    case WrongPassword(t) => t in w.issued
    case Shown(t, _, _, _) => t in w.issued
    case Published(t, _, _, _, _, _) => t in w.issued
    case _ => true
  }

  ghost predicate Inv(w: World) {
    && AllAligned(w.state)
    && (forall t :: t in w.state.pending ==> TicketOk(w, t))
    && (forall t :: t in w.state.confirmations ==> ConfirmationOk(w, t))
    && (forall i :: 0 <= i < |w.log| ==> FactOk(w.log, i) && Named(w, w.log[i]))
  }
}
