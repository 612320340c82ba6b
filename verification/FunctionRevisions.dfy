/**
What the revision test of a confirmation page is worth.  A page records the
revision of its scope's authorization, and a confirmation is refused if that has
changed.  The test is meant to refuse a page when another approval of the scope was
published since it was shown; it does so exactly as long as the scope's
authorization has not lapsed altogether in between, because revisions start again
from nothing after that.
*/
module FunctionRevisions {
  import opened Prelude
  import opened GrantDeadlines
  import opened FunctionGrants
  import opened FunctionApprovals
  import opened FunctionDeadlines
  import opened FunctionAnswers

  ghost function Revision(s: State, scope: Scope): nat {
    RevisionOf(Previous(s, scope))
  }

  /** The call publishes an approval of the scope. */
  ghost predicate Publishes(s: State, e: Event, scope: Scope) {
    e.Approve? && Apply(s, e).fact.Some? && Apply(s, e).fact.value.scope == scope
  }

  /** During the call the scope's authorization runs out: the one it had, or the one just published. */
  ghost predicate Lapses(s: State, e: Event, scope: Scope) {
    || (scope in s.active && scope !in Apply(s, e).state.active)
    || (Publishes(s, e, scope) && scope !in Apply(s, e).state.active)
    || (Publishes(s, e, scope) && scope in s.active && scope !in Prune(s, e.clock.enter).active)
  }

  /** Stored revisions count from 1. */
  ghost predicate Positive(s: State) {
    forall k :: k in s.active ==> s.active[k].revision >= 1
  }

  lemma PruneRevision(s: State, now: real, scope: Scope)
    ensures scope in Prune(s, now).active ==> scope in s.active && Revision(Prune(s, now), scope) == Revision(s, scope)
    ensures scope !in Prune(s, now).active ==> Revision(Prune(s, now), scope) == 0
    ensures Positive(s) ==> Positive(Prune(s, now))
  {}

  // ---------------------------------------------------------------- one call

  /** What an approval does to the revision of a scope. */
  lemma ApproveRevision(s: State, e: Event, scope: Scope)
    requires e.Approve? && Positive(s)
    ensures var t := Apply(s, e).state;
      && Positive(t)
      && (Publishes(s, e, scope) ==>
            scope in t.active ==> Revision(t, scope) == Revision(Prune(s, e.clock.enter), scope) + 1)
      && (!Publishes(s, e, scope) ==> (scope in t.active ==> scope in s.active && Revision(t, scope) == Revision(s, scope)))
  {
    if DurationOk(e.seconds) {
      var p := Prune(s, e.clock.enter);
      PruneRevision(s, e.clock.enter, scope);
      var q := Prune(p, e.clock.again);
      PruneRevision(p, e.clock.again, scope);
      if Apply(s, e).fact.Some? { PublishRevision(s, p, q, e, scope); }
    }
  }

  lemma PublishRevision(s: State, p: State, q: State, e: Event, scope: Scope)
    requires e.Approve? && p == Prune(s, e.clock.enter) && q == Prune(p, e.clock.again) && Positive(q) && Apply(s, e).fact.Some?
    ensures var t := Apply(s, e).state;
      && Positive(t)
      && (Publishes(s, e, scope) ==> (scope in t.active ==> Revision(t, scope) == Revision(p, scope) + 1))
      && (!Publishes(s, e, scope) ==> (scope in t.active ==> scope in q.active && Revision(t, scope) == Revision(q, scope)))
  {
    var target := p.pending[e.ticket].scope;
    var entry := Candidate(p, target, e.proposal, e.seconds, e.clock.started, e.clock.checked).value;
    PruneRevision(State(q.pending - {e.ticket}, q.active[target := entry], q.confirmations - {e.ticket}), e.clock.last, scope);
  }

  lemma StepRevision(s: State, e: Event, scope: Scope)
    requires Positive(s)
    ensures var t := Apply(s, e).state;
      && Positive(t)
      && (!Publishes(s, e, scope) ==> (scope in t.active ==> scope in s.active && Revision(t, scope) == Revision(s, scope)))
      && (Publishes(s, e, scope) ==>
            scope in t.active ==> Revision(t, scope) == Revision(Prune(s, e.clock.enter), scope) + 1)
  {
    match e
    case Request(_, _, now) => PruneRevision(s, now, scope);
    case Verdict(_, _, now) => PruneRevision(s, now, scope);
    case Prepare(_, _, _, _, clock) => PruneRevision(s, clock.enter, scope);
    case Approve(_, _, _, _, _) => ApproveRevision(s, e, scope);
    case Revoke(_) =>
    case RevokeWorkspace(_) =>
    case Look(now) => PruneRevision(s, now, scope);
  }

  /** Without a lapse, a publication adds one to the revision and nothing else changes it. */
  lemma UnlapsedStep(s: State, e: Event, scope: Scope)
    requires Positive(s) && !Lapses(s, e, scope)
    ensures Revision(Apply(s, e).state, scope) == Revision(s, scope) + if Publishes(s, e, scope) then 1 else 0
  {
    StepRevision(s, e, scope);
    if Publishes(s, e, scope) { PruneRevision(s, e.clock.enter, scope); }
  }

  /** Without a publication, the revision stays or the authorization is gone. */
  lemma UnpublishedStep(s: State, e: Event, scope: Scope)
    requires Positive(s) && !Publishes(s, e, scope)
    ensures var t := Apply(s, e).state;
      && (Revision(t, scope) == Revision(s, scope) || Revision(t, scope) == 0)
      && (Lapses(s, e, scope) ==> Revision(s, scope) >= 1 && Revision(t, scope) == 0)
  {
    StepRevision(s, e, scope);
  }

  // ---------------------------------------------------------------- whole runs, seen from one scope

  /** What one call does to a scope's revision: whether it published, whether the authorization lapsed, and the revision after it. */
  datatype Mark = Mark(published: bool, lapsed: bool, after: nat)

  ghost predicate MarkOk(before: nat, m: Mark) {
    && (!m.lapsed ==> m.after == before + if m.published then 1 else 0)
    && (!m.published ==> m.after == before || m.after == 0)
    && (!m.published && m.lapsed ==> before >= 1 && m.after == 0)
  }

  ghost function LastRevision(first: nat, marks: seq<Mark>): nat {
    if marks == [] then first else marks[|marks| - 1].after
  }

  /** The marks of successive calls, from a first revision. */
  ghost predicate Marks(first: nat, marks: seq<Mark>) {
    marks == [] ||
    (Marks(first, marks[..|marks| - 1]) && MarkOk(LastRevision(first, marks[..|marks| - 1]), marks[|marks| - 1]))
  }

  lemma {:induction false} RevisionGrows(first: nat, marks: seq<Mark>)
    requires Marks(first, marks) && forall j :: 0 <= j < |marks| ==> !marks[j].lapsed
    ensures LastRevision(first, marks) >= first
    ensures (exists j :: 0 <= j < |marks| && marks[j].published) ==> LastRevision(first, marks) > first
  {
    if marks != [] {
      var before := marks[..|marks| - 1];
      RevisionGrows(first, before);
      if j :| 0 <= j < |marks| && marks[j].published && j < |before| { assert before[j].published; }
    }
  }

  lemma {:induction false} RevisionStays(first: nat, marks: seq<Mark>)
    requires Marks(first, marks) && forall j :: 0 <= j < |marks| ==> !marks[j].published
    ensures LastRevision(first, marks) == first || LastRevision(first, marks) == 0
    ensures (exists j :: 0 <= j < |marks| && marks[j].lapsed) ==> first >= 1 && LastRevision(first, marks) == 0
  {
    if marks != [] {
      var before := marks[..|marks| - 1];
      RevisionStays(first, before);
      if j :| 0 <= j < |marks| && marks[j].lapsed && j < |before| { assert before[j].lapsed; }
    }
  }

  /**
  If the revision at the end, or nothing after a last lapse, equals the first: nothing
  was published exactly when nothing lapsed.
  */
  lemma SameRevisionExactly(first: nat, marks: seq<Mark>, lapsedAtEnd: bool)
    requires Marks(first, marks) && (lapsedAtEnd ==> LastRevision(first, marks) >= 1)
    requires first == if lapsedAtEnd then 0 else LastRevision(first, marks)
    ensures (forall j :: 0 <= j < |marks| ==> !marks[j].published) <==>
      (forall j :: 0 <= j < |marks| ==> !marks[j].lapsed) && !lapsedAtEnd
  {
    if (forall j :: 0 <= j < |marks| ==> !marks[j].lapsed) && !lapsedAtEnd { RevisionGrows(first, marks); }
    if forall j :: 0 <= j < |marks| ==> !marks[j].published { RevisionStays(first, marks); }
  }

  ghost function MarkOf(s: State, e: Event, scope: Scope): Mark {
    Mark(Publishes(s, e, scope), Lapses(s, e, scope), Revision(Apply(s, e).state, scope))
  }

  lemma StepMark(s: State, e: Event, scope: Scope)
    requires Positive(s)
    ensures MarkOk(Revision(s, scope), MarkOf(s, e, scope)) && Positive(Apply(s, e).state)
  {
    StepRevision(s, e, scope);
    if !Lapses(s, e, scope) { UnlapsedStep(s, e, scope); }
    if !Publishes(s, e, scope) { UnpublishedStep(s, e, scope); }
  }

  /** The authorization runs out when the call prunes at its start. */
  ghost predicate LapsesOnEntry(s: State, e: Event, scope: Scope)
    requires e.Approve?
  {
    scope in s.active && scope !in Prune(s, e.clock.enter).active
  }

  lemma EntryRevision(s: State, e: Event, scope: Scope)
    requires e.Approve? && Positive(s)
    ensures LapsesOnEntry(s, e, scope) ==> Revision(s, scope) >= 1
    ensures Revision(Prune(s, e.clock.enter), scope) == if LapsesOnEntry(s, e, scope) then 0 else Revision(s, scope)
  {
    PruneRevision(s, e.clock.enter, scope);
  }

  // ---------------------------------------------------------------- the page of a ticket

  /** The call shows a confirmation page for the ticket. */
  ghost predicate Shows(s: State, e: Event, ticket: string) {
    e.Prepare? && e.ticket == ticket && Apply(s, e).fact.Some?
  }

  /** A stored page was there before, unless this call shows one for the ticket. */
  lemma PageCarried(s: State, e: Event, ticket: string)
    requires !Shows(s, e, ticket) && ticket in Apply(s, e).state.confirmations
    ensures ticket in s.confirmations && Apply(s, e).state.confirmations[ticket] == s.confirmations[ticket]
  {
    if e.Approve? { ApproveCarries(s, e, ticket); }
  }

  lemma ApproveCarries(s: State, e: Event, ticket: string)
    requires e.Approve? && ticket in Apply(s, e).state.confirmations
    ensures ticket in s.confirmations && Apply(s, e).state.confirmations[ticket] == s.confirmations[ticket]
  {}

  /** A pending ticket was there before with its scope, unless this call requests it. */
  lemma TicketCarried(s: State, e: Event, ticket: string)
    requires !(e.Request? && e.ticket == ticket) && ticket in Apply(s, e).state.pending
    ensures ticket in s.pending && Apply(s, e).state.pending[ticket].scope == s.pending[ticket].scope
  {
    if e.Approve? { ApproveCarriesTicket(s, e, ticket); }
  }

  lemma ApproveCarriesTicket(s: State, e: Event, ticket: string)
    requires e.Approve? && ticket in Apply(s, e).state.pending
    ensures ticket in s.pending && Apply(s, e).state.pending[ticket].scope == s.pending[ticket].scope
  {}

  ghost function PageOf(s: State, ticket: string): Option<Confirmation> {
    if ticket in s.confirmations then Some(s.confirmations[ticket]) else None
  }

  ghost function ScopeOf(s: State, ticket: string): Option<Scope> {
    if ticket in s.pending then Some(s.pending[ticket].scope) else None
  }

  lemma StepPage(s: State, e: Event, ticket: string)
    requires !Shows(s, e, ticket) && PageOf(Apply(s, e).state, ticket).Some?
    ensures PageOf(s, ticket) == PageOf(Apply(s, e).state, ticket)
  {
    PageCarried(s, e, ticket);
  }

  lemma StepScope(s: State, e: Event, ticket: string)
    requires !(e.Request? && e.ticket == ticket) && ScopeOf(Apply(s, e).state, ticket).Some?
    ensures ScopeOf(s, ticket) == ScopeOf(Apply(s, e).state, ticket)
  {
    TicketCarried(s, e, ticket);
  }

  /** The page shown at `m` records the revision that its scope then has. */
  lemma ShownRevision(s: State, e: Event)
    requires e.Prepare? && Apply(s, e).fact.Some?
    ensures var t := Apply(s, e).state;
      && e.ticket in t.pending && e.ticket in s.pending && t.pending[e.ticket].scope == s.pending[e.ticket].scope
      && e.ticket in t.confirmations
      && t.confirmations[e.ticket].revision == Revision(t, t.pending[e.ticket].scope)
  {
    ShownExactly(s, e);
    PruneTickets(s, e.clock.enter, e.ticket);
  }

  lemma ConfirmedRevision(s: State, e: Event)
    requires e.Approve? && e.confirmer.Some? && Apply(s, e).fact.Some?
    ensures e.ticket in s.confirmations && e.ticket in s.pending && Apply(s, e).fact.value.scope == s.pending[e.ticket].scope
    ensures s.confirmations[e.ticket].revision == Revision(Prune(s, e.clock.enter), s.pending[e.ticket].scope)
  {
    PublishedExactly(s, e);
  }

  /** One call of a run leads from one state to the next. */
  lemma {:induction false} StateStep(es: seq<Event>, i: nat)
    requires Run(es).Some? && i < |es|
    ensures StateAt(es, i + 1) == Apply(StateAt(es, i), es[i]).state && Run(es[..i + 1]).Some?
  {
    if i + 1 < |es| {
      StateStep(es[..|es| - 1], i);
      assert es[..|es| - 1][..i + 1] == es[..i + 1] && es[..|es| - 1][..i] == es[..i];
    } else {
      assert es[..i + 1] == es && es[..i] == es[..|es| - 1];
    }
  }

  lemma {:induction false} RunPositive(es: seq<Event>)
    requires Run(es).Some?
    ensures Positive(Run(es).value.state)
  {
    if es != [] {
      RunPositive(es[..|es| - 1]);
      StepPositive(Run(es[..|es| - 1]).value.state, es[|es| - 1]);
    }
  }

  lemma StepPositive(s: State, e: Event)
    requires Positive(s)
    ensures Positive(Apply(s, e).state)
  {
    StepRevision(s, e, Scope("", 0, "", ""));
  }

  lemma {:induction false} StatePositive(es: seq<Event>, i: nat)
    requires i <= |es|
    ensures Positive(StateAt(es, i))
  {
    if Run(es[..i]).Some? { RunPositive(es[..i]); }
  }

  lemma {:induction false} StepMarkAt(es: seq<Event>, i: nat, scope: Scope)
    requires Run(es).Some? && i < |es|
    ensures var m := MarkOf(StateAt(es, i), es[i], scope);
      MarkOk(Revision(StateAt(es, i), scope), m) && m.after == Revision(StateAt(es, i + 1), scope)
  {
    StatePositive(es, i);
    StateStep(es, i);
    StepMark(StateAt(es, i), es[i], scope);
  }

  /** Successive revisions and the marks between them. */
  ghost predicate Trace(revisions: seq<nat>, marks: seq<Mark>) {
    && |revisions| == |marks| + 1
    && forall i :: 0 <= i < |marks| ==> MarkOk(revisions[i], marks[i]) && marks[i].after == revisions[i + 1]
  }

  /** The revisions of a scope along a run. */
  lemma {:induction false} RunTrace(es: seq<Event>, scope: Scope) returns (revisions: seq<nat>, marks: seq<Mark>)
    requires Run(es).Some?
    ensures |marks| == |es| && Trace(revisions, marks)
    ensures forall i :: 0 <= i <= |es| ==> revisions[i] == Revision(StateAt(es, i), scope)
    ensures forall i :: 0 <= i < |es| ==> marks[i] == MarkOf(StateAt(es, i), es[i], scope)
  {
    revisions := seq(|es| + 1, i requires 0 <= i <= |es| => Revision(StateAt(es, i), scope));
    marks := seq(|es|, i requires 0 <= i < |es| => MarkOf(StateAt(es, i), es[i], scope));
    forall i | 0 <= i < |es| ensures MarkOk(revisions[i], marks[i]) && marks[i].after == revisions[i + 1] {
      StepMarkAt(es, i, scope);
    }
  }

  lemma {:induction false} SliceMarks(revisions: seq<nat>, marks: seq<Mark>, a: nat, n: nat)
    requires Trace(revisions, marks) && a <= n <= |marks|
    ensures Marks(revisions[a], marks[a..n]) && LastRevision(revisions[a], marks[a..n]) == revisions[n]
  {
    if a < n {
      SliceMarks(revisions, marks, a, n - 1);
      assert marks[a..n][..n - a - 1] == marks[a..n - 1];
    }
  }

  /** Between two points with the same revision nothing was published exactly when nothing lapsed. */
  lemma TraceBetween(revisions: seq<nat>, marks: seq<Mark>, a: nat, n: nat, lapsedAtEnd: bool)
    requires Trace(revisions, marks) && a <= n <= |marks| && (lapsedAtEnd ==> revisions[n] >= 1)
    requires revisions[a] == if lapsedAtEnd then 0 else revisions[n]
    ensures (forall j :: a <= j < n ==> !marks[j].published) <==> (forall j :: a <= j < n ==> !marks[j].lapsed) && !lapsedAtEnd
  {
    var slice := marks[a..n];
    SliceMarks(revisions, marks, a, n);
    SameRevisionExactly(revisions[a], slice, lapsedAtEnd);
    assert forall j :: a <= j < n ==> marks[j] == slice[j - a];
    assert forall i :: 0 <= i < |slice| ==> slice[i] == marks[a + i];
  }

  lemma {:induction false} PageKept(es: seq<Event>, a: nat, n: nat, ticket: string)
    requires Run(es).Some? && a <= n <= |es| && PageOf(StateAt(es, n), ticket).Some?
    requires forall j :: a <= j < n ==> !Shows(StateAt(es, j), es[j], ticket)
    ensures PageOf(StateAt(es, a), ticket) == PageOf(StateAt(es, n), ticket)
  {
    if a < n {
      StateStep(es, n - 1);
      StepPage(StateAt(es, n - 1), es[n - 1], ticket);
      PageKept(es, a, n - 1, ticket);
    }
  }

  lemma {:induction false} ScopeKept(es: seq<Event>, a: nat, n: nat, ticket: string)
    requires Run(es).Some? && a <= n <= |es| && ScopeOf(StateAt(es, n), ticket).Some?
    requires forall j :: a <= j < n ==> !(es[j].Request? && es[j].ticket == ticket)
    ensures ScopeOf(StateAt(es, a), ticket) == ScopeOf(StateAt(es, n), ticket)
  {
    if a < n {
      StateStep(es, n - 1);
      StepScope(StateAt(es, n - 1), es[n - 1], ticket);
      ScopeKept(es, a, n - 1, ticket);
    }
  }

  lemma {:induction false} RunPrefix(es: seq<Event>, i: nat)
    requires Run(es).Some? && i <= |es|
    ensures Run(es[..i]).Some?
  {
    if i < |es| {
      RunPrefix(es[..|es| - 1], i);
      assert es[..|es| - 1][..i] == es[..i];
    } else {
      assert es[..i] == es;
    }
  }

  lemma {:induction false} IssuedStays(es: seq<Event>, m: nat, i: nat, ticket: string)
    requires Run(es).Some? && m <= i <= |es| && Run(es[..m]).Some? && ticket in Run(es[..m]).value.issued
    ensures Run(es[..i]).Some? && ticket in Run(es[..i]).value.issued
  {
    RunPrefix(es, i);
    if m < i {
      IssuedStays(es, m, i - 1, ticket);
      assert es[..i][..i - 1] == es[..i - 1];
    }
  }

  /** A ticket that is pending is never requested again. */
  lemma {:induction false} RequestedOnce(es: seq<Event>, m: nat, j: nat, ticket: string)
    requires Run(es).Some? && m < j < |es| && ticket in StateAt(es, m).pending
    ensures !(es[j].Request? && es[j].ticket == ticket)
  {
    RunPrefix(es, m);
    RunKeeps(es[..m]);
    assert TicketOk(Run(es[..m]).value, ticket);
    IssuedStays(es, m, j, ticket);
    RunPrefix(es, j + 1);
    assert es[..j + 1][..j] == es[..j];
  }

  /** The page with which the browser confirms records the revision its scope had right after it was shown. */
  lemma {:induction false} PageRevision(es: seq<Event>, m: nat, n: nat, ticket: string) returns (scope: Scope)
    requires Run(es).Some? && m < n < |es|
    requires Shows(StateAt(es, m), es[m], ticket) && forall j :: m < j < n ==> !Shows(StateAt(es, j), es[j], ticket)
    requires forall j :: m < j < n ==> !(es[j].Request? && es[j].ticket == ticket)
    requires es[n].Approve? && es[n].ticket == ticket && es[n].confirmer.Some? && Apply(StateAt(es, n), es[n]).fact.Some?
    ensures Publishes(StateAt(es, n), es[n], scope)
    ensures Revision(Prune(StateAt(es, n), es[n].clock.enter), scope) == Revision(StateAt(es, m + 1), scope)
  {
    var shown, s := StateAt(es, m + 1), StateAt(es, n);
    StateStep(es, m);
    ShownRevision(StateAt(es, m), es[m]);
    ConfirmedRevision(s, es[n]);
    scope := s.pending[ticket].scope;
    PageKept(es, m + 1, n, ticket);
    ScopeKept(es, m + 1, n, ticket);
    assert PageOf(shown, ticket) == PageOf(s, ticket) && ScopeOf(shown, ticket) == ScopeOf(s, ticket);
  }

  /**
  The revision test, exactly.  In every run, let a page be shown for a ticket at call
  `m`, no other page for it until call `n`, and let call `n` publish it from a browser.
  No other approval of its scope was published in between exactly when the scope's
  authorization did not lapse in between.
  */
  lemma {:induction false} RevisionTestExactly(es: seq<Event>, m: nat, n: nat, ticket: string) returns (scope: Scope)
    requires Run(es).Some? && m < n < |es|
    requires Shows(StateAt(es, m), es[m], ticket) && forall j :: m < j < n ==> !Shows(StateAt(es, j), es[j], ticket)
    requires es[n].Approve? && es[n].ticket == ticket && es[n].confirmer.Some? && Apply(StateAt(es, n), es[n]).fact.Some?
    ensures Publishes(StateAt(es, n), es[n], scope)
    ensures (forall j :: m < j < n ==> !Publishes(StateAt(es, j), es[j], scope)) <==>
      (forall j :: m < j < n ==> !Lapses(StateAt(es, j), es[j], scope)) && !LapsesOnEntry(StateAt(es, n), es[n], scope)
  {
    ShownExactly(StateAt(es, m), es[m]);
    forall j | m < j < n ensures !(es[j].Request? && es[j].ticket == ticket) { RequestedOnce(es, m, j, ticket); }
    scope := PageRevision(es, m, n, ticket);
    TestBetween(es, m, n, scope);
  }

  lemma {:induction false} TestBetween(es: seq<Event>, m: nat, n: nat, scope: Scope)
    requires Run(es).Some? && m < n < |es| && es[n].Approve?
    requires Revision(Prune(StateAt(es, n), es[n].clock.enter), scope) == Revision(StateAt(es, m + 1), scope)
    ensures (forall j :: m < j < n ==> !Publishes(StateAt(es, j), es[j], scope)) <==>
      (forall j :: m < j < n ==> !Lapses(StateAt(es, j), es[j], scope)) && !LapsesOnEntry(StateAt(es, n), es[n], scope)
  {
    var revisions, marks := RunTrace(es, scope);
    StatePositive(es, n);
    EntryRevision(StateAt(es, n), es[n], scope);
    TraceBetween(revisions, marks, m + 1, n, LapsesOnEntry(StateAt(es, n), es[n], scope));
    MarksBetween(es, m, n, scope, marks);
  }

  lemma MarksBetween(es: seq<Event>, m: nat, n: nat, scope: Scope, marks: seq<Mark>)
    requires m < n <= |es| == |marks|
    requires forall i :: 0 <= i < |es| ==> marks[i] == MarkOf(StateAt(es, i), es[i], scope)
    ensures (forall j :: m + 1 <= j < n ==> !marks[j].published) <==> (forall j :: m < j < n ==> !Publishes(StateAt(es, j), es[j], scope))
    ensures (forall j :: m + 1 <= j < n ==> !marks[j].lapsed) <==> (forall j :: m < j < n ==> !Lapses(StateAt(es, j), es[j], scope))
  {
    forall j | m < j < n
      ensures marks[j].published <==> Publishes(StateAt(es, j), es[j], scope)
      ensures marks[j].lapsed <==> Lapses(StateAt(es, j), es[j], scope)
    {
      assert marks[j] == MarkOf(StateAt(es, j), es[j], scope);
    }
  }

  // ---------------------------------------------------------------- a page that outlives another approval

  const KEY := Scope("w", 1, "host", "f")
  const OFFER := Auth("", [Item("a", 100.0)])

  function Now(t: real): Clock {
    Clock(t, t, t, t, t)
  }

  /** Two tickets of one scope; a page for the first; the second approved and run out; then the first confirmed. */
  const LAPSED_RUN: seq<Event> := [
    Request("t1", KEY, 0.0),
    Request("t2", KEY, 0.0),
    Prepare("t1", "b", 60, OFFER, Now(1.0)),
    Approve("t2", None, 60, OFFER, Now(2.0)),
    Approve("t1", Some("b"), 60, OFFER, Now(200.0))]

  lemma OneDeadline(started: real)
    ensures Deadlines([], OFFER.grants, started, 60.0) == [started + 120.0]
  {
    var items := OFFER.grants;
    assert Fresh([], items, 0);
    assert FreshItems([], items) == {0};
    assert LatestAmong(items, {0}, 0) == None;
    assert LatestFresh([], items, 1) == Some(100.0);
  }

  /** The offer is acceptable wherever the scope has no authorization. */
  lemma OfferAcceptable(s: State, t: real)
    requires KEY !in Prune(s, t).active
    ensures Acceptable(s, KEY, OFFER, 60, Now(t))
  {
    OneDeadline(t);
    var deadlines := Deadlines(Prior(Previous(Prune(s, t), KEY)), OFFER.grants, t, 60.0);
    assert deadlines[0] > t;
  }

  lemma FirstRequest(s: State, ticket: string)
    requires s.active == map[] && s.confirmations == map[] && ticket !in s.pending
    requires forall t :: t in s.pending ==> s.pending[t] == Ticket(KEY, 1800.0, 0)
    requires |s.pending| <= 1
    ensures var o := Apply(s, Request(ticket, KEY, 0.0));
      o.state == State(s.pending[ticket := Ticket(KEY, 1800.0, 0)], map[], map[])
  {
    var p := Prune(s, 0.0);
    assert p.pending == s.pending && p.active == map[] && p.confirmations == map[];
    SubsetSize(TicketsOf(p.pending, "w"), s.pending.Keys);
  }

  /** The states of the run. */
  function WithTickets(): State {
    State(map["t1" := Ticket(KEY, 1800.0, 0), "t2" := Ticket(KEY, 1800.0, 0)], map[], map[])
  }

  function WithPage(): State {
    WithTickets().(confirmations := map["t1" := Confirmation("b", OFFER, 60, 0)])
  }

  function WithApproval(): State {
    State(map["t1" := Ticket(KEY, 1800.0, 0)], map[KEY := Entry(OFFER, [122.0], 1)],
          map["t1" := Confirmation("b", OFFER, 60, 0)])
  }

  lemma PageShown()
    ensures Apply(WithTickets(), LAPSED_RUN[2]).state == WithPage() && Apply(WithTickets(), LAPSED_RUN[2]).fact.Some?
  {
    var s := WithTickets();
    assert Prune(s, 1.0) == s;
    OfferAcceptable(s, 1.0);
    ShownExactly(s, LAPSED_RUN[2]);
  }

  lemma OtherApproved()
    ensures Apply(WithPage(), LAPSED_RUN[3]).state == WithApproval() && Publishes(WithPage(), LAPSED_RUN[3], KEY)
  {
    var s := WithPage();
    assert Prune(s, 2.0) == s;
    OfferAcceptable(s, 2.0);
    PublishedExactly(s, LAPSED_RUN[3]);
    OneDeadline(2.0);
    var entry := Entry(OFFER, [122.0], 1);
    assert Candidate(s, KEY, OFFER, 60, 2.0, 2.0) == Ok(entry);
    var published := State(s.pending - {"t2"}, s.active[KEY := entry], s.confirmations - {"t2"});
    assert published == WithApproval();
    KeepsEntry(2.0);
    assert Prune(published, 2.0) == published;
  }

  lemma KeepsEntry(now: real)
    requires now < 122.0
    ensures PruneEntry(Entry(OFFER, [122.0], 1), now) == Some(Entry(OFFER, [122.0], 1))
  {
    var timed := Zip(OFFER.grants, [122.0]);
    assert timed == [Timed(Item("a", 100.0), 122.0)];
    assert timed[..0] == [];
    assert Alive(timed, now) == timed;
  }

  lemma LosesEntry()
    ensures PruneEntry(Entry(OFFER, [122.0], 1), 200.0) == None
  {
    var timed := Zip(OFFER.grants, [122.0]);
    assert timed == [Timed(Item("a", 100.0), 122.0)];
    assert timed[..0] == [];
    assert Alive(timed, 200.0) == [];
  }

  lemma PageStillConfirms()
    ensures Publishes(WithApproval(), LAPSED_RUN[4], KEY)
  {
    var s := WithApproval();
    LosesEntry();
    assert KEY !in Prune(s, 200.0).active;
    OfferAcceptable(s, 200.0);
    assert PageMatches(s, LAPSED_RUN[4], KEY);
    PublishedExactly(s, LAPSED_RUN[4]);
  }

  lemma {:induction false} RunOne(es: seq<Event>, e: Event, w: World)
    requires Run(es) == Some(w) && Enabled(w, e)
    ensures Run(es + [e]) == Some(Next(w, e))
  {
    assert (es + [e])[..|es|] == es;
  }

  /**
  Without the condition the test can be passed: a page is confirmed although another
  approval of its scope was published after it was shown, because that one has run
  out and the scope's revisions start again.
  */
  lemma LapsedPageConfirmed()
    ensures Run(LAPSED_RUN).Some?
    ensures Shows(StateAt(LAPSED_RUN, 2), LAPSED_RUN[2], "t1")
    ensures Publishes(StateAt(LAPSED_RUN, 3), LAPSED_RUN[3], KEY) && Publishes(StateAt(LAPSED_RUN, 4), LAPSED_RUN[4], KEY)
  {
    var es := LAPSED_RUN;
    var w2 := ReachTickets();
    PageShown();
    RunOne(es[..2], es[2], w2);
    var w3 := Next(w2, es[2]);
    assert es[..2] + [es[2]] == es[..3] && w3.state == WithPage();
    OtherApproved();
    RunOne(es[..3], es[3], w3);
    var w4 := Next(w3, es[3]);
    assert es[..3] + [es[3]] == es[..4] && w4.state == WithApproval();
    PageStillConfirms();
    RunOne(es[..4], es[4], w4);
    assert es[..4] + [es[4]] == es;
  }

  lemma ReachTickets() returns (w: World)
    ensures Run(LAPSED_RUN[..2]) == Some(w) && w.state == WithTickets()
  {
    var es := LAPSED_RUN;
    FirstRequest(INITIAL, "t1");
    RunOne([], es[0], World(INITIAL, [], {}));
    var w1 := Next(World(INITIAL, [], {}), es[0]);
    assert [] + [es[0]] == es[..1] && Run(es[..1]) == Some(w1);
    FirstRequest(w1.state, "t2");
    RunOne(es[..1], es[1], w1);
    w := Next(w1, es[1]);
    assert es[..1] + [es[1]] == es[..2] && w.state == WithTickets();
  }
}
