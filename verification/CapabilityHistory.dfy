/** Whole runs of capability approvals. */
module CapabilityHistory {
  import opened Prelude
  import opened ScopePaths
  import opened CapabilityGrants

  // ---------------------------------------------------------------- what one call changes

  ghost predicate TicketCarried(s: State, o: Outcome, t: string) {
    && t in s.pending && t in o.state.pending && o.state.pending[t].workspace == s.pending[t].workspace
    && !Resets(o.fact, s.pending[t].workspace)
    && o.state.pending[t].attempts == s.pending[t].attempts + (if o.fact == Wrong(t) then 1 else 0)
    && (o.fact == Wrong(t) ==> o.state.pending[t].attempts < MAX_ATTEMPTS)
    && (PreparedNow(o, t) || (!(o.fact.Prepared? && o.fact.ticket == t) && SameConfirmation(s.pending[t], o.state.pending[t])))
  }

  /** This call prepared the confirmation that the ticket now has. */
  ghost predicate PreparedNow(o: Outcome, t: string)
    requires t in o.state.pending
  {
    var item := o.state.pending[t];
    item.cookie.Some? && "/" <= item.path && o.fact == Prepared(t, item.cookie.value, item.path, item.seconds)
  }

  predicate SameConfirmation(a: Pending, b: Pending) {
    a.cookie == b.cookie && a.path == b.path && a.seconds == b.seconds
  }

  ghost predicate TicketAsked(e: Event, o: Outcome, t: string) {
    && e.Ask? && e.ticket == t && t in o.state.pending
    && o.fact == Asked(t, o.state.pending[t].workspace) && o.state.pending[t].attempts == 0
    && o.state.pending[t].cookie.None? && RootedOrNone(o.state.pending[t].path)
  }

  lemma TicketOriginsGrant(s: State, e: Event, t: string)
    requires e.Grant? && t in DoGrant(s, e).state.pending
    ensures TicketCarried(s, DoGrant(s, e), t)
  {}

  lemma TicketOriginsAuthenticate(s: State, e: Event, t: string)
    requires e.Authenticate? && t in DoAuthenticate(s, e).state.pending
    ensures TicketCarried(s, DoAuthenticate(s, e), t)
  {}

  lemma TicketOrigins(s: State, e: Event, t: string)
    requires t in Apply(s, e).state.pending
    ensures TicketAsked(e, Apply(s, e), t) || TicketCarried(s, Apply(s, e), t)
  {
    match e
    case Ask(_, _, _, _, _, _, _, _) => TicketOriginsAsk(s, e, t);
    case Grant(_, _, _, _, _) => TicketOriginsGrant(s, e, t);
    case Authenticate(_, _, _, _) => TicketOriginsAuthenticate(s, e, t);
    case Prepare(_, _, _, _, _, _) => TicketOriginsPrepare(s, e, t);
    case _ =>
  }

  lemma TicketOriginsAsk(s: State, e: Event, t: string)
    requires e.Ask? && t in DoAsk(s, e).state.pending
    ensures TicketAsked(e, DoAsk(s, e), t) || TicketCarried(s, DoAsk(s, e), t)
  {}

  lemma TicketOriginsPrepare(s: State, e: Event, t: string)
    requires e.Prepare? && t in DoPrepare(s, e).state.pending
    ensures TicketCarried(s, DoPrepare(s, e), t)
  {}

  ghost predicate GrantCarried(s: State, o: Outcome, k: GrantKey) {
    k in s.active && k in o.state.active && !Resets(o.fact, k.workspace) && !(o.fact.Granted? && o.fact.key == k)
  }

  ghost predicate GrantMade(s: State, o: Outcome, k: GrantKey) {
    && o.fact.Granted? && o.fact.key == k && o.fact.ticket in s.pending
    && s.pending[o.fact.ticket].workspace == k.workspace && s.pending[o.fact.ticket].path == k.path
  }

  lemma GrantOrigins(s: State, e: Event, k: GrantKey)
    requires k in Apply(s, e).state.active
    ensures GrantCarried(s, Apply(s, e), k) || GrantMade(s, Apply(s, e), k)
  {
    match e
    case Grant(_, _, _, _, _) => GrantOriginsGrant(s, e, k);
    case Confirm(_, _, _) => GrantOriginsConfirm(s, e, k);
    case _ =>
  }

  lemma GrantOriginsGrant(s: State, e: Event, k: GrantKey)
    requires e.Grant? && k in DoGrant(s, e).state.active
    ensures GrantCarried(s, DoGrant(s, e), k) || GrantMade(s, DoGrant(s, e), k)
  {}

  lemma GrantOriginsConfirm(s: State, e: Event, k: GrantKey)
    requires e.Confirm? && k in DoConfirm(s, e).state.active
    ensures GrantCarried(s, DoConfirm(s, e), k) || GrantMade(s, DoConfirm(s, e), k)
  {}

  lemma WrongOrigins(s: State, e: Event, t: string)
    requires Apply(s, e).fact == Wrong(t)
    ensures t in s.pending
  {}

  /** Tickets of a Token only disappear, except that an admitted request adds one below the limit. */
  lemma TicketsGrow(s: State, e: Event, workspace: string)
    requires |TicketsOf(s.pending, workspace)| <= MAX_PENDING
    ensures |TicketsOf(Apply(s, e).state.pending, workspace)| <= MAX_PENDING
  {
    var before, after := TicketsOf(s.pending, workspace), TicketsOf(Apply(s, e).state.pending, workspace);
    if e.Ask? {
      AskAddsOne(s, e, workspace);
    } else {
      forall t | t in after ensures t in before { TicketOrigins(s, e, t); }
      SubsetSize(after, before);
    }
  }

  lemma AskAddsOne(s: State, e: Event, workspace: string)
    requires e.Ask? && |TicketsOf(s.pending, workspace)| <= MAX_PENDING
    ensures |TicketsOf(DoAsk(s, e).state.pending, workspace)| <= MAX_PENDING
  {
    var before, after := TicketsOf(s.pending, workspace), TicketsOf(DoAsk(s, e).state.pending, workspace);
    var live := TicketsOf(Expire(s, e.now).pending, workspace);
    SubsetSize(live, before);
    if DoAsk(s, e).refusal.None? && e.workspace == workspace {
      SubsetSize(after, live + {e.ticket});
    } else {
      SubsetSize(after, before);
    }
  }

  // ---------------------------------------------------------------- every call keeps the invariant

  lemma Appended(log: seq<Fact>, f: Fact, t: string, workspace: string)
    ensures AskedSinceReset(log + [f], t, workspace) <==>
      f == Asked(t, workspace) || (!Resets(f, workspace) && AskedSinceReset(log, t, workspace))
    ensures WrongCount(log + [f], t) == WrongCount(log, t) + if f == Wrong(t) then 1 else 0
    ensures LastPrepared(log + [f], t) == if f.Prepared? && f.ticket == t then Some(f) else LastPrepared(log, t)
  {
    assert (log + [f])[..|log|] == log;
  }

  lemma AppendedGrant(log: seq<Fact>, f: Fact, t: string, k: GrantKey)
    ensures GrantedSinceReset(log + [f], t, k) <==>
      (f.Granted? && f.ticket == t && f.key == k && AskedSinceReset(log, t, k.workspace)) || (!Resets(f, k.workspace) && GrantedSinceReset(log, t, k))
  {
    assert (log + [f])[..|log|] == log;
  }

  lemma NextKeepsTicket(w: World, e: Event, t: string)
    requires Inv(w) && Enabled(w, e) && t in Apply(w.state, e).state.pending
    ensures TicketOk(Next(w, e), t)
  {
    var o := Apply(w.state, e);
    TicketOrigins(w.state, e, t);
    Appended(w.log, o.fact, t, o.state.pending[t].workspace);
    if TicketCarried(w.state, o, t) { assert TicketOk(w, t); }
  }

  lemma NextKeepsGrant(w: World, e: Event, k: GrantKey)
    requires Inv(w) && k in Apply(w.state, e).state.active
    ensures GrantOk(Next(w, e), k)
  {
    var o := Apply(w.state, e);
    GrantOrigins(w.state, e, k);
    if GrantMade(w.state, o, k) {
      assert TicketOk(w, o.fact.ticket);
      AppendedGrant(w.log, o.fact, o.fact.ticket, k);
    } else {
      assert GrantOk(w, k);
      AppendedGrant(w.log, o.fact, w.origin[k], k);
    }
  }

  lemma NextKeepsCounts(w: World, e: Event, t: string)
    requires Inv(w) && Enabled(w, e)
    ensures WrongCount(Next(w, e).log, t) <= MAX_ATTEMPTS
    ensures t !in Next(w, e).issued ==> WrongCount(Next(w, e).log, t) == 0
  {
    var o := Apply(w.state, e);
    Appended(w.log, o.fact, t, "");
    if o.fact == Wrong(t) {
      WrongOrigins(w.state, e, t);
      assert TicketOk(w, t);
    }
  }

  /** A confirmation grants what its ticket holds, to the browser it holds. */
  lemma ConfirmOrigins(s: State, e: Event)
    requires Apply(s, e).fact.Granted? && Apply(s, e).fact.proof.ByBrowser?
    ensures var f := Apply(s, e).fact;
      && f.ticket in s.pending && s.pending[f.ticket].cookie == Some(f.proof.cookie)
      && s.pending[f.ticket].path == f.key.path && s.pending[f.ticket].seconds == f.seconds
  {}

  /** A password is accepted only if it is the stored one. */
  lemma PasswordOrigins(s: State, e: Event)
    ensures var f := Apply(s, e).fact;
      && (f.Granted? && f.proof.ByPassword? ==>
            f.key.workspace in s.passwords && s.passwords[f.key.workspace] == Pbkdf2(f.proof.text))
      && (f.Authenticated? ==> f.workspace in s.passwords && s.passwords[f.workspace] == Pbkdf2(f.password))
  {}

  lemma NextKeepsFacts(w: World, e: Event, i: nat)
    requires Inv(w) && i <= |w.log|
    ensures FactOk(Next(w, e).log, i)
  {
    var f := Apply(w.state, e).fact;
    assert (w.log + [f])[..i] == w.log[..i];
    if i < |w.log| {
      assert FactOk(w.log, i);
    } else {
      assert w.log[..i] == w.log;
      NewFactOk(w, e);
    }
  }

  lemma NewFactOk(w: World, e: Event)
    requires Inv(w)
    ensures match Apply(w.state, e).fact
      case Granted(ticket, key, seconds, ByBrowser(cookie)) =>
        LastPrepared(w.log, ticket) == Some(Prepared(ticket, cookie, key.path, seconds))
      case Granted(_, key, _, ByPassword(text)) => CurrentPassword(w.log, key.workspace) == Some(text)
      case Authenticated(_, workspace, text) => CurrentPassword(w.log, workspace) == Some(text)
      case _ => true
  {
    var f := Apply(w.state, e).fact;
    if f.Granted? && f.proof.ByBrowser? {
      ConfirmOrigins(w.state, e);
      assert TicketOk(w, f.ticket);
    } else if f.Granted? || f.Authenticated? {
      PasswordOrigins(w.state, e);
      assert PasswordStored(w, if f.Granted? then f.key.workspace else f.workspace);
    }
  }

  /** Stored passwords change exactly as the facts say. */
  lemma PasswordChanges(s: State, e: Event, workspace: string)
    ensures var o := Apply(s, e);
      if Resets(o.fact, workspace) && o.fact.change.SetTo? then
        && workspace in o.state.passwords && o.state.passwords[workspace] == Pbkdf2(o.fact.change.text)
        && |o.fact.change.text| <= 1024
      else if Resets(o.fact, workspace) && o.fact.change.Removed? then workspace !in o.state.passwords
      else
        && (workspace in o.state.passwords <==> workspace in s.passwords)
        && (workspace in s.passwords ==> o.state.passwords[workspace] == s.passwords[workspace])
  {}

  lemma NextKeepsPassword(w: World, e: Event, workspace: string)
    requires PasswordStored(w, workspace)
    ensures PasswordStored(Next(w, e), workspace)
  {
    PasswordChanges(w.state, e, workspace);
    assert (w.log + [Apply(w.state, e).fact])[..|w.log|] == w.log;
  }

  lemma NextKeeps(w: World, e: Event)
    requires Inv(w) && Enabled(w, e)
    ensures Inv(Next(w, e))
  {
    var n := Next(w, e);
    forall t | t in n.state.pending ensures TicketOk(n, t) { NextKeepsTicket(w, e, t); }
    forall k | k in n.state.active ensures GrantOk(n, k) { NextKeepsGrant(w, e, k); }
    forall i | 0 <= i < |n.log| ensures FactOk(n.log, i) { NextKeepsFacts(w, e, i); }
    forall workspace ensures PasswordStored(n, workspace) { NextKeepsPassword(w, e, workspace); }
    forall t ensures WrongCount(n.log, t) <= MAX_ATTEMPTS && (t !in n.issued ==> WrongCount(n.log, t) == 0) {
      NextKeepsCounts(w, e, t);
    }
    forall workspace ensures |TicketsOf(n.state.pending, workspace)| <= MAX_PENDING {
      TicketsGrow(w.state, e, workspace);
    }
  }

  lemma {:induction false} RunKeeps(es: seq<Event>)
    requires Run(es).Some?
    ensures Inv(Run(es).value)
  {
    if es != [] {
      RunKeeps(es[..|es| - 1]);
      NextKeeps(Run(es[..|es| - 1]).value, es[|es| - 1]);
    }
  }

  // ---------------------------------------------------------------- theorems

  /** In every run, a live ticket was asked for after its Token's last password change or revocation. */
  lemma TicketsOutliveNoReset(es: seq<Event>, t: string)
    requires Run(es).Some? && t in Run(es).value.state.pending
    ensures AskedSinceReset(Run(es).value.log, t, Run(es).value.state.pending[t].workspace)
  {
    RunKeeps(es);
    assert TicketOk(Run(es).value, t);
  }

  /** In every run, an active grant was made from such a ticket, with no reset of its Token at any point since the request. */
  lemma GrantsOutliveNoReset(es: seq<Event>, k: GrantKey) returns (ticket: string)
    requires Run(es).Some? && k in Run(es).value.state.active
    ensures GrantedSinceReset(Run(es).value.log, ticket, k)
  {
    RunKeeps(es);
    ticket := Run(es).value.origin[k];
    assert GrantOk(Run(es).value, k);
  }

  /** In every run, at most five wrong passwords are ever checked for a ticket, over both routes together. */
  lemma FewWrongPasswords(es: seq<Event>, t: string)
    requires Run(es).Some?
    ensures WrongCount(Run(es).value.log, t) <= 5
  {
    RunKeeps(es);
  }

  /**
  Confirmed means prepared: in every run, what a browser confirms for a ticket is
  the path and the duration last prepared for that ticket, and for that browser.
  */
  lemma ConfirmedMeansPrepared(es: seq<Event>, i: nat)
    requires Run(es).Some? && i < |Run(es).value.log|
    requires Run(es).value.log[i].Granted? && Run(es).value.log[i].proof.ByBrowser?
    ensures var log := Run(es).value.log;
      LastPrepared(log[..i], log[i].ticket)
        == Some(Prepared(log[i].ticket, log[i].proof.cookie, log[i].key.path, log[i].seconds))
  {
    RunKeeps(es);
    assert FactOk(Run(es).value.log, i);
  }

  /**
  In every run, a grant given on a password, and a password accepted for a later
  confirmation, presented the password that was set last for that Token.
  */
  lemma PasswordsAreChecked(es: seq<Event>, i: nat)
    requires Run(es).Some? && i < |Run(es).value.log|
    ensures var log := Run(es).value.log;
      && (log[i].Granted? && log[i].proof.ByPassword? ==>
            CurrentPassword(log[..i], log[i].key.workspace) == Some(log[i].proof.text))
      && (log[i].Authenticated? ==> CurrentPassword(log[..i], log[i].workspace) == Some(log[i].password))
  {
    RunKeeps(es);
    assert FactOk(Run(es).value.log, i);
  }

  /** The ticket is pending, was not expired at the time, and the presented text is its Token's current password. */
  ghost predicate RightPassword(w: World, ticket: string, password: string, now: real) {
    && ticket in w.state.pending && w.state.pending[ticket].deadline > now
    && CurrentPassword(w.log, w.state.pending[ticket].workspace) == Some(password)
  }

  /** The ticket is live, and the text is not its Token's current password: the attempt counts as wrong. */
  ghost predicate WrongPasswordFor(w: World, ticket: string, password: string, now: real) {
    && ticket in w.state.pending && w.state.pending[ticket].deadline > now
    && CurrentPassword(w.log, w.state.pending[ticket].workspace) != Some(password)
  }

  /** Revoking one grant takes away that grant and nothing else. */
  lemma RevokedExactly(s: State, key: GrantKey)
    ensures var t := Apply(s, Revoke(key)).state;
      && (forall k :: k in t.active <==> k in s.active && k != key) && (forall k :: k in t.active ==> t.active[k] == s.active[k])
      && t.pending == s.pending && t.passwords == s.passwords
  {}

  /**
  In every run, the direct approval is granted exactly for the current password, a
  ticket that does not expire during the call, and one minute to one day.
  */
  lemma GrantedExactly(es: seq<Event>, e: Event)
    requires Run(es).Some? && e.Grant?
    ensures var w := Run(es).value;
      Apply(w.state, e).fact.Granted? <==>
      && 60 <= e.seconds <= 86400 && RightPassword(w, e.ticket, e.password, e.now)
      && w.state.pending[e.ticket].deadline > e.later
    ensures var w := Run(es).value;
      Apply(w.state, e).fact == Wrong(e.ticket) <==> 60 <= e.seconds <= 86400 && WrongPasswordFor(w, e.ticket, e.password, e.now)
    ensures var w := Run(es).value; var o := Apply(w.state, e);
      o.fact.Granted? ==>
      && var item := w.state.pending[e.ticket];
         var k := GrantKey(item.workspace, item.conversation, item.target, item.capability, item.path);
      k in o.state.active && o.state.active[k] == e.later + e.seconds as real && e.ticket !in o.state.pending
  {
    RunKeeps(es);
    var w := Run(es).value;
    if e.ticket in w.state.pending {
      assert TicketOk(w, e.ticket) && PasswordStored(w, w.state.pending[e.ticket].workspace);
    }
  }

  /** In every run, a password is accepted for a confirmation exactly for a file ticket in the same way. */
  lemma AuthenticatedExactly(es: seq<Event>, e: Event)
    requires Run(es).Some? && e.Authenticate?
    ensures var w := Run(es).value;
      Apply(w.state, e).refusal.None? <==>
      && 60 <= e.seconds <= 86400 && RightPassword(w, e.ticket, e.password, e.now)
      && w.state.pending[e.ticket].path != ""
      && (w.state.pending[e.ticket].capability == FilesRead || w.state.pending[e.ticket].capability == FilesWrite)
    ensures var w := Run(es).value;
      Apply(w.state, e).fact == Wrong(e.ticket) <==>
      && 60 <= e.seconds <= 86400 && WrongPasswordFor(w, e.ticket, e.password, e.now)
      && w.state.pending[e.ticket].path != ""
      && (w.state.pending[e.ticket].capability == FilesRead || w.state.pending[e.ticket].capability == FilesWrite)
  {
    RunKeeps(es);
    var w := Run(es).value;
    if e.ticket in w.state.pending {
      assert TicketOk(w, e.ticket) && PasswordStored(w, w.state.pending[e.ticket].workspace);
    }
  }

  /** A confirmation is granted exactly to the browser prepared for a live ticket, for what was prepared. */
  lemma ConfirmedExactly(s: State, e: Event)
    requires e.Confirm?
    ensures Apply(s, e).fact.Granted? <==>
      e.ticket in s.pending && s.pending[e.ticket].deadline > e.now && s.pending[e.ticket].cookie == Some(e.cookie)
    ensures Apply(s, e).fact.Granted? ==>
      && var item, t := s.pending[e.ticket], Apply(s, e).state;
         var k := GrantKey(item.workspace, item.conversation, item.target, item.capability, item.path);
      k in t.active && t.active[k] == e.now + item.seconds as real && e.ticket !in t.pending
  {}

  /** A request is admitted exactly below the quota, and then waits for half an hour. */
  lemma AskedExactly(s: State, e: Event)
    requires e.Ask?
    ensures Apply(s, e).refusal.None? <==>
      && e.wellFormed
      && (e.path != "" ==> (e.capability == FilesRead || e.capability == FilesWrite) && !Unanswerable(e.path))
      && |set t | t in s.pending && s.pending[t].deadline > e.now && s.pending[t].workspace == e.workspace| < 32
    ensures Apply(s, e).refusal.None? ==>
      && e.ticket in Apply(s, e).state.pending
      && Apply(s, e).state.pending[e.ticket]
           == Pending(e.workspace, e.conversation, e.target, e.capability, e.now + 1800.0, e.path, None, 0, 0)
  {
    assert TicketsOf(Expire(s, e.now).pending, e.workspace)
      == set t | t in s.pending && s.pending[t].deadline > e.now && s.pending[t].workspace == e.workspace;
  }

  /** A new setup link is the only live one of its Token, and lives for a quarter of an hour. */
  lemma LinkMade(s: State, link: string, workspace: string, now: real)
    ensures var t := Apply(s, MakeLink(link, workspace, now)).state;
      && link in t.links && t.links[link] == Link(workspace, now + 900.0)
      && forall l :: l in t.links && l != link ==>
           t.links[l].workspace != workspace && l in s.links && t.links[l] == s.links[l] && t.links[l].expires > now
  {}

  /** A setup link sets the password once, within a quarter of an hour, for the Token it was made for. */
  lemma LinkExactly(s: State, e: Event)
    requires e.UseLink?
    ensures Apply(s, e).refusal.None? <==>
      && e.link in s.links && s.links[e.link].expires > e.now && e.password == e.confirmation && 6 <= |e.password| <= 1024
    ensures Apply(s, e).refusal.None? ==>
      && e.link !in Apply(s, e).state.links && s.links[e.link].workspace in Apply(s, e).state.passwords
      && Apply(s, e).state.passwords[s.links[e.link].workspace] == Pbkdf2(e.password)
  {}

  /**
  In every run, the approved scopes are absolute; so for every answered path the
  longest of them is the narrowest exactly when inner ones are spelled longer.
  */
  lemma ScopesAreRooted(es: seq<Event>, workspace: string, conversation: nat, target: string, capability: Capability)
    requires Run(es).Some?
    ensures var scopes := ScopesOf(Run(es).value.state.active, workspace, conversation, target, capability);
      && Rooted(scopes)
      && (SpelledLonger(scopes) <==>
          forall path, r :: !Unanswerable(path) && Longest(scopes, path, r) ==> Narrowest(scopes, path, r))
  {
    RunKeeps(es);
    var w := Run(es).value;
    var scopes := ScopesOf(w.state.active, workspace, conversation, target, capability);
    forall s | s in scopes ensures "/" <= s {
      var k := GrantKey(workspace, conversation, target, capability, s);
      assert k in w.state.active && GrantOk(w, k);
    }
    LongestIsNarrowestExactly(scopes);
  }

  /** In every run, a Token has at most 32 pending tickets. */
  lemma FewPending(es: seq<Event>, workspace: string)
    requires Run(es).Some?
    ensures |TicketsOf(Run(es).value.state.pending, workspace)| <= 32
  {
    RunKeeps(es);
  }

  /** The Token a call works on. */
  ghost predicate WorksOn(s: State, e: Event, workspace: string) {
    match e
    case Ask(_, x, _, _, _, _, _, _) => x == workspace
    case Grant(t, _, _, _, _) => t in s.pending && s.pending[t].workspace == workspace
    case Authenticate(t, _, _, _) => t in s.pending && s.pending[t].workspace == workspace
    case Prepare(t, _, _, _, _, _) => t in s.pending && s.pending[t].workspace == workspace
    case Confirm(t, _, _) => t in s.pending && s.pending[t].workspace == workspace
    case SetPassword(x, _) => x == workspace
    case MakeLink(_, x, _) => x == workspace
    case UseLink(l, _, _, _) => l in s.links && s.links[l].workspace == workspace
    case Revoke(k) => k.workspace == workspace
    case RevokeWorkspace(x) => x == workspace
    case RemoveWorkspace(x) => x == workspace
    case Look(_) => false
  }

  /** The call reads the clock at or after `deadline`. */
  ghost predicate Expires(e: Event, deadline: real) {
    !e.SetPassword? && !e.Revoke? && !e.RevokeWorkspace? && !e.RemoveWorkspace? && e.now >= deadline
  }

  ghost predicate TicketKept(s: State, e: Event, x: string) {
    TicketKeptIn(s, Apply(s, e).state, e, x)
  }

  ghost predicate TicketKeptIn(s: State, t: State, e: Event, x: string) {
    x in s.pending && if x in t.pending then t.pending[x] == s.pending[x] else Expires(e, s.pending[x].deadline)
  }

  ghost predicate GrantKept(s: State, e: Event, k: GrantKey) {
    GrantKeptIn(s, Apply(s, e).state, e, k)
  }

  ghost predicate GrantKeptIn(s: State, t: State, e: Event, k: GrantKey) {
    k in s.active && if k in t.active then t.active[k] == s.active[k] else Expires(e, s.active[k])
  }

  lemma IsolatedTicketPassword(s: State, e: Event, x: string)
    requires e.Grant? || e.Authenticate? || e.Prepare? || e.Confirm?
    requires x in s.pending && x != e.ticket
    ensures TicketKept(s, e, x)
  {
    match e
    case Grant(_, _, _, _, _) => IsolatedByGrant(s, e, x);
    case Authenticate(_, _, _, _) => IsolatedByAuthenticate(s, e, x);
    case Prepare(_, _, _, _, _, _) => IsolatedByPrepare(s, e, x);
    case Confirm(_, _, _) => assert TicketKeptIn(s, DoConfirm(s, e).state, e, x);
  }

  lemma IsolatedByGrant(s: State, e: Event, x: string)
    requires e.Grant? && x in s.pending && x != e.ticket
    ensures TicketKeptIn(s, DoGrant(s, e).state, e, x)
  {}

  lemma IsolatedByAuthenticate(s: State, e: Event, x: string)
    requires e.Authenticate? && x in s.pending && x != e.ticket
    ensures TicketKeptIn(s, DoAuthenticate(s, e).state, e, x)
  {}

  lemma IsolatedByPrepare(s: State, e: Event, x: string)
    requires e.Prepare? && x in s.pending && x != e.ticket
    ensures TicketKeptIn(s, DoPrepare(s, e).state, e, x)
  {}

  lemma IsolatedTicket(s: State, e: Event, x: string)
    requires x in s.pending && !WorksOn(s, e, s.pending[x].workspace) && (e.Ask? ==> e.ticket !in s.pending)
    ensures TicketKept(s, e, x)
  {
    if e.Grant? || e.Authenticate? || e.Prepare? || e.Confirm? { IsolatedTicketPassword(s, e, x); }
  }

  lemma IsolatedGrant(s: State, e: Event, k: GrantKey)
    requires k in s.active && !WorksOn(s, e, k.workspace)
    ensures GrantKept(s, e, k)
  {
    if e.Grant? {
      IsolatedGrantDirect(s, e, k);
    } else if e.Confirm? {
      IsolatedGrantConfirmed(s, e, k);
    }
  }

  lemma IsolatedGrantConfirmed(s: State, e: Event, k: GrantKey)
    requires e.Confirm? && k in s.active && !WorksOn(s, e, k.workspace)
    ensures GrantKeptIn(s, DoConfirm(s, e).state, e, k)
  {}

  lemma IsolatedGrantDirect(s: State, e: Event, k: GrantKey)
    requires e.Grant? && k in s.active && !WorksOn(s, e, k.workspace)
    ensures GrantKeptIn(s, DoGrant(s, e).state, e, k)
  {}

  lemma IsolatedNothingNew(s: State, e: Event, workspace: string)
    requires !WorksOn(s, e, workspace)
    ensures forall x :: x in Apply(s, e).state.pending && Apply(s, e).state.pending[x].workspace == workspace ==> x in s.pending
    ensures forall k :: k in Apply(s, e).state.active && k.workspace == workspace ==> k in s.active
  {
    forall x | x in Apply(s, e).state.pending && Apply(s, e).state.pending[x].workspace == workspace ensures x in s.pending {
      TicketOrigins(s, e, x);
    }
    forall k | k in Apply(s, e).state.active && k.workspace == workspace ensures k in s.active {
      GrantOrigins(s, e, k);
    }
  }

  /**
  Isolation: a call on one Token leaves the tickets and grants of every other
  Token as they are, except that expired ones may go, and adds none.
  */
  lemma TokensAreIsolated(s: State, e: Event, workspace: string)
    requires !WorksOn(s, e, workspace) && (e.Ask? ==> e.ticket !in s.pending)
    ensures forall x :: x in s.pending && s.pending[x].workspace == workspace ==> TicketKept(s, e, x)
    ensures forall k :: k in s.active && k.workspace == workspace ==> GrantKept(s, e, k)
    ensures forall x :: x in Apply(s, e).state.pending && Apply(s, e).state.pending[x].workspace == workspace ==> x in s.pending
    ensures forall k :: k in Apply(s, e).state.active && k.workspace == workspace ==> k in s.active
  {
    forall x | x in s.pending && s.pending[x].workspace == workspace ensures TicketKept(s, e, x) { IsolatedTicket(s, e, x); }
    forall k | k in s.active && k.workspace == workspace ensures GrantKept(s, e, k) { IsolatedGrant(s, e, k); }
    IsolatedNothingNew(s, e, workspace);
  }

  /** A Token's password changes only through calls on that Token. */
  lemma PasswordsAreIsolated(s: State, e: Event, workspace: string)
    requires !WorksOn(s, e, workspace)
    ensures workspace in Apply(s, e).state.passwords <==> workspace in s.passwords
    ensures workspace in s.passwords ==> Apply(s, e).state.passwords[workspace] == s.passwords[workspace]
  {}
}
