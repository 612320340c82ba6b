/**
Whole runs of the OAuth store.  A world pairs the store with the log of every
transaction and, for each stored row, the log positions that produced it; the
theorems at the end speak of the log alone.
*/
module OAuthHistory {
  import opened Prelude
  import opened OAuthStore
  import opened OAuthInvariant

  datatype Entry = Entry(event: Event, reply: Reply)

  /** Log positions of the start, approval and code exchange behind a grant. */
  datatype Flow = Flow(start: nat, approve: nat, exchange: nat)

  datatype Trail = Trail(
    startOf: map<string, nat>,
    approveOf: map<string, nat>,
    flowOf: map<string, Flow>,
    issueOf: map<Hash, nat>)

  datatype World = World(store: Store, log: seq<Entry>, trail: Trail)

  const GENESIS := World(EMPTY, [], Trail(map[], map[], map[], map[]))

  ghost function Mark(w: World, e: Event, reply: Reply): Trail {
    var n := |w.log|;
    if !reply.Accepted? then w.trail
    else match e
      case Start(_, _, _, _, _, rid, _, _) => w.trail.(startOf := w.trail.startOf[rid := n])
      case Approve(rid, _, _, _, _) => w.trail.(approveOf := w.trail.approveOf[rid := n])
      case Exchange(cid, client, _, _, _, form, pruneAt, now, _, draw) =>
        var issued := w.trail.issueOf[Sha256(draw.access) := n];
        if !form.CodeForm? then w.trail.(issueOf := issued)
        else
          var rid := FindCode(Prune(w.store, pruneAt), Sha256(form.code), cid, client, now);
          if rid.None? || rid.value !in w.trail.startOf || rid.value !in w.trail.approveOf
          then w.trail.(issueOf := issued)
          else w.trail.(issueOf := issued,
                        flowOf := w.trail.flowOf[draw.grant :=
                                    Flow(w.trail.startOf[rid.value], w.trail.approveOf[rid.value], n)])
      case _ => w.trail
  }

  ghost function Next(w: World, e: Event): World {
    var step := Apply(w.store, e);
    World(step.store, w.log + [Entry(e, step.reply)], Mark(w, e, step.reply))
  }

  /** The world after a run of transactions on a new database. */
  ghost function Run(es: seq<Event>): World {
    if es == [] then GENESIS else Next(Run(es[..|es| - 1]), es[|es| - 1])
  }

  // ---------------------------------------------------------------- facts about the log

  ghost predicate Started(log: seq<Entry>, i: nat, rid: string, cid: string, client: string,
                          redirect: string, challenge: Challenge)
  {
    && i < |log| && log[i].reply.Accepted? && log[i].event.Start? && log[i].event.wellFormed
    && log[i].event.rid == rid && log[i].event.cid == cid && log[i].event.client == client
    && log[i].event.redirect == redirect && log[i].event.challenge == challenge
  }

  ghost predicate Approved(log: seq<Entry>, j: nat, rid: string, code: Hash) {
    && j < |log| && log[j].reply.Accepted? && log[j].event.Approve?
    && log[j].event.rid == rid && Sha256(log[j].event.code) == code
  }

  ghost predicate Redeems(entry: Entry, code: Hash) {
    && entry.reply.Accepted? && entry.event.Exchange? && entry.event.form.CodeForm?
    && Sha256(entry.event.form.code) == code
  }

  ghost predicate Denies(entry: Entry, rid: string) {
    entry.reply.Accepted? && entry.event.Deny? && entry.event.rid == rid
  }

  /** The registration of a client for a connection. */
  ghost predicate Registered(log: seq<Entry>, r: nat, cid: string, client: string) {
    && r < |log| && log[r].reply.Accepted? && log[r].event.Register?
    && log[r].event.cid == cid && log[r].event.client == client
  }

  /** The exchange at `k` presents the method and the secret with which its client registered at `r`. */
  ghost predicate Presents(log: seq<Entry>, r: nat, k: nat) {
    && r < k < |log| && log[k].event.Exchange?
    && Registered(log, r, log[k].event.cid, log[k].event.client)
    && log[r].event.authMethod == log[k].event.authMethod
    && (log[r].event.secret.Some? ==> log[r].event.secret.value == log[k].event.secretText)
  }

  /** The start at `i` asks for a redirect that its client registered at `r`. */
  ghost predicate Redirects(log: seq<Entry>, r: nat, i: nat) {
    && r < i < |log| && log[i].event.Start?
    && Registered(log, r, log[i].event.cid, log[i].event.client)
    && log[i].event.redirect in log[r].event.redirects
  }

  /** A code exchange that opened the family `gid`. */
  ghost predicate Opened(log: seq<Entry>, k: nat, cid: string, client: string, gid: string) {
    && k < |log| && log[k].reply.Accepted? && log[k].event.Exchange? && log[k].event.form.CodeForm?
    && log[k].event.cid == cid && log[k].event.client == client && log[k].event.draw.grant == gid
  }

  /** An exchange that issued the access token `h`. */
  ghost predicate Issued(log: seq<Entry>, l: nat, h: Hash, cid: string, client: string) {
    && l < |log| && log[l].reply.Accepted? && log[l].event.Exchange?
    && Sha256(log[l].event.draw.access) == h && log[l].event.cid == cid && log[l].event.client == client
  }

  /** Transactions that end the family `gid` of connection `cid`. */
  ghost predicate Ends(entry: Entry, cid: string, gid: string) {
    || (entry.reply.Accepted? && entry.event.Delete? && entry.event.cid == cid)
    || (entry.reply.Accepted? && entry.event.Exchange? && entry.event.form.CodeForm? && entry.event.cid == cid)
    || entry.reply == Reuse(gid)
  }

  /**
  The three steps of one authorization: in order, bound to each other by request,
  code, PKCE and redirect, and each within the lifetime of the one before.
  */
  ghost predicate Authorization(log: seq<Entry>, f: Flow, cid: string, client: string, gid: string) {
    && f.start < f.approve < f.exchange
    && Opened(log, f.exchange, cid, client, gid)
    && var form := log[f.exchange].event.form;
    && log[f.start].event.Start?
    && Started(log, f.start, log[f.start].event.rid, cid, client, form.redirect, S256(form.verifier))
    && Approved(log, f.approve, log[f.start].event.rid, Sha256(form.code))
    && log[f.approve].event.lookAt < log[f.start].event.now + 600.0
    && log[f.exchange].event.now < log[f.approve].event.now + 120.0
  }

  // ---------------------------------------------------------------- every stored row has its origin

  ghost predicate RequestTraced(w: World, rid: string)
    requires rid in w.store.requests
  {
    var row := w.store.requests[rid];
    && rid in w.trail.startOf
    && Started(w.log, w.trail.startOf[rid], rid, row.connection, row.client, row.redirect, row.challenge)
    && (row.code.None? ==> row.expiresAt == w.log[w.trail.startOf[rid]].event.now + REQUEST_SECONDS)
    && (row.code.Some? ==>
          && rid in w.trail.approveOf
          && w.trail.startOf[rid] < w.trail.approveOf[rid]
          && Approved(w.log, w.trail.approveOf[rid], rid, row.code.value)
          && w.log[w.trail.approveOf[rid]].event.lookAt < w.log[w.trail.startOf[rid]].event.now + REQUEST_SECONDS
          && row.expiresAt == w.log[w.trail.approveOf[rid]].event.now + CODE_SECONDS
          && forall m :: w.trail.approveOf[rid] < m < |w.log| ==> !Redeems(w.log[m], row.code.value))
    && (forall m :: w.trail.startOf[rid] < m < |w.log| ==> !Denies(w.log[m], rid))
  }

  ghost predicate GrantTraced(w: World, gid: string)
    requires gid in w.store.grants
  {
    var row := w.store.grants[gid];
    && gid in w.trail.flowOf
    && var f := w.trail.flowOf[gid];
    && Authorization(w.log, f, row.connection, row.client, gid)
    && row.expiresAt == w.log[f.exchange].event.now + REFRESH_SECONDS
    && (!row.revoked ==> forall m :: f.exchange < m < |w.log| ==> !Ends(w.log[m], row.connection, gid))
  }

  ghost predicate AccessTraced(w: World, h: Hash)
    requires h in w.store.credentials && w.store.credentials[h].grant in w.store.grants
  {
    var row := w.store.credentials[h];
    var grant := w.store.grants[row.grant];
    && h in w.trail.issueOf && row.grant in w.trail.flowOf
    && w.trail.flowOf[row.grant].exchange <= w.trail.issueOf[h]
    && Issued(w.log, w.trail.issueOf[h], h, grant.connection, grant.client)
    && row.expiresAt == w.log[w.trail.issueOf[h]].event.issueAt + ACCESS_SECONDS
  }

  ghost predicate Traced(w: World) {
    && (forall r :: r in w.store.requests ==> RequestTraced(w, r))
    && (forall g :: g in w.store.grants ==> GrantTraced(w, g))
    && (forall h :: h in w.store.credentials && w.store.credentials[h].grant in w.store.grants ==>
          w.store.credentials[h].kind == Access ==> AccessTraced(w, h))
  }

  // ---------------------------------------------------------------- what one transaction changes

  ghost predicate StartsRow(e: Event, step: Step, rid: string) {
    && e.Start? && e.rid == rid && rid in step.store.requests && step.reply.Accepted?
    && var row := step.store.requests[rid];
    && row.connection == e.cid && row.client == e.client && row.redirect == e.redirect
    && row.challenge == e.challenge && row.code.None? && row.expiresAt == e.now + REQUEST_SECONDS && e.wellFormed
  }

  ghost predicate ApprovesRow(s: Store, e: Event, step: Step, rid: string) {
    && e.Approve? && e.rid == rid && rid in s.requests && rid in step.store.requests && step.reply.Accepted?
    && s.requests[rid].code.None? && e.lookAt < s.requests[rid].expiresAt
    && step.store.requests[rid] == s.requests[rid].(code := Some(Sha256(e.code)), expiresAt := e.now + CODE_SECONDS)
  }

  ghost predicate RequestCarried(s: Store, e: Event, step: Step, rid: string) {
    && rid in s.requests && rid in step.store.requests && step.store.requests[rid] == s.requests[rid]
    && !(e.Start? && e.rid == rid && step.reply.Accepted?)
    && !(e.Approve? && e.rid == rid && step.reply.Accepted?)
    && !Denies(Entry(e, step.reply), rid)
  }

  lemma RequestOrigins(s: Store, e: Event, rid: string)
    requires rid in Apply(s, e).store.requests
    ensures var step := Apply(s, e);
      StartsRow(e, step, rid) || ApprovesRow(s, e, step, rid) || RequestCarried(s, e, step, rid)
  {
    if e.Exchange? {
      ExchangeCarriesRequest(s, e, rid);
    } else if e.Approve? {
      ApproveOrigins(s, e, rid);
    } else if e.Start? {
      StartOrigins(s, e, rid);
    }
  }

  lemma StartOrigins(s: Store, e: Event, rid: string)
    requires e.Start? && rid in DoStart(s, e).store.requests
    ensures StartsRow(e, DoStart(s, e), rid) || RequestCarried(s, e, DoStart(s, e), rid)
  {}

  lemma ExchangeCarriesRequest(s: Store, e: Event, rid: string)
    requires e.Exchange? && rid in DoExchange(s, e).store.requests
    ensures RequestCarried(s, e, DoExchange(s, e), rid)
  {}

  lemma ApproveOrigins(s: Store, e: Event, rid: string)
    requires e.Approve? && rid in DoApprove(s, e.rid, e.expected, e.code, e.lookAt, e.now).store.requests
    ensures var step := DoApprove(s, e.rid, e.expected, e.code, e.lookAt, e.now);
      ApprovesRow(s, e, step, rid) || RequestCarried(s, e, step, rid)
  {}

  /** Redeeming a code removes the only row that carried it. */
  lemma RedeemedIsGone(s: Store, e: Event, rid: string, code: Hash)
    requires CodesUnique(s) && Redeems(Entry(e, Apply(s, e).reply), code)
    requires rid in Apply(s, e).store.requests
    ensures Apply(s, e).store.requests[rid].code != Some(code)
  {
    var p := Prune(s, e.pruneAt);
    var gone, grant := ExchangeCodeShape(s, p, e);
    assert CarriesCode(p, gone, code, e.cid, e.client, e.now);
  }

  /** The exchange that opens the family `gid` with a code carried by row `rid`. */
  ghost predicate OpensGrant(e: Event, reply: Reply, gid: string) {
    e.Exchange? && e.form.CodeForm? && e.draw.grant == gid && reply.Accepted?
  }

  ghost predicate GrantCarried(s: Store, e: Event, step: Step, gid: string) {
    && gid in s.grants && gid in step.store.grants && !OpensGrant(e, step.reply, gid)
    && (step.store.grants[gid] == s.grants[gid] || step.store.grants[gid] == s.grants[gid].(revoked := true))
    && (!step.store.grants[gid].revoked ==> !Ends(Entry(e, step.reply), s.grants[gid].connection, gid))
  }

  lemma GrantOriginsExchange(s: Store, e: Event, gid: string)
    requires e.Exchange? && !DoExchange(s, e).reply.Refused?
    requires gid in DoExchange(s, e).store.grants && !OpensGrant(e, DoExchange(s, e).reply, gid)
    ensures GrantCarried(s, e, DoExchange(s, e), gid)
  {
    if e.form.CodeForm? {
      var rid, grant := ExchangeCodeShape(s, Prune(s, e.pruneAt), e);
    }
  }

  lemma GrantOrigins(s: Store, e: Event, gid: string)
    requires gid in Apply(s, e).store.grants
    ensures OpensGrant(e, Apply(s, e).reply, gid) || GrantCarried(s, e, Apply(s, e), gid)
  {
    if Apply(s, e).reply.Refused? {
      RefusedUnchanged(s, e);
    } else if e.Exchange? && !OpensGrant(e, Apply(s, e).reply, gid) {
      GrantOriginsExchange(s, e, gid);
    }
  }

  /** An access row that was there before and whose family is not the one being opened. */
  ghost predicate AccessCarried(s: Store, e: Event, step: Step, h: Hash) {
    && h in s.credentials && h in step.store.credentials && step.store.credentials[h] == s.credentials[h]
    && s.credentials[h].grant in s.grants && !OpensGrant(e, step.reply, s.credentials[h].grant)
    && !(e.Exchange? && step.reply.Accepted? && Sha256(e.draw.access) == h)
  }

  ghost predicate AccessIssued(s: Store, e: Event, step: Step, h: Hash) {
    && e.Exchange? && step.reply.Accepted? && h == Sha256(e.draw.access) && h in step.store.credentials
    && var row := step.store.credentials[h];
    && row.expiresAt == e.issueAt + ACCESS_SECONDS
    && row.grant in step.store.grants
    && step.store.grants[row.grant].connection == e.cid && step.store.grants[row.grant].client == e.client
    && (OpensGrant(e, step.reply, row.grant) || (row.grant in s.grants && !e.form.CodeForm?))
  }

  lemma AccessOriginsCode(s: Store, e: Event, h: Hash)
    requires References(s) && e.Exchange? && e.form.CodeForm? && DoExchange(s, e).reply.Accepted?
    requires h in DoExchange(s, e).store.credentials && DoExchange(s, e).store.credentials[h].kind == Access
    ensures AccessCarried(s, e, DoExchange(s, e), h) || AccessIssued(s, e, DoExchange(s, e), h)
  {
    var rid, grant := ExchangeCodeShape(s, Prune(s, e.pruneAt), e);
  }

  lemma AccessOriginsRefresh(s: Store, e: Event, h: Hash)
    requires References(s) && e.Exchange? && !e.form.CodeForm? && !DoExchange(s, e).reply.Refused?
    requires h in DoExchange(s, e).store.credentials && DoExchange(s, e).store.credentials[h].kind == Access
    ensures AccessCarried(s, e, DoExchange(s, e), h) || AccessIssued(s, e, DoExchange(s, e), h)
  {}

  lemma AccessOrigins(s: Store, e: Event, h: Hash)
    requires References(s)
    requires h in Apply(s, e).store.credentials && Apply(s, e).store.credentials[h].kind == Access
    ensures AccessCarried(s, e, Apply(s, e), h) || AccessIssued(s, e, Apply(s, e), h)
  {
    if Apply(s, e).reply.Refused? {
      RefusedUnchanged(s, e);
    } else if !e.Exchange? {
      AccessOriginsOther(s, e, h);
    } else if e.form.CodeForm? {
      AccessOriginsCode(s, e, h);
    } else {
      AccessOriginsRefresh(s, e, h);
    }
  }

  lemma AccessOriginsOther(s: Store, e: Event, h: Hash)
    requires References(s) && !e.Exchange? && h in Apply(s, e).store.credentials
    ensures AccessCarried(s, e, Apply(s, e), h)
  {}

  // ---------------------------------------------------------------- one step keeps every origin

  /** The world after `e`, given what its transaction did. */
  ghost function Extend(w: World, e: Event, step: Step): World {
    World(step.store, w.log + [Entry(e, step.reply)], Mark(w, e, step.reply))
  }

  lemma ExtendTracesRequest(w: World, e: Event, step: Step, rid: string)
    requires StartsRow(e, step, rid) || ApprovesRow(w.store, e, step, rid) || RequestCarried(w.store, e, step, rid)
    requires rid in w.store.requests ==> RequestTraced(w, rid)
    requires step.store.requests[rid].code.Some? ==>
      !Redeems(Entry(e, step.reply), step.store.requests[rid].code.value)
    ensures RequestTraced(Extend(w, e, step), rid)
  {}

  lemma ExtendTracesGrant(w: World, e: Event, step: Step, gid: string)
    requires gid in w.store.grants && GrantTraced(w, gid) && GrantCarried(w.store, e, step, gid)
    ensures GrantTraced(Extend(w, e, step), gid)
  {}

  lemma ExtendTracesNewGrant(w: World, e: Event, step: Step, gid: string, rid: string)
    requires OpensGrant(e, step.reply, gid) && gid in step.store.grants
    requires step.store.grants[gid] == Grant(e.cid, e.client, e.now + REFRESH_SECONDS, false)
    requires FindCode(Prune(w.store, e.pruneAt), Sha256(e.form.code), e.cid, e.client, e.now) == Some(rid)
    requires rid in w.store.requests && RequestTraced(w, rid)
    requires var r := w.store.requests[rid];
      && r.connection == e.cid && r.client == e.client && r.code == Some(Sha256(e.form.code))
      && r.redirect == e.form.redirect && r.challenge == S256(e.form.verifier) && e.now < r.expiresAt
    ensures GrantTraced(Extend(w, e, step), gid)
  {}

  lemma ExtendTracesAccess(w: World, e: Event, step: Step, h: Hash)
    requires AccessCarried(w.store, e, step, h) || AccessIssued(w.store, e, step, h)
    requires step.store.credentials[h].grant in step.store.grants
    requires GrantTraced(Extend(w, e, step), step.store.credentials[h].grant)
    requires AccessCarried(w.store, e, step, h) ==>
      AccessTraced(w, h) && GrantCarried(w.store, e, step, step.store.credentials[h].grant)
    ensures AccessTraced(Extend(w, e, step), h)
  {}

  lemma NextTracesRequest(w: World, e: Event, rid: string)
    requires rid in w.store.requests ==> RequestTraced(w, rid)
    requires CodesUnique(w.store) && rid in Apply(w.store, e).store.requests
    ensures RequestTraced(Next(w, e), rid)
  {
    var step := Apply(w.store, e);
    RequestOrigins(w.store, e, rid);
    var row := step.store.requests[rid];
    if row.code.Some? && Redeems(Entry(e, step.reply), row.code.value) {
      RedeemedIsGone(w.store, e, rid, row.code.value);
    }
    ExtendTracesRequest(w, e, step, rid);
  }

  lemma NextTracesNewGrant(w: World, e: Event, gid: string)
    requires forall r :: r in w.store.requests ==> RequestTraced(w, r)
    requires OpensGrant(e, Apply(w.store, e).reply, gid)
    ensures gid in Next(w, e).store.grants && GrantTraced(Next(w, e), gid)
  {
    var p := Prune(w.store, e.pruneAt);
    var rid, grant := ExchangeCodeShape(w.store, p, e);
    rid := FindCode(p, Sha256(e.form.code), e.cid, e.client, e.now).value;
    ExtendTracesNewGrant(w, e, Apply(w.store, e), gid, rid);
  }

  lemma NextTracesGrant(w: World, e: Event, gid: string)
    requires Traced(w) && gid in Apply(w.store, e).store.grants
    ensures GrantTraced(Next(w, e), gid)
  {
    GrantOrigins(w.store, e, gid);
    if OpensGrant(e, Apply(w.store, e).reply, gid) {
      NextTracesNewGrant(w, e, gid);
    } else {
      ExtendTracesGrant(w, e, Apply(w.store, e), gid);
    }
  }

  lemma NextTracesAccess(w: World, e: Event, h: Hash)
    requires References(w.store) && Traced(w) && h in Apply(w.store, e).store.credentials
    requires Apply(w.store, e).store.credentials[h].kind == Access
    requires Apply(w.store, e).store.credentials[h].grant in Apply(w.store, e).store.grants
    ensures AccessTraced(Next(w, e), h)
  {
    var gid := Apply(w.store, e).store.credentials[h].grant;
    AccessOrigins(w.store, e, h);
    NextTracesGrant(w, e, gid);
    GrantOrigins(w.store, e, gid);
    ExtendTracesAccess(w, e, Apply(w.store, e), h);
  }

  lemma NextTraced(w: World, e: Event)
    requires Inv(w.store) && Traced(w)
    ensures Traced(Next(w, e))
  {
    var n := Next(w, e);
    forall r | r in n.store.requests ensures RequestTraced(n, r) { NextTracesRequest(w, e, r); }
    forall g | g in n.store.grants ensures GrantTraced(n, g) { NextTracesGrant(w, e, g); }
    forall h | h in n.store.credentials && n.store.credentials[h].grant in n.store.grants
      ensures n.store.credentials[h].kind == Access ==> AccessTraced(n, h)
    {
      if n.store.credentials[h].kind == Access { NextTracesAccess(w, e, h); }
    }
  }

  lemma {:induction false} RunTraced(es: seq<Event>)
    ensures Inv(Run(es).store) && Traced(Run(es)) && |Run(es).log| == |es|
  {
    if es != [] {
      var before := es[..|es| - 1];
      RunTraced(before);
      ApplyKeeps(Run(before).store, es[|es| - 1]);
      NextTraced(Run(before), es[|es| - 1]);
    }
  }

  // ---------------------------------------------------------------- theorems

  /** What holds of the log whenever a bearer token is accepted at times t0 and t1. */
  ghost predicate Justified(log: seq<Entry>, f: Flow, l: nat, cid: string, client: string, gid: string,
                            access: string, t0: real, t1: real)
  {
    && Authorization(log, f, cid, client, gid)
    && f.exchange <= l && Issued(log, l, Sha256(access), cid, client)
    && t0 < log[l].event.issueAt + 3600.0
    && t1 < log[f.exchange].event.now + 2592000.0
    && (forall m :: f.exchange < m < |log| ==> !Ends(log[m], cid, gid))
    && (exists r :: Redirects(log, r, f.start))
    && (exists r :: Presents(log, r, f.exchange))
    && (exists r :: Presents(log, r, l))
  }

  /**
  End to end: a token opens a connection only after a start, a later approval and
  a later code exchange of that connection and client, which agree on the request,
  the code, the redirect URI and the PKCE verifier; with the request looked up
  within 600 seconds of the start and the code redeemed within 120 of the approval;
  within 30 days of that
  exchange and one hour of the token's own issue; with no code exchange, reuse
  revocation or deletion since; for a redirect that the client had registered; and
  with the client's registered authentication method and secret presented both at
  that exchange and at the one that issued the token.
  */
  lemma AuthenticatedFlow(es: seq<Event>, cid: string, access: string, t0: real, t1: real)
    returns (f: Flow, l: nat, client: string, gid: string)
    requires Authenticates(Run(es).store, cid, access, t0, t1)
    ensures gid == Run(es).store.credentials[Sha256(access)].grant
    ensures Justified(Run(es).log, f, l, cid, client, gid, access, t0, t1)
  {
    var w := Run(es);
    RunTraced(es);
    var h := Sha256(access);
    gid := w.store.credentials[h].grant;
    assert GrantTraced(w, gid);
    assert AccessTraced(w, h);
    f, l, client := w.trail.flowOf[gid], w.trail.issueOf[h], w.store.grants[gid].client;
    var r := StartRegistered(es, f.start);
    r := ExchangeAuthenticated(es, f.exchange);
    r := ExchangeAuthenticated(es, l);
  }

  /** A stored client is an earlier one, or was registered just now with what the row says. */
  lemma ClientOrigins(s: Store, e: Event, c: string)
    requires c in Apply(s, e).store.clients
    ensures (c in s.clients && Apply(s, e).store.clients[c] == s.clients[c])
      || (&& e.Register? && e.client == c && Apply(s, e).reply.Accepted?
          && var row := Apply(s, e).store.clients[c];
             && row.connection == e.cid && row.redirects == e.redirects && row.authMethod == e.authMethod
             && row.secret == if e.secret.Some? then Some(Sha256(e.secret.value)) else None)
  {
    if e.Exchange? { ExchangeKeepsClients(s, e); }
  }

  lemma ExchangeKeepsClients(s: Store, e: Event)
    requires e.Exchange?
    ensures forall c :: c in DoExchange(s, e).store.clients ==>
      c in s.clients && DoExchange(s, e).store.clients[c] == s.clients[c]
  {}

  /** In every run a stored client has its registration in the log. */
  lemma {:induction false} ClientRegistered(es: seq<Event>, c: string) returns (r: nat)
    requires c in Run(es).store.clients
    ensures var log, row := Run(es).log, Run(es).store.clients[c];
      && Registered(log, r, row.connection, c)
      && log[r].event.redirects == row.redirects && log[r].event.authMethod == row.authMethod
      && row.secret == if log[r].event.secret.Some? then Some(Sha256(log[r].event.secret.value)) else None
  {
    var before, e := es[..|es| - 1], es[|es| - 1];
    var s := Run(before).store;
    ClientOrigins(s, e, c);
    LogLength(before);
    if c in s.clients && Run(es).store.clients[c] == s.clients[c] {
      r := ClientRegistered(before, c);
    } else {
      r := |before|;
    }
  }

  /** An exchange that is not refused is made by a stored client of the connection that proves itself. */
  lemma ExchangeChecks(s: Store, e: Event)
    requires e.Exchange? && !DoExchange(s, e).reply.Refused?
    ensures e.client in s.clients
    ensures var row := s.clients[e.client];
      && row.connection == e.cid && row.authMethod == e.authMethod
      && (row.secret.Some? ==> row.secret.value == Sha256(e.secretText))
  {}

  /** In every run, every exchange that is not refused presents its client's registered method and secret. */
  lemma {:induction false} ExchangeAuthenticated(es: seq<Event>, k: nat) returns (r: nat)
    requires k < |Run(es).log| && Run(es).log[k].event.Exchange? && !Run(es).log[k].reply.Refused?
    ensures Presents(Run(es).log, r, k)
  {
    LogLength(es);
    LogPrefix(es, k);
    ExchangeChecks(Run(es[..k]).store, es[k]);
    r := ClientRegistered(es[..k], es[k].client);
    assert Run(es).log[..k][r] == Run(es).log[r];
  }

  lemma StartChecks(s: Store, e: Event)
    requires e.Start? && DoStart(s, e).reply.Accepted?
    ensures e.client in s.clients && s.clients[e.client].connection == e.cid && e.redirect in s.clients[e.client].redirects
  {}

  /** In every run, an accepted start asks for a redirect its client had registered. */
  lemma {:induction false} StartRegistered(es: seq<Event>, i: nat) returns (r: nat)
    requires i < |Run(es).log| && Run(es).log[i].event.Start? && Run(es).log[i].reply.Accepted?
    ensures Redirects(Run(es).log, r, i)
  {
    LogLength(es);
    LogPrefix(es, i);
    StartChecks(Run(es[..i]).store, es[i]);
    r := ClientRegistered(es[..i], es[i].client);
    assert Run(es).log[..i][r] == Run(es).log[r];
  }

  /** The log of a prefix of the run is a prefix of the log. */
  lemma {:induction false} LogPrefix(es: seq<Event>, k: nat)
    requires k <= |es|
    ensures |Run(es).log| == |es| && Run(es).log[..k] == Run(es[..k]).log
    ensures k < |es| ==> Run(es).log[k] == Entry(es[k], Apply(Run(es[..k]).store, es[k]).reply)
  {
    LogLength(es);
    if k == |es| {
      assert es[..k] == es;
    } else {
      var before := es[..|es| - 1];
      LogPrefix(before, k);
      assert before[..k] == es[..k];
    }
  }

  lemma {:induction false} LogLength(es: seq<Event>)
    ensures |Run(es).log| == |es|
  {
    if es != [] { LogLength(es[..|es| - 1]); }
  }

  /** The stored request whose code an accepted exchange at position `k` redeems. */
  lemma RedeemedRow(es: seq<Event>, k: nat, code: Hash) returns (rid: string)
    requires k < |Run(es).log| && Redeems(Run(es).log[k], code)
    ensures k < |es| && es[k].Exchange? && es[k].form.CodeForm? && Run(es).log[..k] == Run(es[..k]).log
    ensures rid in Run(es[..k]).store.requests && RequestTraced(Run(es[..k]), rid)
    ensures var r := Run(es[..k]).store.requests[rid];
      && r.code == Some(code) && r.connection == es[k].cid && r.client == es[k].client
      && r.redirect == es[k].form.redirect && r.challenge == S256(es[k].form.verifier)
  {
    RunTraced(es);
    LogPrefix(es, k);
    RunTraced(es[..k]);
    rid := RedeemedFrom(Run(es[..k]).store, es[k], code);
  }

  lemma RedeemedFrom(s: Store, e: Event, code: Hash) returns (rid: string)
    requires Redeems(Entry(e, Apply(s, e).reply), code)
    ensures rid in s.requests
    ensures var r := s.requests[rid];
      && r.code == Some(code) && r.connection == e.cid && r.client == e.client
      && r.redirect == e.form.redirect && r.challenge == S256(e.form.verifier)
  {
    var grant;
    rid, grant := ExchangeCodeShape(s, Prune(s, e.pruneAt), e);
  }

  /** Authorization codes are single use: a second redemption needs a new approval that drew the same code. */
  lemma CodeSingleUse(es: seq<Event>, k1: nat, k2: nat, code: Hash) returns (j: nat, rid: string)
    requires k1 < k2 < |Run(es).log| && Redeems(Run(es).log[k1], code) && Redeems(Run(es).log[k2], code)
    ensures k1 < j < k2 && Approved(Run(es).log, j, rid, code)
  {
    rid := RedeemedRow(es, k2, code);
    var log := Run(es[..k2]).log;
    j := Run(es[..k2]).trail.approveOf[rid];
    assert log[k1] == Run(es).log[..k2][k1] == Run(es).log[k1];
    assert log[j] == Run(es).log[..k2][j];
  }

  /** A denied request is never approved: an approval after a denial takes a new start. */
  lemma {:induction false} DenialIsFinal(es: seq<Event>, m: nat, j: nat, rid: string) returns (i: nat)
    requires m < j < |Run(es).log| && Denies(Run(es).log[m], rid)
    requires Run(es).log[j].reply.Accepted? && Run(es).log[j].event.Approve? && Run(es).log[j].event.rid == rid
    ensures m < i < j && Run(es).log[i].reply.Accepted? && Run(es).log[i].event.Start? && Run(es).log[i].event.rid == rid
  {
    LogLength(es);
    LogPrefix(es, j);
    RunTraced(es[..j]);
    var w := Run(es[..j]);
    ApprovedRow(w.store, es[j]);
    assert RequestTraced(w, rid);
    i := w.trail.startOf[rid];
    assert w.log[m] == Run(es).log[..j][m] && w.log[i] == Run(es).log[..j][i];
    if i == m { assert false; }
  }

  /** An accepted approval is of a stored request, and by its current owner if a binding is expected. */
  lemma ApprovedRow(s: Store, e: Event)
    requires e.Approve? && Apply(s, e).reply.Accepted?
    ensures e.rid in s.requests && s.requests[e.rid].connection in s.connections
    ensures e.expected.Some? ==> e.expected.value == s.connections[s.requests[e.rid].connection].owner
  {}

  /** After a reuse revocation, a token of that family can only come from a later code exchange. */
  lemma ReuseIsFinal(es: seq<Event>, m: nat, cid: string, access: string, t0: real, t1: real)
    returns (f: Flow, l: nat, client: string, gid: string)
    requires m < |Run(es).log| && Authenticates(Run(es).store, cid, access, t0, t1)
    requires Run(es).log[m].reply == Reuse(Run(es).store.credentials[Sha256(access)].grant)
    ensures Justified(Run(es).log, f, l, cid, client, gid, access, t0, t1) && f.exchange > m
  {
    f, l, client, gid := AuthenticatedFlow(es, cid, access, t0, t1);
    assert Ends(Run(es).log[m], cid, gid);
  }

  /** The family has been revoked, or is not stored any more. */
  ghost predicate Dead(s: Store, gid: string) {
    gid in s.grants ==> s.grants[gid].revoked
  }

  /** Revocation is never undone: a dead family stays dead until an exchange opens a new one under its identifier. */
  lemma {:induction false} RevocationIsPermanent(es: seq<Event>, n: nat, gid: string)
    requires n <= |es| && Dead(Run(es[..n]).store, gid)
    requires forall m :: n <= m < |es| ==> !OpensGrant(es[m], Apply(Run(es[..m]).store, es[m]).reply, gid)
    ensures Dead(Run(es).store, gid)
  {
    if n == |es| {
      assert es[..n] == es;
    } else {
      var before, e := es[..|es| - 1], es[|es| - 1];
      assert before[..n] == es[..n];
      forall m | n <= m < |before| ensures !OpensGrant(before[m], Apply(Run(before[..m]).store, before[m]).reply, gid) {
        assert before[..m] == es[..m];
      }
      RevocationIsPermanent(before, n, gid);
      if gid in Run(es).store.grants { GrantOrigins(Run(before).store, e, gid); }
    }
  }

  /**
  Refresh families, in every run: a stored grant has exactly one unused refresh
  token, all its refresh tokens end with the grant, 30 days after the exchange
  that opened it, and no two live grants share a connection.
  */
  lemma RefreshFamilies(es: seq<Event>, gid: string) returns (spare: Hash, exchange: nat)
    requires gid in Run(es).store.grants
    ensures var s, log := Run(es).store, Run(es).log;
      && Opened(log, exchange, s.grants[gid].connection, s.grants[gid].client, gid)
      && (forall h :: Spare(s, h, gid) <==> h == spare)
      && (forall h :: h in s.credentials && s.credentials[h].kind == Refresh && s.credentials[h].grant == gid ==>
            s.credentials[h].expiresAt == log[exchange].event.now + 2592000.0)
      && (!s.grants[gid].revoked ==>
            forall g :: g in s.grants && s.grants[g].connection == s.grants[gid].connection ==> g == gid || s.grants[g].revoked)
  {
    RunTraced(es);
    var w := Run(es);
    assert GrantTraced(w, gid);
    spare :| Spare(w.store, spare, gid);
    exchange := w.trail.flowOf[gid].exchange;
  }

  /** The transaction deletes the connection `cid`. */
  ghost predicate Deletes(s: Store, e: Event, cid: string) {
    e.Delete? && e.cid == cid && Apply(s, e).reply.Accepted?
  }

  lemma StepKeepsBinding(s: Store, e: Event, cid: string)
    requires cid in s.connections && s.connections[cid].client.Some? && !Deletes(s, e, cid)
    ensures cid in Apply(s, e).store.connections
    ensures Apply(s, e).store.connections[cid].client == s.connections[cid].client
  {
    if e.Exchange? { ExchangeKeepsConnections(s, e); }
  }

  lemma ExchangeKeepsConnections(s: Store, e: Event)
    requires e.Exchange?
    ensures DoExchange(s, e).store.connections == s.connections
  {}

  /** A binding never changes while the connection exists. */
  lemma {:induction false} BindingIsPermanent(es: seq<Event>, n: nat, cid: string)
    requires n <= |es| && cid in Run(es[..n]).store.connections
    requires Run(es[..n]).store.connections[cid].client.Some?
    requires forall m :: n <= m < |es| ==> !Deletes(Run(es[..m]).store, es[m], cid)
    ensures cid in Run(es).store.connections
    ensures Run(es).store.connections[cid].client == Run(es[..n]).store.connections[cid].client
  {
    if n == |es| {
      assert es[..n] == es;
    } else {
      var before := es[..|es| - 1];
      assert before[..n] == es[..n];
      forall m | n <= m < |before| ensures !Deletes(Run(before[..m]).store, before[m], cid) {
        assert before[..m] == es[..m];
      }
      BindingIsPermanent(before, n, cid);
      StepKeepsBinding(Run(before).store, es[|es| - 1], cid);
    }
  }

  /** The ownership check of a pending request never fails. */
  lemma OwnershipCheckPasses(es: seq<Event>, rid: string, now: real)
    ensures FindRequest(Run(es).store, rid, now) != Err(OwnerChanged)
    ensures FindRequest(Run(es).store, rid, now) != Err(NoConnection)
  {
    RunTraced(es);
  }

  /** Since the request was started, its connection has had one and the same owner at every point. */
  ghost predicate OneOwner(es: seq<Event>, lo: nat, cid: string, owner: Owner) {
    forall m :: lo < m <= |es| ==> OwnedBy(Run(es[..m]).store, cid, owner)
  }

  ghost predicate OwnedBy(s: Store, cid: string, owner: Owner) {
    cid in s.connections && s.connections[cid].owner == owner
  }

  lemma {:induction false} RequestKeepsOwner(es: seq<Event>, rid: string)
    requires rid in Run(es).store.requests && rid in Run(es).trail.startOf
    ensures OneOwner(es, Run(es).trail.startOf[rid], Run(es).store.requests[rid].connection,
                     Run(es).store.requests[rid].owner)
  {
    RunTraced(es);
    if es != [] {
      var before, e := es[..|es| - 1], es[|es| - 1];
      var w, row, start := Run(before), Run(es).store.requests[rid], Run(es).trail.startOf[rid];
      RunTraced(before);
      OwnerCarried(w, e, rid);
      if start < |before| { RequestKeepsOwner(before, rid); }
      assert OneOwner(before, start, row.connection, row.owner);
      ExtendOwner(es, start, row.connection, row.owner);
    }
  }

  /** A stored request was started by this very transaction, or has the start, connection and owner it had. */
  lemma OwnerCarried(w: World, e: Event, rid: string)
    requires Traced(w) && rid in Next(w, e).store.requests && rid in Next(w, e).trail.startOf
    ensures Next(w, e).trail.startOf[rid] == |w.log|
      || (&& rid in w.store.requests && rid in w.trail.startOf && w.trail.startOf[rid] == Next(w, e).trail.startOf[rid]
          && w.store.requests[rid].connection == Next(w, e).store.requests[rid].connection
          && w.store.requests[rid].owner == Next(w, e).store.requests[rid].owner)
  {
    RequestOrigins(w.store, e, rid);
    if rid in w.store.requests { assert RequestTraced(w, rid); }
  }

  lemma {:induction false} ExtendOwner(es: seq<Event>, lo: nat, cid: string, owner: Owner)
    requires es != [] && OneOwner(es[..|es| - 1], lo, cid, owner)
    requires OwnedBy(Run(es).store, cid, owner)
    ensures OneOwner(es, lo, cid, owner)
  {
    var before := es[..|es| - 1];
    forall m | lo < m <= |es| ensures OwnedBy(Run(es[..m]).store, cid, owner) {
      if m < |es| { assert es[..m] == before[..m]; } else { assert es[..m] == es; }
    }
  }

  /** No code crosses an owner change, not even a change that is later undone. */
  lemma CodeKeepsOwner(es: seq<Event>, k: nat, code: Hash) returns (i: nat, rid: string, owner: Owner)
    requires k < |Run(es).log| && Redeems(Run(es).log[k], code)
    ensures k < |es| && es[k].Exchange? && es[k].form.CodeForm? && i < k
    ensures Started(Run(es).log, i, rid, es[k].cid, es[k].client, es[k].form.redirect, S256(es[k].form.verifier))
    ensures OneOwner(es[..k], i, es[k].cid, owner)
  {
    rid := RedeemedRow(es, k, code);
    var w := Run(es[..k]);
    i, owner := w.trail.startOf[rid], w.store.requests[rid].owner;
    RequestKeepsOwner(es[..k], rid);
    assert w.log[i] == Run(es).log[..k][i];
  }
}
