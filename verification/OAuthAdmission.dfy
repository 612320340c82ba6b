/**
When the store accepts, said of the rows that are alive at the time of the call and
without the steps of the transaction; what an accepted call leaves behind; and how
long an issued token is good for.
*/
module OAuthAdmission {
  import opened Prelude
  import opened OAuthStore
  import opened OAuthInvariant
  import opened OAuthHistory

  // ---------------------------------------------------------------- live rows

  ghost predicate IsBound(s: Store, client: string) {
    exists c :: c in s.connections && s.connections[c].client == Some(client)
  }

  /** Clients live for a day, or as long as a connection is bound to them. */
  ghost predicate ClientAlive(s: Store, client: string, t: real) {
    client in s.clients && (s.clients[client].createdAt >= t - 86400.0 || IsBound(s, client))
  }

  ghost predicate RequestAlive(s: Store, rid: string, t: real) {
    rid in s.requests && s.requests[rid].expiresAt > t
  }

  ghost predicate GrantAlive(s: Store, gid: string, t: real) {
    gid in s.grants && s.grants[gid].expiresAt > t
  }

  ghost predicate CredentialAlive(s: Store, h: Hash, t: real) {
    && h in s.credentials && GrantAlive(s, s.credentials[h].grant, t)
    && (s.credentials[h].kind == Access ==> s.credentials[h].expiresAt > t)
  }

  /** Pruning keeps exactly what is alive. */
  lemma PruneExactly(s: Store, t: real)
    ensures var p := Prune(s, t);
      && p.connections == s.connections
      && (forall c :: c in p.clients <==> ClientAlive(s, c, t))
      && (forall r :: r in p.requests <==> RequestAlive(s, r, t))
      && (forall g :: g in p.grants <==> GrantAlive(s, g, t))
      && (forall h :: h in p.credentials <==> CredentialAlive(s, h, t))
      && (forall c :: c in p.clients ==> p.clients[c] == s.clients[c])
      && (forall r :: r in p.requests ==> p.requests[r] == s.requests[r])
      && (forall g :: g in p.grants ==> p.grants[g] == s.grants[g])
      && (forall h :: h in p.credentials ==> p.credentials[h] == s.credentials[h])
  {
    forall c ensures c in BoundClients(s) <==> IsBound(s, c) {}
  }

  ghost function LiveClients(s: Store, cid: string, t: real): set<string> {
    set c | c in s.clients && ClientAlive(s, c, t) && s.clients[c].connection == cid
  }

  ghost function LiveRequests(s: Store, cid: string, t: real): set<string> {
    set r | r in s.requests && RequestAlive(s, r, t) && s.requests[r].connection == cid
  }

  lemma LiveCounts(s: Store, cid: string, t: real)
    ensures ClientsOf(Prune(s, t), cid) == LiveClients(s, cid, t)
    ensures RequestsOf(Prune(s, t), cid) == LiveRequests(s, cid, t)
  {
    PruneExactly(s, t);
  }

  // ---------------------------------------------------------------- what is accepted

  /** A client of the connection, which is bound to no other. */
  ghost predicate MayUse(s: Store, cid: string, client: string) {
    && client in s.clients && s.clients[client].connection == cid
    && cid in s.connections && (s.connections[cid].client == None || s.connections[cid].client == Some(client))
  }

  /** An open request of a client that may still use the connection, with the connection's owner unchanged. */
  ghost predicate OpenRequest(s: Store, rid: string, t: real) {
    && RequestAlive(s, rid, t) && s.requests[rid].code == None
    && MayUse(s, s.requests[rid].connection, s.requests[rid].client)
    && s.requests[rid].owner == s.connections[s.requests[rid].connection].owner
  }

  ghost predicate DrawsAreNew(s: Store, d: Draw, t: real) {
    && !CredentialAlive(s, Sha256(d.access), t) && !CredentialAlive(s, Sha256(d.refresh), t) && d.access != d.refresh
  }

  ghost predicate ProvesItself(s: Store, e: Event)
    requires e.Exchange?
  {
    && ClientAlive(s, e.client, e.pruneAt) && MayUse(s, e.cid, e.client)
    && s.clients[e.client].authMethod == e.authMethod
    && (s.clients[e.client].secret == None || s.clients[e.client].secret == Some(Sha256(e.secretText)))
  }

  /** A live code of this connection and client, with its redirect and the verifier of its challenge. */
  ghost predicate Redeemable(s: Store, e: Event, rid: string)
    requires e.Exchange? && e.form.CodeForm?
  {
    && RequestAlive(s, rid, e.pruneAt) && RequestAlive(s, rid, e.now)
    && var r := s.requests[rid];
    && r.code == Some(Sha256(e.form.code)) && r.connection == e.cid && r.client == e.client
    && r.redirect == e.form.redirect && r.challenge == S256(e.form.verifier)
  }

  /** An unused refresh token of a live, unrevoked grant of this connection and client. */
  ghost predicate Rotatable(s: Store, e: Event)
    requires e.Exchange? && e.form.RefreshForm?
  {
    && var h := Sha256(e.form.token);
    && CredentialAlive(s, h, e.pruneAt) && s.credentials[h].kind == Refresh && !s.credentials[h].used
    && s.credentials[h].expiresAt > e.now
    && var g := s.grants[s.credentials[h].grant];
    && g.connection == e.cid && g.client == e.client && !g.revoked
  }

  /** The characters of a code verifier, section 4.1 of RFC 7636. */
  ghost predicate Unreserved(c: char) {
    'A' <= c <= 'Z' || 'a' <= c <= 'z' || '0' <= c <= '9' || c == '-' || c == '.' || c == '_' || c == '~'
  }

  lemma VerifierExactly(v: string)
    ensures VerifierSyntax(v) <==> 43 <= |v| <= 128 && forall c :: c in v ==> Unreserved(c)
  {
    assert forall i :: 0 <= i < |v| ==> v[i] in v;
  }

  ghost predicate Admissible(s: Store, e: Event) {
    match e
    case Create(cid, _) => cid !in s.connections
    case Update(cid, _, _) => cid in s.connections
    case Delete(cid) => cid in s.connections
    case Register(cid, client, _, _, _, pruneAt, _) =>
      && cid in s.connections && s.connections[cid].client == None
      && |LiveClients(s, cid, pruneAt)| < 32 && !ClientAlive(s, client, pruneAt)
    case Start(cid, client, redirect, _, wellFormed, rid, pruneAt, _) =>
      && ClientAlive(s, client, pruneAt) && MayUse(s, cid, client) && redirect in s.clients[client].redirects
      && wellFormed && |LiveRequests(s, cid, pruneAt)| < 64 && !RequestAlive(s, rid, pruneAt)
    case Approve(rid, expected, code, lookAt, _) =>
      && OpenRequest(s, rid, lookAt) && (expected == None || expected == Some(s.requests[rid].owner))
      && forall r :: r in s.requests ==> s.requests[r].code != Some(Sha256(code))
    case Deny(rid, lookAt) => OpenRequest(s, rid, lookAt)
    case Exchange(_, _, _, _, resourceOk, form, pruneAt, _, _, draw) =>
      && ProvesItself(s, e) && resourceOk && DrawsAreNew(s, draw, pruneAt)
      && match form
         case CodeForm(_, _, verifier) =>
           && 43 <= |verifier| <= 128 && (forall c :: c in verifier ==> Unreserved(c))
           && !GrantAlive(s, draw.grant, pruneAt) && exists rid :: Redeemable(s, e, rid)
         case RefreshForm(_) => Rotatable(s, e)
         case OtherForm => false
  }

  lemma RegisterAccepted(s: Store, e: Event)
    requires e.Register?
    ensures DoRegister(s, e).reply.Accepted? <==> Admissible(s, e)
  {
    PruneExactly(s, e.pruneAt);
    LiveCounts(s, e.cid, e.pruneAt);
  }

  lemma MayUseExactly(s: Store, cid: string, client: string)
    ensures FindClient(s, cid, client).Ok? <==> MayUse(s, cid, client)
    ensures MayUse(s, cid, client) ==> FindClient(s, cid, client).value == s.clients[client]
  {}

  lemma LiveMayUse(s: Store, cid: string, client: string, t: real)
    ensures MayUse(Prune(s, t), cid, client) <==> ClientAlive(s, client, t) && MayUse(s, cid, client)
    ensures MayUse(Prune(s, t), cid, client) ==> Prune(s, t).clients[client] == s.clients[client]
  {
    PruneExactly(s, t);
  }

  lemma StartAccepted(s: Store, e: Event)
    requires e.Start?
    ensures DoStart(s, e).reply.Accepted? <==> Admissible(s, e)
  {
    MayUseExactly(Prune(s, e.pruneAt), e.cid, e.client);
    LiveMayUse(s, e.cid, e.client, e.pruneAt);
    assert e.rid in Prune(s, e.pruneAt).requests <==> RequestAlive(s, e.rid, e.pruneAt) by { PruneExactly(s, e.pruneAt); }
    LiveCounts(s, e.cid, e.pruneAt);
  }

  lemma OpenExactly(s: Store, rid: string, t: real)
    ensures FindRequest(s, rid, t).Ok? <==> OpenRequest(s, rid, t)
    ensures OpenRequest(s, rid, t) ==> FindRequest(s, rid, t).value == s.requests[rid]
  {}

  lemma IssueExactly(credentials: map<Hash, Credential>, gid: string, expiry: real, issueAt: real, d: Draw)
    ensures Issue(credentials, gid, expiry, issueAt, d).Some? <==>
      Sha256(d.access) !in credentials && Sha256(d.refresh) !in credentials && d.access != d.refresh
  {}

  lemma CodeAccepted(s: Store, p: Store, e: Event)
    requires CodesUnique(s) && e.Exchange? && e.form.CodeForm? && p == Prune(s, e.pruneAt)
    ensures ExchangeCode(s, p, e).reply.Accepted? <==>
      && DrawsAreNew(s, e.draw, e.pruneAt) && VerifierSyntax(e.form.verifier) && !GrantAlive(s, e.draw.grant, e.pruneAt)
      && exists rid :: Redeemable(s, e, rid)
  {
    PruneExactly(s, e.pruneAt);
    IssueExactly(p.credentials, e.draw.grant, e.now + REFRESH_SECONDS, e.issueAt, e.draw);
    RowExactly(s, p, e);
  }

  /** The code selects a row, and that row matches, exactly when some row can be redeemed. */
  lemma RowExactly(s: Store, p: Store, e: Event)
    requires CodesUnique(s) && e.Exchange? && e.form.CodeForm? && p == Prune(s, e.pruneAt)
    ensures var row := FindCode(p, Sha256(e.form.code), e.cid, e.client, e.now);
      (exists rid :: Redeemable(s, e, rid)) <==>
      row.Some? && p.requests[row.value].redirect == e.form.redirect && p.requests[row.value].challenge == S256(e.form.verifier)
  {
    PruneExactly(s, e.pruneAt);
    var row := FindCode(p, Sha256(e.form.code), e.cid, e.client, e.now);
    if rid :| Redeemable(s, e, rid) {
      assert CarriesCode(p, rid, Sha256(e.form.code), e.cid, e.client, e.now);
      assert row.value == rid;
    }
    if row.Some? && p.requests[row.value].redirect == e.form.redirect && p.requests[row.value].challenge == S256(e.form.verifier) {
      assert Redeemable(s, e, row.value);
    }
  }

  lemma RefreshAccepted(s: Store, p: Store, e: Event)
    requires e.Exchange? && e.form.RefreshForm? && p == Prune(s, e.pruneAt)
    ensures ExchangeRefresh(s, p, e).reply.Accepted? <==> DrawsAreNew(s, e.draw, e.pruneAt) && Rotatable(s, e)
  {
    PruneExactly(s, e.pruneAt);
    var h := Sha256(e.form.token);
    if h in p.credentials {
      var used := p.credentials[h := p.credentials[h].(used := true)];
      assert forall x :: x in used <==> x in p.credentials;
      if p.credentials[h].grant in p.grants {
        IssueExactly(used, p.credentials[h].grant, p.grants[p.credentials[h].grant].expiresAt, e.issueAt, e.draw);
      }
    }
  }

  lemma ExchangeAccepted(s: Store, e: Event)
    requires CodesUnique(s) && e.Exchange?
    ensures DoExchange(s, e).reply.Accepted? <==> Admissible(s, e)
  {
    var p := Prune(s, e.pruneAt);
    MayUseExactly(p, e.cid, e.client);
    LiveMayUse(s, e.cid, e.client, e.pruneAt);
    match e.form
    case CodeForm(_, _, verifier) =>
      VerifierExactly(verifier);
      CodeAccepted(s, p, e);
    case RefreshForm(_) => RefreshAccepted(s, p, e);
    case OtherForm =>
  }

  /** Every transaction is accepted exactly when its conditions hold of the live rows. */
  lemma AcceptedExactly(s: Store, e: Event)
    requires Inv(s)
    ensures Apply(s, e).reply.Accepted? <==> Admissible(s, e)
  {
    match e
    case Create(_, _) =>
    case Update(_, _, _) =>
    case Delete(_) =>
    case Register(_, _, _, _, _, _, _) => RegisterAccepted(s, e);
    case Start(_, _, _, _, _, _, _, _) => StartAccepted(s, e);
    case Approve(rid, _, _, lookAt, _) => OpenExactly(s, rid, lookAt);
    case Deny(rid, lookAt) => OpenExactly(s, rid, lookAt);
    case Exchange(_, _, _, _, _, _, _, _, _, _) => ExchangeAccepted(s, e);
  }

  // ---------------------------------------------------------------- what an accepted call leaves behind

  /** The rows that a call is for, after it was accepted. */
  ghost predicate Done(s: Store, t: Store, e: Event) {
    match e
    case Create(cid, owner) => cid in t.connections && t.connections[cid] == Connection(owner, None)
    case Update(cid, appId, workspace) =>
      && cid in s.connections && cid in t.connections && t.connections[cid].client == s.connections[cid].client
      && (appId.Some? ==> t.connections[cid].owner.appId == appId.value)
      && (appId.None? ==> t.connections[cid].owner.appId == s.connections[cid].owner.appId)
      && (workspace.Some? ==> t.connections[cid].owner.workspace == workspace.value)
      && (workspace.None? ==> t.connections[cid].owner.workspace == s.connections[cid].owner.workspace)
      && (t.connections[cid].owner != s.connections[cid].owner ==> forall r :: r in t.requests ==> t.requests[r].connection != cid)
      && (t.connections[cid].owner == s.connections[cid].owner ==> t.requests == s.requests)
      && t.grants == s.grants && t.credentials == s.credentials
    case Delete(cid) =>
      && cid !in t.connections
      && forall g :: g in t.grants <==> g in s.grants && s.grants[g].connection != cid
    case Register(cid, client, redirects, authMethod, secret, _, _) =>
      && client in t.clients && t.clients[client].connection == cid && t.clients[client].redirects == redirects
      && t.clients[client].authMethod == authMethod
      && t.clients[client].secret == if secret.Some? then Some(Sha256(secret.value)) else None
    case Start(_, _, _, _, _, rid, _, _) => rid in t.requests && StartsRow(e, Step(t, Accepted), rid)
    case Approve(rid, _, _, _, _) =>
      && ApprovesRow(s, e, Step(t, Accepted), rid) && t.requests[rid].connection in t.connections
      && t.connections[t.requests[rid].connection].client == Some(t.requests[rid].client)
    case Deny(rid, _) => forall r :: r in t.requests <==> r in s.requests && r != rid
    case Exchange(_, _, _, _, _, _, _, _, _, draw) =>
      && Sha256(draw.access) in t.credentials && Sha256(draw.refresh) in t.credentials
      && Spare(t, Sha256(draw.refresh), t.credentials[Sha256(draw.access)].grant)
  }

  lemma AcceptedIsDone(s: Store, e: Event)
    requires Inv(s) && Apply(s, e).reply.Accepted?
    ensures Done(s, Apply(s, e).store, e)
  {
    match e
    case Create(_, _) =>
    case Update(_, _, _) => UpdateDone(s, e);
    case Delete(_) => assert Apply(s, e) == DoDelete(s, e.cid);
    case Register(_, _, _, _, _, _, _) => assert Apply(s, e) == DoRegister(s, e);
    case Start(_, _, _, _, _, rid, _, _) => StartDone(s, e);
    case Approve(_, _, _, _, _) => ApproveDone(s, e);
    case Deny(_, _) => assert Apply(s, e) == DoDeny(s, e.rid, e.lookAt);
    case Exchange(_, _, _, _, _, _, _, _, _, _) => ExchangeDone(s, e);
  }

  lemma StartDone(s: Store, e: Event)
    requires e.Start? && DoStart(s, e).reply.Accepted?
    ensures Done(s, DoStart(s, e).store, e)
  {
    StartOrigins(s, e, e.rid);
  }

  lemma UpdateDone(s: Store, e: Event)
    requires e.Update? && Apply(s, e).reply.Accepted?
    ensures Done(s, Apply(s, e).store, e)
  {}

  lemma ApproveDone(s: Store, e: Event)
    requires Inv(s) && e.Approve? && Apply(s, e).reply.Accepted?
    ensures Done(s, Apply(s, e).store, e)
  {
    OpenExactly(s, e.rid, e.lookAt);
  }

  lemma ExchangeDone(s: Store, e: Event)
    requires e.Exchange? && DoExchange(s, e).reply.Accepted?
    ensures Done(s, DoExchange(s, e).store, e)
  {
    if e.form.CodeForm? { var rid, grant := ExchangeCodeShape(s, Prune(s, e.pruneAt), e); }
  }

  // ---------------------------------------------------------------- other connections

  /** The connection a transaction works on. */
  ghost predicate WorksOn(s: Store, e: Event, cid: string) {
    match e
    case Approve(rid, _, _, _, _) => rid in s.requests && s.requests[rid].connection == cid
    case Deny(rid, _) => rid in s.requests && s.requests[rid].connection == cid
    case _ => e.cid == cid
  }

  /** The store a transaction starts from: without expired rows, if it prunes and is not refused. */
  ghost function Base(s: Store, e: Event): Store {
    if (e.Register? || e.Start? || e.Exchange?) && !Apply(s, e).reply.Refused? then Prune(s, e.pruneAt) else s
  }

  /** The rows of a connection are the same in both stores. */
  ghost predicate SameRows(s: Store, t: Store, cid: string) {
    && (cid in t.connections <==> cid in s.connections) && (cid in s.connections ==> t.connections[cid] == s.connections[cid])
    && (forall r :: r in t.requests && t.requests[r].connection == cid <==> r in s.requests && s.requests[r].connection == cid)
    && (forall r :: r in t.requests && t.requests[r].connection == cid ==> t.requests[r] == s.requests[r])
    && (forall c :: c in t.clients && t.clients[c].connection == cid <==> c in s.clients && s.clients[c].connection == cid)
    && (forall c :: c in t.clients && t.clients[c].connection == cid ==> t.clients[c] == s.clients[c])
    && (forall g :: g in t.grants && t.grants[g].connection == cid <==> g in s.grants && s.grants[g].connection == cid)
    && (forall g :: g in t.grants && t.grants[g].connection == cid ==> t.grants[g] == s.grants[g])
  }

  /** A transaction leaves the rows of every other connection as they are, apart from expired ones. */
  lemma ConnectionsAreIsolated(s: Store, e: Event, cid: string)
    requires !WorksOn(s, e, cid)
    ensures SameRows(Base(s, e), Apply(s, e).store, cid)
  {
    if Apply(s, e).reply.Refused? {
      RefusedUnchanged(s, e);
    } else if e.Exchange? {
      ExchangeIsolated(s, e, cid);
    } else if e.Register? || e.Start? {
      InsertIsolated(s, e, cid);
    }
  }

  lemma InsertIsolated(s: Store, e: Event, cid: string)
    requires (e.Register? || e.Start?) && e.cid != cid && !Apply(s, e).reply.Refused?
    ensures SameRows(Prune(s, e.pruneAt), Apply(s, e).store, cid)
  {}

  lemma ExchangeIsolated(s: Store, e: Event, cid: string)
    requires e.Exchange? && e.cid != cid && !DoExchange(s, e).reply.Refused?
    ensures SameRows(Prune(s, e.pruneAt), DoExchange(s, e).store, cid)
  {
    var p := Prune(s, e.pruneAt);
    if e.form.CodeForm? {
      var rid, grant := ExchangeCodeShape(s, p, e);
      CodeIsolated(p, DoExchange(s, e).store, rid, e.draw.grant, grant, cid);
    } else {
      RefreshIsolated(s, p, e, cid);
    }
  }

  lemma CodeIsolated(p: Store, t: Store, rid: string, gid: string, grant: Grant, cid: string)
    requires rid in p.requests && p.requests[rid].connection == grant.connection != cid && gid !in p.grants
    requires t.connections == p.connections && t.clients == p.clients && t.requests == p.requests - {rid}
    requires t.grants == RevokeAll(p.grants, grant.connection)[gid := grant]
    ensures SameRows(p, t, cid)
  {}

  lemma RefreshIsolated(s: Store, p: Store, e: Event, cid: string)
    requires e.Exchange? && e.form.RefreshForm? && e.cid != cid && !ExchangeRefresh(s, p, e).reply.Refused?
    ensures SameRows(p, ExchangeRefresh(s, p, e).store, cid)
  {}

  // ---------------------------------------------------------------- how long a token is good for

  /** The access token `h` of a live family, with the ends of both. */
  ghost predicate LiveToken(s: Store, h: Hash, cid: string, gid: string, accessEnd: real, grantEnd: real) {
    && h in s.credentials && s.credentials[h].kind == Access && s.credentials[h].grant == gid
    && s.credentials[h].expiresAt == accessEnd
    && gid in s.grants && s.grants[gid].connection == cid && !s.grants[gid].revoked && s.grants[gid].expiresAt == grantEnd
    && cid in s.connections
  }

  /** The transaction does not prune at or after the time. */
  ghost predicate PrunesBefore(e: Event, t: real) {
    (e.Register? || e.Start? || e.Exchange?) ==> e.pruneAt < t
  }

  lemma PruneKeepsToken(s: Store, t: real, h: Hash, cid: string, gid: string, accessEnd: real, grantEnd: real)
    requires LiveToken(s, h, cid, gid, accessEnd, grantEnd) && t < accessEnd && t < grantEnd
    ensures LiveToken(Prune(s, t), h, cid, gid, accessEnd, grantEnd)
  {
    PruneExactly(s, t);
  }

  lemma ExchangeKeepsToken(s: Store, e: Event, h: Hash, cid: string, gid: string, accessEnd: real, grantEnd: real)
    requires e.Exchange? && LiveToken(s, h, cid, gid, accessEnd, grantEnd)
    requires PrunesBefore(e, accessEnd) && PrunesBefore(e, grantEnd) && !Ends(Entry(e, DoExchange(s, e).reply), cid, gid)
    ensures LiveToken(DoExchange(s, e).store, h, cid, gid, accessEnd, grantEnd)
  {
    PruneKeepsToken(s, e.pruneAt, h, cid, gid, accessEnd, grantEnd);
    if e.form.CodeForm? && DoExchange(s, e).reply.Accepted? {
      var rid, grant := ExchangeCodeShape(s, Prune(s, e.pruneAt), e);
    }
  }

  lemma StepKeepsToken(s: Store, e: Event, h: Hash, cid: string, gid: string, accessEnd: real, grantEnd: real)
    requires LiveToken(s, h, cid, gid, accessEnd, grantEnd)
    requires PrunesBefore(e, accessEnd) && PrunesBefore(e, grantEnd) && !Ends(Entry(e, Apply(s, e).reply), cid, gid)
    ensures LiveToken(Apply(s, e).store, h, cid, gid, accessEnd, grantEnd)
  {
    if e.Exchange? {
      ExchangeKeepsToken(s, e, h, cid, gid, accessEnd, grantEnd);
    } else if e.Register? || e.Start? {
      PruneKeepsToken(s, e.pruneAt, h, cid, gid, accessEnd, grantEnd);
    }
  }

  lemma IssuedIsLive(s: Store, e: Event) returns (gid: string, grantEnd: real)
    requires Inv(s) && e.Exchange? && DoExchange(s, e).reply.Accepted?
    ensures LiveToken(DoExchange(s, e).store, Sha256(e.draw.access), e.cid, gid, e.issueAt + 3600.0, grantEnd)
    ensures e.form.CodeForm? ==> gid == e.draw.grant && grantEnd == e.now + 2592000.0
    ensures e.form.RefreshForm? ==> gid in s.grants && grantEnd == s.grants[gid].expiresAt
  {
    var t := DoExchange(s, e).store;
    if e.form.CodeForm? {
      var rid, grant := ExchangeCodeShape(s, Prune(s, e.pruneAt), e);
      gid, grantEnd := e.draw.grant, grant.expiresAt;
    } else {
      gid := Prune(s, e.pruneAt).credentials[Sha256(e.form.token)].grant;
      grantEnd := s.grants[gid].expiresAt;
    }
  }

  /** The stores between the transactions of a run. */
  ghost predicate Chain(stores: seq<Store>, es: seq<Event>) {
    |stores| == |es| + 1 && forall i :: 0 <= i < |es| ==> stores[i + 1] == Apply(stores[i], es[i]).store
  }

  lemma {:induction false} RunChain(es: seq<Event>) returns (stores: seq<Store>)
    ensures Chain(stores, es) && stores[|es|] == Run(es).store
    ensures forall i :: 0 <= i <= |es| ==> stores[i] == Run(es[..i]).store && Inv(stores[i])
  {
    stores := seq(|es| + 1, i requires 0 <= i <= |es| => Run(es[..i]).store);
    assert es[..|es|] == es;
    forall i | 0 <= i < |es| ensures stores[i + 1] == Apply(stores[i], es[i]).store { StoreStep(es, i); }
    forall i | 0 <= i <= |es| ensures Inv(stores[i]) { StoreInv(es, i); }
  }

  lemma {:induction false} StoreStep(es: seq<Event>, i: nat)
    requires i < |es|
    ensures Run(es[..i + 1]).store == Apply(Run(es[..i]).store, es[i]).store
  {
    assert es[..i + 1][..i] == es[..i];
  }

  lemma {:induction false} StoreInv(es: seq<Event>, i: nat)
    requires i <= |es|
    ensures Inv(Run(es[..i]).store)
  {
    RunTraced(es[..i]);
  }

  /** Since the exchange at `l` nothing ended the family, and nothing pruned at or after the token's or the family's end. */
  ghost predicate Undisturbed(stores: seq<Store>, es: seq<Event>, l: nat, gid: string, grantEnd: real)
    requires Chain(stores, es) && l < |es| && es[l].Exchange?
  {
    forall m :: l < m < |es| ==>
      && !Ends(Entry(es[m], Apply(stores[m], es[m]).reply), es[l].cid, gid)
      && PrunesBefore(es[m], es[l].issueAt + 3600.0) && PrunesBefore(es[m], grantEnd)
  }

  lemma LiveAuthenticates(s: Store, access: string, cid: string, gid: string, accessEnd: real, grantEnd: real)
    requires LiveToken(s, Sha256(access), cid, gid, accessEnd, grantEnd)
    ensures forall t0, t1 :: t0 < accessEnd && t1 < grantEnd ==> Authenticates(s, cid, access, t0, t1)
  {}

  /**
  The other half of the end-to-end theorem: in every run, the access token of an
  accepted exchange opens its connection for an hour and until its family's end, as
  long as the family is not ended and nothing prunes at or after either time.
  */
  lemma {:induction false} TokenKeepsWorking(es: seq<Event>, l: nat) returns (stores: seq<Store>, gid: string, grantEnd: real)
    requires l < |es| && es[l].Exchange? && Apply(Run(es[..l]).store, es[l]).reply.Accepted?
    ensures Chain(stores, es) && forall i :: 0 <= i <= |es| ==> stores[i] == Run(es[..i]).store
    ensures es[l].form.CodeForm? ==> gid == es[l].draw.grant && grantEnd == es[l].now + 2592000.0
    ensures Undisturbed(stores, es, l, gid, grantEnd) ==>
      forall t0, t1 :: t0 < es[l].issueAt + 3600.0 && t1 < grantEnd ==>
        Authenticates(Run(es).store, es[l].cid, es[l].draw.access, t0, t1)
  {
    stores := RunChain(es);
    gid, grantEnd := ChainKeepsToken(stores, es, l);
  }

  lemma ChainKeepsToken(stores: seq<Store>, es: seq<Event>, l: nat) returns (gid: string, grantEnd: real)
    requires Chain(stores, es) && l < |es| && es[l].Exchange? && Inv(stores[l]) && Apply(stores[l], es[l]).reply.Accepted?
    ensures es[l].form.CodeForm? ==> gid == es[l].draw.grant && grantEnd == es[l].now + 2592000.0
    ensures Undisturbed(stores, es, l, gid, grantEnd) ==>
      forall t0, t1 :: t0 < es[l].issueAt + 3600.0 && t1 < grantEnd ==>
        Authenticates(stores[|es|], es[l].cid, es[l].draw.access, t0, t1)
  {
    gid, grantEnd := IssuedIsLive(stores[l], es[l]);
    if Undisturbed(stores, es, l, gid, grantEnd) {
      TokenLives(stores, es, l, gid, grantEnd);
      LiveAuthenticates(stores[|es|], es[l].draw.access, es[l].cid, gid, es[l].issueAt + 3600.0, grantEnd);
    }
  }

  /** The token of the exchange at `l` is live in the state `i`. */
  ghost predicate LiveAt(stores: seq<Store>, es: seq<Event>, l: nat, gid: string, grantEnd: real, i: nat)
    requires l < |es| && es[l].Exchange? && i < |stores|
  {
    LiveToken(stores[i], Sha256(es[l].draw.access), es[l].cid, gid, es[l].issueAt + 3600.0, grantEnd)
  }

  lemma TokenLives(stores: seq<Store>, es: seq<Event>, l: nat, gid: string, grantEnd: real)
    requires Chain(stores, es) && l < |es| && es[l].Exchange? && Undisturbed(stores, es, l, gid, grantEnd)
    requires LiveAt(stores, es, l, gid, grantEnd, l + 1)
    ensures LiveAt(stores, es, l, gid, grantEnd, |es|)
  {
    var live := seq(|stores|, i requires 0 <= i < |stores| => LiveAt(stores, es, l, gid, grantEnd, i));
    forall j | l < j < |es| && live[j] ensures live[j + 1] { TokenStep(stores, es, l, gid, grantEnd, j); }
    Persists(live, l + 1, |es|);
  }

  lemma TokenStep(stores: seq<Store>, es: seq<Event>, l: nat, gid: string, grantEnd: real, j: nat)
    requires Chain(stores, es) && l < j < |es| && es[l].Exchange? && Undisturbed(stores, es, l, gid, grantEnd)
    requires LiveAt(stores, es, l, gid, grantEnd, j)
    ensures LiveAt(stores, es, l, gid, grantEnd, j + 1)
  {
    StepKeepsToken(stores[j], es[j], Sha256(es[l].draw.access), es[l].cid, gid, es[l].issueAt + 3600.0, grantEnd);
  }

  /** What holds at one point and is kept by every step after it holds at every later point. */
  lemma {:induction false} Persists(holds: seq<bool>, a: nat, n: nat)
    requires a <= n < |holds| && holds[a] && forall j :: a <= j < n && holds[j] ==> holds[j + 1]
    ensures holds[n]
  {
    if a < n { Persists(holds, a, n - 1); }
  }
}
