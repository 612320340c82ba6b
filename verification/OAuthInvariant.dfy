/**
What every OAuth transaction keeps: referential integrity, the owner snapshot of
pending requests, the binding of a connection to one client, one live grant per
connection, and one spare refresh token per grant.
*/
module OAuthInvariant {
  import opened Prelude
  import opened OAuthStore

  /** Foreign keys. */
  ghost predicate References(s: Store) {
    && (forall c :: c in s.clients ==> s.clients[c].connection in s.connections)
    && (forall r :: r in s.requests ==> s.requests[r].connection in s.connections)
    && (forall g :: g in s.grants ==> s.grants[g].connection in s.connections)
    && (forall h :: h in s.credentials ==> s.credentials[h].grant in s.grants)
  }

  /** A pending request belongs to the connection's current owner. */
  ghost predicate Snapshots(s: Store) {
    forall r :: r in s.requests && s.requests[r].connection in s.connections ==>
      s.requests[r].owner == s.connections[s.requests[r].connection].owner
  }

  /** Codes and grants carry the client their connection is bound to. */
  ghost predicate Bindings(s: Store) {
    && (forall r :: r in s.requests && s.requests[r].code.Some? && s.requests[r].connection in s.connections ==>
          s.connections[s.requests[r].connection].client == Some(s.requests[r].client))
    && (forall g :: g in s.grants && s.grants[g].connection in s.connections ==>
          s.connections[s.grants[g].connection].client == Some(s.grants[g].client))
  }

  /** The UNIQUE constraint on code hashes. */
  ghost predicate CodesUnique(s: Store) {
    forall r1, r2 :: r1 in s.requests && r2 in s.requests && s.requests[r1].code.Some? ==>
      s.requests[r1].code == s.requests[r2].code ==> r1 == r2
  }

  ghost predicate OneLiveGrant(s: Store) {
    forall g1, g2 :: g1 in s.grants && g2 in s.grants && !s.grants[g1].revoked && !s.grants[g2].revoked ==>
      s.grants[g1].connection == s.grants[g2].connection ==> g1 == g2
  }

  /** `h` is an unused refresh token of the family `g`. */
  ghost predicate Spare(s: Store, h: Hash, g: string) {
    h in s.credentials && s.credentials[h].grant == g && s.credentials[h].kind == Refresh && !s.credentials[h].used
  }

  ghost predicate OneSpare(s: Store) {
    && (forall g :: g in s.grants ==> exists h :: Spare(s, h, g))
    && (forall g, h1, h2 :: Spare(s, h1, g) && Spare(s, h2, g) ==> h1 == h2)
  }

  /** No refresh token outlives, or is outlived by, its grant. */
  ghost predicate Expiries(s: Store) {
    forall h :: h in s.credentials && s.credentials[h].kind == Refresh && s.credentials[h].grant in s.grants ==>
      s.credentials[h].expiresAt == s.grants[s.credentials[h].grant].expiresAt
  }

  ghost predicate Inv(s: Store) {
    && References(s) && Snapshots(s) && Bindings(s) && CodesUnique(s)
    && OneLiveGrant(s) && OneSpare(s) && Expiries(s)
  }

  lemma SpareKept(s: Store, t: Store)
    requires OneSpare(s)
    requires t.grants.Keys <= s.grants.Keys
    requires forall h, g :: g in t.grants ==> (Spare(t, h, g) <==> Spare(s, h, g))
    requires forall h :: h in t.credentials ==> t.credentials[h].grant in t.grants
    ensures OneSpare(t)
  {
    forall g | g in t.grants ensures exists h :: Spare(t, h, g) {
      var h :| Spare(s, h, g);
      assert Spare(t, h, g);
    }
  }

  /** A transaction that leaves grants and credentials alone keeps what is said about them. */
  lemma FamiliesSame(s: Store, t: Store)
    requires OneLiveGrant(s) && OneSpare(s) && Expiries(s) && t.grants == s.grants && t.credentials == s.credentials
    ensures OneLiveGrant(t) && OneSpare(t) && Expiries(t)
  {
    forall h, g ensures Spare(t, h, g) <==> Spare(s, h, g) {}
  }

  lemma PruneKeeps(s: Store, now: real)
    requires Inv(s)
    ensures Inv(Prune(s, now))
  {
    SpareKept(s, Prune(s, now));
  }

  lemma UpdateKeeps(s: Store, cid: string, appId: Option<string>, workspace: Option<string>)
    requires Inv(s)
    ensures Inv(DoUpdate(s, cid, appId, workspace).store)
  {
    FamiliesSame(s, DoUpdate(s, cid, appId, workspace).store);
  }

  lemma DeleteKeeps(s: Store, cid: string)
    requires Inv(s)
    ensures Inv(DoDelete(s, cid).store)
  {
    SpareKept(s, DoDelete(s, cid).store);
  }

  lemma CreateKeeps(s: Store, cid: string, owner: Owner)
    requires Inv(s)
    ensures Inv(DoCreate(s, cid, owner).store)
  {
    FamiliesSame(s, DoCreate(s, cid, owner).store);
  }

  lemma RegisterKeeps(s: Store, e: Event)
    requires Inv(s) && e.Register?
    ensures Inv(DoRegister(s, e).store)
  {
    var p := Prune(s, e.pruneAt);
    PruneKeeps(s, e.pruneAt);
    var t := DoRegister(s, e).store;
    if t != s { FamiliesSame(p, t); }
  }

  lemma StartKeeps(s: Store, e: Event)
    requires Inv(s) && e.Start?
    ensures Inv(DoStart(s, e).store)
  {
    var p := Prune(s, e.pruneAt);
    PruneKeeps(s, e.pruneAt);
    if DoStart(s, e).reply.Accepted? {
      InsertRequestKeeps(p, e.rid, DoStart(s, e).store.requests[e.rid]);
    }
  }

  lemma InsertRequestKeeps(p: Store, rid: string, row: Request)
    requires Inv(p) && row.connection in p.connections && row.owner == p.connections[row.connection].owner
    requires row.code.None?
    ensures Inv(p.(requests := p.requests[rid := row]))
  {
    FamiliesSame(p, p.(requests := p.requests[rid := row]));
  }

  lemma ApproveKeeps(s: Store, rid: string, expected: Option<Owner>, code: string, lookAt: real, now: real)
    requires Inv(s)
    ensures Inv(DoApprove(s, rid, expected, code, lookAt, now).store)
    ensures forall c :: c in s.connections && s.connections[c].client.Some? ==>
      var t := DoApprove(s, rid, expected, code, lookAt, now).store;
      c in t.connections && t.connections[c].client == s.connections[c].client
  {
    var step := DoApprove(s, rid, expected, code, lookAt, now);
    if step.reply.Accepted? { BindKeeps(s, rid, s.requests[rid], Sha256(code), now + CODE_SECONDS); }
  }

  /** Turning an open request into a code, on a connection that is unbound or bound to its client. */
  lemma BindKeeps(s: Store, rid: string, row: Request, code: Hash, expiresAt: real)
    requires Inv(s) && rid in s.requests && row == s.requests[rid] && row.connection in s.connections
    requires s.connections[row.connection].client in {None, Some(row.client)}
    requires forall r :: r in s.requests ==> s.requests[r].code != Some(code)
    ensures Inv(s.(connections := s.connections[row.connection := s.connections[row.connection].(client := Some(row.client))],
                   requests := s.requests[rid := row.(code := Some(code), expiresAt := expiresAt)]))
  {
    var bound := s.connections[row.connection].(client := Some(row.client));
    FamiliesSame(s, s.(connections := s.connections[row.connection := bound],
                       requests := s.requests[rid := row.(code := Some(code), expiresAt := expiresAt)]));
  }

  lemma DenyKeeps(s: Store, rid: string, lookAt: real)
    requires Inv(s)
    ensures Inv(DoDeny(s, rid, lookAt).store)
  {
    FamiliesSame(s, DoDeny(s, rid, lookAt).store);
  }

  /** A new family starts with one spare refresh token, the others keep theirs. */
  lemma IssueAddsSpare(s: Store, t: Store, gid: string, expiry: real, issueAt: real, d: Draw)
    requires References(s) && OneSpare(s) && gid !in s.grants
    requires Issue(s.credentials, gid, expiry, issueAt, d) == Some(t.credentials)
    requires t.grants.Keys == s.grants.Keys + {gid}
    ensures OneSpare(t)
  {
    assert Spare(t, Sha256(d.refresh), gid);
    forall g, h | g != gid ensures Spare(t, h, g) <==> Spare(s, h, g) {}
    forall g | g in t.grants ensures exists h :: Spare(t, h, g) {
      if g != gid {
        var h :| Spare(s, h, g);
        assert Spare(t, h, g);
      }
    }
  }

  /** Rotation replaces the spare refresh token of its own family. */
  lemma IssueRotatesSpare(s: Store, t: Store, h: Hash, expiry: real, issueAt: real, d: Draw)
    requires OneSpare(s) && h in s.credentials && Spare(s, h, s.credentials[h].grant)
    requires Issue(s.credentials[h := s.credentials[h].(used := true)], s.credentials[h].grant, expiry, issueAt, d)
             == Some(t.credentials)
    requires t.grants == s.grants
    ensures OneSpare(t)
  {
    var gid := s.credentials[h].grant;
    assert Spare(t, Sha256(d.refresh), gid);
    forall g, h' | g != gid ensures Spare(t, h', g) <==> Spare(s, h', g) {}
    forall h' | Spare(t, h', gid) ensures h' == Sha256(d.refresh) {
      if h' != Sha256(d.refresh) { assert Spare(s, h', gid); }
    }
    forall g | g in t.grants ensures exists h :: Spare(t, h, g) {
      if g != gid {
        var h' :| Spare(s, h', g);
        assert Spare(t, h', g);
      }
    }
  }

  /** Inserting the only live grant of its connection, after revoking the others. */
  lemma NewGrantKeeps(p: Store, t: Store, rid: string, gid: string, grant: Grant)
    requires References(p) && Snapshots(p) && Bindings(p) && CodesUnique(p) && OneLiveGrant(p)
    requires grant.connection in p.connections && p.connections[grant.connection].client == Some(grant.client)
    requires t.connections == p.connections && t.clients == p.clients && t.requests == p.requests - {rid}
    requires t.grants == RevokeAll(p.grants, grant.connection)[gid := grant]
    ensures (forall r :: r in t.requests ==> t.requests[r].connection in t.connections)
    ensures (forall g :: g in t.grants ==> t.grants[g].connection in t.connections)
    ensures Snapshots(t) && Bindings(t) && CodesUnique(t) && OneLiveGrant(t)
  {}

  lemma IssueKeeps(p: Store, credentials: map<Hash, Credential>, gid: string, issueAt: real, d: Draw, t: Store)
    requires gid in t.grants && Issue(credentials, gid, t.grants[gid].expiresAt, issueAt, d) == Some(t.credentials)
    requires credentials.Keys == p.credentials.Keys && References(p) && Expiries(p)
    requires forall h :: h in credentials ==>
      credentials[h] == p.credentials[h] || credentials[h] == p.credentials[h].(used := true)
    requires p.grants.Keys <= t.grants.Keys
    requires forall g :: g in p.grants ==> t.grants[g].expiresAt == p.grants[g].expiresAt
    ensures (forall h :: h in t.credentials ==> t.credentials[h].grant in t.grants)
    ensures Expiries(t)
  {}

  /** What an accepted code exchange writes. */
  lemma ExchangeCodeShape(s: Store, p: Store, e: Event) returns (rid: string, grant: Grant)
    requires e.Exchange? && e.form.CodeForm? && ExchangeCode(s, p, e).reply.Accepted?
    ensures FindCode(p, Sha256(e.form.code), e.cid, e.client, e.now) == Some(rid)
    ensures CarriesCode(p, rid, Sha256(e.form.code), e.cid, e.client, e.now)
    ensures p.requests[rid].redirect == e.form.redirect && p.requests[rid].challenge == S256(e.form.verifier)
    ensures grant == Grant(e.cid, e.client, e.now + REFRESH_SECONDS, false) && e.draw.grant !in p.grants
    ensures var t := ExchangeCode(s, p, e).store;
      && t.connections == p.connections && t.clients == p.clients && t.requests == p.requests - {rid}
      && t.grants == RevokeAll(p.grants, e.cid)[e.draw.grant := grant]
      && Issue(p.credentials, e.draw.grant, grant.expiresAt, e.issueAt, e.draw) == Some(t.credentials)
  {
    rid := FindCode(p, Sha256(e.form.code), e.cid, e.client, e.now).value;
    grant := Grant(e.cid, e.client, e.now + REFRESH_SECONDS, false);
  }

  lemma NewFamilyKeeps(p: Store, t: Store, rid: string, gid: string, grant: Grant, issueAt: real, d: Draw)
    requires Inv(p) && gid !in p.grants
    requires grant.connection in p.connections && p.connections[grant.connection].client == Some(grant.client)
    requires t.connections == p.connections && t.clients == p.clients && t.requests == p.requests - {rid}
    requires t.grants == RevokeAll(p.grants, grant.connection)[gid := grant]
    requires Issue(p.credentials, gid, grant.expiresAt, issueAt, d) == Some(t.credentials)
    ensures Inv(t)
  {
    NewGrantKeeps(p, t, rid, gid, grant);
    NewFamilyExpiries(p, t, gid, grant, issueAt, d);
    IssueAddsSpare(p, t, gid, grant.expiresAt, issueAt, d);
  }

  lemma NewFamilyExpiries(p: Store, t: Store, gid: string, grant: Grant, issueAt: real, d: Draw)
    requires References(p) && Expiries(p) && gid !in p.grants
    requires t.grants == RevokeAll(p.grants, grant.connection)[gid := grant]
    requires Issue(p.credentials, gid, grant.expiresAt, issueAt, d) == Some(t.credentials)
    ensures forall h :: h in t.credentials ==> t.credentials[h].grant in t.grants
    ensures Expiries(t)
  {
    IssueKeeps(p, p.credentials, gid, issueAt, d, t);
  }

  lemma ExchangeCodeKeeps(s: Store, p: Store, e: Event)
    requires Inv(p) && e.Exchange? && e.form.CodeForm? && ExchangeCode(s, p, e).reply.Accepted?
    ensures Inv(ExchangeCode(s, p, e).store)
  {
    var rid, grant := ExchangeCodeShape(s, p, e);
    assert p.connections[e.cid].client == Some(e.client);
    NewFamilyKeeps(p, ExchangeCode(s, p, e).store, rid, e.draw.grant, grant, e.issueAt, e.draw);
  }

  lemma RotationKeeps(s: Store, p: Store, e: Event)
    requires Inv(p) && e.Exchange? && e.form.RefreshForm? && ExchangeRefresh(s, p, e).reply.Accepted?
    ensures Inv(ExchangeRefresh(s, p, e).store)
  {
    var t := ExchangeRefresh(s, p, e).store;
    var h := Sha256(e.form.token);
    var row := p.credentials[h];
    IssueKeeps(p, p.credentials[h := row.(used := true)], row.grant, e.issueAt, e.draw, t);
    IssueRotatesSpare(p, t, h, p.grants[row.grant].expiresAt, e.issueAt, e.draw);
  }

  lemma RevokeKeeps(p: Store, gid: string)
    requires Inv(p) && gid in p.grants
    ensures Inv(p.(grants := p.grants[gid := p.grants[gid].(revoked := true)]))
  {
    SpareKept(p, p.(grants := p.grants[gid := p.grants[gid].(revoked := true)]));
  }

  lemma ExchangeKeeps(s: Store, e: Event)
    requires e.Exchange? && Inv(Prune(s, e.pruneAt)) && !DoExchange(s, e).reply.Refused?
    ensures Inv(DoExchange(s, e).store)
  {
    var p := Prune(s, e.pruneAt);
    if e.form.CodeForm? {
      ExchangeCodeKeeps(s, p, e);
    } else if DoExchange(s, e).reply.Accepted? {
      RotationKeeps(s, p, e);
    } else {
      RevokeKeeps(p, p.credentials[Sha256(e.form.token)].grant);
    }
  }

  /** A refused transaction leaves the store as it found it. */
  lemma RefusedUnchanged(s: Store, e: Event)
    requires Apply(s, e).reply.Refused?
    ensures Apply(s, e).store == s
  {
    match e
    case Register(_, _, _, _, _, _, _) => assert DoRegister(s, e).store == s;
    case Start(_, _, _, _, _, _, _, _) => assert DoStart(s, e).store == s;
    case Approve(rid, expected, code, lookAt, now) => assert DoApprove(s, rid, expected, code, lookAt, now).store == s;
    case Exchange(_, _, _, _, _, _, _, _, _, _) => ExchangeRefused(s, e);
    case _ =>
  }

  lemma ExchangeRefused(s: Store, e: Event)
    requires e.Exchange? && DoExchange(s, e).reply.Refused?
    ensures DoExchange(s, e).store == s
  {}

  /** Every transaction keeps the invariant, whatever the clock and the random draws. */
  lemma ApplyKeeps(s: Store, e: Event)
    requires Inv(s)
    ensures Inv(Apply(s, e).store)
  {
    if Apply(s, e).reply.Refused? {
      RefusedUnchanged(s, e);
    } else {
      match e
      case Create(cid, owner) => CreateKeeps(s, cid, owner);
      case Update(cid, appId, workspace) => UpdateKeeps(s, cid, appId, workspace);
      case Delete(cid) => DeleteKeeps(s, cid);
      case Register(_, _, _, _, _, _, _) => RegisterKeeps(s, e);
      case Start(_, _, _, _, _, _, _, _) => StartKeeps(s, e);
      case Approve(rid, expected, code, lookAt, now) => ApproveKeeps(s, rid, expected, code, lookAt, now);
      case Deny(rid, lookAt) => DenyKeeps(s, rid, lookAt);
      case Exchange(_, _, _, _, _, _, _, _, _, _) =>
        PruneKeeps(s, e.pruneAt);
        ExchangeKeeps(s, e);
    }
  }

  ghost predicate ClientPasses(p: Store, e: Event)
    requires e.Exchange?
  {
    && FindClient(p, e.cid, e.client).Ok?
    && var client := FindClient(p, e.cid, e.client).value;
    && e.authMethod == client.authMethod && (client.secret.Some? ==> client.secret.value == Sha256(e.secretText))
    && e.resourceOk
  }

  /** An already rotated refresh token of the live family `gid` of this connection and client. */
  ghost predicate PresentsUsedToken(p: Store, e: Event, gid: string)
    requires e.Exchange?
  {
    && e.form.RefreshForm? && Sha256(e.form.token) in p.credentials
    && var row := p.credentials[Sha256(e.form.token)];
    && row.kind == Refresh && row.used && row.grant == gid && row.expiresAt > e.now
    && gid in p.grants && !p.grants[gid].revoked
    && p.grants[gid].connection == e.cid && p.grants[gid].client == e.client
  }

  /**
  Reuse is reported exactly when a used refresh token of a live family is
  presented; it commits the revocation of that family and of nothing else, and
  no bearer token of the family is accepted from then on.
  */
  lemma ReuseCommitsRevocation(s: Store, e: Event, gid: string)
    requires e.Exchange?
    ensures var p := Prune(s, e.pruneAt);
      Apply(s, e).reply == Reuse(gid) <==> ClientPasses(p, e) && PresentsUsedToken(p, e, gid)
    ensures Apply(s, e).reply == Reuse(gid) ==>
      var p, t := Prune(s, e.pruneAt), Apply(s, e).store;
      && gid in p.grants && t == p.(grants := p.grants[gid := p.grants[gid].(revoked := true)])
      && forall cid, access, t0, t1 :: Sha256(access) in t.credentials && t.credentials[Sha256(access)].grant == gid ==>
           !Authenticates(t, cid, access, t0, t1)
    ensures Apply(s, e).reply.Refused? ==> Apply(s, e).store == s
  {}
}
