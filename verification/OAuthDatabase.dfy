/**
The store as the original updates it: one statement after another on the five
tables, with the tables restored when a statement or a check refuses.  Every
method is proved to perform exactly its transaction.
*/
module OAuthDatabase {
  import opened Prelude
  import opened OAuthStore
  import opened OAuthInvariant

  class Database {
    var connections: map<string, Connection>
    var clients: map<string, Client>
    var requests: map<string, Request>
    var grants: map<string, Grant>
    var credentials: map<Hash, Credential>

    function State(): Store
      reads this
    {
      Store(connections, clients, requests, grants, credentials)
    }

    ghost predicate Valid()
      reads this
    {
      Inv(State())
    }

    constructor ()
      ensures State() == EMPTY && Valid()
    {
      connections, clients, requests, grants, credentials := map[], map[], map[], map[], map[];
    }

    method Restore(s: Store)
      modifies this
      ensures State() == s
    {
      connections, clients, requests, grants, credentials :=
        s.connections, s.clients, s.requests, s.grants, s.credentials;
    }

    /** The four DELETE statements; removing a grant cascades to its credentials. */
    method DeleteExpired(now: real)
      modifies this
      ensures State() == Prune(old(State()), now)
    {
      requests := map r | r in requests && requests[r].expiresAt > now :: requests[r];
      grants := map g | g in grants && grants[g].expiresAt > now :: grants[g];
      credentials := CascadeCredentials(credentials, grants);
      credentials := map h | h in credentials && (credentials[h].kind == Refresh || credentials[h].expiresAt > now)
                         :: credentials[h];
      var bound := BoundClients(State());
      clients := map c | c in clients && (clients[c].createdAt >= now - CLIENT_SECONDS || c in bound) :: clients[c];
    }

    method CreateConnection(cid: string, owner: Owner) returns (reply: Reply)
      requires Valid()
      modifies this
      ensures Valid() && Step(State(), reply) == Apply(old(State()), Create(cid, owner))
    {
      ApplyKeeps(State(), Create(cid, owner));
      if cid in connections { return Refused(Conflict); }
      connections := connections[cid := Connection(owner, None)];
      reply := Accepted;
    }

    method UpdateConnection(cid: string, appId: Option<string>, workspace: Option<string>) returns (reply: Reply)
      requires Valid()
      modifies this
      ensures Valid() && Step(State(), reply) == Apply(old(State()), Update(cid, appId, workspace))
    {
      ApplyKeeps(State(), Update(cid, appId, workspace));
      if cid !in connections { return Refused(NoConnection); }
      var previous := connections[cid];
      var owner := previous.owner;
      if appId.Some? { owner := owner.(appId := appId.value); }
      if workspace.Some? { owner := owner.(workspace := workspace.value); }
      if owner != previous.owner {
        requests := requests - RequestsOf(State(), cid);
      }
      connections := connections[cid := previous.(owner := owner)];
      reply := Accepted;
    }

    method DeleteConnection(cid: string) returns (reply: Reply)
      requires Valid()
      modifies this
      ensures Valid() && Step(State(), reply) == Apply(old(State()), Delete(cid))
    {
      ApplyKeeps(State(), Delete(cid));
      if cid !in connections { return Refused(NoConnection); }
      connections := connections - {cid};
      clients := clients - ClientsOf(State(), cid);
      requests := requests - RequestsOf(State(), cid);
      grants := map g | g in grants && grants[g].connection != cid :: grants[g];
      credentials := CascadeCredentials(credentials, grants);
      reply := Accepted;
    }

    method RegisterClient(e: Event) returns (reply: Reply)
      requires Valid() && e.Register?
      modifies this
      ensures Valid() && Step(State(), reply) == Apply(old(State()), e)
    {
      var saved := State();
      DeleteExpired(e.pruneAt);
      if e.cid !in connections { Restore(saved); return Refused(NoConnection); }
      if connections[e.cid].client.Some? { Restore(saved); return Refused(AlreadyBound); }
      if |ClientsOf(State(), e.cid)| >= MAX_CLIENTS { Restore(saved); return Refused(TooMany); }
      if e.client in clients { Restore(saved); return Refused(Conflict); }
      var secret := if e.secret.Some? then Some(Sha256(e.secret.value)) else None;
      clients := clients[e.client := Client(e.cid, e.redirects, e.authMethod, secret, e.now)];
      reply := Accepted;
      ApplyKeeps(saved, e);
    }

    /** The transaction body of a start, on pruned tables. */
    method InsertRequest(saved: Store, e: Event) returns (reply: Reply)
      requires e.Start? && State() == Prune(saved, e.pruneAt)
      modifies this
      ensures Step(State(), reply) == DoStart(saved, e)
    {
      var client := FindClient(State(), e.cid, e.client);
      if client.Err? { Restore(saved); return Refused(client.error); }
      if e.redirect !in client.value.redirects || !e.wellFormed { Restore(saved); return Refused(Malformed); }
      if |RequestsOf(State(), e.cid)| >= MAX_REQUESTS { Restore(saved); return Refused(TooMany); }
      if e.rid in requests { Restore(saved); return Refused(Conflict); }
      requests := requests[e.rid := Request(e.cid, e.client, e.redirect, e.challenge, e.now + REQUEST_SECONDS, None,
                                            connections[e.cid].owner)];
      reply := Accepted;
    }

    method StartRequest(e: Event) returns (reply: Reply)
      requires Valid() && e.Start?
      modifies this
      ensures Valid() && Step(State(), reply) == Apply(old(State()), e)
    {
      var saved := State();
      StartKeeps(saved, e);
      DeleteExpired(e.pruneAt);
      reply := InsertRequest(saved, e);
    }

    method ApproveRequest(rid: string, expected: Option<Owner>, code: string, lookAt: real, now: real)
      returns (reply: Reply)
      requires Valid()
      modifies this
      ensures Valid() && Step(State(), reply) == Apply(old(State()), Approve(rid, expected, code, lookAt, now))
    {
      ApplyKeeps(State(), Approve(rid, expected, code, lookAt, now));
      var found := FindRequest(State(), rid, lookAt);
      if found.Err? { return Refused(found.error); }
      var row := found.value;
      if expected.Some? && expected.value != row.owner { return Refused(WrongControlToken); }
      if exists r :: r in requests && requests[r].code == Some(Sha256(code)) { return Refused(Conflict); }
      connections := connections[row.connection := connections[row.connection].(client := Some(row.client))];
      requests := requests[rid := row.(code := Some(Sha256(code)), expiresAt := now + CODE_SECONDS)];
      reply := Accepted;
    }

    method DenyRequest(rid: string, lookAt: real) returns (reply: Reply)
      requires Valid()
      modifies this
      ensures Valid() && Step(State(), reply) == Apply(old(State()), Deny(rid, lookAt))
    {
      ApplyKeeps(State(), Deny(rid, lookAt));
      var found := FindRequest(State(), rid, lookAt);
      if found.Err? { return Refused(found.error); }
      requests := requests - {rid};
      reply := Accepted;
    }

    /** Two INSERT statements; the first is undone when the second collides. */
    method IssuePair(gid: string, expiry: real, issueAt: real, d: Draw) returns (ok: bool)
      modifies this`credentials
      ensures ok == Issue(old(credentials), gid, expiry, issueAt, d).Some?
      ensures ok ==> Some(credentials) == Issue(old(credentials), gid, expiry, issueAt, d)
      ensures !ok ==> credentials == old(credentials)
    {
      var saved := credentials;
      if Sha256(d.access) in credentials { return false; }
      credentials := credentials[Sha256(d.access) := Credential(gid, Access, issueAt + ACCESS_SECONDS, false)];
      if Sha256(d.refresh) in credentials { credentials := saved; return false; }
      credentials := credentials[Sha256(d.refresh) := Credential(gid, Refresh, expiry, false)];
      ok := true;
    }

    method RedeemCode(saved: Store, e: Event) returns (reply: Reply)
      requires e.Exchange? && e.form.CodeForm? && CodesUnique(State())
      modifies this
      ensures Step(State(), reply) == ExchangeCode(saved, old(State()), e)
    {
      var h, gid := Sha256(e.form.code), e.draw.grant;
      var rows := set r | r in requests && requests[r].code == Some(h) && requests[r].connection == e.cid
                          && requests[r].client == e.client && requests[r].expiresAt > e.now;
      if rows == {} || !VerifierSyntax(e.form.verifier) {
        assert forall r :: CarriesCode(State(), r, h, e.cid, e.client, e.now) ==> r in rows;
        Restore(saved);
        return Refused(InvalidGrant);
      }
      var rid :| rid in rows;
      assert CarriesCode(State(), rid, h, e.cid, e.client, e.now);
      var row := requests[rid];
      if e.form.redirect != row.redirect || S256(e.form.verifier) != row.challenge {
        Restore(saved);
        return Refused(InvalidGrant);
      }
      requests := requests - {rid};
      grants := RevokeAll(grants, e.cid);
      if gid in grants { Restore(saved); return Refused(Conflict); }
      grants := grants[gid := Grant(e.cid, e.client, e.now + REFRESH_SECONDS, false)];
      var ok := IssuePair(gid, e.now + REFRESH_SECONDS, e.issueAt, e.draw);
      if !ok { Restore(saved); return Refused(Conflict); }
      reply := Accepted;
    }

    method RotateRefresh(saved: Store, e: Event) returns (reply: Reply)
      requires e.Exchange? && e.form.RefreshForm?
      modifies this
      ensures Step(State(), reply) == ExchangeRefresh(saved, old(State()), e)
    {
      var h := Sha256(e.form.token);
      if h !in credentials || credentials[h].kind != Refresh || credentials[h].grant !in grants {
        Restore(saved);
        return Refused(InvalidGrant);
      }
      var row := credentials[h];
      var grant := grants[row.grant];
      if grant.connection != e.cid || grant.client != e.client || grant.revoked || row.expiresAt <= e.now {
        Restore(saved);
        return Refused(InvalidGrant);
      }
      if row.used {
        grants := grants[row.grant := grant.(revoked := true)];
        return Reuse(row.grant);
      }
      credentials := credentials[h := row.(used := true)];
      var ok := IssuePair(row.grant, grant.expiresAt, e.issueAt, e.draw);
      if !ok { Restore(saved); return Refused(Conflict); }
      reply := Accepted;
    }

    method ExchangeToken(e: Event) returns (reply: Reply)
      requires Valid() && e.Exchange?
      modifies this
      ensures Valid() && Step(State(), reply) == Apply(old(State()), e)
    {
      ApplyKeeps(State(), e);
      PruneKeeps(State(), e.pruneAt);
      var saved := State();
      DeleteExpired(e.pruneAt);
      var client := FindClient(State(), e.cid, e.client);
      if client.Err? { Restore(saved); return Refused(client.error); }
      if e.authMethod != client.value.authMethod
         || (client.value.secret.Some? && client.value.secret.value != Sha256(e.secretText))
      {
        Restore(saved);
        return Refused(ClientAuthentication);
      }
      if !e.resourceOk { Restore(saved); return Refused(Malformed); }
      match e.form {
        case CodeForm(_, _, _) => reply := RedeemCode(saved, e);
        case RefreshForm(_) => reply := RotateRefresh(saved, e);
        case OtherForm => Restore(saved); reply := Refused(Malformed);
      }
    }

    /** The join of credentials and grants behind a bearer token. */
    method Authenticate(cid: string, access: string, t0: real, t1: real) returns (connection: Option<Connection>)
      requires Valid()
      ensures connection.Some? <==> Authenticates(State(), cid, access, t0, t1)
      ensures connection.Some? ==> cid in connections && connection.value == connections[cid]
    {
      var h := Sha256(access);
      if h !in credentials || credentials[h].kind != Access || credentials[h].expiresAt <= t0 { return None; }
      var grant := grants[credentials[h].grant];
      if grant.expiresAt <= t1 || grant.revoked || grant.connection != cid { return None; }
      connection := Some(connections[cid]);
    }
  }
}
