/**
The OAuth store: connections, clients, authorization requests (later codes),
grants and bearer credentials, each table a map from its primary key.

Every public operation is one transaction.  A refused operation rolls back, so
the store it leaves is the store it found; the one exception is refresh-token
reuse, whose revocation is committed before the error is raised.

Random identifiers and clock readings are inputs of an operation.  Nothing is
assumed about them: a drawn identifier that collides with a stored key violates
a PRIMARY KEY or UNIQUE constraint and refuses the transaction, and the clock
may run backwards.  SHA-256 is the injective constructor `Sha256`.
*/
module OAuthStore {
  import opened Prelude

  const ACCESS_SECONDS := 3600.0
  const REFRESH_SECONDS := 2592000.0
  const REQUEST_SECONDS := 600.0
  const CODE_SECONDS := 120.0
  const CLIENT_SECONDS := 86400.0
  const MAX_CLIENTS := 32
  const MAX_REQUESTS := 64

  datatype Hash = Sha256(preimage: string)

  /** A PKCE code challenge: the S256 image of a verifier, or some other text. */
  datatype Challenge = S256(verifier: string) | Opaque(text: string)

  datatype Owner = Owner(appId: string, workspace: string)
  datatype Connection = Connection(owner: Owner, client: Option<string>)
  datatype Client = Client(connection: string, redirects: set<string>, authMethod: string,
                           secret: Option<Hash>, createdAt: real)
  datatype Request = Request(connection: string, client: string, redirect: string, challenge: Challenge,
                             expiresAt: real, code: Option<Hash>, owner: Owner)
  datatype Grant = Grant(connection: string, client: string, expiresAt: real, revoked: bool)
  datatype Kind = Access | Refresh
  datatype Credential = Credential(grant: string, kind: Kind, expiresAt: real, used: bool)

  datatype Store = Store(
    connections: map<string, Connection>,
    clients: map<string, Client>,
    requests: map<string, Request>,
    grants: map<string, Grant>,
    credentials: map<Hash, Credential>)

  const EMPTY := Store(map[], map[], map[], map[], map[])

  datatype Error =
    | NoConnection | UnknownClient | OtherClient | AlreadyBound | TooMany | Malformed
    | NoRequest | OwnerChanged | WrongControlToken | ClientAuthentication | InvalidGrant | Conflict

  /** `Reuse` is the error that is raised after its revocation has been committed. */
  datatype Reply = Accepted | Refused(error: Error) | Reuse(grant: string)
  datatype Step = Step(store: Store, reply: Reply)

  datatype Form =
    | CodeForm(code: string, redirect: string, verifier: string)
    | RefreshForm(token: string)
    | OtherForm

  /** Random values drawn by a successful exchange. */
  datatype Draw = Draw(grant: string, access: string, refresh: string)

  datatype Event =
    | Create(cid: string, owner: Owner)
    | Update(cid: string, appId: Option<string>, workspace: Option<string>)
    | Delete(cid: string)
    | Register(cid: string, client: string, redirects: set<string>, authMethod: string,
               secret: Option<string>, pruneAt: real, now: real)
    | Start(cid: string, client: string, redirect: string, challenge: Challenge, wellFormed: bool,
            rid: string, pruneAt: real, now: real)
    | Approve(rid: string, expected: Option<Owner>, code: string, lookAt: real, now: real)
    | Deny(rid: string, lookAt: real)
    | Exchange(cid: string, client: string, secretText: string, authMethod: string, resourceOk: bool,
               form: Form, pruneAt: real, now: real, issueAt: real, draw: Draw)

  // ---------------------------------------------------------------- tables

  function BoundClients(s: Store): set<string> {
    set c | c in s.connections && s.connections[c].client.Some? :: s.connections[c].client.value
  }

  function CascadeCredentials(credentials: map<Hash, Credential>, grants: map<string, Grant>): map<Hash, Credential> {
    map h | h in credentials && credentials[h].grant in grants :: credentials[h]
  }

  /** Rows that have expired by `now`, with the credentials of removed grants. */
  function Prune(s: Store, now: real): Store {
    var grants := map g | g in s.grants && s.grants[g].expiresAt > now :: s.grants[g];
    var kept := CascadeCredentials(s.credentials, grants);
    s.(requests := map r | r in s.requests && s.requests[r].expiresAt > now :: s.requests[r],
       grants := grants,
       credentials := map h | h in kept && (kept[h].kind == Refresh || kept[h].expiresAt > now) :: kept[h],
       clients := map c | c in s.clients && (s.clients[c].createdAt >= now - CLIENT_SECONDS || c in BoundClients(s))
                      :: s.clients[c])
  }

  /** The client of a request, provided the connection is not bound to another one. */
  function FindClient(s: Store, cid: string, client: string): Result<Client, Error> {
    if client !in s.clients || s.clients[client].connection != cid then Err(UnknownClient)
    else if cid !in s.connections then Err(NoConnection)
    else if s.connections[cid].client.Some? && s.connections[cid].client.value != client then Err(OtherClient)
    else Ok(s.clients[client])
  }

  /** The open (not yet approved) request `rid`, after all of its checks. */
  function FindRequest(s: Store, rid: string, now: real): Result<Request, Error> {
    if rid !in s.requests || s.requests[rid].expiresAt <= now || s.requests[rid].code.Some? then Err(NoRequest)
    else
      var row := s.requests[rid];
      if row.connection !in s.connections then Err(NoConnection)
      else if row.owner != s.connections[row.connection].owner then Err(OwnerChanged)
      else match FindClient(s, row.connection, row.client)
        case Err(e) => Err(e)
        case Ok(_) => Ok(row)
  }

  ghost predicate CarriesCode(s: Store, rid: string, code: Hash, cid: string, client: string, now: real) {
    && rid in s.requests
    && s.requests[rid].code == Some(code)
    && s.requests[rid].connection == cid
    && s.requests[rid].client == client
    && s.requests[rid].expiresAt > now
  }

  /** The row a presented code selects; the UNIQUE constraint leaves at most one. */
  ghost function FindCode(s: Store, code: Hash, cid: string, client: string, now: real): (r: Option<string>)
    ensures r.Some? ==> CarriesCode(s, r.value, code, cid, client, now)
    ensures r.None? ==> forall rid :: !CarriesCode(s, rid, code, cid, client, now)
  {
    if exists rid :: CarriesCode(s, rid, code, cid, client, now)
    then Some(var rid :| CarriesCode(s, rid, code, cid, client, now); rid)
    else None
  }

  predicate VerifierSyntax(v: string) {
    43 <= |v| <= 128 && forall i :: 0 <= i < |v| ==>
      'A' <= v[i] <= 'Z' || 'a' <= v[i] <= 'z' || '0' <= v[i] <= '9' || v[i] in "._~-"
  }

  /** One access and one refresh row for the family `gid`; None on a key collision. */
  function Issue(credentials: map<Hash, Credential>, gid: string, expiry: real, issueAt: real, d: Draw)
    : Option<map<Hash, Credential>>
  {
    var access, refresh := Sha256(d.access), Sha256(d.refresh);
    if access in credentials || refresh in credentials || access == refresh then None
    else Some(credentials[access := Credential(gid, Access, issueAt + ACCESS_SECONDS, false)]
                         [refresh := Credential(gid, Refresh, expiry, false)])
  }

  function RevokeAll(grants: map<string, Grant>, cid: string): map<string, Grant> {
    map g | g in grants :: if grants[g].connection == cid then grants[g].(revoked := true) else grants[g]
  }

  function RequestsOf(s: Store, cid: string): set<string> {
    set r | r in s.requests && s.requests[r].connection == cid
  }

  function ClientsOf(s: Store, cid: string): set<string> {
    set c | c in s.clients && s.clients[c].connection == cid
  }

  // ---------------------------------------------------------------- transactions

  function DoCreate(s: Store, cid: string, owner: Owner): Step {
    if cid in s.connections then Step(s, Refused(Conflict))
    else Step(s.(connections := s.connections[cid := Connection(owner, None)]), Accepted)
  }

  /** Reassignment drops every pending request of the connection, keeping its grants. */
  function DoUpdate(s: Store, cid: string, appId: Option<string>, workspace: Option<string>): Step {
    if cid !in s.connections then Step(s, Refused(NoConnection))
    else
      var was := s.connections[cid];
      var owner := Owner(if appId.Some? then appId.value else was.owner.appId,
                         if workspace.Some? then workspace.value else was.owner.workspace);
      var requests := if owner == was.owner then s.requests else s.requests - RequestsOf(s, cid);
      Step(s.(connections := s.connections[cid := was.(owner := owner)], requests := requests), Accepted)
  }

  function DoDelete(s: Store, cid: string): Step {
    if cid !in s.connections then Step(s, Refused(NoConnection))
    else
      var grants := map g | g in s.grants && s.grants[g].connection != cid :: s.grants[g];
      Step(Store(s.connections - {cid}, s.clients - ClientsOf(s, cid), s.requests - RequestsOf(s, cid),
                 grants, CascadeCredentials(s.credentials, grants)), Accepted)
  }

  function DoRegister(s: Store, e: Event): Step
    requires e.Register?
  {
    var p := Prune(s, e.pruneAt);
    if e.cid !in p.connections then Step(s, Refused(NoConnection))
    else if p.connections[e.cid].client.Some? then Step(s, Refused(AlreadyBound))
    else if |ClientsOf(p, e.cid)| >= MAX_CLIENTS then Step(s, Refused(TooMany))
    else if e.client in p.clients then Step(s, Refused(Conflict))
    else
      var secret := if e.secret.Some? then Some(Sha256(e.secret.value)) else None;
      Step(p.(clients := p.clients[e.client := Client(e.cid, e.redirects, e.authMethod, secret, e.now)]), Accepted)
  }

  function DoStart(s: Store, e: Event): Step
    requires e.Start?
  {
    var p := Prune(s, e.pruneAt);
    match FindClient(p, e.cid, e.client)
    case Err(error) => Step(s, Refused(error))
    case Ok(client) =>
      if e.redirect !in client.redirects || !e.wellFormed then Step(s, Refused(Malformed))
      else if |RequestsOf(p, e.cid)| >= MAX_REQUESTS then Step(s, Refused(TooMany))
      else if e.rid in p.requests then Step(s, Refused(Conflict))
      else
        var row := Request(e.cid, e.client, e.redirect, e.challenge, e.now + REQUEST_SECONDS, None,
                           p.connections[e.cid].owner);
        Step(p.(requests := p.requests[e.rid := row]), Accepted)
  }

  function DoApprove(s: Store, rid: string, expected: Option<Owner>, code: string, lookAt: real, now: real): Step {
    match FindRequest(s, rid, lookAt)
    case Err(error) => Step(s, Refused(error))
    case Ok(row) =>
      if expected.Some? && expected.value != row.owner then Step(s, Refused(WrongControlToken))
      else if exists r :: r in s.requests && s.requests[r].code == Some(Sha256(code)) then Step(s, Refused(Conflict))
      else
        Step(s.(connections := s.connections[row.connection :=
                                  s.connections[row.connection].(client := Some(row.client))],
                requests := s.requests[rid := row.(code := Some(Sha256(code)), expiresAt := now + CODE_SECONDS)]),
             Accepted)
  }

  function DoDeny(s: Store, rid: string, lookAt: real): Step {
    match FindRequest(s, rid, lookAt)
    case Err(error) => Step(s, Refused(error))
    case Ok(row) => Step(s.(requests := s.requests - {rid}), Accepted)
  }

  /** `p` is the pruned store, `s` the store a refusal rolls back to. */
  ghost function ExchangeCode(s: Store, p: Store, e: Event): Step
    requires e.Exchange? && e.form.CodeForm?
  {
    var row := FindCode(p, Sha256(e.form.code), e.cid, e.client, e.now);
    if row.None? || !VerifierSyntax(e.form.verifier) then Step(s, Refused(InvalidGrant))
    else
      var r := p.requests[row.value];
      if e.form.redirect != r.redirect || S256(e.form.verifier) != r.challenge then Step(s, Refused(InvalidGrant))
      else if e.draw.grant in p.grants then Step(s, Refused(Conflict))
      else
        var expiry := e.now + REFRESH_SECONDS;
        match Issue(p.credentials, e.draw.grant, expiry, e.issueAt, e.draw)
        case None => Step(s, Refused(Conflict))
        case Some(credentials) =>
          Step(p.(requests := p.requests - {row.value},
                  grants := RevokeAll(p.grants, e.cid)[e.draw.grant := Grant(e.cid, e.client, expiry, false)],
                  credentials := credentials), Accepted)
  }

  function ExchangeRefresh(s: Store, p: Store, e: Event): Step
    requires e.Exchange? && e.form.RefreshForm?
  {
    var h := Sha256(e.form.token);
    if h !in p.credentials || p.credentials[h].kind != Refresh || p.credentials[h].grant !in p.grants
    then Step(s, Refused(InvalidGrant))
    else
      var row := p.credentials[h];
      var grant := p.grants[row.grant];
      if grant.connection != e.cid || grant.client != e.client || grant.revoked || row.expiresAt <= e.now
      then Step(s, Refused(InvalidGrant))
      else if row.used then
        Step(p.(grants := p.grants[row.grant := grant.(revoked := true)]), Reuse(row.grant))
      else
        match Issue(p.credentials[h := row.(used := true)], row.grant, grant.expiresAt, e.issueAt, e.draw)
        case None => Step(s, Refused(Conflict))
        case Some(credentials) => Step(p.(credentials := credentials), Accepted)
  }

  ghost function DoExchange(s: Store, e: Event): Step
    requires e.Exchange?
  {
    var p := Prune(s, e.pruneAt);
    match FindClient(p, e.cid, e.client)
    case Err(error) => Step(s, Refused(error))
    case Ok(client) =>
      if e.authMethod != client.authMethod || (client.secret.Some? && client.secret.value != Sha256(e.secretText))
      then Step(s, Refused(ClientAuthentication))
      else if !e.resourceOk then Step(s, Refused(Malformed))
      else match e.form
        case CodeForm(_, _, _) => ExchangeCode(s, p, e)
        case RefreshForm(_) => ExchangeRefresh(s, p, e)
        case OtherForm => Step(s, Refused(Malformed))
  }

  ghost function Apply(s: Store, e: Event): Step {
    match e
    case Create(cid, owner) => DoCreate(s, cid, owner)
    case Update(cid, appId, workspace) => DoUpdate(s, cid, appId, workspace)
    case Delete(cid) => DoDelete(s, cid)
    case Register(_, _, _, _, _, _, _) => DoRegister(s, e)
    case Start(_, _, _, _, _, _, _, _) => DoStart(s, e)
    case Approve(rid, expected, code, lookAt, now) => DoApprove(s, rid, expected, code, lookAt, now)
    case Deny(rid, lookAt) => DoDeny(s, rid, lookAt)
    case Exchange(_, _, _, _, _, _, _, _, _, _) => DoExchange(s, e)
  }

  /** Whether a bearer token opens the connection; the two clock readings are separate. */
  predicate Authenticates(s: Store, cid: string, access: string, t0: real, t1: real) {
    var h := Sha256(access);
    && h in s.credentials && s.credentials[h].kind == Access && s.credentials[h].expiresAt > t0
    && s.credentials[h].grant in s.grants
    && var g := s.grants[s.credentials[h].grant];
    g.expiresAt > t1 && !g.revoked && g.connection == cid && cid in s.connections
  }
}
