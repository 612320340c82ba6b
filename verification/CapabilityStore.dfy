/** The capability store, statement by statement; every method performs its operation of the model. */
module CapabilityStore {
  import opened Prelude
  import opened CapabilityGrants
  import opened ScopePaths
  import FunctionGrants
  import FunctionApprovals

  class Store {
    /** The function store that a revocation is passed on to, once the server has connected it. */
    const functions: FunctionApprovals.Store?
    var passwords: map<string, Hash>
    var links: map<string, Link>
    var pending: map<string, Pending>
    var active: map<GrantKey, real>

    function View(): State
      reads this
    {
      State(passwords, links, pending, active)
    }

    constructor (functions: FunctionApprovals.Store?)
      ensures View() == INITIAL && this.functions == functions
    {
      this.functions := functions;
      passwords, links, pending, active := map[], map[], map[], map[];
    }

    method DropExpired(now: real)
      modifies this`pending, this`active
      ensures View() == Expire(old(View()), now)
    {
      pending := map t | t in pending && pending[t].deadline > now :: pending[t];
      active := map k | k in active && active[k] > now :: active[k];
    }

    method AskApproval(e: Event) returns (refusal: Option<Refusal>)
      requires e.Ask?
      modifies this`pending, this`active
      ensures View() == DoAsk(old(View()), e).state && refusal == DoAsk(old(View()), e).refusal
    {
      if !e.wellFormed || !Askable(e.path, e.capability) { return Some(BadInput); }
      DropExpired(e.now);
      if |TicketsOf(pending, e.workspace)| >= MAX_PENDING { return Some(TooMany); }
      pending := pending[e.ticket := Pending(e.workspace, e.conversation, e.target, e.capability,
                                             e.now + PENDING_SECONDS, e.path, None, 0, 0)];
      refusal := None;
    }

    method ApproveTicket(e: Event) returns (refusal: Option<Refusal>)
      requires e.Grant?
      modifies this`pending, this`active
      ensures View() == DoGrant(old(View()), e).state && refusal == DoGrant(old(View()), e).refusal
    {
      if !DurationOk(e.seconds) { return Some(BadInput); }
      DropExpired(e.now);
      if e.ticket !in pending { return Some(NoTicket); }
      var item := pending[e.ticket];
      if item.attempts >= MAX_ATTEMPTS { pending := pending - {e.ticket}; return Some(WrongPassword); }
      item := item.(attempts := item.attempts + 1);
      pending := pending[e.ticket := item];
      if !PasswordOk(View(), item.workspace, e.password) {
        if item.attempts >= MAX_ATTEMPTS { pending := pending - {e.ticket}; }
        return Some(WrongPassword);
      }
      if item.deadline <= e.later { pending := pending - {e.ticket}; return Some(NoTicket); }
      active := active[KeyOf(item) := e.later + e.seconds as real];
      pending := pending - {e.ticket};
      refusal := None;
    }

    method AuthenticateFile(e: Event) returns (refusal: Option<Refusal>)
      requires e.Authenticate?
      modifies this`pending, this`active
      ensures View() == DoAuthenticate(old(View()), e).state && refusal == DoAuthenticate(old(View()), e).refusal
    {
      if !DurationOk(e.seconds) { return Some(BadInput); }
      DropExpired(e.now);
      if e.ticket !in pending || pending[e.ticket].path == "" || !FileCapability(pending[e.ticket].capability) {
        return Some(NoTicket);
      }
      var item := pending[e.ticket];
      if item.attempts >= MAX_ATTEMPTS { pending := pending - {e.ticket}; return Some(WrongPassword); }
      if !PasswordOk(View(), item.workspace, e.password) {
        item := item.(attempts := item.attempts + 1);
        pending := pending[e.ticket := item];
        if item.attempts >= MAX_ATTEMPTS { pending := pending - {e.ticket}; }
        return Some(WrongPassword);
      }
      refusal := None;
    }

    method PrepareFileConfirmation(e: Event) returns (refusal: Option<Refusal>)
      requires e.Prepare?
      modifies this`pending, this`active
      ensures View() == DoPrepare(old(View()), e).state && refusal == DoPrepare(old(View()), e).refusal
    {
      DropExpired(e.now);
      if e.ticket !in pending { return Some(NoTicket); }
      if !e.wellFormed || !("/" <= e.path) || ".." in Split(e.path) { return Some(BadInput); }
      var item := pending[e.ticket];
      item := item.(path := e.path);
      item := item.(seconds := e.seconds);
      item := item.(cookie := Some(e.cookie));
      pending := pending[e.ticket := item];
      refusal := None;
    }

    method ConfirmFile(e: Event) returns (refusal: Option<Refusal>)
      requires e.Confirm?
      modifies this`pending, this`active
      ensures View() == DoConfirm(old(View()), e).state && refusal == DoConfirm(old(View()), e).refusal
    {
      DropExpired(e.now);
      if e.ticket !in pending || pending[e.ticket].cookie != Some(e.cookie) { return Some(NotConfirmed); }
      var item := pending[e.ticket];
      active := active[KeyOf(item) := e.now + item.seconds as real];
      pending := pending - {e.ticket};
      refusal := None;
    }

    /** Revocation reaches the function store between the grants and the tickets of this one. */
    method ClearWorkspace(workspace: string)
      modifies this, functions
      ensures View() == Cleared(old(View()), workspace)
      ensures functions != null ==>
        functions.View() == FunctionGrants.DoRevokeWorkspace(old(functions.View()), workspace).state
    {
      active := map k | k in active && k.workspace != workspace :: active[k];
      if functions != null { functions.RevokeAllOf(workspace); }
      pending := pending - TicketsOf(pending, workspace);
      links := map l | l in links && links[l].workspace != workspace :: links[l];
    }

    /** A password change ends all approvals of the Token, here and in the function store. */
    method ChangePassword(workspace: string, password: string) returns (refusal: Option<Refusal>)
      modifies this, functions
      ensures View() == DoSetPassword(old(View()), workspace, password).state
      ensures refusal == DoSetPassword(old(View()), workspace, password).refusal
      ensures functions != null && refusal.None? ==>
        functions.View() == FunctionGrants.DoRevokeWorkspace(old(functions.View()), workspace).state
      ensures functions != null && refusal.Some? ==> functions.View() == old(functions.View())
    {
      if !(6 <= |password| <= 1024) { return Some(BadInput); }
      passwords := passwords[workspace := Pbkdf2(password)];
      ClearWorkspace(workspace);
      refusal := None;
    }

    /**
    The approved scope for a path; `order` lists the matching scopes in table
    order.  Canonically spelled scopes make it the narrowest one.
    */
    method GrantedPath(workspace: string, conversation: nat, target: string, capability: Capability, path: string,
                       now: real, order: seq<string>) returns (scope: Option<string>)
      requires forall s :: s in order <==> s in ScopesOf(Expire(View(), now).active, workspace, conversation, target, capability)
      modifies this`pending, this`active
      ensures Unanswerable(path) ==> scope == None && View() == old(View())
      ensures !Unanswerable(path) ==> View() == Expire(old(View()), now)
      ensures !Unanswerable(path) ==> var scopes := ScopesOf(active, workspace, conversation, target, capability);
        && (scope.None? <==> forall s :: s in scopes ==> !Contains(s, path))
        && (scope.Some? ==> Longest(scopes, path, scope.value))
        && (scope.Some? && (forall s :: s in scopes ==> Normalized(s)) ==> Narrowest(scopes, path, scope.value))
    {
      if Unanswerable(path) { return None; }
      DropExpired(now);
      scope := GrantedScope(order, path);
      ghost var scopes := ScopesOf(active, workspace, conversation, target, capability);
      assert (set s | s in order) == scopes;
      if scope.Some? && forall s :: s in scopes ==> Normalized(s) {
        NormalizedScopesWork(scopes);
        LongestIsNarrowest(scopes, path, scope.value);
      }
    }
  }
}
