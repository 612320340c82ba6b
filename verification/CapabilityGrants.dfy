/**
Time-bound capability approvals: tickets, Workspace passwords, the two approval
routes (direct, and password then browser confirmation), active grants and their
revocation.  A Token is identified by its Workspace.

Ticket names are inputs and never drawn twice; clock readings are inputs.  A
stored password hash is the password itself behind an injective constructor, and
a browser proof is the cookie it was made from, bound to its ticket.
*/
module CapabilityGrants {
  import opened Prelude
  import opened ScopePaths

  const PENDING_SECONDS := 1800.0
  const SETUP_SECONDS := 900.0
  const MIN_SECONDS := 60
  const MAX_SECONDS := 86400
  const MAX_PENDING := 32
  const MAX_ATTEMPTS := 5

  datatype Capability = ShellUnsandboxed | FilesRead | FilesWrite

  datatype Pending = Pending(
    workspace: string, conversation: nat, target: string, capability: Capability, deadline: real,
    path: string, cookie: Option<string>, seconds: int, attempts: nat)

  datatype GrantKey = GrantKey(workspace: string, conversation: nat, target: string, capability: Capability, path: string)

  datatype Hash = Pbkdf2(password: string)
  datatype Link = Link(workspace: string, expires: real)

  datatype State = State(
    passwords: map<string, Hash>,
    links: map<string, Link>,
    pending: map<string, Pending>,
    active: map<GrantKey, real>)

  const INITIAL := State(map[], map[], map[], map[])

  datatype Refusal = BadInput | TooMany | NoTicket | WrongPassword | NotConfirmed | NoLink

  function Expire(s: State, now: real): State {
    s.(pending := map t | t in s.pending && s.pending[t].deadline > now :: s.pending[t],
       active := map k | k in s.active && s.active[k] > now :: s.active[k])
  }

  function TicketsOf(pending: map<string, Pending>, workspace: string): set<string> {
    set t | t in pending && pending[t].workspace == workspace
  }

  predicate PasswordOk(s: State, workspace: string, password: string) {
    |password| <= 1024 && workspace in s.passwords && s.passwords[workspace] == Pbkdf2(password)
  }

  predicate DurationOk(seconds: int) {
    MIN_SECONDS <= seconds <= MAX_SECONDS
  }

  function KeyOf(p: Pending): GrantKey {
    GrantKey(p.workspace, p.conversation, p.target, p.capability, p.path)
  }

  predicate FileCapability(c: Capability) {
    c == FilesRead || c == FilesWrite
  }

  /** The approved directories for one Token, conversation, target and capability. */
  function ScopesOf(active: map<GrantKey, real>, workspace: string, conversation: nat, target: string,
                    capability: Capability): set<string>
  {
    set k | k in active && k == GrantKey(workspace, conversation, target, capability, k.path) && k.path != "" :: k.path
  }

  // ---------------------------------------------------------------- operations

  datatype Event =
    | Ask(ticket: string, workspace: string, conversation: nat, target: string, capability: Capability, path: string,
          wellFormed: bool, now: real)
    | Grant(ticket: string, password: string, seconds: int, now: real, later: real)
    | Authenticate(ticket: string, password: string, seconds: int, now: real)
    | Prepare(ticket: string, cookie: string, path: string, seconds: int, wellFormed: bool, now: real)
    | Confirm(ticket: string, cookie: string, now: real)
    | SetPassword(workspace: string, password: string)
    | MakeLink(link: string, workspace: string, now: real)
    | UseLink(link: string, password: string, confirmation: string, now: real)
    | Revoke(key: GrantKey)
    | RevokeWorkspace(workspace: string)
    | RemoveWorkspace(workspace: string)
    | Look(now: real)

  /** What an approval was given on. */
  datatype Proof = ByPassword(text: string) | ByBrowser(cookie: string)

  /** What a reset does to the Token's password. */
  datatype Change = Kept | Removed | SetTo(text: string)

  /** What a call did, as far as tickets and grants are concerned. */
  datatype Fact =
    | Asked(ticket: string, workspace: string)
    | Wrong(ticket: string)
    | Prepared(ticket: string, cookie: string, path: string, seconds: int)
    | Authenticated(ticket: string, workspace: string, password: string)
    | Granted(ticket: string, key: GrantKey, seconds: int, proof: Proof)
    | Reset(workspace: string, change: Change)
    | Nothing

  datatype Outcome = Outcome(state: State, fact: Fact, refusal: Option<Refusal>)

  /** A request names no path, or one that a scope can answer for, for a file capability. */
  predicate Askable(path: string, capability: Capability) {
    path != "" ==> FileCapability(capability) && !Unanswerable(path)
  }

  function DoAsk(s: State, e: Event): Outcome
    requires e.Ask?
  {
    if !e.wellFormed || !Askable(e.path, e.capability) then Outcome(s, Nothing, Some(BadInput))
    else
      var p := Expire(s, e.now);
      if |TicketsOf(p.pending, e.workspace)| >= MAX_PENDING then Outcome(p, Nothing, Some(TooMany))
      else Outcome(p.(pending := p.pending[e.ticket :=
                       Pending(e.workspace, e.conversation, e.target, e.capability, e.now + PENDING_SECONDS, e.path,
                               None, 0, 0)]),
                   Asked(e.ticket, e.workspace), None)
  }

  /** The direct route: the attempt counts before the password is checked. */
  function DoGrant(s: State, e: Event): Outcome
    requires e.Grant?
  {
    if !DurationOk(e.seconds) then Outcome(s, Nothing, Some(BadInput))
    else
      var p := Expire(s, e.now);
      if e.ticket !in p.pending then Outcome(p, Nothing, Some(NoTicket))
      else
        var item := p.pending[e.ticket];
        var dropped := p.(pending := p.pending - {e.ticket});
        if item.attempts >= MAX_ATTEMPTS then Outcome(dropped, Nothing, Some(WrongPassword))
        else if !PasswordOk(p, item.workspace, e.password) then
          Outcome(if item.attempts + 1 >= MAX_ATTEMPTS then dropped
                  else p.(pending := p.pending[e.ticket := item.(attempts := item.attempts + 1)]),
                  Wrong(e.ticket), Some(WrongPassword))
        else if item.deadline <= e.later then Outcome(dropped, Nothing, Some(NoTicket))
        else Outcome(dropped.(active := p.active[KeyOf(item) := e.later + e.seconds as real]),
                     Granted(e.ticket, KeyOf(item), e.seconds, ByPassword(e.password)), None)
  }

  /** The first half of the browser route: a right password changes nothing yet. */
  function DoAuthenticate(s: State, e: Event): Outcome
    requires e.Authenticate?
  {
    if !DurationOk(e.seconds) then Outcome(s, Nothing, Some(BadInput))
    else
      var p := Expire(s, e.now);
      if e.ticket !in p.pending || p.pending[e.ticket].path == "" || !FileCapability(p.pending[e.ticket].capability)
      then Outcome(p, Nothing, Some(NoTicket))
      else
        var item := p.pending[e.ticket];
        var dropped := p.(pending := p.pending - {e.ticket});
        if item.attempts >= MAX_ATTEMPTS then Outcome(dropped, Nothing, Some(WrongPassword))
        else if !PasswordOk(p, item.workspace, e.password) then
          Outcome(if item.attempts + 1 >= MAX_ATTEMPTS then dropped
                  else p.(pending := p.pending[e.ticket := item.(attempts := item.attempts + 1)]),
                  Wrong(e.ticket), Some(WrongPassword))
        else Outcome(p, Authenticated(e.ticket, item.workspace, e.password), None)
  }

  function DoPrepare(s: State, e: Event): Outcome
    requires e.Prepare?
  {
    var p := Expire(s, e.now);
    if e.ticket !in p.pending then Outcome(p, Nothing, Some(NoTicket))
    else if !e.wellFormed || !("/" <= e.path) || ".." in Split(e.path) then Outcome(p, Nothing, Some(BadInput))
    else Outcome(p.(pending := p.pending[e.ticket :=
                     p.pending[e.ticket].(path := e.path, seconds := e.seconds, cookie := Some(e.cookie))]),
                 Prepared(e.ticket, e.cookie, e.path, e.seconds), None)
  }

  function DoConfirm(s: State, e: Event): Outcome
    requires e.Confirm?
  {
    var p := Expire(s, e.now);
    if e.ticket !in p.pending || p.pending[e.ticket].cookie != Some(e.cookie) then Outcome(p, Nothing, Some(NotConfirmed))
    else
      var item := p.pending[e.ticket];
      Outcome(p.(active := p.active[KeyOf(item) := e.now + item.seconds as real], pending := p.pending - {e.ticket}),
              Granted(e.ticket, KeyOf(item), item.seconds, ByBrowser(e.cookie)), None)
  }

  /** Everything of one Token goes: grants, tickets and password links. */
  function Cleared(s: State, workspace: string): State {
    s.(active := map k | k in s.active && k.workspace != workspace :: s.active[k],
       pending := s.pending - TicketsOf(s.pending, workspace),
       links := map l | l in s.links && s.links[l].workspace != workspace :: s.links[l])
  }

  function DoSetPassword(s: State, workspace: string, password: string): Outcome {
    if !(6 <= |password| <= 1024) then Outcome(s, Nothing, Some(BadInput))
    else Outcome(Cleared(s.(passwords := s.passwords[workspace := Pbkdf2(password)]), workspace), Reset(workspace, SetTo(password)), None)
  }

  /** One live link per Token. */
  function DoMakeLink(s: State, link: string, workspace: string, now: real): Outcome {
    var others := map l | l in s.links && s.links[l].expires > now && s.links[l].workspace != workspace :: s.links[l];
    Outcome(s.(links := others[link := Link(workspace, now + SETUP_SECONDS)]), Nothing, None)
  }

  function DoUseLink(s: State, e: Event): Outcome
    requires e.UseLink?
  {
    if e.password != e.confirmation then Outcome(s, Nothing, Some(BadInput))
    else if e.link !in s.links then Outcome(s, Nothing, Some(NoLink))
    else if s.links[e.link].expires <= e.now then Outcome(s.(links := s.links - {e.link}), Nothing, Some(NoLink))
    else DoSetPassword(s, s.links[e.link].workspace, e.password)
  }

  function Apply(s: State, e: Event): Outcome {
    match e
    case Ask(_, _, _, _, _, _, _, _) => DoAsk(s, e)
    case Grant(_, _, _, _, _) => DoGrant(s, e)
    case Authenticate(_, _, _, _) => DoAuthenticate(s, e)
    case Prepare(_, _, _, _, _, _) => DoPrepare(s, e)
    case Confirm(_, _, _) => DoConfirm(s, e)
    case SetPassword(workspace, password) => DoSetPassword(s, workspace, password)
    case MakeLink(link, workspace, now) => DoMakeLink(s, link, workspace, now)
    case UseLink(_, _, _, _) => DoUseLink(s, e)
    case Revoke(key) => Outcome(s.(active := s.active - {key}), Nothing, None)
    case RevokeWorkspace(workspace) => Outcome(Cleared(s, workspace), Reset(workspace, Kept), None)
    case RemoveWorkspace(workspace) =>
      Outcome(Cleared(s.(passwords := s.passwords - {workspace}), workspace), Reset(workspace, Removed), None)
    case Look(now) => Outcome(Expire(s, now), Nothing, None)
  }

  // ---------------------------------------------------------------- runs

  /** `origin` names, for each active grant, the ticket it came from. */
  datatype World = World(state: State, log: seq<Fact>, issued: set<string>, origin: map<GrantKey, string>)

  const GENESIS := World(INITIAL, [], {}, map[])

  predicate Enabled(w: World, e: Event) {
    e.Ask? ==> e.ticket !in w.issued
  }

  function Next(w: World, e: Event): World {
    var o := Apply(w.state, e);
    World(o.state, w.log + [o.fact],
          if e.Ask? then w.issued + {e.ticket} else w.issued,
          if o.fact.Granted? then w.origin[o.fact.key := o.fact.ticket] else w.origin)
  }

  function Run(es: seq<Event>): Option<World> {
    if es == [] then Some(GENESIS)
    else match Run(es[..|es| - 1])
      case None => None
      case Some(w) => if Enabled(w, es[|es| - 1]) then Some(Next(w, es[|es| - 1])) else None
  }

  predicate Resets(f: Fact, workspace: string) {
    f.Reset? && f.workspace == workspace
  }

  /** The password last set for a Token, unless it was removed since. */
  function CurrentPassword(log: seq<Fact>, workspace: string): Option<string> {
    if log == [] then None
    else
      var f := log[|log| - 1];
      if Resets(f, workspace) && f.change.SetTo? then Some(f.change.text)
      else if Resets(f, workspace) && f.change.Removed? then None
      else CurrentPassword(log[..|log| - 1], workspace)
  }

  /** The ticket was asked for by this Token, and the Token's password has not been changed or its grants revoked since. */
  predicate AskedSinceReset(log: seq<Fact>, ticket: string, workspace: string) {
    log != [] &&
    var f := log[|log| - 1];
    f == Asked(ticket, workspace) || (!Resets(f, workspace) && AskedSinceReset(log[..|log| - 1], ticket, workspace))
  }

  /** The grant was made from such a ticket, and its Token has not been reset since then either. */
  predicate GrantedSinceReset(log: seq<Fact>, ticket: string, k: GrantKey) {
    log != [] &&
    var f, before := log[|log| - 1], log[..|log| - 1];
    || (f.Granted? && f.ticket == ticket && f.key == k && AskedSinceReset(before, ticket, k.workspace))
    || (!Resets(f, k.workspace) && GrantedSinceReset(before, ticket, k))
  }

  function WrongCount(log: seq<Fact>, ticket: string): nat {
    if log == [] then 0
    else WrongCount(log[..|log| - 1], ticket) + (if log[|log| - 1] == Wrong(ticket) then 1 else 0)
  }

  /** The latest confirmation that was prepared for a ticket. */
  function LastPrepared(log: seq<Fact>, ticket: string): Option<Fact> {
    if log == [] then None
    else
      var f := log[|log| - 1];
      if f.Prepared? && f.ticket == ticket then Some(f) else LastPrepared(log[..|log| - 1], ticket)
  }

  /**
  A grant confirmed by a browser is what was prepared last for its ticket and that
  browser; a grant given on a password, and a password accepted for confirmation,
  took the Token's current password.
  */
  ghost predicate FactOk(log: seq<Fact>, i: nat) {
    i < |log| ==>
      match log[i]
      case Granted(ticket, key, seconds, ByBrowser(cookie)) =>
        LastPrepared(log[..i], ticket) == Some(Prepared(ticket, cookie, key.path, seconds))
      case Granted(_, key, _, ByPassword(text)) => CurrentPassword(log[..i], key.workspace) == Some(text)
      case Authenticated(_, workspace, text) => CurrentPassword(log[..i], workspace) == Some(text)
      case _ => true
  }

  /** The stored hash is that of the current password. */
  ghost predicate PasswordStored(w: World, workspace: string) {
    var current := CurrentPassword(w.log, workspace);
    && (workspace in w.state.passwords <==> current.Some?)
    && (current.Some? ==> w.state.passwords[workspace] == Pbkdf2(current.value) && |current.value| <= 1024)
  }

  /** No path, or an absolute one. */
  predicate RootedOrNone(path: string) {
    path == "" || "/" <= path
  }

  ghost predicate TicketOk(w: World, t: string)
    requires t in w.state.pending
  {
    var item := w.state.pending[t];
    && t in w.issued && AskedSinceReset(w.log, t, item.workspace)
    && WrongCount(w.log, t) <= item.attempts < MAX_ATTEMPTS
    && RootedOrNone(item.path)
    && (item.cookie.Some? ==> LastPrepared(w.log, t) == Some(Prepared(t, item.cookie.value, item.path, item.seconds)))
  }

  ghost predicate GrantOk(w: World, k: GrantKey)
    requires k in w.state.active
  {
    k in w.origin && GrantedSinceReset(w.log, w.origin[k], k) && RootedOrNone(k.path)
  }

  ghost predicate Inv(w: World) {
    && (forall t :: t in w.state.pending ==> TicketOk(w, t))
    && (forall k :: k in w.state.active ==> GrantOk(w, k))
    && (forall i :: 0 <= i < |w.log| ==> FactOk(w.log, i))
    && (forall workspace :: PasswordStored(w, workspace))
    && (forall t :: WrongCount(w.log, t) <= MAX_ATTEMPTS)
    && (forall t :: t !in w.issued ==> WrongCount(w.log, t) == 0)
    && (forall workspace :: |TicketsOf(w.state.pending, workspace)| <= MAX_PENDING)
  }
}
