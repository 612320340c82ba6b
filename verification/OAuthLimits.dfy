/** The store's quotas over whole runs: registered clients and pending requests of one connection. */
module OAuthLimits {
  import opened Prelude
  import opened OAuthStore
  import opened OAuthInvariant
  import opened OAuthHistory

  ghost predicate Quotas(s: Store, cid: string) {
    |ClientsOf(s, cid)| <= MAX_CLIENTS && |RequestsOf(s, cid)| <= MAX_REQUESTS
  }

  lemma PruneShrinks(s: Store, now: real, cid: string)
    ensures ClientsOf(Prune(s, now), cid) <= ClientsOf(s, cid)
    ensures RequestsOf(Prune(s, now), cid) <= RequestsOf(s, cid)
  {}

  lemma OthersShrinkClients(s: Store, e: Event, cid: string)
    requires !e.Register?
    ensures ClientsOf(Apply(s, e).store, cid) <= ClientsOf(s, cid)
  {
    forall c | c in ClientsOf(Apply(s, e).store, cid) ensures c in ClientsOf(s, cid) { ClientOrigins(s, e, c); }
  }

  lemma RegisterWithinQuota(s: Store, e: Event, cid: string)
    requires e.Register? && |ClientsOf(s, cid)| <= MAX_CLIENTS
    ensures |ClientsOf(DoRegister(s, e).store, cid)| <= MAX_CLIENTS
  {
    var p := Prune(s, e.pruneAt);
    PruneShrinks(s, e.pruneAt, cid);
    SubsetSize(ClientsOf(p, cid), ClientsOf(s, cid));
    if DoRegister(s, e).reply.Accepted? {
      ClientAdded(p, e.client, DoRegister(s, e).store.clients[e.client], cid);
    }
  }

  lemma ClientAdded(p: Store, id: string, row: Client, cid: string)
    requires id !in p.clients
    ensures |ClientsOf(p.(clients := p.clients[id := row]), cid)| == |ClientsOf(p, cid)| + if cid == row.connection then 1 else 0
  {
    var t := p.(clients := p.clients[id := row]);
    assert ClientsOf(t, cid) == ClientsOf(p, cid) + if cid == row.connection then {id} else {};
  }

  lemma RequestAdded(p: Store, id: string, row: Request, cid: string)
    requires id !in p.requests
    ensures |RequestsOf(p.(requests := p.requests[id := row]), cid)| == |RequestsOf(p, cid)| + if cid == row.connection then 1 else 0
  {
    var t := p.(requests := p.requests[id := row]);
    assert RequestsOf(t, cid) == RequestsOf(p, cid) + if cid == row.connection then {id} else {};
  }

  lemma StartWithinQuota(s: Store, e: Event, cid: string)
    requires e.Start? && |RequestsOf(s, cid)| <= MAX_REQUESTS
    ensures |RequestsOf(DoStart(s, e).store, cid)| <= MAX_REQUESTS
  {
    var p := Prune(s, e.pruneAt);
    PruneShrinks(s, e.pruneAt, cid);
    SubsetSize(RequestsOf(p, cid), RequestsOf(s, cid));
    if DoStart(s, e).reply.Accepted? {
      RequestAdded(p, e.rid, DoStart(s, e).store.requests[e.rid], cid);
    }
  }

  lemma OthersShrinkRequests(s: Store, e: Event, cid: string)
    requires !e.Start?
    ensures RequestsOf(Apply(s, e).store, cid) <= RequestsOf(s, cid)
  {
    forall rid | rid in RequestsOf(Apply(s, e).store, cid) ensures rid in RequestsOf(s, cid) {
      RequestOrigins(s, e, rid);
    }
  }

  lemma StepWithinQuotas(s: Store, e: Event, cid: string)
    requires Quotas(s, cid)
    ensures Quotas(Apply(s, e).store, cid)
  {
    if e.Register? {
      RegisterWithinQuota(s, e, cid);
    } else {
      OthersShrinkClients(s, e, cid);
      SubsetSize(ClientsOf(Apply(s, e).store, cid), ClientsOf(s, cid));
    }
    if e.Start? {
      StartWithinQuota(s, e, cid);
    } else {
      OthersShrinkRequests(s, e, cid);
      SubsetSize(RequestsOf(Apply(s, e).store, cid), RequestsOf(s, cid));
    }
  }

  /** In every run a connection has at most 32 registered clients and 64 pending requests. */
  lemma {:induction false} QuotasHold(es: seq<Event>, cid: string)
    ensures |ClientsOf(Run(es).store, cid)| <= 32 && |RequestsOf(Run(es).store, cid)| <= 64
  {
    if es != [] {
      QuotasHold(es[..|es| - 1], cid);
      StepWithinQuotas(Run(es[..|es| - 1]).store, es[|es| - 1], cid);
    }
  }
}
