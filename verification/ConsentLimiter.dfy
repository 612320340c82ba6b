/**
The consent limiter: each attempt is charged to the caller's address and to the
authorization request, atomically, in windows that open with their first charge
and last 60 seconds.
*/
module ConsentLimiter {
  import opened Prelude

  const WINDOW := 60.0
  const ADDRESS_ATTEMPTS := 10
  const REQUEST_ATTEMPTS := 5
  const MAX_BUCKETS := 4096

  datatype Key = Address(text: string) | Request(text: string)
  datatype Bucket = Bucket(until: real, count: nat)

  type Table = map<Key, Bucket>

  function Limit(k: Key): nat {
    if k.Address? then ADDRESS_ATTEMPTS else REQUEST_ATTEMPTS
  }

  function Live(table: Table, now: real): Table {
    map k | k in table && table[k].until > now :: table[k]
  }

  function BucketOf(table: Table, k: Key, now: real): Bucket {
    if k in table then table[k] else Bucket(now + WINDOW, 0)
  }

  function Charge(table: Table, k: Key, now: real): Table {
    var b := BucketOf(table, k, now);
    table[k := b.(count := b.count + 1)]
  }

  predicate Exhausted(table: Table, k: Key, now: real) {
    BucketOf(table, k, now).count >= Limit(k)
  }

  predicate Admits(table: Table, a: Key, r: Key, now: real) {
    var live := Live(table, now);
    && HasRoom(table, a, r, now)
    && !Exhausted(live, a, now) && !Exhausted(live, r, now)
  }

  predicate HasRoom(table: Table, a: Key, r: Key, now: real) {
    var live := Live(table, now);
    |live| + (if a in live then 0 else 1) + (if r in live then 0 else 1) <= MAX_BUCKETS
  }

  /** Waiting that many seconds, and a thousandth for the original's rounding, closes the window of an exhausted budget. */
  predicate Waits(table: Table, k: Key, now: real, retry: int) {
    var live := Live(table, now);
    Exhausted(live, k, now) ==> BucketOf(live, k, now).until < now + retry as real + 0.001
  }

  /** An admitted attempt charges both budgets, a refused one neither. */
  function Take(table: Table, address: string, request: string, now: real): Table {
    var live := Live(table, now);
    if Admits(table, Address(address), Request(request), now)
    then Charge(Charge(live, Address(address), now), Request(request), now)
    else live
  }

  // ---------------------------------------------------------------- runs

  datatype Attempt = Attempt(address: string, request: string, at: real)

  /** An accepted attempt, as charged to one budget. */
  datatype Hit = Hit(key: Key, at: real)

  datatype World = World(table: Table, log: seq<Hit>)

  function Next(w: World, e: Attempt): World {
    World(Take(w.table, e.address, e.request, e.at),
          if Admits(w.table, Address(e.address), Request(e.request), e.at)
          then w.log + [Hit(Address(e.address), e.at), Hit(Request(e.request), e.at)]
          else w.log)
  }

  function Run(es: seq<Attempt>): World {
    if es == [] then World(map[], []) else Next(Run(es[..|es| - 1]), es[|es| - 1])
  }

  ghost predicate Monotone(es: seq<Attempt>) {
    forall i, j :: 0 <= i < j < |es| ==> es[i].at <= es[j].at
  }

  /** Hits on `k` before `t`. */
  function Before(log: seq<Hit>, k: Key, t: real): nat {
    if log == [] then 0
    else
      var last := log[|log| - 1];
      Before(log[..|log| - 1], k, t) + (if last.key == k && last.at < t then 1 else 0)
  }

  /** Hits on `k` up to and including `t`. */
  function UpTo(log: seq<Hit>, k: Key, t: real): nat {
    if log == [] then 0
    else
      var last := log[|log| - 1];
      UpTo(log[..|log| - 1], k, t) + (if last.key == k && last.at <= t then 1 else 0)
  }

  function Total(log: seq<Hit>, k: Key): nat {
    if log == [] then 0
    else Total(log[..|log| - 1], k) + (if log[|log| - 1].key == k then 1 else 0)
  }

  lemma {:induction false} CountsOrdered(log: seq<Hit>, k: Key, s: real, t: real)
    requires s <= t
    ensures Before(log, k, s) <= Before(log, k, t) <= UpTo(log, k, t) <= Total(log, k)
  {
    if log != [] { CountsOrdered(log[..|log| - 1], k, s, t); }
  }

  /** No hit is later than `t`. */
  ghost predicate Bounded(log: seq<Hit>, t: real) {
    forall i :: 0 <= i < |log| ==> log[i].at <= t
  }

  lemma {:induction false} AllBefore(log: seq<Hit>, k: Key, t: real, u: real)
    requires Bounded(log, t) && t < u
    ensures Before(log, k, u) == Total(log, k)
  {
    if log != [] { AllBefore(log[..|log| - 1], k, t, u); }
  }

  lemma HitCounts(log: seq<Hit>, h: Hit, k: Key, t: real)
    ensures Before(log + [h], k, t) == Before(log, k, t) + (if h.key == k && h.at < t then 1 else 0)
    ensures UpTo(log + [h], k, t) == UpTo(log, k, t) + (if h.key == k && h.at <= t then 1 else 0)
    ensures Total(log + [h], k) == Total(log, k) + (if h.key == k then 1 else 0)
  {
    assert (log + [h])[..|log|] == log;
  }

  // ---------------------------------------------------------------- invariant

  /**
  What the log says about one budget at time `now`.  An open window holds all
  hits since it opened, and the 60 seconds before it hold at most one budget;
  without an open window the last 60 seconds hold at most one budget.
  */
  ghost predicate BudgetOk(table: Table, log: seq<Hit>, k: Key, now: real) {
    if k in table then
      var b := table[k];
      && now < b.until <= now + WINDOW && b.count <= Limit(k)
      && Before(log, k, b.until) == Total(log, k)
      && Total(log, k) - Before(log, k, b.until - WINDOW) == b.count
      && Before(log, k, b.until - WINDOW) - Before(log, k, b.until - 2.0 * WINDOW) <= Limit(k)
    else
      && Before(log, k, now) == Total(log, k)
      && Total(log, k) - Before(log, k, now - WINDOW) <= Limit(k)
  }

  /** Time passes and windows close. */
  lemma LiveKeeps(table: Table, log: seq<Hit>, k: Key, t: real, now: real)
    requires BudgetOk(table, log, k, t) && t <= now
    ensures BudgetOk(Live(table, now), log, k, now)
  {
    CountsOrdered(log, k, t, now);
    CountsOrdered(log, k, t - WINDOW, now - WINDOW);
    if k in table && table[k].until <= now {
      CountsOrdered(log, k, table[k].until, now);
      CountsOrdered(log, k, table[k].until - WINDOW, now - WINDOW);
    }
  }

  lemma ChargeKeeps(table: Table, log: seq<Hit>, charged: Key, k: Key, now: real)
    requires BudgetOk(table, log, k, now) && BudgetOk(table, log, charged, now) && !Exhausted(table, charged, now)
    ensures BudgetOk(Charge(table, charged, now), log + [Hit(charged, now)], k, now)
  {
    var h := Hit(charged, now);
    forall t ensures Before(log + [h], k, t) == Before(log, k, t) + (if h.key == k && h.at < t then 1 else 0) {
      HitCounts(log, h, k, t);
    }
    HitCounts(log, h, k, now);
    CountsOrdered(log, k, now, now + WINDOW);
  }

  lemma TakeKeeps(w: World, e: Attempt, k: Key, t: real)
    requires forall k' :: BudgetOk(w.table, w.log, k', t)
    requires t <= e.at
    ensures BudgetOk(Next(w, e).table, Next(w, e).log, k, e.at)
  {
    var live, a, r := Live(w.table, e.at), Address(e.address), Request(e.request);
    LiveKeeps(w.table, w.log, k, t, e.at);
    LiveKeeps(w.table, w.log, a, t, e.at);
    LiveKeeps(w.table, w.log, r, t, e.at);
    if Admits(w.table, a, r, e.at) {
      ChargeKeeps(live, w.log, a, k, e.at);
      ChargeKeeps(live, w.log, a, r, e.at);
      ChargeKeeps(Charge(live, a, e.at), w.log + [Hit(a, e.at)], r, k, e.at);
      assert w.log + [Hit(a, e.at)] + [Hit(r, e.at)] == Next(w, e).log;
    }
  }

  /** The closed interval of 60 seconds from `s` holds at most two budgets. */
  ghost predicate IntervalOk(log: seq<Hit>, k: Key, s: real) {
    UpTo(log, k, s + WINDOW) - Before(log, k, s) <= 2 * Limit(k)
  }

  lemma RecentIntervals(table: Table, log: seq<Hit>, k: Key, now: real, s: real)
    requires BudgetOk(table, log, k, now) && now - WINDOW <= s
    ensures IntervalOk(log, k, s)
  {
    CountsOrdered(log, k, s, s + WINDOW);
    CountsOrdered(log, k, now - WINDOW, s);
    if k in table {
      CountsOrdered(log, k, table[k].until - 2.0 * WINDOW, s);
    }
  }

  ghost predicate BudgetsOk(w: World, now: real) {
    forall k :: BudgetOk(w.table, w.log, k, now)
  }

  lemma {:induction false} RunBudgets(es: seq<Attempt>)
    requires Monotone(es) && es != []
    ensures BudgetsOk(Run(es), es[|es| - 1].at)
  {
    var before, e := es[..|es| - 1], es[|es| - 1];
    var w := Run(before);
    var t := if before == [] then e.at else before[|before| - 1].at;
    if before != [] { RunBudgets(before); }
    assert BudgetsOk(w, t);
    forall k ensures BudgetOk(Run(es).table, Run(es).log, k, e.at) { TakeKeeps(w, e, k, t); }
  }

  /**
  The sliding bound: with a clock that never runs backwards, any 60 seconds, both
  ends included, hold at most twenty accepted attempts of an address and ten for a
  request, twice their budgets.
  */
  lemma {:induction false} SlidingBound(es: seq<Attempt>, k: Key, s: real)
    requires Monotone(es)
    ensures UpTo(Run(es).log, k, s + 60.0) - Before(Run(es).log, k, s) <= if k.Address? then 20 else 10
  {
    if es != [] {
      var before, e := es[..|es| - 1], es[|es| - 1];
      SlidingBound(before, k, s);
      RunBudgets(es);
      if e.at - WINDOW <= s {
        assert BudgetOk(Run(es).table, Run(es).log, k, e.at);
        RecentIntervals(Run(es).table, Run(es).log, k, e.at, s);
      } else {
        LaterAttempt(Run(before), e, k, s);
      }
    }
  }

  /** An attempt after an interval does not count in it. */
  lemma LaterAttempt(w: World, e: Attempt, k: Key, s: real)
    requires e.at > s + WINDOW
    ensures UpTo(Next(w, e).log, k, s + WINDOW) == UpTo(w.log, k, s + WINDOW) && Before(Next(w, e).log, k, s) == Before(w.log, k, s)
  {
    var a, r := Hit(Address(e.address), e.at), Hit(Request(e.request), e.at);
    assert w.log + [a] + [r] == w.log + [a, r];
    HitCounts(w.log, a, k, s + WINDOW);
    HitCounts(w.log, a, k, s);
    HitCounts(w.log + [a], r, k, s + WINDOW);
    HitCounts(w.log + [a], r, k, s);
  }

  /** Accepted attempts on a budget in the last 60 seconds. */
  function Recent(log: seq<Hit>, k: Key, now: real): int {
    Total(log, k) - Before(log, k, now - 60.0)
  }

  /**
  In every run with such a clock, a caller with fewer than ten accepted attempts of
  its address and five for its request in the last 60 seconds is admitted, if there
  is room for two more buckets.
  */
  lemma QuietCallersAdmitted(es: seq<Attempt>, e: Attempt)
    requires Monotone(es) && (es != [] ==> es[|es| - 1].at <= e.at)
    requires |Live(Run(es).table, e.at)| + 2 <= 4096
    requires Recent(Run(es).log, Address(e.address), e.at) < 10 && Recent(Run(es).log, Request(e.request), e.at) < 5
    ensures Admits(Run(es).table, Address(e.address), Request(e.request), e.at)
  {
    if es != [] {
      RunBudgets(es);
      QuietBudget(Run(es), Address(e.address), es[|es| - 1].at, e.at);
      QuietBudget(Run(es), Request(e.request), es[|es| - 1].at, e.at);
    }
  }

  lemma QuietBudget(w: World, k: Key, t: real, now: real)
    requires BudgetsOk(w, t) && t <= now && Recent(w.log, k, now) < if k.Address? then 10 else 5
    ensures !Exhausted(Live(w.table, now), k, now)
  {
    assert BudgetOk(w.table, w.log, k, t);
    LiveKeeps(w.table, w.log, k, t, now);
    var live := Live(w.table, now);
    if k in live { CountsOrdered(w.log, k, now - WINDOW, live[k].until - WINDOW); }
  }

  /** The table never exceeds its capacity, whatever the clock does. */
  lemma {:induction false} TableBounded(es: seq<Attempt>)
    ensures |Run(es).table| <= 4096
  {
    if es != [] {
      var table, e := Run(es[..|es| - 1]).table, es[|es| - 1];
      TableBounded(es[..|es| - 1]);
      var live := Live(table, e.at);
      assert |live| <= |table| by {
        assert live.Keys <= table.Keys;
        SubsetSize(live.Keys, table.Keys);
      }
      if Admits(table, Address(e.address), Request(e.request), e.at) {
        ChargeSize(live, Address(e.address), e.at);
        ChargeSize(Charge(live, Address(e.address), e.at), Request(e.request), e.at);
      }
    }
  }

  lemma ChargeSize(table: Table, k: Key, now: real)
    ensures |Charge(table, k, now)| == |table| + if k in table then 0 else 1
  {
    assert Charge(table, k, now).Keys == table.Keys + {k};
  }

  // ---------------------------------------------------------------- the method

  class Limiter {
    var buckets: Table

    constructor ()
      ensures buckets == map[]
    {
      buckets := map[];
    }

    /** Reserves one attempt; the result is 0, or the seconds after which to retry. */
    method TakeAttempt(address: string, request: string, now: real) returns (retry: int)
      modifies this
      ensures buckets == Take(old(buckets), address, request, now)
      ensures retry == 0 <==> Admits(old(buckets), Address(address), Request(request), now)
      ensures retry >= 0
      ensures HasRoom(old(buckets), Address(address), Request(request), now) ==>
        Waits(old(buckets), Address(address), now, retry) && Waits(old(buckets), Request(request), now, retry)
    {
      buckets := Live(buckets, now);
      var keys := [Address(address), Request(request)];
      var missing := 0;
      for i := 0 to 2
        invariant missing == (if i > 0 && keys[0] !in buckets then 1 else 0)
                           + (if i > 1 && keys[1] !in buckets then 1 else 0)
      {
        if keys[i] !in buckets { missing := missing + 1; }
      }
      if |buckets| + missing > MAX_BUCKETS { return 60; }
      retry := 0;
      for i := 0 to 2
        invariant retry >= 0
        invariant (i > 0 ==> Waits(old(buckets), keys[0], now, retry)) && (i > 1 ==> Waits(old(buckets), keys[1], now, retry))
        invariant retry == 0 <==> (i > 0 ==> !Exhausted(buckets, keys[0], now)) && (i > 1 ==> !Exhausted(buckets, keys[1], now))
      {
        var b := BucketOf(buckets, keys[i], now);
        if b.count >= Limit(keys[i]) {
          var wait := (b.until - now + 0.999).Floor;
          if wait < 1 { wait := 1; }
          if wait > retry { retry := wait; }
        }
      }
      if retry > 0 { return; }
      ghost var live := buckets;
      for i := 0 to 2
        invariant buckets == if i == 0 then live
                             else if i == 1 then Charge(live, keys[0], now)
                             else Charge(Charge(live, keys[0], now), keys[1], now)
      {
        buckets := Charge(buckets, keys[i], now);
      }
    }
  }
}
