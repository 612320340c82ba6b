/**
Server-side deadlines of function authorizations: the greedy matching of returned
items against earlier ones, the calibration of new items, and pruning.
*/
module GrantDeadlines {
  import opened Prelude

  const GRACE_SECONDS := 60.0

  /** One item of a Client's authorization: its opaque content and the Client's own expiry. */
  datatype Item = Item(body: string, expiresAt: real)

  /** An earlier item with the deadline the Server keeps for it. */
  datatype Timed = Timed(item: Item, deadline: real)

  function Count(items: seq<Item>, x: Item): nat {
    if items == [] then 0
    else Count(items[..|items| - 1], x) + (if items[|items| - 1] == x then 1 else 0)
  }

  /** The position of the n-th copy of `x`, counting from 0. */
  function NthCopy(prior: seq<Timed>, x: Item, n: nat): (r: Option<nat>)
    ensures r.Some? ==> r.value < |prior| && prior[r.value].item == x
    decreases |prior|
  {
    if prior == [] then None
    else if prior[0].item == x && n == 0 then Some(0)
    else match NthCopy(prior[1..], x, if prior[0].item == x then n - 1 else n)
      case None => None
      case Some(k) => Some(k + 1)
  }

  function Copies(prior: seq<Timed>, x: Item): nat {
    if prior == [] then 0 else (if prior[0].item == x then 1 else 0) + Copies(prior[1..], x)
  }

  /** The i-th returned item inherits from the old copy with the same rank among its equals. */
  function Source(prior: seq<Timed>, items: seq<Item>, i: nat): Option<nat>
    requires i < |items|
  {
    NthCopy(prior, items[i], Count(items[..i], items[i]))
  }

  /** The item inherits nothing. */
  predicate Fresh(prior: seq<Timed>, items: seq<Item>, i: nat)
    requires i < |items|
  {
    Source(prior, items, i).None?
  }

  function FreshItems(prior: seq<Timed>, items: seq<Item>): set<nat> {
    set i | 0 <= i < |items| && Fresh(prior, items, i)
  }

  /** The latest expiry among the chosen ones of the first `n` items. */
  function LatestAmong(items: seq<Item>, chosen: set<nat>, n: nat): Option<real>
    requires n <= |items|
  {
    if n == 0 then None
    else
      var before := LatestAmong(items, chosen, n - 1);
      if n - 1 !in chosen || (before.Some? && before.value >= items[n - 1].expiresAt) then before
      else Some(items[n - 1].expiresAt)
  }

  /** The latest expiry among the first `n` items that inherit nothing. */
  function LatestFresh(prior: seq<Timed>, items: seq<Item>, n: nat): Option<real>
    requires n <= |items|
  {
    LatestAmong(items, FreshItems(prior, items), n)
  }

  /** Inherited deadlines stay; new items count from the Client clock that the latest new expiry implies. */
  function DeadlineAt(prior: seq<Timed>, items: seq<Item>, started: real, seconds: real, i: nat): real
    requires i < |items|
  {
    match Source(prior, items, i)
    case Some(k) => prior[k].deadline
    case None =>
      match LatestFresh(prior, items, |items|)
      case None => started
      case Some(latest) => started + items[i].expiresAt - (latest - seconds) + GRACE_SECONDS
  }

  function Deadlines(prior: seq<Timed>, items: seq<Item>, started: real, seconds: real): (r: seq<real>)
    ensures |r| == |items|
    ensures forall i :: 0 <= i < |items| ==> r[i] == DeadlineAt(prior, items, started, seconds, i)
  {
    seq(|items|, i requires 0 <= i < |items| => DeadlineAt(prior, items, started, seconds, i))
  }

  function Zip(items: seq<Item>, deadlines: seq<real>): seq<Timed>
    requires |items| == |deadlines|
  {
    seq(|items|, i requires 0 <= i < |items| => Timed(items[i], deadlines[i]))
  }

  // ---------------------------------------------------------------- laws of the matching

  lemma {:induction false} NthCopyExists(prior: seq<Timed>, x: Item, n: nat)
    ensures NthCopy(prior, x, n).Some? <==> n < Copies(prior, x)
  {
    if prior != [] && !(prior[0].item == x && n == 0) {
      NthCopyExists(prior[1..], x, if prior[0].item == x then n - 1 else n);
    }
  }

  lemma {:induction false} NthCopyInjective(prior: seq<Timed>, x: Item, m: nat, n: nat)
    requires m != n && NthCopy(prior, x, m).Some? && NthCopy(prior, x, n).Some?
    ensures NthCopy(prior, x, m) != NthCopy(prior, x, n)
  {
    if prior[0].item == x {
      if m != 0 && n != 0 { NthCopyInjective(prior[1..], x, m - 1, n - 1); }
    } else {
      NthCopyInjective(prior[1..], x, m, n);
    }
  }

  lemma {:induction false} CountGrows(items: seq<Item>, i: nat, j: nat, x: Item)
    requires i <= j <= |items|
    ensures Count(items[..i], x) <= Count(items[..j], x)
    ensures i < j && items[i] == x ==> Count(items[..i], x) < Count(items[..j], x)
  {
    if i < j {
      assert items[..j][..j - 1] == items[..j - 1];
      CountGrows(items, i, j - 1, x);
    }
  }

  /** An item keeps an old deadline exactly when an old copy is still unmatched, and then it is a copy of itself. */
  lemma ItemInherits(prior: seq<Timed>, items: seq<Item>, started: real, seconds: real, i: nat)
    requires i < |items|
    ensures Source(prior, items, i).Some? <==> Count(items[..i], items[i]) < Copies(prior, items[i])
    ensures Source(prior, items, i).Some? ==>
      var k := Source(prior, items, i).value;
      prior[k].item == items[i] && Deadlines(prior, items, started, seconds)[i] == prior[k].deadline
  {
    NthCopyExists(prior, items[i], Count(items[..i], items[i]));
  }

  /** No old deadline is handed out twice. */
  lemma MatchingInjective(prior: seq<Timed>, items: seq<Item>, i: nat, j: nat)
    requires i < j < |items| && Source(prior, items, i).Some? && Source(prior, items, j).Some?
    ensures Source(prior, items, i) != Source(prior, items, j)
  {
    if items[i] == items[j] {
      CountGrows(items, i, j, items[i]);
      NthCopyInjective(prior, items[i], Count(items[..i], items[i]), Count(items[..j], items[j]));
    }
  }

  lemma {:induction false} LatestAmongIsMax(items: seq<Item>, chosen: set<nat>, n: nat)
    requires n <= |items|
    ensures var latest := LatestAmong(items, chosen, n);
      && (latest.None? <==> forall i :: 0 <= i < n ==> i !in chosen)
      && (latest.Some? ==> forall i :: 0 <= i < n && i in chosen ==> items[i].expiresAt <= latest.value)
      && (latest.Some? ==> exists i :: 0 <= i < n && i in chosen && items[i].expiresAt == latest.value)
  {
    if n > 0 { LatestAmongIsMax(items, chosen, n - 1); }
  }

  lemma LatestFreshIsMax(prior: seq<Timed>, items: seq<Item>)
    ensures var latest := LatestFresh(prior, items, |items|);
      && (latest.None? <==> forall i :: 0 <= i < |items| ==> !Fresh(prior, items, i))
      && (latest.Some? ==> forall i :: 0 <= i < |items| && Fresh(prior, items, i) ==> items[i].expiresAt <= latest.value)
      && (latest.Some? ==> exists i :: 0 <= i < |items| && Fresh(prior, items, i) && items[i].expiresAt == latest.value)
  {
    var chosen := FreshItems(prior, items);
    LatestAmongIsMax(items, chosen, |items|);
    assert forall i :: 0 <= i < |items| ==> (Fresh(prior, items, i) <==> i in chosen);
  }

  /** A new item lasts at most the approved time and the grace from the start of the approval; the latest lasts exactly that. */
  lemma FreshBound(prior: seq<Timed>, items: seq<Item>, started: real, seconds: real)
    ensures forall i :: 0 <= i < |items| && Fresh(prior, items, i) ==>
      Deadlines(prior, items, started, seconds)[i] <= started + seconds + GRACE_SECONDS
    ensures (exists i :: 0 <= i < |items| && Fresh(prior, items, i)) ==>
      exists i :: 0 <= i < |items| && Fresh(prior, items, i)
                  && Deadlines(prior, items, started, seconds)[i] == started + seconds + GRACE_SECONDS
  {
    LatestFreshIsMax(prior, items);
  }

  // ---------------------------------------------------------------- the loop with its working list

  function FirstCopy(prior: seq<Timed>, x: Item): (r: Option<nat>)
    ensures r == NthCopy(prior, x, 0)
  {
    if prior == [] then None
    else if prior[0].item == x then Some(0)
    else match FirstCopy(prior[1..], x)
      case None => None
      case Some(k) => Some(k + 1)
  }

  function Deadline(prior: seq<Timed>, x: Item, n: nat): Option<real> {
    match NthCopy(prior, x, n)
    case None => None
    case Some(k) => Some(prior[k].deadline)
  }

  // ---------------------------------------------------------------- what is held of one item

  function Tally(found: bool): nat {
    if found then 1 else 0
  }

  /** How many copies of an item are held with one and the same deadline. */
  function Held(timed: seq<Timed>, t: Timed): nat {
    if timed == [] then 0 else Held(timed[..|timed| - 1], t) + Tally(timed[|timed| - 1] == t)
  }

  /** The same among the first `n` copies of the item only. */
  function FirstHeld(prior: seq<Timed>, t: Timed, n: nat): nat {
    if n == 0 then 0 else FirstHeld(prior, t, n - 1) + Tally(Deadline(prior, t.item, n - 1) == Some(t.deadline))
  }

  lemma {:induction false} HeldFront(timed: seq<Timed>, t: Timed)
    requires timed != []
    ensures Held(timed, t) == Tally(timed[0] == t) + Held(timed[1..], t)
  {
    if |timed| > 1 {
      var before := timed[..|timed| - 1];
      HeldFront(before, t);
      assert before[1..] == timed[1..][..|timed| - 2];
    }
  }

  lemma {:induction false} FirstHeldFront(prior: seq<Timed>, t: Timed, n: nat)
    requires prior != []
    ensures prior[0].item != t.item ==> FirstHeld(prior, t, n) == FirstHeld(prior[1..], t, n)
    ensures prior[0].item == t.item && n > 0 ==>
      FirstHeld(prior, t, n) == Tally(prior[0] == t) + FirstHeld(prior[1..], t, n - 1)
  {
    if n > 0 {
      FirstHeldFront(prior, t, n - 1);
      DeadlineStep(prior, t.item, n - 1);
    }
  }

  lemma {:induction false} FirstHeldNone(t: Timed, n: nat)
    ensures FirstHeld([], t, n) == 0
  {
    if n > 0 { FirstHeldNone(t, n - 1); }
  }

  /** The first copies are among all copies, and are all of them when there are no more. */
  lemma {:induction false} FirstHeldWithin(prior: seq<Timed>, t: Timed, n: nat)
    ensures FirstHeld(prior, t, n) <= Held(prior, t)
    ensures n >= Copies(prior, t.item) ==> FirstHeld(prior, t, n) == Held(prior, t)
    decreases |prior|
  {
    if prior == [] {
      FirstHeldNone(t, n);
    } else {
      HeldFront(prior, t);
      FirstHeldFront(prior, t, n);
      if prior[0].item != t.item {
        FirstHeldWithin(prior[1..], t, n);
      } else if n > 0 {
        FirstHeldWithin(prior[1..], t, n - 1);
      }
    }
  }

  /** Item `k` has the deadline of the old copy of its own rank, if there is one. */
  ghost predicate TakesCopy(prior: seq<Timed>, items: seq<Item>, deadlines: seq<real>, k: nat)
    requires k < |items| == |deadlines|
  {
    var d := Deadline(prior, items[k], Count(items[..k], items[k]));
    && (d.Some? <==> Count(items[..k], items[k]) < Copies(prior, items[k]))
    && (d.Some? ==> deadlines[k] == d.value)
  }

  lemma MatchedDeadline(prior: seq<Timed>, items: seq<Item>, started: real, seconds: real, k: nat)
    requires k < |items|
    ensures TakesCopy(prior, items, Deadlines(prior, items, started, seconds), k)
  {
    NthCopyExists(prior, items[k], Count(items[..k], items[k]));
  }

  /** The first `i` returned items hold the deadlines of as many old copies, and no other if there are enough. */
  lemma {:induction false} MatchedHeld(prior: seq<Timed>, items: seq<Item>, deadlines: seq<real>, t: Timed, i: nat)
    requires i <= |items| == |deadlines|
    requires forall k :: 0 <= k < i ==> TakesCopy(prior, items, deadlines, k)
    ensures var held, first := Held(Zip(items, deadlines)[..i], t), FirstHeld(prior, t, Count(items[..i], t.item));
      first <= held && (Count(items[..i], t.item) <= Copies(prior, t.item) ==> held == first)
  {
    if i > 0 {
      var timed := Zip(items, deadlines);
      MatchedHeld(prior, items, deadlines, t, i - 1);
      var last := Timed(items[i - 1], deadlines[i - 1]);
      assert timed[..i][..i - 1] == timed[..i - 1] && timed[..i][i - 1] == last;
      assert items[..i][..i - 1] == items[..i - 1];
      assert Held(timed[..i], t) == Held(timed[..i - 1], t) + Tally(last == t);
      assert TakesCopy(prior, items, deadlines, i - 1);
      var rank := Count(items[..i - 1], t.item);
      if last.item == t.item {
        assert Count(items[..i], t.item) == rank + 1;
        assert FirstHeld(prior, t, rank + 1) == FirstHeld(prior, t, rank) + Tally(Deadline(prior, t.item, rank) == Some(t.deadline));
      } else {
        assert Count(items[..i], t.item) == rank;
      }
    }
  }

  /**
  Returning no more copies of an item than were held gives none of them a new
  deadline; returning no fewer loses none of the old ones.
  */
  lemma MatchingKeepsDeadlines(prior: seq<Timed>, items: seq<Item>, started: real, seconds: real, t: Timed)
    ensures var held := Held(Zip(items, Deadlines(prior, items, started, seconds)), t);
      && (Count(items, t.item) <= Copies(prior, t.item) ==> held <= Held(prior, t))
      && (Count(items, t.item) >= Copies(prior, t.item) ==> Held(prior, t) <= held)
  {
    var deadlines := Deadlines(prior, items, started, seconds);
    var timed := Zip(items, deadlines);
    forall k | 0 <= k < |items| ensures TakesCopy(prior, items, deadlines, k) {
      MatchedDeadline(prior, items, started, seconds, k);
    }
    MatchedHeld(prior, items, deadlines, t, |items|);
    assert timed[..|items|] == timed && items[..|items|] == items;
    FirstHeldWithin(prior, t, Count(items, t.item));
  }

  /** Taking out the first copy shifts the ranks of its equals and leaves all other items alone. */
  lemma {:induction false} PopShifts(prior: seq<Timed>, x: Item, k: nat, y: Item, n: nat)
    requires NthCopy(prior, x, 0) == Some(k)
    ensures Deadline(prior[..k] + prior[k + 1..], y, n) == Deadline(prior, y, if y == x then n + 1 else n)
  {
    var rest := prior[..k] + prior[k + 1..];
    var tail := prior[1..];
    if prior[0].item == x {
      assert rest == tail;
      DeadlineStep(prior, y, if y == x then n + 1 else n);
    } else {
      assert NthCopy(tail, x, 0) == Some(k - 1);
      assert rest[1..] == tail[..k - 1] + tail[k..] && rest[0] == prior[0];
      DeadlineStep(prior, y, if y == x then n + 1 else n);
      DeadlineStep(rest, y, n);
      if !(prior[0].item == y && n == 0) {
        PopShifts(tail, x, k - 1, y, if prior[0].item == y then n - 1 else n);
      }
    }
  }

  lemma DeadlineStep(prior: seq<Timed>, y: Item, n: nat)
    requires prior != []
    ensures Deadline(prior, y, n) ==
      if prior[0].item != y then Deadline(prior[1..], y, n)
      else if n == 0 then Some(prior[0].deadline)
      else Deadline(prior[1..], y, n - 1)
  {}

  lemma NoCopyNone(prior: seq<Timed>, x: Item, n: nat)
    requires NthCopy(prior, x, 0).None?
    ensures NthCopy(prior, x, n).None?
  {
    NthCopyExists(prior, x, 0);
    NthCopyExists(prior, x, n);
  }

  /** After `i` items, the working list holds the old copies that `items[..i]` have not used. */
  ghost predicate Unused(prior: seq<Timed>, rest: seq<Timed>, items: seq<Item>, i: nat)
    requires i <= |items|
  {
    forall y, n: nat :: RankMoved(prior, rest, items[..i], y, n)
  }

  /** The n-th copy left is the old copy ranked after those the `used` items took. */
  ghost predicate RankMoved(prior: seq<Timed>, rest: seq<Timed>, used: seq<Item>, y: Item, n: nat) {
    Deadline(rest, y, n) == Deadline(prior, y, n + Count(used, y))
  }

  lemma UnusedStep(prior: seq<Timed>, rest: seq<Timed>, items: seq<Item>, i: nat, rest': seq<Timed>)
    requires i < |items| && Unused(prior, rest, items, i)
    requires match FirstCopy(rest, items[i])
      case None => rest' == rest
      case Some(k) => rest' == rest[..k] + rest[k + 1..]
    ensures Unused(prior, rest', items, i + 1)
  {
    var used := items[..i + 1];
    assert used[..i] == items[..i];
    forall y, n: nat ensures RankMoved(prior, rest', used, y, n) {
      assert RankMoved(prior, rest, items[..i], y, n) && RankMoved(prior, rest, items[..i], y, n + 1);
      RankStep(prior, rest, used, y, n, rest');
    }
  }

  lemma RankStep(prior: seq<Timed>, rest: seq<Timed>, used: seq<Item>, y: Item, n: nat, rest': seq<Timed>)
    requires used != [] && var before := used[..|used| - 1];
      RankMoved(prior, rest, before, y, n) && RankMoved(prior, rest, before, y, n + 1)
    requires match FirstCopy(rest, used[|used| - 1])
      case None => rest' == rest
      case Some(k) => rest' == rest[..k] + rest[k + 1..]
    ensures RankMoved(prior, rest', used, y, n)
  {
    var x := used[|used| - 1];
    match FirstCopy(rest, x)
    case None =>
      if y == x {
        NoCopyNone(rest, y, n);
        NoCopyNone(rest, y, n + 1);
      }
    case Some(k) => PopShifts(rest, x, k, y, n);
  }

  /** The first copy left in the working list is the one the item inherits from. */
  lemma UnusedHead(prior: seq<Timed>, rest: seq<Timed>, items: seq<Item>, i: nat)
    requires i < |items| && Unused(prior, rest, items, i)
    ensures FirstCopy(rest, items[i]).Some? <==> Source(prior, items, i).Some?
    ensures Source(prior, items, i).Some? ==>
      rest[FirstCopy(rest, items[i]).value].deadline == prior[Source(prior, items, i).value].deadline
  {
    assert RankMoved(prior, rest, items[..i], items[i], 0);
  }

  function Inherited(prior: seq<Timed>, items: seq<Item>, i: nat): Option<real>
    requires i < |items|
  {
    Deadline(prior, items[i], Count(items[..i], items[i]))
  }

  /** The original's first loop: match each item against the working list, and pop what it matches. */
  method MatchItems(prior: seq<Timed>, items: seq<Item>) returns (found: seq<Option<real>>, latest: Option<real>)
    ensures |found| == |items|
    ensures forall j :: 0 <= j < |items| ==> found[j] == Inherited(prior, items, j)
    ensures latest == LatestFresh(prior, items, |items|)
  {
    var rest := prior;
    found, latest := [], None;
    for i := 0 to |items|
      invariant |found| == i && forall j :: 0 <= j < i ==> found[j] == Inherited(prior, items, j)
      invariant Unused(prior, rest, items, i)
      invariant latest == LatestFresh(prior, items, i)
    {
      MatchStep(prior, rest, items, i);
      var copy := FirstCopy(rest, items[i]);
      if copy.None? {
        found := found + [None];
        if latest.None? || latest.value < items[i].expiresAt { latest := Some(items[i].expiresAt); }
      } else {
        found := found + [Some(rest[copy.value].deadline)];
        rest := rest[..copy.value] + rest[copy.value + 1..];
      }
    }
  }

  /** One turn of the loop: what the item inherits, and the working list afterwards. */
  lemma MatchStep(prior: seq<Timed>, rest: seq<Timed>, items: seq<Item>, i: nat)
    requires i < |items| && Unused(prior, rest, items, i)
    ensures var before := LatestFresh(prior, items, i);
      match FirstCopy(rest, items[i])
      case None =>
        && Inherited(prior, items, i) == None && Unused(prior, rest, items, i + 1)
        && LatestFresh(prior, items, i + 1) ==
             if before.None? || before.value < items[i].expiresAt then Some(items[i].expiresAt) else before
      case Some(k) =>
        && Inherited(prior, items, i) == Some(rest[k].deadline) && Unused(prior, rest[..k] + rest[k + 1..], items, i + 1)
        && LatestFresh(prior, items, i + 1) == before
  {
    UnusedHead(prior, rest, items, i);
    match FirstCopy(rest, items[i])
    case None => UnusedStep(prior, rest, items, i, rest);
    case Some(k) => UnusedStep(prior, rest, items, i, rest[..k] + rest[k + 1..]);
  }

  lemma FoundDeadline(prior: seq<Timed>, items: seq<Item>, started: real, seconds: real, i: nat)
    requires i < |items|
    ensures var found, latest := Inherited(prior, items, i), LatestFresh(prior, items, |items|);
      if found.Some? then DeadlineAt(prior, items, started, seconds, i) == found.value
      else latest.Some? && DeadlineAt(prior, items, started, seconds, i)
                           == started + items[i].expiresAt - (latest.value - seconds) + GRACE_SECONDS
  {
    LatestFreshIsMax(prior, items);
    assert Inherited(prior, items, i).None? <==> Fresh(prior, items, i);
  }

  /** Matching, then the calibration of the items that matched nothing. */
  method ComputeDeadlines(prior: seq<Timed>, items: seq<Item>, started: real, seconds: real) returns (deadlines: seq<real>)
    ensures deadlines == Deadlines(prior, items, started, seconds)
  {
    var found, latest := MatchItems(prior, items);
    deadlines := [];
    for i := 0 to |items|
      invariant |deadlines| == i
      invariant forall j :: 0 <= j < i ==> deadlines[j] == DeadlineAt(prior, items, started, seconds, j)
    {
      FoundDeadline(prior, items, started, seconds, i);
      if found[i].Some? {
        deadlines := deadlines + [found[i].value];
      } else {
        var clientNow := latest.value - seconds;
        deadlines := deadlines + [started + items[i].expiresAt - clientNow + GRACE_SECONDS];
      }
    }
  }
}
