/**
The last layer of a job's macOS sandbox profile: exclusions are reduced to paths
none of which contains another, grants inside them are dropped, and the final
denies are emitted in an order under which nothing emitted earlier can reopen
them.  The profile language decides by the last rule that matches.
*/
module SandboxProfile {
  import opened Prelude
  import opened PathPolicy
  import opened PathLists

  datatype Op = Read | Write

  /** A regular expression is any set of paths. */
  datatype Matcher = Subpath(at: Path) | Exactly(at: Path) | Pattern(accepts: Path -> bool)
  datatype Entry = Entry(allow: bool, op: Op, matcher: Matcher)

  predicate Matches(m: Matcher, p: Path) {
    match m
    case Subpath(at) => at <= p
    case Exactly(at) => at == p
    case Pattern(accepts) => accepts(p)
  }

  /** Last match wins, and nothing is allowed by default. */
  function Allowed(profile: seq<Entry>, op: Op, p: Path): bool {
    if profile == [] then false
    else
      var last := profile[|profile| - 1];
      if last.op == op && Matches(last.matcher, p) then last.allow else Allowed(profile[..|profile| - 1], op, p)
  }

  /** Some rule of this list speaks about the operation and path. */
  predicate Speaks(rules: seq<Entry>, op: Op, p: Path) {
    exists i :: 0 <= i < |rules| && rules[i].op == op && Matches(rules[i].matcher, p)
  }

  /** Later rules decide when they speak, and otherwise leave the decision to the earlier ones. */
  lemma {:induction false} LaterDecides(earlier: seq<Entry>, later: seq<Entry>, op: Op, p: Path)
    ensures Allowed(earlier + later, op, p) == if Speaks(later, op, p) then Allowed(later, op, p) else Allowed(earlier, op, p)
  {
    if later == [] {
      assert earlier + later == earlier;
    } else {
      var before, last := later[..|later| - 1], later[|later| - 1];
      assert (earlier + later)[..|earlier + later| - 1] == earlier + before;
      LaterDecides(earlier, before, op, p);
      if last.op == op && Matches(last.matcher, p) {
        assert later[|later| - 1] == last;
      } else {
        if Speaks(before, op, p) {
          var i :| 0 <= i < |before| && before[i].op == op && Matches(before[i].matcher, p);
          assert later[i] == before[i];
        }
        if Speaks(later, op, p) {
          var i :| 0 <= i < |later| && later[i].op == op && Matches(later[i].matcher, p);
          assert i < |before| && before[i] == later[i];
        }
      }
    }
  }

  // ---------------------------------------------------------------- reducing exclusions

  predicate Covers(paths: seq<Path>, p: Path) {
    exists e :: e in paths && e <= p
  }

  /** Shorter paths first, without repetition: the result of sorting the set of exclusions. */
  ghost predicate SortedByDepth(paths: seq<Path>) {
    forall i, j :: 0 <= i < j < |paths| ==> |paths[i]| <= |paths[j]| && paths[i] != paths[j]
  }

  /** Keeps the paths that no kept path contains. */
  method Reduce(sorted: seq<Path>) returns (reduced: seq<Path>)
    requires SortedByDepth(sorted)
    ensures Antichain(reduced)
    ensures forall e :: e in reduced ==> e in sorted
    ensures forall p :: Covers(reduced, p) <==> Covers(sorted, p)
  {
    reduced := [];
    for n := 0 to |sorted|
      invariant Reduced(reduced, sorted[..n])
    {
      StepKeeps(sorted, n, reduced);
      if !Covers(reduced, sorted[n]) {
        reduced := reduced + [sorted[n]];
      }
    }
    assert sorted[..|sorted|] == sorted;
    SameCover(reduced, sorted);
  }

  lemma StepKeeps(sorted: seq<Path>, n: nat, reduced: seq<Path>)
    requires SortedByDepth(sorted) && n < |sorted| && Reduced(reduced, sorted[..n])
    ensures Reduced(if Covers(reduced, sorted[n]) then reduced else reduced + [sorted[n]], sorted[..n + 1])
  {
    assert sorted[..n + 1] == sorted[..n] + [sorted[n]];
    if Covers(reduced, sorted[n]) {
      SkipKeeps(reduced, sorted[..n], sorted[n]);
    } else {
      AppendKeepsAntichain(sorted, n, reduced);
      AppendKeeps(reduced, sorted[..n], sorted[n]);
    }
  }

  /** The paths kept so far, from those seen so far. */
  ghost predicate Reduced(reduced: seq<Path>, seen: seq<Path>) {
    && Antichain(reduced)
    && (forall e :: e in reduced ==> e in seen)
    && (forall e :: e in seen ==> Covers(reduced, e))
  }

  lemma SkipKeeps(reduced: seq<Path>, seen: seq<Path>, path: Path)
    requires Reduced(reduced, seen) && Covers(reduced, path)
    ensures Reduced(reduced, seen + [path])
  {
  }

  lemma AppendKeeps(reduced: seq<Path>, seen: seq<Path>, path: Path)
    requires Reduced(reduced, seen) && Antichain(reduced + [path])
    ensures Reduced(reduced + [path], seen + [path])
  {
    var grown := reduced + [path];
    forall e | e in seen + [path] ensures Covers(grown, e) {
      if e in seen {
        var c :| c in reduced && c <= e;
        assert c in grown;
      } else {
        assert e in grown && e <= e;
      }
    }
  }

  lemma SameCover(reduced: seq<Path>, all: seq<Path>)
    requires Reduced(reduced, all)
    ensures forall p :: Covers(reduced, p) <==> Covers(all, p)
  {
    forall p | Covers(all, p) ensures Covers(reduced, p) {
      var e :| e in all && e <= p;
      var c :| c in reduced && c <= e;
      assert c <= p;
    }
  }

  lemma AppendKeepsAntichain(sorted: seq<Path>, n: nat, reduced: seq<Path>)
    requires SortedByDepth(sorted) && n < |sorted| && Reduced(reduced, sorted[..n])
    requires !Covers(reduced, sorted[n])
    ensures Antichain(reduced + [sorted[n]])
  {
    var path := sorted[n];
    forall e | e in reduced ensures Apart(e, path) {
      var i :| 0 <= i < n && sorted[..n][i] == e;
      assert sorted[i] == e && |e| <= |path|;
      assert path <= e ==> path == e;
    }
    AntichainConcat(reduced, [path]);
  }

  // ---------------------------------------------------------------- the final layer

  /** What the final layer is made from; `denies` are the literal deny grants, `excluded` the reduced exclusions. */
  datatype Final = Final(
    isDir: Path -> bool,
    reservedName: Path -> bool,
    denies: seq<Path>,
    excluded: seq<Path>,
    state: Path,
    jobDir: Path,
    ipcParent: Option<Path>)

  const IPC_KEY := "ipc.key"

  /** A concrete rule covers a directory with everything below it, or one file. */
  function Concrete(isDir: Path -> bool, at: Path): Matcher {
    if isDir(at) then Subpath(at) else Exactly(at)
  }

  function Both(allow: bool, m: Matcher): seq<Entry> {
    [Entry(allow, Read, m), Entry(allow, Write, m)]
  }

  function DenyAll(isDir: Path -> bool, paths: seq<Path>): seq<Entry> {
    if paths == [] then []
    else DenyAll(isDir, paths[..|paths| - 1]) + Both(false, Concrete(isDir, paths[|paths| - 1]))
  }

  /** The layer's denies, before the scratch directory is opened. */
  function Closed(f: Final): seq<Entry> {
    Both(false, Pattern(f.reservedName)) + DenyAll(f.isDir, f.denies) + DenyAll(f.isDir, f.excluded)
    + (if f.state in f.excluded then [] else Both(false, Subpath(f.state)))
  }

  /** The scratch directory, and the denies that hold even inside it. */
  function Opened(f: Final): seq<Entry> {
    Both(true, Subpath(f.jobDir)) + Both(false, Exactly(f.state + [IPC_KEY]))
    + (if f.ipcParent.None? then [] else Both(false, Subpath(f.ipcParent.value)))
  }

  method EmitDenies(earlier: seq<Entry>, isDir: Path -> bool, paths: seq<Path>) returns (profile: seq<Entry>)
    ensures profile == earlier + DenyAll(isDir, paths)
  {
    profile := earlier;
    for i := 0 to |paths|
      invariant profile == earlier + DenyAll(isDir, paths[..i])
    {
      assert paths[..i + 1][..i] == paths[..i];
      profile := profile + Both(false, Concrete(isDir, paths[i]));
    }
    assert paths[..|paths|] == paths;
  }

  /** Appends the final layer to whatever was emitted before. */
  method EmitFinal(earlier: seq<Entry>, f: Final) returns (profile: seq<Entry>)
    ensures profile == earlier + (Closed(f) + Opened(f))
  {
    profile := EmitClosed(earlier, f);
    ghost var shut := profile;
    profile := profile + Both(true, Subpath(f.jobDir));
    profile := profile + Both(false, Exactly(f.state + [IPC_KEY]));
    if f.ipcParent.Some? {
      profile := profile + Both(false, Subpath(f.ipcParent.value));
    }
    assert profile == shut + Opened(f);
  }

  method EmitClosed(earlier: seq<Entry>, f: Final) returns (profile: seq<Entry>)
    ensures profile == earlier + Closed(f)
  {
    profile := earlier + Both(false, Pattern(f.reservedName));
    profile := EmitDenies(profile, f.isDir, f.denies);
    profile := EmitDenies(profile, f.isDir, f.excluded);
    if f.state !in f.excluded {
      profile := profile + Both(false, Subpath(f.state));
    }
  }

  /** A concrete rule at `e` covers `p`. */
  predicate Under(isDir: Path -> bool, e: Path, p: Path) {
    Matches(Concrete(isDir, e), p)
  }

  lemma BothSpeaks(allow: bool, m: Matcher, op: Op, p: Path)
    ensures Speaks(Both(allow, m), op, p) <==> Matches(m, p)
    ensures Matches(m, p) ==> Allowed(Both(allow, m), op, p) == allow
  {
    var rules := Both(allow, m);
    assert rules[0].op == Read && rules[1].op == Write;
    assert rules[..1] == [rules[0]];
    if Matches(m, p) {
      assert Speaks(rules, op, p) by { if op == Read { assert rules[0].op == op; } else { assert rules[1].op == op; } }
    }
  }

  lemma {:induction false} DenyAllSpeaks(isDir: Path -> bool, paths: seq<Path>, op: Op, p: Path)
    ensures Speaks(DenyAll(isDir, paths), op, p) <==> exists e :: e in paths && Under(isDir, e, p)
    ensures !Allowed(DenyAll(isDir, paths), op, p)
  {
    if paths != [] {
      var before, last := paths[..|paths| - 1], paths[|paths| - 1];
      DenyAllSpeaks(isDir, before, op, p);
      BothSpeaks(false, Concrete(isDir, last), op, p);
      LaterDecides(DenyAll(isDir, before), Both(false, Concrete(isDir, last)), op, p);
      SpeaksConcat(DenyAll(isDir, before), Both(false, Concrete(isDir, last)), op, p);
      assert paths == before + [last] && last in paths;
      assert forall e :: e in paths <==> e in before || e == last;
    }
  }

  lemma SpeaksConcat(a: seq<Entry>, b: seq<Entry>, op: Op, p: Path)
    ensures Speaks(a + b, op, p) <==> Speaks(a, op, p) || Speaks(b, op, p)
  {
    if Speaks(a, op, p) {
      var i :| 0 <= i < |a| && a[i].op == op && Matches(a[i].matcher, p);
      assert (a + b)[i] == a[i];
    }
    if Speaks(b, op, p) {
      var i :| 0 <= i < |b| && b[i].op == op && Matches(b[i].matcher, p);
      assert (a + b)[|a| + i] == b[i];
    }
    if Speaks(a + b, op, p) {
      var i :| 0 <= i < |a + b| && (a + b)[i].op == op && Matches((a + b)[i].matcher, p);
      assert i < |a| ==> a[i] == (a + b)[i];
      assert i >= |a| ==> b[i - |a|] == (a + b)[i];
    }
  }

  predicate Private(f: Final, p: Path) {
    p == f.state + ["ipc.key"] || (f.ipcParent.Some? && f.ipcParent.value <= p)
  }

  lemma OpenedDecides(f: Final, op: Op, p: Path)
    ensures Speaks(Opened(f), op, p) <==> Private(f, p) || f.jobDir <= p
    ensures Speaks(Opened(f), op, p) ==> (Allowed(Opened(f), op, p) <==> !Private(f, p))
  {
    var a, b := Both(true, Subpath(f.jobDir)), Both(false, Exactly(f.state + [IPC_KEY]));
    var c := if f.ipcParent.None? then [] else Both(false, Subpath(f.ipcParent.value));
    BothSpeaks(true, Subpath(f.jobDir), op, p);
    BothSpeaks(false, Exactly(f.state + [IPC_KEY]), op, p);
    if f.ipcParent.Some? { BothSpeaks(false, Subpath(f.ipcParent.value), op, p); }
    LaterDecides(a, b, op, p);
    SpeaksConcat(a, b, op, p);
    LaterDecides(a + b, c, op, p);
    SpeaksConcat(a + b, c, op, p);
  }

  lemma ClosedDenies(f: Final, op: Op, p: Path)
    requires f.isDir(f.state)
    ensures !Allowed(Closed(f), op, p)
    ensures Speaks(Closed(f), op, p) <==>
      || f.reservedName(p) || f.state <= p
      || (exists e :: e in f.denies && Under(f.isDir, e, p))
      || (exists e :: e in f.excluded && Under(f.isDir, e, p))
  {
    var a, b, c := Both(false, Pattern(f.reservedName)), DenyAll(f.isDir, f.denies), DenyAll(f.isDir, f.excluded);
    var d := if f.state in f.excluded then [] else Both(false, Subpath(f.state));
    BothSpeaks(false, Pattern(f.reservedName), op, p);
    LaterDecides([], a, op, p);
    assert [] + a == a;
    DenyAllSpeaks(f.isDir, f.denies, op, p);
    DenyAllSpeaks(f.isDir, f.excluded, op, p);
    BothSpeaks(false, Subpath(f.state), op, p);
    LaterDecides(a, b, op, p);
    SpeaksConcat(a, b, op, p);
    LaterDecides(a + b, c, op, p);
    SpeaksConcat(a + b, c, op, p);
    LaterDecides(a + b + c, d, op, p);
    SpeaksConcat(a + b + c, d, op, p);
    assert f.state in f.excluded && f.state <= p ==> Under(f.isDir, f.state, p);
  }

  // ---------------------------------------------------------------- theorem

  /** The grants that stay: a grant inside an exclusion is dropped. */
  function KeptDenies(denies: seq<Path>, excluded: seq<Path>): (r: seq<Path>)
    ensures forall d :: d in r <==> d in denies && !(exists e :: e in excluded && e <= d)
  {
    if denies == [] then []
    else
      var rest := KeptDenies(denies[1..], excluded);
      assert denies == [denies[0]] + denies[1..];
      if exists e :: e in excluded && e <= denies[0] then rest else [denies[0]] + rest
  }

  /** Existing paths: whatever contains one strictly is a directory. */
  ghost predicate Exists(isDir: Path -> bool, p: Path) {
    forall e :: e < p ==> isDir(e)
  }

  /** A reduced exclusion stands in for everything it contains. */
  lemma StandsIn(isDir: Path -> bool, reduced: seq<Path>, x: Path, p: Path)
    requires Covers(reduced, x) && Exists(isDir, x) && Under(isDir, x, p)
    ensures exists e :: e in reduced && Under(isDir, e, p)
  {
    var e :| e in reduced && e <= x;
    if e != x { assert isDir(e); }
    assert Under(isDir, e, p);
  }

  /** The path is `x`, or lies below `x` and `x` is a directory. */
  ghost predicate AtOrBelow(isDir: Path -> bool, x: Path, p: Path) {
    x == p || (isDir(x) && x <= p)
  }

  /** What the final layer must keep closed: reserved names, deny grants, exclusions and the Manager's state. */
  ghost predicate Forbidden(f: Final, excluded: seq<Path>, denies: seq<Path>, p: Path) {
    || f.reservedName(p) || f.state <= p
    || (exists x :: x in denies && AtOrBelow(f.isDir, x, p))
    || (exists x :: x in excluded && AtOrBelow(f.isDir, x, p))
  }

  /**
  Whatever was emitted earlier: a path below an original exclusion, an explicit
  literal deny or the Manager's state ends denied for reading and writing unless
  it is in the job's scratch directory; the IPC key and the IPC directory are
  denied even there; the rest of the scratch directory is open; and about all other
  paths what was emitted earlier decides.  Reducing the exclusions and dropping
  grants inside them loses none of this.
  */
  lemma FinalLayerHolds(earlier: seq<Entry>, f: Final, excluded: seq<Path>, denies: seq<Path>, op: Op, p: Path)
    requires forall q :: Covers(f.excluded, q) <==> Covers(excluded, q)
    requires forall x :: x in f.excluded ==> x in excluded
    requires f.denies == KeptDenies(denies, f.excluded) && f.isDir(f.state)
    requires forall x :: x in excluded || x in denies ==> Exists(f.isDir, x)
    ensures var allowed := Allowed(earlier + (Closed(f) + Opened(f)), op, p);
      && (Private(f, p) ==> !allowed)
      && (f.jobDir <= p && !Private(f, p) ==> allowed)
      && (!(f.jobDir <= p) && Forbidden(f, excluded, denies, p) ==> !allowed)
      && (!Private(f, p) && !(f.jobDir <= p) && !Forbidden(f, excluded, denies, p) ==> allowed == Allowed(earlier, op, p))
  {
    var shut, open := Closed(f), Opened(f);
    assert earlier + (shut + open) == earlier + shut + open;
    LaterDecides(earlier + shut, open, op, p);
    LaterDecides(earlier, shut, op, p);
    OpenedDecides(f, op, p);
    ClosedDenies(f, op, p);
    ClosedSpeaksExactly(f, excluded, denies, op, p);
  }

  /** The closed part speaks about exactly what is forbidden. */
  lemma ClosedSpeaksExactly(f: Final, excluded: seq<Path>, denies: seq<Path>, op: Op, p: Path)
    requires forall q :: Covers(f.excluded, q) <==> Covers(excluded, q)
    requires forall x :: x in f.excluded ==> x in excluded
    requires f.denies == KeptDenies(denies, f.excluded) && f.isDir(f.state)
    requires forall x :: x in excluded || x in denies ==> Exists(f.isDir, x)
    ensures Speaks(Closed(f), op, p) <==> Forbidden(f, excluded, denies, p)
  {
    ClosedDenies(f, op, p);
    forall x ensures AtOrBelow(f.isDir, x, p) <==> Under(f.isDir, x, p) {}
    if x :| x in excluded && AtOrBelow(f.isDir, x, p) {
      assert Covers(excluded, x);
      StandsIn(f.isDir, f.excluded, x, p);
    } else if x :| x in denies && AtOrBelow(f.isDir, x, p) {
      if x !in f.denies { StandsIn(f.isDir, f.excluded, x, p); }
    }
    if e :| e in f.excluded && Under(f.isDir, e, p) { assert e in excluded && AtOrBelow(f.isDir, e, p); }
    if d :| d in f.denies && Under(f.isDir, d, p) { assert d in denies && AtOrBelow(f.isDir, d, p); }
  }

  /**
  The private paths are shut, the scratch directory is otherwise open, outside it the
  forbidden paths are shut, and all else is as the earlier rules decide.
  */
  ghost predicate Closes(profile: seq<Entry>, earlier: seq<Entry>, base: Final, op: Op, p: Path) {
    var allowed := Allowed(profile, op, p);
    && (Private(base, p) ==> !allowed)
    && (base.jobDir <= p && !Private(base, p) ==> allowed)
    && (!(base.jobDir <= p) && Forbidden(base, base.excluded, base.denies, p) ==> !allowed)
    && (!Private(base, p) && !(base.jobDir <= p) && !Forbidden(base, base.excluded, base.denies, p) ==>
          allowed == Allowed(earlier, op, p))
  }

  /**
  The whole ending of the profile: reduce the exclusions, drop the grants inside
  them, and emit the final layer after `earlier`.  `base.excluded` holds the
  exclusions as sorted and `base.denies` the explicit literal denies.
  */
  method CloseProfile(earlier: seq<Entry>, base: Final) returns (profile: seq<Entry>)
    requires SortedByDepth(base.excluded) && base.isDir(base.state)
    requires forall x :: x in base.excluded || x in base.denies ==> Exists(base.isDir, x)
    ensures forall op, p :: Closes(profile, earlier, base, op, p)
  {
    var reduced := Reduce(base.excluded);
    var f := base.(excluded := reduced, denies := KeptDenies(base.denies, reduced));
    profile := EmitFinal(earlier, f);
    forall op, p ensures Closes(profile, earlier, base, op, p) {
      FinalLayerHolds(earlier, f, base.excluded, base.denies, op, p);
    }
  }
}
