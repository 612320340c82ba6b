/**
Static masks for a sandbox: the pruned walk over an existing tree that turns name
rules into concrete masked paths, and the proof that it covers the policy.

Paths in the tree are relative to the walked root.
*/
module PatternMasks {
  import opened Prelude
  import opened PathPolicy
  import opened PathLists

  /** A directory lists its entries in the order the walk sees them. */
  datatype Node = Dir(entries: seq<Entry>) | File | Link
  datatype Entry = Entry(name: string, node: Node)

  datatype Mask = Mask(at: Path, mode: Mode)

  /** What one scan is about. */
  datatype Job = Job(host: Host, root: Path, tree: Node, writable: bool, grants: seq<Grant>, skip: set<Path>)

  datatype Failure = TooManyMasks

  // ---------------------------------------------------------------- the tree

  function Find(entries: seq<Entry>, name: string): (r: Option<Node>)
    ensures r.Some? ==> exists i :: 0 <= i < |entries| && entries[i] == Entry(name, r.value)
    ensures r.None? ==> forall i :: 0 <= i < |entries| ==> entries[i].name != name
  {
    if entries == [] then None
    else if entries[0].name == name then Some(entries[0].node)
    else Find(entries[1..], name)
  }

  /** The node at `at`, going through real directories only. */
  function Lookup(node: Node, at: Path): Option<Node>
    decreases |at|
  {
    if at == [] then Some(node)
    else if !node.Dir? then None
    else match Find(node.entries, at[0])
      case None => None
      case Some(child) => Lookup(child, at[1..])
  }

  ghost predicate Distinct(entries: seq<Entry>) {
    forall i, j :: 0 <= i < j < |entries| ==> entries[i].name != entries[j].name
  }

  /** Names are unique within every directory. */
  ghost predicate WellFormed(tree: Node) {
    forall at :: Lookup(tree, at).Some? && Lookup(tree, at).value.Dir? ==> Distinct(Lookup(tree, at).value.entries)
  }

  /** The host's directory test agrees with the tree. */
  ghost predicate Agrees(job: Job) {
    forall at :: Lookup(job.tree, at).Some? && Lookup(job.tree, at).value.Dir? ==> job.host.isDir(job.root + at)
  }

  lemma FindAt(entries: seq<Entry>, i: nat)
    requires i < |entries| && Distinct(entries)
    ensures Find(entries, entries[i].name) == Some(entries[i].node)
  {}

  lemma {:induction false} LookupStep(node: Node, at: Path, name: string)
    ensures Lookup(node, at + [name]) ==
      match Lookup(node, at)
      case Some(Dir(entries)) => Find(entries, name)
      case _ => None
  {
    if at == [] {
      assert at + [name] == [name];
    } else if node.Dir? && Find(node.entries, at[0]).Some? {
      LookupStep(Find(node.entries, at[0]).value, at[1..], name);
      assert (at + [name])[1..] == at[1..] + [name];
    }
  }

  lemma LookupParent(node: Node, at: Path)
    requires at != [] && Lookup(node, at).Some?
    ensures var up := Lookup(node, at[..|at| - 1]);
      up.Some? && up.value.Dir? && Find(up.value.entries, at[|at| - 1]) == Lookup(node, at)
  {
    LookupStep(node, at[..|at| - 1], at[|at| - 1]);
    assert at == at[..|at| - 1] + [at[|at| - 1]];
  }

  // ---------------------------------------------------------------- what must be masked

  predicate Skipped(job: Job, at: Path) {
    exists item :: item in job.skip && item <= job.root + at
  }

  /** No skipped root contains the path. */
  ghost predicate Unskipped(job: Job, at: Path) {
    forall item :: item in job.skip ==> !(item <= job.root + at)
  }

  /** An existing path that the walk can see: no link, and no skipped directory on the way. */
  ghost predicate Reached(job: Job, at: Path) {
    && Lookup(job.tree, at).Some? && !Lookup(job.tree, at).value.Link?
    && forall n :: 0 <= n <= |at| && Lookup(job.tree, at[..n]).Some? && Lookup(job.tree, at[..n]).value.Dir? ==>
         Unskipped(job, at[..n])
  }

  predicate NamedBy(job: Job, g: Grant, name: string) {
    g.rule.Named? && NameMatches(job.host, name, g.rule.name)
  }

  /** Some name rule, explicit or default, mentions this component. */
  predicate Mentioned(job: Job, name: string) {
    || (exists g :: g in DEFAULT_GRANTS && NamedBy(job, g, name))
    || (exists g :: g in job.grants && NamedBy(job, g, name))
  }

  function Access(job: Job, at: Path): Option<Mode> {
    Effective(job.host, job.root + at, job.root, job.writable, job.grants, false)
  }

  predicate Restricted(job: Job, at: Path) {
    Access(job, at) in {Some(RO), Some(Protect), Some(Deny)}
  }

  predicate Masked(job: Job, at: Path) {
    at != [] && Mentioned(job, at[|at| - 1]) && Restricted(job, at)
  }

  // ---------------------------------------------------------------- what the scan promises

  ghost predicate Covered(masks: seq<Mask>, at: Path) {
    exists i :: 0 <= i < |masks| && masks[i].at <= at
  }

  /** The path's own name is that of a name rule, explicit or default. */
  ghost predicate HasRuleName(job: Job, at: Path) {
    at != [] && exists g :: (g in DEFAULT_GRANTS || g in job.grants) && g.rule.Named? && NameMatches(job.host, at[|at| - 1], g.rule.name)
  }

  /** Each mask is a visible path with a rule's name and exactly its effective mode, which is not read-write. */
  ghost predicate Sound(job: Job, masks: seq<Mask>) {
    forall i :: 0 <= i < |masks| ==>
      && Reached(job, masks[i].at) && HasRuleName(job, masks[i].at) && masks[i].mode != RW
      && Access(job, masks[i].at) == Some(masks[i].mode)
  }

  function MaskPaths(masks: seq<Mask>): (r: seq<Path>)
    ensures |r| == |masks| && forall i :: 0 <= i < |r| ==> r[i] == masks[i].at
  {
    seq(|masks|, i requires 0 <= i < |masks| => masks[i].at)
  }

  ghost predicate Complete(job: Job, masks: seq<Mask>) {
    forall at :: Reached(job, at) && Masked(job, at) ==> Covered(masks, at)
  }

  // ---------------------------------------------------------------- one directory

  predicate Enters(job: Job, at: Path, e: Entry) {
    e.node.Dir? && !Skipped(job, at + [e.name])
  }

  predicate MasksEntry(job: Job, at: Path, e: Entry, directory: bool) {
    Masked(job, at + [e.name]) && (if directory then Enters(job, at, e) else e.node.File?)
  }

  function MaskOf(job: Job, at: Path, e: Entry): (m: Mask)
    requires Restricted(job, at + [e.name])
    ensures m.at == at + [e.name] && Access(job, m.at) == Some(m.mode)
  {
    Mask(at + [e.name], Access(job, at + [e.name]).value)
  }

  /** The masks of one kind among `entries`, in order. */
  function EntryMasks(job: Job, at: Path, entries: seq<Entry>, directory: bool): (r: seq<Mask>)
    ensures forall m :: m in r <==>
      exists e :: e in entries && MasksEntry(job, at, e, directory) && m == MaskOf(job, at, e)
  {
    if entries == [] then []
    else
      var e, before := entries[|entries| - 1], entries[..|entries| - 1];
      assert entries == before + [e];
      var rest := EntryMasks(job, at, before, directory);
      if MasksEntry(job, at, e, directory) then rest + [MaskOf(job, at, e)] else rest
  }

  datatype Visit = Visit(at: Path, entries: seq<Entry>)

  function VisitPaths(visits: seq<Visit>): (r: seq<Path>)
    ensures |r| == |visits| && forall i :: 0 <= i < |r| ==> r[i] == visits[i].at
  {
    seq(|visits|, i requires 0 <= i < |visits| => visits[i].at)
  }

  /** The subdirectories the walk descends into. */
  function Descend(job: Job, at: Path, entries: seq<Entry>): (r: seq<Visit>)
    ensures forall v :: v in r <==>
      exists e :: e in entries && Enters(job, at, e) && !Masked(job, at + [e.name])
                  && v == Visit(at + [e.name], e.node.entries)
  {
    if entries == [] then []
    else
      var e, before := entries[|entries| - 1], entries[..|entries| - 1];
      assert entries == before + [e];
      var rest := Descend(job, at, before);
      if Enters(job, at, e) && !Masked(job, at + [e.name]) then rest + [Visit(at + [e.name], e.node.entries)] else rest
  }

  /** Masks restricted subdirectories and keeps the others for the descent. */
  method ScanFolders(job: Job, at: Path, entries: seq<Entry>) returns (masks: seq<Mask>, next: seq<Visit>)
    ensures masks == EntryMasks(job, at, entries, true)
    ensures next == Descend(job, at, entries)
  {
    masks, next := [], [];
    for i := 0 to |entries|
      invariant masks == EntryMasks(job, at, entries[..i], true)
      invariant next == Descend(job, at, entries[..i])
    {
      var e := entries[i];
      assert entries[..i + 1][..i] == entries[..i];
      if Enters(job, at, e) {
        if Masked(job, at + [e.name]) {
          masks := masks + [MaskOf(job, at, e)];
        } else {
          next := next + [Visit(at + [e.name], e.node.entries)];
        }
      }
    }
    assert entries[..|entries|] == entries;
  }

  method ScanFiles(job: Job, at: Path, entries: seq<Entry>) returns (masks: seq<Mask>)
    ensures masks == EntryMasks(job, at, entries, false)
  {
    masks := [];
    for i := 0 to |entries|
      invariant masks == EntryMasks(job, at, entries[..i], false)
    {
      var e := entries[i];
      assert entries[..i + 1][..i] == entries[..i];
      if e.node.File? && Masked(job, at + [e.name]) {
        masks := masks + [MaskOf(job, at, e)];
      }
    }
    assert entries[..|entries|] == entries;
  }

  method ScanDirectory(job: Job, at: Path, entries: seq<Entry>) returns (masks: seq<Mask>, next: seq<Visit>)
    ensures masks == EntryMasks(job, at, entries, true) + EntryMasks(job, at, entries, false)
    ensures next == Descend(job, at, entries)
  {
    masks, next := ScanFolders(job, at, entries);
    var files := ScanFiles(job, at, entries);
    masks := masks + files;
  }

  // ---------------------------------------------------------------- termination

  function Size(node: Node): nat
    decreases node, 1
  {
    if node.Dir? then SizeAll(node.entries) else 0
  }

  function SizeAll(entries: seq<Entry>): nat
    decreases entries, 0
  {
    if entries == [] then 0
    else SizeAll(entries[..|entries| - 1]) + 1 + Size(entries[|entries| - 1].node)
  }

  function Pending(stack: seq<Visit>): nat {
    if stack == [] then 0 else Pending(stack[..|stack| - 1]) + 1 + SizeAll(stack[|stack| - 1].entries)
  }

  lemma {:induction false} PendingConcat(a: seq<Visit>, b: seq<Visit>)
    ensures Pending(a + b) == Pending(a) + Pending(b)
  {
    if b == [] {
      assert a + b == a;
    } else {
      PendingConcat(a, b[..|b| - 1]);
      assert (a + b)[..|a + b| - 1] == a + b[..|b| - 1];
    }
  }

  lemma {:induction false} DescendShrinks(job: Job, at: Path, entries: seq<Entry>)
    ensures Pending(Descend(job, at, entries)) <= SizeAll(entries)
  {
    if entries != [] {
      var e, before := entries[|entries| - 1], entries[..|entries| - 1];
      DescendShrinks(job, at, before);
      var d := Descend(job, at, before);
      if Enters(job, at, e) && !Masked(job, at + [e.name]) {
        PendingConcat(d, [Visit(at + [e.name], e.node.entries)]);
      }
    }
  }

  // ---------------------------------------------------------------- the walk

  ghost predicate Progress(job: Job, stack: seq<Visit>, masks: seq<Mask>) {
    && Sound(job, masks) && Antichain(MaskPaths(masks))
    && Visitable(job, stack) && Antichain(VisitPaths(stack)) && MasksApart(masks, stack)
    && Accounted(job, stack, masks)
  }

  /** Every pending visit is a visible directory with its listing. */
  ghost predicate Visitable(job: Job, stack: seq<Visit>) {
    forall v :: v in stack ==> Reached(job, v.at) && Lookup(job.tree, v.at) == Some(Dir(v.entries))
  }

  /** What must be masked is masked already or lies below a pending directory. */
  ghost predicate Accounted(job: Job, stack: seq<Visit>, masks: seq<Mask>) {
    forall at :: Reached(job, at) && Masked(job, at) ==> Covered(masks, at) || exists v :: v in stack && v.at < at
  }

  lemma {:induction false} LookupPrefix(node: Node, at: Path, n: nat)
    requires n <= |at| && Lookup(node, at).Some?
    ensures Lookup(node, at[..n]).Some? && (n < |at| ==> Lookup(node, at[..n]).value.Dir?)
  {
    if n < |at| {
      LookupParent(node, at);
      LookupPrefix(node, at[..|at| - 1], n);
      assert at[..|at| - 1][..n] == at[..n];
    } else {
      assert at[..n] == at;
    }
  }

  lemma ReachedPrefix(job: Job, at: Path, n: nat)
    requires n <= |at| && Reached(job, at)
    ensures Reached(job, at[..n])
  {
    LookupPrefix(job.tree, at, n);
    assert n == |at| ==> at[..n] == at;
    forall m | 0 <= m <= n && Lookup(job.tree, at[..n][..m]).Some? && Lookup(job.tree, at[..n][..m]).value.Dir?
      ensures Unskipped(job, at[..n][..m])
    {
      assert at[..n][..m] == at[..m];
    }
  }

  lemma ReachedChild(job: Job, at: Path, entries: seq<Entry>, e: Entry)
    requires Reached(job, at) && Lookup(job.tree, at) == Some(Dir(entries)) && Distinct(entries)
    requires e in entries && (e.node.File? || Enters(job, at, e))
    ensures Reached(job, at + [e.name]) && Lookup(job.tree, at + [e.name]) == Some(e.node)
  {
    var i :| 0 <= i < |entries| && entries[i] == e;
    FindAt(entries, i);
    LookupStep(job.tree, at, e.name);
    var child := at + [e.name];
    forall n | 0 <= n <= |child| && Lookup(job.tree, child[..n]).Some? && Lookup(job.tree, child[..n]).value.Dir?
      ensures Unskipped(job, child[..n])
    {
      if n <= |at| { assert child[..n] == at[..n]; } else { assert child[..n] == child; }
    }
  }

  /** On the way from a visited directory to a visible path lies one of its entries. */
  lemma NextEntry(job: Job, v: Visit, at: Path) returns (e: Entry)
    requires Lookup(job.tree, v.at) == Some(Dir(v.entries)) && v.at < at && Reached(job, at)
    ensures e in v.entries && v.at + [e.name] <= at && (e.node.File? || Enters(job, v.at, e))
    ensures e.node.File? ==> v.at + [e.name] == at
  {
    var name := at[|v.at|];
    var child := at[..|v.at| + 1];
    assert child == v.at + [name];
    ReachedPrefix(job, at, |child|);
    LookupStep(job.tree, v.at, name);
    e := Entry(name, Find(v.entries, name).value);
    LookupPrefix(job.tree, at, |child|);
    assert child[..|child|] == child;
    assert |child| == |at| ==> child == at;
  }

  lemma NewMasksSound(job: Job, v: Visit, directory: bool)
    requires Reached(job, v.at) && Lookup(job.tree, v.at) == Some(Dir(v.entries)) && Distinct(v.entries)
    ensures Sound(job, EntryMasks(job, v.at, v.entries, directory))
  {
    var masks := EntryMasks(job, v.at, v.entries, directory);
    forall i | 0 <= i < |masks|
      ensures Reached(job, masks[i].at) && HasRuleName(job, masks[i].at) && masks[i].mode != RW
      ensures Access(job, masks[i].at) == Some(masks[i].mode)
    {
      assert masks[i] in masks;
      var e :| e in v.entries && MasksEntry(job, v.at, e, directory) && masks[i] == MaskOf(job, v.at, e);
      ReachedChild(job, v.at, v.entries, e);
      MaskedHasName(job, masks[i].at);
    }
  }

  lemma MaskedHasName(job: Job, at: Path)
    requires Masked(job, at)
    ensures HasRuleName(job, at)
  {
    var name := at[|at| - 1];
    if g :| g in DEFAULT_GRANTS && NamedBy(job, g, name) {
      assert NameMatches(job.host, name, g.rule.name);
    } else {
      var g :| g in job.grants && NamedBy(job, g, name);
      assert NameMatches(job.host, name, g.rule.name);
    }
  }

  /** All paths found by scanning one directory: its masks, then the directories to visit. */
  ghost predicate ChildrenOf(at: Path, entries: seq<Entry>, masks: seq<Mask>, next: seq<Visit>) {
    && (forall m :: m in masks ==> exists e :: e in entries && m.at == at + [e.name])
    && (forall v :: v in next ==> exists e :: e in entries && v.at == at + [e.name])
    && AllDifferent(MaskPaths(masks)) && AllDifferent(VisitPaths(next))
    && (forall m, v :: m in masks && v in next ==> m.at != v.at)
  }

  lemma {:induction false} MasksDistinct(job: Job, at: Path, entries: seq<Entry>, directory: bool)
    requires Distinct(entries)
    ensures AllDifferent(MaskPaths(EntryMasks(job, at, entries, directory)))
  {
    if entries != [] {
      var e, before := entries[|entries| - 1], entries[..|entries| - 1];
      MasksDistinct(job, at, before, directory);
      if MasksEntry(job, at, e, directory) {
        forall m | m in EntryMasks(job, at, before, directory) ensures m.at != at + [e.name] {
          var d :| d in before && MasksEntry(job, at, d, directory) && m == MaskOf(job, at, d);
          assert m.at[|at|] == d.name;
        }
        var rest := EntryMasks(job, at, before, directory);
        assert MaskPaths(rest + [MaskOf(job, at, e)]) == MaskPaths(rest) + [at + [e.name]];
        forall p | p in MaskPaths(rest) ensures p != at + [e.name] {
          var i :| 0 <= i < |rest| && rest[i].at == p;
          assert rest[i] in rest;
        }
        DifferentConcat(MaskPaths(rest), [at + [e.name]]);
      }
    }
  }

  lemma {:induction false} DescendDistinct(job: Job, at: Path, entries: seq<Entry>)
    requires Distinct(entries)
    ensures AllDifferent(VisitPaths(Descend(job, at, entries)))
  {
    if entries != [] {
      var e, before := entries[|entries| - 1], entries[..|entries| - 1];
      DescendDistinct(job, at, before);
      if Enters(job, at, e) && !Masked(job, at + [e.name]) {
        forall v | v in Descend(job, at, before) ensures v.at != at + [e.name] {
          var d :| d in before && Enters(job, at, d) && v == Visit(at + [d.name], d.node.entries);
          assert v.at[|at|] == d.name;
        }
        var rest := Descend(job, at, before);
        assert VisitPaths(rest + [Visit(at + [e.name], e.node.entries)]) == VisitPaths(rest) + [at + [e.name]];
        forall p | p in VisitPaths(rest) ensures p != at + [e.name] {
          var i :| 0 <= i < |rest| && rest[i].at == p;
          assert rest[i] in rest;
        }
        DifferentConcat(VisitPaths(rest), [at + [e.name]]);
      }
    }
  }

  lemma ScanChildren(job: Job, v: Visit)
    requires Distinct(v.entries)
    ensures ChildrenOf(v.at, v.entries,
                       EntryMasks(job, v.at, v.entries, true) + EntryMasks(job, v.at, v.entries, false),
                       Descend(job, v.at, v.entries))
  {
    var dirs, files := EntryMasks(job, v.at, v.entries, true), EntryMasks(job, v.at, v.entries, false);
    forall d, e | d in v.entries && e in v.entries && v.at + [d.name] == v.at + [e.name] ensures d == e {
      assert (v.at + [d.name])[|v.at|] == (v.at + [e.name])[|v.at|];
    }
    MasksDistinct(job, v.at, v.entries, true);
    MasksDistinct(job, v.at, v.entries, false);
    DescendDistinct(job, v.at, v.entries);
    assert MaskPaths(dirs + files) == MaskPaths(dirs) + MaskPaths(files);
    forall p, q | p in MaskPaths(dirs) && q in MaskPaths(files) ensures p != q {
      var i :| 0 <= i < |dirs| && dirs[i].at == p;
      var j :| 0 <= j < |files| && files[j].at == q;
      assert dirs[i] in dirs && files[j] in files;
    }
    DifferentConcat(MaskPaths(dirs), MaskPaths(files));
  }

  lemma ChildApart(at: Path, x: string, other: Path)
    requires Apart(other, at)
    ensures Apart(other, at + [x])
  {
    assert other <= at + [x] && |other| <= |at| ==> other <= at;
  }

  lemma ChildrenApart(v: Visit, other: Path, found: seq<Mask>, next: seq<Visit>)
    requires ChildrenOf(v.at, v.entries, found, next) && Apart(other, v.at)
    ensures forall m :: m in found ==> Apart(other, m.at)
    ensures forall u :: u in next ==> Apart(other, u.at)
  {
    forall e | e in v.entries ensures Apart(other, v.at + [e.name]) { ChildApart(v.at, e.name, other); }
  }

  lemma SiblingsApart(v: Visit, found: seq<Mask>, next: seq<Visit>)
    requires ChildrenOf(v.at, v.entries, found, next)
    ensures Antichain(MaskPaths(found)) && Antichain(VisitPaths(next))
    ensures forall m, u :: m in found && u in next ==> Apart(m.at, u.at)
  {
    forall i | 0 <= i < |found| ensures |found[i].at| == |v.at| + 1 { assert found[i] in found; }
    forall i | 0 <= i < |next| ensures |next[i].at| == |v.at| + 1 { assert next[i] in next; }
    SameDepth(MaskPaths(found), |v.at| + 1);
    SameDepth(VisitPaths(next), |v.at| + 1);
  }

  ghost predicate MasksApart(masks: seq<Mask>, stack: seq<Visit>) {
    forall m, v :: m in masks && v in stack ==> Apart(m.at, v.at)
  }

  lemma StepSeparation(v: Visit, rest: seq<Visit>, masks: seq<Mask>, found: seq<Mask>, next: seq<Visit>)
    requires Antichain(MaskPaths(masks)) && ChildrenOf(v.at, v.entries, found, next)
    requires Antichain(VisitPaths(rest)) && MasksApart(masks, rest)
    requires forall u :: u in rest ==> Apart(u.at, v.at)
    requires forall m :: m in masks ==> Apart(m.at, v.at)
    ensures Antichain(MaskPaths(masks + found)) && Antichain(VisitPaths(rest + next))
    ensures MasksApart(masks + found, rest + next)
  {
    forall m | m in masks
      ensures (forall x :: x in found ==> Apart(m.at, x.at)) && (forall u :: u in next ==> Apart(m.at, u.at))
    {
      ChildrenApart(v, m.at, found, next);
    }
    forall u | u in rest
      ensures (forall x :: x in found ==> Apart(u.at, x.at)) && (forall y :: y in next ==> Apart(u.at, y.at))
    {
      ChildrenApart(v, u.at, found, next);
    }
    SiblingsApart(v, found, next);
    MasksConcat(masks, found);
    VisitsConcat(rest, next);
  }

  lemma MasksConcat(a: seq<Mask>, b: seq<Mask>)
    requires Antichain(MaskPaths(a)) && Antichain(MaskPaths(b)) && forall x, y :: x in a && y in b ==> Apart(x.at, y.at)
    ensures Antichain(MaskPaths(a + b))
  {
    assert MaskPaths(a + b) == MaskPaths(a) + MaskPaths(b);
    AntichainConcat(MaskPaths(a), MaskPaths(b));
  }

  lemma VisitsConcat(a: seq<Visit>, b: seq<Visit>)
    requires Antichain(VisitPaths(a)) && Antichain(VisitPaths(b)) && forall x, y :: x in a && y in b ==> Apart(x.at, y.at)
    ensures Antichain(VisitPaths(a + b))
  {
    assert VisitPaths(a + b) == VisitPaths(a) + VisitPaths(b);
    AntichainConcat(VisitPaths(a), VisitPaths(b));
  }

  lemma StepCoverage(job: Job, v: Visit, rest: seq<Visit>, masks: seq<Mask>, found: seq<Mask>, at: Path)
    requires Lookup(job.tree, v.at) == Some(Dir(v.entries)) && Reached(job, at) && Masked(job, at)
    requires found == EntryMasks(job, v.at, v.entries, true) + EntryMasks(job, v.at, v.entries, false)
    requires Covered(masks, at) || v.at < at || exists u :: u in rest && u.at < at
    ensures Covered(masks + found, at) || exists u :: u in rest + Descend(job, v.at, v.entries) && u.at < at
  {
    if Covered(masks, at) {
      var i :| 0 <= i < |masks| && masks[i].at <= at;
      assert (masks + found)[i].at <= at;
    } else if exists u :: u in rest && u.at < at {
      var u :| u in rest && u.at < at;
      assert u in rest + Descend(job, v.at, v.entries);
    } else {
      var e := NextEntry(job, v, at);
      var child := v.at + [e.name];
      if Masked(job, child) {
        var m := MaskOf(job, v.at, e);
        assert MasksEntry(job, v.at, e, e.node.Dir?);
        assert m in EntryMasks(job, v.at, v.entries, e.node.Dir?);
        assert m in masks + found;
        var i :| 0 <= i < |masks + found| && (masks + found)[i] == m;
      } else {
        var u := Visit(child, e.node.entries);
        assert u in Descend(job, v.at, v.entries);
        assert u in rest + Descend(job, v.at, v.entries);
        assert child != at;
      }
    }
  }

  lemma StepSound(job: Job, v: Visit, masks: seq<Mask>)
    requires Sound(job, masks) && Reached(job, v.at) && Lookup(job.tree, v.at) == Some(Dir(v.entries)) && Distinct(v.entries)
    ensures Sound(job, masks + (EntryMasks(job, v.at, v.entries, true) + EntryMasks(job, v.at, v.entries, false)))
  {
    NewMasksSound(job, v, true);
    NewMasksSound(job, v, false);
  }

  lemma StepVisitable(job: Job, v: Visit, rest: seq<Visit>)
    requires Visitable(job, rest) && Reached(job, v.at)
    requires Lookup(job.tree, v.at) == Some(Dir(v.entries)) && Distinct(v.entries)
    ensures Visitable(job, rest + Descend(job, v.at, v.entries))
  {
    forall u | u in Descend(job, v.at, v.entries)
      ensures Reached(job, u.at) && Lookup(job.tree, u.at) == Some(Dir(u.entries))
    {
      var e :| e in v.entries && Enters(job, v.at, e) && u == Visit(v.at + [e.name], e.node.entries);
      ReachedChild(job, v.at, v.entries, e);
    }
  }

  lemma StepAccounted(job: Job, v: Visit, rest: seq<Visit>, masks: seq<Mask>, found: seq<Mask>)
    requires Accounted(job, rest + [v], masks) && Lookup(job.tree, v.at) == Some(Dir(v.entries))
    requires found == EntryMasks(job, v.at, v.entries, true) + EntryMasks(job, v.at, v.entries, false)
    ensures Accounted(job, rest + Descend(job, v.at, v.entries), masks + found)
  {
    forall at | Reached(job, at) && Masked(job, at)
      ensures Covered(masks + found, at) || exists u :: u in rest + Descend(job, v.at, v.entries) && u.at < at
    {
      StepCoverage(job, v, rest, masks, found, at);
    }
  }

  /** Visiting one directory keeps the walk's invariant. */
  lemma StepProgress(job: Job, v: Visit, rest: seq<Visit>, masks: seq<Mask>)
    requires WellFormed(job.tree) && Progress(job, rest + [v], masks)
    ensures Progress(job, rest + Descend(job, v.at, v.entries),
                     masks + (EntryMasks(job, v.at, v.entries, true) + EntryMasks(job, v.at, v.entries, false)))
  {
    var stack := rest + [v];
    assert v in stack && forall u :: u in rest ==> u in stack;
    var found := EntryMasks(job, v.at, v.entries, true) + EntryMasks(job, v.at, v.entries, false);
    StepSound(job, v, masks);
    StepVisitable(job, v, rest);
    StepAccounted(job, v, rest, masks, found);
    ScanChildren(job, v);
    StackLast(v, rest);
    StepSeparation(v, rest, masks, found, Descend(job, v.at, v.entries));
  }

  lemma StackLast(v: Visit, rest: seq<Visit>)
    requires Antichain(VisitPaths(rest + [v]))
    ensures Antichain(VisitPaths(rest)) && forall u :: u in rest ==> Apart(u.at, v.at)
  {
    assert VisitPaths(rest + [v]) == VisitPaths(rest) + [v.at];
    AntichainPrefix(VisitPaths(rest), v.at);
    forall u | u in rest ensures u.at in VisitPaths(rest) {
      var i :| 0 <= i < |rest| && rest[i] == u;
      assert VisitPaths(rest)[i] == u.at;
    }
  }

  /** Seeing anything below the root takes a root directory that is not skipped. */
  lemma ReachedRoot(job: Job, at: Path)
    requires Reached(job, at) && at != []
    ensures job.tree.Dir? && !Skipped(job, [])
  {
    LookupPrefix(job.tree, at, 0);
    assert at[..0] == [];
  }

  lemma NothingVisible(job: Job)
    requires Skipped(job, []) || !job.tree.Dir?
    ensures Complete(job, [])
  {
    if at :| Reached(job, at) && Masked(job, at) {
      ReachedRoot(job, at);
      assert false;
    }
  }

  lemma StartProgress(job: Job)
    requires job.tree.Dir? && !Skipped(job, [])
    ensures Progress(job, [Visit([], job.tree.entries)], [])
  {
    var stack := [Visit([], job.tree.entries)];
    forall at | Reached(job, at) && Masked(job, at) ensures exists v :: v in stack && v.at < at {
      assert stack[0].at < at;
    }
  }

  lemma DoneComplete(job: Job, masks: seq<Mask>)
    requires Progress(job, [], masks)
    ensures Sound(job, masks) && Antichain(MaskPaths(masks)) && Complete(job, masks)
  {}

  /** One turn of the walk makes progress and leaves less to visit. */
  lemma StepShrinks(job: Job, v: Visit, rest: seq<Visit>, masks: seq<Mask>, found: seq<Mask>, next: seq<Visit>)
    requires WellFormed(job.tree) && Progress(job, rest + [v], masks)
    requires found == EntryMasks(job, v.at, v.entries, true) + EntryMasks(job, v.at, v.entries, false)
    requires next == Descend(job, v.at, v.entries)
    ensures Progress(job, rest + next, masks + found)
    ensures Pending(rest + next) < Pending(rest + [v])
  {
    StepProgress(job, v, rest, masks);
    DescendShrinks(job, v.at, v.entries);
    PendingConcat(rest, next);
    assert (rest + [v])[..|rest|] == rest;
  }

  /** The scan: every directory in turn, stopping when the masks exceed `limit`. */
  method ExistingPatternMasks(job: Job, limit: nat) returns (r: Result<seq<Mask>, Failure>)
    requires WellFormed(job.tree)
    ensures r.Ok? ==> Sound(job, r.value) && Antichain(MaskPaths(r.value)) && Complete(job, r.value) && |r.value| <= limit
    ensures r.Err? ==> exists masks :: Sound(job, masks) && Antichain(MaskPaths(masks)) && |masks| > limit
  {
    if Skipped(job, []) || !job.tree.Dir? {
      NothingVisible(job);
      return Ok([]);
    }
    var stack, masks := [Visit([], job.tree.entries)], [];
    StartProgress(job);
    while stack != []
      invariant Progress(job, stack, masks) && |masks| <= limit
      decreases Pending(stack)
    {
      var v, rest := stack[|stack| - 1], stack[..|stack| - 1];
      assert stack == rest + [v];
      var found, next := ScanDirectory(job, v.at, v.entries);
      StepShrinks(job, v, rest, masks, found, next);
      masks := masks + found;
      if |masks| > limit { return Err(TooManyMasks); }
      stack := rest + next;
    }
    DoneComplete(job, masks);
    r := Ok(masks);
  }

  // ---------------------------------------------------------------- the masks cover the policy

  /** A name rule anchored below the root decides the access of this path. */
  ghost predicate NameDecides(job: Job, at: Path, g: Grant, n: nat) {
    && (g in job.grants || g in DEFAULT_GRANTS) && g.rule.Named?
    && 0 < n <= |at|
    && AnchorOf(job.host, job.root + at, g) == Some(|job.root| + n)
    && NoAnchorBelow(job.host, job.root + at, |job.root| + n, job.grants)
  }

  lemma AccessInherited(job: Job, at: Path, n: nat)
    requires Agrees(job) && n <= |at| && Lookup(job.tree, at).Some? && !Reserved(job.host, job.root + at)
    requires NoAnchorBelow(job.host, job.root + at, |job.root| + n, job.grants)
    ensures Access(job, at) == Access(job, at[..n])
  {
    var k := |job.root| + n;
    assert (job.root + at)[..k] == job.root + at[..n];
    LookupPrefix(job.tree, at, n);
    Inheritance(job.host, job.root + at, k, job.root, job.writable, job.grants);
  }

  lemma DecidingName(job: Job, at: Path, g: Grant, n: nat)
    requires NameDecides(job, at, g, n)
    ensures Mentioned(job, at[..n][|at[..n]| - 1])
  {
    assert at[n - 1] == (job.root + at)[|job.root| + n - 1];
    assert NamedBy(job, g, at[n - 1]);
  }

  /**
  Any visible path without reserved components whose access is decided by a name
  rule below the root, and is not read-write, lies at or below a returned mask.
  */
  lemma MasksCoverPolicy(job: Job, masks: seq<Mask>, at: Path, g: Grant, n: nat)
    requires Agrees(job) && Complete(job, masks)
    requires Reached(job, at) && !Reserved(job.host, job.root + at) && NameDecides(job, at, g, n)
    requires Access(job, at) != Some(RW)
    ensures Covered(masks, at)
  {
    RestrictedUnlessOpen(job, at);
    DecidingAnchor(job, at, g, n);
    CoveredBelow(masks, at, n);
  }

  /** Inside the root every path has an access, and what is not read-write is to be masked. */
  lemma RestrictedUnlessOpen(job: Job, at: Path)
    requires Access(job, at) != Some(RW)
    ensures Restricted(job, at)
  {
    assert Access(job, at).Some? by {
      InsideAnswered(job.host, job.root + at, job.root, job.writable, job.grants, false);
    }
    NotOpen(Access(job, at));
  }

  lemma NotOpen(access: Option<Mode>)
    requires access.Some? && access != Some(RW)
    ensures access in {Some(RO), Some(Protect), Some(Deny)}
  {
    match access.value
    case RO =>
    case Protect =>
    case Deny =>
  }

  lemma CoveredBelow(masks: seq<Mask>, at: Path, n: nat)
    requires n <= |at| && Covered(masks, at[..n])
    ensures Covered(masks, at)
  {
    var i :| 0 <= i < |masks| && masks[i].at <= at[..n];
    assert masks[i].at <= at;
  }

  /** The deciding anchor is itself visible and to be masked. */
  lemma DecidingAnchor(job: Job, at: Path, g: Grant, n: nat)
    requires Agrees(job) && Reached(job, at) && !Reserved(job.host, job.root + at)
    requires NameDecides(job, at, g, n) && Restricted(job, at)
    ensures Reached(job, at[..n]) && Masked(job, at[..n])
  {
    ReachedPrefix(job, at, n);
    DecidingName(job, at, g, n);
    RestrictedInherited(job, at, n);
  }

  lemma RestrictedInherited(job: Job, at: Path, n: nat)
    requires Agrees(job) && n <= |at| && Reached(job, at) && !Reserved(job.host, job.root + at)
    requires NoAnchorBelow(job.host, job.root + at, |job.root| + n, job.grants) && Restricted(job, at)
    ensures Restricted(job, at[..n])
  {
    AccessInherited(job, at, n);
  }
}
