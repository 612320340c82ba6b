/**
The effective access of a path: the deepest matching rule decides, the strictest
mode wins at equal depth, and an explicit literal deny is absolute.

A path is the sequence of its components below "/".  Rules are in parsed form.
Case folding and the directory test are parameters of the host, so that every
statement holds for any folding and any file system.
*/
module PathPolicy {
  import opened Prelude

  type Path = seq<string>

  datatype Mode = RW | RO | Protect | Deny

  function Weight(m: Mode): nat {
    match m case RW => 0 case RO => 1 case Protect => 2 case Deny => 3
  }

  /** `Named` is a rule `*` + `/name`, `Literal` an absolute path; `directory` is the trailing slash. */
  datatype Rule = Named(name: string, directory: bool) | Literal(path: Path, directory: bool)

  datatype Grant = Grant(rule: Rule, mode: Mode, legacyDirectory: bool, strictFile: bool)

  datatype Host = Host(fold: string -> string, isDir: Path -> bool)

  const FOLDED_NAMES: set<string> :=
    {".git", ".config", ".ssh", ".openkapsel", ".gitconfig", ".gitattributes", ".gitmodules"}

  const RESERVED_PREFIX := ".openkapsel-"

  const DEFAULT_GRANTS: seq<Grant> := [
    Grant(Named(".git", true), Protect, false, false),
    Grant(Named(".git", false), Protect, false, false),
    Grant(Named(".config", true), Protect, false, false),
    Grant(Named(".ssh", true), Protect, false, false),
    Grant(Named(".openkapsel", true), Deny, false, false),
    Grant(Named(".gitconfig", false), Protect, false, false),
    Grant(Named(".gitattributes", false), Protect, false, false),
    Grant(Named(".gitmodules", false), Protect, false, false)]

  predicate NameMatches(host: Host, name: string, configured: string) {
    name == configured || (host.fold(configured) in FOLDED_NAMES && host.fold(name) == host.fold(configured))
  }

  /** Length of the longest nonempty prefix of `path` whose last component matches, or 0. */
  function DeepestNamed(host: Host, path: Path, name: string): (k: nat)
    ensures k <= |path|
    ensures k > 0 ==> NameMatches(host, path[k - 1], name)
    ensures forall i :: k <= i < |path| ==> !NameMatches(host, path[i], name)
  {
    if path == [] then 0
    else if NameMatches(host, path[|path| - 1], name) then |path|
    else DeepestNamed(host, path[..|path| - 1], name)
  }

  /** The depth of the ancestor-or-self of `path` at which `rule` matches. */
  function Anchor(host: Host, path: Path, rule: Rule): Option<nat> {
    match rule
    case Named(name, directory) =>
      var k := DeepestNamed(host, path, name);
      if k == 0 || (!directory && (k != |path| || host.isDir(path))) then None else Some(k)
    case Literal(target, directory) =>
      if path != target && (!directory || !(target < path)) then None
      else if !directory && host.isDir(target) then None
      else Some(|target|)
  }

  /** A legacy literal grant of a directory is read as a directory rule. */
  function Normalized(host: Host, g: Grant): Rule {
    match g.rule
    case Literal(target, false) =>
      if !g.strictFile && (g.legacyDirectory || host.isDir(target)) then Literal(target, true) else g.rule
    case _ => g.rule
  }

  function AnchorOf(host: Host, path: Path, g: Grant): Option<nat> {
    Anchor(host, path, Normalized(host, g))
  }

  predicate Within(root: Path, path: Path) {
    root <= path
  }

  predicate Reserved(host: Host, path: Path) {
    exists i :: 0 <= i < |path| && RESERVED_PREFIX <= host.fold(path[i])
  }

  /** An explicit literal grant that matches `path`. */
  predicate LiteralHit(host: Host, path: Path, g: Grant) {
    g.rule.Literal? && AnchorOf(host, path, g).Some?
  }

  predicate AnyLiteral(host: Host, path: Path, grants: seq<Grant>) {
    exists g :: g in grants && LiteralHit(host, path, g)
  }

  predicate AnyLiteralDeny(host: Host, path: Path, grants: seq<Grant>) {
    exists g :: g in grants && g.mode == Deny && LiteralHit(host, path, g)
  }

  datatype Hit = Hit(depth: nat, mode: Mode)

  function ExplicitHits(host: Host, path: Path, grants: seq<Grant>): (hits: seq<Hit>)
    ensures forall x :: x in hits <==>
      exists g :: g in grants && AnchorOf(host, path, g) == Some(x.depth) && g.mode == x.mode
  {
    if grants == [] then []
    else
      var rest := ExplicitHits(host, path, grants[1..]);
      assert grants == [grants[0]] + grants[1..];
      match AnchorOf(host, path, grants[0])
      case None => rest
      case Some(d) => [Hit(d, grants[0].mode)] + rest
  }

  /** Default rules apply only at anchors no explicit rule matches. */
  function DefaultHits(host: Host, path: Path, defaults: seq<Grant>, explicit: seq<Hit>): (hits: seq<Hit>)
    ensures forall x :: x in hits <==>
      (exists g :: g in defaults && AnchorOf(host, path, g) == Some(x.depth) && g.mode == x.mode)
      && (forall y :: y in explicit ==> y.depth != x.depth)
  {
    if defaults == [] then []
    else
      var rest := DefaultHits(host, path, defaults[1..], explicit);
      assert defaults == [defaults[0]] + defaults[1..];
      match AnchorOf(host, path, defaults[0])
      case None => rest
      case Some(d) =>
        if exists y :: y in explicit && y.depth == d then rest else [Hit(d, defaults[0].mode)] + rest
  }

  predicate Outranks(x: Hit, y: Hit) {
    y.depth < x.depth || (y.depth == x.depth && Weight(y.mode) <= Weight(x.mode))
  }

  /** The deepest hit, and the strictest among the deepest. */
  function Decisive(hits: seq<Hit>): (x: Hit)
    requires hits != []
    ensures x in hits && forall y :: y in hits ==> Outranks(x, y)
  {
    if |hits| == 1 then hits[0]
    else
      var rest := Decisive(hits[1..]);
      assert hits == [hits[0]] + hits[1..];
      if Outranks(hits[0], rest) then hits[0] else rest
  }

  function AllHits(host: Host, path: Path, root: Path, writable: bool, grants: seq<Grant>): seq<Hit> {
    var explicit := ExplicitHits(host, path, grants);
    DefaultHits(host, path, DEFAULT_GRANTS, explicit) + explicit
    + (if Within(root, path) then [Hit(|root|, if writable then RW else RO)] else [])
  }

  function Verdict(hits: seq<Hit>): Option<Mode> {
    if hits == [] then None else Some(Decisive(hits).mode)
  }

  /** `stage`: the path is an internal transfer staging name and the caller is the transport. */
  function Effective(host: Host, path: Path, root: Path, writable: bool, grants: seq<Grant>, stage: bool)
    : Option<Mode>
  {
    if !Within(root, path) && !AnyLiteral(host, path, grants) then None
    else if Reserved(host, path) && !stage then Some(Deny)
    else if AnyLiteralDeny(host, path, grants) then Some(Deny)
    else if stage then Some(if writable then RW else RO)
    else
      Verdict(AllHits(host, path, root, writable, grants))
  }

  // ---------------------------------------------------------------- laws

  /** Two lists with the same elements decide alike. */
  lemma VerdictUnique(a: seq<Hit>, b: seq<Hit>)
    requires forall x :: x in a <==> x in b
    ensures Verdict(a) == Verdict(b)
  {
    if a != [] { assert a[0] in b; }
    if b != [] { assert b[0] in a; }
    if a != [] && b != [] {
      assert Outranks(Decisive(a), Decisive(b)) && Outranks(Decisive(b), Decisive(a));
    }
  }

  lemma SameHits(host: Host, p: Path, q: Path, root: Path, writable: bool, gs: seq<Grant>, hs: seq<Grant>)
    requires forall x :: x in ExplicitHits(host, p, gs) <==> x in ExplicitHits(host, q, hs)
    requires forall g :: g in DEFAULT_GRANTS ==> AnchorOf(host, p, g) == AnchorOf(host, q, g)
    requires Within(root, p) == Within(root, q)
    ensures Verdict(AllHits(host, p, root, writable, gs)) == Verdict(AllHits(host, q, root, writable, hs))
  {
    VerdictUnique(AllHits(host, p, root, writable, gs), AllHits(host, q, root, writable, hs));
  }

  /** Only the set of grants matters: order and repetition do not. */
  lemma OrderIndependent(host: Host, path: Path, root: Path, writable: bool, gs: seq<Grant>, hs: seq<Grant>, stage: bool)
    requires forall g :: g in gs <==> g in hs
    ensures Effective(host, path, root, writable, gs, stage) == Effective(host, path, root, writable, hs, stage)
  {
    SameExplicit(host, path, gs, hs);
    SameHits(host, path, path, root, writable, gs, hs);
    assert AnyLiteral(host, path, gs) == AnyLiteral(host, path, hs);
    assert AnyLiteralDeny(host, path, gs) == AnyLiteralDeny(host, path, hs);
  }

  lemma SameExplicit(host: Host, path: Path, gs: seq<Grant>, hs: seq<Grant>)
    requires forall g :: g in gs <==> g in hs
    ensures forall x :: x in ExplicitHits(host, path, gs) <==> x in ExplicitHits(host, path, hs)
  {}

  /** An explicit literal deny cannot be reopened, not even below the denied directory or for the transport. */
  lemma LiteralDenyIsAbsolute(host: Host, path: Path, root: Path, writable: bool, grants: seq<Grant>, stage: bool,
                              g: Grant)
    requires g in grants && g.mode == Deny && g.rule.Literal?
    requires var r := Normalized(host, g);
      (r.directory && r.path <= path) || (!r.directory && r.path == path && !host.isDir(path))
    ensures Effective(host, path, root, writable, grants, stage) == Some(Deny)
  {
    assert LiteralHit(host, path, g);
  }

  /** No rule is anchored strictly below depth `n` on the way to `p`. */
  ghost predicate NoAnchorBelow(host: Host, p: Path, n: nat, grants: seq<Grant>) {
    && (forall g :: g in grants ==> AnchorOf(host, p, g).None? || AnchorOf(host, p, g).value <= n)
    && (forall g :: g in DEFAULT_GRANTS ==> AnchorOf(host, p, g).None? || AnchorOf(host, p, g).value <= n)
  }

  lemma {:induction false} DeepestNamedInherited(host: Host, p: Path, n: nat, name: string)
    requires n <= |p| && DeepestNamed(host, p, name) <= n
    ensures DeepestNamed(host, p[..n], name) == DeepestNamed(host, p, name)
  {
    if n < |p| {
      assert p[..|p| - 1][..n] == p[..n];
      DeepestNamedInherited(host, p[..|p| - 1], n, name);
    } else {
      assert p[..n] == p;
    }
  }

  /** A rule that is not anchored below a directory has the same anchor on the directory and below it. */
  lemma AnchorInherited(host: Host, p: Path, n: nat, rule: Rule)
    requires n <= |p| && (n < |p| ==> host.isDir(p[..n]))
    requires Anchor(host, p, rule).None? || Anchor(host, p, rule).value <= n
    ensures Anchor(host, p[..n], rule) == Anchor(host, p, rule)
  {
    if n == |p| {
      assert p[..n] == p;
    } else if rule.Named? {
      var k := DeepestNamed(host, p, rule.name);
      if rule.directory { DeepestNamedInherited(host, p, n, rule.name); }
    } else {
      assert rule.path < p && |rule.path| <= n ==> rule.path <= p[..n];
    }
  }

  /** Paths on which every rule has the same anchor have the same access. */
  lemma SameAnchors(host: Host, p: Path, q: Path, root: Path, writable: bool, grants: seq<Grant>)
    requires forall g :: g in grants ==> AnchorOf(host, p, g) == AnchorOf(host, q, g)
    requires forall g :: g in DEFAULT_GRANTS ==> AnchorOf(host, p, g) == AnchorOf(host, q, g)
    requires Within(root, p) == Within(root, q) && Reserved(host, p) == Reserved(host, q)
    ensures Effective(host, p, root, writable, grants, false) == Effective(host, q, root, writable, grants, false)
  {
    SameHits(host, p, q, root, writable, grants, grants);
    assert AnyLiteral(host, p, grants) == AnyLiteral(host, q, grants);
    assert AnyLiteralDeny(host, p, grants) == AnyLiteralDeny(host, q, grants);
  }

  lemma ReservedPrefix(host: Host, p: Path, n: nat)
    requires n <= |p| && Reserved(host, p[..n])
    ensures Reserved(host, p)
  {
    var i :| 0 <= i < n && RESERVED_PREFIX <= host.fold(p[..n][i]);
    assert p[i] == p[..n][i];
  }

  /**
  Inheritance: below a directory, access is the directory's access until a rule
  anchor, the root or a reserved name comes in between.
  */
  lemma Inheritance(host: Host, p: Path, n: nat, root: Path, writable: bool, grants: seq<Grant>)
    requires n <= |p| && (n < |p| ==> host.isDir(p[..n]))
    requires NoAnchorBelow(host, p, n, grants)
    requires Within(root, p) ==> |root| <= n
    requires Reserved(host, p) ==> Reserved(host, p[..n])
    ensures Effective(host, p, root, writable, grants, false) == Effective(host, p[..n], root, writable, grants, false)
  {
    var d := p[..n];
    forall g | g in grants || g in DEFAULT_GRANTS ensures AnchorOf(host, p, g) == AnchorOf(host, d, g) {
      AnchorInherited(host, p, n, Normalized(host, g));
    }
    if Reserved(host, d) { ReservedPrefix(host, p, n); }
    SameAnchors(host, p, d, root, writable, grants);
  }

  /** Something speaks for mode `m` at depth `d`: an explicit rule, an unreplaced default, or the root. */
  ghost predicate Speaks(host: Host, path: Path, root: Path, writable: bool, grants: seq<Grant>, d: nat, m: Mode) {
    || (exists g :: g in grants && AnchorOf(host, path, g) == Some(d) && g.mode == m)
    || ((exists g :: g in DEFAULT_GRANTS && AnchorOf(host, path, g) == Some(d) && g.mode == m)
        && (forall g :: g in grants ==> AnchorOf(host, path, g) != Some(d)))
    || (Within(root, path) && d == |root| && m == (if writable then RW else RO))
  }

  lemma ExplicitSpeak(host: Host, path: Path, grants: seq<Grant>, d: nat)
    ensures (exists y :: y in ExplicitHits(host, path, grants) && y.depth == d) <==>
            (exists g :: g in grants && AnchorOf(host, path, g) == Some(d))
  {
    var explicit := ExplicitHits(host, path, grants);
    forall g | g in grants && AnchorOf(host, path, g) == Some(d) ensures Hit(d, g.mode) in explicit {}
  }

  lemma HitsSpeak(host: Host, path: Path, root: Path, writable: bool, grants: seq<Grant>, d: nat, m: Mode)
    ensures Hit(d, m) in AllHits(host, path, root, writable, grants) <==>
            Speaks(host, path, root, writable, grants, d, m)
  {
    ExplicitSpeak(host, path, grants, d);
    var explicit := ExplicitHits(host, path, grants);
    assert Hit(d, m) in explicit <==> exists g :: g in grants && AnchorOf(host, path, g) == Some(d) && g.mode == m;
  }

  /** The request is settled before any default rule is looked at. */
  predicate Settled(host: Host, path: Path, root: Path, grants: seq<Grant>, stage: bool) {
    || (!Within(root, path) && !AnyLiteral(host, path, grants))
    || Reserved(host, path) || AnyLiteralDeny(host, path, grants) || stage
  }

  /** Unless settled earlier, the deepest voice decides, and the strictest of those at that depth. */
  lemma DeepestStrictestDecides(host: Host, path: Path, root: Path, writable: bool, grants: seq<Grant>, m: Mode)
    requires !Settled(host, path, root, grants, false)
    ensures Effective(host, path, root, writable, grants, false) == Some(m) <==>
      exists d: nat :: Decides(host, path, root, writable, grants, d, m)
  {
    var top := TopHit(host, path, root, writable, grants);
    if d: nat :| Decides(host, path, root, writable, grants, d, m) {
      OneDecision(host, path, root, writable, grants, top, Hit(d, m));
    }
  }

  /** Unless settled earlier, the access is the mode of a hit that decides. */
  lemma TopHit(host: Host, path: Path, root: Path, writable: bool, grants: seq<Grant>) returns (top: Hit)
    requires !Settled(host, path, root, grants, false)
    ensures Effective(host, path, root, writable, grants, false) == Some(top.mode)
    ensures Decides(host, path, root, writable, grants, top.depth, top.mode)
  {
    var hits := AllHits(host, path, root, writable, grants);
    assert hits != [] by { SomethingSpeaks(host, path, root, writable, grants); }
    top := Decisive(hits);
    DecisiveDecides(host, path, root, writable, grants, top);
  }

  lemma SomethingSpeaks(host: Host, path: Path, root: Path, writable: bool, grants: seq<Grant>)
    requires Within(root, path) || AnyLiteral(host, path, grants)
    ensures AllHits(host, path, root, writable, grants) != []
  {
    if !Within(root, path) {
      var g :| g in grants && LiteralHit(host, path, g);
      assert Hit(AnchorOf(host, path, g).value, g.mode) in ExplicitHits(host, path, grants);
    }
  }

  /** Inside the root there is always an answer. */
  lemma InsideAnswered(host: Host, path: Path, root: Path, writable: bool, grants: seq<Grant>, stage: bool)
    requires Within(root, path)
    ensures Effective(host, path, root, writable, grants, stage).Some?
  {
    SomethingSpeaks(host, path, root, writable, grants);
  }

  lemma OneDecision(host: Host, path: Path, root: Path, writable: bool, grants: seq<Grant>, x: Hit, y: Hit)
    requires Decides(host, path, root, writable, grants, x.depth, x.mode)
    requires Decides(host, path, root, writable, grants, y.depth, y.mode)
    ensures x.mode == y.mode
  {
    assert Outranks(Hit(x.depth, x.mode), Hit(y.depth, y.mode)) && Outranks(Hit(y.depth, y.mode), Hit(x.depth, x.mode));
  }

  lemma DecisiveDecides(host: Host, path: Path, root: Path, writable: bool, grants: seq<Grant>, top: Hit)
    requires top in AllHits(host, path, root, writable, grants)
    requires forall y :: y in AllHits(host, path, root, writable, grants) ==> Outranks(top, y)
    ensures Decides(host, path, root, writable, grants, top.depth, top.mode)
  {
    HitsSpeak(host, path, root, writable, grants, top.depth, top.mode);
    forall d: nat, m' | Speaks(host, path, root, writable, grants, d, m') ensures Outranks(Hit(top.depth, top.mode), Hit(d, m')) {
      HitsSpeak(host, path, root, writable, grants, d, m');
    }
  }

  /** Mode `m` is spoken for at depth `d`, and nothing that speaks is deeper, or as deep and stricter. */
  ghost predicate Decides(host: Host, path: Path, root: Path, writable: bool, grants: seq<Grant>, d: nat, m: Mode) {
    && Speaks(host, path, root, writable, grants, d, m)
    && forall d': nat, m' :: Speaks(host, path, root, writable, grants, d', m') ==> Outranks(Hit(d, m), Hit(d', m'))
  }
}
