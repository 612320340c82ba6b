/**
What the policy answers, said without its ranking of modes: which rule is anchored
where, what each answer means at the deepest anchor, and what the defaults protect.
*/
module PathAccess {
  import opened Prelude
  import opened PathPolicy

  // ---------------------------------------------------------------- names and anchors

  /** Protected metadata names are compared ignoring case, all others exactly. */
  ghost predicate SameName(host: Host, name: string, configured: string) {
    if host.fold(configured) in {".git", ".config", ".ssh", ".openkapsel", ".gitconfig", ".gitattributes", ".gitmodules"}
    then host.fold(name) == host.fold(configured)
    else name == configured
  }

  /** The prefix of length `k` is the deepest one whose last component has the name. */
  ghost predicate DeepestSame(host: Host, path: Path, name: string, k: nat) {
    0 < k <= |path| && SameName(host, path[k - 1], name) && forall i :: k <= i < |path| ==> !SameName(host, path[i], name)
  }

  /** A literal grant written without a slash is a directory rule too, if its path is one and it is not strictly a file. */
  ghost predicate ForDirectory(host: Host, g: Grant) {
    g.rule.directory || (g.rule.Literal? && !g.strictFile && (g.legacyDirectory || host.isDir(g.rule.path)))
  }

  /**
  Where a grant is anchored: a name rule for directories at the deepest component
  of that name, a name rule for files at the path itself if that is no directory; a
  literal rule for a directory on everything at or below it, one for a file on that
  file alone.
  */
  lemma AnchorExactly(host: Host, path: Path, g: Grant, k: nat)
    ensures AnchorOf(host, path, g) == Some(k) <==>
      match g.rule
      case Named(name, directory) => DeepestSame(host, path, name, k) && (directory || (k == |path| && !host.isDir(path)))
      case Literal(target, _) => k == |target| && (if ForDirectory(host, g) then target <= path else path == target && !host.isDir(target))
  {
    if g.rule.Named? { DeepestExactly(host, path, g.rule.name, k); }
  }

  lemma DeepestExactly(host: Host, path: Path, name: string, k: nat)
    ensures DeepestSame(host, path, name, k) <==> k > 0 && k == DeepestNamed(host, path, name)
  {
    forall other ensures NameMatches(host, other, name) <==> SameName(host, other, name) {}
  }

  // ---------------------------------------------------------------- answers

  /** The modes spoken for at depth `d`. */
  ghost function Voices(host: Host, path: Path, root: Path, writable: bool, grants: seq<Grant>, d: nat): set<Mode> {
    set m: Mode | Speaks(host, path, root, writable, grants, d, m)
  }

  /** Nothing speaks deeper than depth `d`, and something speaks there. */
  ghost predicate DeepestVoice(host: Host, path: Path, root: Path, writable: bool, grants: seq<Grant>, d: nat) {
    && Voices(host, path, root, writable, grants, d) != {}
    && forall d': nat, m :: Speaks(host, path, root, writable, grants, d', m) ==> d' <= d
  }

  /** What a set of voices amounts to. */
  ghost predicate AmountsTo(voices: set<Mode>, m: Mode) {
    match m
    case Deny => Deny in voices
    case Protect => Deny !in voices && Protect in voices
    case RO => Deny !in voices && Protect !in voices && RO in voices
    case RW => forall v :: v in voices ==> v == RW
  }

  /**
  The answer, for every request that is not settled earlier.  At the deepest depth
  at which anything speaks: Deny exactly when a voice there says so; Protect when
  none says Deny and one says Protect; read-only when none says either and one says
  read-only; read-write exactly when all voices there say read-write.
  */
  lemma AccessExactly(host: Host, path: Path, root: Path, writable: bool, grants: seq<Grant>) returns (d: nat)
    requires !Settled(host, path, root, grants, false)
    ensures DeepestVoice(host, path, root, writable, grants, d)
    ensures forall m :: Effective(host, path, root, writable, grants, false) == Some(m) <==>
      AmountsTo(Voices(host, path, root, writable, grants, d), m)
  {
    var hits := AllHits(host, path, root, writable, grants);
    var top := EffectiveIsTop(host, path, root, writable, grants);
    d := top.depth;
    VoicesAreHits(host, path, root, writable, grants, d);
    StrictestHit(hits, top);
    NoDeeperVoice(host, path, root, writable, grants, top);
  }

  /** The order of strictness, spelled out. */
  ghost predicate NoStricter(top: Mode, other: Mode) {
    match top
    case Deny => true
    case Protect => other != Deny
    case RO => other != Deny && other != Protect
    case RW => other == RW
  }

  ghost function ModesAt(hits: seq<Hit>, d: nat): set<Mode> {
    set x | x in hits && x.depth == d :: x.mode
  }

  lemma StrictestHit(hits: seq<Hit>, top: Hit)
    requires top in hits && forall y :: y in hits ==> Outranks(top, y)
    ensures top.mode in ModesAt(hits, top.depth)
    ensures forall m :: top.mode == m <==> AmountsTo(ModesAt(hits, top.depth), m)
  {
    var modes := ModesAt(hits, top.depth);
    assert top.mode in modes;
    forall m | m in modes ensures NoStricter(top.mode, m) {
      var y :| y in hits && y.depth == top.depth && y.mode == m;
      assert Outranks(top, y);
    }
  }

  lemma EffectiveIsTop(host: Host, path: Path, root: Path, writable: bool, grants: seq<Grant>) returns (top: Hit)
    requires !Settled(host, path, root, grants, false)
    ensures Effective(host, path, root, writable, grants, false) == Some(top.mode)
    ensures var hits := AllHits(host, path, root, writable, grants); top in hits && forall y :: y in hits ==> Outranks(top, y)
  {
    SomethingSpeaks(host, path, root, writable, grants);
    top := Decisive(AllHits(host, path, root, writable, grants));
  }

  lemma VoicesAreHits(host: Host, path: Path, root: Path, writable: bool, grants: seq<Grant>, d: nat)
    ensures Voices(host, path, root, writable, grants, d) == ModesAt(AllHits(host, path, root, writable, grants), d)
  {
    var hits := AllHits(host, path, root, writable, grants);
    forall m: Mode ensures m in ModesAt(hits, d) <==> Speaks(host, path, root, writable, grants, d, m) {
      HitsSpeak(host, path, root, writable, grants, d, m);
      assert Hit(d, m) in hits ==> m in ModesAt(hits, d);
    }
  }

  lemma NoDeeperVoice(host: Host, path: Path, root: Path, writable: bool, grants: seq<Grant>, top: Hit)
    requires forall y :: y in AllHits(host, path, root, writable, grants) ==> Outranks(top, y)
    ensures forall d: nat, m :: Speaks(host, path, root, writable, grants, d, m) ==> d <= top.depth
  {
    forall d: nat, m | Speaks(host, path, root, writable, grants, d, m) ensures d <= top.depth {
      HitsSpeak(host, path, root, writable, grants, d, m);
    }
  }

  /** The answers of requests that are settled earlier. */
  lemma SettledAnswers(host: Host, path: Path, root: Path, writable: bool, grants: seq<Grant>, stage: bool)
    requires Settled(host, path, root, grants, stage)
    ensures Effective(host, path, root, writable, grants, stage) ==
      if !(root <= path) && (forall g :: g in grants && g.rule.Literal? ==> AnchorOf(host, path, g).None?) then None
      else if (exists i :: 0 <= i < |path| && ".openkapsel-" <= host.fold(path[i])) && !stage then Some(Deny)
      else if exists g :: g in grants && g.rule.Literal? && g.mode == Deny && AnchorOf(host, path, g).Some? then Some(Deny)
      else Some(if writable then RW else RO)
  {
    assert AnyLiteral(host, path, grants) <==> !(forall g :: g in grants && g.rule.Literal? ==> AnchorOf(host, path, g).None?);
    assert AnyLiteralDeny(host, path, grants) <==>
      exists g :: g in grants && g.rule.Literal? && g.mode == Deny && AnchorOf(host, path, g).Some? by {
      if g :| g in grants && g.rule.Literal? && g.mode == Deny && AnchorOf(host, path, g).Some? { assert LiteralHit(host, path, g); }
    }
  }

  // ---------------------------------------------------------------- what is protected by default

  const METADATA_NAMES: set<string> :=
    {".git", ".config", ".ssh", ".openkapsel", ".gitconfig", ".gitattributes", ".gitmodules"}

  const METADATA_DIRECTORIES: set<string> := {".git", ".config", ".ssh", ".openkapsel"}

  lemma DefaultRules(d: Grant)
    requires d in DEFAULT_GRANTS
    ensures d.rule.Named? && d.rule.name in METADATA_NAMES && d.mode == if d.rule.name == ".openkapsel" then Deny else Protect
  {}

  lemma DirectoryDefault(name: string) returns (d: Grant)
    requires name in METADATA_DIRECTORIES
    ensures d in DEFAULT_GRANTS && d.rule == Named(name, true)
  {
    if name == ".git" {
      d := DEFAULT_GRANTS[0];
    } else if name == ".config" {
      d := DEFAULT_GRANTS[2];
    } else if name == ".ssh" {
      d := DEFAULT_GRANTS[3];
    } else {
      d := DEFAULT_GRANTS[4];
    }
  }

  /** The deepest metadata name on the way to the path, below the root, is component `i`. */
  ghost predicate LastMetadata(host: Host, path: Path, root: Path, i: nat) {
    && |root| <= i < |path| && host.fold(path[i]) in METADATA_DIRECTORIES
    && forall j :: i < j < |path| ==> host.fold(path[j]) !in METADATA_NAMES
  }

  /** A default is anchored there exactly if it is for that name, and none is anchored deeper. */
  lemma DefaultAnchor(host: Host, path: Path, root: Path, i: nat, d: Grant)
    requires (forall name :: name in METADATA_NAMES ==> host.fold(name) == name)
    requires LastMetadata(host, path, root, i) && d in DEFAULT_GRANTS
    ensures AnchorOf(host, path, d).Some? ==> AnchorOf(host, path, d).value <= i + 1
    ensures AnchorOf(host, path, d) == Some(i + 1) ==> d.rule.name == host.fold(path[i])
    ensures d.rule == Named(host.fold(path[i]), true) ==> AnchorOf(host, path, d) == Some(i + 1)
  {
    DefaultRules(d);
    if AnchorOf(host, path, d).Some? { AnchorExactly(host, path, d, AnchorOf(host, path, d).value); }
    if d.rule == Named(host.fold(path[i]), true) {
      assert DeepestSame(host, path, d.rule.name, i + 1);
      AnchorExactly(host, path, d, i + 1);
    }
  }

  /**
  Inside the root, where no explicit rule applies: at and below a `.git`, `.config`
  or `.ssh` directory, in any spelling that folds to these, access is Protect, and
  at and below `.openkapsel` it is Deny, whatever the root allows.
  */
  lemma MetadataIsProtected(host: Host, path: Path, root: Path, writable: bool, grants: seq<Grant>, i: nat)
    requires forall name :: name in METADATA_NAMES ==> host.fold(name) == name
    requires root <= path && !Reserved(host, path) && forall g :: g in grants ==> AnchorOf(host, path, g).None?
    requires LastMetadata(host, path, root, i)
    ensures Effective(host, path, root, writable, grants, false) ==
      Some(if host.fold(path[i]) == ".openkapsel" then Deny else Protect)
  {
    var mode := if host.fold(path[i]) == ".openkapsel" then Deny else Protect;
    var d := AccessExactly(host, path, root, writable, grants);
    MetadataSpeaks(host, path, root, writable, grants, i, mode);
    forall m | m in Voices(host, path, root, writable, grants, d) ensures d <= i + 1 && (d == i + 1 ==> m == mode) {
      MetadataVoice(host, path, root, writable, grants, i, mode, d, m);
    }
    assert Voices(host, path, root, writable, grants, d) == {mode};
    assert AmountsTo({mode}, mode);
  }

  lemma MetadataSpeaks(host: Host, path: Path, root: Path, writable: bool, grants: seq<Grant>, i: nat, mode: Mode)
    requires forall name :: name in METADATA_NAMES ==> host.fold(name) == name
    requires forall g :: g in grants ==> AnchorOf(host, path, g).None?
    requires LastMetadata(host, path, root, i) && mode == if host.fold(path[i]) == ".openkapsel" then Deny else Protect
    ensures Speaks(host, path, root, writable, grants, i + 1, mode)
    ensures mode in Voices(host, path, root, writable, grants, i + 1)
  {
    var rule := DirectoryDefault(host.fold(path[i]));
    DefaultAnchor(host, path, root, i, rule);
    DefaultRules(rule);
  }

  lemma MetadataVoice(host: Host, path: Path, root: Path, writable: bool, grants: seq<Grant>, i: nat, mode: Mode, d: nat, m: Mode)
    requires forall name :: name in METADATA_NAMES ==> host.fold(name) == name
    requires root <= path && forall g :: g in grants ==> AnchorOf(host, path, g).None?
    requires LastMetadata(host, path, root, i) && mode == if host.fold(path[i]) == ".openkapsel" then Deny else Protect
    requires Speaks(host, path, root, writable, grants, d, m)
    ensures d <= i + 1 && (d == i + 1 ==> m == mode)
  {
    var speaker := SpeakerOf(host, path, root, writable, grants, d, m);
    if speaker.Some? { DefaultVoice(host, path, root, i, mode, speaker.value, d); }
  }

  lemma DefaultVoice(host: Host, path: Path, root: Path, i: nat, mode: Mode, rule: Grant, d: nat)
    requires forall name :: name in METADATA_NAMES ==> host.fold(name) == name
    requires LastMetadata(host, path, root, i) && mode == if host.fold(path[i]) == ".openkapsel" then Deny else Protect
    requires rule in DEFAULT_GRANTS && AnchorOf(host, path, rule) == Some(d)
    ensures d <= i + 1 && (d == i + 1 ==> rule.mode == mode)
  {
    DefaultAnchor(host, path, root, i, rule);
    DefaultRules(rule);
  }

  /** Who speaks: a rule that is anchored there, or the root. */
  lemma SpeakerOf(host: Host, path: Path, root: Path, writable: bool, grants: seq<Grant>, d: nat, m: Mode)
    returns (speaker: Option<Grant>)
    requires Speaks(host, path, root, writable, grants, d, m)
    ensures speaker.None? ==> Within(root, path) && d == |root|
    ensures speaker.Some? ==>
      && (speaker.value in grants || speaker.value in DEFAULT_GRANTS)
      && AnchorOf(host, path, speaker.value) == Some(d) && speaker.value.mode == m
  {
    if g :| g in grants && AnchorOf(host, path, g) == Some(d) && g.mode == m {
      speaker := Some(g);
    } else if g :| g in DEFAULT_GRANTS && AnchorOf(host, path, g) == Some(d) && g.mode == m {
      speaker := Some(g);
    } else {
      speaker := None;
    }
  }
}
