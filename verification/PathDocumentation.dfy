/**
The policy as its documentation words it, next to the policy as it is computed.
The documentation lets an explicit rule replace a default rule of the same
spelling; the code drops every default whose anchor is also the anchor of some
explicit rule.  This module says exactly when the two give the same access.
*/
module PathDocumentation {
  import opened Prelude
  import opened PathPolicy

  predicate Respelled(grants: seq<Grant>, d: Grant) {
    exists g :: g in grants && g.rule == d.rule
  }

  /** Default rules apply unless an explicit rule has their spelling. */
  function SpelledHits(host: Host, path: Path, defaults: seq<Grant>, grants: seq<Grant>): (hits: seq<Hit>)
    ensures forall x :: x in hits <==>
      exists d :: d in defaults && AnchorOf(host, path, d) == Some(x.depth) && d.mode == x.mode && !Respelled(grants, d)
  {
    if defaults == [] then []
    else
      var rest := SpelledHits(host, path, defaults[1..], grants);
      assert defaults == [defaults[0]] + defaults[1..];
      match AnchorOf(host, path, defaults[0])
      case None => rest
      case Some(d) => if Respelled(grants, defaults[0]) then rest else [Hit(d, defaults[0].mode)] + rest
  }

  function DocumentedHits(host: Host, path: Path, root: Path, writable: bool, grants: seq<Grant>): seq<Hit> {
    SpelledHits(host, path, DEFAULT_GRANTS, grants) + ExplicitHits(host, path, grants)
    + (if Within(root, path) then [Hit(|root|, if writable then RW else RO)] else [])
  }

  /** The documented policy: `Effective` with the documented defaults. */
  function Documented(host: Host, path: Path, root: Path, writable: bool, grants: seq<Grant>, stage: bool): Option<Mode> {
    if !Within(root, path) && !AnyLiteral(host, path, grants) then None
    else if Reserved(host, path) && !stage then Some(Deny)
    else if AnyLiteralDeny(host, path, grants) then Some(Deny)
    else if stage then Some(if writable then RW else RO)
    else Verdict(DocumentedHits(host, path, root, writable, grants))
  }

  // ---------------------------------------------------------------- the condition

  ghost predicate AnchoredAt(host: Host, path: Path, grants: seq<Grant>, n: nat) {
    exists g :: g in grants && AnchorOf(host, path, g) == Some(n)
  }

  /** No rule, explicit or default, and not the root either, is anchored deeper than `n`. */
  ghost predicate Deepest(host: Host, path: Path, root: Path, grants: seq<Grant>, n: nat) {
    NoAnchorBelow(host, path, n, grants) && (Within(root, path) ==> |root| <= n)
  }

  /**
  A default that the code drops although nothing has its spelling: it is anchored
  at the deepest anchor, which is an explicit rule's too, and it is stricter than
  every explicit rule there.
  */
  ghost predicate Displaced(host: Host, path: Path, root: Path, grants: seq<Grant>, d: Grant, n: nat) {
    && d in DEFAULT_GRANTS && AnchorOf(host, path, d) == Some(n) && !Respelled(grants, d)
    && Deepest(host, path, root, grants, n) && AnchoredAt(host, path, grants, n)
    && forall g :: g in grants && AnchorOf(host, path, g) == Some(n) ==> Weight(g.mode) < Weight(d.mode)
  }

  // ---------------------------------------------------------------- comparison of the two lists of hits

  ghost predicate ExplicitHit(host: Host, path: Path, grants: seq<Grant>, x: Hit) {
    exists g :: g in grants && AnchorOf(host, path, g) == Some(x.depth) && g.mode == x.mode
  }

  ghost predicate DefaultHit(host: Host, path: Path, x: Hit, d: Grant) {
    d in DEFAULT_GRANTS && AnchorOf(host, path, d) == Some(x.depth) && d.mode == x.mode
  }

  ghost predicate RootHit(path: Path, root: Path, writable: bool, x: Hit) {
    Within(root, path) && x == Hit(|root|, if writable then RW else RO)
  }

  lemma ComputedMembers(host: Host, path: Path, root: Path, writable: bool, grants: seq<Grant>, x: Hit)
    ensures x in AllHits(host, path, root, writable, grants) <==>
      || ExplicitHit(host, path, grants, x) || RootHit(path, root, writable, x)
      || ((exists d :: DefaultHit(host, path, x, d)) && !AnchoredAt(host, path, grants, x.depth))
  {
    ExplicitSpeak(host, path, grants, x.depth);
    var explicit := ExplicitHits(host, path, grants);
    var defaults := DefaultHits(host, path, DEFAULT_GRANTS, explicit);
    assert x in explicit <==> ExplicitHit(host, path, grants, x);
    assert x in defaults <==> (exists d :: DefaultHit(host, path, x, d)) && !AnchoredAt(host, path, grants, x.depth) by {
      assert (exists d :: DefaultHit(host, path, x, d)) <==>
        exists d :: d in DEFAULT_GRANTS && AnchorOf(host, path, d) == Some(x.depth) && d.mode == x.mode by {
        if d :| d in DEFAULT_GRANTS && AnchorOf(host, path, d) == Some(x.depth) && d.mode == x.mode {
          assert DefaultHit(host, path, x, d);
        }
      }
    }
  }

  lemma DocumentedMembers(host: Host, path: Path, root: Path, writable: bool, grants: seq<Grant>, x: Hit)
    ensures x in DocumentedHits(host, path, root, writable, grants) <==>
      || ExplicitHit(host, path, grants, x) || RootHit(path, root, writable, x)
      || exists d :: DefaultHit(host, path, x, d) && !Respelled(grants, d)
  {
    var spelled := SpelledHits(host, path, DEFAULT_GRANTS, grants);
    if x in spelled {
      var d :| d in DEFAULT_GRANTS && AnchorOf(host, path, d) == Some(x.depth) && d.mode == x.mode && !Respelled(grants, d);
      assert DefaultHit(host, path, x, d);
    }
  }

  /** A default with an explicit rule of its spelling has that rule's anchor. */
  lemma RespelledAnchor(host: Host, path: Path, grants: seq<Grant>, d: Grant, n: nat)
    requires d in DEFAULT_GRANTS && AnchorOf(host, path, d) == Some(n) && Respelled(grants, d)
    ensures AnchoredAt(host, path, grants, n)
  {
    var g :| g in grants && g.rule == d.rule;
    DefaultsAreStrict(d);
    assert AnchorOf(host, path, g) == AnchorOf(host, path, d);
  }

  /** What the code considers, the documented policy considers too. */
  lemma ComputedIsDocumented(host: Host, path: Path, root: Path, writable: bool, grants: seq<Grant>, x: Hit)
    requires x in AllHits(host, path, root, writable, grants)
    ensures x in DocumentedHits(host, path, root, writable, grants)
  {
    ComputedMembers(host, path, root, writable, grants, x);
    DocumentedMembers(host, path, root, writable, grants, x);
    if !ExplicitHit(host, path, grants, x) && !RootHit(path, root, writable, x) {
      var d :| DefaultHit(host, path, x, d);
      if Respelled(grants, d) { RespelledAnchor(host, path, grants, d, x.depth); }
    }
  }

  /** Nothing is anchored deeper than the decisive hit of the documented policy. */
  lemma DocumentedDeepest(host: Host, path: Path, root: Path, writable: bool, grants: seq<Grant>, top: Hit)
    requires forall x :: x in DocumentedHits(host, path, root, writable, grants) ==> Outranks(top, x)
    ensures Deepest(host, path, root, grants, top.depth)
  {
    forall g | g in grants && AnchorOf(host, path, g).Some? ensures AnchorOf(host, path, g).value <= top.depth {
      ExplicitCounts(host, path, root, writable, grants, g);
    }
    forall d | d in DEFAULT_GRANTS && AnchorOf(host, path, d).Some? ensures AnchorOf(host, path, d).value <= top.depth {
      var x := Hit(AnchorOf(host, path, d).value, d.mode);
      if Respelled(grants, d) {
        RespelledAnchor(host, path, grants, d, x.depth);
        var g :| g in grants && AnchorOf(host, path, g) == Some(x.depth);
        ExplicitCounts(host, path, root, writable, grants, g);
      } else {
        assert DefaultHit(host, path, x, d);
        DocumentedMembers(host, path, root, writable, grants, x);
      }
    }
    if Within(root, path) {
      DocumentedMembers(host, path, root, writable, grants, Hit(|root|, if writable then RW else RO));
    }
  }

  lemma ExplicitCounts(host: Host, path: Path, root: Path, writable: bool, grants: seq<Grant>, g: Grant)
    requires g in grants && AnchorOf(host, path, g).Some?
    ensures var x := Hit(AnchorOf(host, path, g).value, g.mode);
      x in AllHits(host, path, root, writable, grants) && x in DocumentedHits(host, path, root, writable, grants)
  {
    var x := Hit(AnchorOf(host, path, g).value, g.mode);
    assert ExplicitHit(host, path, grants, x);
    ComputedMembers(host, path, root, writable, grants, x);
    DocumentedMembers(host, path, root, writable, grants, x);
  }

  /** A displaced default makes the documented policy stricter than the computed one. */
  lemma DisplacedDiffers(host: Host, path: Path, root: Path, writable: bool, grants: seq<Grant>, d: Grant, n: nat)
    requires Displaced(host, path, root, grants, d, n)
    ensures Verdict(AllHits(host, path, root, writable, grants)) != Verdict(DocumentedHits(host, path, root, writable, grants))
  {
    var computed, documented := AllHits(host, path, root, writable, grants), DocumentedHits(host, path, root, writable, grants);
    var g :| g in grants && AnchorOf(host, path, g) == Some(n);
    ExplicitCounts(host, path, root, writable, grants, g);
    var top, x := Decisive(computed), Hit(n, d.mode);
    assert Outranks(top, Hit(n, g.mode));
    ComputedMembers(host, path, root, writable, grants, top);
    assert Weight(top.mode) < Weight(d.mode) by { DisplacedWeaker(host, path, root, writable, grants, d, n, top); }
    assert DefaultHit(host, path, x, d);
    DocumentedMembers(host, path, root, writable, grants, x);
    DocumentedAtMost(host, path, root, writable, grants, n, Decisive(documented));
    assert Outranks(Decisive(documented), x);
  }

  /** Every hit of the computed policy that is as deep as the displaced default is weaker. */
  lemma DisplacedWeaker(host: Host, path: Path, root: Path, writable: bool, grants: seq<Grant>, d: Grant, n: nat, top: Hit)
    requires Displaced(host, path, root, grants, d, n) && top.depth >= n
    requires top in AllHits(host, path, root, writable, grants)
    ensures Weight(top.mode) < Weight(d.mode)
  {
    ComputedIsDocumented(host, path, root, writable, grants, top);
    DocumentedAtMost(host, path, root, writable, grants, n, top);
    ComputedMembers(host, path, root, writable, grants, top);
    DefaultsAreStrict(d);
    assert AnchoredAt(host, path, grants, top.depth);
  }

  lemma DefaultsAreStrict(d: Grant)
    requires d in DEFAULT_GRANTS
    ensures d.rule.Named? && Weight(d.mode) >= 2 && (d.mode == Protect || d.rule == Named(".openkapsel", true))
  {}

  lemma DocumentedAtMost(host: Host, path: Path, root: Path, writable: bool, grants: seq<Grant>, n: nat, x: Hit)
    requires Deepest(host, path, root, grants, n) && x in DocumentedHits(host, path, root, writable, grants)
    ensures x.depth <= n
  {
    DocumentedMembers(host, path, root, writable, grants, x);
    if ExplicitHit(host, path, grants, x) {
      var g :| g in grants && AnchorOf(host, path, g) == Some(x.depth) && g.mode == x.mode;
    } else if !RootHit(path, root, writable, x) {
      var d :| DefaultHit(host, path, x, d) && !Respelled(grants, d);
    }
  }

  /** Without a displaced default, some hit of the code is as good as the documented decision. */
  lemma SomeComputedHit(host: Host, path: Path, root: Path, writable: bool, grants: seq<Grant>, top: Hit) returns (x: Hit)
    requires top in DocumentedHits(host, path, root, writable, grants)
    requires forall x :: x in DocumentedHits(host, path, root, writable, grants) ==> Outranks(top, x)
    requires !exists d, n :: Displaced(host, path, root, grants, d, n)
    ensures x in AllHits(host, path, root, writable, grants) && Outranks(x, top)
  {
    ComputedMembers(host, path, root, writable, grants, top);
    DocumentedMembers(host, path, root, writable, grants, top);
    if top in AllHits(host, path, root, writable, grants) {
      x := top;
    } else {
      var d :| DefaultHit(host, path, top, d) && !Respelled(grants, d);
      DocumentedDeepest(host, path, root, writable, grants, top);
      assert !Displaced(host, path, root, grants, d, top.depth);
      var g :| g in grants && AnchorOf(host, path, g) == Some(top.depth) && Weight(g.mode) >= Weight(d.mode);
      ExplicitCounts(host, path, root, writable, grants, g);
      x := Hit(top.depth, g.mode);
    }
  }

  lemma AgreesOtherwise(host: Host, path: Path, root: Path, writable: bool, grants: seq<Grant>)
    requires !exists d, n :: Displaced(host, path, root, grants, d, n)
    ensures Verdict(AllHits(host, path, root, writable, grants)) == Verdict(DocumentedHits(host, path, root, writable, grants))
  {
    var computed, documented := AllHits(host, path, root, writable, grants), DocumentedHits(host, path, root, writable, grants);
    forall x | x in computed ensures x in documented { ComputedIsDocumented(host, path, root, writable, grants, x); }
    if documented != [] {
      var top := Decisive(documented);
      var x := SomeComputedHit(host, path, root, writable, grants, top);
      SameTop(computed, documented, x);
    }
  }

  /** A part of a list that holds a hit as good as the whole list's decision decides alike. */
  lemma SameTop(part: seq<Hit>, whole: seq<Hit>, x: Hit)
    requires (forall y :: y in part ==> y in whole) && x in part && whole != [] && Outranks(x, Decisive(whole))
    ensures Verdict(part) == Verdict(whole)
  {
    var top := Decisive(part);
    assert Outranks(top, x) && Outranks(Decisive(whole), top);
  }

  // ---------------------------------------------------------------- theorems

  /**
  The computed policy is the documented one exactly when the request is settled
  before the defaults matter, or no default of another spelling is displaced: at
  the deepest anchor, none is stricter than every explicit rule there.
  */
  lemma DocumentationHoldsExactly(host: Host, path: Path, root: Path, writable: bool, grants: seq<Grant>, stage: bool)
    ensures Effective(host, path, root, writable, grants, stage) == Documented(host, path, root, writable, grants, stage) <==>
      Settled(host, path, root, grants, stage) || !exists d, n :: Displaced(host, path, root, grants, d, n)
  {
    if !Settled(host, path, root, grants, stage) {
      if d, n :| Displaced(host, path, root, grants, d, n) {
        DisplacedDiffers(host, path, root, writable, grants, d, n);
      } else {
        AgreesOtherwise(host, path, root, writable, grants);
      }
    }
  }

  /**
  The two differ: a read-write grant of the directory `/w/.git/` opens it, although
  no rule has the spelling of the default that protects every `.git` directory.
  */
  lemma LiteralGrantOpensGit(host: Host, path: Path, root: Path, grant: Grant)
    requires root == ["w"] && path == ["w", ".git"] && forall name :: host.fold(name) == name
    requires grant == Grant(Literal(path, true), RW, false, false)
    ensures Effective(host, path, root, true, [grant], false) == Some(RW)
    ensures Documented(host, path, root, true, [grant], false) == Some(Protect)
  {
    assert forall i :: 0 <= i < 2 ==> |host.fold(path[i])| < |RESERVED_PREFIX|;
    assert !Settled(host, path, root, [grant], false);
    GitComputed(host, path, root, grant);
    GitDocumented(host, path, root, grant);
  }

  ghost predicate GitExample(host: Host, path: Path, root: Path, grant: Grant) {
    && root == ["w"] && path == ["w", ".git"] && (forall name :: host.fold(name) == name)
    && grant == Grant(Literal(path, true), RW, false, false)
  }

  /** The grant and the default for `.git` directories are anchored at the path itself, and nothing is deeper. */
  lemma GitAnchors(host: Host, path: Path, grant: Grant)
    requires GitExample(host, path, ["w"], grant)
    ensures AnchorOf(host, path, grant) == Some(2) && AnchorOf(host, path, DEFAULT_GRANTS[0]) == Some(2)
    ensures forall d :: d in DEFAULT_GRANTS ==> AnchorOf(host, path, d).None? || AnchorOf(host, path, d).value <= 2
  {
    assert NameMatches(host, path[1], ".git");
    forall d | d in DEFAULT_GRANTS ensures AnchorOf(host, path, d).None? || AnchorOf(host, path, d).value <= 2 {
      DefaultsAreStrict(d);
    }
  }

  lemma GitDisplaced(host: Host, path: Path, root: Path, grant: Grant)
    requires GitExample(host, path, root, grant)
    ensures Displaced(host, path, root, [grant], DEFAULT_GRANTS[0], 2)
  {
    GitAnchors(host, path, grant);
    assert DEFAULT_GRANTS[0] in DEFAULT_GRANTS && grant in [grant];
  }

  lemma GitComputed(host: Host, path: Path, root: Path, grant: Grant)
    requires GitExample(host, path, root, grant)
    ensures Verdict(AllHits(host, path, root, true, [grant])) == Some(RW)
  {
    GitAnchors(host, path, grant);
    ExplicitCounts(host, path, root, true, [grant], grant);
    var top := Decisive(AllHits(host, path, root, true, [grant]));
    assert Outranks(top, Hit(2, RW));
    GitDisplaced(host, path, root, grant);
    ComputedIsDocumented(host, path, root, true, [grant], top);
    DocumentedAtMost(host, path, root, true, [grant], 2, top);
    ComputedMembers(host, path, root, true, [grant], top);
    assert AnchoredAt(host, path, [grant], 2);
  }

  lemma GitDocumented(host: Host, path: Path, root: Path, grant: Grant)
    requires GitExample(host, path, root, grant)
    ensures Verdict(DocumentedHits(host, path, root, true, [grant])) == Some(Protect)
  {
    var x := Hit(2, Protect);
    GitAnchors(host, path, grant);
    GitDisplaced(host, path, root, grant);
    assert DefaultHit(host, path, x, DEFAULT_GRANTS[0]);
    DocumentedMembers(host, path, root, true, [grant], x);
    var top := Decisive(DocumentedHits(host, path, root, true, [grant]));
    assert Outranks(top, x);
    DocumentedAtMost(host, path, root, true, [grant], 2, top);
    DocumentedMembers(host, path, root, true, [grant], top);
    if d :| DefaultHit(host, path, top, d) { GitProtected(host, path, grant, d); }
  }

  /** No default that denies is anchored at the path. */
  lemma GitProtected(host: Host, path: Path, grant: Grant, d: Grant)
    requires GitExample(host, path, ["w"], grant) && d in DEFAULT_GRANTS && AnchorOf(host, path, d) == Some(2)
    ensures d.mode == Protect
  {
    DefaultsAreStrict(d);
    assert NameMatches(host, path[1], d.rule.name);
    assert |path[1]| == 4;
  }
}
