/**
Which approved scope answers for a path: the original picks the longest spelling
among the approved directories that contain the path, and promises the narrowest.
*/
module ScopePaths {
  import opened Prelude

  function Split(s: string): (r: seq<string>)
    ensures r != []
  {
    if s == "" then [""]
    else
      var rest := Split(s[1..]);
      if s[0] == '/' then [""] + rest else [[s[0]] + rest[0]] + rest[1..]
  }

  /** Empty and dot components do not count. */
  function Keep(parts: seq<string>): (r: seq<string>)
    ensures forall i :: 0 <= i < |r| ==> r[i] != ""
  {
    if parts == [] then []
    else if parts[0] == "" || parts[0] == "." then Keep(parts[1..])
    else [parts[0]] + Keep(parts[1..])
  }

  /** An absolute POSIX path: its root (exactly two leading slashes are a root of their own) and its components. */
  function Parse(s: string): (r: seq<string>)
    ensures |r| > 0 && forall i :: 0 <= i < |r| ==> r[i] != ""
  {
    var root := if |s| >= 2 && s[1] == '/' && !(|s| >= 3 && s[2] == '/') then "//" else "/";
    [root] + Keep(Split(s))
  }

  /** The scope is the path or one of its parents. */
  predicate Contains(scope: string, path: string) {
    Parse(scope) <= Parse(path)
  }

  /** The canonical spelling. */
  function Spell(parts: seq<string>): string {
    if parts == [] then ""
    else if |parts| <= 2 then Spell(parts[..|parts| - 1]) + parts[|parts| - 1]
    else Spell(parts[..|parts| - 1]) + "/" + parts[|parts| - 1]
  }

  predicate Normalized(s: string) {
    s == Spell(Parse(s))
  }

  predicate Occurs(text: string, s: string) {
    text <= s || (s != "" && Occurs(text, s[1..]))
  }

  /** Paths that no scope answers for: relative, with a parent component, or with one of two escaped texts. */
  predicate Unanswerable(path: string) {
    !("/" <= path) || ".." in Split(path) || Occurs("\\x00", path) || Occurs("\\\\", path)
  }

  /** `r` is a longest approved scope that contains the path. */
  ghost predicate Longest(scopes: set<string>, path: string, r: string) {
    r in scopes && Contains(r, path) && forall s :: s in scopes && Contains(s, path) ==> |s| <= |r|
  }

  /** `r` is a narrowest approved scope that contains the path. */
  ghost predicate Narrowest(scopes: set<string>, path: string, r: string) {
    r in scopes && Contains(r, path) && forall s :: s in scopes && Contains(s, path) ==> Parse(s) <= Parse(r)
  }

  /**
  Whenever a scope that can be answered for lies inside another, some spelling of
  it is longer than the outer one.
  */
  ghost predicate SpelledLonger(scopes: set<string>) {
    forall s, t :: s in scopes && t in scopes && !Unanswerable(t) && Parse(s) < Parse(t) ==>
      exists u :: u in scopes && Parse(u) == Parse(t) && |s| < |u|
  }

  /** Scopes are absolute: requests and confirmations refuse others. */
  ghost predicate Rooted(scopes: set<string>) {
    forall s :: s in scopes ==> "/" <= s
  }

  /** Two scopes that contain the same path contain one another. */
  lemma PrefixesComparable(a: seq<string>, b: seq<string>, c: seq<string>)
    requires a <= c && b <= c
    ensures a <= b || b < a
  {}

  // ---------------------------------------------------------------- how spellings are read

  lemma {:induction false} SplitJoin(a: string, b: string)
    ensures Split(a + "/" + b) == Split(a) + Split(b)
  {
    if a == "" {
      assert a + "/" + b == "/" + b;
      assert ("/" + b)[1..] == b;
    } else {
      SplitJoin(a[1..], b);
      SplitJoinCons(a[0], a[1..], b);
      assert [a[0]] + a[1..] == a;
      assert [a[0]] + (a[1..] + "/" + b) == a + "/" + b;
    }
  }

  lemma SplitJoinCons(c: char, a: string, b: string)
    requires Split(a + "/" + b) == Split(a) + Split(b)
    ensures Split([c] + (a + "/" + b)) == Split([c] + a) + Split(b)
  {
    SplitCons(c, a + "/" + b);
    SplitCons(c, a);
    ConsAppend(c, Split(a), Split(b));
  }

  /** The components after one more character in front. */
  function Cons(c: char, parts: seq<string>): seq<string>
    requires parts != []
  {
    if c == '/' then [""] + parts else [[c] + parts[0]] + parts[1..]
  }

  lemma ConsAppend(c: char, x: seq<string>, y: seq<string>)
    requires x != []
    ensures Cons(c, x + y) == Cons(c, x) + y
  {
    assert (x + y)[0] == x[0] && (x + y)[1..] == x[1..] + y;
  }

  lemma {:induction false} KeepJoin(a: seq<string>, b: seq<string>)
    ensures Keep(a + b) == Keep(a) + Keep(b)
  {
    if a == [] {
      assert a + b == b;
    } else {
      KeepJoin(a[1..], b);
      assert (a + b)[0] == a[0] && (a + b)[1..] == a[1..] + b;
      var rest := Keep(a[1..]) + Keep(b);
      assert Keep(a + b) == (if a[0] == "" || a[0] == "." then rest else [a[0]] + rest);
    }
  }

  /** Appending to a path appends components; repeated separators and single dots add none. */
  lemma ParseJoin(s: string, t: string)
    requires |s| >= 2 && s[0] == '/' && s[1] != '/'
    ensures Parse(s + "/" + t) == Parse(s) + Keep(Split(t)) && Contains(s, s + "/" + t)
    ensures t == "" || t == "." ==> Parse(s + "/" + t) == Parse(s)
    ensures t != "" && t != "." && '/' !in t ==> Parse(s + "/" + t) == Parse(s) + [t]
  {
    SplitJoin(s, t);
    KeepJoin(Split(s), Split(t));
    assert (s + "/" + t)[1] == s[1];
    if '/' !in t { SplitPlain(t); }
  }

  lemma {:induction false} SplitPlain(t: string)
    requires '/' !in t
    ensures Split(t) == [t]
  {
    if t != "" {
      assert t[0] in t && t == [t[0]] + t[1..];
      SplitPlain(t[1..]);
    }
  }

  // ---------------------------------------------------------------- refused texts and components

  lemma {:induction false} KeepMember(parts: seq<string>, c: string)
    ensures c in Keep(parts) <==> c in parts && c != "" && c != "."
  {
    if parts != [] { KeepMember(parts[1..], c); }
  }

  lemma {:induction false} FirstPart(s: string)
    ensures Split(s)[0] <= s
  {
    if s != "" && s[0] != '/' {
      FirstPart(s[1..]);
      assert s == [s[0]] + s[1..];
    }
  }

  /** A text without separators that starts the path starts its first component. */
  lemma {:induction false} PrefixInPart(text: string, s: string)
    requires text <= s && '/' !in text
    ensures text <= Split(s)[0]
  {
    if text != "" {
      assert text[0] == s[0] && text[0] in text;
      PrefixInPart(text[1..], s[1..]);
      assert text == [text[0]] + text[1..];
    }
  }

  lemma {:induction false} TextInPart(text: string, s: string) returns (c: string)
    requires text != "" && '/' !in text && Occurs(text, s)
    ensures c in Split(s) && Occurs(text, c)
  {
    if text <= s {
      PrefixInPart(text, s);
      c := Split(s)[0];
    } else {
      c := TextInPart(text, s[1..]);
      var rest := Split(s[1..]);
      if s[0] == '/' {
        assert Split(s)[1..] == rest;
      } else if c == rest[0] {
        c := [s[0]] + rest[0];
        assert c[1..] == rest[0];
      } else {
        assert c in rest[1..];
      }
    }
  }

  lemma {:induction false} PartInText(text: string, s: string, c: string)
    requires text != "" && c in Split(s) && Occurs(text, c)
    ensures Occurs(text, s)
  {
    if s != "" {
      var rest := Split(s[1..]);
      if s[0] == '/' {
        assert c in rest;
        PartInText(text, s[1..], c);
      } else if c == [s[0]] + rest[0] {
        FirstPart(s);
        if !(text <= c) {
          assert c[1..] == rest[0];
          PartInText(text, s[1..], rest[0]);
        }
      } else {
        assert c in rest[1..];
        PartInText(text, s[1..], c);
      }
    }
  }

  /** A component of a scope is a component of every path the scope contains. */
  lemma PartInherited(scope: string, path: string, c: string)
    requires Contains(scope, path) && c in Split(scope) && c != "" && c != "."
    ensures c in Split(path)
  {
    KeepMember(Split(scope), c);
    var i :| 0 <= i < |Keep(Split(scope))| && Keep(Split(scope))[i] == c;
    assert Parse(path)[i + 1] == Parse(scope)[i + 1] == c;
    assert Keep(Split(path))[i] == c;
    KeepMember(Split(path), c);
  }

  lemma TextInherited(scope: string, path: string, text: string)
    requires Contains(scope, path) && |text| > 1 && '/' !in text && Occurs(text, scope)
    ensures Occurs(text, path)
  {
    var c := TextInPart(text, scope);
    assert c != "" && c != "." by { ShortTexts(text, c); }
    PartInherited(scope, path, c);
    PartInText(text, path, c);
  }

  lemma {:induction false} ShortTexts(text: string, c: string)
    requires Occurs(text, c)
    ensures |text| <= |c|
  {
    if !(text <= c) { ShortTexts(text, c[1..]); }
  }

  /** A path that can be answered for lies only in scopes that can be answered for. */
  lemma AnswerableScope(scope: string, path: string)
    requires "/" <= scope && Contains(scope, path) && !Unanswerable(path)
    ensures !Unanswerable(scope)
  {
    if ".." in Split(scope) { PartInherited(scope, path, ".."); }
    if Occurs("\\x00", scope) { TextInherited(scope, path, "\\x00"); }
    if Occurs("\\\\", scope) { TextInherited(scope, path, "\\\\"); }
  }

  // ---------------------------------------------------------------- longest and narrowest

  lemma LongestIsNarrowest(scopes: set<string>, path: string, r: string)
    requires Rooted(scopes) && SpelledLonger(scopes) && !Unanswerable(path) && Longest(scopes, path, r)
    ensures Narrowest(scopes, path, r)
  {
    forall s | s in scopes && Contains(s, path) ensures Parse(s) <= Parse(r) {
      PrefixesComparable(Parse(s), Parse(r), Parse(path));
      AnswerableScope(s, path);
    }
  }

  /**
  Picking the longest spelling yields the narrowest scope for every path that is
  answered exactly when inner scopes are spelled longer than outer ones.
  */
  lemma LongestIsNarrowestExactly(scopes: set<string>)
    requires Rooted(scopes)
    ensures SpelledLonger(scopes) <==>
      forall path, r :: !Unanswerable(path) && Longest(scopes, path, r) ==> Narrowest(scopes, path, r)
  {
    if SpelledLonger(scopes) {
      forall path, r | !Unanswerable(path) && Longest(scopes, path, r) ensures Narrowest(scopes, path, r) {
        LongestIsNarrowest(scopes, path, r);
      }
    }
    if forall path, r :: !Unanswerable(path) && Longest(scopes, path, r) ==> Narrowest(scopes, path, r) {
      forall s, t | s in scopes && t in scopes && !Unanswerable(t) && Parse(s) < Parse(t)
        ensures exists u :: u in scopes && Parse(u) == Parse(t) && |s| < |u|
      {
        var u := LongerSpelling(scopes, s, t);
      }
    }
  }

  lemma LongerSpelling(scopes: set<string>, s: string, t: string) returns (u: string)
    requires forall r :: Longest(scopes, t, r) ==> Narrowest(scopes, t, r)
    requires s in scopes && t in scopes && Parse(s) < Parse(t)
    ensures u in scopes && Parse(u) == Parse(t) && |s| < |u|
  {
    assert Contains(t, t) && Contains(s, t);
    u := LongestOf(scopes, t, t);
    assert Narrowest(scopes, t, u);
    assert Parse(u) == Parse(t);
    if |s| == |u| {
      assert Longest(scopes, t, s);
      assert false;
    }
  }

  lemma {:induction false} LongestOf(scopes: set<string>, path: string, some: string) returns (r: string)
    requires some in scopes && Contains(some, path)
    ensures Longest(scopes, path, r)
  {
    var others := scopes - {some};
    if next :| next in others && Contains(next, path) {
      var rest := LongestOf(others, path, next);
      r := if |rest| >= |some| then rest else some;
    } else {
      r := some;
    }
  }

  lemma {:induction false} SpellGrows(a: seq<string>, b: seq<string>)
    requires a < b && |a| > 0 && forall i :: 0 <= i < |b| ==> b[i] != ""
    ensures |Spell(a)| < |Spell(b)|
  {
    var before := b[..|b| - 1];
    if a == before {
      assert |b[|b| - 1]| > 0;
    } else {
      SpellGrows(a, before);
    }
  }

  lemma {:induction false} SpellRooted(parts: seq<string>)
    requires parts != [] && "/" <= parts[0]
    ensures "/" <= Spell(parts)
  {
    if |parts| > 1 { SpellRooted(parts[..|parts| - 1]); }
  }

  /** Canonically spelled scopes meet the condition. */
  lemma NormalizedScopesWork(scopes: set<string>)
    requires forall s :: s in scopes ==> Normalized(s)
    ensures Rooted(scopes) && SpelledLonger(scopes)
  {
    forall s | s in scopes ensures "/" <= s { SpellRooted(Parse(s)); }
    forall s, t | s in scopes && t in scopes && !Unanswerable(t) && Parse(s) < Parse(t)
      ensures exists u :: u in scopes && Parse(u) == Parse(t) && |s| < |u|
    {
      SpellGrows(Parse(s), Parse(t));
      assert t in scopes && Parse(t) == Parse(t) && |s| < |t|;
    }
  }

  lemma SplitCons(c: char, s: string)
    ensures Split([c] + s) == Cons(c, Split(s))
  {
    assert ([c] + s)[1..] == s;
  }

  lemma ParseNarrow()
    ensures Parse("/a/b") == ["/", "a", "b"]
  {
    SplitCons('b', "");
    assert ['b'] + "" == "b";
    assert Split("b") == ["b"];
    SplitCons('/', "b");
    assert ['/'] + "b" == "/b";
    assert Split("/b") == ["", "b"];
    SplitCons('a', "/b");
    assert ['a'] + "/b" == "a/b" && ['a'] + "" == "a";
    assert Split("a/b") == ["a", "b"];
    SplitCons('/', "a/b");
    assert ['/'] + "a/b" == "/a/b";
    assert Split("/a/b") == ["", "a", "b"];
    assert Keep(["a", "b"]) == ["a", "b"];
  }

  lemma ParseWide()
    ensures Parse("/a///") == ["/", "a"]
  {
    assert Split("/") == ["", ""];
    assert Split("//") == ["", "", ""];
    assert Split("///") == ["", "", "", ""];
    SplitCons('a', "///");
    assert ['a'] + "///" == "a///" && ['a'] + "" == "a";
    assert Split("a///") == ["a", "", "", ""];
    SplitCons('/', "a///");
    assert ['/'] + "a///" == "/a///";
    assert Keep(["", ""]) == [];
    assert Keep(["a", "", "", ""]) == ["a"];
  }

  /** Without canonical spelling the pick can be too wide: "/a///" is preferred to "/a/b". */
  lemma WideScopePreferred(path: string, wide: string, narrow: string)
    requires path == narrow == "/a/b" && wide == "/a///"
    ensures Longest({wide, narrow}, path, wide) && !Narrowest({wide, narrow}, path, wide)
  {
    ParseWide();
    ParseNarrow();
    assert Contains(narrow, path) && narrow in {wide, narrow};
  }

  /** The search of the original, over the approved scopes in table order. */
  method GrantedScope(order: seq<string>, path: string) returns (r: Option<string>)
    ensures r.Some? ==> Longest((set s | s in order), path, r.value)
    ensures r.None? ==> forall s :: s in order ==> !Contains(s, path)
  {
    r := None;
    for i := 0 to |order|
      invariant Best(order[..i], path, r)
    {
      assert order[..i + 1] == order[..i] + [order[i]];
      if Contains(order[i], path) && (r.None? || |order[i]| > |r.value|) {
        r := Some(order[i]);
      }
    }
    assert order[..|order|] == order;
  }

  /** The first longest of the scopes seen so far that contain the path. */
  ghost predicate Best(seen: seq<string>, path: string, r: Option<string>) {
    match r
    case None => forall s :: s in seen ==> !Contains(s, path)
    case Some(best) => best in seen && Contains(best, path) && forall s :: s in seen && Contains(s, path) ==> |s| <= |best|
  }
}
