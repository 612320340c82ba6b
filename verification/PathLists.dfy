/** Lists of paths of which none lies at or inside another. */
module PathLists {
  import opened PathPolicy

  ghost predicate Apart(a: Path, b: Path) {
    !(a <= b) && !(b <= a)
  }

  /** No path lies at or inside another. */
  ghost predicate Antichain(paths: seq<Path>) {
    forall i, j :: 0 <= i < |paths| && 0 <= j < |paths| && i != j ==> !(paths[i] <= paths[j])
  }

  ghost predicate AllDifferent(paths: seq<Path>) {
    forall i, j :: 0 <= i < j < |paths| ==> paths[i] != paths[j]
  }

  lemma AntichainConcat(a: seq<Path>, b: seq<Path>)
    requires Antichain(a) && Antichain(b) && forall x, y :: x in a && y in b ==> Apart(x, y)
    ensures Antichain(a + b)
  {
    var r := a + b;
    forall i, j | 0 <= i < |r| && 0 <= j < |r| && i != j ensures !(r[i] <= r[j]) {
      assert if i < |a| then r[i] == a[i] && r[i] in a else r[i] == b[i - |a|] && r[i] in b;
      assert if j < |a| then r[j] == a[j] && r[j] in a else r[j] == b[j - |a|] && r[j] in b;
    }
  }

  lemma AntichainPrefix(a: seq<Path>, x: Path)
    requires Antichain(a + [x])
    ensures Antichain(a) && forall y :: y in a ==> Apart(y, x)
  {
    var r := a + [x];
    assert r[|a|] == x && forall i :: 0 <= i < |a| ==> r[i] == a[i];
    forall y | y in a ensures Apart(y, x) {
      var i :| 0 <= i < |a| && a[i] == y;
      assert !(r[i] <= r[|a|]) && !(r[|a|] <= r[i]);
    }
  }

  lemma DifferentConcat(a: seq<Path>, b: seq<Path>)
    requires AllDifferent(a) && AllDifferent(b) && forall x, y :: x in a && y in b ==> x != y
    ensures AllDifferent(a + b)
  {
    var r := a + b;
    forall i, j | 0 <= i < j < |r| ensures r[i] != r[j] {
      assert i < |a| ==> r[i] == a[i] && r[i] in a;
      assert j >= |a| ==> r[j] == b[j - |a|] && r[j] in b;
    }
  }

  /** Different paths of one depth are an antichain. */
  lemma SameDepth(paths: seq<Path>, n: nat)
    requires AllDifferent(paths) && forall p :: p in paths ==> |p| == n
    ensures Antichain(paths)
  {
    forall i, j | 0 <= i < |paths| && 0 <= j < |paths| && i != j ensures !(paths[i] <= paths[j]) {
      assert paths[i] in paths && paths[j] in paths && paths[i] != paths[j];
    }
  }
}
