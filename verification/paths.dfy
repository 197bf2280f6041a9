/** File paths as plain strings with `/` separators, and the two Foundation
    queries the recorder makes on them. */
module Paths {

  predicate HasSuffix(s: string, suffix: string) {
    |suffix| <= |s| && s[|s| - |suffix|..] == suffix
  }

  /** URL.lastPathComponent: the text after the last `/` (all of it when there is none). */
  function LastPathComponent(p: string): (r: string)
    ensures |r| <= |p|
    ensures '/' !in r
    ensures HasSuffix(p, r)
    ensures |r| == |p| || p[|p| - |r| - 1] == '/'
  {
    if |p| == 0 || p[|p| - 1] == '/' then []
    else LastPathComponent(p[..|p| - 1]) + [p[|p| - 1]]
  }

  /** Joining two texts without a separator gives a text without one. */
  lemma NoSlashInJoin(a: string, b: string)
    requires '/' !in a && '/' !in b
    ensures '/' !in a + b
  {
    assert forall i :: 0 <= i < |a + b| ==> (a + b)[i] == if i < |a| then a[i] else b[i - |a|];
  }

  /** Appending a separator and a plain name makes that name the last component. */
  lemma {:induction false} LastPathComponentOfJoin(dir: string, name: string)
    requires '/' !in name
    ensures LastPathComponent(dir + "/" + name) == name
  {
    if |name| > 0 {
      var p := dir + "/" + name;
      var init := name[..|name| - 1];
      assert p[..|p| - 1] == dir + "/" + init;
      assert p[|p| - 1] == name[|name| - 1];
      LastPathComponentOfJoin(dir, init);
      assert init + [name[|name| - 1]] == name;
    }
  }
}
