/** The few Python string operations the app relies on, over Dafny strings. */
module PyStr {

  /** `s.startswith(p)` */
  predicate StartsWith(s: string, p: string) {
    p <= s
  }

  /** `s.endswith(x)` */
  predicate EndsWith(s: string, x: string) {
    |x| <= |s| && s[|s| - |x|..] == x
  }

  /** `s.endswith(suffixes)` with a tuple of suffixes: true when any of them ends `s`. */
  function EndsWithAny(s: string, suffixes: seq<string>): (r: bool)
    ensures r <==> exists k :: 0 <= k < |suffixes| && EndsWith(s, suffixes[k])
  {
    if suffixes == [] then false
    else EndsWith(s, suffixes[0]) || EndsWithAny(s, suffixes[1..])
  }

  /** `sub` occurs in `s` starting at index `i`. */
  predicate OccursAt(s: string, sub: string, i: int) {
    0 <= i && i + |sub| <= |s| && s[i..i + |sub|] == sub
  }

  /** `sub in s` */
  predicate Contains(s: string, sub: string) {
    exists i :: 0 <= i <= |s| && OccursAt(s, sub, i)
  }

  /** Shifting an occurrence in `m` past a prefix `p` gives an occurrence in `p + m`. */
  lemma OccursAfterPrefix(p: string, m: string, sub: string, j: int)
    requires OccursAt(m, sub, j)
    ensures OccursAt(p + m, sub, j + |p|)
  {
    var k := j + |p|;
    assert |p + m| == |p| + |m|;
    assert (p + m)[k..k + |sub|] == m[j..j + |sub|];
  }

  /** An occurrence in `p + m` that does not start inside `p` is an occurrence in `m`, and back. */
  lemma ContainsAfterPrefix(p: string, m: string, sub: string)
    requires forall i :: 0 <= i < |p| ==> !OccursAt(p + m, sub, i)
    ensures Contains(p + m, sub) <==> Contains(m, sub)
  {
    if Contains(p + m, sub) {
      var i :| 0 <= i <= |p + m| && OccursAt(p + m, sub, i);
      var j := i - |p|;
      assert j >= 0;
      assert (p + m)[i..i + |sub|] == m[j..j + |sub|];
      assert OccursAt(m, sub, j);
    }
    if Contains(m, sub) {
      var j :| 0 <= j <= |m| && OccursAt(m, sub, j);
      OccursAfterPrefix(p, m, sub, j);
    }
  }
}
