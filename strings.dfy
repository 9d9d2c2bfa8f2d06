/**
 * The part of std::string the shell relies on: `find`, used both as
 * `find(p) == 0` (a prefix test) and as `find(p) != npos` (a substring test).
 */
module Strings {
  import opened Wrappers

  /** `p` occurs in `s` starting at index `i`. */
  predicate OccursAt(s: string, p: string, i: nat) {
    i + |p| <= |s| && s[i..i + |p|] == p
  }

  /** `p` occurs somewhere in `s`. */
  ghost predicate Contains(s: string, p: string) {
    exists i: nat :: OccursAt(s, p, i)
  }

  /** `s.find(p, from)`: the first index at or after `from` where `p` occurs, None for npos. */
  function FindFrom(s: string, p: string, from: nat): (r: Option<nat>)
    ensures r.Some? ==> from <= r.value && OccursAt(s, p, r.value)
    ensures r.Some? ==> forall j: nat :: from <= j < r.value ==> !OccursAt(s, p, j)
    ensures r.None? ==> forall j: nat :: from <= j ==> !OccursAt(s, p, j)
    decreases |s| - from
  {
    if from + |p| > |s| then None
    else if s[from..from + |p|] == p then Some(from)
    else FindFrom(s, p, from + 1)
  }

  /** `s.find(p)`. */
  function Find(s: string, p: string): Option<nat> {
    FindFrom(s, p, 0)
  }

  /** `s.find(p) == 0` holds exactly when `p` is a prefix of `s`. */
  lemma FindZeroIffPrefix(s: string, p: string)
    ensures Find(s, p) == Some(0) <==> p <= s
  {
    if p <= s {
      assert s[0..|p|] == p;
      assert OccursAt(s, p, 0);
    }
    if Find(s, p) == Some(0) {
      assert OccursAt(s, p, 0);
      assert s[..|p|] == s[0..|p|];
    }
  }

  /** `s.find(p) != npos` holds exactly when `p` occurs in `s`. */
  lemma FindFoundIffContains(s: string, p: string)
    ensures Find(s, p).Some? <==> Contains(s, p)
  {
    if Find(s, p).Some? {
      assert OccursAt(s, p, Find(s, p).value);
    }
  }

  /** A string whose first character differs from that of a non-empty `p` does not start with `p`. */
  lemma NotPrefixByFirstChar(s: string, p: string)
    requires |p| > 0 && |s| > 0 && s[0] != p[0]
    ensures Find(s, p) != Some(0)
  {
    FindZeroIffPrefix(s, p);
  }
}
