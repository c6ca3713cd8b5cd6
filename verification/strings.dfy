/** Substring tests and substring removal on `string`, with the meaning
    Python gives to `p in s` and to `s.replace(p, "")`. */
module Strings {

  /** `p` is an initial segment of `s`. */
  predicate IsPrefix(p: string, s: string) {
    |p| <= |s| && s[..|p|] == p
  }

  /** `p` occurs in `s` starting at index `i`. */
  predicate OccursAt(s: string, p: string, i: int) {
    0 <= i <= |s| - |p| && s[i..i + |p|] == p
  }

  /** Python's substring test `p in s`: a prefix is contained, the empty
      string among them, and nothing longer than `s` is. */
  function Contains(s: string, p: string): (found: bool)
    ensures IsPrefix(p, s) ==> found
    ensures found ==> |p| <= |s|
  {
    assert IsPrefix(p, s) ==> OccursAt(s, p, 0);
    exists i :: 0 <= i <= |s| - |p| && OccursAt(s, p, i)
  }

  /** Python's `s.replace(p, "")` for a non-empty `p`: one left-to-right
      pass that deletes every leftmost, non-overlapping occurrence of `p`. */
  function RemoveAll(s: string, p: string): (r: string)
    requires |p| > 0
    ensures |r| <= |s|
    ensures forall k :: 0 <= k < |r| ==> r[k] in s
    decreases |s|
  {
    if |s| == 0 then s
    else if IsPrefix(p, s) then RemoveAll(s[|p|..], p)
    else [s[0]] + RemoveAll(s[1..], p)
  }

  /** An occurrence past the first character is an occurrence in the tail. */
  lemma OccursInTail(s: string, p: string, i: int)
    requires OccursAt(s, p, i) && i > 0
    ensures OccursAt(s[1..], p, i - 1)
  {
    assert s[1..][i - 1..i - 1 + |p|] == s[i..i + |p|];
  }

  /** An occurrence in the tail is an occurrence one position further on. */
  lemma OccursFromTail(s: string, p: string, i: int)
    requires |s| > 0 && OccursAt(s[1..], p, i)
    ensures OccursAt(s, p, i + 1)
  {
    assert s[1..][i..i + |p|] == s[i + 1..i + 1 + |p|];
  }

  /** The scan `p in s` as Python's loop performs it: `p` is found at the
      front or, failing that, in the rest of `s`. */
  lemma ContainsStep(s: string, p: string)
    requires |s| > 0
    ensures Contains(s, p) <==> IsPrefix(p, s) || Contains(s[1..], p)
  {
    if Contains(s, p) && !IsPrefix(p, s) {
      var i :| 0 <= i <= |s| - |p| && OccursAt(s, p, i);
      OccursInTail(s, p, i);
    }
    if Contains(s[1..], p) {
      var i :| 0 <= i <= |s[1..]| - |p| && OccursAt(s[1..], p, i);
      OccursFromTail(s, p, i);
    }
  }

  /** A pattern holding a character that `s` lacks cannot occur in `s`. */
  lemma AbsentByChar(s: string, p: string, c: char)
    requires c in p && c !in s
    ensures !Contains(s, p)
  {
  }

  /** Removing a pattern that does not occur leaves the string unchanged. */
  lemma {:induction false} RemoveAllAbsent(s: string, p: string)
    requires |p| > 0 && !Contains(s, p)
    ensures RemoveAll(s, p) == s
    decreases |s|
  {
    if |s| > 0 {
      if !IsPrefix(p, s) {
        if Contains(s[1..], p) {
          var i :| OccursAt(s[1..], p, i);
          OccursFromTail(s, p, i);
        }
        RemoveAllAbsent(s[1..], p);
        assert s == [s[0]] + s[1..];
      }
    }
  }

  /** Removing a pattern that does occur deletes at least one copy of it. */
  lemma {:induction false} RemoveAllShrinks(s: string, p: string)
    requires |p| > 0 && Contains(s, p)
    ensures |RemoveAll(s, p)| <= |s| - |p|
    decreases |s|
  {
    var i :| OccursAt(s, p, i);
    if !IsPrefix(p, s) {
      OccursInTail(s, p, i);
      RemoveAllShrinks(s[1..], p);
    }
  }

  /** The removal changes nothing exactly when the pattern is absent. */
  lemma RemoveAllIdentity(s: string, p: string)
    requires |p| > 0
    ensures RemoveAll(s, p) == s <==> !Contains(s, p)
  {
    if Contains(s, p) {
      RemoveAllShrinks(s, p);
    } else {
      RemoveAllAbsent(s, p);
    }
  }

  /** A leading copy of the pattern is dropped and the scan resumes after it. */
  lemma RemoveAllLeading(p: string, t: string)
    requires |p| > 0
    ensures RemoveAll(p + t, p) == RemoveAll(t, p)
  {
    assert (p + t)[..|p|] == p;
    assert (p + t)[|p|..] == t;
  }
}
