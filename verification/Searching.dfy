/** Finding a pattern in a text. */
module Searching {
  predicate MatchesAt(s: string, p: string, i: nat) {
    i + |p| <= |s| && s[i..i + |p|] == p
  }

  predicate Contains(s: string, p: string) {
    exists i: nat :: i <= |s| && MatchesAt(s, p, i)
  }

  /** The character does not occur. */
  predicate Lacks(s: string, c: char) {
    forall i :: 0 <= i < |s| ==> s[i] != c
  }

  /** One differing character is enough. */
  lemma NoMatch(s: string, p: string, i: nat, k: nat)
    requires k < |p| && (i + |p| <= |s| ==> s[i + k] != p[k])
    ensures !MatchesAt(s, p, i)
  {
    if i + |p| <= |s| {
      assert s[i..i + |p|][k] == s[i + k];
    }
  }

  lemma LacksPattern(s: string, p: string)
    requires exists k :: 0 <= k < |p| && Lacks(s, p[k])
    ensures !Contains(s, p)
  {
    var k :| 0 <= k < |p| && Lacks(s, p[k]);
    forall i: nat | i <= |s| ensures !MatchesAt(s, p, i) {
      NoMatch(s, p, i, k);
    }
  }

  /** A pattern without the character c lies on one side of it. */
  lemma ContainsAcross(a: string, c: char, b: string, p: string)
    requires p != "" && c !in p
    ensures Contains(a + [c] + b, p) <==> Contains(a, p) || Contains(b, p)
  {
    hide Contains;
    forall i: nat ensures MatchesAt(a, p, i) ==> MatchesAt(a + [c] + b, p, i) {
      if MatchesAt(a, p, i) {
        assert (a + [c] + b)[i..i + |p|] == a[i..i + |p|];
      }
    }
    forall i: nat ensures MatchesAt(b, p, i) ==> MatchesAt(a + [c] + b, p, |a| + 1 + i) {
      if MatchesAt(b, p, i) {
        assert b == (a + [c] + b)[|a| + 1..];
      }
    }
    forall i: nat
      ensures MatchesAt(a + [c] + b, p, i) ==> MatchesAt(a, p, i) || (i > |a| && MatchesAt(b, p, i - |a| - 1))
    {
      MatchAcross(a, c, b, p, i);
    }
    MatchesMeet(a, c, b, p);
  }

  lemma MatchAcross(a: string, c: char, b: string, p: string, i: nat)
    requires p != "" && c !in p
    ensures MatchesAt(a + [c] + b, p, i) ==> MatchesAt(a, p, i) || (i > |a| && MatchesAt(b, p, i - |a| - 1))
  {
    var s := a + [c] + b;
    if i + |p| <= |s| {
      if i <= |a| < i + |p| {
        NoMatch(s, p, i, |a| - i);
      } else if i + |p| <= |a| {
        assert a[i..i + |p|] == s[i..i + |p|];
      } else {
        assert b[i - |a| - 1..i - |a| - 1 + |p|] == s[i..i + |p|];
      }
    }
  }

  lemma MatchesMeet(a: string, c: char, b: string, p: string)
    requires forall i: nat :: MatchesAt(a, p, i) ==> MatchesAt(a + [c] + b, p, i)
    requires forall i: nat :: MatchesAt(b, p, i) ==> MatchesAt(a + [c] + b, p, |a| + 1 + i)
    requires forall i: nat :: MatchesAt(a + [c] + b, p, i)
               ==> MatchesAt(a, p, i) || (i > |a| && MatchesAt(b, p, i - |a| - 1))
    ensures Contains(a + [c] + b, p) <==> Contains(a, p) || Contains(b, p)
  {
    hide MatchesAt;
    forall i: nat | MatchesAt(a + [c] + b, p, i) ensures Contains(a, p) || Contains(b, p) {
      InBounds(a, p, i);
      if i > |a| { InBounds(b, p, i - |a| - 1); }
    }
    forall i: nat | MatchesAt(a, p, i) ensures Contains(a + [c] + b, p) { InBounds(a + [c] + b, p, i); }
    forall i: nat | MatchesAt(b, p, i) ensures Contains(a + [c] + b, p) { InBounds(a + [c] + b, p, |a| + 1 + i); }
  }

  lemma InBounds(s: string, p: string, i: nat)
    ensures MatchesAt(s, p, i) ==> i <= |s|
  {
  }

  /** A beginning at which the pattern never matches can be left out. */
  lemma ContainsBehind(a: string, b: string, p: string)
    requires forall i: nat :: i < |a| ==> !MatchesAt(a + b, p, i)
    ensures Contains(a + b, p) <==> Contains(b, p)
  {
    var s := a + b;
    if Contains(s, p) {
      var i: nat :| i <= |s| && MatchesAt(s, p, i);
      assert b[i - |a|..i - |a| + |p|] == s[i..i + |p|];
      assert MatchesAt(b, p, i - |a|);
    }
    if Contains(b, p) {
      var i: nat :| i <= |b| && MatchesAt(b, p, i);
      assert s[|a| + i..|a| + i + |p|] == b[i..i + |p|];
      assert MatchesAt(s, p, |a| + i);
    }
  }
}
