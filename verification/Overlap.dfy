/**
  The static overlap analysis of agens-config on permission targets. A missing
  pattern stands for every target; a pattern stands for what the glob matcher
  accepts.
*/
module Overlap {
  import opened Wrappers
  import opened Glob

  predicate Metacharacter(c: char) {
    c == '*' || c == '?' || c == '['
  }

  predicate HasMetacharacter(pattern: string) {
    exists i :: 0 <= i < |pattern| && Metacharacter(pattern[i])
  }

  /** How many characters stand before the first metacharacter. */
  function LiteralLength(pattern: string): (n: nat)
    ensures n <= |pattern|
    ensures forall i :: 0 <= i < n ==> !Metacharacter(pattern[i])
    ensures n < |pattern| ==> Metacharacter(pattern[n])
  {
    if pattern == [] || Metacharacter(pattern[0]) then 0 else 1 + LiteralLength(pattern[1..])
  }

  function LiteralPrefix(pattern: string): string {
    pattern[..LiteralLength(pattern)]
  }

  predicate ProvenDisjoint(left: string, right: string) {
    !(LiteralPrefix(right) <= LiteralPrefix(left)) && !(LiteralPrefix(left) <= LiteralPrefix(right))
  }

  predicate IsDoublestarPrefix(pattern: string, candidate: string) {
    && |pattern| >= 3
    && pattern[|pattern| - 3..] == "/**"
    && var prefix := pattern[..|pattern| - 3];
    && prefix <= candidate
    && (candidate == prefix || candidate[|prefix|] == '/')
  }

  /** `target_patterns_overlap`. */
  predicate TargetPatternsOverlap(left: Option<string>, right: Option<string>) {
    if left.None? || right.None? then true
    else
      var l, r := left.value, right.value;
      if l == r || l == "**" || r == "**" then true
      else if IsDoublestarPrefix(l, r) || IsDoublestarPrefix(r, l) then true
      else
        match (HasMetacharacter(l), HasMetacharacter(r))
        case (false, false) => false
        case (true, false) => GlobMatches(l, r)
        case (false, true) => GlobMatches(r, l)
        case (true, true) => !ProvenDisjoint(l, r)
  }

  predicate Covers(pattern: Option<string>, target: string) {
    pattern.None? || GlobMatches(pattern.value, target)
  }

  /** Over a stretch without metacharacters the matcher compares characters. */
  lemma {:induction false} LiteralStretch(pattern: string, target: string, p: nat, end: nat)
    requires p <= end <= |pattern| && p <= |target|
    requires forall i :: p <= i < end ==> !Metacharacter(pattern[i])
    ensures MatchesFrom(pattern, target, p, p)
            <==> end <= |target| && pattern[p..end] == target[p..end] && MatchesFrom(pattern, target, end, end)
    decreases end - p
  {
    if p < end {
      if p < |target| && target[p] == pattern[p] {
        LiteralStretch(pattern, target, p + 1, end);
        assert pattern[p..end] == [pattern[p]] + pattern[p + 1..end];
        if end <= |target| {
          assert target[p..end] == [target[p]] + target[p + 1..end];
        }
      } else if end <= |target| {
        assert pattern[p..end][0] == pattern[p] && target[p..end][0] == target[p];
      }
    }
  }

  /** A match begins with the pattern's literal prefix. */
  lemma MatchBeginsLiterally(pattern: string, target: string)
    requires GlobMatches(pattern, target)
    ensures LiteralPrefix(pattern) <= target
  {
    LiteralStretch(pattern, target, 0, LiteralLength(pattern));
    assert LiteralPrefix(pattern) == pattern[0..LiteralLength(pattern)];
  }

  /** A pattern without metacharacters matches itself alone. */
  lemma LiteralMatchesItself(pattern: string, target: string)
    requires !HasMetacharacter(pattern)
    ensures GlobMatches(pattern, target) <==> pattern == target
  {
    LiteralStretch(pattern, target, 0, |pattern|);
    assert pattern[0..|pattern|] == pattern;
    if |pattern| <= |target| && MatchesFrom(pattern, target, |pattern|, |pattern|) {
      assert target[0..|pattern|] == target;
    }
    assert target[0..|target|] == target;
  }

  /** Soundness and symmetry: if any target at all is covered by both patterns
      the analysis reports an overlap, and it never depends on the order. */
  lemma OverlapIsSound(left: Option<string>, right: Option<string>)
    ensures forall target :: Covers(left, target) && Covers(right, target) ==> TargetPatternsOverlap(left, right)
    ensures TargetPatternsOverlap(left, right) <==> TargetPatternsOverlap(right, left)
  {
    forall target | Covers(left, target) && Covers(right, target)
      ensures TargetPatternsOverlap(left, right)
    {
      if left.Some? && right.Some? {
        var l, r := left.value, right.value;
        MatchBeginsLiterally(l, target);
        MatchBeginsLiterally(r, target);
        assert !ProvenDisjoint(l, r);
        if !HasMetacharacter(l) {
          LiteralMatchesItself(l, target);
        }
        if !HasMetacharacter(r) {
          LiteralMatchesItself(r, target);
        }
      }
    }
  }

  lemma StarsAreMetacharacters(pattern: string)
    ensures pattern == "**" || (|pattern| >= 3 && pattern[|pattern| - 3..] == "/**") ==> HasMetacharacter(pattern)
  {
    if |pattern| >= 2 && pattern[|pattern| - 2] == '*' {
      assert Metacharacter(pattern[|pattern| - 2]);
    }
    if |pattern| >= 3 && pattern[|pattern| - 3..] == "/**" {
      assert pattern[|pattern| - 2] == "/**"[1];
    }
  }

  /** Two stars that close a pattern match whatever is left. */
  lemma TrailingDoublestar(pattern: string, target: string, p: nat, c: nat)
    requires p + 2 == |pattern| && pattern[p] == '*' && pattern[p + 1] == '*' && c <= |target|
    ensures MatchesFrom(pattern, target, p, c)
  {
    var n := |target|;
    MatcherStep(pattern, target, p, c);
    assert MatchesFrom(pattern, target, p + 2, n) && Admits(GlobStar, target[c..n]);
  }

  /** `prefix/` followed by anything is matched by `prefix/` and two stars. */
  lemma DoublestarMatchesBelow(pattern: string, target: string)
    requires IsDoublestarPrefix(pattern, target) && !HasMetacharacter(target)
    requires target != pattern[..|pattern| - 3]
    ensures GlobMatches(pattern, target)
  {
    var stars := |pattern| - 2;
    assert pattern[stars - 1..] == "/**";
    assert pattern[stars - 1] == "/**"[0] && pattern[stars] == "/**"[1] && pattern[stars + 1] == "/**"[2];
    forall i | 0 <= i < stars
      ensures pattern[i] == target[i]
    {
      if i < stars - 1 {
        assert pattern[..stars - 1][i] == target[i];
      }
    }
    LiteralStretch(pattern, target, 0, stars);
    assert pattern[0..stars] == target[0..stars];
    TrailingDoublestar(pattern, target, stars, stars);
  }

  lemma NotBelowItself(target: string)
    requires !HasMetacharacter(target)
    ensures !GlobMatches(target + "/**", target)
  {
    var below := target + "/**";
    assert forall i :: 0 <= i < |target| ==> below[i] == target[i];
    assert below[|target|] == '/';
    LiteralStretch(below, target, 0, |target| + 1);
  }

  /** A doublestar prefix of a literal is matched, or is the literal and the stars. */
  lemma DoublestarPrefixOfLiteral(left: string, right: string)
    requires !HasMetacharacter(right)
    ensures IsDoublestarPrefix(left, right) ==> GlobMatches(left, right) || left == right + "/**"
    ensures left == right + "/**" ==> IsDoublestarPrefix(left, right)
  {
    if IsDoublestarPrefix(left, right) {
      if right != left[..|left| - 3] {
        DoublestarMatchesBelow(left, right);
      } else {
        assert left == left[..|left| - 3] + left[|left| - 3..];
      }
    }
    if left == right + "/**" {
      assert left[|left| - 3..] == "/**" && left[..|left| - 3] == right;
    }
  }

  lemma OverlapWithLiteral(left: string, right: string)
    requires !HasMetacharacter(right)
    ensures TargetPatternsOverlap(Some(left), Some(right)) <==> GlobMatches(left, right) || left == right + "/**"
  {
    LiteralMatchesItself(right, right);
    TrailingDoublestar("**", right, 0, 0);
    StarsAreMetacharacters(right);
    DoublestarPrefixOfLiteral(left, right);
    if !HasMetacharacter(left) {
      LiteralMatchesItself(left, right);
      StarsAreMetacharacters(left);
    }
  }

  /** Against a literal target the answer is exact but for one case: `t` and
      `t` followed by a slash and two stars are reported, and share nothing. */
  lemma OverlapWithLiteralExactly(left: string, right: string)
    requires !HasMetacharacter(right)
    ensures TargetPatternsOverlap(Some(left), Some(right))
            <==> (exists target :: GlobMatches(left, target) && GlobMatches(right, target)) || left == right + "/**"
    ensures !GlobMatches(right + "/**", right)
  {
    OverlapWithLiteral(left, right);
    NotBelowItself(right);
    LiteralMatchesItself(right, right);
    forall target | GlobMatches(right, target)
      ensures target == right
    {
      LiteralMatchesItself(right, target);
    }
  }

  /** They part ways before either has come to a metacharacter. */
  ghost predicate PartWays(left: string, right: string) {
    exists i ::
      && 0 <= i < |left| && i < |right| && left[i] != right[i]
      && forall k :: 0 <= k <= i ==> !Metacharacter(left[k]) && !Metacharacter(right[k])
  }

  lemma PartedPrefixes(left: string, right: string)
    ensures ProvenDisjoint(left, right) <==> PartWays(left, right)
  {
    var l, r := LiteralPrefix(left), LiteralPrefix(right);
    if i :| && 0 <= i < |left| && i < |right| && left[i] != right[i]
            && forall k :: 0 <= k <= i ==> !Metacharacter(left[k]) && !Metacharacter(right[k]) {
      assert i < |l| && i < |r| && l[i] != r[i];
    }
    if ProvenDisjoint(left, right) {
      var i := FirstDifference(l, r);
      assert left[i] != right[i];
    }
  }

  /** Two texts neither of which begins the other differ somewhere. */
  function FirstDifference(left: string, right: string): (i: nat)
    requires !(left <= right) && !(right <= left)
    ensures i < |left| && i < |right| && left[i] != right[i]
  {
    if left[0] != right[0] then 0 else 1 + FirstDifference(left[1..], right[1..])
  }

  lemma BelowNeverParts(pattern: string, candidate: string)
    requires IsDoublestarPrefix(pattern, candidate)
    ensures !PartWays(pattern, candidate) && !PartWays(candidate, pattern)
  {
    var n := |pattern| - 3;
    assert pattern[n..] == "/**";
    assert pattern[n] == pattern[n..][0] && pattern[n + 1] == pattern[n..][1];
    assert Metacharacter(pattern[n + 1]);
    assert forall k :: 0 <= k < n ==> pattern[k] == pattern[..n][k] == candidate[k];
  }

  /** Patterns that hold metacharacters, or are missing, are reported exactly
      unless they part ways before their first metacharacter. */
  lemma OverlapOfGlobsIff(left: Option<string>, right: Option<string>)
    requires left.Some? ==> HasMetacharacter(left.value)
    requires right.Some? ==> HasMetacharacter(right.value)
    ensures TargetPatternsOverlap(left, right)
            <==> !(left.Some? && right.Some? && PartWays(left.value, right.value))
  {
    if left.Some? && right.Some? {
      var l, r := left.value, right.value;
      PartedPrefixes(l, r);
      if IsDoublestarPrefix(l, r) {
        BelowNeverParts(l, r);
      }
      if IsDoublestarPrefix(r, l) {
        BelowNeverParts(r, l);
      }
      assert "**"[0] == '*' && Metacharacter('*');
    }
  }
}
