/**
  Pruning the result list to the optimal results. A result is dropped when another entry of
  the list is at least as good at every level and better at one, or when another entry is
  "similar" to it (same total, same count at the highest level either of them uses) and
  better in the top-down comparison of the levels. Both reasons imply the dropping entry is
  strictly greater in the top-down comparison, which is what makes the filter well behaved:
  it never empties a non-empty list and applying it twice changes nothing.
 */
module Filter {
  import opened CoffeeResults
  import opened Sorter

  /** Reference: `x` has at least as many slots as `y` at every level, and more at one. */
  predicate Dominates(x: CoffeeResult, y: CoffeeResult) {
    && (forall l :: 1 <= l <= 5 ==> GetSlotsForLevel(x, l) >= GetSlotsForLevel(y, l))
    && (exists l :: 1 <= l <= 5 && GetSlotsForLevel(x, l) > GetSlotsForLevel(y, l))
  }

  /** Domination is a strict partial order: irreflexive, asymmetric and transitive. */
  lemma DominatesIsStrictOrder(x: CoffeeResult, y: CoffeeResult, z: CoffeeResult)
    ensures !Dominates(x, x)
    ensures Dominates(x, y) ==> !Dominates(y, x)
    ensures Dominates(x, y) && Dominates(y, z) ==> Dominates(x, z)
  {
    if Dominates(x, y) && Dominates(y, z) {
      var l :| 1 <= l <= 5 && GetSlotsForLevel(x, l) > GetSlotsForLevel(y, l);
      assert GetSlotsForLevel(y, l) >= GetSlotsForLevel(z, l);
    }
  }

  /** The level-by-level scan over the two count vectors, level 1 first, with its early exit. */
  method IsBetterOrEqualInAllLevels(x: CoffeeResult, y: CoffeeResult) returns (b: bool)
    ensures b <==> Dominates(x, y)
  {
    var strictlyBetterInAtLeastOneLevel := false;
    var xLevels, yLevels := Levels(x), Levels(y);
    var i := 0;
    while i < |xLevels|
      invariant 0 <= i <= 5
      invariant forall k :: 0 <= k < i ==> xLevels[k] >= yLevels[k]
      invariant strictlyBetterInAtLeastOneLevel <==> exists k :: 0 <= k < i && xLevels[k] > yLevels[k]
    {
      if xLevels[i] < yLevels[i] {
        assert !(GetSlotsForLevel(x, i + 1) >= GetSlotsForLevel(y, i + 1));
        return false;
      } else if xLevels[i] > yLevels[i] {
        strictlyBetterInAtLeastOneLevel := true;
      }
      i := i + 1;
    }
    if strictlyBetterInAtLeastOneLevel {
      var k :| 0 <= k < 5 && xLevels[k] > yLevels[k];
      assert GetSlotsForLevel(x, k + 1) > GetSlotsForLevel(y, k + 1);
    } else {
      forall l | 1 <= l <= 5 ensures GetSlotsForLevel(x, l) <= GetSlotsForLevel(y, l) {
        assert !(xLevels[l - 1] > yLevels[l - 1]);
      }
    }
    forall l | 1 <= l <= 5 ensures GetSlotsForLevel(x, l) >= GetSlotsForLevel(y, l) {
      assert xLevels[l - 1] >= yLevels[l - 1];
    }
    return strictlyBetterInAtLeastOneLevel;
  }

  /** `l` is the highest level at which `x` or `y` has a slot. */
  predicate IsTopLevel(x: CoffeeResult, y: CoffeeResult, l: int) {
    && 1 <= l <= 5
    && (GetSlotsForLevel(x, l) != 0 || GetSlotsForLevel(y, l) != 0)
    && forall m :: l < m <= 5 ==> GetSlotsForLevel(x, m) == 0 && GetSlotsForLevel(y, m) == 0
  }

  /** Reference: the same total, and the same count at the highest level either one uses. */
  predicate Similar(x: CoffeeResult, y: CoffeeResult) {
    && TotalSpellSlots(x) == TotalSpellSlots(y)
    && forall l :: 1 <= l <= 5 && IsTopLevel(x, y, l) ==> GetSlotsForLevel(x, l) == GetSlotsForLevel(y, l)
  }

  /** The top-down scan for the highest used level, then the comparison there. */
  method AreSimilar(x: CoffeeResult, y: CoffeeResult) returns (b: bool)
    ensures b <==> Similar(x, y)
  {
    if TotalSpellSlots(x) != TotalSpellSlots(y) {
      return false;
    }
    var highestLevel := 0;
    var level := 5;
    while level >= 1
      invariant 0 <= level <= 5 && highestLevel == 0
      invariant forall m :: level < m <= 5 ==> GetSlotsForLevel(x, m) == 0 && GetSlotsForLevel(y, m) == 0
      decreases level
    {
      var xValue, yValue := GetSlotsForLevel(x, level), GetSlotsForLevel(y, level);
      if xValue != 0 || yValue != 0 {
        highestLevel := level;
        break;
      }
      level := level - 1;
    }
    if highestLevel == 0 {
      forall l | 1 <= l <= 5 ensures !IsTopLevel(x, y, l) {
      }
      return true;
    }
    assert IsTopLevel(x, y, highestLevel);
    forall l | IsTopLevel(x, y, l) ensures l == highestLevel {
    }
    return GetSlotsForLevel(x, highestLevel) == GetSlotsForLevel(y, highestLevel);
  }

  /** Similarity is reflexive and symmetric. */
  lemma SimilarIsSymmetric(x: CoffeeResult, y: CoffeeResult)
    ensures Similar(x, x)
    ensures Similar(x, y) <==> Similar(y, x)
  {
    forall l | IsTopLevel(x, y, l) ensures IsTopLevel(y, x, l) {
    }
    forall l | IsTopLevel(y, x, l) ensures IsTopLevel(x, y, l) {
    }
  }

  /** The counts from level 5 down to level 1. */
  function TopDown(r: CoffeeResult): seq<int> {
    [r.level5, r.level4, r.level3, r.level2, r.level1]
  }

  /** Level 5 first, then level 4, and so on: the first level that differs decides. */
  function ExtendedComparison(a: CoffeeResult, b: CoffeeResult): int {
    var comp5 := CompareTo(a.level5, b.level5);
    if comp5 != 0 then comp5
    else
      var comp4 := CompareTo(a.level4, b.level4);
      if comp4 != 0 then comp4
      else
        var comp3 := CompareTo(a.level3, b.level3);
        if comp3 != 0 then comp3
        else
          var comp2 := CompareTo(a.level2, b.level2);
          if comp2 != 0 then comp2
          else CompareTo(a.level1, b.level1)
  }

  /** The extended comparison is the lexicographic order of the top-down count vectors. */
  lemma ExtendedComparisonIsLex(a: CoffeeResult, b: CoffeeResult)
    ensures ExtendedComparison(a, b) == LexCompare(TopDown(a), TopDown(b))
  {
    var u, v := TopDown(a), TopDown(b);
    var u4, v4 := [a.level4, a.level3, a.level2, a.level1], [b.level4, b.level3, b.level2, b.level1];
    var u3, v3 := [a.level3, a.level2, a.level1], [b.level3, b.level2, b.level1];
    var u2, v2 := [a.level2, a.level1], [b.level2, b.level1];
    var u1, v1 := [a.level1], [b.level1];
    assert u[1..] == u4 && v[1..] == v4 && u4[1..] == u3 && v4[1..] == v3;
    assert u3[1..] == u2 && v3[1..] == v2 && u2[1..] == u1 && v2[1..] == v1;
    assert LexCompare(u1, v1) == CompareTo(a.level1, b.level1) by {
      assert u1[1..] == [] && v1[1..] == [];
    }
    assert LexCompare(u2, v2) == if a.level2 != b.level2 then CompareTo(a.level2, b.level2) else LexCompare(u1, v1);
    assert LexCompare(u3, v3) == if a.level3 != b.level3 then CompareTo(a.level3, b.level3) else LexCompare(u2, v2);
    assert LexCompare(u4, v4) == if a.level4 != b.level4 then CompareTo(a.level4, b.level4) else LexCompare(u3, v3);
    assert LexCompare(u, v) == if a.level5 != b.level5 then CompareTo(a.level5, b.level5) else LexCompare(u4, v4);
  }

  /**
    The extended comparison is a total preorder on results, zero exactly when all five counts
    agree.
   */
  lemma ExtendedComparisonIsTotalPreorder(a: CoffeeResult, b: CoffeeResult, c: CoffeeResult)
    ensures ExtendedComparison(a, b) == -ExtendedComparison(b, a)
    ensures ExtendedComparison(a, b) == 0 <==> TopDown(a) == TopDown(b)
    ensures ExtendedComparison(a, b) >= 0 && ExtendedComparison(b, c) > 0 ==> ExtendedComparison(a, c) > 0
    ensures ExtendedComparison(a, b) > 0 && ExtendedComparison(b, c) >= 0 ==> ExtendedComparison(a, c) > 0
  {
    ExtendedComparisonIsLex(a, b);
    ExtendedComparisonIsLex(b, a);
    ExtendedComparisonIsLex(b, c);
    ExtendedComparisonIsLex(a, c);
    ExtendedComparisonIsLex(c, b);
    ExtendedComparisonIsLex(b, a);
    ExtendedComparisonIsLex(c, a);
    var u, v, w := TopDown(a), TopDown(b), TopDown(c);
    LexAntisymmetric(u, v);
    LexAntisymmetric(v, w);
    LexAntisymmetric(u, w);
    LexZeroIffEqual(u, v);
    if LexCompare(w, v) <= 0 && LexCompare(v, u) <= 0 {
      LexTransitive(w, v, u);
    }
  }

  /** A dominating result comes first in the extended comparison. */
  lemma DominatesIsExtendedGreater(x: CoffeeResult, y: CoffeeResult)
    requires Dominates(x, y)
    ensures ExtendedComparison(x, y) > 0
  {
    assert GetSlotsForLevel(x, 1) >= GetSlotsForLevel(y, 1) && GetSlotsForLevel(x, 2) >= GetSlotsForLevel(y, 2);
    assert GetSlotsForLevel(x, 3) >= GetSlotsForLevel(y, 3) && GetSlotsForLevel(x, 4) >= GetSlotsForLevel(y, 4);
    assert GetSlotsForLevel(x, 5) >= GetSlotsForLevel(y, 5);
  }

  /** Why the filter drops `y` on seeing `x`. */
  predicate Beats(x: CoffeeResult, y: CoffeeResult) {
    Dominates(x, y) || (Similar(x, y) && ExtendedComparison(x, y) > 0)
  }

  /** Every reason to drop a result names a strictly greater one, so nothing beats itself. */
  lemma BeatsIsExtendedGreater(x: CoffeeResult, y: CoffeeResult)
    ensures Beats(x, y) ==> ExtendedComparison(x, y) > 0
    ensures !Beats(x, x)
  {
    if Dominates(x, y) {
      DominatesIsExtendedGreater(x, y);
    }
    if Dominates(x, x) {
      DominatesIsExtendedGreater(x, x);
      ExtendedComparisonIsTotalPreorder(x, x, x);
    }
    ExtendedComparisonIsTotalPreorder(x, x, x);
  }

  /** Entry `i` survives: no other entry beats it. */
  predicate Kept(rs: seq<CoffeeResult>, i: int)
    requires 0 <= i < |rs|
  {
    forall k :: 0 <= k < |rs| && k != i ==> !Beats(rs[k], rs[i])
  }

  /** The survivors among the first `n` entries, in list order. */
  function Survivors(rs: seq<CoffeeResult>, n: int): seq<CoffeeResult>
    requires 0 <= n <= |rs|
  {
    if n == 0 then []
    else Survivors(rs, n - 1) + (if Kept(rs, n - 1) then [rs[n - 1]] else [])
  }

  /** The nested scan of the source: each entry against every other, stopping at the first that beats it. */
  method FilterOptimalResults(results: seq<CoffeeResult>) returns (optimalResults: seq<CoffeeResult>)
    ensures optimalResults == Survivors(results, |results|)
  {
    optimalResults := [];
    var i := 0;
    while i < |results|
      invariant 0 <= i <= |results|
      invariant optimalResults == Survivors(results, i)
    {
      var currentResult := results[i];
      var isOptimal := true;
      var j := 0;
      while j < |results|
        invariant 0 <= j <= |results| && isOptimal
        invariant forall k :: 0 <= k < j && k != i ==> !Beats(results[k], currentResult)
      {
        if i == j {
          j := j + 1;
          continue;
        }
        var otherResult := results[j];
        var better := IsBetterOrEqualInAllLevels(otherResult, currentResult);
        if better {
          isOptimal := false;
          break;
        }
        var similar := AreSimilar(otherResult, currentResult);
        if similar && ExtendedComparison(otherResult, currentResult) > 0 {
          isOptimal := false;
          break;
        }
        j := j + 1;
      }
      assert isOptimal <==> Kept(results, i);
      if isOptimal {
        optimalResults := optimalResults + [currentResult];
      }
      i := i + 1;
    }
  }

  /** Being kept depends only on the value: no entry of the list beats it. */
  predicate Unbeaten(rs: seq<CoffeeResult>, x: CoffeeResult) {
    forall y :: y in rs ==> !Beats(y, x)
  }

  lemma KeptIsUnbeaten(rs: seq<CoffeeResult>, i: int)
    requires 0 <= i < |rs|
    ensures Kept(rs, i) <==> Unbeaten(rs, rs[i])
  {
    BeatsIsExtendedGreater(rs[i], rs[i]);
  }

  /** What survives among the first `n` entries: exactly those unbeaten by the whole list. */
  lemma {:induction false} SurvivorsMembers(rs: seq<CoffeeResult>, n: int, x: CoffeeResult)
    requires 0 <= n <= |rs|
    ensures x in Survivors(rs, n) <==> x in rs[..n] && Unbeaten(rs, x)
    ensures |Survivors(rs, n)| <= n
  {
    if n > 0 {
      SurvivorsMembers(rs, n - 1, x);
      KeptIsUnbeaten(rs, n - 1);
      assert rs[..n] == rs[..n - 1] + [rs[n - 1]];
    }
  }

  /** The filter keeps exactly the entries no entry beats, each as often as it occurs. */
  lemma FilterKeepsExactlyUnbeaten(rs: seq<CoffeeResult>, x: CoffeeResult)
    ensures x in Survivors(rs, |rs|) <==> x in rs && Unbeaten(rs, x)
    ensures |Survivors(rs, |rs|)| <= |rs|
  {
    SurvivorsMembers(rs, |rs|, x);
    assert rs[..|rs|] == rs;
  }

  /** `a` is `b` with some entries left out, the rest in their original order. */
  predicate Subsequence(a: seq<CoffeeResult>, b: seq<CoffeeResult>)
    decreases |b|
  {
    if b == [] then a == []
    else
      || (a != [] && a[|a| - 1] == b[|b| - 1] && Subsequence(a[..|a| - 1], b[..|b| - 1]))
      || Subsequence(a, b[..|b| - 1])
  }

  /** The survivors keep the list order of the input. */
  lemma {:induction false} SurvivorsIsSubsequence(rs: seq<CoffeeResult>, n: int)
    requires 0 <= n <= |rs|
    ensures Subsequence(Survivors(rs, n), rs[..n])
  {
    if n > 0 {
      SurvivorsIsSubsequence(rs, n - 1);
      var prev := Survivors(rs, n - 1);
      var b := rs[..n];
      assert b != [] && b[..|b| - 1] == rs[..n - 1] && b[|b| - 1] == rs[n - 1];
      if Kept(rs, n - 1) {
        var a := prev + [rs[n - 1]];
        assert a[..|a| - 1] == prev && a[|a| - 1] == rs[n - 1];
        assert Survivors(rs, n) == a;
      } else {
        assert Survivors(rs, n) == prev;
      }
    }
  }

  /** No two survivors dominate one another, nor does any input entry dominate a survivor. */
  lemma SurvivorsUndominated(rs: seq<CoffeeResult>, x: CoffeeResult, y: CoffeeResult)
    requires x in Survivors(rs, |rs|) && y in rs
    ensures !Dominates(y, x)
    ensures y in Survivors(rs, |rs|) ==> !Dominates(x, y)
  {
    FilterKeepsExactlyUnbeaten(rs, x);
    FilterKeepsExactlyUnbeaten(rs, y);
  }

  /** An entry no entry exceeds in the extended comparison. */
  lemma {:induction false} ExtendedMaximum(rs: seq<CoffeeResult>) returns (i: int)
    requires rs != []
    ensures 0 <= i < |rs|
    ensures forall k :: 0 <= k < |rs| ==> ExtendedComparison(rs[k], rs[i]) <= 0
    decreases |rs|
  {
    if |rs| == 1 {
      i := 0;
      ExtendedComparisonIsTotalPreorder(rs[0], rs[0], rs[0]);
    } else {
      var j := ExtendedMaximum(rs[1..]);
      var best := rs[j + 1];
      ExtendedComparisonIsTotalPreorder(rs[0], best, best);
      if ExtendedComparison(rs[0], best) > 0 {
        i := 0;
        forall k | 0 <= k < |rs| ensures ExtendedComparison(rs[k], rs[0]) <= 0 {
          if k > 0 {
            assert rs[k] == rs[1..][k - 1];
            ExtendedComparisonIsTotalPreorder(rs[0], best, rs[k]);
            ExtendedComparisonIsTotalPreorder(rs[k], rs[0], rs[k]);
          } else {
            ExtendedComparisonIsTotalPreorder(rs[0], rs[0], rs[0]);
          }
        }
      } else {
        i := j + 1;
        forall k | 0 <= k < |rs| ensures ExtendedComparison(rs[k], rs[i]) <= 0 {
          if k > 0 {
            assert rs[k] == rs[1..][k - 1];
          }
        }
      }
    }
  }

  /** A non-empty list keeps at least one entry: a greatest one in the extended comparison. */
  lemma FilterKeepsOne(rs: seq<CoffeeResult>)
    requires rs != []
    ensures Survivors(rs, |rs|) != []
  {
    var i := ExtendedMaximum(rs);
    forall y | y in rs ensures !Beats(y, rs[i]) {
      BeatsIsExtendedGreater(y, rs[i]);
    }
    FilterKeepsExactlyUnbeaten(rs, rs[i]);
  }

  /** Filtering the filtered list changes nothing. */
  lemma FilterIdempotent(rs: seq<CoffeeResult>)
    ensures var out := Survivors(rs, |rs|); Survivors(out, |out|) == out
  {
    var out := Survivors(rs, |rs|);
    forall i | 0 <= i < |out| ensures Kept(out, i) {
      FilterKeepsExactlyUnbeaten(rs, out[i]);
      KeptIsUnbeaten(out, i);
      forall y | y in out ensures !Beats(y, out[i]) {
        FilterKeepsExactlyUnbeaten(rs, y);
      }
    }
    AllKeptSurvive(out, |out|);
    assert out[..|out|] == out;
  }

  lemma {:induction false} AllKeptSurvive(rs: seq<CoffeeResult>, n: int)
    requires 0 <= n <= |rs|
    requires forall i :: 0 <= i < |rs| ==> Kept(rs, i)
    ensures Survivors(rs, n) == rs[..n]
  {
    if n > 0 {
      AllKeptSurvive(rs, n - 1);
      assert rs[..n] == rs[..n - 1] + [rs[n - 1]];
    }
  }
}
