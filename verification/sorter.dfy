/**
  Ordering the results for display. A comparer walks a list of sorting criteria: for a level
  criterion the result with more slots of that level comes first, for the total criterion the
  result with fewer slots in all comes first; the first criterion that tells the two apart
  decides, and the length of the action log (a missing log counts as empty) breaks the
  remaining ties. Sorting is a stable sort by that comparer.

  The reference for the comparer is a key vector per result, compared lexicographically.
 */
module Sorter {
  import opened Wrappers
  import opened CoffeeResults

  datatype SortingCriterion = Level5Slots | Level4Slots | Level3Slots | Level2Slots | Level1Slots | TotalSlots

  /** `a.CompareTo(b)` on integers: the sign of `a - b`. */
  function CompareTo(a: int, b: int): (c: int)
    ensures c == 0 <==> a == b
    ensures c < 0 <==> a < b
    ensures -1 <= c <= 1
  {
    if a < b then -1 else if a > b then 1 else 0
  }

  /** One criterion: a level compares the counts the other way round, the total in the natural order. */
  function CriterionCompare(c: SortingCriterion, x: CoffeeResult, y: CoffeeResult): int {
    match c
    case Level5Slots => CompareTo(y.level5, x.level5)
    case Level4Slots => CompareTo(y.level4, x.level4)
    case Level3Slots => CompareTo(y.level3, x.level3)
    case Level2Slots => CompareTo(y.level2, x.level2)
    case Level1Slots => CompareTo(y.level1, x.level1)
    case TotalSlots => CompareTo(TotalSpellSlots(x), TotalSpellSlots(y))
  }

  /** The number of logged actions, a missing log counting as none. */
  function ActionCount(r: CoffeeResult): nat {
    match r.actionsTaken
    case None => 0
    case Some(actions) => |actions|
  }

  /** The comparer on two present results: the first deciding criterion, else the log lengths. */
  function CompareResults(criteria: seq<SortingCriterion>, x: CoffeeResult, y: CoffeeResult): (c: int)
    ensures -1 <= c <= 1
  {
    if criteria == [] then CompareTo(ActionCount(x), ActionCount(y))
    else
      var comparison := CriterionCompare(criteria[0], x, y);
      if comparison != 0 then comparison else CompareResults(criteria[1..], x, y)
  }

  /** The comparer as called by the framework: a missing result compares equal to anything. */
  function Compare(criteria: seq<SortingCriterion>, x: Option<CoffeeResult>, y: Option<CoffeeResult>): int {
    if x.None? || y.None? then 0 else CompareResults(criteria, x.value, y.value)
  }

  /** Reference: the value a criterion sorts by in ascending order. */
  function CriterionKey(c: SortingCriterion, r: CoffeeResult): int {
    match c
    case Level5Slots => -r.level5
    case Level4Slots => -r.level4
    case Level3Slots => -r.level3
    case Level2Slots => -r.level2
    case Level1Slots => -r.level1
    case TotalSlots => TotalSpellSlots(r)
  }

  /** Reference: the criteria's keys in order, then the log length. */
  function SortKey(criteria: seq<SortingCriterion>, r: CoffeeResult): (v: seq<int>)
    ensures |v| == |criteria| + 1
  {
    seq(|criteria|, i requires 0 <= i < |criteria| => CriterionKey(criteria[i], r)) + [ActionCount(r)]
  }

  /** Lexicographic comparison of two vectors of the same length. */
  function LexCompare(a: seq<int>, b: seq<int>): (c: int)
    requires |a| == |b|
    ensures -1 <= c <= 1
  {
    if a == [] then 0
    else if a[0] != b[0] then CompareTo(a[0], b[0])
    else LexCompare(a[1..], b[1..])
  }

  lemma {:induction false} LexZeroIffEqual(a: seq<int>, b: seq<int>)
    requires |a| == |b|
    ensures LexCompare(a, b) == 0 <==> a == b
  {
    if a != [] && a[0] == b[0] {
      LexZeroIffEqual(a[1..], b[1..]);
      if a[1..] == b[1..] {
        assert a == [a[0]] + a[1..] && b == [b[0]] + b[1..];
      }
    }
  }

  lemma {:induction false} LexAntisymmetric(a: seq<int>, b: seq<int>)
    requires |a| == |b|
    ensures LexCompare(a, b) == -LexCompare(b, a)
  {
    if a != [] && a[0] == b[0] {
      LexAntisymmetric(a[1..], b[1..]);
    }
  }

  /** Lexicographic order is transitive, and strictly so when either step is strict. */
  lemma {:induction false} LexTransitive(a: seq<int>, b: seq<int>, c: seq<int>)
    requires |a| == |b| == |c|
    requires LexCompare(a, b) <= 0 && LexCompare(b, c) <= 0
    ensures LexCompare(a, c) <= 0
    ensures LexCompare(a, b) < 0 || LexCompare(b, c) < 0 ==> LexCompare(a, c) < 0
  {
    if a != [] && a[0] == b[0] == c[0] {
      LexTransitive(a[1..], b[1..], c[1..]);
    }
  }

  lemma SortKeyUnfold(criteria: seq<SortingCriterion>, r: CoffeeResult)
    requires criteria != []
    ensures SortKey(criteria, r) == [CriterionKey(criteria[0], r)] + SortKey(criteria[1..], r)
  {
    var v, w := SortKey(criteria, r), [CriterionKey(criteria[0], r)] + SortKey(criteria[1..], r);
    assert |v| == |w|;
    forall i | 0 <= i < |v| ensures v[i] == w[i] {
      if 0 < i < |criteria| {
        assert w[i] == SortKey(criteria[1..], r)[i - 1] == CriterionKey(criteria[1..][i - 1], r);
      }
    }
  }

  lemma CriterionIsKeyOrder(c: SortingCriterion, x: CoffeeResult, y: CoffeeResult)
    ensures CriterionCompare(c, x, y) == CompareTo(CriterionKey(c, x), CriterionKey(c, y))
  {
  }

  /** The comparer is the lexicographic order of the key vectors. */
  lemma {:induction false} CompareIsLexOnKeys(criteria: seq<SortingCriterion>, x: CoffeeResult, y: CoffeeResult)
    ensures CompareResults(criteria, x, y) == LexCompare(SortKey(criteria, x), SortKey(criteria, y))
    decreases |criteria|
  {
    if criteria == [] {
      assert SortKey(criteria, x) == [ActionCount(x)] && SortKey(criteria, y) == [ActionCount(y)];
    } else {
      SortKeyUnfold(criteria, x);
      SortKeyUnfold(criteria, y);
      CriterionIsKeyOrder(criteria[0], x, y);
      var kx, ky := SortKey(criteria, x), SortKey(criteria, y);
      assert kx[1..] == SortKey(criteria[1..], x) && ky[1..] == SortKey(criteria[1..], y);
      CompareIsLexOnKeys(criteria[1..], x, y);
    }
  }

  /**
    The comparer is a total preorder: each result compares equal to itself, swapping the
    arguments flips the sign, and it is transitive (strictly so when a step is strict). Two
    results compare equal exactly when their key vectors agree.
   */
  lemma CompareIsTotalPreorder(criteria: seq<SortingCriterion>, x: CoffeeResult, y: CoffeeResult, z: CoffeeResult)
    ensures CompareResults(criteria, x, x) == 0
    ensures CompareResults(criteria, x, y) == -CompareResults(criteria, y, x)
    ensures CompareResults(criteria, x, y) == 0 <==> SortKey(criteria, x) == SortKey(criteria, y)
    ensures CompareResults(criteria, x, y) <= 0 && CompareResults(criteria, y, z) <= 0 ==>
              CompareResults(criteria, x, z) <= 0
    ensures CompareResults(criteria, x, y) < 0 && CompareResults(criteria, y, z) <= 0 ==>
              CompareResults(criteria, x, z) < 0
    ensures CompareResults(criteria, x, y) <= 0 && CompareResults(criteria, y, z) < 0 ==>
              CompareResults(criteria, x, z) < 0
  {
    CompareIsLexOnKeys(criteria, x, x);
    CompareIsLexOnKeys(criteria, x, y);
    CompareIsLexOnKeys(criteria, y, x);
    CompareIsLexOnKeys(criteria, y, z);
    CompareIsLexOnKeys(criteria, x, z);
    var kx, ky, kz := SortKey(criteria, x), SortKey(criteria, y), SortKey(criteria, z);
    LexZeroIffEqual(kx, kx);
    LexZeroIffEqual(kx, ky);
    LexAntisymmetric(kx, ky);
    if LexCompare(kx, ky) <= 0 && LexCompare(ky, kz) <= 0 {
      LexTransitive(kx, ky, kz);
    }
  }

  /** With no criteria only the log lengths count; a missing result ties with anything. */
  lemma CompareTieBreak(x: CoffeeResult, y: CoffeeResult, criteria: seq<SortingCriterion>)
    ensures CompareResults([], x, y) < 0 <==> ActionCount(x) < ActionCount(y)
    ensures Compare(criteria, None, Some(y)) == 0 && Compare(criteria, Some(x), None) == 0
  {
  }

  /** A level criterion puts more slots of its level first; the total criterion puts fewer slots first. */
  lemma CriterionDirection(c: SortingCriterion, rest: seq<SortingCriterion>, x: CoffeeResult, y: CoffeeResult)
    ensures var criteria := [c] + rest;
      && (c.Level5Slots? && x.level5 > y.level5 ==> CompareResults(criteria, x, y) < 0)
      && (c.Level4Slots? && x.level4 > y.level4 ==> CompareResults(criteria, x, y) < 0)
      && (c.Level3Slots? && x.level3 > y.level3 ==> CompareResults(criteria, x, y) < 0)
      && (c.Level2Slots? && x.level2 > y.level2 ==> CompareResults(criteria, x, y) < 0)
      && (c.Level1Slots? && x.level1 > y.level1 ==> CompareResults(criteria, x, y) < 0)
      && (c.TotalSlots? && TotalSpellSlots(x) < TotalSpellSlots(y) ==> CompareResults(criteria, x, y) < 0)
      && (CriterionCompare(c, x, y) == 0 ==> CompareResults(criteria, x, y) == CompareResults(rest, x, y))
  {
    assert ([c] + rest)[1..] == rest;
  }

  /** Sorted by the comparer: no pair out of order. */
  predicate Sorted(criteria: seq<SortingCriterion>, s: seq<CoffeeResult>) {
    forall i, j :: 0 <= i < j < |s| ==> CompareResults(criteria, s[i], s[j]) <= 0
  }

  /** Insert `x` before the first element it does not follow, so it precedes its equals. */
  function Insert(criteria: seq<SortingCriterion>, x: CoffeeResult, s: seq<CoffeeResult>): (t: seq<CoffeeResult>)
    ensures multiset(t) == multiset(s) + multiset{x}
    ensures |t| == |s| + 1
  {
    if s == [] then [x]
    else if CompareResults(criteria, x, s[0]) <= 0 then [x] + s
    else
      assert s == [s[0]] + s[1..];
      [s[0]] + Insert(criteria, x, s[1..])
  }

  /** `OrderBy` with the comparer: a stable sort, modelled as an insertion sort. */
  function SortResults(criteria: seq<SortingCriterion>, rs: seq<CoffeeResult>): (out: seq<CoffeeResult>)
    ensures multiset(out) == multiset(rs)
  {
    if rs == [] then []
    else
      assert rs == [rs[0]] + rs[1..];
      Insert(criteria, rs[0], SortResults(criteria, rs[1..]))
  }

  lemma {:induction false} InsertSorted(criteria: seq<SortingCriterion>, x: CoffeeResult, s: seq<CoffeeResult>)
    requires Sorted(criteria, s)
    ensures Sorted(criteria, Insert(criteria, x, s))
    decreases |s|
  {
    var t := Insert(criteria, x, s);
    if s == [] {
    } else if CompareResults(criteria, x, s[0]) <= 0 {
      forall j | 0 < j < |t| ensures CompareResults(criteria, t[0], t[j]) <= 0 {
        assert t[j] == s[j - 1];
        if j > 1 {
          CompareIsTotalPreorder(criteria, x, s[0], s[j - 1]);
        }
      }
    } else {
      InsertSorted(criteria, x, s[1..]);
      var u := Insert(criteria, x, s[1..]);
      assert t == [s[0]] + u;
      forall j | 0 <= j < |u| ensures CompareResults(criteria, s[0], u[j]) <= 0 {
        assert u[j] in multiset(u);
        assert u[j] == x || u[j] in multiset(s[1..]);
        if u[j] == x {
          CompareIsTotalPreorder(criteria, x, s[0], s[0]);
        } else {
          var k :| 0 <= k < |s[1..]| && s[1..][k] == u[j];
          assert s[k + 1] == u[j];
        }
      }
    }
  }

  /** The sorted output is in order and a permutation of the input. */
  lemma {:induction false} SortResultsSorted(criteria: seq<SortingCriterion>, rs: seq<CoffeeResult>)
    ensures Sorted(criteria, SortResults(criteria, rs))
    ensures multiset(SortResults(criteria, rs)) == multiset(rs)
    decreases |rs|
  {
    if rs != [] {
      SortResultsSorted(criteria, rs[1..]);
      InsertSorted(criteria, rs[0], SortResults(criteria, rs[1..]));
    }
  }

  /** The elements of `s` that compare equal to `e`, in order. */
  function Ties(criteria: seq<SortingCriterion>, s: seq<CoffeeResult>, e: CoffeeResult): seq<CoffeeResult> {
    if s == [] then []
    else (if CompareResults(criteria, s[0], e) == 0 then [s[0]] else []) + Ties(criteria, s[1..], e)
  }

  /** Two results that do not compare equal cannot both tie with a third. */
  lemma NotBothTies(criteria: seq<SortingCriterion>, x: CoffeeResult, y: CoffeeResult, e: CoffeeResult)
    requires CompareResults(criteria, x, y) != 0
    ensures !(CompareResults(criteria, x, e) == 0 && CompareResults(criteria, y, e) == 0)
  {
    CompareIsTotalPreorder(criteria, x, e, y);
    CompareIsTotalPreorder(criteria, e, y, e);
  }

  /** Inserting into a sorted sequence puts `x` first among its equals. */
  lemma {:induction false} InsertTies(criteria: seq<SortingCriterion>, x: CoffeeResult, s: seq<CoffeeResult>,
                                      e: CoffeeResult)
    requires Sorted(criteria, s)
    ensures Ties(criteria, Insert(criteria, x, s), e)
            == (if CompareResults(criteria, x, e) == 0 then [x] else []) + Ties(criteria, s, e)
    decreases |s|
  {
    var t := Insert(criteria, x, s);
    if s == [] {
      assert t[1..] == [];
    } else if CompareResults(criteria, x, s[0]) <= 0 {
      assert t[1..] == s;
    } else {
      assert t[1..] == Insert(criteria, x, s[1..]);
      InsertTies(criteria, x, s[1..], e);
      NotBothTies(criteria, x, s[0], e);
    }
  }

  /** Stability: among results that compare equal, the sorted output keeps the input order. */
  lemma {:induction false} SortResultsStable(criteria: seq<SortingCriterion>, rs: seq<CoffeeResult>, e: CoffeeResult)
    ensures Ties(criteria, SortResults(criteria, rs), e) == Ties(criteria, rs, e)
    decreases |rs|
  {
    if rs != [] {
      SortResultsStable(criteria, rs[1..], e);
      SortResultsSorted(criteria, rs[1..]);
      InsertTies(criteria, rs[0], SortResults(criteria, rs[1..]), e);
    }
  }
}
