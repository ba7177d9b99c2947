/**
  The search's result collection: a `HashSet<CoffeeBreakResults>` whose equality is the value
  equality of results (the five counts and the two remaining resources, not the log). It is
  kept as the sequence of stored results in insertion order; adding a result whose value is
  already stored leaves the collection as it is, so the first representative stays.
 */
module ResultSet {
  import opened CoffeeResults

  /** No two stored results have the same value. */
  predicate Distinct(rs: seq<CoffeeResult>) {
    forall i, j :: 0 <= i < j < |rs| ==> Key(rs[i]) != Key(rs[j])
  }

  /** The values stored, as a set. */
  function Keys(rs: seq<CoffeeResult>): set<CoffeeResult> {
    set r | r in rs :: Key(r)
  }

  lemma KeysOfAppend(rs: seq<CoffeeResult>, r: CoffeeResult)
    ensures Keys(rs + [r]) == Keys(rs) + {Key(r)}
  {
    forall k | k in Keys(rs + [r]) ensures k in Keys(rs) + {Key(r)} {
      var x :| x in rs + [r] && Key(x) == k;
      if x != r { assert x in rs; }
    }
    forall k | k in Keys(rs) ensures k in Keys(rs + [r]) {
      var x :| x in rs && Key(x) == k;
      assert x in rs + [r];
    }
    assert r in rs + [r];
  }

  /** `HashSet.Add`: store `r` unless a result of the same value is already stored. */
  function Add(rs: seq<CoffeeResult>, r: CoffeeResult): (rs': seq<CoffeeResult>)
    ensures Keys(rs') == Keys(rs) + {Key(r)}
    ensures rs <= rs' && |rs'| <= |rs| + 1
    ensures |rs'| == |rs| + 1 <==> Key(r) !in Keys(rs)
    ensures |rs'| == |rs| + 1 ==> rs'[|rs|] == r
    ensures Distinct(rs) ==> Distinct(rs')
  {
    if Key(r) in Keys(rs) then rs
    else
      KeysOfAppend(rs, r);
      assert forall i :: 0 <= i < |rs| ==> Key(rs[i]) in Keys(rs);
      rs + [r]
  }

  /** Adding a value a second time changes nothing. */
  lemma AddIdempotent(rs: seq<CoffeeResult>, r: CoffeeResult, r': CoffeeResult)
    requires Key(r') == Key(r)
    ensures Add(Add(rs, r), r') == Add(rs, r)
  {
  }

  /** Without duplicates the collection holds exactly one result per stored value. */
  lemma {:induction false} DistinctCount(rs: seq<CoffeeResult>)
    requires Distinct(rs)
    ensures |Keys(rs)| == |rs|
    decreases |rs|
  {
    if rs != [] {
      var init, last := rs[..|rs| - 1], rs[|rs| - 1];
      assert rs == init + [last];
      assert Distinct(init);
      DistinctCount(init);
      KeysOfAppend(init, last);
    }
  }
}
