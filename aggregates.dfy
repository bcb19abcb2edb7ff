/**
 * The pandas reductions `generate_answer` uses: `sum`, `idxmax`, and the
 * chain `groupby("Crop")["Production"].sum().sort_values(ascending=False)
 * .head(3).index.tolist()`.
 */
module Aggregates {
  import opened Wrappers
  import opened Tables

  /** A missing value adds nothing, as pandas' `sum` skips missing entries. */
  function Amount(v: Option<int>): int {
    v.GetOr(0)
  }

  function Sum(s: seq<int>): int {
    if s == [] then 0 else s[0] + Sum(s[1..])
  }

  function RainfallValues(rows: seq<Row>): (vs: seq<int>)
    ensures |vs| == |rows|
    ensures forall i :: 0 <= i < |rows| ==> vs[i] == Amount(rows[i].annualRainfall)
  {
    if rows == [] then [] else [Amount(rows[0].annualRainfall)] + RainfallValues(rows[1..])
  }

  function ProductionValues(rows: seq<Row>): (vs: seq<int>)
    ensures |vs| == |rows|
    ensures forall i :: 0 <= i < |rows| ==> vs[i] == Amount(rows[i].production)
  {
    if rows == [] then [] else [Amount(rows[0].production)] + ProductionValues(rows[1..])
  }

  /**
   * `idxmax`: the position of the first element that attains the maximum.
   */
  function ArgMax(s: seq<int>): (k: nat)
    requires |s| > 0
    ensures k < |s|
    ensures forall j :: 0 <= j < |s| ==> s[j] <= s[k]
    ensures forall j :: 0 <= j < k ==> s[j] < s[k]
  {
    if |s| == 1 then 0
    else
      var k := ArgMax(s[..|s| - 1]);
      assert forall j :: 0 <= j < |s| - 1 ==> s[..|s| - 1][j] == s[j];
      if s[|s| - 1] > s[k] then |s| - 1 else k
  }

  // ------------------------------------------------------ group by crop

  predicate Distinct<T(==)>(s: seq<T>) {
    forall i, j :: 0 <= i < j < |s| ==> s[i] != s[j]
  }

  /** Some row names crop `c`. */
  ghost predicate Grown(rows: seq<Row>, c: string) {
    exists i :: 0 <= i < |rows| && rows[i].crop == Some(c)
  }

  /** The group keys of `groupby("Crop")`: each crop name once; rows without a crop form no group. */
  function Crops(rows: seq<Row>): (cs: seq<string>)
    ensures Distinct(cs)
    ensures forall c :: c in cs <==> Grown(rows, c)
  {
    if rows == [] then []
    else
      var init := rows[..|rows| - 1];
      var prev := Crops(init);
      var last := rows[|rows| - 1];
      assert forall i :: 0 <= i < |init| ==> init[i] == rows[i];
      assert forall c :: Grown(rows, c) <==> Grown(init, c) || last.crop == Some(c) by {
        forall c | Grown(rows, c) ensures Grown(init, c) || last.crop == Some(c) {
          var i :| 0 <= i < |rows| && rows[i].crop == Some(c);
          if i < |init| {
            assert init[i].crop == Some(c);
          }
        }
        forall c | last.crop == Some(c) ensures Grown(rows, c) {
          assert rows[|rows| - 1].crop == Some(c);
        }
      }
      if last.crop.Some? && last.crop.value !in prev then prev + [last.crop.value] else prev
  }

  /** The summed production of crop `c`. */
  function CropTotal(rows: seq<Row>, c: string): int {
    if rows == [] then 0
    else (if rows[0].crop == Some(c) then Amount(rows[0].production) else 0) + CropTotal(rows[1..], c)
  }

  datatype Total = Total(crop: string, sum: int)

  /**
   * `groupby("Crop")["Production"].sum()`: one entry per group key, each a
   * distinct grown crop with its own summed production, and no grown crop
   * missing.
   */
  function Totals(rows: seq<Row>): (ts: seq<Total>)
    ensures |ts| == |Crops(rows)|
    ensures forall i, j :: 0 <= i < j < |ts| ==> ts[i].crop != ts[j].crop
    ensures forall i :: 0 <= i < |ts| ==> Grown(rows, ts[i].crop) && ts[i].sum == CropTotal(rows, ts[i].crop)
    ensures forall c :: Grown(rows, c) ==> exists j :: 0 <= j < |ts| && ts[j].crop == c
  {
    var cs := Crops(rows);
    var ts := seq(|cs|, i requires 0 <= i < |cs| => Total(cs[i], CropTotal(rows, cs[i])));
    assert forall i :: 0 <= i < |ts| ==> ts[i].crop == cs[i] && cs[i] in cs;
    assert forall c :: Grown(rows, c) ==> exists j :: 0 <= j < |ts| && ts[j].crop == c by {
      forall c | Grown(rows, c) ensures exists j :: 0 <= j < |ts| && ts[j].crop == c {
        assert c in cs;
        var k :| 0 <= k < |cs| && cs[k] == c;
        assert ts[k].crop == c;
      }
    }
    ts
  }

  // ----------------------------------------------------------- sort

  predicate NonIncreasing(s: seq<Total>) {
    forall i, j :: 0 <= i < j < |s| ==> s[i].sum >= s[j].sum
  }

  function InsertDescending(t: Total, s: seq<Total>): (r: seq<Total>)
    requires NonIncreasing(s)
    ensures NonIncreasing(r)
    ensures multiset(r) == multiset(s) + multiset{t}
  {
    if s == [] then [t]
    else if t.sum >= s[0].sum then [t] + s
    else
      var rest := InsertDescending(t, s[1..]);
      assert s == [s[0]] + s[1..];
      forall x | x in rest ensures x.sum <= s[0].sum {
        assert x in multiset(rest);
        if x != t {
          assert x in s[1..];
        }
      }
      PrependNonIncreasing(s[0], rest);
      [s[0]] + rest
  }

  lemma PrependNonIncreasing(x: Total, s: seq<Total>)
    requires NonIncreasing(s)
    requires forall y :: y in s ==> y.sum <= x.sum
    ensures NonIncreasing([x] + s)
  {
    var r := [x] + s;
    forall i, j | 0 <= i < j < |r| ensures r[i].sum >= r[j].sum {
      assert r[j] == s[j - 1];
      if i > 0 {
        assert r[i] == s[i - 1];
      }
    }
  }

  /** `sort_values(ascending=False)`: the totals reordered, largest first. */
  function SortDescending(s: seq<Total>): (r: seq<Total>)
    ensures NonIncreasing(r)
    ensures multiset(r) == multiset(s)
  {
    if s == [] then []
    else
      assert s == [s[0]] + s[1..];
      InsertDescending(s[0], SortDescending(s[1..]))
  }

  /** A sequence is free of repeats exactly when no element occurs twice in its multiset. */
  lemma {:induction false} DistinctMultiset<T>(s: seq<T>)
    ensures Distinct(s) <==> forall x :: multiset(s)[x] <= 1
  {
    if s != [] {
      DistinctMultiset(s[1..]);
      assert s == [s[0]] + s[1..];
      if Distinct(s) {
        assert s[0] !in s[1..];
        assert Distinct(s[1..]);
      } else {
        var i, j :| 0 <= i < j < |s| && s[i] == s[j];
        if i == 0 {
          assert s[j] in s[1..];
          assert multiset(s)[s[0]] >= 2;
        } else {
          assert !Distinct(s[1..]) by { assert s[1..][i - 1] == s[1..][j - 1]; }
          var x :| multiset(s[1..])[x] > 1;
          assert multiset(s)[x] >= multiset(s[1..])[x];
        }
      }
    }
  }

  /**
   * The whole chain, ending in `.head(3).index.tolist()`: at most three
   * distinct grown crops, by non-increasing summed production, and no crop
   * left out that sums to more than the last one listed.
   */
  function TopThree(rows: seq<Row>): (top: seq<string>)
    ensures |top| == if |Crops(rows)| < 3 then |Crops(rows)| else 3
    ensures Distinct(top)
    ensures forall i :: 0 <= i < |top| ==> Grown(rows, top[i])
    ensures forall i, j :: 0 <= i < j < |top| ==> CropTotal(rows, top[i]) >= CropTotal(rows, top[j])
    ensures forall c :: Grown(rows, c) && c !in top ==> |top| == 3 && CropTotal(rows, c) <= CropTotal(rows, top[2])
  {
    var sorted := SortDescending(Totals(rows));
    RankedTotals(rows);
    var n := if |sorted| < 3 then |sorted| else 3;
    var top := seq(n, i requires 0 <= i < n => sorted[i].crop);
    PrefixOrdered(rows, sorted, top);
    PrefixComplete(rows, sorted, top);
    top
  }

  /**
   * The sorted totals hold each grown crop exactly once, each with its own
   * summed production.
   */
  lemma RankedTotals(rows: seq<Row>)
    ensures var sorted := SortDescending(Totals(rows));
      && |sorted| == |Crops(rows)|
      && Distinct(sorted)
      && (forall i :: 0 <= i < |sorted| ==> sorted[i].sum == CropTotal(rows, sorted[i].crop) && Grown(rows, sorted[i].crop))
      && (forall c :: Grown(rows, c) ==> exists j :: 0 <= j < |sorted| && sorted[j].crop == c)
      && (forall i, j :: 0 <= i < j < |sorted| ==> sorted[i].crop != sorted[j].crop)
  {
    var totals := Totals(rows);
    var sorted := SortDescending(totals);
    assert |sorted| == |totals| by {
      assert |multiset(sorted)| == |multiset(totals)|;
    }
    assert Distinct(sorted) by {
      assert Distinct(totals) by {
        forall i, j | 0 <= i < j < |totals| ensures totals[i] != totals[j] {
          assert totals[i].crop != totals[j].crop;
        }
      }
      DistinctMultiset(totals);
      DistinctMultiset(sorted);
    }
    forall i | 0 <= i < |sorted|
      ensures sorted[i].sum == CropTotal(rows, sorted[i].crop) && Grown(rows, sorted[i].crop)
    {
      assert sorted[i] in multiset(sorted);
      assert sorted[i] in totals;
      var k :| 0 <= k < |totals| && totals[k] == sorted[i];
    }
    forall c | Grown(rows, c) ensures exists j :: 0 <= j < |sorted| && sorted[j].crop == c {
      var k :| 0 <= k < |totals| && totals[k].crop == c;
      assert totals[k] in multiset(totals);
      assert totals[k] in sorted;
      var j :| 0 <= j < |sorted| && sorted[j] == totals[k];
      assert sorted[j].crop == c;
    }
    forall i, j | 0 <= i < j < |sorted| ensures sorted[i].crop != sorted[j].crop {
      assert sorted[i] == Total(sorted[i].crop, CropTotal(rows, sorted[i].crop));
      assert sorted[j] == Total(sorted[j].crop, CropTotal(rows, sorted[j].crop));
    }
  }

  /** A prefix of the ranked totals lists distinct grown crops, by non-increasing sum. */
  lemma PrefixOrdered(rows: seq<Row>, sorted: seq<Total>, top: seq<string>)
    requires NonIncreasing(sorted)
    requires forall i :: 0 <= i < |sorted| ==> sorted[i].sum == CropTotal(rows, sorted[i].crop) && Grown(rows, sorted[i].crop)
    requires forall i, j :: 0 <= i < j < |sorted| ==> sorted[i].crop != sorted[j].crop
    requires |top| <= |sorted| && forall m :: 0 <= m < |top| ==> top[m] == sorted[m].crop
    ensures Distinct(top)
    ensures forall i :: 0 <= i < |top| ==> Grown(rows, top[i])
    ensures forall i, j :: 0 <= i < j < |top| ==> CropTotal(rows, top[i]) >= CropTotal(rows, top[j])
  {
    forall i, j | 0 <= i < j < |top| ensures top[i] != top[j] && CropTotal(rows, top[i]) >= CropTotal(rows, top[j]) {
      assert sorted[i].sum >= sorted[j].sum;
    }
  }

  /** Every grown crop the first three (or fewer) ranked totals leave out sums to no more than the third. */
  lemma PrefixComplete(rows: seq<Row>, sorted: seq<Total>, top: seq<string>)
    requires NonIncreasing(sorted)
    requires forall i :: 0 <= i < |sorted| ==> sorted[i].sum == CropTotal(rows, sorted[i].crop)
    requires forall c :: Grown(rows, c) ==> exists j :: 0 <= j < |sorted| && sorted[j].crop == c
    requires |top| == if |sorted| < 3 then |sorted| else 3
    requires forall m :: 0 <= m < |top| ==> top[m] == sorted[m].crop
    ensures forall c :: Grown(rows, c) && c !in top ==> |top| == 3 && CropTotal(rows, c) <= CropTotal(rows, top[2])
  {
    forall c | Grown(rows, c) && c !in top
      ensures |top| == 3 && CropTotal(rows, c) <= CropTotal(rows, top[2])
    {
      var j :| 0 <= j < |sorted| && sorted[j].crop == c;
      assert j >= |top| by {
        assert forall m :: 0 <= m < |top| ==> top[m] == sorted[m].crop;
      }
      assert sorted[2].sum >= sorted[j].sum;
    }
  }
}
