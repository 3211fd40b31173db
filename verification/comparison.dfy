/** The gate in front of the two-group t-test on the statistics page
    (untitled91.py:122, 159-179). The test itself is an input: `pValue` stands
    for the p-value of `stats.ttest_ind(a, b, equal_var=False)`. */
module Comparison {
  import opened Table
  import Seqs

  /** The fixed significance threshold. */
  const Alpha: real := 0.05

  function InCategory(c: string): Scored -> bool
  {
    (s: Scored) => s.row.category == c
  }

  /** `filtered_df[filtered_df["Kenmerken"] == c][metric]`: the chosen measure
      of each row of category `c`, in table order. */
  function Group(rows: seq<Scored>, c: string, m: Metric): (g: seq<real>)
    ensures |g| == |Seqs.Keep(rows, InCategory(c))|
    ensures forall i :: 0 <= i < |g| ==> g[i] == Measure(Seqs.Keep(rows, InCategory(c))[i], m)
  {
    var k := Seqs.Keep(rows, InCategory(c));
    seq(|k|, i requires 0 <= i < |k| => Measure(k[i], m))
  }

  /** The number of rows of category `c`, counted directly. */
  function Count(rows: seq<Scored>, c: string): nat
  {
    if |rows| == 0 then 0
    else (if rows[0].row.category == c then 1 else 0) + Count(rows[1..], c)
  }

  /** A group holds one value per row of its category. */
  lemma {:induction false} GroupSize(rows: seq<Scored>, c: string, m: Metric)
    ensures |Group(rows, c, m)| == Count(rows, c)
  {
    if |rows| > 0 {
      assert rows == [rows[0]] + rows[1..];
      Seqs.KeepAppend([rows[0]], rows[1..], InCategory(c));
      Seqs.KeepSingleton(rows[0], InCategory(c));
      GroupSize(rows[1..], c, m);
    }
  }

  /** Appending a row to the table appends its measure to its own group only. */
  lemma GroupSnoc(rows: seq<Scored>, x: Scored, c: string, m: Metric)
    ensures Group(rows + [x], c, m) == Group(rows, c, m) + (if x.row.category == c then [Measure(x, m)] else [])
  {
    Seqs.KeepAppend(rows, [x], InCategory(c));
    Seqs.KeepSingleton(x, InCategory(c));
    var k := Seqs.Keep(rows, InCategory(c));
    var k' := Seqs.Keep(rows + [x], InCategory(c));
    assert k' == k + Seqs.Keep([x], InCategory(c));
    var g := Group(rows + [x], c, m);
    var h := Group(rows, c, m) + (if x.row.category == c then [Measure(x, m)] else []);
    assert |g| == |h|;
    forall i | 0 <= i < |g|
      ensures g[i] == h[i]
    {
      if i < |k| {
        assert k'[i] == k[i];
      } else {
        assert k'[i] == x;
      }
    }
  }

  /** Every chosen category's group has one value per row of that category. */
  lemma GroupSizes(rows: seq<Scored>, chosen: seq<string>, m: Metric)
    ensures forall k :: 0 <= k < |chosen| ==> |Group(rows, chosen[k], m)| == Count(rows, chosen[k])
  {
    forall k | 0 <= k < |chosen|
      ensures |Group(rows, chosen[k], m)| == Count(rows, chosen[k])
    {
      GroupSize(rows, chosen[k], m);
    }
  }

  /** What the statistics page shows. */
  datatype Verdict =
    | NoData            // the filtered table is empty
    | TooFewGroups      // fewer than two categories chosen
    | InsufficientData  // some chosen category has at most one row
    | Compared(first: seq<real>, second: seq<real>, p: real, significant: bool)

  /** Every chosen category has more than one row in the filtered table. */
  predicate EnoughData(rows: seq<Scored>, chosen: seq<string>)
  {
    forall i :: 0 <= i < |chosen| ==> Count(rows, chosen[i]) > 1
  }

  /** The page's decision: an empty table first, then fewer than two chosen
      categories, then a category with too few rows, and otherwise the test on
      the groups of the first two chosen categories, significant when p < 0.05. */
  function Analyse(rows: seq<Scored>, chosen: seq<string>, m: Metric, pValue: (seq<real>, seq<real>) -> real): (v: Verdict)
    ensures v.Compared? ==> |chosen| >= 2 && v.first == Group(rows, chosen[0], m) && v.second == Group(rows, chosen[1], m)
    ensures v.Compared? ==> |v.first| > 1 && |v.second| > 1
    ensures v.Compared? ==> v.p == pValue(v.first, v.second) && (v.significant <==> v.p < Alpha)
    ensures v == NoData <==> |rows| == 0
    ensures v == TooFewGroups <==> |rows| > 0 && |chosen| < 2
    ensures v == InsufficientData <==>
              |rows| > 0 && |chosen| >= 2 && exists k :: 0 <= k < |chosen| && |Group(rows, chosen[k], m)| <= 1
  {
    GroupSizes(rows, chosen, m);
    if |rows| == 0 then NoData
    else if |chosen| <= 1 then TooFewGroups
    else if !EnoughData(rows, chosen) then InsufficientData
    else
      var a := Group(rows, chosen[0], m);
      var b := Group(rows, chosen[1], m);
      GroupSize(rows, chosen[0], m);
      GroupSize(rows, chosen[1], m);
      var p := pValue(a, b);
      Compared(a, b, p, p < Alpha)
  }

  /** One group collected by a scan over the table. */
  method CollectGroup(rows: seq<Scored>, c: string, m: Metric) returns (g: seq<real>)
    ensures g == Group(rows, c, m)
  {
    g := [];
    var j := 0;
    while j < |rows|
      invariant 0 <= j <= |rows|
      invariant g == Group(rows[..j], c, m)
    {
      GroupSnoc(rows[..j], rows[j], c, m);
      assert rows[..j + 1] == rows[..j] + [rows[j]];
      if rows[j].row.category == c {
        g := g + [Measure(rows[j], m)];
      }
      j := j + 1;
    }
    assert rows[..j] == rows;
  }

  /** `[filtered_df[filtered_df["Kenmerken"] == c][metric] for c in chosen]`. */
  method CollectGroups(rows: seq<Scored>, chosen: seq<string>, m: Metric) returns (groups: seq<seq<real>>)
    ensures |groups| == |chosen|
    ensures forall i :: 0 <= i < |chosen| ==> groups[i] == Group(rows, chosen[i], m)
  {
    groups := [];
    var k := 0;
    while k < |chosen|
      invariant 0 <= k <= |chosen|
      invariant |groups| == k
      invariant forall i :: 0 <= i < k ==> groups[i] == Group(rows, chosen[i], m)
    {
      var g := CollectGroup(rows, chosen[k], m);
      groups := groups + [g];
      k := k + 1;
    }
  }

  /** `all(len(group) > 1 for group in groups)`. */
  method AllLarge(groups: seq<seq<real>>) returns (enough: bool)
    ensures enough <==> forall i :: 0 <= i < |groups| ==> |groups[i]| > 1
  {
    enough := true;
    var k := 0;
    while k < |groups|
      invariant 0 <= k <= |groups|
      invariant enough <==> forall i :: 0 <= i < k ==> |groups[i]| > 1
    {
      enough := enough && |groups[k]| > 1;
      k := k + 1;
    }
  }

  /** The page as the source runs it: the list of groups, one per chosen
      category, then the `all` check, then the test on groups 0 and 1. */
  method RunAnalysis(rows: seq<Scored>, chosen: seq<string>, m: Metric, pValue: (seq<real>, seq<real>) -> real)
    returns (v: Verdict)
    ensures v == Analyse(rows, chosen, m, pValue)
  {
    if |rows| == 0 {
      return NoData;
    }
    if |chosen| <= 1 {
      return TooFewGroups;
    }
    var groups := CollectGroups(rows, chosen, m);
    var enough := AllLarge(groups);
    forall i | 0 <= i < |chosen|
      ensures |groups[i]| == Count(rows, chosen[i])
    {
      GroupSize(rows, chosen[i], m);
    }
    if !enough {
      assert !EnoughData(rows, chosen);
      return InsufficientData;
    }
    assert EnoughData(rows, chosen);
    var p := pValue(groups[0], groups[1]);
    v := Compared(groups[0], groups[1], p, p < Alpha);
  }

  /** The test runs exactly when the table is non-empty, at least two
      categories are chosen and each of them has more than one row. */
  lemma ComparedExactly(rows: seq<Scored>, chosen: seq<string>, m: Metric, pValue: (seq<real>, seq<real>) -> real)
    ensures Analyse(rows, chosen, m, pValue).Compared? <==> |rows| > 0 && |chosen| >= 2 && EnoughData(rows, chosen)
  {
  }

  /** Only the first two chosen categories are compared: choices that agree on
      them and both have enough data give the same verdict. */
  lemma OnlyFirstTwoCompared(rows: seq<Scored>, chosen: seq<string>, other: seq<string>, m: Metric,
                             pValue: (seq<real>, seq<real>) -> real)
    requires |rows| > 0 && |chosen| >= 2 && |other| >= 2
    requires chosen[0] == other[0] && chosen[1] == other[1]
    requires EnoughData(rows, chosen) && EnoughData(rows, other)
    ensures Analyse(rows, chosen, m, pValue) == Analyse(rows, other, m, pValue)
  {
  }

  /** A short group blocks the test even when it is not one of the two that
      would be compared. */
  lemma ShortLaterGroupBlocks(rows: seq<Scored>, chosen: seq<string>, k: int, m: Metric,
                              pValue: (seq<real>, seq<real>) -> real)
    requires |rows| > 0 && 2 <= k < |chosen|
    requires |Group(rows, chosen[k], m)| <= 1
    ensures Analyse(rows, chosen, m, pValue) == InsufficientData
  {
    GroupSize(rows, chosen[k], m);
  }

  /** When at least one category is chosen and each has more than one row, the
      table has at least two rows, so "no data" never hides a runnable test. */
  lemma {:induction false} EnoughDataNeedsRows(rows: seq<Scored>, chosen: seq<string>)
    requires |chosen| >= 1 && EnoughData(rows, chosen)
    ensures |rows| >= 2
  {
    CountBound(rows, chosen[0]);
  }

  lemma {:induction false} CountBound(rows: seq<Scored>, c: string)
    ensures Count(rows, c) <= |rows|
  {
    if |rows| > 0 {
      CountBound(rows[1..], c);
    }
  }

  /** A p-value at or above the threshold is never significant. A NaN p-value,
      which `ttest_ind` gives for two constant groups with equal means,
      compares false with 0.05 and so behaves like any p >= 0.05 here. */
  lemma NotSignificantAboveAlpha(rows: seq<Scored>, chosen: seq<string>, m: Metric,
                                 pValue: (seq<real>, seq<real>) -> real)
    requires Analyse(rows, chosen, m, pValue).Compared?
    requires Analyse(rows, chosen, m, pValue).p >= Alpha
    ensures !Analyse(rows, chosen, m, pValue).significant
  {
  }
}
