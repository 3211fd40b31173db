/** The append of the supplementary rows after the normalised remote rows
    (untitled91.py:42, 80). */
module Merger {
  import opened Table

  /** The constant category every supplementary row is given. */
  const SupplementaryLabel: string := "Team 7"

  /** A row of the local supplementary file: an identifier (null when the file
      has none), an integer year and the five scores; its category is set by
      the merge. */
  datatype Supplementary = Supplementary(id: Cell, year: int, scores: Five<real>)

  /** A supplementary row as a row of the combined table. */
  function Tag(s: Supplementary): Row
  {
    Row(s.id, SupplementaryLabel, s.year, s.scores)
  }

  /** `pd.concat([df, new_df], ignore_index=True)` with the constant category:
      the primary rows unchanged and in order, then one row per supplementary
      row, in order, carrying its year, scores and identifier. */
  function Merge(primary: seq<Row>, supplementary: seq<Supplementary>): (r: seq<Row>)
    ensures |r| == |primary| + |supplementary|
    ensures r[..|primary|] == primary
    ensures forall i :: 0 <= i < |supplementary| ==>
              && r[|primary| + i].category == SupplementaryLabel
              && r[|primary| + i].id == supplementary[i].id
              && r[|primary| + i].year == supplementary[i].year
              && r[|primary| + i].scores == supplementary[i].scores
  {
    primary + seq(|supplementary|, i requires 0 <= i < |supplementary| => Tag(supplementary[i]))
  }

  /** Every category of the combined table is a category of the primary rows
      or the supplementary label. */
  lemma MergeCategories(primary: seq<Row>, supplementary: seq<Supplementary>, known: set<string>)
    requires forall i :: 0 <= i < |primary| ==> primary[i].category in known
    ensures forall i :: 0 <= i < |Merge(primary, supplementary)| ==>
              Merge(primary, supplementary)[i].category in known + {SupplementaryLabel}
  {
    var r := Merge(primary, supplementary);
    forall i | 0 <= i < |r|
      ensures r[i].category in known + {SupplementaryLabel}
    {
      if i < |primary| {
        assert r[i] == r[..|primary|][i];
      } else {
        assert r[|primary| + (i - |primary|)].category == SupplementaryLabel;
      }
    }
  }

  /** The merge is an append: with no supplementary rows the primary rows come
      back unchanged, and merging two batches one after the other is merging
      their concatenation. */
  lemma MergeAppend(primary: seq<Row>, s1: seq<Supplementary>, s2: seq<Supplementary>)
    ensures Merge(primary, []) == primary
    ensures Merge(Merge(primary, s1), s2) == Merge(primary, s1 + s2)
  {
    var left := Merge(Merge(primary, s1), s2);
    var right := Merge(primary, s1 + s2);
    assert Merge(primary, []) == primary by {
      assert Merge(primary, [])[..|primary|] == primary;
    }
    forall i | 0 <= i < |right|
      ensures left[i] == right[i]
    {
      var m1 := Merge(primary, s1);
      if i < |primary| {
        assert left[i] == left[..|m1|][i] == m1[i] == m1[..|primary|][i];
        assert right[i] == right[..|primary|][i];
      } else if i < |m1| {
        assert left[i] == left[..|m1|][i] == m1[i];
        assert m1[|primary| + (i - |primary|)] == Tag(s1[i - |primary|]);
        assert right[|primary| + (i - |primary|)] == Tag((s1 + s2)[i - |primary|]);
      } else {
        assert left[|m1| + (i - |m1|)] == Tag(s2[i - |m1|]);
        assert right[|primary| + (i - |primary|)] == Tag((s1 + s2)[i - |primary|]);
      }
    }
  }
}
