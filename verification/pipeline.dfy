/** The base table the dashboard builds once (untitled91.py:36-87) and the
    statistics page over its filtered rows (untitled91.py:116-178). */
module Pipeline {
  import opened Wrappers
  import opened Table
  import Text
  import CodeMapper
  import Normalizer
  import Merger
  import Composite
  import FilterEngine
  import Comparison
  import Seqs

  /** Why no base table could be built. */
  datatype Failure =
    | NoSourceData                          // the fetch failed or returned an empty frame
    | Normalization(error: Normalizer.Error)

  /** `df.empty`: a frame without rows or without columns. */
  predicate EmptyFrame(t: RawTable)
  {
    |t.rows| == 0 || |t.columns| == 0
  }

  /** Fetch result, normalisation with the fixed code table, merge with the
      supplementary rows and the composite column. `fetched` is `None` when the
      request did not return status 200. */
  function BaseTable(fetched: Option<RawTable>, supplementary: seq<Merger.Supplementary>, show: real -> string)
    : (r: Result<seq<Scored>, Failure>)
    ensures r.Failure? <==>
              fetched.None? || EmptyFrame(fetched.value)
              || Normalizer.Normalize(fetched.value, CodeMapper.Mapping, show).Failure?
    ensures r.Success? ==>
              |r.value| == |Normalizer.Normalize(fetched.value, CodeMapper.Mapping, show).value| + |supplementary|
    ensures r.Success? ==> forall i :: 0 <= i < |r.value| ==>
              && r.value[i].row.category in CodeMapper.Mapping.Values + {Merger.SupplementaryLabel}
              && 5.0 * r.value[i].total == Composite.Sum(r.value[i].row.scores)
  {
    if fetched.None? || EmptyFrame(fetched.value) then Failure(NoSourceData)
    else
      match Normalizer.Normalize(fetched.value, CodeMapper.Mapping, show)
      case Failure(e) => Failure(Normalization(e))
      case Success(primary) =>
        var merged := Merger.Merge(primary, supplementary);
        Merger.MergeCategories(primary, supplementary, CodeMapper.Mapping.Values);
        Success(Composite.Augment(merged))
  }

  /** The combined table is the normalised rows in order, then the tagged
      supplementary rows in order, each with its composite. */
  lemma BaseTableRows(fetched: Option<RawTable>, supplementary: seq<Merger.Supplementary>, show: real -> string)
    requires BaseTable(fetched, supplementary, show).Success?
    ensures var r := BaseTable(fetched, supplementary, show).value;
            var p := Normalizer.Normalize(fetched.value, CodeMapper.Mapping, show).value;
            && |r| == |p| + |supplementary|
            && (forall i :: 0 <= i < |p| ==> r[i].row == p[i])
            && (forall j :: 0 <= j < |supplementary| ==> r[|p| + j].row == Merger.Tag(supplementary[j]))
  {
    var p := Normalizer.Normalize(fetched.value, CodeMapper.Mapping, show).value;
    var merged := Merger.Merge(p, supplementary);
    assert BaseTable(fetched, supplementary, show).value == Composite.Augment(merged);
    forall i | 0 <= i < |p|
      ensures merged[i] == p[i]
    {
      assert merged[i] == merged[..|p|][i];
    }
  }

  /** The statistics page for the sidebar's year range, chosen categories and
      measure. It shows "no data" exactly when no row of the base table passes
      the filter, so in particular when no category is chosen. */
  function StatisticsPage(base: seq<Scored>, lo: int, hi: int, chosen: seq<string>, m: Metric,
                          pValue: (seq<real>, seq<real>) -> real): (v: Comparison.Verdict)
    ensures v == Comparison.NoData <==> forall i :: 0 <= i < |base| ==> !FilterEngine.Selected(base[i], lo, hi, chosen)
    ensures |chosen| == 0 ==> v == Comparison.NoData
  {
    var shown := FilterEngine.Filter(base, lo, hi, chosen);
    assert |shown| > 0 ==> shown[0] in base && FilterEngine.Selected(shown[0], lo, hi, chosen);
    FilterEngine.EmptySelection(base, lo, hi);
    Comparison.Analyse(shown, chosen, m, pValue)
  }

  /** When the supplementary label is not chosen, the supplementary rows never
      reach the filtered table. */
  lemma SupplementaryIgnoredWhenUnchosen(primary: seq<Row>, supplementary: seq<Merger.Supplementary>,
                                         lo: int, hi: int, chosen: seq<string>)
    requires Merger.SupplementaryLabel !in chosen
    ensures FilterEngine.Filter(Composite.Augment(Merger.Merge(primary, supplementary)), lo, hi, chosen)
            == FilterEngine.Filter(Composite.Augment(primary), lo, hi, chosen)
  {
    var merged := Merger.Merge(primary, supplementary);
    var tags := merged[|primary|..];
    assert merged == primary + tags;
    Composite.AugmentAppend(primary, tags);
    FilterEngine.FilterAppend(Composite.Augment(primary), Composite.Augment(tags), lo, hi, chosen);
    var scoredTags := Composite.Augment(tags);
    forall x | x in scoredTags
      ensures !FilterEngine.SelectedBy(lo, hi, chosen)(x)
    {
      var i :| 0 <= i < |scoredTags| && scoredTags[i] == x;
      assert tags[i] == merged[|primary| + i];
    }
    Seqs.KeepNone(scoredTags, FilterEngine.SelectedBy(lo, hi, chosen));
  }

  /** Comparing two categories of the code table, for instance "Primary education"
      and "Higher education", gives the same verdict whatever supplementary rows were merged in. */
  lemma StatisticsIgnoreSupplementary(primary: seq<Row>, supplementary: seq<Merger.Supplementary>,
                                      lo: int, hi: int, chosen: seq<string>, m: Metric,
                                      pValue: (seq<real>, seq<real>) -> real)
    requires Merger.SupplementaryLabel !in chosen
    ensures StatisticsPage(Composite.Augment(Merger.Merge(primary, supplementary)), lo, hi, chosen, m, pValue)
            == StatisticsPage(Composite.Augment(primary), lo, hi, chosen, m, pValue)
  {
    SupplementaryIgnoredWhenUnchosen(primary, supplementary, lo, hi, chosen);
  }

  /** A raw row of the remote data set with a padded code, a period with a
      suffix, and one column outside the eight relevant ones. */
  const SampleRow: RawRow := map[
    "ID" := Number(1.0), "Kenmerken" := Text(" 3000 "), "Perioden" := Text("2019JJ00"),
    "ScoreHappiness_1" := Number(8.0), "ScoreWorkSatisfaction_13" := Number(6.0),
    "ScoreSatisfactionMentalHealth_29" := Number(7.0), "ScoreSatisfactionSocialLife_57" := Number(9.0),
    "ScoreSatisfactionDailyActivities_21" := Number(5.0), "Remarks" := Text("ok")]

  const SampleColumns: seq<string> := Normalizer.RelevantColumns + ["Remarks"]

  /** The sample row is complete and its stripped code "3000" is mapped. */
  lemma SampleComplete()
    ensures Normalizer.Complete(SampleColumns, SampleRow)
  {
    forall c | c in SampleColumns
      ensures Get(SampleRow, c) != Null
    {
      assert c in SampleRow.Keys;
    }
  }

  lemma SampleCode(show: real -> string)
    ensures Normalizer.CleanCode(SampleRow, show) == "3000"
  {
    assert Get(SampleRow, Normalizer.CodeColumn) == Text(" 3000 ");
    Text.StripExample();
  }

  lemma SampleMappable(show: real -> string)
    ensures Normalizer.Complete(SampleColumns, SampleRow)
    ensures Normalizer.CleanCode(SampleRow, show) == "3000"
    ensures Normalizer.Mappable(SampleRow, CodeMapper.Mapping, show)
    ensures CodeMapper.Mapping["3000"] == "Male"
  {
    SampleComplete();
    SampleCode(show);
    assert "3000" in CodeMapper.Mapping;
  }

  /** Its projection carries the label "Male" and the other cells unchanged. */
  lemma SampleLabel(show: real -> string)
    requires Normalizer.Mappable(SampleRow, CodeMapper.Mapping, show)
    requires CodeMapper.Mapping[Normalizer.CleanCode(SampleRow, show)] == "Male"
    ensures Normalizer.Label(SampleRow, CodeMapper.Mapping, show) == SampleSurvivor
  {
  }

  lemma SampleSurvives(show: real -> string)
    ensures Normalizer.Survivors(SampleColumns, [SampleRow], CodeMapper.Mapping, show)
            == [SampleSurvivor]
  {
    SampleMappable(show);
    SampleLabel(show);
    assert [SampleRow][1..] == [];
  }

  /** The survivor's period reads as 2019 and its scores are numbers. */
  lemma SampleConverts(show: real -> string)
    ensures Normalizer.Convertible(SampleSurvivor, show)
    ensures Normalizer.ToRow(SampleSurvivor, show) == Row(Number(1.0), "Male", 2019, Five(8.0, 6.0, 7.0, 9.0, 5.0))
  {
    Text.PeriodExample();
  }

  const SampleTable: RawTable := RawTable(SampleColumns, [SampleRow])

  const SampleSurvivor: Normalizer.Labelled := Normalizer.Labelled(
    Number(1.0), "Male", Text("2019JJ00"), Five(Number(8.0), Number(6.0), Number(7.0), Number(9.0), Number(5.0)))

  /** The sample table has every relevant column and its one survivor converts. */
  lemma SampleHasNoFault(show: real -> string)
    ensures !exists c :: c in Normalizer.RelevantColumns && c !in SampleTable.columns
    ensures var s := Normalizer.Survivors(SampleTable.columns, SampleTable.rows, CodeMapper.Mapping, show);
            !exists i :: 0 <= i < |s| && !Normalizer.Convertible(s[i], show)
  {
    SampleSurvives(show);
    SampleConverts(show);
    assert forall c :: c in Normalizer.RelevantColumns ==> c in SampleTable.columns;
  }

  lemma SampleSucceeds(show: real -> string)
    ensures Normalizer.Normalize(SampleTable, CodeMapper.Mapping, show).Success?
  {
    SampleHasNoFault(show);
    Normalizer.NormalizeFails(SampleTable, CodeMapper.Mapping, show);
  }

  /** The code " 3000 " becomes "Male" and "2019JJ00" becomes 2019. */
  lemma NormalizeSample(show: real -> string)
    ensures Normalizer.Normalize(SampleTable, CodeMapper.Mapping, show)
            == Success([Row(Number(1.0), "Male", 2019, Five(8.0, 6.0, 7.0, 9.0, 5.0))])
  {
    SampleSucceeds(show);
    SampleSurvives(show);
    SampleConverts(show);
    Normalizer.OneSurvivor(SampleTable, CodeMapper.Mapping, show, SampleSurvivor);
  }

  /** A null in a column outside the eight relevant ones still drops the row. */
  lemma NullOutsideProjectionDrops(show: real -> string)
    ensures Normalizer.Normalize(RawTable(SampleColumns, [SampleRow["Remarks" := Null]]), CodeMapper.Mapping, show)
            == Success([])
  {
    var row := SampleRow["Remarks" := Null];
    assert !Normalizer.Complete(SampleColumns, row) by {
      assert "Remarks" in SampleColumns;
    }
    assert Normalizer.FirstMissing(Normalizer.RelevantColumns, SampleColumns).None?;
    Normalizer.LoneDroppedRow(SampleColumns, row, CodeMapper.Mapping, show);
  }
}
