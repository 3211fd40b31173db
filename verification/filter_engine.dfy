/** The year-range and category filter over the base table
    (untitled91.py:99-101, 116-119) and the choices the sidebar offers
    (untitled91.py:90-97). */
module FilterEngine {
  import opened Wrappers
  import opened Table
  import Seqs
  import Merger

  /** `Perioden.between(lo, hi)` (both ends included) and `Kenmerken.isin(chosen)`. */
  predicate Selected(s: Scored, lo: int, hi: int, chosen: seq<string>)
  {
    lo <= s.row.year <= hi && s.row.category in chosen
  }

  function SelectedBy(lo: int, hi: int, chosen: seq<string>): Scored -> bool
  {
    s => Selected(s, lo, hi, chosen)
  }

  /** The rows whose year lies in `[lo, hi]` and whose category was chosen, in table order. */
  function Filter(rows: seq<Scored>, lo: int, hi: int, chosen: seq<string>): (r: seq<Scored>)
    ensures |r| <= |rows|
    ensures forall i :: 0 <= i < |r| ==> r[i] in rows && lo <= r[i].row.year <= hi && r[i].row.category in chosen
    ensures forall i :: 0 <= i < |rows| && lo <= rows[i].row.year <= hi && rows[i].row.category in chosen ==>
              rows[i] in r
  {
    Seqs.Keep(rows, SelectedBy(lo, hi, chosen))
  }

  /** Filtering keeps table order: the rows kept from the first part of a table
      precede those kept from the rest. */
  lemma FilterAppend(a: seq<Scored>, b: seq<Scored>, lo: int, hi: int, chosen: seq<string>)
    ensures Filter(a + b, lo, hi, chosen) == Filter(a, lo, hi, chosen) + Filter(b, lo, hi, chosen)
  {
    Seqs.KeepAppend(a, b, SelectedBy(lo, hi, chosen));
  }

  /** Nothing chosen, nothing shown, whatever the year range. */
  lemma EmptySelection(rows: seq<Scored>, lo: int, hi: int)
    ensures Filter(rows, lo, hi, []) == []
  {
    Seqs.KeepNone(rows, SelectedBy(lo, hi, []));
  }

  /** Filtering again with the same settings changes nothing. */
  lemma FilterIdempotent(rows: seq<Scored>, lo: int, hi: int, chosen: seq<string>)
    ensures Filter(Filter(rows, lo, hi, chosen), lo, hi, chosen) == Filter(rows, lo, hi, chosen)
  {
    Seqs.KeepIdempotent(rows, SelectedBy(lo, hi, chosen));
  }

  /** `(min_jaar, max_jaar)`: the least and the greatest year of the table, or
      `None` for an empty table. Both are years of some row, and every row's
      year lies between them. */
  function YearSpan(rows: seq<Scored>): (r: Option<(int, int)>)
    ensures r.None? <==> |rows| == 0
    ensures r.Some? ==> forall i :: 0 <= i < |rows| ==> r.value.0 <= rows[i].row.year <= r.value.1
    ensures r.Some? ==> exists i :: 0 <= i < |rows| && rows[i].row.year == r.value.0
    ensures r.Some? ==> exists i :: 0 <= i < |rows| && rows[i].row.year == r.value.1
  {
    if |rows| == 0 then None
    else
      var y := rows[0].row.year;
      match YearSpan(rows[1..])
      case None => Some((y, y))
      case Some((lo, hi)) =>
        assert forall i :: 1 <= i < |rows| ==> rows[i] == rows[1..][i - 1];
        Some((if y < lo then y else lo, if y > hi then y else hi))
  }

  function InCategories(chosen: seq<string>): Scored -> bool
  {
    (s: Scored) => s.row.category in chosen
  }

  /** With the slider at its default, the table's own year span, the year test
      excludes nothing: only the category choice decides. */
  lemma FullSpanKeepsEveryYear(rows: seq<Scored>, chosen: seq<string>)
    requires YearSpan(rows).Some?
    ensures Filter(rows, YearSpan(rows).value.0, YearSpan(rows).value.1, chosen)
            == Seqs.Keep(rows, InCategories(chosen))
  {
    var (lo, hi) := YearSpan(rows).value;
    forall x | x in rows
      ensures SelectedBy(lo, hi, chosen)(x) == InCategories(chosen)(x)
    {
      var i :| 0 <= i < |rows| && rows[i] == x;
    }
    Seqs.KeepCongruent(rows, SelectedBy(lo, hi, chosen), InCategories(chosen));
  }

  /** The categories the sidebar's multiselect offers, all of them chosen by default. */
  const EducationOptions: seq<string> := [
    "No education", "Primary education", "Secondary education", "Higher education",
    "Vocational training", "Other education", Merger.SupplementaryLabel]

  /** With the default choice, rows for the totals, the sexes and the age groups
      never pass the filter: only education levels and the supplementary rows do. */
  lemma DefaultChoiceExcludesOtherCategories(rows: seq<Scored>, lo: int, hi: int)
    ensures forall i :: 0 <= i < |Filter(rows, lo, hi, EducationOptions)| ==>
              Filter(rows, lo, hi, EducationOptions)[i].row.category !in
                {"Total persons", "Male", "Female", "18-24 years", "25-34 years", "35-44 years",
                 "45-54 years", "55-64 years", "65+ years"}
  {
  }
}
