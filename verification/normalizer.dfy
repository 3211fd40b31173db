/** The clean-up of the remote data set (untitled91.py:67-77): drop rows with
    a null anywhere, project to the eight relevant columns, strip the category
    code, keep only mapped codes and replace them by their labels, and turn the
    period into a year. */
module Normalizer {
  import opened Wrappers
  import opened Table
  import Text
  import Seqs

  /** Why normalisation of the whole batch fails. */
  datatype Error =
    | MissingColumn(name: string)   // the projection's KeyError
    | BadPeriod(prefix: string)     // `int()` rejects the first four characters of a period
    | NonNumericScore               // a kept row has a text score, which the composite cannot add

  const IdColumn: string := "ID"
  const CodeColumn: string := "Kenmerken"
  const PeriodColumn: string := "Perioden"
  const ScoreColumns: Five<string> := Five(
    "ScoreHappiness_1", "ScoreWorkSatisfaction_13", "ScoreSatisfactionMentalHealth_29",
    "ScoreSatisfactionSocialLife_57", "ScoreSatisfactionDailyActivities_21")
  const RelevantColumns: seq<string> := [
    IdColumn, CodeColumn, PeriodColumn, ScoreColumns.happiness, ScoreColumns.work,
    ScoreColumns.mentalHealth, ScoreColumns.socialLife, ScoreColumns.dailyActivities]

  // ---------------------------------------------------------------------------
  // Step 1: dropna over every column of the frame

  /** No column of the frame is null in `row`. */
  predicate Complete(columns: seq<string>, row: RawRow)
  {
    forall c :: c in columns ==> Get(row, c) != Null
  }

  function CompleteIn(columns: seq<string>): RawRow -> bool
  {
    row => Complete(columns, row)
  }

  /** `df.dropna()`: the rows without a null in any column, in order. */
  function DropIncomplete(t: RawTable): (r: seq<RawRow>)
    ensures |r| <= |t.rows|
    ensures forall i :: 0 <= i < |r| ==> r[i] in t.rows && Complete(t.columns, r[i])
    ensures forall i :: 0 <= i < |t.rows| && Complete(t.columns, t.rows[i]) ==> t.rows[i] in r
  {
    Seqs.Keep(t.rows, CompleteIn(t.columns))
  }

  // ---------------------------------------------------------------------------
  // Step 2: projection, which raises KeyError for a column the frame lacks

  /** The first of `wanted` that is not among `columns`. */
  function FirstMissing(wanted: seq<string>, columns: seq<string>): (r: Option<string>)
    ensures r.None? <==> forall c :: c in wanted ==> c in columns
    ensures r.Some? ==> r.value in wanted && r.value !in columns
  {
    if |wanted| == 0 then None
    else if wanted[0] !in columns then Some(wanted[0])
    else FirstMissing(wanted[1..], columns)
  }

  // ---------------------------------------------------------------------------
  // Steps 3 and 4: strip the code, keep mapped codes, replace them by labels

  /** `astype(str)` of one cell; `show` is pandas' rendering of a number. A
      null cell never reaches `astype(str)`, because `dropna` runs first; it is
      mapped to "nan" only to make the function total. */
  function AsStr(c: Cell, show: real -> string): string
  {
    match c
    case Text(s) => s
    case Number(x) => show(x)
    case Null => "nan"
  }

  /** The category code of `row` after `astype(str).str.strip()`. */
  function CleanCode(row: RawRow, show: real -> string): string
  {
    Text.Strip(AsStr(Get(row, CodeColumn), show))
  }

  predicate Mappable(row: RawRow, codes: map<string, string>, show: real -> string)
  {
    CleanCode(row, show) in codes
  }

  /** A projected row whose code has been replaced by its label. */
  datatype Labelled = Labelled(id: Cell, category: string, period: Cell, scores: Five<Cell>)

  function Label(row: RawRow, codes: map<string, string>, show: real -> string): Labelled
    requires Mappable(row, codes, show)
  {
    Labelled(
      Get(row, IdColumn),
      codes[CleanCode(row, show)],
      Get(row, PeriodColumn),
      Five(Get(row, ScoreColumns.happiness), Get(row, ScoreColumns.work),
           Get(row, ScoreColumns.mentalHealth), Get(row, ScoreColumns.socialLife),
           Get(row, ScoreColumns.dailyActivities)))
  }

  function MappableBy(codes: map<string, string>, show: real -> string): RawRow -> bool
  {
    row => Mappable(row, codes, show)
  }

  /** Projection, strip, `isin(mapping.keys())` and `map(mapping)` over the rows
      that survived `dropna`: the `i`-th result is the `i`-th row with a mapped code. */
  function Relabel(rows: seq<RawRow>, codes: map<string, string>, show: real -> string): (r: seq<Labelled>)
    ensures |r| == |Seqs.Keep(rows, MappableBy(codes, show))|
    ensures forall i :: 0 <= i < |r| ==> r[i].category in codes.Values
    ensures forall i :: 0 <= i < |r| ==> r[i] == Label(Seqs.Keep(rows, MappableBy(codes, show))[i], codes, show)
  {
    var kept := Seqs.Keep(rows, MappableBy(codes, show));
    seq(|kept|, i requires 0 <= i < |kept| => Label(kept[i], codes, show))
  }

  // ---------------------------------------------------------------------------
  // Step 5: the period's first four characters become the year

  function PeriodPrefix(l: Labelled, show: real -> string): string
  {
    Text.Prefix(AsStr(l.period, show), 4)
  }

  /** `int(str(period)[:4])`, or `None` where `int()` raises. */
  function Year(l: Labelled, show: real -> string): Option<int>
  {
    Text.ParseInt(PeriodPrefix(l, show))
  }

  function ReadsYear(show: real -> string): Labelled -> bool
  {
    l => Year(l, show).Some?
  }

  /** The first period prefix `int()` rejects, in row order. */
  function FirstBadPeriod(ls: seq<Labelled>, show: real -> string): (r: Option<string>)
    ensures r.None? <==> forall i :: 0 <= i < |ls| ==> Year(ls[i], show).Some?
    ensures r.Some? ==> exists i :: && 0 <= i < |ls| && Year(ls[i], show).None? && PeriodPrefix(ls[i], show) == r.value
                                    && forall j :: 0 <= j < i ==> Year(ls[j], show).Some?
  {
    match Seqs.FirstFailing(ls, ReadsYear(show))
    case None => None
    case Some(i) => Some(PeriodPrefix(ls[i], show))
  }

  function AsReal(c: Cell): Option<real>
  {
    if c.Number? then Some(c.x) else None
  }

  /** The five scores as numbers, or `None` when one of them is not a number. */
  function Numeric(f: Five<Cell>): (r: Option<Five<real>>)
    ensures r.Some? <==> f.happiness.Number? && f.work.Number? && f.mentalHealth.Number?
                         && f.socialLife.Number? && f.dailyActivities.Number?
    ensures r.Some? ==> r.value == Five(f.happiness.x, f.work.x, f.mentalHealth.x, f.socialLife.x, f.dailyActivities.x)
  {
    match (AsReal(f.happiness), AsReal(f.work), AsReal(f.mentalHealth), AsReal(f.socialLife), AsReal(f.dailyActivities))
    case (Some(a), Some(b), Some(c), Some(d), Some(e)) => Some(Five(a, b, c, d, e))
    case _ => None
  }

  predicate Convertible(l: Labelled, show: real -> string)
  {
    Year(l, show).Some? && Numeric(l.scores).Some?
  }

  function ToRow(l: Labelled, show: real -> string): Row
    requires Convertible(l, show)
  {
    Row(l.id, l.category, Year(l, show).value, Numeric(l.scores).value)
  }

  /** The year conversion of line 77 over all kept rows, and the numeric
      reading of their scores that the composite of line 83 needs. A bad period
      anywhere fails the batch before any score is looked at. */
  function Finish(ls: seq<Labelled>, show: real -> string): (r: Result<seq<Row>, Error>)
    ensures r.Success? <==> forall i :: 0 <= i < |ls| ==> Convertible(ls[i], show)
    ensures r.Success? ==> |r.value| == |ls| && forall i :: 0 <= i < |ls| ==> r.value[i] == ToRow(ls[i], show)
    ensures r.Failure? && r.error.BadPeriod? ==>
              exists i :: 0 <= i < |ls| && Year(ls[i], show).None? && PeriodPrefix(ls[i], show) == r.error.prefix
    ensures r.Failure? ==> !r.error.MissingColumn?
  {
    match FirstBadPeriod(ls, show)
    case Some(p) => Failure(BadPeriod(p))
    case None =>
      if forall i :: 0 <= i < |ls| ==> Numeric(ls[i].scores).Some? then
        Success(seq(|ls|, i requires 0 <= i < |ls| => ToRow(ls[i], show)))
      else Failure(NonNumericScore)
  }

  /** Every row that survives `dropna` and the mapping carries a known label
      and, when the frame has an identifier column, an identifier; so does the
      row the year conversion makes of it. */
  lemma SurvivorWellFormed(t: RawTable, codes: map<string, string>, show: real -> string, i: int)
    requires IdColumn in t.columns
    requires 0 <= i < |Relabel(DropIncomplete(t), codes, show)|
    requires Convertible(Relabel(DropIncomplete(t), codes, show)[i], show)
    ensures ToRow(Relabel(DropIncomplete(t), codes, show)[i], show).id != Null
    ensures ToRow(Relabel(DropIncomplete(t), codes, show)[i], show).category in codes.Values
  {
    var kept := Seqs.Keep(DropIncomplete(t), MappableBy(codes, show));
    assert kept[i] in DropIncomplete(t);
    assert Complete(t.columns, kept[i]);
  }

  /** Lines 67-77 as one step: the normalised rows, or the error that aborts
      the batch. Every row that comes out carries a known label and an identifier. */
  function Normalize(t: RawTable, codes: map<string, string>, show: real -> string): (r: Result<seq<Row>, Error>)
    ensures r.Success? ==> forall i :: 0 <= i < |r.value| ==>
              r.value[i].category in codes.Values && r.value[i].id != Null
  {
    match FirstMissing(RelevantColumns, t.columns)
    case Some(c) => Failure(MissingColumn(c))
    case None =>
      assert IdColumn in t.columns by {
        assert IdColumn == RelevantColumns[0];
      }
      var ls := Relabel(DropIncomplete(t), codes, show);
      var r := Finish(ls, show);
      assert r.Success? ==> forall i :: 0 <= i < |r.value| ==>
               r.value[i].category in codes.Values && r.value[i].id != Null by {
        if r.Success? {
          forall i | 0 <= i < |r.value|
            ensures r.value[i].category in codes.Values && r.value[i].id != Null
          {
            SurvivorWellFormed(t, codes, show, i);
          }
        }
      }
      r
  }

  // ---------------------------------------------------------------------------
  // A one-pass reference for which raw rows survive, and what the source's
  // stage-by-stage pipeline makes of them

  /** The labelled rows a single pass over the raw rows keeps: a row survives
      exactly when it is complete and its stripped code is mapped. */
  function Survivors(columns: seq<string>, rows: seq<RawRow>, codes: map<string, string>, show: real -> string): seq<Labelled>
  {
    if |rows| == 0 then []
    else Survivor(columns, rows[0], codes, show) + Survivors(columns, rows[1..], codes, show)
  }

  /** What the single pass keeps of one raw row: its label, or nothing. */
  function Survivor(columns: seq<string>, row: RawRow, codes: map<string, string>, show: real -> string): seq<Labelled>
  {
    if Complete(columns, row) && Mappable(row, codes, show) then [Label(row, codes, show)] else []
  }

  lemma RelabelAppend(a: seq<RawRow>, b: seq<RawRow>, codes: map<string, string>, show: real -> string)
    ensures Relabel(a + b, codes, show) == Relabel(a, codes, show) + Relabel(b, codes, show)
  {
    Seqs.KeepAppend(a, b, MappableBy(codes, show));
    var ka := Seqs.Keep(a, MappableBy(codes, show));
    var kb := Seqs.Keep(b, MappableBy(codes, show));
    assert Seqs.Keep(a + b, MappableBy(codes, show)) == ka + kb;
    forall i | 0 <= i < |Relabel(a + b, codes, show)|
      ensures Relabel(a + b, codes, show)[i] == (Relabel(a, codes, show) + Relabel(b, codes, show))[i]
    {
      if i >= |ka| {
        assert (ka + kb)[i] == kb[i - |ka|];
      }
    }
  }

  lemma RelabelSingleton(x: RawRow, codes: map<string, string>, show: real -> string)
    ensures Relabel([x], codes, show) == if Mappable(x, codes, show) then [Label(x, codes, show)] else []
  {
    Seqs.KeepSingleton(x, MappableBy(codes, show));
  }

  /** The source's two passes (`dropna`, then the mapping filter) keep the same
      rows, in the same order, as the single pass. */
  lemma {:induction false} SurvivorsMatch(columns: seq<string>, rows: seq<RawRow>, codes: map<string, string>, show: real -> string)
    ensures Relabel(Seqs.Keep(rows, CompleteIn(columns)), codes, show) == Survivors(columns, rows, codes, show)
  {
    if |rows| > 0 {
      var x := rows[0];
      assert rows == [x] + rows[1..];
      Seqs.KeepAppend([x], rows[1..], CompleteIn(columns));
      Seqs.KeepSingleton(x, CompleteIn(columns));
      var head := Seqs.Keep([x], CompleteIn(columns));
      var tail := Seqs.Keep(rows[1..], CompleteIn(columns));
      RelabelAppend(head, tail, codes, show);
      if Complete(columns, x) {
        RelabelSingleton(x, codes, show);
      }
      SurvivorsMatch(columns, rows[1..], codes, show);
    }
  }

  /** Survival is decided row by row: the survivors of a concatenation are the
      survivors of its first part followed by those of its second part. */
  lemma {:induction false} SurvivorsAppend(columns: seq<string>, a: seq<RawRow>, b: seq<RawRow>, codes: map<string, string>, show: real -> string)
    ensures Survivors(columns, a + b, codes, show) == Survivors(columns, a, codes, show) + Survivors(columns, b, codes, show)
  {
    if |a| > 0 {
      assert (a + b)[0] == a[0];
      assert (a + b)[1..] == a[1..] + b;
      assert Survivors(columns, a + b, codes, show) == Survivor(columns, a[0], codes, show) + Survivors(columns, a[1..] + b, codes, show);
      SurvivorsAppend(columns, a[1..], b, codes, show);
    } else {
      assert a + b == b;
    }
  }

  /** A labelled row is among the survivors exactly when it is the label of a
      complete raw row whose stripped code is mapped. */
  lemma {:induction false} SurvivorMembership(columns: seq<string>, rows: seq<RawRow>, codes: map<string, string>, show: real -> string, l: Labelled)
    ensures l in Survivors(columns, rows, codes, show) <==>
            exists j :: 0 <= j < |rows| && Complete(columns, rows[j]) && Mappable(rows[j], codes, show) && l == Label(rows[j], codes, show)
  {
    if |rows| > 0 {
      SurvivorMembership(columns, rows[1..], codes, show, l);
      if l in Survivors(columns, rows[1..], codes, show) {
        var j :| 0 <= j < |rows[1..]| && Complete(columns, rows[1..][j]) && Mappable(rows[1..][j], codes, show)
                 && l == Label(rows[1..][j], codes, show);
        assert rows[1..][j] == rows[j + 1];
      }
      if exists j :: 0 <= j < |rows| && Complete(columns, rows[j]) && Mappable(rows[j], codes, show) && l == Label(rows[j], codes, show) {
        var j :| 0 <= j < |rows| && Complete(columns, rows[j]) && Mappable(rows[j], codes, show) && l == Label(rows[j], codes, show);
        if j > 0 {
          assert rows[1..][j - 1] == rows[j];
        }
      }
    }
  }

  /** A frame with every relevant column whose only row is dropped normalises
      to an empty table. */
  lemma LoneDroppedRow(columns: seq<string>, x: RawRow, codes: map<string, string>, show: real -> string)
    requires FirstMissing(RelevantColumns, columns).None?
    requires !Complete(columns, x) || !Mappable(x, codes, show)
    ensures Normalize(RawTable(columns, [x]), codes, show) == Success([])
  {
    DroppedRowIgnored(columns, [], x, [], codes, show);
    assert [] + [x] + [] == [x];
    var none: seq<RawRow> := [];
    assert none + none == none;
    SurvivorsMatch(columns, [], codes, show);
  }

  /** A successful normalisation yields, in order, one row per survivor: its
      identifier, its label, the year `int()` reads from its period and its five
      scores as numbers. */
  lemma NormalizeOutput(t: RawTable, codes: map<string, string>, show: real -> string)
    requires Normalize(t, codes, show).Success?
    ensures var out := Normalize(t, codes, show).value;
            var s := Survivors(t.columns, t.rows, codes, show);
            && |out| == |s|
            && forall i :: 0 <= i < |s| ==> Convertible(s[i], show) && out[i] == ToRow(s[i], show)
  {
    SurvivorsMatch(t.columns, t.rows, codes, show);
  }

  /** A table with a single survivor normalises, when it succeeds, to that
      survivor's converted row. */
  lemma OneSurvivor(t: RawTable, codes: map<string, string>, show: real -> string, l: Labelled)
    requires Normalize(t, codes, show).Success?
    requires Survivors(t.columns, t.rows, codes, show) == [l]
    ensures Convertible(l, show)
    ensures Normalize(t, codes, show).value == [ToRow(l, show)]
  {
    NormalizeOutput(t, codes, show);
  }

  /** Normalisation fails exactly when a relevant column is missing from the
      frame, or when some survivor has a period prefix `int()` rejects or a
      score that is not a number. One such row aborts the whole batch. */
  lemma NormalizeFails(t: RawTable, codes: map<string, string>, show: real -> string)
    ensures var s := Survivors(t.columns, t.rows, codes, show);
            Normalize(t, codes, show).Failure? <==>
              || (exists c :: c in RelevantColumns && c !in t.columns)
              || (exists i :: 0 <= i < |s| && !Convertible(s[i], show))
  {
    var s := Survivors(t.columns, t.rows, codes, show);
    match FirstMissing(RelevantColumns, t.columns)
    case Some(c) =>
      assert c in RelevantColumns && c !in t.columns;
    case None =>
      SurvivorsMatch(t.columns, t.rows, codes, show);
      assert Normalize(t, codes, show) == Finish(s, show);
  }

  /** The reported missing column is a relevant column the frame lacks. */
  lemma MissingColumnReported(t: RawTable, codes: map<string, string>, show: real -> string)
    requires Normalize(t, codes, show).Failure? && Normalize(t, codes, show).error.MissingColumn?
    ensures Normalize(t, codes, show).error.name in RelevantColumns
    ensures Normalize(t, codes, show).error.name !in t.columns
  {
  }

  /** A row that is incomplete, or whose code is not mapped, has no effect on
      the outcome, even when its period could not be read. */
  lemma DroppedRowIgnored(columns: seq<string>, a: seq<RawRow>, x: RawRow, b: seq<RawRow>,
                           codes: map<string, string>, show: real -> string)
    requires !Complete(columns, x) || !Mappable(x, codes, show)
    ensures Normalize(RawTable(columns, a + [x] + b), codes, show) == Normalize(RawTable(columns, a + b), codes, show)
  {
    DroppedRowNoSurvivor(columns, a, x, b, codes, show);
    SameSurvivorsSameOutcome(RawTable(columns, a + [x] + b), RawTable(columns, a + b), codes, show);
  }

  lemma DroppedRowNoSurvivor(columns: seq<string>, a: seq<RawRow>, x: RawRow, b: seq<RawRow>,
                             codes: map<string, string>, show: real -> string)
    requires !Complete(columns, x) || !Mappable(x, codes, show)
    ensures Survivors(columns, a + [x] + b, codes, show) == Survivors(columns, a + b, codes, show)
  {
    assert Survivors(columns, [x], codes, show) == [] by {
      assert [x][1..] == [];
    }
    calc {
      Survivors(columns, a + [x] + b, codes, show);
      { SurvivorsAppend(columns, a + [x], b, codes, show); }
      Survivors(columns, a + [x], codes, show) + Survivors(columns, b, codes, show);
      { SurvivorsAppend(columns, a, [x], codes, show); }
      Survivors(columns, a, codes, show) + Survivors(columns, [x], codes, show) + Survivors(columns, b, codes, show);
      Survivors(columns, a, codes, show) + Survivors(columns, b, codes, show);
      { SurvivorsAppend(columns, a, b, codes, show); }
      Survivors(columns, a + b, codes, show);
    }
  }

  /** The outcome depends on the raw rows only through their survivors. */
  lemma SameSurvivorsSameOutcome(t: RawTable, u: RawTable, codes: map<string, string>, show: real -> string)
    requires t.columns == u.columns
    requires Survivors(t.columns, t.rows, codes, show) == Survivors(u.columns, u.rows, codes, show)
    ensures Normalize(t, codes, show) == Normalize(u, codes, show)
  {
    SurvivorsMatch(t.columns, t.rows, codes, show);
    SurvivorsMatch(u.columns, u.rows, codes, show);
  }

  /** A survivor whose period prefix `int()` rejects aborts the whole batch
      with a period error, whatever the other rows hold; it is not skipped. */
  lemma BadPeriodAbortsBatch(t: RawTable, codes: map<string, string>, show: real -> string, i: int)
    requires forall c :: c in RelevantColumns ==> c in t.columns
    requires 0 <= i < |Survivors(t.columns, t.rows, codes, show)|
    requires Year(Survivors(t.columns, t.rows, codes, show)[i], show).None?
    ensures Normalize(t, codes, show).Failure?
    ensures Normalize(t, codes, show).error.BadPeriod?
  {
    var s := Survivors(t.columns, t.rows, codes, show);
    SurvivorsMatch(t.columns, t.rows, codes, show);
    assert FirstMissing(RelevantColumns, t.columns).None?;
    assert Normalize(t, codes, show) == Finish(s, show);
    assert FirstBadPeriod(s, show).Some?;
  }
}
