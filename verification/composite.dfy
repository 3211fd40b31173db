/** The composite satisfaction score `TotaalTevredenheid` (untitled91.py:83-87). */
module Composite {
  import opened Table

  function Sum(f: Five<real>): real
  {
    f.happiness + f.work + f.mentalHealth + f.socialLife + f.dailyActivities
  }

  function Least(f: Five<real>): real
  {
    Min(Min(Min(Min(f.happiness, f.work), f.mentalHealth), f.socialLife), f.dailyActivities)
  }

  function Greatest(f: Five<real>): real
  {
    Max(Max(Max(Max(f.happiness, f.work), f.mentalHealth), f.socialLife), f.dailyActivities)
  }

  function Min(a: real, b: real): real { if a <= b then a else b }
  function Max(a: real, b: real): real { if a <= b then b else a }

  /** The unweighted mean of the five scores: five times it is their sum, and
      it lies between the lowest and the highest of them. */
  function CompositeScore(f: Five<real>): (r: real)
    ensures 5.0 * r == Sum(f)
    ensures Least(f) <= r <= Greatest(f)
  {
    Sum(f) / 5.0
  }

  /** The new column over the whole combined table: one scored row per row, in
      order, each row unchanged and given its composite score. */
  function Augment(rows: seq<Row>): (r: seq<Scored>)
    ensures |r| == |rows|
    ensures forall i :: 0 <= i < |r| ==> r[i].row == rows[i] && 5.0 * r[i].total == Sum(rows[i].scores)
  {
    seq(|rows|, i requires 0 <= i < |rows| => Scored(rows[i], CompositeScore(rows[i].scores)))
  }

  /** Scores on a common scale give a composite on that scale. */
  lemma CompositeInRange(f: Five<real>, lo: real, hi: real)
    requires lo <= f.happiness <= hi && lo <= f.work <= hi && lo <= f.mentalHealth <= hi
    requires lo <= f.socialLife <= hi && lo <= f.dailyActivities <= hi
    ensures lo <= CompositeScore(f) <= hi
  {
  }

  /** Raising any score never lowers the composite. */
  lemma CompositeMonotone(f: Five<real>, g: Five<real>)
    requires f.happiness <= g.happiness && f.work <= g.work && f.mentalHealth <= g.mentalHealth
    requires f.socialLife <= g.socialLife && f.dailyActivities <= g.dailyActivities
    ensures CompositeScore(f) <= CompositeScore(g)
  {
  }

  /** The scores 8, 6, 7, 9 and 5 give exactly 7. */
  lemma CompositeExample()
    ensures CompositeScore(Five(8.0, 6.0, 7.0, 9.0, 5.0)) == 7.0
  {
  }

  /** Computing the column before or after concatenating tables is the same. */
  lemma AugmentAppend(a: seq<Row>, b: seq<Row>)
    ensures Augment(a + b) == Augment(a) + Augment(b)
  {
  }
}
