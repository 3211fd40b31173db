/** The records that flow through the pipeline, from the raw rows of the remote
    data set to the scored rows of the base table. */
module Table {

  /** One cell of the remote data set: JSON null (pandas NaN), a string or a number. */
  datatype Cell = Null | Text(s: string) | Number(x: real)

  /** One raw row, keyed by column name; a column the row lacks reads as null,
      as it does once pandas builds a frame from the JSON objects. */
  type RawRow = map<string, Cell>

  /** The remote data set as a frame: its columns and its rows. */
  datatype RawTable = RawTable(columns: seq<string>, rows: seq<RawRow>)

  function Get(row: RawRow, column: string): Cell
  {
    if column in row then row[column] else Null
  }

  /** The five satisfaction scores a row carries, in the order of the source's columns. */
  datatype Five<T> = Five(happiness: T, work: T, mentalHealth: T, socialLife: T, dailyActivities: T)

  /** A normalised row: identifier, category label, year and five scores. */
  datatype Row = Row(id: Cell, category: string, year: int, scores: Five<real>)

  /** A row of the base table: a normalised row with its composite score. */
  datatype Scored = Scored(row: Row, total: real)

  /** The measure a user can pick for the statistics. */
  datatype Metric = Happiness | WorkSatisfaction | MentalHealth | SocialLife | DailyActivities | Total

  function Measure(s: Scored, m: Metric): real
  {
    match m
    case Happiness => s.row.scores.happiness
    case WorkSatisfaction => s.row.scores.work
    case MentalHealth => s.row.scores.mentalHealth
    case SocialLife => s.row.scores.socialLife
    case DailyActivities => s.row.scores.dailyActivities
    case Total => s.total
  }
}
