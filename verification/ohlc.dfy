/** The historical-data script's sheet output: one header row naming the
    six columns, then one row per five-minute candle in that column order. */
module Ohlc {
  import opened Wrappers
  import opened Seqs

  /** One candle; `date` is its timestamp already rendered in ISO form. */
  datatype Candle = Candle(date: string, open: real, high: real, low: real, close: real, volume: int)

  /** A sheet cell. */
  datatype Cell = Text(text: string) | Number(value: real) | Whole(count: int)

  const Header: seq<string> := ["date", "open", "high", "low", "close", "volume"]

  const HeaderRow: seq<Cell> := [Text("date"), Text("open"), Text("high"), Text("low"), Text("close"), Text("volume")]

  /** The cell a candle holds under a column name. */
  function Field(c: Candle, name: string): Option<Cell> {
    if name == "date" then Some(Text(c.date))
    else if name == "open" then Some(Number(c.open))
    else if name == "high" then Some(Number(c.high))
    else if name == "low" then Some(Number(c.low))
    else if name == "close" then Some(Number(c.close))
    else if name == "volume" then Some(Whole(c.volume))
    else None
  }

  /** The row written for a candle: six cells, each under its header column. */
  function CandleRow(c: Candle): (row: seq<Cell>)
    ensures |row| == |Header| == |HeaderRow|
    ensures forall k :: 0 <= k < |Header| ==> Field(c, Header[k]) == Some(row[k])
    ensures row != HeaderRow
  {
    [Text(c.date), Number(c.open), Number(c.high), Number(c.low), Number(c.close), Whole(c.volume)]
  }

  /** Reads a candle back from a row; the header and malformed rows give None. */
  function ParseRow(row: seq<Cell>): Option<Candle> {
    if |row| == 6 && row[0].Text? && row[1].Number? && row[2].Number? && row[3].Number?
       && row[4].Number? && row[5].Whole?
    then Some(Candle(row[0].text, row[1].value, row[2].value, row[3].value, row[4].value, row[5].count))
    else None
  }

  /** Writing a candle and reading it back gives the same candle, and the
      header row is never read as a candle. */
  lemma RowRoundTrip(c: Candle)
    ensures ParseRow(CandleRow(c)) == Some(c)
    ensures ParseRow(HeaderRow) == None
  {
  }

  /** The candle rows, one per candle, in input order. */
  function Rows(candles: seq<Candle>): (rows: seq<seq<Cell>>)
    ensures |rows| == |candles|
    ensures forall k :: 0 <= k < |candles| ==> ParseRow(rows[k]) == Some(candles[k])
  {
    Map(CandleRow, candles)
  }

  /** The sheet after one run as the script is written: the header row is
      appended after whatever the sheet already holds, then the candle rows.
      With no candles the frame has no `date` column, the lookup raises
      before anything is appended, and the sheet is left as it was. */
  function AppendAsWritten(sheet: seq<seq<Cell>>, candles: seq<Candle>): (r: seq<seq<Cell>>)
    ensures |candles| == 0 ==> r == sheet
    ensures |candles| > 0 ==> |r| == |sheet| + 1 + |candles|
    ensures |candles| > 0 ==> r[..|sheet|] == sheet && r[|sheet|] == HeaderRow
    ensures |candles| > 0 ==> forall k :: |sheet| < k < |r| ==> r[k] != HeaderRow
    ensures |candles| > 0 ==> forall k :: 0 <= k < |candles| ==> ParseRow(r[|sheet| + 1 + k]) == Some(candles[k])
  {
    if |candles| == 0 then sheet else sheet + [HeaderRow] + Rows(candles)
  }

  /** Two runs with candles on an empty sheet leave two header rows, the
      second one in the middle of the data, although the step is meant to
      clear the sheet. */
  lemma AsWrittenRepeatsHeader(day1: seq<Candle>, day2: seq<Candle>)
    requires |day1| > 0 && |day2| > 0
    ensures var sheet := AppendAsWritten(AppendAsWritten([], day1), day2);
      sheet[0] == HeaderRow && sheet[1 + |day1|] == HeaderRow && 1 + |day1| < |sheet|
  {
  }

  /** The sheet after one run with the clear the step intends: the header
      row, then the candle rows, whatever the sheet held before. The clear
      sits after the `date` lookup, so a run with no candles still raises
      first and leaves the sheet as it was. */
  function WriteCleared(sheet: seq<seq<Cell>>, candles: seq<Candle>): (r: seq<seq<Cell>>)
    ensures |candles| == 0 ==> r == sheet
    ensures |candles| > 0 ==> |r| == 1 + |candles|
    ensures |candles| > 0 ==> r[0] == HeaderRow
    ensures |candles| > 0 ==> forall k :: 0 < k < |r| ==> r[k] != HeaderRow
    ensures |candles| > 0 ==> forall k :: 0 <= k < |candles| ==> ParseRow(r[k + 1]) == Some(candles[k])
  {
    if |candles| == 0 then sheet else [HeaderRow] + Rows(candles)
  }

  /** With the clear, a run with candles leaves a sheet that depends on that
      run only: re-running never accumulates header rows. */
  lemma ClearedRunsDoNotAccumulate(sheet: seq<seq<Cell>>, day1: seq<Candle>, day2: seq<Candle>)
    requires |day2| > 0
    ensures WriteCleared(WriteCleared(sheet, day1), day2) == WriteCleared([], day2)
  {
  }
}
