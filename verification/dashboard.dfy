/** The dashboard's arithmetic: the latest logged snapshot minus the
    latest opening snapshot, six changes coloured by sign. */
module Dashboard {
  import opened Wrappers
  import opened Seqs
  import opened Greeks
  import Backfill

  datatype Colour = Green | Red | Black

  /** Green for a rise, red for a fall, black for no change. */
  function ColourOf(val: real): (c: Colour)
    ensures c == Green <==> val > 0.0
    ensures c == Red <==> val < 0.0
    ensures c == Black <==> val == 0.0
  {
    if val > 0.0 then Green else if val < 0.0 then Red else Black
  }

  /** Colouring is symmetric in sign: negating a value swaps green and red. */
  lemma ColourOfNegation(val: real)
    ensures ColourOf(-val) == match ColourOf(val) case Green => Red case Red => Green case Black => Black
  {
  }

  /** The six changes since the open, or None when either sheet is empty
      (the page stops before computing anything). The baseline is the last
      row of the opening sheet and the latest is the last row of the log. */
  function ChangeFromOpen(log: seq<Snapshot>, open: seq<Snapshot>): (r: Option<Snapshot>)
    ensures r.None? <==> |log| == 0 || |open| == 0
    ensures r.Some? ==> Plus(open[|open| - 1].ce, r.value.ce) == log[|log| - 1].ce
    ensures r.Some? ==> Plus(open[|open| - 1].pe, r.value.pe) == log[|log| - 1].pe
  {
    if |log| == 0 || |open| == 0 then None
    else Some(SnapshotMinus(log[|log| - 1], open[|open| - 1]))
  }

  /** The colours shown, in column order: CE and PE delta, vega, theta. */
  function Colours(change: Snapshot): (cs: seq<Colour>)
    ensures |cs| == 6
    ensures forall k :: 0 <= k < 6 ==> (cs[k] == Green <==> Columns(change)[k] > 0.0)
    ensures forall k :: 0 <= k < 6 ==> (cs[k] == Red <==> Columns(change)[k] < 0.0)
  {
    Map(ColourOf, Columns(change))
  }

  /** Each column is green exactly when the latest value is above its
      opening value, red exactly when below. */
  lemma ColourComparesWithOpen(log: seq<Snapshot>, open: seq<Snapshot>, k: int)
    requires |log| > 0 && |open| > 0 && 0 <= k < 6
    ensures var cs := Colours(ChangeFromOpen(log, open).value);
      (cs[k] == Green <==> Columns(log[|log| - 1])[k] > Columns(open[|open| - 1])[k]) &&
      (cs[k] == Red <==> Columns(log[|log| - 1])[k] < Columns(open[|open| - 1])[k])
  {
  }

  /** A latest row equal to the baseline shows six zero changes, all black. */
  lemma UnchangedIsAllBlack(log: seq<Snapshot>, open: seq<Snapshot>)
    requires |log| > 0 && |open| > 0 && log[|log| - 1] == open[|open| - 1]
    ensures ChangeFromOpen(log, open) == Some(ZeroSnapshot)
    ensures Colours(ZeroSnapshot) == [Black, Black, Black, Black, Black, Black]
  {
  }

  /** The page repeats the replay script's subtraction: with the replay's
      baseline as the last opening row and one of its built snapshots as the
      last log row, the page shows that snapshot's change record. */
  lemma AgreesWithReplayRecord(intervals: seq<Backfill.Interval>, log: seq<Snapshot>, k: int)
    requires Backfill.Baseline(intervals).Some?
    requires 0 <= k < |Backfill.Records(intervals, Backfill.Baseline(intervals).value)|
    requires |log| > 0 && Some(log[|log| - 1]) == Filter(Backfill.Built(), intervals)[k].snapshot
    ensures ChangeFromOpen(log, [Backfill.Baseline(intervals).value]) ==
      Some(Backfill.Records(intervals, Backfill.Baseline(intervals).value)[k].change)
  {
  }
}
