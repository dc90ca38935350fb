/** The day-replay script: the market-closed guard, the nearest-expiry
    chain for one symbol, per-interval aggregation of Greeks by side inside
    the delta band, and the log of changes against the opening snapshot. */
module Backfill {
  import opened Wrappers
  import opened Seqs
  import opened Greeks
  import opened Chain
  import Calendar

  const Symbol: string := "NIFTY"

  /** The three holidays the script itself lists. */
  const Holidays: set<int> := {
    Calendar.Ordinal(2025, 4, 10), Calendar.Ordinal(2025, 4, 14), Calendar.Ordinal(2025, 4, 18)
  }

  /** The guard passes on Monday to Friday outside the listed holidays. */
  predicate MarketOpen(today: int) {
    !(today in Holidays || Calendar.Weekday(today) >= 5)
  }

  /** Instruments of the option segment for `symbol`. */
  function IsChainMember(symbol: string): Instrument -> bool {
    (x: Instrument) => x.segment == "NFO-OPT" && x.name == symbol
  }

  /** How the script's preparation ends. */
  datatype Prepared =
    | MarketClosed       // the guard stopped the run before any work
    | NoExpiry           // no option of the symbol, `expiries[0]` raised
    | Ready(chain: Resolved)

  /** The guard, then the chain: smallest expiry of the symbol's options,
      compared with nothing else (an expired one can be chosen). */
  function Prepare(today: int, instruments: seq<Instrument>): (r: Prepared)
    ensures r.MarketClosed? <==> !Calendar.TradingDay(today, Holidays)
    ensures r.NoExpiry? <==>
      MarketOpen(today) && forall x :: x in instruments ==> !(x.segment == "NFO-OPT" && x.name == Symbol)
    ensures r.Ready? ==> IsNearest(r.chain.expiry, Filter(IsChainMember(Symbol), instruments))
    ensures r.Ready? ==> forall x :: x in r.chain.options <==>
      x in instruments && x.segment == "NFO-OPT" && x.name == Symbol && x.expiry == r.chain.expiry
    ensures r.Ready? ==> forall x ::
      multiset(r.chain.options)[x] ==
      if IsChainMember(Symbol)(x) && x.expiry == r.chain.expiry then multiset(instruments)[x] else 0
  {
    if !MarketOpen(today) then MarketClosed
    else
      var members := Filter(IsChainMember(Symbol), instruments);
      assert forall x :: multiset(members)[x] == if IsChainMember(Symbol)(x) then multiset(instruments)[x] else 0 by {
        forall x ensures multiset(members)[x] == if IsChainMember(Symbol)(x) then multiset(instruments)[x] else 0 {
          FilterCount(IsChainMember(Symbol), instruments, x);
        }
      }
      match NearestChain(members)
      case None => NoExpiry
      case Some(c) => Ready(c)
  }

  /** The chain keeps file order: on an instrument file split in two it is
      the first part's chain rows followed by the second part's. */
  lemma PrepareKeepsOrder(today: int, a: seq<Instrument>, b: seq<Instrument>, c: Resolved)
    requires Prepare(today, a + b) == Ready(c)
    ensures c.options == Filter(HasExpiry(c.expiry), Filter(IsChainMember(Symbol), a)) +
      Filter(HasExpiry(c.expiry), Filter(IsChainMember(Symbol), b))
  {
    FilterConcat(IsChainMember(Symbol), a, b);
    FilterConcat(HasExpiry(c.expiry), Filter(IsChainMember(Symbol), a), Filter(IsChainMember(Symbol), b));
  }

  /** The outcome of one chain row at one interval: its price lookup raised
      (the row is skipped), or `calculate_greeks` ran on it. */
  datatype RowResult =
    | Skipped
    | Evaluated(optType: string, closedForm: Option<Triple>)

  function RowGreeks(r: RowResult): Triple {
    match r
    case Skipped => Zero
    case Evaluated(_, cf) => CalculateGreeks(cf)
  }

  /** A row enters the sums iff it was evaluated and its delta is in the band. */
  predicate Included(r: RowResult) {
    r.Evaluated? && InBand(RowGreeks(r).delta)
  }

  /** Included rows of type "CE" go to the call side, every other type to the put side. */
  function CountsOn(call: bool): RowResult -> bool {
    (r: RowResult) => Included(r) && ((r.optType == "CE") == call)
  }

  /** The Greeks that make up one side's sums, in row order. */
  function Contributions(rows: seq<RowResult>, call: bool): seq<Triple> {
    Map(RowGreeks, Filter(CountsOn(call), rows))
  }

  lemma ContributionsSnoc(rows: seq<RowResult>, r: RowResult, call: bool)
    ensures Contributions(rows + [r], call) ==
      Contributions(rows, call) + (if CountsOn(call)(r) then [RowGreeks(r)] else [])
  {
  }

  /** One interval's inner loop: six running sums over the chain rows. */
  method BuildSnapshot(rows: seq<RowResult>) returns (snap: Snapshot)
    ensures snap.ce == Sum(Contributions(rows, true))
    ensures snap.pe == Sum(Contributions(rows, false))
  {
    var ce := Zero;
    var pe := Zero;
    var i := 0;
    while i < |rows|
      invariant 0 <= i <= |rows|
      invariant ce == Sum(Contributions(rows[..i], true))
      invariant pe == Sum(Contributions(rows[..i], false))
    {
      var r := rows[i];
      assert rows[..i + 1] == rows[..i] + [r];
      ContributionsSnoc(rows[..i], r, true);
      ContributionsSnoc(rows[..i], r, false);
      SumSnoc(Contributions(rows[..i], true), RowGreeks(r));
      SumSnoc(Contributions(rows[..i], false), RowGreeks(r));
      match r {
        case Skipped =>
        case Evaluated(optType, closedForm) =>
          var g := CalculateGreeks(closedForm);
          if InBand(g.delta) {
            if optType == "CE" {
              ce := Plus(ce, g);
            } else {
              pe := Plus(pe, g);
            }
          }
      }
      i := i + 1;
    }
    assert rows[..i] == rows;
    snap := Snapshot(ce, pe);
  }

  /** Appending a row changes only its own side's sums (`CountsOn(true)`:
      included and of type CE; `CountsOn(false)`: included and of any other
      type), by exactly its (delta, vega, theta); a skipped row or an
      excluded one changes nothing. */
  lemma RowAddsToItsSideOnly(rows: seq<RowResult>, r: RowResult)
    ensures Sum(Contributions(rows + [r], true)) ==
      if CountsOn(true)(r) then Plus(Sum(Contributions(rows, true)), RowGreeks(r))
      else Sum(Contributions(rows, true))
    ensures Sum(Contributions(rows + [r], false)) ==
      if CountsOn(false)(r) then Plus(Sum(Contributions(rows, false)), RowGreeks(r))
      else Sum(Contributions(rows, false))
  {
    ContributionsSnoc(rows, r, true);
    ContributionsSnoc(rows, r, false);
    SumSnoc(Contributions(rows, true), RowGreeks(r));
    SumSnoc(Contributions(rows, false), RowGreeks(r));
  }

  /** A row whose closed form raised falls back to (0, 0, 0), which is below
      the band, so it leaves both sides as they were. */
  lemma FallbackNeverCounted(rows: seq<RowResult>, optType: string, call: bool)
    ensures Contributions(rows + [Evaluated(optType, None)], call) == Contributions(rows, call)
    ensures Contributions(rows + [Skipped], call) == Contributions(rows, call)
  {
  }

  function IncludedRow(): RowResult -> bool {
    (r: RowResult) => Included(r)
  }

  /** Every included row is counted on exactly one side: the two sides
      together hold as many rows as are included. */
  lemma {:induction false} SidesCountIncluded(rows: seq<RowResult>)
    ensures |Contributions(rows, true)| + |Contributions(rows, false)| == |Filter(IncludedRow(), rows)|
    decreases |rows|
  {
    if |rows| > 0 {
      var rows' := rows[..|rows| - 1];
      var r := rows[|rows| - 1];
      assert rows == rows' + [r];
      SidesCountIncluded(rows');
      ContributionsSnoc(rows', r, true);
      ContributionsSnoc(rows', r, false);
      FilterSnoc(IncludedRow(), rows', r);
    }
  }

  /** The call-side and put-side sums add up to the sum over all included
      rows: no included row is lost or counted twice. */
  lemma {:induction false} SidesPartitionIncluded(rows: seq<RowResult>)
    ensures Plus(Sum(Contributions(rows, true)), Sum(Contributions(rows, false))) ==
      Sum(Map(RowGreeks, Filter(IncludedRow(), rows)))
    decreases |rows|
  {
    if |rows| > 0 {
      var rows' := rows[..|rows| - 1];
      var r := rows[|rows| - 1];
      assert rows == rows' + [r];
      SidesPartitionIncluded(rows');
      RowAddsToItsSideOnly(rows', r);
      FilterSnoc(IncludedRow(), rows', r);
      var ce := Sum(Contributions(rows', true));
      var pe := Sum(Contributions(rows', false));
      var all' := Map(RowGreeks, Filter(IncludedRow(), rows'));
      if Included(r) {
        MapConcat(RowGreeks, Filter(IncludedRow(), rows'), [r]);
        SumSnoc(all', RowGreeks(r));
        assert Sum(Map(RowGreeks, Filter(IncludedRow(), rows))) == Plus(Sum(all'), RowGreeks(r));
        PlusRegroup(ce, pe, RowGreeks(r));
      }
    }
  }

  /** Each side's delta sum is at most 0.60 per counted row in magnitude. */
  lemma SideDeltaBound(rows: seq<RowResult>, call: bool)
    ensures Abs(Sum(Contributions(rows, call)).delta) <= DeltaUpper * |Contributions(rows, call)| as real
  {
    var c := Contributions(rows, call);
    var f := Filter(CountsOn(call), rows);
    forall k | 0 <= k < |c|
      ensures InBand(c[k].delta)
    {
      assert CountsOn(call)(f[k]);
    }
    SumDeltaBound(c);
  }

  /** One five-minute interval of the day: its timestamp and the snapshot
      built for it, or None when the interval raised and was skipped. */
  datatype Interval = Interval(timestamp: int, snapshot: Option<Snapshot>)

  /** One line of the historical log: the six changes against the opening snapshot. */
  datatype ChangeRecord = ChangeRecord(timestamp: int, change: Snapshot)

  function Built(): Interval -> bool {
    (iv: Interval) => iv.snapshot.Some?
  }

  /** The opening baseline: the snapshot of the first interval that was built. */
  function Baseline(intervals: seq<Interval>): (b: Option<Snapshot>)
    ensures b.None? <==> forall iv :: iv in intervals ==> iv.snapshot.None?
  {
    var built := Filter(Built(), intervals);
    if |built| == 0 then None
    else
      assert built[0] in intervals;
      built[0].snapshot
  }

  function Record(base: Snapshot): Interval -> ChangeRecord {
    (iv: Interval) => ChangeRecord(iv.timestamp, SnapshotMinus(iv.snapshot.GetOr(base), base))
  }

  /** The log for a given baseline: one record per built interval, in order. */
  function Records(intervals: seq<Interval>, base: Snapshot): seq<ChangeRecord> {
    Map(Record(base), Filter(Built(), intervals))
  }

  lemma BaselineSnoc(prefix: seq<Interval>, iv: Interval)
    ensures Baseline(prefix + [iv]) == if Baseline(prefix).Some? then Baseline(prefix) else iv.snapshot
  {
    FilterSnoc(Built(), prefix, iv);
  }

  lemma RecordsSnoc(prefix: seq<Interval>, iv: Interval, base: Snapshot)
    ensures Records(prefix + [iv], base) == Records(prefix, base) +
      if iv.snapshot.Some? then [ChangeRecord(iv.timestamp, SnapshotMinus(iv.snapshot.value, base))] else []
  {
    FilterSnoc(Built(), prefix, iv);
    if Built()(iv) {
      MapConcat(Record(base), Filter(Built(), prefix), [iv]);
      assert Map(Record(base), [iv]) == [Record(base)(iv)];
    }
  }

  /** The first record compares the baseline with itself. */
  lemma FirstRecordIsZero(intervals: seq<Interval>)
    requires Baseline(intervals).Some?
    ensures |Records(intervals, Baseline(intervals).value)| > 0
    ensures Records(intervals, Baseline(intervals).value)[0].change == ZeroSnapshot
  {
  }

  /** The outer loop over the day's intervals. */
  method ReplayDay(intervals: seq<Interval>) returns (open: Option<Snapshot>, log: seq<ChangeRecord>)
    ensures open == Baseline(intervals)
    ensures open.None? ==> log == []
    ensures open.Some? ==> log == Records(intervals, open.value)
    ensures |log| <= |intervals|
    ensures |log| > 0 ==> log[0].change == ZeroSnapshot
  {
    open := None;
    log := [];
    var i := 0;
    while i < |intervals|
      invariant 0 <= i <= |intervals|
      invariant open == Baseline(intervals[..i])
      invariant open.None? ==> log == []
      invariant open.Some? ==> log == Records(intervals[..i], open.value)
    {
      var iv := intervals[i];
      assert intervals[..i + 1] == intervals[..i] + [iv];
      BaselineSnoc(intervals[..i], iv);
      match iv.snapshot {
        case None =>
          if open.Some? {
            RecordsSnoc(intervals[..i], iv, open.value);
          }
        case Some(snapshot) =>
          if open.None? {
            open := Some(snapshot);
          }
          RecordsSnoc(intervals[..i], iv, open.value);
          log := log + [ChangeRecord(iv.timestamp, SnapshotMinus(snapshot, open.value))];
      }
      i := i + 1;
    }
    assert intervals[..i] == intervals;
    if open.Some? {
      FirstRecordIsZero(intervals);
    }
  }

  /** Once an interval has been built the baseline is fixed: later
      intervals, built or not, never reassign it. */
  lemma BaselineNeverReassigned(intervals: seq<Interval>, later: seq<Interval>)
    requires Baseline(intervals).Some?
    ensures Baseline(intervals + later) == Baseline(intervals)
  {
    FilterConcat(Built(), intervals, later);
  }

  /** An interval that raised adds no record. */
  lemma FailedIntervalAddsNothing(intervals: seq<Interval>, timestamp: int, base: Snapshot)
    ensures Records(intervals + [Interval(timestamp, None)], base) == Records(intervals, base)
  {
  }

  /** Every record is its interval's snapshot minus the baseline, so adding
      the baseline back recovers the snapshot. */
  lemma RecordsRecoverSnapshots(intervals: seq<Interval>, base: Snapshot, k: int)
    requires 0 <= k < |Records(intervals, base)|
    ensures Filter(Built(), intervals)[k].snapshot.Some?
    ensures var s := Filter(Built(), intervals)[k].snapshot.value;
      var c := Records(intervals, base)[k].change;
      Plus(base.ce, c.ce) == s.ce && Plus(base.pe, c.pe) == s.pe
  {
  }

  function TimestampBefore(): (Interval, Interval) -> bool {
    (a: Interval, b: Interval) => a.timestamp < b.timestamp
  }

  /** Records follow interval order: with strictly increasing interval
      timestamps, record timestamps strictly increase too (at most one per interval). */
  lemma RecordsChronological(intervals: seq<Interval>, base: Snapshot)
    requires forall i, j :: 0 <= i < j < |intervals| ==> intervals[i].timestamp < intervals[j].timestamp
    ensures forall i, j :: 0 <= i < j < |Records(intervals, base)| ==>
      Records(intervals, base)[i].timestamp < Records(intervals, base)[j].timestamp
  {
    FilterPairwise(Built(), TimestampBefore(), intervals);
  }

  /** The script's guard admits every day the full 2025 calendar treats as
      trading, but also days that calendar closes: 1 May 2025 is a Thursday
      holiday missing from the script's list. */
  lemma GuardLaxerThanCalendar(d: int)
    ensures Calendar.TradingDay(d, Calendar.NseHolidays2025) ==> MarketOpen(d)
    ensures MarketOpen(Calendar.Ordinal(2025, 5, 1))
    ensures !Calendar.TradingDay(Calendar.Ordinal(2025, 5, 1), Calendar.NseHolidays2025)
  {
  }
}
