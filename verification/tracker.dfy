/** The live tracker script: NIFTY option filter, nearest expiry, Greeks
    read from the quote, the delta band on signed Greeks summed over both
    sides, and the append-only log whose header is written once. */
module Tracker {
  import opened Wrappers
  import opened Seqs
  import opened Greeks
  import opened Chain

  /** NIFTY options of the option segment with type CE or PE. */
  function IsTracked(): Instrument -> bool {
    (x: Instrument) =>
      x.name == "NIFTY" && (x.instrumentType == "CE" || x.instrumentType == "PE") && x.segment == "NFO-OPT"
  }

  /** The chain is the options of the smallest expiry among all tracked
      options, with no comparison against today; None when there are none
      (`expiries[0]` raises). */
  function Resolve(instruments: seq<Instrument>): (r: Option<Resolved>)
    ensures r.None? <==> forall x :: x in instruments ==> !IsTracked()(x)
    ensures r.Some? ==> forall x :: x in instruments && IsTracked()(x) ==> r.value.expiry <= x.expiry
    ensures r.Some? ==> exists x :: x in instruments && IsTracked()(x) && x.expiry == r.value.expiry
    ensures r.Some? ==> forall x :: x in r.value.options <==>
      x in instruments && IsTracked()(x) && x.expiry == r.value.expiry
  {
    var r := NearestChain(Filter(IsTracked(), instruments));
    assert r.Some? ==> r.value.expiry in Expiries(Filter(IsTracked(), instruments));
    r
  }

  /** The chain keeps every tracked instrument of the chosen expiry as
      often as the dump holds it, and nothing else. */
  lemma ResolveMultiplicity(instruments: seq<Instrument>, c: Resolved, x: Instrument)
    requires Resolve(instruments) == Some(c)
    ensures multiset(c.options)[x] == if IsTracked()(x) && x.expiry == c.expiry then multiset(instruments)[x] else 0
  {
    FilterCount(HasExpiry(c.expiry), Filter(IsTracked(), instruments), x);
    FilterCount(IsTracked(), instruments, x);
  }

  /** The chain keeps dump order: on a dump split in two it is the first
      part's chain instruments followed by the second part's. */
  lemma ResolveKeepsOrder(a: seq<Instrument>, b: seq<Instrument>, c: Resolved)
    requires Resolve(a + b) == Some(c)
    ensures c.options == Filter(HasExpiry(c.expiry), Filter(IsTracked(), a)) +
      Filter(HasExpiry(c.expiry), Filter(IsTracked(), b))
  {
    FilterConcat(IsTracked(), a, b);
    FilterConcat(HasExpiry(c.expiry), Filter(IsTracked(), a), Filter(IsTracked(), b));
  }

  /** The quote of one instrument; `greeks` is None when the quote has no
      greeks entry. An entry is a mapping from Greek names to values. */
  datatype Quote = Quote(greeks: Option<map<string, real>>)

  /** `quote.get(token, {}).get("greeks", None)`. */
  function GreeksEntry(quotes: map<int, Quote>, token: int): Option<map<string, real>> {
    if token in quotes then quotes[token].greeks else None
  }

  /** `info.get(key, 0)`. */
  function Lookup(info: map<string, real>, key: string): real {
    if key in info then info[key] else 0.0
  }

  /** An entry counts as present when it exists and is non-empty. */
  predicate Present(info: Option<map<string, real>>) {
    info.Some? && |info.value| > 0
  }

  /** One kept strike. */
  datatype GreekRow = GreekRow(strike: real, optType: string, delta: real, vega: real, theta: real)

  /** An instrument is kept iff its entry is present and |delta| is in the band. */
  function Kept(quotes: map<int, Quote>): Instrument -> bool {
    (x: Instrument) =>
      Present(GreeksEntry(quotes, x.token)) && InBand(Lookup(GreeksEntry(quotes, x.token).value, "delta"))
  }

  /** The row for a kept instrument: the signed delta and vega and theta
      read from its entry. */
  function RowFor(quotes: map<int, Quote>): Instrument -> GreekRow {
    (x: Instrument) =>
      var info := GreeksEntry(quotes, x.token).GetOr(map[]);
      GreekRow(x.strike, x.instrumentType, Lookup(info, "delta"), Lookup(info, "vega"), Lookup(info, "theta"))
  }

  /** The loop over the chain that builds `greek_rows`. */
  function KeptRows(options: seq<Instrument>, quotes: map<int, Quote>): (rows: seq<GreekRow>)
    ensures |rows| <= |options|
    ensures forall k :: 0 <= k < |rows| ==> InBand(rows[k].delta)
  {
    var kept := Filter(Kept(quotes), options);
    assert forall k :: 0 <= k < |kept| ==> Kept(quotes)(kept[k]);
    Map(RowFor(quotes), kept)
  }

  /** An instrument whose greeks entry is missing or empty yields no row,
      and neither does one whose entry lacks a delta (read as 0). */
  lemma MissingGreeksSkipped(options: seq<Instrument>, quotes: map<int, Quote>, x: Instrument)
    requires !Present(GreeksEntry(quotes, x.token)) ||
      "delta" !in GreeksEntry(quotes, x.token).value
    ensures KeptRows(options + [x], quotes) == KeptRows(options, quotes)
  {
  }

  /** A present entry whose delta lies outside the band yields no row. */
  lemma OutOfBandSkipped(options: seq<Instrument>, quotes: map<int, Quote>, x: Instrument)
    requires Present(GreeksEntry(quotes, x.token))
    requires !InBand(Lookup(GreeksEntry(quotes, x.token).value, "delta"))
    ensures KeptRows(options + [x], quotes) == KeptRows(options, quotes)
  {
  }

  /** A present entry with in-band delta yields exactly one row, appended
      at the end, carrying the signed delta and the entry's vega and theta
      (0 when missing). */
  lemma KeptInstrumentAddsItsRow(options: seq<Instrument>, quotes: map<int, Quote>, x: Instrument)
    requires Present(GreeksEntry(quotes, x.token))
    requires InBand(Lookup(GreeksEntry(quotes, x.token).value, "delta"))
    ensures var info := GreeksEntry(quotes, x.token).value;
      KeptRows(options + [x], quotes) == KeptRows(options, quotes) +
        [GreekRow(x.strike, x.instrumentType, Lookup(info, "delta"), Lookup(info, "vega"), Lookup(info, "theta"))]
  {
  }

  function RowTriple(row: GreekRow): Triple {
    Triple(row.delta, row.vega, row.theta)
  }

  /** One line of the log. */
  datatype LogEntry = LogEntry(time: string, deltaSum: real, vegaSum: real, thetaSum: real)

  /** The three sums over every kept row, calls and puts alike, stamped
      with the time; None when no row was kept (the script exits without
      logging). */
  function Summarise(rows: seq<GreekRow>, time: string): (e: Option<LogEntry>)
    ensures e.None? <==> |rows| == 0
    ensures e.Some? ==> e.value.time == time
    ensures e.Some? ==> Triple(e.value.deltaSum, e.value.vegaSum, e.value.thetaSum) == SideSums(rows)
    ensures e.Some? && (forall k :: 0 <= k < |rows| ==> InBand(rows[k].delta)) ==>
      Abs(e.value.deltaSum) <= DeltaUpper * |rows| as real
  {
    if |rows| == 0 then None
    else
      var s := Sum(Map(RowTriple, rows));
      SumsCoverBothSides(rows);
      RowsDeltaBound(rows);
      Some(LogEntry(time, s.delta, s.vega, s.theta))
  }

  /** Rows that are all in the band have a delta sum of at most 0.60 per row. */
  lemma RowsDeltaBound(rows: seq<GreekRow>)
    ensures (forall k :: 0 <= k < |rows| ==> InBand(rows[k].delta)) ==>
      Abs(Sum(Map(RowTriple, rows)).delta) <= DeltaUpper * |rows| as real
  {
    if forall k :: 0 <= k < |rows| ==> InBand(rows[k].delta) {
      SumDeltaBound(Map(RowTriple, rows));
    }
  }

  function IsCall(): GreekRow -> bool {
    (row: GreekRow) => row.optType == "CE"
  }

  function IsNotCall(): GreekRow -> bool {
    (row: GreekRow) => row.optType != "CE"
  }

  function CallTriples(rows: seq<GreekRow>): seq<Triple> {
    Map(RowTriple, Filter(IsCall(), rows))
  }

  function OtherTriples(rows: seq<GreekRow>): seq<Triple> {
    Map(RowTriple, Filter(IsNotCall(), rows))
  }

  function SideSums(rows: seq<GreekRow>): Triple {
    Plus(Sum(CallTriples(rows)), Sum(OtherTriples(rows)))
  }

  /** The sums do not distinguish sides: they equal the call rows' sums plus
      everyone else's. */
  lemma {:induction false} SumsCoverBothSides(rows: seq<GreekRow>)
    ensures Sum(Map(RowTriple, rows)) == SideSums(rows)
    decreases |rows|
  {
    if |rows| > 0 {
      var rows' := rows[..|rows| - 1];
      var row := rows[|rows| - 1];
      assert rows == rows' + [row];
      SumsCoverBothSides(rows');
      SumsCoverStep(rows', row);
    }
  }

  lemma CallTriplesSnoc(rows: seq<GreekRow>, row: GreekRow)
    ensures CallTriples(rows + [row]) ==
      CallTriples(rows) + if IsCall()(row) then [RowTriple(row)] else []
  {
    FilterSnoc(IsCall(), rows, row);
    if IsCall()(row) {
      MapConcat(RowTriple, Filter(IsCall(), rows), [row]);
      assert Map(RowTriple, [row]) == [RowTriple(row)];
    }
  }

  lemma OtherTriplesSnoc(rows: seq<GreekRow>, row: GreekRow)
    ensures OtherTriples(rows + [row]) ==
      OtherTriples(rows) + if IsNotCall()(row) then [RowTriple(row)] else []
  {
    FilterSnoc(IsNotCall(), rows, row);
    if IsNotCall()(row) {
      MapConcat(RowTriple, Filter(IsNotCall(), rows), [row]);
      assert Map(RowTriple, [row]) == [RowTriple(row)];
    }
  }

  lemma SumsCoverStep(rows: seq<GreekRow>, row: GreekRow)
    requires Sum(Map(RowTriple, rows)) == SideSums(rows)
    ensures Sum(Map(RowTriple, rows + [row])) == SideSums(rows + [row])
  {
    CallTriplesSnoc(rows, row);
    OtherTriplesSnoc(rows, row);
    MapConcat(RowTriple, rows, [row]);
    var all := Map(RowTriple, rows);
    var c := CallTriples(rows);
    var o := OtherTriples(rows);
    var t := RowTriple(row);
    assert Map(RowTriple, rows + [row]) == all + [t];
    SumSplitSnoc(all, c, o, t);
    if IsCall()(row) {
      assert CallTriples(rows + [row]) == c + [t];
      assert OtherTriples(rows + [row]) == o;
    } else {
      assert CallTriples(rows + [row]) == c;
      assert OtherTriples(rows + [row]) == o + [t];
    }
  }

  /** A line of the log file: the column header or one entry. */
  datatype LogLine = HeaderLine | EntryLine(entry: LogEntry)

  function AsLine(): LogEntry -> LogLine {
    (e: LogEntry) => EntryLine(e)
  }

  function IsHeader(): LogLine -> bool {
    (l: LogLine) => l.HeaderLine?
  }

  function HeaderCount(lines: seq<LogLine>): nat {
    |Filter(IsHeader(), lines)|
  }

  /** Appends one entry; the header is written only when the log does not
      exist yet (`log` is None). */
  function AppendEntry(log: Option<seq<LogLine>>, e: LogEntry): (r: seq<LogLine>)
    ensures log.None? ==> r == [HeaderLine, EntryLine(e)]
    ensures log.Some? ==> |r| == |log.value| + 1 && r[..|log.value|] == log.value
    ensures r[|r| - 1] == EntryLine(e)
    ensures HeaderCount(r) == if log.None? then 1 else HeaderCount(log.value)
  {
    match log
    case None =>
      assert Filter(IsHeader(), [HeaderLine, EntryLine(e)]) == [HeaderLine] by {
        assert [HeaderLine, EntryLine(e)] == [HeaderLine] + [EntryLine(e)];
        FilterConcat(IsHeader(), [HeaderLine], [EntryLine(e)]);
        assert Filter(IsHeader(), [HeaderLine]) == Filter(IsHeader(), []) + [HeaderLine] by {
          assert [HeaderLine][..0] == [];
        }
      }
      [HeaderLine, EntryLine(e)]
    case Some(lines) =>
      FilterSnoc(IsHeader(), lines, EntryLine(e));
      lines + [EntryLine(e)]
  }

  /** How one run ends. */
  datatype Outcome =
    | NoOptions                               // no tracked option, `expiries[0]` raised
    | NoStrikes                               // no strike in the band, nothing logged
    | Logged(entry: LogEntry, log: seq<LogLine>)

  /** The rows kept from the resolved chain; none when no chain resolves. */
  function ChainRows(instruments: seq<Instrument>, quotes: map<int, Quote>): seq<GreekRow> {
    match Resolve(instruments)
    case None => []
    case Some(c) => KeptRows(c.options, quotes)
  }

  /** One run of the tracker against the current log file. */
  function Run(instruments: seq<Instrument>, quotes: map<int, Quote>, time: string,
               log: Option<seq<LogLine>>): (o: Outcome)
    ensures o.NoOptions? <==> Resolve(instruments).None?
    ensures o.NoStrikes? <==> Resolve(instruments).Some? && ChainRows(instruments, quotes) == []
    ensures o.Logged? ==> o.entry.time == time
    ensures o.Logged? ==>
      Triple(o.entry.deltaSum, o.entry.vegaSum, o.entry.thetaSum) == SideSums(ChainRows(instruments, quotes))
    ensures o.Logged? ==> o.log == AppendEntry(log, o.entry)
  {
    match Resolve(instruments)
    case None => NoOptions
    case Some(c) =>
      match Summarise(ChainRows(instruments, quotes), time)
      case None => NoStrikes
      case Some(e) => Logged(e, AppendEntry(log, e))
  }

  /** The log after a series of runs: each run either appends its entry or
      (no strike in the band) leaves the file as it was. */
  function LogAfter(log: Option<seq<LogLine>>, entries: seq<Option<LogEntry>>): Option<seq<LogLine>> {
    if |entries| == 0 then log
    else
      var before := LogAfter(log, entries[..|entries| - 1]);
      match entries[|entries| - 1]
      case None => before
      case Some(e) => Some(AppendEntry(before, e))
  }

  function Written(entries: seq<Option<LogEntry>>): seq<LogEntry> {
    if |entries| == 0 then []
    else
      var before := Written(entries[..|entries| - 1]);
      match entries[|entries| - 1]
      case None => before
      case Some(e) => before + [e]
  }

  /** Starting without a log file, repeated runs produce one header followed
      by exactly the logged entries in run order; appending never adds
      another header. */
  lemma {:induction false} HeaderWrittenOnce(entries: seq<Option<LogEntry>>)
    ensures LogAfter(None, entries).None? <==> Written(entries) == []
    ensures LogAfter(None, entries).Some? ==>
      LogAfter(None, entries).value == [HeaderLine] + Map(AsLine(), Written(entries))
    decreases |entries|
  {
    if |entries| > 0 {
      var entries' := entries[..|entries| - 1];
      HeaderWrittenOnce(entries');
      match entries[|entries| - 1]
      case None =>
      case Some(e) =>
        var w' := Written(entries');
        MapConcat(AsLine(), w', [e]);
        if w' != [] {
          assert [HeaderLine] + Map(AsLine(), w' + [e]) == ([HeaderLine] + Map(AsLine(), w')) + [EntryLine(e)];
        }
    }
  }

  /** Hence a log built from scratch holds at most one header, at its top. */
  lemma FreshLogHeaderAtTop(entries: seq<Option<LogEntry>>)
    requires LogAfter(None, entries).Some?
    ensures var lines := LogAfter(None, entries).value;
      |lines| > 0 && lines[0] == HeaderLine && forall k :: 0 < k < |lines| ==> lines[k].EntryLine?
  {
  }
}
