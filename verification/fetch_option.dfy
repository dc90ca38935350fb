/** The option-data script's selection: NIFTY options of the option
    segment, the smallest expiry that has not passed, and that expiry's
    instruments. */
module FetchOption {
  import opened Wrappers
  import opened Seqs
  import opened Chain
  import Backfill

  /** Option-segment NIFTY instruments (no check on CE/PE). */
  function IsOption(): Instrument -> bool {
    (x: Instrument) => x.segment == "NFO-OPT" && x.name == "NIFTY"
  }

  function NotExpired(today: int): Instrument -> bool {
    (x: Instrument) => x.expiry >= today
  }

  /** Chooses the smallest expiry on or after `today` and keeps every option
      with that expiry; None when every option has expired (the sorted list
      of candidates is empty and `expiry_dates[0]` raises). */
  function Select(instruments: seq<Instrument>, today: int): (r: Option<Resolved>)
    ensures r.None? <==> forall x :: x in instruments && IsOption()(x) ==> x.expiry < today
    ensures r.Some? ==> r.value.expiry >= today
    ensures r.Some? ==> exists x :: x in instruments && IsOption()(x) && x.expiry == r.value.expiry
    ensures r.Some? ==> forall x :: x in instruments && IsOption()(x) && x.expiry >= today ==> r.value.expiry <= x.expiry
    ensures r.Some? ==> forall x :: x in r.value.options <==>
      x in instruments && IsOption()(x) && x.expiry == r.value.expiry
    ensures r.Some? ==> forall x :: x in r.value.options ==> x.expiry >= today
  {
    var options := Filter(IsOption(), instruments);
    var candidates := Filter(NotExpired(today), options);
    if |candidates| == 0 then None
    else
      var e := MinExpiry(candidates);
      assert e in Expiries(candidates);
      Some(Resolved(e, Filter(HasExpiry(e), options)))
  }

  /** `selected` keeps dump order: on a dump split in two it is the first
      part's selected options followed by the second part's. */
  lemma SelectKeepsOrder(a: seq<Instrument>, b: seq<Instrument>, today: int, c: Resolved)
    requires Select(a + b, today) == Some(c)
    ensures c.options == Filter(HasExpiry(c.expiry), Filter(IsOption(), a)) +
      Filter(HasExpiry(c.expiry), Filter(IsOption(), b))
  {
    FilterConcat(IsOption(), a, b);
    FilterConcat(HasExpiry(c.expiry), Filter(IsOption(), a), Filter(IsOption(), b));
  }

  /** `selected` keeps every option of the chosen expiry as often as the
      dump holds it, and nothing else. */
  lemma SelectMultiplicity(instruments: seq<Instrument>, today: int, c: Resolved, x: Instrument)
    requires Select(instruments, today) == Some(c)
    ensures multiset(c.options)[x] == if IsOption()(x) && x.expiry == c.expiry then multiset(instruments)[x] else 0
  {
    FilterCount(HasExpiry(c.expiry), Filter(IsOption(), instruments), x);
    FilterCount(IsOption(), instruments, x);
  }

  /** When no option has expired, this selection and the backfill script's
      (which never compares with today) choose the same chain. */
  lemma AgreesWithBackfillWhenNothingExpired(instruments: seq<Instrument>, today: int)
    requires Backfill.MarketOpen(today)
    requires forall x :: x in instruments && IsOption()(x) ==> x.expiry >= today
    ensures Backfill.Prepare(today, instruments).NoExpiry? <==> Select(instruments, today).None?
    ensures Select(instruments, today).Some? ==>
      Backfill.Prepare(today, instruments) == Backfill.Ready(Select(instruments, today).value)
  {
  }

  /** The two selections differ once the nearest listed expiry has passed:
      with one option that expired yesterday, the backfill script chooses
      that expired contract while this selection finds nothing. */
  lemma ExpiredContractOnlyBackfillChooses(today: int)
    requires Backfill.MarketOpen(today)
    ensures var x := Instrument(1, "NIFTY", "NFO-OPT", "CE", 20000.0, today - 1);
      Select([x], today).None? &&
      Backfill.Prepare(today, [x]) == Backfill.Ready(Resolved(today - 1, [x]))
  {
  }
}
