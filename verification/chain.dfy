/** Instruments of the exchange's instrument dump and the nearest-expiry
    option chain shared by the three resolvers. Expiries are calendar dates
    written as day ordinals, so comparing ordinals compares dates. */
module Chain {
  import opened Wrappers
  import opened Seqs

  /** One row of the instrument dump, reduced to the columns the scripts read. */
  datatype Instrument = Instrument(
    token: int,
    name: string,
    segment: string,
    instrumentType: string,
    strike: real,
    expiry: int)

  /** A resolved chain: the chosen expiry and the instruments kept for it. */
  datatype Resolved = Resolved(expiry: int, options: seq<Instrument>)

  /** The distinct expiries present in `s` (`set(i["expiry"] for i in s)`). */
  function Expiries(s: seq<Instrument>): set<int> {
    set x | x in s :: x.expiry
  }

  /** `e` is the first element of the sorted distinct expiries of `s`. */
  ghost predicate IsNearest(e: int, s: seq<Instrument>) {
    e in Expiries(s) && forall x :: x in s ==> e <= x.expiry
  }

  /** The smallest expiry of a non-empty list. */
  function MinExpiry(s: seq<Instrument>): (e: int)
    requires |s| > 0
    ensures IsNearest(e, s)
  {
    if |s| == 1 then s[0].expiry
    else
      var m := MinExpiry(s[..|s| - 1]);
      assert s == s[..|s| - 1] + [s[|s| - 1]];
      if s[|s| - 1].expiry < m then s[|s| - 1].expiry else m
  }

  /** The nearest expiry is unique: any two candidates coincide. */
  lemma NearestUnique(e1: int, e2: int, s: seq<Instrument>)
    requires IsNearest(e1, s) && IsNearest(e2, s)
    ensures e1 == e2
  {
  }

  /** Selects the instruments whose expiry is `e`. */
  function HasExpiry(e: int): Instrument -> bool {
    (x: Instrument) => x.expiry == e
  }

  /** Sorts the distinct expiries of `options`, takes the first and keeps the
      instruments with that expiry; an empty list has no first expiry (the
      scripts' `expiries[0]` raises IndexError), which is None here. */
  function NearestChain(options: seq<Instrument>): (r: Option<Resolved>)
    ensures r.None? <==> |options| == 0
    ensures r.Some? ==> IsNearest(r.value.expiry, options)
    ensures r.Some? ==> forall x :: x in r.value.options <==> x in options && x.expiry == r.value.expiry
    ensures r.Some? ==> |r.value.options| > 0
    ensures r.Some? ==> forall x ::
      multiset(r.value.options)[x] == if x.expiry == r.value.expiry then multiset(options)[x] else 0
  {
    if |options| == 0 then None
    else
      var e := MinExpiry(options);
      var kept := Filter(HasExpiry(e), options);
      assert forall x :: multiset(kept)[x] == if x.expiry == e then multiset(options)[x] else 0 by {
        forall x ensures multiset(kept)[x] == if x.expiry == e then multiset(options)[x] else 0 {
          FilterCount(HasExpiry(e), options, x);
        }
      }
      Some(Resolved(e, kept))
  }
}
