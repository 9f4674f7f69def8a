/** The token price service and its quote table
    (`tokenprice/service.go`, `storjscandb/tokenprice.go`, `tokenprice/chore.go`). */
module PriceCache {
  import opened Common

  /******* Time *******/

  /** Nanoseconds since the zero time, the start of year 1. */
  type Time = int

  const MINUTE: int := 60_000_000_000
  const MAX_DURATION: int := 0x7fff_ffff_ffff_ffff
  const MIN_DURATION: int := -0x8000_0000_0000_0000

  /** Time.Sub: a difference that a duration cannot hold saturates. */
  function Sub(t: Time, u: Time): int {
    if t - u > MAX_DURATION then MAX_DURATION
    else if t - u < MIN_DURATION then MIN_DURATION
    else t - u
  }

  /** Within a duration's range, comparing the difference is comparing the times. */
  lemma SubExact(t: Time, u: Time, d: int)
    requires MIN_DURATION <= d < MAX_DURATION
    ensures Sub(t, u) <= d <==> t - u <= d
    ensures MIN_DURATION <= Sub(t, u) <= MAX_DURATION
    ensures Sub(t, u) == MAX_DURATION <==> t - u >= MAX_DURATION
  {}

  /** 1969 years of 365 days, and the leap days of the calendar, lie before 1970. */
  lemma EpochIsYears()
    ensures EPOCH == (1969 * 365 + 1969 / 4 - 1969 / 100 + 1969 / 400) * 24 * 60 * MINUTE
    ensures MINUTE == 60 * 1_000_000_000 && MAX_DURATION == 9_223_372_036_854_775_807
    ensures MIN_DURATION == -MAX_DURATION - 1 && DAY == 86_400 * 1_000_000_000
  {}

  /** Time.Truncate(time.Minute). */
  function ToMinute(t: Time): Time {
    t - t % MINUTE
  }

  lemma ToMinuteBounds(t: Time)
    ensures ToMinute(t) <= t < ToMinute(t) + MINUTE && ToMinute(t) % MINUTE == 0
  {
    var q := t / MINUTE;
    assert t == q * MINUTE + t % MINUTE;
    assert ToMinute(t) == q * MINUTE;
    assert q * MINUTE % MINUTE == 0;
  }

  /******* The quote table *******/

  /** The zero amount carries no currency; all others are in millionths of a dollar. */
  datatype Amount = Unset | Micros(units: int)

  datatype Quote = Quote(timestamp: Time, price: Amount)

  const NO_QUOTE := Quote(0, Unset)

  /** Prices by the start of their interval. */
  type Quotes = map<Time, int>

  ghost predicate IsLatestBefore(quotes: Quotes, before: Time, k: Time) {
    k in quotes && k < before && forall other :: other in quotes && other < before ==> other <= k
  }

  ghost predicate NoneBefore(quotes: Quotes, before: Time) {
    forall k :: k in quotes ==> k >= before
  }

  /** What a lookup strictly before t finds: the latest row, or the zero quote. */
  ghost predicate IsBefore(quotes: Quotes, t: Time, q: Quote) {
    || (NoneBefore(quotes, t) && q == NO_QUOTE)
    || (IsLatestBefore(quotes, t, q.timestamp) && q.price == Micros(quotes[q.timestamp]))
  }

  function DeletedBefore(quotes: Quotes, cutoff: Time): Quotes {
    map k | k in quotes && k >= cutoff :: quotes[k]
  }

  /******* Lookups *******/

  lemma BeforeIsUnique(quotes: Quotes, t: Time, p: Quote, q: Quote)
    requires IsBefore(quotes, t, p) && IsBefore(quotes, t, q)
    ensures p == q
  {}

  lemma {:induction false} LatestExists(keys: set<Time>) returns (k: Time)
    requires keys != {}
    ensures k in keys && forall x :: x in keys ==> x <= k
    decreases keys
  {
    var first := Member(keys);
    var others := keys - {first};
    assert forall x :: x in keys ==> x == first || x in others;
    k := first;
    if others != {} {
      var best := LatestExists(others);
      if best > first {
        k := best;
      }
    }
  }

  lemma BeforeExists(quotes: Quotes, t: Time)
    ensures exists q :: IsBefore(quotes, t, q)
  {
    var keys := set k | k in quotes && k < t;
    if keys == {} {
      assert forall k :: k in quotes && k < t ==> k in keys;
      assert IsBefore(quotes, t, NO_QUOTE);
    } else {
      var k := LatestExists(keys);
      assert forall x :: x in quotes && x < t ==> x in keys;
      assert IsBefore(quotes, t, Quote(k, Micros(quotes[k])));
    }
  }

  /** The one answer of a lookup. */
  ghost function Found(quotes: Quotes, t: Time): Quote
    ensures IsBefore(quotes, t, Found(quotes, t))
  {
    BeforeExists(quotes, t);
    var q :| IsBefore(quotes, t, q);
    q
  }

  class PriceQuoteDB {
    var quotes: Quotes

    constructor ()
      ensures quotes == map[]
    {
      quotes := map[];
    }

    /** Insert, or replace the price of the same interval; a database fault changes nothing. */
    method Update(fault: Option<Error>, window: Time, price: int) returns (err: Option<Error>)
      modifies this
      ensures err == fault
      ensures quotes == if fault.Some? then old(quotes) else old(quotes)[window := price]
    {
      if fault.None? {
        quotes := quotes[window := price];
      }
      return fault;
    }

    /** The rows below the given time in descending order, limited to one. */
    method Before(fault: Option<Error>, before: Time) returns (r: Result<Quote, Error>, none: bool)
      ensures fault.Some? ==> r == Err(fault.value) && !none
      ensures fault.None? ==> r.Ok? && IsBefore(quotes, before, r.value) && (none <==> NoneBefore(quotes, before))
    {
      if fault.Some? {
        return Err(fault.value), false;
      }
      var todo := set k | k in quotes && k < before;
      if todo == {} {
        assert NoneBefore(quotes, before) by {
          forall k | k in quotes
            ensures k >= before
          {
            assert k < before ==> k in todo;
          }
        }
        return Ok(NO_QUOTE), true;
      }
      var best := AnyMember(todo);
      while todo != {}
        invariant forall k :: k in todo ==> k in quotes && k < before
        invariant best in quotes && best < before
        invariant forall k :: k in quotes && k < before && k !in todo ==> k <= best
      {
        var k := AnyMember(todo);
        if k > best {
          best := k;
        }
        todo := todo - {k};
      }
      return Ok(Quote(best, Micros(quotes[best]))), false;
    }

    /** Exactly the rows from the given time on stay, as they were. */
    method DeleteBefore(fault: Option<Error>, before: Time) returns (err: Option<Error>)
      modifies this
      ensures err == fault
      ensures forall k :: k in quotes <==> k in old(quotes) && (fault.Some? || k >= before)
      ensures forall k :: k in quotes ==> quotes[k] == old(quotes)[k]
    {
      if fault.None? {
        quotes := map k | k in quotes && k >= before :: quotes[k];
      }
      return fault;
    }
  }

  /** After a deletion a lookup finds what it found before, or nothing when that row is gone. */
  lemma DeletedFound(quotes: Quotes, cutoff: Time, t: Time)
    ensures Found(DeletedBefore(quotes, cutoff), t) ==
      if !NoneBefore(quotes, t) && Found(quotes, t).timestamp >= cutoff then Found(quotes, t) else NO_QUOTE
  {
    hide Found;
    var after, q := DeletedBefore(quotes, cutoff), Found(quotes, t);
    var kept := if !NoneBefore(quotes, t) && q.timestamp >= cutoff then q else NO_QUOTE;
    assert IsBefore(after, t, kept);
    BeforeIsUnique(after, t, kept, Found(after, t));
  }

  /******* The service *******/

  const STALE_PRICE: Error := "retrieved price does not meet requirements"

  /** What the outside does during one call: database faults, and the price client's answer to the request. */
  datatype World = World(
    readFault: Option<Error>, writeFault: Option<Error>, answer: Time -> Result<(Time, int), Error>)

  /** A call answers from the quote it found, or asks the client. */
  predicate Fresh(window: int, t: Time, q: Quote) {
    Sub(t, q.timestamp) <= window
  }

  lemma SubMonotone(t: Time, k: Time, ts: Time)
    requires k <= ts
    ensures Sub(t, ts) <= Sub(t, k)
  {}

  /** Some row before t is within the window; with none before t, the window reaches back to the zero time. */
  ghost predicate Covers(quotes: Quotes, window: int, t: Time) {
    || (exists k :: k in quotes && k < t && Sub(t, k) <= window)
    || (NoneBefore(quotes, t) && Sub(t, 0) <= window)
  }

  /** A table answers exactly when some row covers the time, whichever is found. */
  lemma FreshExact(quotes: Quotes, window: int, t: Time)
    ensures Fresh(window, t, Found(quotes, t)) <==> Covers(quotes, window, t)
  {
    hide Found, Sub;
    var q := Found(quotes, t);
    if exists k :: k in quotes && k < t && Sub(t, k) <= window {
      var k :| k in quotes && k < t && Sub(t, k) <= window;
      SubMonotone(t, k, q.timestamp);
    }
  }

  /** The outcome of a call that found quote q: its result and the table it leaves. */
  function PriceFrom(quotes: Quotes, window: int, t: Time, q: Quote, world: World): (Result<Amount, Error>, Quotes) {
    if Fresh(window, t, q) then (Ok(q.price), quotes)
    else
      match world.answer(ToMinute(t))
      case Err(e) => (Err(e), quotes)
      case Ok((ts, price)) =>
        if Sub(t, ts) > window then (Err(STALE_PRICE), quotes)
        else if world.writeFault.Some? then (Err(world.writeFault.value), quotes)
        else (Ok(Micros(price)), quotes[ToMinute(ts) := price])
  }

  ghost function PriceStep(quotes: Quotes, window: int, t: Time, world: World): (Result<Amount, Error>, Quotes) {
    if world.readFault.Some? then (Err(world.readFault.value), quotes)
    else PriceFrom(quotes, window, t, Found(quotes, t), world)
  }

  class PriceService {
    const db: PriceQuoteDB
    const priceWindow: int

    constructor (db: PriceQuoteDB, priceWindow: int)
      ensures this.db == db && this.priceWindow == priceWindow
    {
      this.db, this.priceWindow := db, priceWindow;
    }

    method PriceAt(t: Time, world: World) returns (r: Result<Amount, Error>)
      modifies db
      ensures (r, db.quotes) == PriceStep(old(db.quotes), priceWindow, t, world)
    {
      var found, none := db.Before(world.readFault, t);
      if found.Ok? {
        BeforeIsUnique(db.quotes, t, found.value, Found(db.quotes, t));
      }
      if found.Err? && !none {
        return Err(found.error);
      }
      var quote := found.value;
      if Sub(t, quote.timestamp) > priceWindow {
        var answer := world.answer(ToMinute(t));
        if answer.Err? {
          return Err(answer.error);
        }
        var (ts, price) := answer.value;
        if Sub(t, ts) > priceWindow {
          return Err(STALE_PRICE);
        }
        var err := db.Update(world.writeFault, ToMinute(ts), price);
        if err.Some? {
          return Err(err.value);
        }
        return Ok(Micros(price));
      }
      return Ok(quote.price);
    }

    method SavePrice(timestamp: Time, price: int, fault: Option<Error>) returns (err: Option<Error>)
      modifies db
      ensures err == fault
      ensures db.quotes == if fault.Some? then old(db.quotes) else old(db.quotes)[timestamp := price]
    {
      err := db.Update(fault, timestamp, price);
    }
  }

  /** The chore that stores the latest price, under the minute it was observed in. */
  method RunOnce(
    service: PriceService, latest: Result<(Time, int), Error>, fault: Option<Error>)
    returns (err: Option<Error>)
    modifies service.db
    ensures latest.Err? ==> err == Some(latest.error) && service.db.quotes == old(service.db.quotes)
    ensures latest.Ok? ==> err == fault
    ensures latest.Ok? ==> service.db.quotes == if fault.Some? then old(service.db.quotes)
                             else old(service.db.quotes)[ToMinute(latest.value.0) := latest.value.1]
  {
    if latest.Err? {
      return Some(latest.error);
    }
    err := service.SavePrice(ToMinute(latest.value.0), latest.value.1, fault);
  }

  const DAY: int := 24 * 60 * MINUTE
  const NEGATIVE_RETENTION: Error := "retain days cannot be less than 0"

  /** The chore that removes old rows: a negative number of days is an error, a database fault is not. */
  method CleanUp(db: PriceQuoteDB, retainDays: int, now: Time, fault: Option<Error>) returns (err: Option<Error>)
    modifies db
    ensures err == if retainDays < 0 then Some(NEGATIVE_RETENTION) else None
    ensures forall k ::
      k in db.quotes <==> k in old(db.quotes) && (retainDays < 0 || fault.Some? || k >= now - retainDays * DAY)
    ensures forall k :: k in db.quotes ==> db.quotes[k] == old(db.quotes)[k]
  {
    if retainDays < 0 {
      return Some(NEGATIVE_RETENTION);
    }
    var ignored := db.DeleteBefore(fault, now - retainDays * DAY);
    return None;
  }
}
