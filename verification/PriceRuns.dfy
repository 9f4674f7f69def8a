/** Freshness of prices over every interleaving, and what deleting old quotes may change. */
module PriceRuns {
  import opened Common
  import opened PriceCache

  /******* Calls, the chore and the cleaner, interleaved *******/

  /** A price that the client reported for a moment in time. */
  datatype Observation = Observation(ts: Time, price: int)

  /** How far an unfinished call of PriceAt, or run of the chore, has come. */
  datatype Phase =
    | Missed(t: Time)
    | Holding(t: Time, seen: Observation)
    | ChoreHolding(seen: Observation)

  datatype Reply = Reply(t: Time, price: Amount, cached: bool)

  datatype Market = Market(quotes: Quotes, calls: map<nat, Phase>, observed: set<Observation>, replies: seq<Reply>)

  const OPENING := Market(map[], map[], {}, [])

  datatype Step =
    | Look(p: nat, t: Time)
    | Fetch(p: nat, seen: Observation)
    | Store(p: nat)
    | Observe(p: nat, seen: Observation)
    | Save(p: nat)
    | Fail(p: nat)
    | Delete(cutoff: Time)

  ghost predicate Enabled(m: Market, step: Step) {
    match step
    case Look(p, _) => p !in m.calls
    case Fetch(p, _) => p in m.calls && m.calls[p].Missed?
    case Store(p) => p in m.calls && m.calls[p].Holding?
    case Observe(p, _) => p !in m.calls
    case Save(p) => p in m.calls && m.calls[p].ChoreHolding?
    case Fail(p) => p in m.calls
    case Delete(_) => true
  }

  ghost function Next(m: Market, window: int, step: Step): Market
    requires Enabled(m, step)
  {
    match step
    case Look(p, t) =>
      var q := Found(m.quotes, t);
      if Fresh(window, t, q) then m.(replies := m.replies + [Reply(t, q.price, true)])
      else m.(calls := m.calls[p := Missed(t)])
    case Fetch(p, seen) =>
      var t := m.calls[p].t;
      m.(observed := m.observed + {seen},
         calls := if Sub(t, seen.ts) > window then m.calls - {p} else m.calls[p := Holding(t, seen)])
    case Store(p) =>
      var Holding(t, seen) := m.calls[p];
      m.(quotes := m.quotes[ToMinute(seen.ts) := seen.price], calls := m.calls - {p},
         replies := m.replies + [Reply(t, Micros(seen.price), false)])
    case Observe(p, seen) => m.(observed := m.observed + {seen}, calls := m.calls[p := ChoreHolding(seen)])
    case Save(p) =>
      var seen := m.calls[p].seen;
      m.(quotes := m.quotes[ToMinute(seen.ts) := seen.price], calls := m.calls - {p})
    case Fail(p) => m.(calls := m.calls - {p})
    case Delete(cutoff) => m.(quotes := DeletedBefore(m.quotes, cutoff))
  }

  ghost predicate IsRun(window: int, run: seq<Step>)
    decreases |run|, 0
  {
    run == [] || (IsRun(window, run[..|run| - 1]) && Enabled(Exec(window, run[..|run| - 1]), run[|run| - 1]))
  }

  ghost function Exec(window: int, run: seq<Step>): Market
    requires IsRun(window, run)
    decreases |run|, 1
  {
    if run == [] then OPENING else Next(Exec(window, run[..|run| - 1]), window, run[|run| - 1])
  }

  /** A row's price was observed within the minute its key starts. */
  ghost predicate RowObserved(m: Market, k: Time) {
    k in m.quotes && exists o :: o in m.observed && ToMinute(o.ts) == k && o.price == m.quotes[k]
  }

  /** A reply's price was observed at most a window before the time asked for, and a cached one less than
      a minute after it. The zero quote is a reply only when the window reaches back to the zero time. */
  ghost predicate ReplyFresh(m: Market, window: int, r: Reply) {
    match r.price
    case Unset => r.cached && Sub(r.t, 0) <= window
    case Micros(units) =>
      exists o :: o in m.observed && o.price == units && Sub(r.t, o.ts) <= window && (r.cached ==> o.ts < r.t + MINUTE)
  }

  ghost predicate CallSound(m: Market, window: int, call: Phase) {
    match call
    case Missed(_) => true
    case Holding(t, seen) => seen in m.observed && Sub(t, seen.ts) <= window
    case ChoreHolding(seen) => seen in m.observed
  }

  ghost predicate Sound(m: Market, window: int) {
    && (forall k :: k in m.quotes ==> RowObserved(m, k))
    && (forall p :: p in m.calls ==> CallSound(m, window, m.calls[p]))
    && (forall i :: 0 <= i < |m.replies| ==> ReplyFresh(m, window, m.replies[i]))
  }

  lemma CachedReplyFresh(m: Market, window: int, t: Time)
    requires Sound(m, window) && Fresh(window, t, Found(m.quotes, t))
    ensures ReplyFresh(m, window, Reply(t, Found(m.quotes, t).price, true))
  {
    var q := Found(m.quotes, t);
    if q != NO_QUOTE || q.timestamp in m.quotes {
      if !NoneBefore(m.quotes, t) {
        var k := q.timestamp;
        assert RowObserved(m, k);
        var o :| o in m.observed && ToMinute(o.ts) == k && o.price == m.quotes[k];
        ToMinuteBounds(o.ts);
        SubMonotone(t, k, o.ts);
      }
    }
  }

  lemma StoreSound(m: Market, m': Market, window: int, seen: Observation)
    requires forall k :: k in m.quotes ==> RowObserved(m, k)
    requires seen in m.observed && m'.observed == m.observed && m'.quotes == m.quotes[ToMinute(seen.ts) := seen.price]
    ensures forall k :: k in m'.quotes ==> RowObserved(m', k)
  {
    forall k | k in m'.quotes
      ensures RowObserved(m', k)
    {
      if k == ToMinute(seen.ts) {
        assert seen in m'.observed && ToMinute(seen.ts) == k && seen.price == m'.quotes[k];
      } else {
        assert RowObserved(m, k);
      }
    }
  }

  lemma MoreObserved(m: Market, m': Market, window: int)
    requires Sound(m, window) && m.observed <= m'.observed && m'.quotes == m.quotes && m'.replies == m.replies
    ensures forall k :: k in m'.quotes ==> RowObserved(m', k)
    ensures forall i :: 0 <= i < |m'.replies| ==> ReplyFresh(m', window, m'.replies[i])
    ensures forall call :: CallSound(m, window, call) ==> CallSound(m', window, call)
  {
    forall k | k in m'.quotes
      ensures RowObserved(m', k)
    {
      assert RowObserved(m, k);
    }
    forall i | 0 <= i < |m'.replies|
      ensures ReplyFresh(m', window, m'.replies[i])
    {
      assert ReplyFresh(m, window, m.replies[i]);
    }
  }

  lemma NextSound(m: Market, window: int, step: Step)
    requires Sound(m, window) && Enabled(m, step)
    ensures Sound(Next(m, window, step), window)
  {
    hide ToMinute, Sub;
    var m' := Next(m, window, step);
    match step
    case Look(p, t) =>
      if Fresh(window, t, Found(m.quotes, t)) {
        CachedReplyFresh(m, window, t);
      }
      SameFacts(m, m', window);
    case Fetch(p, seen) => MoreObserved(m, m', window);
    case Store(p) =>
      var seen := m.calls[p].seen;
      assert CallSound(m, window, m.calls[p]);
      StoreSound(m, m', window, seen);
      SameFacts(m, m', window);
      assert ReplyFresh(m', window, Reply(m.calls[p].t, Micros(seen.price), false));
    case Observe(p, seen) => MoreObserved(m, m', window);
    case Save(p) =>
      assert CallSound(m, window, m.calls[p]);
      StoreSound(m, m', window, m.calls[p].seen);
      SameFacts(m, m', window);
    case Fail(p) => SameFacts(m, m', window);
    case Delete(cutoff) =>
      forall k | k in m'.quotes
        ensures RowObserved(m', k)
      {
        assert RowObserved(m, k);
      }
      SameFacts(m, m', window);
  }

  lemma SameFacts(m: Market, m': Market, window: int)
    requires m'.observed == m.observed
    ensures forall r :: ReplyFresh(m, window, r) ==> ReplyFresh(m', window, r)
    ensures forall call :: CallSound(m, window, call) ==> CallSound(m', window, call)
    ensures m'.quotes == m.quotes ==> forall k :: RowObserved(m, k) ==> RowObserved(m', k)
  {}

  /** In every interleaving, rows are minute-aligned observations and all replies are fresh. */
  lemma {:induction false} RunSound(window: int, run: seq<Step>)
    requires IsRun(window, run)
    ensures Sound(Exec(window, run), window)
  {
    hide Sound, Next;
    if run == [] {
      OpeningSound(window);
    } else {
      RunSound(window, run[..|run| - 1]);
      NextSound(Exec(window, run[..|run| - 1]), window, run[|run| - 1]);
    }
  }

  lemma OpeningSound(window: int)
    ensures Sound(OPENING, window)
  {}

  lemma KeysAligned(window: int, run: seq<Step>, k: Time)
    requires IsRun(window, run) && k in Exec(window, run).quotes
    ensures k % MINUTE == 0
  {
    hide Next, IsRun, Exec;
    RunSound(window, run);
    var m := Exec(window, run);
    assert RowObserved(m, k);
    var o :| o in m.observed && ToMinute(o.ts) == k && o.price == m.quotes[k];
    ToMinuteBounds(o.ts);
  }

  /******* A call that nothing disturbs *******/

  /** The steps lead from one market to another. */
  ghost predicate Leads(m: Market, window: int, steps: seq<Step>, m': Market)
    decreases |steps|
  {
    if steps == [] then m' == m
    else Enabled(m, steps[0]) && Leads(Next(m, window, steps[0]), window, steps[1..], m')
  }

  lemma {:induction false} LeadsSound(m: Market, window: int, steps: seq<Step>, m': Market)
    requires Sound(m, window) && Leads(m, window, steps, m')
    ensures Sound(m', window)
    decreases |steps|
  {
    hide Sound, Next, Enabled;
    if steps == [] {
    } else {
      NextSound(m, window, steps[0]);
      LeadsSound(Next(m, window, steps[0]), window, steps[1..], m');
    }
  }

  /** The steps of one call of PriceAt whose row is found to be too old. */
  function MissSteps(window: int, p: nat, t: Time, world: World): seq<Step> {
    match world.answer(ToMinute(t))
    case Err(_) => [Look(p, t), Fail(p)]
    case Ok((ts, price)) =>
      if Sub(t, ts) > window then [Look(p, t), Fetch(p, Observation(ts, price))]
      else if world.writeFault.Some? then [Look(p, t), Fetch(p, Observation(ts, price)), Fail(p)]
      else [Look(p, t), Fetch(p, Observation(ts, price)), Store(p)]
  }

  ghost function CallSteps(m: Market, window: int, p: nat, t: Time, world: World): seq<Step> {
    if world.readFault.Some? then []
    else if Fresh(window, t, Found(m.quotes, t)) then [Look(p, t)]
    else MissSteps(window, p, t, world)
  }

  /** What the client was seen to report during the call. */
  ghost function SeenIn(m: Market, window: int, t: Time, world: World): set<Observation> {
    if world.readFault.Some? || Fresh(window, t, Found(m.quotes, t)) then {}
    else
      match world.answer(ToMinute(t))
      case Err(_) => {}
      case Ok((ts, price)) => {Observation(ts, price)}
  }

  lemma OneLeads(m: Market, window: int, a: Step, m': Market)
    requires Enabled(m, a) && Next(m, window, a) == m'
    ensures Leads(m, window, [a], m')
  {
    hide Next, Enabled;
    assert [a][1..] == [];
  }

  lemma LeadsMore(m: Market, window: int, a: Step, rest: seq<Step>, m': Market)
    requires Enabled(m, a) && Leads(Next(m, window, a), window, rest, m')
    ensures Leads(m, window, [a] + rest, m')
  {
    hide Next, Enabled;
    assert ([a] + rest)[1..] == rest;
  }

  /** The market that an undisturbed call leaves. */
  ghost function AfterCall(m: Market, window: int, t: Time, world: World): Market {
    var (r, quotes) := PriceStep(m.quotes, window, t, world);
    var cached := world.readFault.None? && Fresh(window, t, Found(m.quotes, t));
    m.(quotes := quotes, observed := m.observed + SeenIn(m, window, t, world),
       replies := m.replies + if r.Ok? then [Reply(t, r.value, cached)] else [])
  }

  /** An undisturbed call of PriceAt is a sequence of the interleaved steps: both describe the same call. */
  lemma PriceStepIsSteps(m: Market, window: int, p: nat, t: Time, world: World)
    requires p !in m.calls
    ensures Leads(m, window, CallSteps(m, window, p, t, world), AfterCall(m, window, t, world))
  {
    hide Found, ToMinute, Sub, Leads;
    var m' := AfterCall(m, window, t, world);
    if world.readFault.Some? {
      NoStep(m, window);
      assert m.replies + [] == m.replies && m.observed + {} == m.observed;
    } else if Fresh(window, t, Found(m.quotes, t)) {
      assert m.observed + {} == m.observed;
      OneLeads(m, window, Look(p, t), m');
    } else {
      MissIsSteps(m, window, p, t, world);
    }
  }

  lemma NoStep(m: Market, window: int)
    ensures Leads(m, window, [], m)
  {}

  lemma MissIsSteps(m: Market, window: int, p: nat, t: Time, world: World)
    requires p !in m.calls && world.readFault.None? && !Fresh(window, t, Found(m.quotes, t))
    ensures Leads(m, window, MissSteps(window, p, t, world), AfterCall(m, window, t, world))
  {
    hide Found, ToMinute, Sub, Leads;
    var m' := AfterCall(m, window, t, world);
    var m1 := Next(m, window, Look(p, t));
    assert m1.calls - {p} == m.calls && m.replies + [] == m.replies;
    match world.answer(ToMinute(t))
    case Err(_) =>
      assert m.observed + {} == m.observed;
      OneLeads(m1, window, Fail(p), m');
      LeadsMore(m, window, Look(p, t), [Fail(p)], m');
      assert [Look(p, t)] + [Fail(p)] == MissSteps(window, p, t, world);
    case Ok((ts, price)) =>
      var fetch := Fetch(p, Observation(ts, price));
      var m2 := Next(m1, window, fetch);
      if Sub(t, ts) > window {
        OneLeads(m1, window, fetch, m');
        LeadsMore(m, window, Look(p, t), [fetch], m');
        assert [Look(p, t)] + [fetch] == MissSteps(window, p, t, world);
      } else {
        assert m2.calls - {p} == m.calls;
        var last := if world.writeFault.Some? then Fail(p) else Store(p);
        OneLeads(m2, window, last, m');
        LeadsMore(m1, window, fetch, [last], m');
        assert [fetch] + [last] == [fetch, last];
        LeadsMore(m, window, Look(p, t), [fetch, last], m');
        assert [Look(p, t)] + [fetch, last] == MissSteps(window, p, t, world);
      }
  }

  /******* Prices, call after call *******/

  /** A market between calls: a table, and all that the client ever reported. */
  ghost function Calm(quotes: Quotes, observed: set<Observation>): Market {
    Market(quotes, map[], observed, [])
  }

  /** Each row was observed within the minute that its key starts. */
  ghost predicate AllObserved(quotes: Quotes, observed: set<Observation>) {
    forall k :: k in quotes ==> RowObserved(Calm(quotes, observed), k)
  }

  ghost predicate AnswersObserved(world: World, observed: set<Observation>) {
    forall t :: var a := world.answer(t); a.Ok? ==> Observation(a.value.0, a.value.1) in observed
  }

  /** The price was observed at most a window before t; the zero amount needs a window back to the zero time. */
  ghost predicate FreshAt(observed: set<Observation>, window: int, t: Time, price: Amount) {
    match price
    case Unset => Sub(t, 0) <= window
    case Micros(units) => exists o :: o in observed && o.price == units && Sub(t, o.ts) <= window
  }

  /** The table that an interleaved run leaves, with later reports added to the observations. */
  lemma RunObserved(window: int, run: seq<Step>, observed: set<Observation>)
    requires IsRun(window, run) && Exec(window, run).observed <= observed
    ensures AllObserved(Exec(window, run).quotes, observed)
  {
    hide IsRun, Exec, ToMinute;
    RunSound(window, run);
    var m := Exec(window, run);
    forall k | k in m.quotes
      ensures RowObserved(Calm(m.quotes, observed), k)
    {
      assert RowObserved(m, k);
    }
  }

  /** Undisturbed, a call keeps the rows observed and answers a fresh price. */
  lemma PriceStepFresh(quotes: Quotes, observed: set<Observation>, window: int, t: Time, world: World)
    requires AllObserved(quotes, observed) && AnswersObserved(world, observed)
    ensures var (r, quotes') := PriceStep(quotes, window, t, world);
      AllObserved(quotes', observed) && (r.Ok? ==> FreshAt(observed, window, t, r.value))
  {
    hide Found, Leads, PriceStep, RowObserved, Fresh, Sub, ToMinute;
    var m := Calm(quotes, observed);
    var m' := AfterCall(m, window, t, world);
    PriceStepIsSteps(m, window, 0, t, world);
    LeadsSound(m, window, CallSteps(m, window, 0, t, world), m');
    assert m'.observed == observed;
    var (r, quotes') := PriceStep(quotes, window, t, world);
    forall k | k in quotes'
      ensures RowObserved(Calm(quotes', observed), k)
    {
      assert RowObserved(m', k);
      SameRowObserved(m', Calm(quotes', observed), k);
    }
    if r.Ok? {
      assert ReplyFresh(m', window, m'.replies[0]);
    }
  }

  lemma SameRowObserved(m: Market, m': Market, k: Time)
    requires RowObserved(m, k) && m.quotes == m'.quotes && m.observed == m'.observed
    ensures RowObserved(m', k)
  {}

  /******* The zero quote *******/

  /** With no earlier quote, a call after the epoch answers the zero amount
      exactly when the window is the longest duration. */
  lemma ZeroQuoteExact(quotes: Quotes, window: int, t: Time, world: World)
    requires NoneBefore(quotes, t) && t >= EPOCH && window <= MAX_DURATION && world.readFault.None?
    ensures PriceStep(quotes, window, t, world).0 == Ok(Unset) <==> window == MAX_DURATION
  {
    BeforeIsUnique(quotes, t, NO_QUOTE, Found(quotes, t));
    assert Sub(t, 0) == MAX_DURATION;
  }

  /******* Deleting old quotes *******/

  /** Two tables with the same rows from the cutoff on; with no cutoff yet, the same table. */
  ghost predicate Agree(a: Quotes, b: Quotes, cutoff: Option<Time>) {
    match cutoff
    case None => a == b
    case Some(c) => forall k :: k >= c ==> (k in a <==> k in b) && (k in a ==> a[k] == b[k])
  }

  ghost predicate AfterYearOne(quotes: Quotes) {
    forall k :: k in quotes ==> k >= 0
  }

  ghost predicate AnswersAfterYearOne(world: World) {
    forall t :: world.answer(t).Ok? ==> world.answer(t).value.0 >= 0
  }

  /** The time asked for lies a window or more after everything deleted so far. */
  predicate Recent(t: Time, window: int, cutoff: Option<Time>) {
    cutoff.Some? ==> t - window >= cutoff.value
  }

  /** A quote fresh enough to answer has not been deleted, and none of the other table overtakes it. */
  lemma FreshQuoteKept(a: Quotes, b: Quotes, c: Time, window: int, t: Time)
    requires Agree(a, b, Some(c)) && AfterYearOne(a) && AfterYearOne(b) && window < MAX_DURATION && t - window >= c
    requires Fresh(window, t, Found(a, t))
    ensures Found(b, t) == Found(a, t)
  {
    if NoneBefore(a, t) {
      BeforeIsUnique(a, t, NO_QUOTE, Found(a, t));
      assert c <= 0;
    }
    assert IsBefore(b, t, Found(a, t));
    BeforeIsUnique(b, t, Found(a, t), Found(b, t));
  }

  lemma LookupTransparent(a: Quotes, b: Quotes, c: Time, window: int, t: Time)
    requires Agree(a, b, Some(c)) && AfterYearOne(a) && AfterYearOne(b) && window < MAX_DURATION && t - window >= c
    ensures Fresh(window, t, Found(a, t)) <==> Fresh(window, t, Found(b, t))
    ensures Fresh(window, t, Found(a, t)) ==> Found(a, t) == Found(b, t)
  {
    hide Found;
    if Fresh(window, t, Found(a, t)) {
      FreshQuoteKept(a, b, c, window, t);
    }
    if Fresh(window, t, Found(b, t)) {
      FreshQuoteKept(b, a, c, window, t);
    }
  }

  lemma PriceTransparent(a: Quotes, b: Quotes, cutoff: Option<Time>, window: int, t: Time, world: World)
    requires Agree(a, b, cutoff) && AfterYearOne(a) && AfterYearOne(b) && AnswersAfterYearOne(world)
    requires window < MAX_DURATION && Recent(t, window, cutoff)
    ensures var (r, a'), (r', b') := PriceStep(a, window, t, world), PriceStep(b, window, t, world);
      r == r' && Agree(a', b', cutoff) && AfterYearOne(a') && AfterYearOne(b')
  {
    hide Found;
    if cutoff.Some? {
      LookupTransparent(a, b, cutoff.value, window, t);
    }
    var answer := world.answer(ToMinute(t));
    if answer.Ok? {
      MinuteNonNegative(answer.value.0);
    }
  }

  lemma MinuteNonNegative(ts: Time)
    requires ts >= 0
    ensures ToMinute(ts) >= 0
  {}

  /** What happens to the table over time, each operation as a whole. */
  datatype Op =
    | Ask(t: Time, world: World)
    | Record(seen: Observation)
    | Purge(cutoff: Time)

  /** The replies of the questions in a sequence of operations. */
  ghost function Replies(quotes: Quotes, window: int, ops: seq<Op>): seq<Result<Amount, Error>>
    decreases |ops|
  {
    if ops == [] then []
    else
      match ops[0]
      case Ask(t, world) =>
        var (r, quotes') := PriceStep(quotes, window, t, world);
        [r] + Replies(quotes', window, ops[1..])
      case Record(seen) => Replies(quotes[ToMinute(seen.ts) := seen.price], window, ops[1..])
      case Purge(c) => Replies(DeletedBefore(quotes, c), window, ops[1..])
  }

  function WithoutPurges(ops: seq<Op>): seq<Op> {
    if ops == [] then [] else (if ops[0].Purge? then [] else [ops[0]]) + WithoutPurges(ops[1..])
  }

  function Later(cutoff: Option<Time>, c: Time): Option<Time> {
    if cutoff.Some? && cutoff.value > c then cutoff else Some(c)
  }

  /** Every question comes a window or more after all that was deleted before it. */
  ghost predicate AsksRecent(ops: seq<Op>, window: int, cutoff: Option<Time>) {
    ops == [] ||
    match ops[0]
    case Ask(t, world) =>
      Recent(t, window, cutoff) && AnswersAfterYearOne(world) && AsksRecent(ops[1..], window, cutoff)
    case Record(seen) => seen.ts >= 0 && AsksRecent(ops[1..], window, cutoff)
    case Purge(c) => AsksRecent(ops[1..], window, Later(cutoff, c))
  }

  lemma {:induction false} RepliesTransparent(a: Quotes, b: Quotes, cutoff: Option<Time>, window: int, ops: seq<Op>)
    requires Agree(a, b, cutoff) && AfterYearOne(a) && AfterYearOne(b) && window < MAX_DURATION
    requires AsksRecent(ops, window, cutoff)
    ensures Replies(a, window, ops) == Replies(b, window, WithoutPurges(ops))
    decreases |ops|
  {
    if ops != [] {
      var rest := ops[1..];
      match ops[0]
      case Ask(t, world) =>
        PriceTransparent(a, b, cutoff, window, t, world);
        RepliesTransparent(PriceStep(a, window, t, world).1, PriceStep(b, window, t, world).1, cutoff, window, rest);
        assert WithoutPurges(ops)[1..] == WithoutPurges(rest);
      case Record(seen) =>
        MinuteNonNegative(seen.ts);
        var k := ToMinute(seen.ts);
        RepliesTransparent(a[k := seen.price], b[k := seen.price], cutoff, window, rest);
        assert WithoutPurges(ops)[1..] == WithoutPurges(rest);
      case Purge(c) =>
        RepliesTransparent(DeletedBefore(a, c), b, Later(cutoff, c), window, rest);
        assert WithoutPurges(ops) == WithoutPurges(rest);
    }
  }

  /** Deleting quotes never shows: the replies are those of the same run without deletions. */
  lemma PurgesAreInvisible(quotes: Quotes, window: int, ops: seq<Op>)
    requires AfterYearOne(quotes) && window < MAX_DURATION && AsksRecent(ops, window, None)
    ensures Replies(quotes, window, ops) == Replies(quotes, window, WithoutPurges(ops))
  {
    RepliesTransparent(quotes, quotes, None, window, ops);
  }

  /** With this window, deletions show in no run. */
  ghost predicate PurgesNeverShow(window: int) {
    forall quotes: Quotes, ops: seq<Op> :: AfterYearOne(quotes) && AsksRecent(ops, window, None)
      ==> Replies(quotes, window, ops) == Replies(quotes, window, WithoutPurges(ops))
  }

  /** Deletions are invisible exactly when the window is not the longest duration: with that one, a quote
      of year 1 answers a question of 1970 until it is deleted. */
  lemma PurgesInvisibleExact(window: int)
    requires window <= MAX_DURATION
    ensures PurgesNeverShow(window) <==> window < MAX_DURATION
  {
    if window < MAX_DURATION {
      forall quotes: Quotes, ops: seq<Op> | AfterYearOne(quotes) && AsksRecent(ops, window, None)
        ensures Replies(quotes, window, ops) == Replies(quotes, window, WithoutPurges(ops))
      {
        PurgesAreInvisible(quotes, window, ops);
      }
    } else {
      PurgeShows();
    }
  }

  lemma PurgeShows()
    ensures !PurgesNeverShow(MAX_DURATION)
  {
    var world := World(None, None, t => Err("no price"));
    var quotes: Quotes := map[0 := 7];
    var ask := Ask(EPOCH, world);
    var ops := [Purge(MINUTE), ask];
    assert ops[1..] == [ask] && [ask][1..] == [];
    assert WithoutPurges(ops) == [ask] by {
      assert WithoutPurges([ask]) == [ask] + WithoutPurges([]);
    }
    assert AsksRecent(ops, MAX_DURATION, None) by {
      assert AsksRecent([ask], MAX_DURATION, Some(MINUTE));
    }
    assert DeletedBefore(quotes, MINUTE) == map[];
    BeforeIsUnique(quotes, EPOCH, Quote(0, Micros(7)), Found(quotes, EPOCH));
    BeforeIsUnique(map[], EPOCH, NO_QUOTE, Found(map[], EPOCH));
    assert Replies(quotes, MAX_DURATION, [ask])[0] == Ok(Micros(7));
    assert Replies(map[], MAX_DURATION, [ask])[0] == Ok(Unset);
    assert Replies(quotes, MAX_DURATION, ops) == Replies(map[], MAX_DURATION, [ask]);
    assert AfterYearOne(quotes);
    assert Replies(quotes, MAX_DURATION, ops) != Replies(quotes, MAX_DURATION, WithoutPurges(ops));
  }
}
