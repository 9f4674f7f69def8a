/** From transfer events to payments (`tokens/service.go`). */
module Payments {
  import opened Common
  import opened Scan
  import opened Cursor
  import opened ScanCoverage
  import CursorRuns
  import H = HeaderCache
  import P = PriceCache
  import R = PriceRuns

  datatype Payment = Payment(
    chainID: int, from: Address, to: Address, tokenValue: int, usdValue: P.Amount,
    blockHash: Hash, blockNumber: int, transaction: Hash, logIndex: int, timestamp: int)

  datatype LatestPayments = LatestPayments(latestBlocks: seq<Header>, payments: seq<Payment>)

  datatype PaymentError =
    | DialFailed(cause: Error)
    | HeaderFailed(reason: H.HeaderError)
    | PriceFailed(cause: Error)
    | EventsFailed(cause: Error)

  /** How a token value is converted at a price; the rounding is the currency library's. */
  type Valuer = (int, P.Amount) -> P.Amount

  function PaymentFromEvent(valuer: Valuer, e: TransferEvent, timestamp: int, price: P.Amount): Payment {
    Payment(e.chainID, e.from, e.to, e.tokenValue, valuer(e.tokenValue, price),
            e.blockHash, e.blockNumber, e.txHash, e.logIndex, timestamp)
  }

  /** What the outside does during one call, for endpoint i and event k. */
  datatype Outside = Outside(
    dial: int -> Option<Error>, header: (int, int) -> H.World, price: (int, int) -> P.World)

  /** The two tables that a call reads and fills. */
  datatype Books = Books(rows: H.Rows, quotes: P.Quotes)

  /******* What a call computes *******/

  /** One event of the endpoint's chain becomes one payment, or the call fails. */
  ghost function PayOne(window: int, valuer: Valuer, e: TransferEvent, books: Books, hw: H.World, pw: P.World)
    : (Result<Payment, PaymentError>, Books)
  {
    var (header, rows) := H.GetStep(books.rows, e.chainID, e.blockHash, hw);
    if header.Err? then (Err(HeaderFailed(header.error)), books.(rows := rows))
    else
      var (price, quotes) := P.PriceStep(books.quotes, window, header.value.timestamp, pw);
      (if price.Err? then Err(PriceFailed(price.error))
       else Ok(PaymentFromEvent(valuer, e, header.value.timestamp, price.value)),
       Books(rows, quotes))
  }

  /** The payments of endpoint i among the first n events. */
  ghost function PayEndpoint(
    window: int, valuer: Valuer, chainID: int, i: int, events: seq<TransferEvent>, n: nat,
    books: Books, outside: Outside)
    : (Result<seq<Payment>, PaymentError>, Books)
    requires n <= |events|
  {
    if n == 0 then (Ok([]), books)
    else
      var (before, b) := PayEndpoint(window, valuer, chainID, i, events, n - 1, books, outside);
      if before.Err? || events[n - 1].chainID != chainID then (before, b)
      else
        var (p, b') := PayOne(window, valuer, events[n - 1], b, outside.header(i, n - 1), outside.price(i, n - 1));
        (if p.Err? then Err(p.error) else Ok(before.value + [p.value]), b')
  }

  /** The payments of the first n endpoints, endpoint by endpoint. */
  ghost function PayAll(
    window: int, valuer: Valuer, endpoints: seq<Endpoint>, n: nat, events: seq<TransferEvent>,
    books: Books, outside: Outside)
    : (Result<seq<Payment>, PaymentError>, Books)
    requires n <= |endpoints|
  {
    if n == 0 then (Ok([]), books)
    else
      var (before, b) := PayAll(window, valuer, endpoints, n - 1, events, books, outside);
      if before.Err? then (before, b)
      else if outside.dial(n - 1).Some? then (Err(DialFailed(outside.dial(n - 1).value)), b)
      else
        var (r, b') := PayEndpoint(window, valuer, endpoints[n - 1].chainID, n - 1, events, |events|, b, outside);
        (if r.Err? then r else Ok(before.value + r.value), b')
  }

  const NO_HEADER := Header(0, seq(HASH_LENGTH, i => 0), 0, 0)

  /** The scanned header of each endpoint, in endpoint order; the zero header for a chain not scanned. */
  function LatestBlocks(endpoints: seq<Endpoint>, scanned: map<int, Header>): seq<Header> {
    seq(|endpoints|, i requires 0 <= i < |endpoints| =>
      if endpoints[i].chainID in scanned then scanned[endpoints[i].chainID] else NO_HEADER)
  }

  /** One request: the scan moves the cursors, and only then are its events converted. */
  ghost function Serve(
    cfg: Config, window: int, valuer: Valuer, cursors: Cursors, books: Books, call: Call, outside: Outside)
    : (Result<LatestPayments, PaymentError>, Cursors, Books)
    requires ValidConfig(cfg) && ValidCall(call)
  {
    var scan := Outcome(cfg, cursors, call);
    var cursors' := Cursor.After(cfg, cursors, call);
    if scan.Err? then (Err(EventsFailed(scan.error)), cursors', books)
    else
      var (paid, books') := PayAll(window, valuer, call.endpoints, |call.endpoints|, scan.value.events, books, outside);
      (if paid.Err? then Err(paid.error)
       else Ok(LatestPayments(LatestBlocks(call.endpoints, scan.value.blocks), paid.value)),
       cursors', books')
  }

  /******* The service *******/

  class TokensService {
    const endpoints: seq<Endpoint>
    const headersCache: H.HeadersCache
    const events: EventsService
    const tokenPrice: P.PriceService
    const valuer: Valuer

    constructor (
      endpoints: seq<Endpoint>, headersCache: H.HeadersCache, events: EventsService, tokenPrice: P.PriceService,
      valuer: Valuer)
      ensures this.endpoints == endpoints && this.headersCache == headersCache && this.events == events
      ensures this.tokenPrice == tokenPrice && this.valuer == valuer
    {
      this.endpoints, this.headersCache, this.events := endpoints, headersCache, events;
      this.tokenPrice, this.valuer := tokenPrice, valuer;
    }

    ghost function State(): Books
      reads headersCache.db, tokenPrice.db
    {
      Books(headersCache.db.rows, tokenPrice.db.quotes)
    }

    method ToPayment(e: TransferEvent, hw: H.World, pw: P.World) returns (r: Result<Payment, PaymentError>)
      modifies headersCache.db, tokenPrice.db
      ensures (r, State()) == PayOne(tokenPrice.priceWindow, valuer, e, old(State()), hw, pw)
    {
      var header := headersCache.Get(e.chainID, e.blockHash, hw);
      if header.Err? {
        return Err(HeaderFailed(header.error));
      }
      var price := tokenPrice.PriceAt(header.value.timestamp, pw);
      if price.Err? {
        return Err(PriceFailed(price.error));
      }
      return Ok(PaymentFromEvent(valuer, e, header.value.timestamp, price.value));
    }

    method ToPaymentsForEndpoint(i: nat, newEvents: seq<TransferEvent>, outside: Outside)
      returns (r: Result<seq<Payment>, PaymentError>)
      requires i < |endpoints|
      modifies headersCache.db, tokenPrice.db
      ensures outside.dial(i).Some? ==> r == Err(DialFailed(outside.dial(i).value)) && State() == old(State())
      ensures outside.dial(i).None? ==>
        PayEndpoint(tokenPrice.priceWindow, valuer, endpoints[i].chainID, i, newEvents, |newEvents|,
                                                    old(State()), outside) == (r, State())
    {
      if outside.dial(i).Some? {
        return Err(DialFailed(outside.dial(i).value));
      }
      hide PayOne;
      ghost var window, chainID, books := tokenPrice.priceWindow, endpoints[i].chainID, State();
      var payments := [];
      for k := 0 to |newEvents|
        invariant (Ok(payments), State()) == PayEndpoint(window, valuer, chainID, i, newEvents, k, books, outside)
      {
        if newEvents[k].chainID != endpoints[i].chainID {
          continue;
        }
        var payment := ToPayment(newEvents[k], outside.header(i, k), outside.price(i, k));
        if payment.Err? {
          EndpointStops(window, valuer, chainID, i, newEvents, k + 1, books, outside);
          return Err(payment.error);
        }
        payments := payments + [payment.value];
      }
      return Ok(payments);
    }

    method ToPayments(scannedBlocks: map<int, Header>, newEvents: seq<TransferEvent>, outside: Outside)
      returns (r: Result<LatestPayments, PaymentError>)
      modifies headersCache.db, tokenPrice.db
      ensures var (paid, books) := PayAll(
        tokenPrice.priceWindow, valuer, endpoints, |endpoints|, newEvents, old(State()), outside);
        State() == books && r == if paid.Err? then Err(paid.error)
          else Ok(LatestPayments(LatestBlocks(endpoints, scannedBlocks), paid.value))
    {
      hide PayEndpoint;
      ghost var window, books := tokenPrice.priceWindow, State();
      var allPayments, latestBlocks := [], [];
      for i := 0 to |endpoints|
        invariant (Ok(allPayments), State()) == PayAll(window, valuer, endpoints, i, newEvents, books, outside)
        invariant latestBlocks == LatestBlocks(endpoints, scannedBlocks)[..i]
      {
        var payments := ToPaymentsForEndpoint(i, newEvents, outside);
        if payments.Err? {
          AllStops(window, valuer, endpoints, i + 1, newEvents, books, outside);
          return Err(payments.error);
        }
        var chainID := endpoints[i].chainID;
        latestBlocks := latestBlocks + [if chainID in scannedBlocks then scannedBlocks[chainID] else NO_HEADER];
        allPayments := allPayments + payments.value;
      }
      assert latestBlocks == LatestBlocks(endpoints, scannedBlocks);
      return Ok(LatestPayments(latestBlocks, allPayments));
    }

    /** All payments to a satellite's wallets: scan, then convert. */
    method AllPayments(
      views: seq<View>, satellite: string, wallets: Result<seq<Address>, Error>, from: FromBlocks, outside: Outside)
      returns (r: Result<LatestPayments, PaymentError>)
      requires ValidConfig(events.config) && |views| == |endpoints|
      modifies events, from, headersCache.db, tokenPrice.db
      ensures var call := Call(satellite, endpoints, views, wallets, old(from.blocks));
        var scan := Outcome(events.config, old(events.lastScannedBlock), call);
        && (r, events.lastScannedBlock, State())
           == Serve(events.config, tokenPrice.priceWindow, valuer,
              old(events.lastScannedBlock), old(State()), call, outside)
        && from.blocks == Raised(old(from.blocks), CursorOf(old(events.lastScannedBlock), satellite))
        && (r.Ok? ==> scan.Ok? && r.value.latestBlocks == LatestBlocks(endpoints, scan.value.blocks))
        && (r.Ok? && CursorRuns.DistinctChains(endpoints) ==> Sources(r.value.payments) == scan.value.events)
    {
      hide Outcome, Cursor.After, PayAll, Raised;
      ghost var cursors, start := events.lastScannedBlock, from.blocks;
      var scan := events.GetForSatellite(endpoints, views, satellite, wallets, from);
      if scan.Err? {
        return Err(EventsFailed(scan.error));
      }
      ghost var books := State();
      r := ToPayments(scan.value.blocks, scan.value.events, outside);
      PaymentsArePartition(tokenPrice.priceWindow, valuer, endpoints, |endpoints|, scan.value.events, books, outside);
      assert endpoints[..|endpoints|] == endpoints;
      if CursorRuns.DistinctChains(endpoints) {
        OutcomeIsGrouped(events.config, cursors, Call(satellite, endpoints, views, wallets, start));
      }
    }
  }

  lemma {:induction false} EndpointStops(
    window: int, valuer: Valuer, chainID: int, i: int, events: seq<TransferEvent>, n: nat,
    books: Books, outside: Outside)
    requires n <= |events| && PayEndpoint(window, valuer, chainID, i, events, n, books, outside).0.Err?
    ensures PayEndpoint(window, valuer, chainID, i, events, |events|, books, outside)
         == PayEndpoint(window, valuer, chainID, i, events, n, books, outside)
    decreases |events| - n
  {
    hide PayOne;
    if n >= |events| {
    } else {
      EndpointStops(window, valuer, chainID, i, events, n + 1, books, outside);
    }
  }

  lemma {:induction false} AllStops(
    window: int, valuer: Valuer, endpoints: seq<Endpoint>, n: nat, events: seq<TransferEvent>,
    books: Books, outside: Outside)
    requires n <= |endpoints| && PayAll(window, valuer, endpoints, n, events, books, outside).0.Err?
    ensures PayAll(window, valuer, endpoints, |endpoints|, events, books, outside)
         == PayAll(window, valuer, endpoints, n, events, books, outside)
    decreases |endpoints| - n
  {
    hide PayEndpoint;
    if n >= |endpoints| {
    } else {
      AllStops(window, valuer, endpoints, n + 1, events, books, outside);
    }
  }

  /******* Payments are events *******/

  /** The event a payment was made from. */
  function Source(p: Payment): TransferEvent {
    TransferEvent(p.chainID, p.from, p.to, p.blockHash, p.blockNumber, p.transaction, p.logIndex, p.tokenValue)
  }

  function Sources(ps: seq<Payment>): seq<TransferEvent> {
    if ps == [] then [] else Sources(ps[..|ps| - 1]) + [Source(ps[|ps| - 1])]
  }

  lemma {:induction false} SourcesAppend(a: seq<Payment>, b: seq<Payment>)
    ensures Sources(a + b) == Sources(a) + Sources(b)
  {
    if b == [] {
      assert a + b == a;
    } else {
      assert (a + b)[..|a + b| - 1] == a + b[..|b| - 1];
      SourcesAppend(a, b[..|b| - 1]);
    }
  }

  function OnChain(events: seq<TransferEvent>, chainID: int): seq<TransferEvent> {
    if events == [] then []
    else
      var n := |events| - 1;
      OnChain(events[..n], chainID) + if events[n].chainID == chainID then [events[n]] else []
  }

  /** The events endpoint by endpoint, in their order within each. */
  function Partition(endpoints: seq<Endpoint>, events: seq<TransferEvent>): seq<TransferEvent> {
    if endpoints == [] then []
    else
      var n := |endpoints| - 1;
      Partition(endpoints[..n], events) + OnChain(events, endpoints[n].chainID)
  }

  lemma {:induction false} EndpointSources(
    window: int, valuer: Valuer, chainID: int, i: int, events: seq<TransferEvent>, n: nat,
    books: Books, outside: Outside)
    requires n <= |events|
    ensures var r := PayEndpoint(window, valuer, chainID, i, events, n, books, outside).0;
      r.Ok? ==> Sources(r.value) == OnChain(events[..n], chainID)
  {
    hide H.GetStep, P.PriceStep;
    if n == 0 {
    } else {
      EndpointSources(window, valuer, chainID, i, events, n - 1, books, outside);
      assert events[..n][..n - 1] == events[..n - 1];
      var (before, b) := PayEndpoint(window, valuer, chainID, i, events, n - 1, books, outside);
      if before.Ok? && events[n - 1].chainID == chainID {
        var (p, b') := PayOne(window, valuer, events[n - 1], b, outside.header(i, n - 1), outside.price(i, n - 1));
        if p.Ok? {
          assert Source(p.value) == events[n - 1];
          assert (before.value + [p.value])[..|before.value|] == before.value;
        }
      }
    }
  }

  /** The payments are the events, one to one: a stable partition by endpoint that drops only unknown chains. */
  lemma {:induction false} PaymentsArePartition(
    window: int, valuer: Valuer, endpoints: seq<Endpoint>, n: nat, events: seq<TransferEvent>,
    books: Books, outside: Outside)
    requires n <= |endpoints|
    ensures var r := PayAll(window, valuer, endpoints, n, events, books, outside).0;
      r.Ok? ==> Sources(r.value) == Partition(endpoints[..n], events)
  {
    hide PayEndpoint, OnChain;
    if n == 0 {
    } else {
      PaymentsArePartition(window, valuer, endpoints, n - 1, events, books, outside);
      assert endpoints[..n][..n - 1] == endpoints[..n - 1];
      var (before, b) := PayAll(window, valuer, endpoints, n - 1, events, books, outside);
      if before.Ok? {
        EndpointSources(window, valuer, endpoints[n - 1].chainID, n - 1, events, |events|, b, outside);
        assert events[..|events|] == events;
        var r := PayEndpoint(window, valuer, endpoints[n - 1].chainID, n - 1, events, |events|, b, outside).0;
        if r.Ok? {
          SourcesAppend(before.value, r.value);
        }
      }
    }
  }

  predicate KnownChain(endpoints: seq<Endpoint>, chainID: int) {
    exists i :: 0 <= i < |endpoints| && endpoints[i].chainID == chainID
  }

  lemma {:induction false} OnChainCount(events: seq<TransferEvent>, chainID: int, e: TransferEvent)
    ensures multiset(OnChain(events, chainID))[e] == if e.chainID == chainID then multiset(events)[e] else 0
  {
    if events == [] {
    } else {
      var n := |events| - 1;
      OnChainCount(events[..n], chainID, e);
      assert events == events[..n] + [events[n]];
    }
  }

  /** With distinct chains, the partition holds each event of a known chain as often as the list does, and no other. */
  lemma {:induction false} PartitionCount(endpoints: seq<Endpoint>, events: seq<TransferEvent>, e: TransferEvent)
    requires CursorRuns.DistinctChains(endpoints)
    ensures multiset(Partition(endpoints, events))[e]
      == if KnownChain(endpoints, e.chainID) then multiset(events)[e] else 0
  {
    hide OnChain, KnownChain;
    if endpoints == [] {
      NoChainKnown(e.chainID);
    } else {
      var n := |endpoints| - 1;
      PartitionCount(endpoints[..n], events, e);
      OnChainCount(events, endpoints[n].chainID, e);
      KnownWithLast(endpoints, e.chainID);
      LastIsNew(endpoints);
    }
  }

  lemma {:induction false} PartitionMembers(endpoints: seq<Endpoint>, events: seq<TransferEvent>)
    ensures forall e :: e in Partition(endpoints, events) ==> e in events
  {
    if endpoints == [] {
    } else {
      PartitionMembers(endpoints[..|endpoints| - 1], events);
      OnChainMembers(events, endpoints[|endpoints| - 1].chainID);
    }
  }

  lemma {:induction false} OnChainMembers(events: seq<TransferEvent>, chainID: int)
    ensures forall e :: e in OnChain(events, chainID) ==> e in events
  {
    if events == [] {
    } else {
      OnChainMembers(events[..|events| - 1], chainID);
    }
  }

  /******* Events that a scan returns *******/

  lemma {:induction false} OnChainAppend(a: seq<TransferEvent>, b: seq<TransferEvent>, chainID: int)
    ensures OnChain(a + b, chainID) == OnChain(a, chainID) + OnChain(b, chainID)
  {
    if b == [] {
      assert a + b == a;
    } else {
      var n := |b| - 1;
      assert (a + b)[..|a + b| - 1] == a + b[..n];
      OnChainAppend(a, b[..n], chainID);
    }
  }

  lemma {:induction false} OnChainUniform(events: seq<TransferEvent>, chainID: int, c: int)
    requires AllOn(events, c)
    ensures OnChain(events, chainID) == if c == chainID then events else []
  {
    if events == [] {
    } else {
      var n := |events| - 1;
      OnChainUniform(events[..n], chainID, c);
      assert events == events[..n] + [events[n]];
    }
  }

  lemma {:induction false} PartitionElsewhere(
    endpoints: seq<Endpoint>, a: seq<TransferEvent>, b: seq<TransferEvent>, c: int)
    requires AllOn(b, c)
    requires forall i :: 0 <= i < |endpoints| ==> endpoints[i].chainID != c
    ensures Partition(endpoints, a + b) == Partition(endpoints, a)
  {
    hide OnChain;
    if endpoints == [] {
    } else {
      var n := |endpoints| - 1;
      PartitionElsewhere(endpoints[..n], a, b, c);
      OnChainAppend(a, b, endpoints[n].chainID);
      OnChainUniform(b, endpoints[n].chainID, c);
    }
  }

  lemma {:induction false} ScanIsGrouped(
    cfg: Config, endpoints: seq<Endpoint>, views: seq<View>, wallets: seq<Address>, from: map<int, int>, n: nat)
    requires ValidConfig(cfg) && n <= |endpoints| == |views| && CursorRuns.DistinctChains(endpoints)
    ensures var r := ScanAll(cfg, endpoints, views, wallets, from, n);
      r.Ok? ==> && Partition(endpoints[..n], r.value.events) == r.value.events
                && forall k :: 0 <= k < |r.value.events| ==> KnownChain(endpoints[..n], r.value.events[k].chainID)
  {
    hide ScanEndpoint, OnChain, KnownChain, AllOn;
    if n == 0 || ScanAll(cfg, endpoints, views, wallets, from, n).Err? {
    } else {
      var m := n - 1;
      ScanIsGrouped(cfg, endpoints, views, wallets, from, m);
      var before := ScanAll(cfg, endpoints, views, wallets, from, m).value.events;
      var c, head := endpoints[m].chainID, views[m].head.value;
      var part := ScanEndpoint(cfg, views[m].node, c, ToUint64(GetOrZero(from, c)), head.number, wallets).value;
      EndpointChain(cfg, views[m].node, c, ToUint64(GetOrZero(from, c)), head.number, wallets);
      PartitionElsewhere(endpoints[..m], before, part, c);
      OnChainAppend(before, part, c);
      OnChainUniform(part, c, c);
      assert endpoints[..n][..m] == endpoints[..m];
      KnownWithLast(endpoints[..n], c);
      LastIsNew(endpoints[..n]);
      forall k | 0 <= k < |before|
        ensures KnownChain(endpoints[..n], before[k].chainID) && before[k].chainID != c
      {
        KnownWithLast(endpoints[..n], before[k].chainID);
      }
      NotOnChain(before, c);
      KnownAppend(endpoints[..n], before, part, c);
    }
  }

  lemma KnownAppend(endpoints: seq<Endpoint>, a: seq<TransferEvent>, b: seq<TransferEvent>, c: int)
    requires forall k :: 0 <= k < |a| ==> KnownChain(endpoints, a[k].chainID)
    requires AllOn(b, c) && KnownChain(endpoints, c)
    ensures forall k :: 0 <= k < |a + b| ==> KnownChain(endpoints, (a + b)[k].chainID)
  {}

  lemma {:induction false} NotOnChain(events: seq<TransferEvent>, c: int)
    requires forall i :: 0 <= i < |events| ==> events[i].chainID != c
    ensures OnChain(events, c) == []
  {
    if events == [] {
    } else {
      NotOnChain(events[..|events| - 1], c);
    }
  }

  lemma OutcomeIsGrouped(cfg: Config, cursors: Cursors, call: Call)
    requires ValidConfig(cfg) && ValidCall(call) && CursorRuns.DistinctChains(call.endpoints)
    ensures var r := Outcome(cfg, cursors, call); r.Ok? ==> Partition(call.endpoints, r.value.events) == r.value.events
  {
    hide ScanAll, Partition;
    if call.wallets.Ok? {
      ScanIsGrouped(cfg, call.endpoints, call.views, call.wallets.value,
        Raised(call.from, CursorOf(cursors, call.satellite)), |call.endpoints|);
      assert call.endpoints[..|call.endpoints|] == call.endpoints;
    }
  }

  /******* Value and time *******/

  function TotalTokens(events: seq<TransferEvent>): int {
    if events == [] then 0 else TotalTokens(events[..|events| - 1]) + events[|events| - 1].tokenValue
  }

  function TotalPaid(ps: seq<Payment>): int {
    if ps == [] then 0 else TotalPaid(ps[..|ps| - 1]) + ps[|ps| - 1].tokenValue
  }

  lemma {:induction false} PaidIsTokens(ps: seq<Payment>)
    ensures |Sources(ps)| == |ps| && TotalTokens(Sources(ps)) == TotalPaid(ps)
  {
    if ps == [] {
    } else {
      var n := |ps| - 1;
      PaidIsTokens(ps[..n]);
      assert Sources(ps)[..n] == Sources(ps[..n]);
    }
  }

  /** The token value of the events of the endpoints' chains. */
  function KnownTokens(endpoints: seq<Endpoint>, events: seq<TransferEvent>): int {
    if events == [] then 0
    else
      var n := |events| - 1;
      KnownTokens(endpoints, events[..n]) + if KnownChain(endpoints, events[n].chainID) then events[n].tokenValue else 0
  }

  lemma {:induction false} TotalTokensAppend(a: seq<TransferEvent>, b: seq<TransferEvent>)
    ensures TotalTokens(a + b) == TotalTokens(a) + TotalTokens(b)
  {
    if b == [] {
      assert a + b == a;
    } else {
      assert (a + b)[..|a + b| - 1] == a + b[..|b| - 1];
      TotalTokensAppend(a, b[..|b| - 1]);
    }
  }

  lemma NoChainKnown(c: int)
    ensures !KnownChain([], c)
  {}

  lemma KnownWithLast(endpoints: seq<Endpoint>, c: int)
    requires endpoints != []
    ensures var n := |endpoints| - 1;
      KnownChain(endpoints, c) <==> KnownChain(endpoints[..n], c) || endpoints[n].chainID == c
  {
    var n := |endpoints| - 1;
    if KnownChain(endpoints[..n], c) {
      var i :| 0 <= i < n && endpoints[..n][i].chainID == c;
      assert endpoints[i].chainID == c;
    }
    if KnownChain(endpoints, c) {
      var i :| 0 <= i < |endpoints| && endpoints[i].chainID == c;
      assert i < n ==> endpoints[..n][i].chainID == c;
    }
  }

  lemma LastIsNew(endpoints: seq<Endpoint>)
    requires endpoints != [] && CursorRuns.DistinctChains(endpoints)
    ensures !KnownChain(endpoints[..|endpoints| - 1], endpoints[|endpoints| - 1].chainID)
  {}

  lemma {:induction false} KnownTokensGrow(endpoints: seq<Endpoint>, events: seq<TransferEvent>)
    requires endpoints != [] && CursorRuns.DistinctChains(endpoints)
    ensures var n := |endpoints| - 1;
      KnownTokens(endpoints, events)
        == KnownTokens(endpoints[..n], events) + TotalTokens(OnChain(events, endpoints[n].chainID))
  {
    hide KnownChain;
    if events == [] {
    } else {
      var e := events[|events| - 1];
      KnownTokensGrow(endpoints, events[..|events| - 1]);
      KnownWithLast(endpoints, e.chainID);
      LastIsNew(endpoints);
      var c := endpoints[|endpoints| - 1].chainID;
      TotalTokensAppend(OnChain(events[..|events| - 1], c), if e.chainID == c then [e] else []);
      assert TotalTokens([e]) == e.tokenValue;
    }
  }

  lemma {:induction false} PartitionTokens(endpoints: seq<Endpoint>, events: seq<TransferEvent>)
    requires CursorRuns.DistinctChains(endpoints)
    ensures TotalTokens(Partition(endpoints, events)) == KnownTokens(endpoints, events)
  {
    hide OnChain, KnownChain;
    if endpoints == [] {
      NoneKnown(events);
    } else {
      var n := |endpoints| - 1;
      PartitionTokens(endpoints[..n], events);
      KnownTokensGrow(endpoints, events);
      TotalTokensAppend(Partition(endpoints[..n], events), OnChain(events, endpoints[n].chainID));
    }
  }

  lemma {:induction false} NoneKnown(events: seq<TransferEvent>)
    ensures KnownTokens([], events) == 0
  {
    if events == [] {
    } else {
      NoneKnown(events[..|events| - 1]);
    }
  }

  lemma {:induction false} AllKnown(endpoints: seq<Endpoint>, events: seq<TransferEvent>)
    requires forall k :: 0 <= k < |events| ==> KnownChain(endpoints, events[k].chainID)
    ensures KnownTokens(endpoints, events) == TotalTokens(events)
  {
    hide KnownChain;
    if events == [] {
    } else {
      AllKnown(endpoints, events[..|events| - 1]);
    }
  }

  /**
   * A successful conversion pays out the token value of the events it was given: of all events on the
   * endpoints' chains, and so of all events when every chain is known.
   */
  lemma ValueIsConserved(
    window: int, valuer: Valuer, endpoints: seq<Endpoint>, events: seq<TransferEvent>, books: Books, outside: Outside)
    requires CursorRuns.DistinctChains(endpoints)
    requires PayAll(window, valuer, endpoints, |endpoints|, events, books, outside).0.Ok?
    ensures var paid := PayAll(window, valuer, endpoints, |endpoints|, events, books, outside).0.value;
      && TotalPaid(paid) == KnownTokens(endpoints, events)
      && ((forall k :: 0 <= k < |events| ==> KnownChain(endpoints, events[k].chainID))
          ==> TotalPaid(paid) == TotalTokens(events))
  {
    hide PayAll, KnownChain, Partition, CursorRuns.DistinctChains;
    var paid := PayAll(window, valuer, endpoints, |endpoints|, events, books, outside).0.value;
    PaymentsArePartition(window, valuer, endpoints, |endpoints|, events, books, outside);
    assert endpoints[..|endpoints|] == endpoints;
    PaidIsTokens(paid);
    PartitionTokens(endpoints, events);
    if forall k :: 0 <= k < |events| ==> KnownChain(endpoints, events[k].chainID) {
      AllKnown(endpoints, events);
    }
  }

  /** The timestamp of a payment is that of its block on the chain. */
  ghost predicate TimedBy(truth: H.Truth, p: Payment) {
    truth(H.Key(p.chainID, p.blockHash)).Some?
    && p.timestamp == EPOCH + truth(H.Key(p.chainID, p.blockHash)).value.time * H.SECOND
  }

  ghost predicate AllTimed(truth: H.Truth, ps: seq<Payment>) {
    forall i :: 0 <= i < |ps| ==> TimedBy(truth, ps[i])
  }

  lemma AllTimedAppend(truth: H.Truth, a: seq<Payment>, b: seq<Payment>)
    requires AllTimed(truth, a) && AllTimed(truth, b)
    ensures AllTimed(truth, a + b)
  {}

  /** Every header is asked of a reachable node. */
  ghost predicate NodesTruthful(truth: H.Truth, events: seq<TransferEvent>, outside: Outside) {
    forall i: int, k: int :: 0 <= k < |events|
      ==> outside.header(i, k).answer == H.Fetch(truth, H.Key(events[k].chainID, events[k].blockHash))
  }

  lemma PayOneTimed(
    truth: H.Truth, window: int, valuer: Valuer, e: TransferEvent, books: Books, hw: H.World, pw: P.World)
    requires H.AgreesWith(books.rows, truth) && hw.answer == H.Fetch(truth, H.Key(e.chainID, e.blockHash))
    ensures var (p, b') := PayOne(window, valuer, e, books, hw, pw);
      H.AgreesWith(b'.rows, truth) && (p.Ok? ==> TimedBy(truth, p.value))
  {
    hide P.PriceStep;
  }

  lemma {:induction false} EndpointTimed(
    truth: H.Truth, window: int, valuer: Valuer, chainID: int, i: int, events: seq<TransferEvent>, n: nat,
    books: Books, outside: Outside)
    requires n <= |events| && H.AgreesWith(books.rows, truth) && NodesTruthful(truth, events, outside)
    ensures var (r, b') := PayEndpoint(window, valuer, chainID, i, events, n, books, outside);
      H.AgreesWith(b'.rows, truth) && (r.Ok? ==> AllTimed(truth, r.value))
  {
    hide PayOne, H.AgreesWith;
    if n == 0 {
      assert AllTimed(truth, []);
    } else {
      EndpointTimed(truth, window, valuer, chainID, i, events, n - 1, books, outside);
      var (before, b) := PayEndpoint(window, valuer, chainID, i, events, n - 1, books, outside);
      PayOneTimed(truth, window, valuer, events[n - 1], b, outside.header(i, n - 1), outside.price(i, n - 1));
      var p := PayOne(window, valuer, events[n - 1], b, outside.header(i, n - 1), outside.price(i, n - 1)).0;
      if before.Ok? && p.Ok? {
        AllTimedAppend(truth, before.value, [p.value]);
      }
    }
  }

  /** Whatever the cache held from earlier runs, every payment is dated by the chain. */
  lemma {:induction false} PaymentsTimed(
    truth: H.Truth, window: int, valuer: Valuer, endpoints: seq<Endpoint>, n: nat, events: seq<TransferEvent>,
    books: Books, outside: Outside)
    requires n <= |endpoints| && H.AgreesWith(books.rows, truth) && NodesTruthful(truth, events, outside)
    ensures var (r, b') := PayAll(window, valuer, endpoints, n, events, books, outside);
      H.AgreesWith(b'.rows, truth) && (r.Ok? ==> AllTimed(truth, r.value))
  {
    hide PayEndpoint, H.AgreesWith, NodesTruthful;
    if n == 0 {
      assert AllTimed(truth, []);
    } else {
      PaymentsTimed(truth, window, valuer, endpoints, n - 1, events, books, outside);
      var (before, b) := PayAll(window, valuer, endpoints, n - 1, events, books, outside);
      EndpointTimed(truth, window, valuer, endpoints[n - 1].chainID, n - 1, events, |events|, b, outside);
      var r := PayEndpoint(window, valuer, endpoints[n - 1].chainID, n - 1, events, |events|, b, outside).0;
      if before.Ok? && r.Ok? {
        AllTimedAppend(truth, before.value, r.value);
      }
    }
  }

  /** A payment is valued at a price that was observed at most a window before its block's time. */
  ghost predicate PricedBy(observed: set<R.Observation>, window: int, valuer: Valuer, p: Payment) {
    exists price: P.Amount :: R.FreshAt(observed, window, p.timestamp, price)
        && p.usdValue == valuer(p.tokenValue, price)
  }

  ghost predicate AllPriced(observed: set<R.Observation>, window: int, valuer: Valuer, ps: seq<Payment>) {
    forall i :: 0 <= i < |ps| ==> PricedBy(observed, window, valuer, ps[i])
  }

  /** All that the price client reports during a conversion is among the observations. */
  ghost predicate ClientObserved(outside: Outside, observed: set<R.Observation>) {
    forall i: int, k: int :: R.AnswersObserved(outside.price(i, k), observed)
  }

  lemma PayOnePriced(
    observed: set<R.Observation>, window: int, valuer: Valuer, e: TransferEvent, books: Books, hw: H.World, pw: P.World)
    requires R.AllObserved(books.quotes, observed) && R.AnswersObserved(pw, observed)
    ensures var (p, b') := PayOne(window, valuer, e, books, hw, pw);
      R.AllObserved(b'.quotes, observed) && (p.Ok? ==> PricedBy(observed, window, valuer, p.value))
  {
    hide P.PriceStep, H.GetStep, R.FreshAt, R.AllObserved, R.AnswersObserved;
    var (header, rows) := H.GetStep(books.rows, e.chainID, e.blockHash, hw);
    if header.Ok? {
      R.PriceStepFresh(books.quotes, observed, window, header.value.timestamp, pw);
      var p := PayOne(window, valuer, e, books, hw, pw).0;
      var price := P.PriceStep(books.quotes, window, header.value.timestamp, pw).0;
      if price.Ok? {
        assert R.FreshAt(observed, window, p.value.timestamp, price.value);
      }
    }
  }

  lemma {:induction false} EndpointPriced(
    observed: set<R.Observation>, window: int, valuer: Valuer, chainID: int, i: int, events: seq<TransferEvent>, n: nat,
    books: Books, outside: Outside)
    requires n <= |events| && R.AllObserved(books.quotes, observed) && ClientObserved(outside, observed)
    ensures var (r, b') := PayEndpoint(window, valuer, chainID, i, events, n, books, outside);
      R.AllObserved(b'.quotes, observed) && (r.Ok? ==> AllPriced(observed, window, valuer, r.value))
  {
    hide PayOne, R.AllObserved, PricedBy;
    if n == 0 {
      assert AllPriced(observed, window, valuer, []);
    } else {
      EndpointPriced(observed, window, valuer, chainID, i, events, n - 1, books, outside);
      var (before, b) := PayEndpoint(window, valuer, chainID, i, events, n - 1, books, outside);
      PayOnePriced(observed, window, valuer, events[n - 1], b, outside.header(i, n - 1), outside.price(i, n - 1));
      var p := PayOne(window, valuer, events[n - 1], b, outside.header(i, n - 1), outside.price(i, n - 1)).0;
      if before.Ok? && p.Ok? {
        AllPricedAppend(observed, window, valuer, before.value, [p.value]);
      }
    }
  }

  lemma AllPricedAppend(
    observed: set<R.Observation>, window: int, valuer: Valuer, a: seq<Payment>, b: seq<Payment>)
    requires AllPriced(observed, window, valuer, a) && AllPriced(observed, window, valuer, b)
    ensures AllPriced(observed, window, valuer, a + b)
  {
    hide PricedBy;
  }

  /** Whatever the quote table held from earlier runs, every payment is valued at a fresh price. */
  lemma {:induction false} PaymentsPriced(
    observed: set<R.Observation>, window: int, valuer: Valuer, endpoints: seq<Endpoint>, n: nat,
    events: seq<TransferEvent>, books: Books, outside: Outside)
    requires n <= |endpoints| && R.AllObserved(books.quotes, observed) && ClientObserved(outside, observed)
    ensures var (r, b') := PayAll(window, valuer, endpoints, n, events, books, outside);
      R.AllObserved(b'.quotes, observed) && (r.Ok? ==> AllPriced(observed, window, valuer, r.value))
  {
    hide PayEndpoint, R.AllObserved, PricedBy, ClientObserved;
    if n == 0 {
      assert AllPriced(observed, window, valuer, []);
    } else {
      PaymentsPriced(observed, window, valuer, endpoints, n - 1, events, books, outside);
      var (before, b) := PayAll(window, valuer, endpoints, n - 1, events, books, outside);
      EndpointPriced(observed, window, valuer, endpoints[n - 1].chainID, n - 1, events, |events|, b, outside);
      var r := PayEndpoint(window, valuer, endpoints[n - 1].chainID, n - 1, events, |events|, b, outside).0;
      if before.Ok? && r.Ok? {
        AllPricedAppend(observed, window, valuer, before.value, r.value);
      }
    }
  }
}
