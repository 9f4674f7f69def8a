/** What a reply tells the satellite: the payments field by field, the scanned headers, and the reason of a failure. */
module Replies {
  import opened Common
  import opened LogStream
  import opened Scan
  import opened ScanProperties
  import opened ScanCoverage
  import opened Cursor
  import opened CursorRuns
  import opened Payments
  import opened Conversions
  import opened PaymentRuns

  /******* Payments, field by field *******/

  /** Endpoint e served, to some query of the call, a chain with a log that unpacks and reads as the event. */
  ghost predicate ReadFrom(call: Call, ev: TransferEvent, e: int)
    requires ValidCall(call) && call.wallets.Ok?
  {
    && 0 <= e < |call.endpoints| && ev.chainID == call.endpoints[e].chainID
    && HasQuery(ev, call.views[e].node, ev.chainID, call.wallets.value, 0)
  }

  ghost predicate IsRead(call: Call, ev: TransferEvent)
    requires ValidCall(call) && call.wallets.Ok?
  {
    exists e :: ReadFrom(call, ev, e)
  }

  lemma {:induction false} ScanAllReads(cfg: Config, call: Call, from: map<int, int>, n: nat)
    requires ValidConfig(cfg) && ValidCall(call) && call.wallets.Ok? && n <= |call.endpoints|
    ensures var r := ScanAll(cfg, call.endpoints, call.views, call.wallets.value, from, n);
      r.Ok? ==> forall ev :: ev in r.value.events ==> IsRead(call, ev)
  {
    hide ScanEndpoint, HasQuery;
    if n == 0 || ScanAll(cfg, call.endpoints, call.views, call.wallets.value, from, n).Err? {
    } else {
      var m, wallets := n - 1, call.wallets.value;
      var c, node, head := call.endpoints[m].chainID, call.views[m].node, call.views[m].head.value.number;
      var start := ToUint64(GetOrZero(from, c));
      ScanAllReads(cfg, call, from, m);
      EndpointReads(cfg, node, c, start, head, wallets);
      EndpointChain(cfg, node, c, start, head, wallets);
      var before := ScanAll(cfg, call.endpoints, call.views, wallets, from, m).value.events;
      var part := ScanEndpoint(cfg, node, c, start, head, wallets).value;
      FromHigher(part, node, c, wallets, start, 0);
      forall ev | ev in before + part
        ensures IsRead(call, ev)
      {
        if ev !in before {
          assert ReadFrom(call, ev, m);
        }
      }
    }
  }

  lemma OutcomeReads(cfg: Config, cursors: Cursors, call: Call)
    requires ValidConfig(cfg) && ValidCall(call)
    ensures var r := Outcome(cfg, cursors, call);
      r.Ok? ==> call.wallets.Ok? && forall ev :: ev in r.value.events ==> IsRead(call, ev)
  {
    hide ScanAll, Raised, IsRead;
    if call.wallets.Ok? {
      ScanAllReads(cfg, call, Raised(call.from, CursorOf(cursors, call.satellite)), |call.endpoints|);
    }
  }

  /** The payment has the endpoint's chain, and the log's sender, recipient, amount, block, transaction and
      index. */
  ghost predicate PaysFor(p: Payment, chainID: int, log: Log) {
    && p.chainID == chainID
    && p.from == log.from && p.to == log.to && p.tokenValue == log.amount
    && p.blockHash == log.blockHash && p.blockNumber == log.blockNumber
    && p.transaction == log.txHash && p.logIndex == log.index
  }

  /** The log is in a chain that endpoint e served to some query, goes to a wallet of the satellite, and unpacks. */
  ghost predicate ServedLog(call: Call, e: int, j: int, i: int, b: int, log: Log)
    requires ValidCall(call) && call.wallets.Ok?
  {
    && 0 <= e < |call.endpoints| && call.views[e].node.answer(j, i).Served?
    && var chain := call.views[e].node.answer(j, i).chain;
       0 <= b < |chain| && log in chain[b] && log.to in call.wallets.value && log.decodes
  }

  ghost predicate PaidLog(call: Call, p: Payment)
    requires ValidCall(call) && call.wallets.Ok?
  {
    exists e, j, i, b, log :: ServedLog(call, e, j, i, b, log) && PaysFor(p, call.endpoints[e].chainID, log)
  }

  lemma {:induction false} SourcesAt(ps: seq<Payment>)
    ensures |Sources(ps)| == |ps| && forall k :: 0 <= k < |ps| ==> Sources(ps)[k] == Source(ps[k])
  {
    if ps == [] {
    } else {
      SourcesAt(ps[..|ps| - 1]);
    }
  }

  lemma ReadIsPaid(call: Call, p: Payment, e: int)
    requires ValidCall(call) && call.wallets.Ok? && ReadFrom(call, Source(p), e)
    ensures PaidLog(call, p)
  {
    var ev, wallets := Source(p), call.wallets.value;
    var j, i :| QueryOf(ev, call.views[e].node, ev.chainID, wallets, 0, j, i);
    var b, log :| SourceOf(ev, call.views[e].node.answer(j, i).chain, ev.chainID, wallets, 0, b, log);
    assert Reads(ev, ev.chainID, log);
    assert ServedLog(call, e, j, i, b, log) && PaysFor(p, call.endpoints[e].chainID, log);
  }

  /** Whatever the nodes answer, each payment of a reply carries, field by field, a log that one of them served. */
  lemma ReplyReads(
    cfg: Config, window: int, valuer: Valuer, cursors: Cursors, books: Books, call: Call, outside: Outside)
    requires ValidConfig(cfg) && ValidCall(call)
    ensures var r := Serve(cfg, window, valuer, cursors, books, call, outside).0;
      r.Ok? ==> call.wallets.Ok? && forall k :: 0 <= k < |r.value.payments| ==> PaidLog(call, r.value.payments[k])
  {
    hide Outcome, Serve, PaidLog, ReadFrom, Cursor.After;
    var r := Serve(cfg, window, valuer, cursors, books, call, outside).0;
    ServeParts(cfg, window, valuer, cursors, books, call, outside);
    if r.Ok? {
      var ps := r.value.payments;
      OutcomeReads(cfg, cursors, call);
      SourcesAt(ps);
      forall k | 0 <= k < |ps|
        ensures PaidLog(call, ps[k])
      {
        assert Sources(ps)[k] in Sources(ps);
        assert Source(ps[k]) in Outcome(cfg, cursors, call).value.events;
        assert IsRead(call, Source(ps[k]));
        var e :| ReadFrom(call, Source(ps[k]), e);
        ReadIsPaid(call, ps[k], e);
      }
    }
  }

  /******* Scanned headers *******/

  /** Endpoint l is the last one with the chain of endpoint e. */
  ghost predicate LastOfChain(endpoints: seq<Endpoint>, e: nat, l: nat) {
    && e < |endpoints| && l < |endpoints| && endpoints[l].chainID == endpoints[e].chainID
    && forall k :: l < k < |endpoints| ==> endpoints[k].chainID != endpoints[e].chainID
  }

  /** A reply lists for every endpoint, in their order, the head that the last endpoint of its chain reported;
      with distinct chains, that is its own. */
  lemma ReplyHeads(
    cfg: Config, window: int, valuer: Valuer, cursors: Cursors, books: Books, call: Call, outside: Outside,
    e: nat, l: nat)
    requires ValidConfig(cfg) && ValidCall(call) && LastOfChain(call.endpoints, e, l)
    ensures var r := Serve(cfg, window, valuer, cursors, books, call, outside).0;
      r.Ok? ==>
        && |r.value.latestBlocks| == |call.endpoints| && call.views[l].head.Ok?
        && var head := call.views[l].head.value;
           r.value.latestBlocks[e] == Header(call.endpoints[e].chainID, head.hash, head.number, head.timestamp)
    ensures DistinctChains(call.endpoints) ==> l == e
  {
    hide ScanAll, PayAll, Raised, Cursor.After;
    var r := Serve(cfg, window, valuer, cursors, books, call, outside).0;
    if r.Ok? {
      var from, n := Raised(call.from, CursorOf(cursors, call.satellite)), |call.endpoints|;
      ScanAllHeader(cfg, call.endpoints, call.views, call.wallets.value, from, n, l);
    }
  }

  /******* Why a conversion fails *******/

  /** Why no header can be had, in the order in which it is tried. */
  function HeaderReason(e: TransferEvent, hw: H.World): H.HeaderError {
    if e.chainID == 0 then H.InvalidChain
    else if hw.readFault.Some? then H.Database(hw.readFault.value)
    else if hw.answer.Err? then H.Client(hw.answer.error)
    else if hw.writeFault.Some? then H.Database(hw.writeFault.value)
    else H.NoHeader
  }

  function PriceReason(window: int, t: P.Time, pw: P.World): Error {
    if pw.readFault.Some? then pw.readFault.value
    else
      match pw.answer(P.ToMinute(t))
      case Err(error) => error
      case Ok((ts, _)) =>
        if P.Sub(t, ts) > window then P.STALE_PRICE
        else if pw.writeFault.Some? then pw.writeFault.value
        else ""
  }

  /** The error that an event which is not payable ends the request with. */
  function EventReason(books: Books, window: int, e: TransferEvent, hw: H.World, pw: P.World): PaymentError {
    if !HeaderKnown(books.rows, e, hw) then HeaderFailed(HeaderReason(e, hw))
    else PriceFailed(PriceReason(window, RowOf(books.rows, e, hw).timestamp, pw))
  }

  lemma PayOneReason(window: int, valuer: Valuer, e: TransferEvent, books: Books, hw: H.World, pw: P.World)
    ensures var (p, _) := PayOne(window, valuer, e, books, hw, pw);
      p.Err? ==> !Payable(books, window, e, hw, pw) && p.error == EventReason(books, window, e, hw, pw)
  {
    hide P.Found, P.Sub, P.ToMinute, P.Covers;
    PayOneExact(window, valuer, e, books, hw, pw);
    if HeaderKnown(books.rows, e, hw) {
      var row := RowOf(books.rows, e, hw);
      assert H.GetStep(books.rows, e.chainID, e.blockHash, hw).0 == Ok(H.FromRow(KeyOf(e), row));
    }
  }

  /** Event k is the first of endpoint i that is not payable, and this is why. */
  ghost predicate FirstUnpayable(
    window: int, chainID: int, i: int, events: seq<TransferEvent>, n: nat, books: Books, outside: Outside, k: nat,
    error: PaymentError)
    requires n <= |events|
  {
    && k < n && events[k].chainID == chainID
    && EndpointPayable(window, chainID, i, events, k, books, outside)
    && var b := ReachedIn(window, chainID, i, events, k, books, outside);
       && !Payable(b, window, events[k], outside.header(i, k), outside.price(i, k))
       && error == EventReason(b, window, events[k], outside.header(i, k), outside.price(i, k))
  }

  lemma {:induction false} EndpointReason(
    window: int, valuer: Valuer, chainID: int, i: int, events: seq<TransferEvent>, n: nat,
    books: Books, outside: Outside)
    requires n <= |events|
    ensures var (r, _) := PayEndpoint(window, valuer, chainID, i, events, n, books, outside);
      r.Err? ==> exists k: nat :: FirstUnpayable(window, chainID, i, events, n, books, outside, k, r.error)
  {
    hide PayOne, Payable, Filled, EndpointPayable, EventReason, ReachedIn;
    if n == 0 {
    } else {
      var m := n - 1;
      var before := PayEndpoint(window, valuer, chainID, i, events, m, books, outside).0;
      var r := PayEndpoint(window, valuer, chainID, i, events, n, books, outside).0;
      EndpointReason(window, valuer, chainID, i, events, m, books, outside);
      EndpointExactly(window, valuer, chainID, i, events, m, books, outside);
      if before.Err? {
        assert r == before;
        var k: nat :| FirstUnpayable(window, chainID, i, events, m, books, outside, k, before.error);
        assert FirstUnpayable(window, chainID, i, events, n, books, outside, k, r.error);
      } else if r.Err? {
        var b := ReachedIn(window, chainID, i, events, m, books, outside);
        PayOneReason(window, valuer, events[m], b, outside.header(i, m), outside.price(i, m));
        assert FirstUnpayable(window, chainID, i, events, n, books, outside, m, r.error);
      }
    }
  }

  /** Endpoint i is the first that cannot be converted: its dial fails, or else one of its events. */
  ghost predicate FirstStopped(
    window: int, endpoints: seq<Endpoint>, n: nat, events: seq<TransferEvent>, books: Books, outside: Outside, i: nat,
    error: PaymentError)
    requires n <= |endpoints|
  {
    && i < n && Convertible(window, endpoints, i, events, books, outside)
    && if outside.dial(i).Some? then error == DialFailed(outside.dial(i).value)
       else
         var b := Reached(window, endpoints, i, events, books, outside);
         exists k: nat ::
           FirstUnpayable(window, endpoints[i].chainID, i, events, |events|, b, outside, k, error)
  }

  /** A conversion that fails is answered with what goes wrong first. */
  lemma {:induction false} FailureReason(
    window: int, valuer: Valuer, endpoints: seq<Endpoint>, n: nat, events: seq<TransferEvent>,
    books: Books, outside: Outside)
    requires n <= |endpoints|
    ensures var (r, _) := PayAll(window, valuer, endpoints, n, events, books, outside);
      r.Err? ==> exists i: nat :: FirstStopped(window, endpoints, n, events, books, outside, i, r.error)
  {
    hide PayEndpoint, Convertible, FirstUnpayable, Reached;
    if n == 0 {
    } else {
      var m := n - 1;
      var before := PayAll(window, valuer, endpoints, m, events, books, outside).0;
      var r := PayAll(window, valuer, endpoints, n, events, books, outside).0;
      FailureReason(window, valuer, endpoints, m, events, books, outside);
      ConversionExact(window, valuer, endpoints, m, events, books, outside);
      if before.Err? {
        assert r == before;
        var i: nat :| FirstStopped(window, endpoints, m, events, books, outside, i, before.error);
        assert FirstStopped(window, endpoints, n, events, books, outside, i, r.error);
      } else if r.Err? {
        var b := Reached(window, endpoints, m, events, books, outside);
        EndpointReason(window, valuer, endpoints[m].chainID, m, events, |events|, b, outside);
        assert FirstStopped(window, endpoints, n, events, books, outside, m, r.error);
      }
    }
  }

  /** A request fails with the scan's error, or else with the reason why the conversion stops. */
  lemma ReplyReason(
    cfg: Config, window: int, valuer: Valuer, cursors: Cursors, books: Books, call: Call, outside: Outside)
    requires ValidConfig(cfg) && ValidCall(call)
    ensures var (r, scan, n) :=
      (Serve(cfg, window, valuer, cursors, books, call, outside).0, Outcome(cfg, cursors, call), |call.endpoints|);
      && (scan.Err? ==> r == Err(EventsFailed(scan.error)))
      && (scan.Ok? && r.Err? ==>
            exists i: nat :: FirstStopped(window, call.endpoints, n, scan.value.events, books, outside, i, r.error))
  {
    hide Outcome, PayAll, FirstStopped, Cursor.After;
    var scan := Outcome(cfg, cursors, call);
    if scan.Ok? {
      FailureReason(window, valuer, call.endpoints, |call.endpoints|, scan.value.events, books, outside);
    }
  }
}
