/** When a conversion of events into payments succeeds, said by what a caller could look up beforehand. */
module Conversions {
  import opened Common
  import opened Scan
  import opened Cursor
  import opened Payments

  /******* One event *******/

  function KeyOf(e: TransferEvent): H.Key {
    H.Key(e.chainID, e.blockHash)
  }

  /** The header of the event's block is stored, or the node knows it and it can be stored. */
  predicate HeaderKnown(rows: H.Rows, e: TransferEvent, hw: H.World) {
    && e.chainID != 0 && hw.readFault.None?
    && (KeyOf(e) in rows || (hw.answer.Ok? && hw.writeFault.None?))
  }

  function RowOf(rows: H.Rows, e: TransferEvent, hw: H.World): H.Row
    requires HeaderKnown(rows, e, hw)
  {
    if KeyOf(e) in rows then rows[KeyOf(e)] else H.ToRow(hw.answer.value)
  }

  /** A stored price covers the time, or the client answers one within the window and it can be stored. */
  ghost predicate PriceKnown(quotes: P.Quotes, window: int, t: P.Time, pw: P.World) {
    && pw.readFault.None?
    && (|| P.Covers(quotes, window, t)
        || (var answer := pw.answer(P.ToMinute(t));
            answer.Ok? && P.Sub(t, answer.value.0) <= window && pw.writeFault.None?))
  }

  ghost predicate Payable(books: Books, window: int, e: TransferEvent, hw: H.World, pw: P.World) {
    && HeaderKnown(books.rows, e, hw)
    && PriceKnown(books.quotes, window, RowOf(books.rows, e, hw).timestamp, pw)
  }

  /** The tables with what the conversion of a payable event looks up and stores. */
  ghost function Filled(books: Books, window: int, e: TransferEvent, hw: H.World, pw: P.World): Books {
    if !Payable(books, window, e, hw, pw) then books
    else
      var row := RowOf(books.rows, e, hw);
      Books(if KeyOf(e) in books.rows then books.rows else books.rows[KeyOf(e) := row],
            if P.Covers(books.quotes, window, row.timestamp) then books.quotes
            else
              var (ts, price) := pw.answer(P.ToMinute(row.timestamp)).value;
              books.quotes[P.ToMinute(ts) := price])
  }

  lemma PayOneExact(window: int, valuer: Valuer, e: TransferEvent, books: Books, hw: H.World, pw: P.World)
    ensures var (p, b) := PayOne(window, valuer, e, books, hw, pw);
      && (p.Ok? <==> Payable(books, window, e, hw, pw))
      && (p.Ok? ==> b == Filled(books, window, e, hw, pw))
  {
    hide P.Found, P.Sub, P.ToMinute, P.Covers;
    if HeaderKnown(books.rows, e, hw) {
      var row := RowOf(books.rows, e, hw);
      P.FreshExact(books.quotes, window, row.timestamp);
      assert H.GetStep(books.rows, e.chainID, e.blockHash, hw).0 == Ok(H.FromRow(KeyOf(e), row));
    }
  }

  /******* All events *******/

  /** The tables that event n of endpoint i finds, when all events before it are payable. */
  ghost function ReachedIn(
    window: int, chainID: int, i: int, events: seq<TransferEvent>, n: nat, books: Books, outside: Outside): Books
    requires n <= |events|
  {
    if n == 0 then books
    else
      var b := ReachedIn(window, chainID, i, events, n - 1, books, outside);
      if events[n - 1].chainID != chainID then b
      else Filled(b, window, events[n - 1], outside.header(i, n - 1), outside.price(i, n - 1))
  }

  /** The tables that endpoint n finds. */
  ghost function Reached(
    window: int, endpoints: seq<Endpoint>, n: nat, events: seq<TransferEvent>, books: Books, outside: Outside): Books
    requires n <= |endpoints|
  {
    if n == 0 then books
    else
      var b := Reached(window, endpoints, n - 1, events, books, outside);
      ReachedIn(window, endpoints[n - 1].chainID, n - 1, events, |events|, b, outside)
  }

  ghost predicate EndpointPayable(
    window: int, chainID: int, i: int, events: seq<TransferEvent>, n: nat, books: Books, outside: Outside)
    requires n <= |events|
  {
    forall k: nat :: k < n ==> EventPayable(window, chainID, i, events, k, books, outside)
  }

  /** Event k, when it is on the chain, finds a header and a price. */
  ghost predicate EventPayable(
    window: int, chainID: int, i: int, events: seq<TransferEvent>, k: nat, books: Books, outside: Outside)
    requires k < |events|
  {
    events[k].chainID == chainID ==>
      Payable(ReachedIn(window, chainID, i, events, k, books, outside), window, events[k],
              outside.header(i, k), outside.price(i, k))
  }

  /** No dial of the first n endpoints fails, and each event of their chains finds a header and a price. */
  ghost predicate Convertible(
    window: int, endpoints: seq<Endpoint>, n: nat, events: seq<TransferEvent>, books: Books, outside: Outside)
    requires n <= |endpoints|
  {
    forall i: nat :: i < n ==> EndpointConvertible(window, endpoints, i, events, books, outside)
  }

  ghost predicate EndpointConvertible(
    window: int, endpoints: seq<Endpoint>, i: nat, events: seq<TransferEvent>, books: Books, outside: Outside)
    requires i < |endpoints|
  {
    && outside.dial(i).None?
    && EndpointPayable(window, endpoints[i].chainID, i, events, |events|,
                       Reached(window, endpoints, i, events, books, outside), outside)
  }

  lemma DialStops(
    window: int, endpoints: seq<Endpoint>, n: nat, events: seq<TransferEvent>, books: Books, outside: Outside, i: nat)
    requires i < n <= |endpoints| && outside.dial(i).Some?
    ensures !Convertible(window, endpoints, n, events, books, outside)
  {
    assert !EndpointConvertible(window, endpoints, i, events, books, outside);
  }

  lemma EndpointPayableStep(
    window: int, chainID: int, i: int, events: seq<TransferEvent>, n: nat, books: Books, outside: Outside)
    requires n < |events|
    ensures EndpointPayable(window, chainID, i, events, n + 1, books, outside)
      <==> EndpointPayable(window, chainID, i, events, n, books, outside)
           && EventPayable(window, chainID, i, events, n, books, outside)
  {
    hide EventPayable;
  }

  lemma ConvertibleStep(
    window: int, endpoints: seq<Endpoint>, n: nat, events: seq<TransferEvent>, books: Books, outside: Outside)
    requires n < |endpoints|
    ensures Convertible(window, endpoints, n + 1, events, books, outside)
      <==> Convertible(window, endpoints, n, events, books, outside)
           && EndpointConvertible(window, endpoints, n, events, books, outside)
  {
    hide EndpointConvertible;
  }

  lemma {:induction false} EndpointExactly(
    window: int, valuer: Valuer, chainID: int, i: int, events: seq<TransferEvent>, n: nat,
    books: Books, outside: Outside)
    requires n <= |events|
    ensures var (r, b) := PayEndpoint(window, valuer, chainID, i, events, n, books, outside);
      && (r.Ok? <==> EndpointPayable(window, chainID, i, events, n, books, outside))
      && (r.Ok? ==> b == ReachedIn(window, chainID, i, events, n, books, outside))
  {
    hide PayOne, Payable, Filled, EndpointPayable;
    if n == 0 {
      NothingToPay(window, chainID, i, events, books, outside);
    } else {
      EndpointPayableStep(window, chainID, i, events, n - 1, books, outside);
      EndpointExactly(window, valuer, chainID, i, events, n - 1, books, outside);
      var b := ReachedIn(window, chainID, i, events, n - 1, books, outside);
      PayOneExact(window, valuer, events[n - 1], b, outside.header(i, n - 1), outside.price(i, n - 1));
      var r := PayEndpoint(window, valuer, chainID, i, events, n, books, outside).0;
      if PayEndpoint(window, valuer, chainID, i, events, n - 1, books, outside).0.Err? {
        assert r.Err? && !EndpointPayable(window, chainID, i, events, n, books, outside);
      } else if events[n - 1].chainID != chainID {
        assert r.Ok? && EndpointPayable(window, chainID, i, events, n, books, outside);
      } else {
        var (p, _) := PayOne(window, valuer, events[n - 1], b, outside.header(i, n - 1), outside.price(i, n - 1));
        assert r.Ok? <==> p.Ok?;
      }
    }
  }

  /**
   * A conversion succeeds exactly when no dial fails and each event of an endpoint's chain has a non-zero
   * chain id, a header that is stored or can be had, and a price that is stored or can be had; it then
   * leaves the tables filled with these.
   */
  lemma {:induction false} ConversionExact(
    window: int, valuer: Valuer, endpoints: seq<Endpoint>, n: nat, events: seq<TransferEvent>,
    books: Books, outside: Outside)
    requires n <= |endpoints|
    ensures var (r, b) := PayAll(window, valuer, endpoints, n, events, books, outside);
      && (r.Ok? <==> Convertible(window, endpoints, n, events, books, outside))
      && (r.Ok? ==> b == Reached(window, endpoints, n, events, books, outside))
  {
    hide PayEndpoint, EndpointPayable, ReachedIn, Convertible;
    if n == 0 {
      NoEndpoint(window, endpoints, events, books, outside);
    } else {
      ConvertibleStep(window, endpoints, n - 1, events, books, outside);
      ConversionExact(window, valuer, endpoints, n - 1, events, books, outside);
      var b := Reached(window, endpoints, n - 1, events, books, outside);
      EndpointExactly(window, valuer, endpoints[n - 1].chainID, n - 1, events, |events|, b, outside);
      var r := PayAll(window, valuer, endpoints, n, events, books, outside).0;
      if PayAll(window, valuer, endpoints, n - 1, events, books, outside).0.Err? || outside.dial(n - 1).Some? {
        assert r.Err? && !Convertible(window, endpoints, n, events, books, outside);
      } else {
        var (last, _) := PayEndpoint(window, valuer, endpoints[n - 1].chainID, n - 1, events, |events|, b, outside);
        assert r.Ok? <==> last.Ok?;
      }
    }
  }

  lemma NothingToPay(
    window: int, chainID: int, i: int, events: seq<TransferEvent>, books: Books, outside: Outside)
    ensures EndpointPayable(window, chainID, i, events, 0, books, outside)
  {}

  lemma NoEndpoint(
    window: int, endpoints: seq<Endpoint>, events: seq<TransferEvent>, books: Books, outside: Outside)
    ensures Convertible(window, endpoints, 0, events, books, outside)
  {}

  /******* With truthful nodes *******/

  /** The headers table works during the conversion. */
  ghost predicate HeadersWork(outside: Outside) {
    forall i: int, k: int :: outside.header(i, k).readFault.None? && outside.header(i, k).writeFault.None?
  }

  /** The event's block exists and a price can be had for its time. */
  ghost predicate PayableOnChain(truth: H.Truth, quotes: P.Quotes, window: int, e: TransferEvent, pw: P.World) {
    && e.chainID != 0 && truth(KeyOf(e)).Some?
    && PriceKnown(quotes, window, EPOCH + truth(KeyOf(e)).value.time * H.SECOND, pw)
  }

  ghost predicate ConvertibleOnChain(
    truth: H.Truth, window: int, endpoints: seq<Endpoint>, events: seq<TransferEvent>, books: Books, outside: Outside)
  {
    forall i: nat :: i < |endpoints| ==>
      outside.dial(i).None? && EndpointOnChain(truth, window, endpoints, i, events, books, outside)
  }

  ghost predicate EndpointOnChain(
    truth: H.Truth, window: int, endpoints: seq<Endpoint>, i: nat, events: seq<TransferEvent>,
    books: Books, outside: Outside)
    requires i < |endpoints|
  {
    var b := Reached(window, endpoints, i, events, books, outside);
    forall k: nat :: k < |events| ==> EventOnChain(truth, window, endpoints[i].chainID, i, events, k, b, outside)
  }

  ghost predicate EventOnChain(
    truth: H.Truth, window: int, chainID: int, i: int, events: seq<TransferEvent>, k: nat,
    books: Books, outside: Outside)
    requires k < |events|
  {
    events[k].chainID == chainID ==>
      PayableOnChain(truth, ReachedIn(window, chainID, i, events, k, books, outside).quotes, window, events[k],
                     outside.price(i, k))
  }

  lemma PayableTruly(truth: H.Truth, books: Books, window: int, e: TransferEvent, hw: H.World, pw: P.World)
    requires H.AgreesWith(books.rows, truth) && hw.answer == H.Fetch(truth, KeyOf(e))
    requires hw.readFault.None? && hw.writeFault.None?
    ensures Payable(books, window, e, hw, pw) <==> PayableOnChain(truth, books.quotes, window, e, pw)
    ensures H.AgreesWith(Filled(books, window, e, hw, pw).rows, truth)
  {
    hide P.Covers, P.Sub, P.ToMinute;
  }

  lemma {:induction false} ReachedInAgrees(
    truth: H.Truth, window: int, chainID: int, i: int, events: seq<TransferEvent>, n: nat,
    books: Books, outside: Outside)
    requires n <= |events| && H.AgreesWith(books.rows, truth)
    requires NodesTruthful(truth, events, outside) && HeadersWork(outside)
    ensures H.AgreesWith(ReachedIn(window, chainID, i, events, n, books, outside).rows, truth)
  {
    hide Filled, H.AgreesWith;
    if n == 0 {
    } else {
      ReachedInAgrees(truth, window, chainID, i, events, n - 1, books, outside);
      var b := ReachedIn(window, chainID, i, events, n - 1, books, outside);
      PayableTruly(truth, b, window, events[n - 1], outside.header(i, n - 1), outside.price(i, n - 1));
    }
  }

  lemma {:induction false} ReachedAgrees(
    truth: H.Truth, window: int, endpoints: seq<Endpoint>, n: nat, events: seq<TransferEvent>,
    books: Books, outside: Outside)
    requires n <= |endpoints| && H.AgreesWith(books.rows, truth)
    requires NodesTruthful(truth, events, outside) && HeadersWork(outside)
    ensures H.AgreesWith(Reached(window, endpoints, n, events, books, outside).rows, truth)
  {
    hide ReachedIn, H.AgreesWith, NodesTruthful, HeadersWork;
    if n == 0 {
    } else {
      ReachedAgrees(truth, window, endpoints, n - 1, events, books, outside);
      var b := Reached(window, endpoints, n - 1, events, books, outside);
      ReachedInAgrees(truth, window, endpoints[n - 1].chainID, n - 1, events, |events|, b, outside);
    }
  }

  /**
   * With truthful nodes and a headers table that works, the header part is whether the block exists,
   * whatever the table holds.
   */
  lemma ConversionOnChain(
    truth: H.Truth, window: int, valuer: Valuer, endpoints: seq<Endpoint>, events: seq<TransferEvent>,
    books: Books, outside: Outside)
    requires H.AgreesWith(books.rows, truth) && NodesTruthful(truth, events, outside) && HeadersWork(outside)
    ensures PayAll(window, valuer, endpoints, |endpoints|, events, books, outside).0.Ok?
      <==> ConvertibleOnChain(truth, window, endpoints, events, books, outside)
  {
    hide PayAll, EndpointPayable, EndpointOnChain, Reached, H.AgreesWith, NodesTruthful, HeadersWork;
    ConversionExact(window, valuer, endpoints, |endpoints|, events, books, outside);
    forall i: nat | i < |endpoints|
      ensures EndpointConvertible(window, endpoints, i, events, books, outside)
        <==> outside.dial(i).None? && EndpointOnChain(truth, window, endpoints, i, events, books, outside)
    {
      EndpointTruly(truth, window, endpoints, i, events, books, outside);
    }
  }

  lemma EndpointTruly(
    truth: H.Truth, window: int, endpoints: seq<Endpoint>, i: nat, events: seq<TransferEvent>,
    books: Books, outside: Outside)
    requires i < |endpoints|
    requires H.AgreesWith(books.rows, truth) && NodesTruthful(truth, events, outside) && HeadersWork(outside)
    ensures EndpointPayable(window, endpoints[i].chainID, i, events, |events|,
                            Reached(window, endpoints, i, events, books, outside), outside)
      <==> EndpointOnChain(truth, window, endpoints, i, events, books, outside)
  {
    hide Reached, ReachedIn, H.AgreesWith, Payable, PayableOnChain;
    var b, c := Reached(window, endpoints, i, events, books, outside), endpoints[i].chainID;
    ReachedAgrees(truth, window, endpoints, i, events, books, outside);
    forall k: nat | k < |events|
      ensures EventPayable(window, c, i, events, k, b, outside)
        <==> EventOnChain(truth, window, c, i, events, k, b, outside)
    {
      ReachedInAgrees(truth, window, c, i, events, k, b, outside);
      PayableTruly(truth, ReachedIn(window, c, i, events, k, b, outside), window, events[k],
                   outside.header(i, k), outside.price(i, k));
    }
  }
}
