/** Which transfers reach a satellite as payments, over whole runs of requests, and which are lost on the way. */
module PaymentRuns {
  import opened Common
  import opened LogStream
  import opened Scan
  import opened ScanProperties
  import opened ScanCoverage
  import opened Cursor
  import opened CursorRuns
  import opened Payments
  import opened Conversions
  import G = HeaderRuns

  /** The configuration, and for the n-th request the tables that its conversion finds, whatever else has
      changed them before, and what the outside does during the conversion. */
  datatype Setting = Setting(cfg: Config, window: int, valuer: Valuer, books: nat -> Books, outside: nat -> Outside)

  ghost predicate ValidRun(st: Setting, run: seq<Moment>) {
    ValidConfig(st.cfg) && forall i :: 0 <= i < |run| ==> ValidCall(run[i].call)
  }

  ghost function HistoryAt(st: Setting, run: seq<Moment>, s: string, c: int, n: nat): History
    requires ValidRun(st, run) && n <= |run|
  {
    RunAt(st.cfg, run, s, c, n)
  }

  /** What request n is answered. */
  ghost function ReplyAt(st: Setting, run: seq<Moment>, s: string, c: int, n: nat): Result<LatestPayments, PaymentError>
    requires ValidRun(st, run) && n < |run|
  {
    var cursors := HistoryAt(st, run, s, c, n).cursors;
    Serve(st.cfg, st.window, st.valuer, cursors, st.books(n), run[n].call, st.outside(n)).0
  }

  /** The events that the first n requests handed to satellite s as payments. */
  ghost function DeliveredAt(st: Setting, run: seq<Moment>, s: string, c: int, n: nat): seq<TransferEvent>
    requires ValidRun(st, run) && n <= |run|
  {
    if n == 0 then []
    else
      var r := ReplyAt(st, run, s, c, n - 1);
      DeliveredAt(st, run, s, c, n - 1)
        + if run[n - 1].call.satellite == s && r.Ok? then Sources(r.value.payments) else []
  }

  /** The scan of request n succeeds and moves the cursors, but a dial fails, or some event finds no header or
      no price. */
  ghost predicate ConversionFails(st: Setting, run: seq<Moment>, s: string, c: int, n: nat)
    requires ValidRun(st, run) && n < |run|
  {
    var call := run[n].call;
    var scan := Outcome(st.cfg, HistoryAt(st, run, s, c, n).cursors, call);
    && call.satellite == s && scan.Ok?
    && !Convertible(st.window, call.endpoints, |call.endpoints|, scan.value.events, st.books(n), st.outside(n))
  }

  /** A transfer to w in a block that request n puts below the cursor. */
  ghost predicate PassedTransfer(
    st: Setting, run: seq<Moment>, s: string, c: int, w: Address, n: nat, b: int, log: Log)
    requires ValidRun(st, run) && n < |run|
  {
    && Passed(HistoryAt(st, run, s, c, n), HistoryAt(st, run, s, c, n + 1), s, c, b)
    && b < |run[n].chain| && log in run[n].chain[b] && log.to == w
  }

  /** When the conversion of request n fails, every transfer it puts below the cursor was delivered before. */
  ghost predicate FailsHarmlessly(st: Setting, run: seq<Moment>, s: string, c: int, w: Address, n: nat)
    requires ValidRun(st, run) && n < |run|
  {
    ConversionFails(st, run, s, c, n)
    ==> forall b, log :: PassedTransfer(st, run, s, c, w, n, b, log)
          ==> Event(c, log) in DeliveredAt(st, run, s, c, n)
  }

  /** The cursor of s on chain c never moves back. */
  ghost predicate CursorGrows(st: Setting, run: seq<Moment>, s: string, c: int)
    requires ValidRun(st, run)
  {
    forall n :: 0 <= n < |run| ==>
      var before, after := CursorOf(HistoryAt(st, run, s, c, n).cursors, s),
        CursorOf(HistoryAt(st, run, s, c, n + 1).cursors, s);
      c in before ==> c in after && before[c] <= after[c]
  }

  ghost predicate HonestRun(run: seq<Moment>) {
    forall n :: 0 <= n < |run| ==> HonestCall(run[n].call) && WellFormed(run[n].chain)
  }

  /******* One request *******/

  /** A reply holds what the scan returned, or is an error; the cursors move either way. */
  lemma ServeParts(
    cfg: Config, window: int, valuer: Valuer, cursors: Cursors, books: Books, call: Call, outside: Outside)
    requires ValidConfig(cfg) && ValidCall(call)
    ensures var ((r, cursors', _), scan) :=
      (Serve(cfg, window, valuer, cursors, books, call, outside), Outcome(cfg, cursors, call));
      && cursors' == Cursor.After(cfg, cursors, call)
      && (r.Ok? ==> scan.Ok? && forall e :: e in Sources(r.value.payments) ==> e in scan.value.events)
      && (r.Ok? && DistinctChains(call.endpoints) ==> Sources(r.value.payments) == scan.value.events)
  {
    hide Outcome, PayAll, Cursor.After, Partition, Sources;
    var scan := Outcome(cfg, cursors, call);
    if scan.Ok? {
      PaymentsArePartition(window, valuer, call.endpoints, |call.endpoints|, scan.value.events, books, outside);
      assert call.endpoints[..|call.endpoints|] == call.endpoints;
      PartitionMembers(call.endpoints, scan.value.events);
      if DistinctChains(call.endpoints) {
        OutcomeIsGrouped(cfg, cursors, call);
      }
    }
  }

  /** The conversion of a scan fails exactly when the request is then answered with an error. */
  lemma FailsExactly(st: Setting, run: seq<Moment>, s: string, c: int, n: nat)
    requires ValidRun(st, run) && n < |run|
    ensures ConversionFails(st, run, s, c, n) <==>
      && run[n].call.satellite == s
      && Outcome(st.cfg, HistoryAt(st, run, s, c, n).cursors, run[n].call).Ok?
      && ReplyAt(st, run, s, c, n).Err?
  {
    hide Outcome, HistoryAt, Convertible, PayAll, Cursor.After;
    var call := run[n].call;
    var scan := Outcome(st.cfg, HistoryAt(st, run, s, c, n).cursors, call);
    if scan.Ok? {
      var n', events, books, outside := |call.endpoints|, scan.value.events, st.books(n), st.outside(n);
      ConversionExact(st.window, st.valuer, call.endpoints, n', events, books, outside);
      var paid := PayAll(st.window, st.valuer, call.endpoints, n', events, books, outside).0;
      assert ReplyAt(st, run, s, c, n).Err? <==> paid.Err?;
    }
  }

  /** With truthful nodes and a headers table that works, it fails exactly when a dial fails, a block does not
      exist, or a price is not to be had. */
  lemma FailsOnChain(st: Setting, run: seq<Moment>, s: string, c: int, n: nat, truth: H.Truth)
    requires ValidRun(st, run) && n < |run|
    requires var scan := Outcome(st.cfg, HistoryAt(st, run, s, c, n).cursors, run[n].call);
      && H.AgreesWith(st.books(n).rows, truth) && HeadersWork(st.outside(n))
      && (scan.Ok? ==> NodesTruthful(truth, scan.value.events, st.outside(n)))
    ensures var call, scan := run[n].call, Outcome(st.cfg, HistoryAt(st, run, s, c, n).cursors, run[n].call);
      ConversionFails(st, run, s, c, n) <==>
        && call.satellite == s && scan.Ok?
        && !ConvertibleOnChain(truth, st.window, call.endpoints, scan.value.events, st.books(n), st.outside(n))
  {
    hide Outcome, HistoryAt, Convertible, ConvertibleOnChain, PayAll, H.AgreesWith, HeadersWork, NodesTruthful;
    var call, books, outside := run[n].call, st.books(n), st.outside(n);
    var scan := Outcome(st.cfg, HistoryAt(st, run, s, c, n).cursors, call);
    if scan.Ok? {
      var events := scan.value.events;
      ConversionExact(st.window, st.valuer, call.endpoints, |call.endpoints|, events, books, outside);
      ConversionOnChain(truth, st.window, st.valuer, call.endpoints, events, books, outside);
    }
  }

  lemma HistoryStep(st: Setting, run: seq<Moment>, s: string, c: int, n: nat)
    requires ValidRun(st, run) && n < |run|
    ensures HistoryAt(st, run, s, c, n + 1) == Step(st.cfg, HistoryAt(st, run, s, c, n), run[n].call, s, c)
  {
    hide Step, RunAt;
    RunAtStep(st.cfg, run, s, c, n);
  }

  lemma HistoryNonNegative(st: Setting, run: seq<Moment>, s: string, c: int, n: nat)
    requires ValidRun(st, run) && n <= |run|
    ensures NonNegative(HistoryAt(st, run, s, c, n).cursors)
  {
    RunAtNonNegative(st.cfg, run, s, c, n);
  }

  /** Only what scans returned is delivered. */
  lemma {:induction false} DeliveredIsSeen(st: Setting, run: seq<Moment>, s: string, c: int, n: nat)
    requires ValidRun(st, run) && n <= |run|
    ensures forall e :: e in DeliveredAt(st, run, s, c, n) ==> e in HistoryAt(st, run, s, c, n).seen
  {
    hide Outcome, Cursor.After, Serve, HistoryAt, Sources;
    if n == 0 {
    } else {
      DeliveredIsSeen(st, run, s, c, n - 1);
      HistoryStep(st, run, s, c, n - 1);
      var h := HistoryAt(st, run, s, c, n - 1);
      ServeParts(st.cfg, st.window, st.valuer, h.cursors, st.books(n - 1), run[n - 1].call, st.outside(n - 1));
    }
  }

  /** Request k returns the event from its scan and finds a header and a price for all events. */
  ghost predicate HandsOver(st: Setting, run: seq<Moment>, s: string, c: int, k: nat, e: TransferEvent)
    requires ValidRun(st, run) && k < |run|
  {
    var scan := Outcome(st.cfg, HistoryAt(st, run, s, c, k).cursors, run[k].call);
    run[k].call.satellite == s && scan.Ok? && e in scan.value.events && !ConversionFails(st, run, s, c, k)
  }

  /** An event has been delivered exactly when some request handed it over. */
  lemma {:induction false} DeliveredMeans(
    st: Setting, run: seq<Moment>, s: string, c: int, n: nat, e: TransferEvent)
    requires ValidRun(st, run) && n <= |run| && forall k :: 0 <= k < n ==> DistinctChains(run[k].call.endpoints)
    ensures e in DeliveredAt(st, run, s, c, n) <==> exists k: nat :: k < n && HandsOver(st, run, s, c, k, e)
  {
    hide Outcome, Cursor.After, Serve, HistoryAt, Sources, ConversionFails, DistinctChains;
    if n == 0 {
    } else {
      var m := n - 1;
      DeliveredMeans(st, run, s, c, m, e);
      FailsExactly(st, run, s, c, m);
      var h := HistoryAt(st, run, s, c, m);
      ServeParts(st.cfg, st.window, st.valuer, h.cursors, st.books(m), run[m].call, st.outside(m));
      assert e in DeliveredAt(st, run, s, c, n)
        <==> e in DeliveredAt(st, run, s, c, m) || HandsOver(st, run, s, c, m, e);
    }
  }

  /******* What is lost stays lost *******/

  /** A transfer below the cursor after n requests and not delivered by then. */
  ghost predicate Missed(st: Setting, run: seq<Moment>, s: string, c: int, n: nat, e: TransferEvent)
    requires ValidRun(st, run) && n <= |run|
  {
    var cursor := CursorOf(HistoryAt(st, run, s, c, n).cursors, s);
    e.chainID == c && c in cursor && e.blockNumber < cursor[c] && e !in DeliveredAt(st, run, s, c, n)
  }

  lemma MissedStep(st: Setting, run: seq<Moment>, s: string, c: int, n: nat, e: TransferEvent)
    requires ValidRun(st, run) && n < |run| && HonestCall(run[n].call) && CursorGrows(st, run, s, c)
    requires Missed(st, run, s, c, n, e)
    ensures Missed(st, run, s, c, n + 1, e)
  {
    hide Outcome, Cursor.After, Serve, HistoryAt, HonestCall, Sources, NonNegative;
    var h := HistoryAt(st, run, s, c, n);
    ServeParts(st.cfg, st.window, st.valuer, h.cursors, st.books(n), run[n].call, st.outside(n));
    if run[n].call.satellite == s {
      HistoryNonNegative(st, run, s, c, n);
      NothingBelowCursor(st.cfg, h.cursors, run[n].call, c);
    }
  }

  /** While cursors do not move back, an undelivered transfer below the cursor is never delivered. */
  lemma {:induction false} LostForGood(
    st: Setting, run: seq<Moment>, s: string, c: int, n: nat, k: nat, e: TransferEvent)
    requires ValidRun(st, run) && n <= k <= |run| && HonestRun(run) && CursorGrows(st, run, s, c)
    requires Missed(st, run, s, c, n, e)
    ensures Missed(st, run, s, c, k, e)
    decreases k - n
  {
    hide Missed, CursorGrows;
    if n == k {
    } else {
      MissedStep(st, run, s, c, n, e);
      LostForGood(st, run, s, c, n + 1, k, e);
    }
  }

  /******* Exactly when everything is delivered *******/

  /** Every transfer to w from the start of the coverage up to the cursor has been delivered as a payment. */
  ghost predicate DeliveredAll(st: Setting, run: seq<Moment>, s: string, c: int, w: Address, n: nat)
    requires ValidRun(st, run) && 0 < n <= |run|
  {
    CoveredBy(DeliveredAt(st, run, s, c, n), HistoryAt(st, run, s, c, n), run[n - 1].chain, s, c, w)
  }

  /** The history that request n finds covers the chain as it then stands. */
  lemma CoveredBefore(st: Setting, run: seq<Moment>, s: string, c: int, w: Address, n: nat)
    requires ValidRun(st, run) && n < |run| && st.cfg.chainReorgBuffer >= 0 && Orderly(st.cfg, run, s, c, w)
    ensures Covered(HistoryAt(st, run, s, c, n), run[n].chain, s, c, w)
  {
    hide CoveredBy, Orderly, Regular, Outcome, SettledBelow;
    if n == 0 {
      NothingToCover(run[n].chain, s, c, w);
    } else {
      OrderlyPrefix(st.cfg, run, s, c, w, n);
      RunCovers(st.cfg, run[..n], s, c, w);
      assert run[..n][|run[..n]| - 1] == run[n - 1];
      SettledAt(st, run, s, c, w, n);
      var h := HistoryAt(st, run, s, c, n);
      CoveredAfterReorg(h.seen, h, run[n - 1].chain, run[n].chain, s, c, w);
    }
  }

  lemma SettledAt(st: Setting, run: seq<Moment>, s: string, c: int, w: Address, n: nat)
    requires ValidRun(st, run) && 0 < n < |run| && Orderly(st.cfg, run, s, c, w)
    ensures SettledBelow(CursorOf(HistoryAt(st, run, s, c, n).cursors, s), c, run[n - 1].chain, run[n].chain)
  {
    hide Regular, Outcome, SettledBelow;
    assert OrderlyAt(st.cfg, run, n, s, c, w);
  }

  /** A request that scans the chain returns what it passes; any other leaves the cursor and the first block. */
  lemma RequestReturns(st: Setting, run: seq<Moment>, s: string, c: int, w: Address, n: nat)
    requires ValidRun(st, run) && n < |run| && st.cfg.chainReorgBuffer >= 0 && Orderly(st.cfg, run, s, c, w)
    ensures var h, h' := HistoryAt(st, run, s, c, n), HistoryAt(st, run, s, c, n + 1);
      var cursor, cursor', scan := CursorOf(h.cursors, s), CursorOf(h'.cursors, s),
        Outcome(st.cfg, h.cursors, run[n].call);
      && (c in cursor <==> h.first.Some?) && (c in cursor' <==> h'.first.Some?)
      && (h.first.Some? ==> h'.first == h.first)
      && (c in cursor' ==> 0 <= cursor'[c] <= |run[n].chain|)
      && (forall b, log :: PassedTransfer(st, run, s, c, w, n, b, log)
            ==> run[n].call.satellite == s && scan.Ok? && DistinctChains(run[n].call.endpoints)
                && Event(c, log) in scan.value.events)
  {
    hide Regular, Outcome, Orderly, HistoryAt, DistinctChains;
    var h, m := HistoryAt(st, run, s, c, n), run[n];
    var scan := Outcome(st.cfg, h.cursors, m.call);
    CoveredBefore(st, run, s, c, w, n);
    HistoryStep(st, run, s, c, n);
    if m.call.satellite == s && scan.Ok? && c in scan.value.blocks {
      var e := RegularAt(st, run, s, c, w, n);
      StepReturns(st.cfg, h, m, e, s, c, w);
      CursorUpdates(st.cfg, h.cursors, m.call);
      RegularDistinct(st, h, m, e, s, c, w);
    } else {
      CursorUpdates(st.cfg, h.cursors, m.call);
    }
  }

  lemma RegularAt(st: Setting, run: seq<Moment>, s: string, c: int, w: Address, n: nat) returns (e: nat)
    requires ValidRun(st, run) && n < |run| && Orderly(st.cfg, run, s, c, w)
    requires var h, m := HistoryAt(st, run, s, c, n), run[n];
      var scan := Outcome(st.cfg, h.cursors, m.call);
      m.call.satellite == s && scan.Ok? && c in scan.value.blocks
    ensures Regular(st.cfg, HistoryAt(st, run, s, c, n), run[n], e, s, c, w)
  {
    hide Regular, Outcome;
    assert OrderlyAt(st.cfg, run, n, s, c, w);
    e :| Regular(st.cfg, HistoryAt(st, run, s, c, n), run[n], e, s, c, w);
  }

  lemma RegularDistinct(st: Setting, h: History, m: Moment, e: nat, s: string, c: int, w: Address)
    requires ValidConfig(st.cfg) && ValidCall(m.call) && Regular(st.cfg, h, m, e, s, c, w)
    ensures DistinctChains(m.call.endpoints)
  {}

  /** What a request passes is delivered with it, or its conversion failed. */
  lemma PassedDelivered(st: Setting, run: seq<Moment>, s: string, c: int, w: Address, n: nat, b: int, log: Log)
    requires ValidRun(st, run) && n < |run| && st.cfg.chainReorgBuffer >= 0 && Orderly(st.cfg, run, s, c, w)
    requires PassedTransfer(st, run, s, c, w, n, b, log)
    ensures ConversionFails(st, run, s, c, n) || Event(c, log) in DeliveredAt(st, run, s, c, n + 1)
  {
    hide Outcome, Orderly, HistoryAt, DistinctChains, Serve, Sources, PassedTransfer, ConversionFails;
    FailsExactly(st, run, s, c, n);
    RequestReturns(st, run, s, c, w, n);
    var h := HistoryAt(st, run, s, c, n);
    ServeParts(st.cfg, st.window, st.valuer, h.cursors, st.books(n), run[n].call, st.outside(n));
  }

  /** A failed conversion delivers nothing, and no request takes a delivery back. */
  lemma DeliveredStep(st: Setting, run: seq<Moment>, s: string, c: int, n: nat)
    requires ValidRun(st, run) && n < |run|
    ensures forall e :: e in DeliveredAt(st, run, s, c, n) ==> e in DeliveredAt(st, run, s, c, n + 1)
    ensures ConversionFails(st, run, s, c, n)
      ==> DeliveredAt(st, run, s, c, n + 1) == DeliveredAt(st, run, s, c, n)
  {
    hide Outcome, HistoryAt, Serve, Sources, ConversionFails;
    FailsExactly(st, run, s, c, n);
  }

  lemma {:induction false} HarmlessDelivers(st: Setting, run: seq<Moment>, s: string, c: int, w: Address, n: nat)
    requires ValidRun(st, run) && 0 < n <= |run| && st.cfg.chainReorgBuffer >= 0 && Orderly(st.cfg, run, s, c, w)
    requires forall k :: 0 <= k < n ==> FailsHarmlessly(st, run, s, c, w, k)
    ensures DeliveredAll(st, run, s, c, w, n)
    decreases n
  {
    hide DeliveredAt, HistoryAt, Orderly, ConversionFails, CoveredBy;
    var m := n - 1;
    var before, after := DeliveredAt(st, run, s, c, m), DeliveredAt(st, run, s, c, n);
    var h, h', chain := HistoryAt(st, run, s, c, m), HistoryAt(st, run, s, c, n), run[m].chain;
    RequestReturns(st, run, s, c, w, m);
    DeliveredStep(st, run, s, c, m);
    if m == 0 {
      NothingBefore(st, run, s, c, chain, w);
    } else {
      HarmlessDelivers(st, run, s, c, w, m);
      SettledAt(st, run, s, c, w, m);
      CoveredAfterReorg(before, h, run[m - 1].chain, chain, s, c, w);
    }
    forall b, log | PassedTransfer(st, run, s, c, w, m, b, log)
      ensures Event(c, log) in after
    {
      PassedDelivered(st, run, s, c, w, m, b, log);
      assert FailsHarmlessly(st, run, s, c, w, m);
    }
    CoveredGrows(st, run, s, c, w, m);
  }

  lemma NothingBefore(st: Setting, run: seq<Moment>, s: string, c: int, chain: Chain, w: Address)
    requires ValidRun(st, run)
    ensures CoveredBy(DeliveredAt(st, run, s, c, 0), HistoryAt(st, run, s, c, 0), chain, s, c, w)
  {}

  /** Coverage before a request, and of what it passes, is coverage after it. */
  lemma CoveredGrows(st: Setting, run: seq<Moment>, s: string, c: int, w: Address, n: nat)
    requires ValidRun(st, run) && n < |run|
    requires CoveredBy(DeliveredAt(st, run, s, c, n), HistoryAt(st, run, s, c, n), run[n].chain, s, c, w)
    requires var h, h' := HistoryAt(st, run, s, c, n), HistoryAt(st, run, s, c, n + 1);
      var cursor' := CursorOf(h'.cursors, s);
      && (c in cursor' <==> h'.first.Some?) && (h.first.Some? ==> h'.first == h.first)
      && (c in cursor' ==> 0 <= cursor'[c] <= |run[n].chain|)
    requires forall e :: e in DeliveredAt(st, run, s, c, n) ==> e in DeliveredAt(st, run, s, c, n + 1)
    requires forall b, log ::
      PassedTransfer(st, run, s, c, w, n, b, log) ==> Event(c, log) in DeliveredAt(st, run, s, c, n + 1)
    ensures DeliveredAll(st, run, s, c, w, n + 1)
  {
    hide DeliveredAt, HistoryAt;
    var h, h', chain := HistoryAt(st, run, s, c, n), HistoryAt(st, run, s, c, n + 1), run[n].chain;
    var cursor, cursor' := CursorOf(h.cursors, s), CursorOf(h'.cursors, s);
    if c in cursor' {
      forall b, log: Log | h'.first.value <= b < cursor'[c] && 0 <= b && log in chain[b] && log.to == w
        ensures Event(c, log) in DeliveredAt(st, run, s, c, n + 1)
      {
        if c in cursor && b < cursor[c] {
          assert Event(c, log) in DeliveredAt(st, run, s, c, n);
        } else {
          assert PassedTransfer(st, run, s, c, w, n, b, log);
        }
      }
    }
  }

  lemma SameBlock(before: Chain, after: Chain, upto: nat, b: nat)
    requires AgreeBelow(before, after, upto) && b < upto
    ensures after[b] == before[b]
  {
    assert after[b] == after[..upto][b] == before[..upto][b] == before[b];
  }

  /** A passed block stays in the chain and in the covered range. */
  lemma {:induction false} PassedStays(
    st: Setting, run: seq<Moment>, s: string, c: int, w: Address, n: nat, k: nat, b: int, log: Log)
    requires ValidRun(st, run) && n < k <= |run| && st.cfg.chainReorgBuffer >= 0 && Orderly(st.cfg, run, s, c, w)
    requires CursorGrows(st, run, s, c) && PassedTransfer(st, run, s, c, w, n, b, log)
    ensures var h, cursor := HistoryAt(st, run, s, c, k), CursorOf(HistoryAt(st, run, s, c, k).cursors, s);
      && h.first.Some? && h.first.value <= b && c in cursor && b < cursor[c] <= |run[k - 1].chain|
      && log in run[k - 1].chain[b]
    decreases k
  {
    hide HistoryAt, Orderly, Outcome, Regular;
    var m := k - 1;
    RequestReturns(st, run, s, c, w, m);
    if m == n {
    } else {
      PassedStays(st, run, s, c, w, n, m, b, log);
      SettledAt(st, run, s, c, w, m);
      SameBlock(run[m - 1].chain, run[m].chain, CursorOf(HistoryAt(st, run, s, c, m).cursors, s)[c], b);
    }
  }

  /** A conversion that fails on an undelivered transfer spoils the run. */
  lemma HarmfulLoses(st: Setting, run: seq<Moment>, s: string, c: int, w: Address, n: nat, b: int, log: Log)
    requires ValidRun(st, run) && n < |run| && st.cfg.chainReorgBuffer >= 0 && Orderly(st.cfg, run, s, c, w)
    requires HonestRun(run) && CursorGrows(st, run, s, c)
    requires ConversionFails(st, run, s, c, n) && PassedTransfer(st, run, s, c, w, n, b, log)
    requires Event(c, log) !in DeliveredAt(st, run, s, c, n)
    ensures forall k :: n < k <= |run| ==> Missed(st, run, s, c, k, Event(c, log))
    ensures !DeliveredAll(st, run, s, c, w, |run|)
  {
    hide DeliveredAt, HistoryAt, Orderly, ConversionFails, CursorGrows;
    var e := Event(c, log);
    DeliveredStep(st, run, s, c, n);
    NumberOf(run[n].chain, b, log);
    PassedStays(st, run, s, c, w, n, n + 1, b, log);
    forall k | n < k <= |run|
      ensures Missed(st, run, s, c, k, e)
    {
      LostForGood(st, run, s, c, n + 1, k, e);
    }
    PassedStays(st, run, s, c, w, n, |run|, b, log);
    assert Missed(st, run, s, c, |run|, e);
  }

  /**
   * Over every orderly run with honest nodes and cursors that do not move back, each transfer to w from
   * the start of the coverage up to the cursor has been delivered as a payment, if and only if every request
   * whose scan succeeded, and for which a dial failed or some event had no header or no price, passed only
   * transfers that an earlier request had delivered.
   */
  lemma DeliveredExact(st: Setting, run: seq<Moment>, s: string, c: int, w: Address)
    requires ValidRun(st, run) && run != [] && st.cfg.chainReorgBuffer >= 0 && Orderly(st.cfg, run, s, c, w)
    requires HonestRun(run) && CursorGrows(st, run, s, c)
    ensures DeliveredAll(st, run, s, c, w, |run|)
      <==> forall n :: 0 <= n < |run| ==> FailsHarmlessly(st, run, s, c, w, n)
  {
    hide DeliveredAll, DeliveredAt, ConversionFails, PassedTransfer, Orderly, CursorGrows;
    if forall n :: 0 <= n < |run| ==> FailsHarmlessly(st, run, s, c, w, n) {
      HarmlessDelivers(st, run, s, c, w, |run|);
    } else {
      var n :| 0 <= n < |run| && !FailsHarmlessly(st, run, s, c, w, n);
      var b, log :| PassedTransfer(st, run, s, c, w, n, b, log)
        && Event(c, log) !in DeliveredAt(st, run, s, c, n);
      HarmfulLoses(st, run, s, c, w, n, b, log);
    }
  }

  /******* A run that loses a transfer *******/

  /** A request on a chain with one log, which the scan reaches. */
  lemma LoneRequest(
    cfg: Config, cursors: Cursors, s: string, endpoint: Endpoint, head: Head, good: Log, from: map<int, int>)
    requires ValidConfig(cfg) && good.decodes && 0 <= good.blockNumber <= head.number
    requires var start := ToUint64(GetOrZero(Raised(from, CursorOf(cursors, s)), endpoint.chainID));
      start <= good.blockNumber && start < head.number && head.number - start <= ToUint64(cfg.maximumQuerySize)
    ensures var node := SteadyNode(OneBlock([good], good.blockNumber, head.number));
      var scan, c := Outcome(cfg, cursors, CallOf(s, endpoint, head, node, [good.to], from)), endpoint.chainID;
      scan.Ok? && Event(c, good) in scan.value.events
  {
    hide ScanWindows, Faithful, Raised, Outcome;
    var chain, c := OneBlock([good], good.blockNumber, head.number), endpoint.chainID;
    var node, start := SteadyNode(chain), ToUint64(GetOrZero(Raised(from, CursorOf(cursors, s)), c));
    assert good in chain[good.blockNumber];
    assert forall b, log: Log :: 0 <= b < |chain| && log in chain[b] ==> log == good;
    SteadyIsFaithful(node, chain, |chain|);
    WindowsCover(cfg, node, c, start, head.number, [good.to], chain, |chain|, good.blockNumber, good);
    SingleEndpoint(cfg, cursors, s, endpoint, head, node, [good.to], from);
  }

  lemma FirstRequest(
    cfg: Config, s: string, endpoint: Endpoint, head: Head, good: Log)
    requires ValidConfig(cfg) && 0 <= cfg.chainReorgBuffer < head.number <= ToUint64(cfg.maximumQuerySize)
    requires good.decodes && good.blockNumber == 0
    ensures var call := CallOf(s, endpoint, head, SteadyNode(OneBlock([good], 0, head.number)), [good.to], map[]);
      var scan, c := Outcome(cfg, map[], call), endpoint.chainID;
      && scan.Ok? && Event(c, good) in scan.value.events
      && CursorOf(Cursor.After(cfg, map[], call), s) == map[c := head.number - cfg.chainReorgBuffer]
  {
    hide ScanEndpoint, Outcome, Cursor.After;
    assert Raised(map[], map[]) == map[];
    LoneRequest(cfg, map[], s, endpoint, head, good, map[]);
    SingleEndpoint(cfg, map[], s, endpoint, head, SteadyNode(OneBlock([good], 0, head.number)), [good.to], map[]);
  }

  /**
   * A first request whose scan returns a transfer and whose conversion cannot dial: the satellite gets an
   * error, the cursor moves past the transfer, and no later request ever delivers it.
   */
  lemma FailedDialLoses(
    st: Setting, run: seq<Moment>, s: string, endpoint: Endpoint, head: Head, good: Log, error: Error, k: nat)
    requires ValidRun(st, run) && HonestRun(run) && CursorGrows(st, run, s, endpoint.chainID) && 0 < k <= |run|
    requires 0 <= st.cfg.chainReorgBuffer < head.number <= ToUint64(st.cfg.maximumQuerySize)
    requires good.decodes && good.blockNumber == 0
    requires run[0].call == CallOf(s, endpoint, head, SteadyNode(OneBlock([good], 0, head.number)), [good.to], map[])
    requires st.outside(0).dial(0) == Some(error)
    ensures var scan, c := Outcome(st.cfg, map[], run[0].call), endpoint.chainID;
      && scan.Ok? && Event(c, good) in scan.value.events
      && ReplyAt(st, run, s, c, 0) == Err(DialFailed(error))
      && Missed(st, run, s, c, k, Event(c, good))
  {
    hide Outcome, Cursor.After, CursorGrows, HonestRun, PayEndpoint;
    var c := endpoint.chainID;
    FirstRequest(st.cfg, s, endpoint, head, good);
    HistoryStep(st, run, s, c, 0);
    assert run[..0] == [];
    var scan := Outcome(st.cfg, map[], run[0].call).value;
    assert PayAll(st.window, st.valuer, [endpoint], 0, scan.events, st.books(0), st.outside(0))
      == (Ok([]), st.books(0));
    assert ReplyAt(st, run, s, c, 0) == Err(DialFailed(error));
    assert DeliveredAt(st, run, s, c, 0) == [];
    assert DeliveredAt(st, run, s, c, 1) == [];
    LostForGood(st, run, s, c, 1, k, Event(c, good));
  }

  /******* A start above the head *******/

  /** Two requests on a chain with one log, the first with a start that the caller chose. */
  function LateRun(s: string, endpoint: Endpoint, one: Head, two: Head, good: Log, late: int): seq<Moment> {
    var before := OneBlock([good], good.blockNumber, one.number);
    var after := OneBlock([good], good.blockNumber, two.number);
    [Moment(CallOf(s, endpoint, one, SteadyNode(before), [good.to], map[endpoint.chainID := late]), before),
     Moment(CallOf(s, endpoint, two, SteadyNode(after), [good.to], map[]), after)]
  }

  /** The start lies above the first head, so nothing is scanned; the log is in the block of the cursor then set. */
  ghost predicate LateStart(cfg: Config, one: Head, two: Head, good: Log, late: int) {
    && ValidConfig(cfg) && 0 <= cfg.chainReorgBuffer < one.number < two.number && ToUint64(late) > one.number
    && good.decodes && good.blockNumber == one.number - cfg.chainReorgBuffer
    && two.number - good.blockNumber <= ToUint64(cfg.maximumQuerySize)
  }

  /** The first request scans nothing and sets the cursor to the block of the log. */
  lemma LateFirst(st: Setting, s: string, endpoint: Endpoint, one: Head, two: Head, good: Log, late: int)
    requires LateStart(st.cfg, one, two, good, late)
    ensures var run, c := LateRun(s, endpoint, one, two, good, late), endpoint.chainID;
      && ValidRun(st, run) && HistoryAt(st, run, s, c, 0) == History(map[], [], None)
      && var h := HistoryAt(st, run, s, c, 1);
         CursorOf(h.cursors, s) == map[c := good.blockNumber] && h.first == Some(good.blockNumber) && h.seen == []
  {
    hide Outcome, Cursor.After, SteadyNode;
    var run, c := LateRun(s, endpoint, one, two, good, late), endpoint.chainID;
    assert run[..0] == [];
    HistoryStep(st, run, s, c, 0);
    assert Raised(map[c := late], map[]) == map[c := late];
    var node := SteadyNode(OneBlock([good], good.blockNumber, one.number));
    SteadyReachable(OneBlock([good], good.blockNumber, one.number));
    SingleEndpoint(st.cfg, map[], s, endpoint, one, node, [good.to], map[c := late]);
  }

  lemma SteadyReachable(chain: Chain)
    ensures Reachable(SteadyNode(chain))
  {}

  /** The second request returns the transfer and moves the cursor past it. */
  lemma LateSecond(st: Setting, s: string, endpoint: Endpoint, one: Head, two: Head, good: Log, late: int)
    requires LateStart(st.cfg, one, two, good, late)
    ensures var run, c := LateRun(s, endpoint, one, two, good, late), endpoint.chainID;
      && ValidRun(st, run)
      && var h1, h2 := HistoryAt(st, run, s, c, 1), HistoryAt(st, run, s, c, 2);
         && CursorOf(h2.cursors, s) == map[c := two.number - st.cfg.chainReorgBuffer] && h2.first == h1.first
         && var scan := Outcome(st.cfg, h1.cursors, run[1].call); scan.Ok? && Event(c, good) in scan.value.events
  {
    hide Outcome, Cursor.After, HistoryAt, ScanEndpoint, SteadyNode;
    var run, c := LateRun(s, endpoint, one, two, good, late), endpoint.chainID;
    LateFirst(st, s, endpoint, one, two, good, late);
    HistoryStep(st, run, s, c, 1);
    var h1 := HistoryAt(st, run, s, c, 1);
    var node := SteadyNode(OneBlock([good], good.blockNumber, two.number));
    assert GetOrZero(Raised(map[], map[c := good.blockNumber]), c) == good.blockNumber;
    hide Raised;
    LoneRequest(st.cfg, h1.cursors, s, endpoint, two, good, map[]);
    SingleEndpoint(st.cfg, h1.cursors, s, endpoint, two, node, [good.to], map[]);
  }

  lemma LateOrderly(
    st: Setting, s: string, endpoint: Endpoint, one: Head, two: Head, good: Log, late: int)
    requires LateStart(st.cfg, one, two, good, late)
    ensures var run, c := LateRun(s, endpoint, one, two, good, late), endpoint.chainID;
      && ValidRun(st, run) && HonestRun(run) && CursorGrows(st, run, s, c)
      && Orderly(st.cfg, run, s, c, good.to)
  {
    hide Outcome, WellFormed, Honest, Faithful, MatchingDecode, Run;
    var run, c, b := LateRun(s, endpoint, one, two, good, late), endpoint.chainID, good.blockNumber;
    var reach := two.number - st.cfg.chainReorgBuffer;
    LateFirst(st, s, endpoint, one, two, good, late);
    LateSecond(st, s, endpoint, one, two, good, late);
    OneBlockSteady(good, b, one.number, b);
    OneBlockSteady(good, b, two.number, reach);
    assert Regular(st.cfg, Run(st.cfg, run[..0], s, c), run[0], 0, s, c, good.to);
    assert Regular(st.cfg, Run(st.cfg, run[..1], s, c), run[1], 0, s, c, good.to);
    assert run[0].chain[..b] == run[1].chain[..b];
    assert OrderlyAt(st.cfg, run, 0, s, c, good.to);
    assert OrderlyAt(st.cfg, run, 1, s, c, good.to);
  }

  /**
   * A first start above the head takes nothing out of the account: when the second request fails on the
   * transfer in between, the transfer is missed and the run does not count as delivered.
   */
  lemma LateStartCounts(
    st: Setting, s: string, endpoint: Endpoint, one: Head, two: Head, good: Log, late: int, error: Error)
    requires LateStart(st.cfg, one, two, good, late) && st.outside(1).dial(0) == Some(error)
    ensures var run, c := LateRun(s, endpoint, one, two, good, late), endpoint.chainID;
      && ValidRun(st, run) && HonestRun(run) && CursorGrows(st, run, s, c) && Orderly(st.cfg, run, s, c, good.to)
      && !FailsHarmlessly(st, run, s, c, good.to, 1) && Missed(st, run, s, c, 2, Event(c, good))
      && !DeliveredAll(st, run, s, c, good.to, 2)
  {
    hide Outcome, Serve, HonestRun, CursorGrows, Orderly, HistoryAt, DeliveredAll;
    var run, c := LateRun(s, endpoint, one, two, good, late), endpoint.chainID;
    LateFirst(st, s, endpoint, one, two, good, late);
    LateSecond(st, s, endpoint, one, two, good, late);
    LateOrderly(st, s, endpoint, one, two, good, late);
    DeliveredIsSeen(st, run, s, c, 1);
    assert good in run[1].chain[good.blockNumber];
    assert PassedTransfer(st, run, s, c, good.to, 1, good.blockNumber, good);
    var scan := Outcome(st.cfg, HistoryAt(st, run, s, c, 1).cursors, run[1].call);
    DialStops(st.window, [endpoint], 1, scan.value.events, st.books(1), st.outside(1), 0);
    assert ConversionFails(st, run, s, c, 1);
    HarmfulLoses(st, run, s, c, good.to, 1, good.blockNumber, good);
  }

  /******* What a payment says *******/

  /** The tables were filled by interleaved runs: of header lookups and removals, and of price calls, chore and
      deletions. */
  ghost predicate TablesFrom(
    books: Books, window: int, truth: H.Truth, headers: seq<G.Step>, prices: seq<R.Step>, observed: set<R.Observation>)
  {
    && R.IsRun(window, prices) && books.quotes == R.Exec(window, prices).quotes
    && R.Exec(window, prices).observed <= observed
    && books.rows == G.At(truth, headers, |headers|).rows
  }

  /** Blocks are dated 1970 or later. */
  ghost predicate Since1970(truth: H.Truth) {
    forall key :: truth(key).Some? ==> truth(key).value.time >= 0
  }

  /** The price was reported by the client, at most a window before the payment's date. */
  ghost predicate ReportedBy(observed: set<R.Observation>, window: int, valuer: Valuer, p: Payment) {
    exists o ::
      o in observed && P.Sub(p.timestamp, o.ts) <= window && p.usdValue == valuer(p.tokenValue, P.Micros(o.price))
  }

  /** The zero amount can only value a payment when the window is the longest duration. */
  lemma PricedIsReported(
    truth: H.Truth, observed: set<R.Observation>, window: int, valuer: Valuer, p: Payment)
    requires TimedBy(truth, p) && PricedBy(observed, window, valuer, p) && Since1970(truth)
    ensures window < P.MAX_DURATION ==> ReportedBy(observed, window, valuer, p)
  {
    var price :| R.FreshAt(observed, window, p.timestamp, price) && p.usdValue == valuer(p.tokenValue, price);
    assert p.timestamp >= EPOCH;
    if window < P.MAX_DURATION {
      assert P.Sub(p.timestamp, 0) == P.MAX_DURATION;
      var o :| o in observed && o.price == price.units && P.Sub(p.timestamp, o.ts) <= window;
    }
  }

  /**
   * Whatever filled the tables before, and whatever events are converted, each payment is dated by its
   * block on the chain and valued at a price observed at most a window before that date. The one
   * exception, the zero amount of an empty table, needs the longest duration as window.
   */
  lemma {:induction false} PaymentsSound(
    window: int, valuer: Valuer, endpoints: seq<Endpoint>, events: seq<TransferEvent>, books: Books, outside: Outside,
    truth: H.Truth, headers: seq<G.Step>, prices: seq<R.Step>, observed: set<R.Observation>)
    requires TablesFrom(books, window, truth, headers, prices, observed)
    requires ClientObserved(outside, observed) && NodesTruthful(truth, events, outside)
    ensures var r := PayAll(window, valuer, endpoints, |endpoints|, events, books, outside).0;
      r.Ok? ==>
        && AllTimed(truth, r.value) && AllPriced(observed, window, valuer, r.value)
        && (Since1970(truth) && window < P.MAX_DURATION
            ==> forall i :: 0 <= i < |r.value| ==> ReportedBy(observed, window, valuer, r.value[i]))
  {
    hide PayAll, R.IsRun, R.Exec, G.At, R.AllObserved, H.AgreesWith, TimedBy, PricedBy, NodesTruthful,
      ClientObserved, ReportedBy;
    R.RunObserved(window, prices, observed);
    G.RunSound(truth, headers, |headers|);
    PaymentsTimed(truth, window, valuer, endpoints, |endpoints|, events, books, outside);
    PaymentsPriced(observed, window, valuer, endpoints, |endpoints|, events, books, outside);
    var r := PayAll(window, valuer, endpoints, |endpoints|, events, books, outside).0;
    if r.Ok? && Since1970(truth) {
      forall i | 0 <= i < |r.value|
        ensures window < P.MAX_DURATION ==> ReportedBy(observed, window, valuer, r.value[i])
      {
        PricedIsReported(truth, observed, window, valuer, r.value[i]);
      }
    }
  }
}
