/** Exactly which transfers a run of scans loses, on nodes that serve the chain as it stands. */
module LossRuns {
  import opened Common
  import opened LogStream
  import opened Scan
  import opened ScanProperties
  import opened ScanCoverage
  import opened Cursor
  import opened CursorRuns

  ghost predicate ValidCalls(cfg: Config, run: seq<Moment>) {
    ValidConfig(cfg) && cfg.chainReorgBuffer >= 0 && forall i :: 0 <= i < |run| ==> ValidCall(run[i].call)
  }

  /** The call succeeds for satellite s and scans chain c. */
  ghost predicate Scans(cfg: Config, h: History, call: Call, s: string, c: int)
    requires ValidConfig(cfg) && ValidCall(call)
  {
    var scan := Outcome(cfg, h.cursors, call);
    call.satellite == s && scan.Ok? && c in scan.value.blocks
  }

  /** Endpoint e serves chain c as it stands to every query for the given wallets. */
  ghost predicate SteadyView(m: Moment, e: nat, c: int, wallets: seq<Address>)
    requires ValidCall(m.call)
  {
    && e < |m.call.views| && m.call.endpoints[e].chainID == c && DistinctChains(m.call.endpoints)
    && m.call.wallets.Ok? && (forall w :: w in m.call.wallets.value <==> w in wallets)
    && |m.chain| > 0 && Steady(m.call.views[e].node, m.chain)
    && m.call.views[e].head.Ok? && m.call.views[e].head.value.number == |m.chain| - 1
  }

  ghost predicate SteadyAt(cfg: Config, run: seq<Moment>, n: nat, s: string, c: int, wallets: seq<Address>)
    requires ValidCalls(cfg, run) && n < |run|
  {
    var h, m := RunAt(cfg, run, s, c, n), run[n];
    var cursor, cursor' := CursorOf(h.cursors, s), CursorOf(RunAt(cfg, run, s, c, n + 1).cursors, s);
    && HonestCall(m.call) && WellFormed(m.chain)
    && (n > 0 ==> SettledBelow(cursor, c, run[n - 1].chain, m.chain))
    && (c in cursor ==> c in cursor' && cursor[c] <= cursor'[c])
    && (Scans(cfg, h, m.call, s, c) ==> exists e: nat :: SteadyView(m, e, c, wallets))
  }

  /** Nodes are steady, wallets stay the same, cursors do not move back and blocks below them do not change. */
  ghost predicate SteadyRun(cfg: Config, run: seq<Moment>, s: string, c: int, wallets: seq<Address>)
    requires ValidCalls(cfg, run)
  {
    forall n :: 0 <= n < |run| ==> SteadyAt(cfg, run, n, s, c, wallets)
  }

  /** Two logs that read as the same event are the same log. */
  ghost predicate OneLogPerEvent(run: seq<Moment>, c: int) {
    forall i, k, b, d, l, m ::
      OnChain(run, i, b, l) && OnChain(run, k, d, m) && Event(c, l) == Event(c, m) ==> l == m
  }

  ghost predicate OnChain(run: seq<Moment>, i: int, b: int, log: Log) {
    0 <= i < |run| && 0 <= b < |run[i].chain| && log in run[i].chain[b]
  }

  /******* One scan *******/

  /** What a scan of a steady chain does to the history, and the events of that chain. */
  lemma ScanStep(cfg: Config, h: History, m: Moment, e: nat, s: string, c: int, wallets: seq<Address>)
    requires ValidConfig(cfg) && cfg.chainReorgBuffer >= 0 && ValidCall(m.call)
    requires Scans(cfg, h, m.call, s, c) && SteadyView(m, e, c, wallets)
    ensures var h', latest, start := Step(cfg, h, m.call, s, c), |m.chain| - 1, StartOf(h, m.call, c);
      var part := ScanEndpoint(cfg, m.call.views[e].node, c, start, latest, m.call.wallets.value);
      && c in CursorOf(h'.cursors, s) && CursorOf(h'.cursors, s)[c] == CursorAt(cfg, latest)
      && h'.first == (if h.first.Some? then h.first else Some(CoverageStart(cfg, start, latest)))
      && part.Ok? && Reachable(m.call.views[e].node)
      && forall ev: TransferEvent ::
           ev.chainID == c ==> (ev in Outcome(cfg, h.cursors, m.call).value.events <==> ev in part.value)
  {
    hide ScanAll, ScanEndpoint, Raised, Steady, Advanced, After;
    var call, from := m.call, Raised(m.call.from, CursorOf(h.cursors, s));
    ScanAllOfChain(cfg, call.endpoints, call.views, call.wallets.value, from, |call.endpoints|, e);
    ScanAllHeader(cfg, call.endpoints, call.views, call.wallets.value, from, |call.endpoints|, e);
    CursorUpdates(cfg, h.cursors, call);
    ScannedReachable(cfg, call.views[e].node, c, StartOf(h, call, c), |m.chain| - 1, call.wallets.value);
  }

  /** Events of the scanned chain come from its logs that unpack, at or after the first block scanned. */
  lemma ScanSources(cfg: Config, h: History, m: Moment, e: nat, s: string, c: int, wallets: seq<Address>)
    requires ValidConfig(cfg) && cfg.chainReorgBuffer >= 0 && ValidCall(m.call)
    requires Scans(cfg, h, m.call, s, c) && SteadyView(m, e, c, wallets)
    ensures forall ev :: ev in Outcome(cfg, h.cursors, m.call).value.events && ev.chainID == c ==>
      HasSource(ev, m.chain, c, m.call.wallets.value, FirstScanned(cfg, StartOf(h, m.call, c), |m.chain| - 1))
  {
    hide Outcome, ScanWindows, StartOf, HasSource, Steady, Clamp;
    var latest, start := |m.chain| - 1, StartOf(h, m.call, c);
    ScanStep(cfg, h, m, e, s, c, wallets);
    if start <= latest {
      WindowsSourced(cfg, m.call.views[e].node, m.chain, c, Clamp(cfg, start, latest), latest, m.call.wallets.value);
    }
  }

  /** From the first block scanned on, logs up to the cursor to come are returned when they all unpack. */
  lemma ScanReturns(
    cfg: Config, h: History, m: Moment, e: nat, s: string, c: int, wallets: seq<Address>, b: nat, log: Log)
    requires ValidConfig(cfg) && cfg.chainReorgBuffer >= 0 && ValidCall(m.call)
    requires Scans(cfg, h, m.call, s, c) && SteadyView(m, e, c, wallets)
    requires var upto, first := CursorAt(cfg, |m.chain| - 1), FirstScanned(cfg, StartOf(h, m.call, c), |m.chain| - 1);
      first <= b < upto && MatchingDecode(m.chain, first, upto, wallets)
    requires log in m.chain[b] && log.to in wallets
    ensures Event(c, log) in Outcome(cfg, h.cursors, m.call).value.events
  {
    hide Outcome, ScanEndpoint, StartOf, Steady, Clamp, Faithful;
    var latest, start, upto: nat := |m.chain| - 1, StartOf(h, m.call, c), CursorAt(cfg, |m.chain| - 1);
    var node, listed := m.call.views[e].node, m.call.wallets.value;
    ScanStep(cfg, h, m, e, s, c, wallets);
    SteadyIsFaithful(node, m.chain, upto);
    EndpointCovers(cfg, node, c, start, latest, listed, m.chain, upto, b, log);
  }

  /******* Where the coverage stands *******/

  /** Once the chain has been scanned, the coverage begins at or below the cursor, and the cursor is on the chain. */
  ghost predicate Standing(h: History, chain: Chain, s: string, c: int) {
    var cursor := CursorOf(h.cursors, s);
    && (c in cursor <==> h.first.Some?)
    && (c in cursor ==> 0 <= h.first.value <= cursor[c] <= |chain|)
  }

  lemma StandingStep(cfg: Config, run: seq<Moment>, s: string, c: int, wallets: seq<Address>, n: nat)
    requires ValidCalls(cfg, run) && n < |run| && SteadyRun(cfg, run, s, c, wallets)
    requires Standing(RunAt(cfg, run, s, c, n), run[n].chain, s, c)
    ensures Standing(RunAt(cfg, run, s, c, n + 1), run[n].chain, s, c)
    ensures var h, h' := RunAt(cfg, run, s, c, n), RunAt(cfg, run, s, c, n + 1);
      && (h.first.Some? ==> h'.first == h.first)
      && (!Scans(cfg, h, run[n].call, s, c) ==>
            h'.first == h.first && (c in CursorOf(h'.cursors, s) <==> c in CursorOf(h.cursors, s))
            && (c in CursorOf(h.cursors, s) ==> CursorOf(h'.cursors, s)[c] == CursorOf(h.cursors, s)[c]))
  {
    hide Outcome, After, RunAt, StartOf, SteadyView, FirstScanned;
    var h, m := RunAt(cfg, run, s, c, n), run[n];
    RunAtStep(cfg, run, s, c, n);
    CursorUpdates(cfg, h.cursors, m.call);
    assert SteadyAt(cfg, run, n, s, c, wallets);
    if Scans(cfg, h, m.call, s, c) {
      var e: nat :| SteadyView(m, e, c, wallets);
      ScanStep(cfg, h, m, e, s, c, wallets);
      HeadOnChain(m, e, c, wallets);
    }
  }

  lemma HeadOnChain(m: Moment, e: nat, c: int, wallets: seq<Address>)
    requires ValidCall(m.call) && SteadyView(m, e, c, wallets)
    ensures |m.chain| > 0 && m.call.wallets.Ok?
  {}

  lemma {:induction false} StandingAt(
    cfg: Config, run: seq<Moment>, s: string, c: int, wallets: seq<Address>, n: nat)
    requires ValidCalls(cfg, run) && n < |run| && SteadyRun(cfg, run, s, c, wallets)
    ensures Standing(RunAt(cfg, run, s, c, n), run[n].chain, s, c)
  {
    hide RunAt, Scans;
    if n == 0 {
      NothingStanding(cfg, run, s, c);
    } else {
      StandingAt(cfg, run, s, c, wallets, n - 1);
      StandingStep(cfg, run, s, c, wallets, n - 1);
      assert SteadyAt(cfg, run, n, s, c, wallets);
    }
  }

  lemma NothingStanding(cfg: Config, run: seq<Moment>, s: string, c: int)
    requires ValidCalls(cfg, run) && run != []
    ensures RunAt(cfg, run, s, c, 0) == History(map[], [], None)
    ensures Standing(RunAt(cfg, run, s, c, 0), run[0].chain, s, c)
  {}

  /******* Exactly when a run is complete *******/

  /** The first block that a scan of the whole chain queries. */
  ghost function FirstOf(cfg: Config, h: History, m: Moment, c: int): nat {
    if m.chain == [] then 0 else FirstScanned(cfg, StartOf(h, m.call, c), |m.chain| - 1)
  }

  /** A log for one of the wallets in a block that call n puts below the cursor. */
  ghost predicate PassedLog(
    cfg: Config, run: seq<Moment>, s: string, c: int, wallets: seq<Address>, n: nat, b: int, log: Log)
    requires ValidCalls(cfg, run) && n < |run|
  {
    && Passed(RunAt(cfg, run, s, c, n), RunAt(cfg, run, s, c, n + 1), s, c, b)
    && OnChain(run, n, b, log) && log.to in wallets
  }

  /** Every log that call n passes unpacks, and lies at or after the first block scanned or was returned before. */
  ghost predicate Kept(cfg: Config, run: seq<Moment>, s: string, c: int, wallets: seq<Address>, n: nat)
    requires ValidCalls(cfg, run) && n < |run|
  {
    forall b, log :: PassedLog(cfg, run, s, c, wallets, n, b, log) ==>
      && log.decodes
      && (b >= FirstOf(cfg, RunAt(cfg, run, s, c, n), run[n], c) || Event(c, log) in RunAt(cfg, run, s, c, n).seen)
  }

  /** Every transfer to one of the wallets from the start of the coverage up to the cursor is among the events. */
  ghost predicate Complete(
    events: seq<TransferEvent>, h: History, chain: Chain, s: string, c: int, wallets: seq<Address>)
  {
    var cursor := CursorOf(h.cursors, s);
    c in cursor && h.first.Some? ==>
      forall b, log ::
        h.first.value <= b < cursor[c] && 0 <= b < |chain| && log in chain[b] && log.to in wallets
        ==> Event(c, log) in events
  }

  lemma FirstAboveCursor(cfg: Config, h: History, m: Moment, s: string, c: int)
    requires |m.chain| > 0 && m.call.satellite == s && NonNegative(h.cursors)
    ensures c in CursorOf(h.cursors, s) ==> FirstOf(cfg, h, m, c) >= CursorOf(h.cursors, s)[c]
  {}

  /** Blocks from the first scanned one up to the new cursor are passed. */
  lemma ScannedIsPassed(cfg: Config, run: seq<Moment>, s: string, c: int, wallets: seq<Address>, n: nat, e: nat, b: int)
    requires ValidCalls(cfg, run) && n < |run| && SteadyRun(cfg, run, s, c, wallets)
    requires Scans(cfg, RunAt(cfg, run, s, c, n), run[n].call, s, c) && SteadyView(run[n], e, c, wallets)
    requires FirstOf(cfg, RunAt(cfg, run, s, c, n), run[n], c) <= b < CursorAt(cfg, |run[n].chain| - 1)
    ensures Passed(RunAt(cfg, run, s, c, n), RunAt(cfg, run, s, c, n + 1), s, c, b)
  {
    hide Outcome, RunAt, StartOf, SteadyView, FirstScanned, SteadyRun, NonNegative, Scans;
    var h, m := RunAt(cfg, run, s, c, n), run[n];
    RunAtStep(cfg, run, s, c, n);
    StandingAt(cfg, run, s, c, wallets, n);
    ScanStep(cfg, h, m, e, s, c, wallets);
    RunAtNonNegative(cfg, run, s, c, n);
    ScanIsCallOf(cfg, h, m.call, s, c);
    FirstAboveCursor(cfg, h, m, s, c);
  }

  lemma ScanIsCallOf(cfg: Config, h: History, call: Call, s: string, c: int)
    requires ValidConfig(cfg) && ValidCall(call) && Scans(cfg, h, call, s, c)
    ensures call.satellite == s && Outcome(cfg, h.cursors, call).Ok?
    ensures Step(cfg, h, call, s, c).seen == h.seen + Outcome(cfg, h.cursors, call).value.events
  {
    hide Outcome, After;
  }

  /** A call that passes a log scans the chain. */
  lemma PassedIsScanned(
    cfg: Config, run: seq<Moment>, s: string, c: int, wallets: seq<Address>, n: nat, b: int, log: Log)
    requires ValidCalls(cfg, run) && n < |run| && SteadyRun(cfg, run, s, c, wallets)
    requires PassedLog(cfg, run, s, c, wallets, n, b, log)
    ensures Scans(cfg, RunAt(cfg, run, s, c, n), run[n].call, s, c)
  {
    hide Scans, RunAt, SteadyRun;
    StandingAt(cfg, run, s, c, wallets, n);
    StandingStep(cfg, run, s, c, wallets, n);
  }

  lemma SteadyScan(cfg: Config, run: seq<Moment>, s: string, c: int, wallets: seq<Address>, n: nat) returns (e: nat)
    requires ValidCalls(cfg, run) && n < |run| && SteadyRun(cfg, run, s, c, wallets)
    requires Scans(cfg, RunAt(cfg, run, s, c, n), run[n].call, s, c)
    ensures SteadyView(run[n], e, c, wallets) && |run[n].chain| > 0 && run[n].call.wallets.Ok?
  {
    hide Scans, RunAt, SteadyView;
    assert SteadyAt(cfg, run, n, s, c, wallets);
    e :| SteadyView(run[n], e, c, wallets);
    HeadOnChain(run[n], e, c, wallets);
  }

  /** What a call passes and keeps has been returned after it. */
  lemma KeptReturns(
    cfg: Config, run: seq<Moment>, s: string, c: int, wallets: seq<Address>, n: nat, b: int, log: Log)
    requires ValidCalls(cfg, run) && n < |run| && SteadyRun(cfg, run, s, c, wallets)
    requires Kept(cfg, run, s, c, wallets, n) && PassedLog(cfg, run, s, c, wallets, n, b, log)
    ensures Event(c, log) in RunAt(cfg, run, s, c, n + 1).seen
  {
    hide Outcome, RunAt, Scans, SteadyRun, SteadyView, Passed, FirstOf, Step;
    var h, m := RunAt(cfg, run, s, c, n), run[n];
    PassedIsScanned(cfg, run, s, c, wallets, n, b, log);
    var e := SteadyScan(cfg, run, s, c, wallets, n);
    RunAtStep(cfg, run, s, c, n);
    ScanIsCallOf(cfg, h, m.call, s, c);
    var first, upto := FirstOf(cfg, h, m, c), CursorAt(cfg, |m.chain| - 1);
    if b >= first {
      forall k, l | first <= k < upto && l in m.chain[k] && l.to in wallets
        ensures l.decodes
      {
        ScannedIsPassed(cfg, run, s, c, wallets, n, e, k);
        assert PassedLog(cfg, run, s, c, wallets, n, k, l);
      }
      PassedBelow(cfg, run, s, c, wallets, n, e, b);
      FirstIs(cfg, h, m, c);
      ScanReturns(cfg, h, m, e, s, c, wallets, b, log);
    }
  }

  lemma FirstIs(cfg: Config, h: History, m: Moment, c: int)
    requires |m.chain| > 0
    ensures FirstOf(cfg, h, m, c) == FirstScanned(cfg, StartOf(h, m.call, c), |m.chain| - 1)
  {}

  lemma PassedBelow(cfg: Config, run: seq<Moment>, s: string, c: int, wallets: seq<Address>, n: nat, e: nat, b: int)
    requires ValidCalls(cfg, run) && n < |run|
    requires Scans(cfg, RunAt(cfg, run, s, c, n), run[n].call, s, c) && SteadyView(run[n], e, c, wallets)
    requires Passed(RunAt(cfg, run, s, c, n), RunAt(cfg, run, s, c, n + 1), s, c, b)
    ensures 0 <= b < CursorAt(cfg, |run[n].chain| - 1)
  {
    hide Outcome, RunAt, Scans, SteadyView, Step;
    RunAtStep(cfg, run, s, c, n);
    ScanStep(cfg, RunAt(cfg, run, s, c, n), run[n], e, s, c, wallets);
  }

  lemma SeenGrows(cfg: Config, run: seq<Moment>, s: string, c: int, n: nat)
    requires ValidCalls(cfg, run) && n < |run|
    ensures forall e :: e in RunAt(cfg, run, s, c, n).seen ==> e in RunAt(cfg, run, s, c, n + 1).seen
  {
    hide Outcome, RunAt, After;
    RunAtStep(cfg, run, s, c, n);
  }

  lemma {:induction false} KeptComplete(
    cfg: Config, run: seq<Moment>, s: string, c: int, wallets: seq<Address>, n: nat)
    requires ValidCalls(cfg, run) && 0 < n <= |run| && SteadyRun(cfg, run, s, c, wallets)
    requires forall k :: 0 <= k < n ==> Kept(cfg, run, s, c, wallets, k)
    ensures Complete(RunAt(cfg, run, s, c, n).seen, RunAt(cfg, run, s, c, n), run[n - 1].chain, s, c, wallets)
    decreases n
  {
    hide RunAt, Scans, Kept, SteadyRun;
    var m := n - 1;
    var h, h', chain := RunAt(cfg, run, s, c, m), RunAt(cfg, run, s, c, n), run[m].chain;
    var cursor, cursor' := CursorOf(h.cursors, s), CursorOf(h'.cursors, s);
    StandingAt(cfg, run, s, c, wallets, m);
    StandingStep(cfg, run, s, c, wallets, m);
    SeenGrows(cfg, run, s, c, m);
    if m > 0 {
      KeptComplete(cfg, run, s, c, wallets, m);
    } else {
      NothingStanding(cfg, run, s, c);
    }
    if c in cursor' && h'.first.Some? {
      forall b, log: Log | h'.first.value <= b < cursor'[c] && 0 <= b < |chain| && log in chain[b] && log.to in wallets
        ensures Event(c, log) in h'.seen
      {
        if c in cursor && b < cursor[c] {
          StaysBelow(cfg, run, s, c, wallets, m, b, log);
        } else {
          assert PassedLog(cfg, run, s, c, wallets, m, b, log);
          KeptReturns(cfg, run, s, c, wallets, m, b, log);
        }
      }
    }
  }

  /** Below the cursor that a call finds, the chain is as it was before. */
  lemma StaysBelow(
    cfg: Config, run: seq<Moment>, s: string, c: int, wallets: seq<Address>, n: nat, b: nat, log: Log)
    requires ValidCalls(cfg, run) && 0 < n < |run| && SteadyRun(cfg, run, s, c, wallets)
    requires var cursor := CursorOf(RunAt(cfg, run, s, c, n).cursors, s); c in cursor && b < cursor[c]
    ensures b < |run[n].chain| && b < |run[n - 1].chain| && run[n].chain[b] == run[n - 1].chain[b]
  {
    hide RunAt, Scans;
    assert SteadyAt(cfg, run, n, s, c, wallets);
    var before, after := run[n - 1].chain, run[n].chain;
    var cursor := CursorOf(RunAt(cfg, run, s, c, n).cursors, s)[c];
    assert after[b] == after[..cursor][b] == before[..cursor][b] == before[b];
  }

  /******* What is lost *******/

  lemma NoEventElsewhere(cfg: Config, h: History, call: Call, s: string, c: int)
    requires ValidConfig(cfg) && ValidCall(call) && Outcome(cfg, h.cursors, call).Ok?
    requires c !in Outcome(cfg, h.cursors, call).value.blocks
    ensures forall ev :: ev in Outcome(cfg, h.cursors, call).value.events ==> ev.chainID != c
  {
    hide ScanAll, Raised;
    var from, n := Raised(call.from, CursorOf(h.cursors, call.satellite)), |call.endpoints|;
    ScanAllParts(cfg, call.endpoints, call.views, call.wallets.value, from, n, n);
    OtherChains(cfg, call.endpoints, call.views, call.wallets.value, from, n, c);
  }

  /** Some log of the run that unpacks reads as the event. */
  ghost predicate FromRun(run: seq<Moment>, c: int, ev: TransferEvent) {
    exists i, b, log :: OnChain(run, i, b, log) && log.decodes && ev == Event(c, log)
  }

  lemma ReturnedFromRun(
    cfg: Config, run: seq<Moment>, s: string, c: int, wallets: seq<Address>, n: nat, ev: TransferEvent)
    requires ValidCalls(cfg, run) && n < |run| && SteadyRun(cfg, run, s, c, wallets)
    requires Scans(cfg, RunAt(cfg, run, s, c, n), run[n].call, s, c)
    requires Outcome(cfg, RunAt(cfg, run, s, c, n).cursors, run[n].call).Ok?
    requires ev in Outcome(cfg, RunAt(cfg, run, s, c, n).cursors, run[n].call).value.events && ev.chainID == c
    ensures FromRun(run, c, ev)
    ensures |run[n].chain| > 0 && ev.blockNumber >= FirstOf(cfg, RunAt(cfg, run, s, c, n), run[n], c)
  {
    hide Outcome, RunAt, Scans, SteadyView, FirstScanned;
    var h, m := RunAt(cfg, run, s, c, n), run[n];
    var e := SteadyScan(cfg, run, s, c, wallets, n);
    ScanSources(cfg, h, m, e, s, c, wallets);
    FirstIs(cfg, h, m, c);
    var first := FirstOf(cfg, h, m, c);
    var b, log :| SourceOf(ev, m.chain, c, m.call.wallets.value, first, b, log);
    assert OnChain(run, n, b, log);
    assert SteadyAt(cfg, run, n, s, c, wallets);
    NumberOf(m.chain, b, log);
  }

  lemma {:induction false} SeenFromRun(
    cfg: Config, run: seq<Moment>, s: string, c: int, wallets: seq<Address>, n: nat, ev: TransferEvent)
    requires ValidCalls(cfg, run) && n <= |run| && SteadyRun(cfg, run, s, c, wallets)
    requires ev in RunAt(cfg, run, s, c, n).seen && ev.chainID == c
    ensures FromRun(run, c, ev)
  {
    hide Outcome, RunAt, After, SteadyRun, FromRun;
    if n == 0 {
      NothingSeen(cfg, run, s, c);
    } else {
      var h, m := RunAt(cfg, run, s, c, n - 1), run[n - 1];
      RunAtStep(cfg, run, s, c, n - 1);
      if ev in h.seen {
        SeenFromRun(cfg, run, s, c, wallets, n - 1, ev);
      } else if Scans(cfg, h, m.call, s, c) {
        ReturnedFromRun(cfg, run, s, c, wallets, n - 1, ev);
      } else {
        NoEventElsewhere(cfg, h, m.call, s, c);
      }
    }
  }

  lemma NothingSeen(cfg: Config, run: seq<Moment>, s: string, c: int)
    requires ValidCalls(cfg, run)
    ensures RunAt(cfg, run, s, c, 0).seen == []
  {}

  /** A log that does not unpack is never returned. */
  lemma SeenDecodes(
    cfg: Config, run: seq<Moment>, s: string, c: int, wallets: seq<Address>, n: nat, i: nat, b: int, log: Log)
    requires ValidCalls(cfg, run) && n <= |run| && SteadyRun(cfg, run, s, c, wallets) && OneLogPerEvent(run, c)
    requires OnChain(run, i, b, log) && Event(c, log) in RunAt(cfg, run, s, c, n).seen
    ensures log.decodes
  {
    hide RunAt, SteadyRun;
    SeenFromRun(cfg, run, s, c, wallets, n, Event(c, log));
    var k, d, l :| OnChain(run, k, d, l) && l.decodes && Event(c, log) == Event(c, l);
  }

  /** The event is below the cursor after n calls, and has not been returned. */
  ghost predicate Unseen(cfg: Config, run: seq<Moment>, s: string, c: int, n: nat, ev: TransferEvent)
    requires ValidCalls(cfg, run) && n <= |run|
  {
    var h := RunAt(cfg, run, s, c, n);
    var cursor := CursorOf(h.cursors, s);
    ev.chainID == c && c in cursor && ev.blockNumber < cursor[c] && ev !in h.seen
  }

  lemma {:induction false} UnseenForGood(
    cfg: Config, run: seq<Moment>, s: string, c: int, wallets: seq<Address>, n: nat, k: nat, ev: TransferEvent)
    requires ValidCalls(cfg, run) && n <= k <= |run| && SteadyRun(cfg, run, s, c, wallets)
    requires Unseen(cfg, run, s, c, n, ev)
    ensures Unseen(cfg, run, s, c, k, ev)
    decreases k
  {
    hide Outcome, RunAt, After, Scans, HonestCall, NonNegative;
    if n == k {
    } else {
      var m := k - 1;
      UnseenForGood(cfg, run, s, c, wallets, n, m, ev);
      var h, call := RunAt(cfg, run, s, c, m), run[m].call;
      RunAtStep(cfg, run, s, c, m);
      RunAtNonNegative(cfg, run, s, c, m);
      assert SteadyAt(cfg, run, m, s, c, wallets);
      if call.satellite == s {
        NothingBelowCursor(cfg, h.cursors, call, c);
      }
    }
  }

  /** A passed log stays on the chain, below the cursor. */
  lemma {:induction false} PassedLogStays(
    cfg: Config, run: seq<Moment>, s: string, c: int, wallets: seq<Address>, n: nat, k: nat, b: int, log: Log)
    requires ValidCalls(cfg, run) && n < k <= |run| && SteadyRun(cfg, run, s, c, wallets)
    requires PassedLog(cfg, run, s, c, wallets, n, b, log)
    ensures var h := RunAt(cfg, run, s, c, k);
      && c in CursorOf(h.cursors, s) && h.first.Some? && h.first.value <= b < CursorOf(h.cursors, s)[c]
      && OnChain(run, k - 1, b, log)
    decreases k
  {
    hide RunAt, Scans;
    var m := k - 1;
    if m == n {
    } else {
      PassedLogStays(cfg, run, s, c, wallets, n, m, b, log);
      StaysBelow(cfg, run, s, c, wallets, m, b, log);
      StandingAt(cfg, run, s, c, wallets, m);
      StandingStep(cfg, run, s, c, wallets, m);
      assert SteadyAt(cfg, run, m, s, c, wallets);
    }
  }

  /** A call does not return a log below the first block it scans. */
  lemma SkippedUnseen(
    cfg: Config, run: seq<Moment>, s: string, c: int, wallets: seq<Address>, n: nat, b: int, log: Log)
    requires ValidCalls(cfg, run) && n < |run| && SteadyRun(cfg, run, s, c, wallets)
    requires PassedLog(cfg, run, s, c, wallets, n, b, log)
    requires Event(c, log) !in RunAt(cfg, run, s, c, n).seen && b < FirstOf(cfg, RunAt(cfg, run, s, c, n), run[n], c)
    ensures Event(c, log) !in RunAt(cfg, run, s, c, n + 1).seen
  {
    hide Outcome, RunAt, Scans, FirstOf, After;
    var h, m, ev := RunAt(cfg, run, s, c, n), run[n], Event(c, log);
    PassedIsScanned(cfg, run, s, c, wallets, n, b, log);
    RunAtStep(cfg, run, s, c, n);
    ScanIsCallOf(cfg, h, m.call, s, c);
    assert SteadyAt(cfg, run, n, s, c, wallets);
    NumberOf(m.chain, b, log);
    if ev in Outcome(cfg, h.cursors, m.call).value.events {
      ReturnedFromRun(cfg, run, s, c, wallets, n, ev);
    }
  }

  /** A call that does not keep what it passes leaves a transfer out for good. */
  lemma NotKeptLoses(
    cfg: Config, run: seq<Moment>, s: string, c: int, wallets: seq<Address>, n: nat)
    requires ValidCalls(cfg, run) && n < |run| && SteadyRun(cfg, run, s, c, wallets) && OneLogPerEvent(run, c)
    requires !Kept(cfg, run, s, c, wallets, n)
    ensures var h := RunAt(cfg, run, s, c, |run|); !Complete(h.seen, h, run[|run| - 1].chain, s, c, wallets)
  {
    hide RunAt, SteadyRun, FirstOf, PassedLog, OneLogPerEvent;
    var b, log :| PassedLog(cfg, run, s, c, wallets, n, b, log) && !(log.decodes
      && (b >= FirstOf(cfg, RunAt(cfg, run, s, c, n), run[n], c) || Event(c, log) in RunAt(cfg, run, s, c, n).seen));
    var ev := Event(c, log);
    PassedIsOnChain(cfg, run, s, c, wallets, n, b, log);
    PassedLogStays(cfg, run, s, c, wallets, n, |run|, b, log);
    if log.decodes {
      SkippedUnseen(cfg, run, s, c, wallets, n, b, log);
      PassedLogStays(cfg, run, s, c, wallets, n, n + 1, b, log);
      UnseenForGood(cfg, run, s, c, wallets, n + 1, |run|, ev);
    } else if ev in RunAt(cfg, run, s, c, |run|).seen {
      SeenDecodes(cfg, run, s, c, wallets, |run|, n, b, log);
    }
  }

  lemma PassedIsOnChain(
    cfg: Config, run: seq<Moment>, s: string, c: int, wallets: seq<Address>, n: nat, b: int, log: Log)
    requires ValidCalls(cfg, run) && n < |run| && SteadyRun(cfg, run, s, c, wallets)
    requires PassedLog(cfg, run, s, c, wallets, n, b, log)
    ensures OnChain(run, n, b, log) && log.to in wallets && log.blockNumber == b
  {
    hide Passed, RunAt;
    assert SteadyAt(cfg, run, n, s, c, wallets);
    NumberOf(run[n].chain, b, log);
  }

  /**
   * Over every run with steady nodes, each transfer to one of the wallets from the start of the coverage
   * up to the cursor has been returned, if and only if every log that some call passed unpacks, and lies
   * at or after the first block which that call scanned or had been returned before.
   */
  lemma RunLossExact(cfg: Config, run: seq<Moment>, s: string, c: int, wallets: seq<Address>)
    requires ValidCalls(cfg, run) && run != [] && SteadyRun(cfg, run, s, c, wallets) && OneLogPerEvent(run, c)
    ensures var h := RunAt(cfg, run, s, c, |run|);
      Complete(h.seen, h, run[|run| - 1].chain, s, c, wallets)
      <==> forall n :: 0 <= n < |run| ==> Kept(cfg, run, s, c, wallets, n)
  {
    hide RunAt, SteadyRun, OneLogPerEvent, Kept, Complete;
    if forall n :: 0 <= n < |run| ==> Kept(cfg, run, s, c, wallets, n) {
      KeptComplete(cfg, run, s, c, wallets, |run|);
    } else {
      var n :| 0 <= n < |run| && !Kept(cfg, run, s, c, wallets, n);
      NotKeptLoses(cfg, run, s, c, wallets, n);
    }
  }
}
