/** What the cursors guarantee over whole runs of calls, and what they do not. */
module CursorRuns {
  import opened Common
  import opened LogStream
  import opened Scan
  import opened ScanProperties
  import opened ScanCoverage
  import opened Cursor

  /******* One call *******/

  ghost predicate DistinctChains(endpoints: seq<Endpoint>) {
    forall i, k :: 0 <= i < k < |endpoints| ==> endpoints[i].chainID != endpoints[k].chainID
  }

  ghost predicate HonestCall(call: Call) {
    forall i :: 0 <= i < |call.views| ==> Honest(call.views[i].node)
  }

  /** A call that fails on any endpoint moves no cursor; a successful one sets exactly the scanned chains'. */
  lemma CursorUpdates(cfg: Config, cursors: Cursors, call: Call)
    requires ValidConfig(cfg) && ValidCall(call)
    ensures forall s :: s != call.satellite ==> CursorOf(After(cfg, cursors, call), s) == CursorOf(cursors, s)
    ensures var r, mine := Outcome(cfg, cursors, call), CursorOf(After(cfg, cursors, call), call.satellite);
      match r
      case Err(_) => After(cfg, cursors, call) == cursors
      case Ok(scan) =>
        && mine.Keys == CursorOf(cursors, call.satellite).Keys + scan.blocks.Keys
        && (forall c :: c in scan.blocks ==> mine[c] == CursorAt(cfg, scan.blocks[c].number))
        && (forall c :: c in mine && c !in scan.blocks ==> mine[c] == CursorOf(cursors, call.satellite)[c])
  {
    hide ScanAll;
  }

  /** The result of a scan of several endpoints, endpoint by endpoint. */
  lemma {:induction false} ScanAllParts(
    cfg: Config, endpoints: seq<Endpoint>, views: seq<View>, wallets: seq<Address>, from: map<int, int>, n: nat, e: nat)
    requires ValidConfig(cfg) && n <= |endpoints| == |views|
    requires ScanAll(cfg, endpoints, views, wallets, from, n).Ok?
    ensures var scan := ScanAll(cfg, endpoints, views, wallets, from, n).value;
      && (forall c :: c in scan.blocks <==> exists i :: 0 <= i < n && endpoints[i].chainID == c)
      && (e < n ==>
            var c := endpoints[e].chainID;
            && views[e].head.Ok?
            && var part := ScanEndpoint(
                 cfg, views[e].node, c, ToUint64(GetOrZero(from, c)), views[e].head.value.number, wallets);
               part.Ok? && forall ev :: ev in part.value ==> ev in scan.events)
  {
    hide ScanEndpoint;
    if n == 0 {
    } else {
      ScanAllParts(cfg, endpoints, views, wallets, from, n - 1, e);
    }
  }

  /** A scanned chain's header is the head that the last endpoint of that chain reported. */
  lemma {:induction false} ScanAllHeader(
    cfg: Config, endpoints: seq<Endpoint>, views: seq<View>, wallets: seq<Address>, from: map<int, int>, n: nat, e: nat)
    requires ValidConfig(cfg) && e < n <= |endpoints| == |views|
    requires forall k :: e < k < n ==> endpoints[k].chainID != endpoints[e].chainID
    requires ScanAll(cfg, endpoints, views, wallets, from, n).Ok?
    ensures var blocks := ScanAll(cfg, endpoints, views, wallets, from, n).value.blocks;
      && views[e].head.Ok? && endpoints[e].chainID in blocks
      && blocks[endpoints[e].chainID] == HeaderOf(endpoints[e].chainID, views[e].head.value)
  {
    hide ScanEndpoint;
    if e >= n - 1 {
    } else {
      ScanAllHeader(cfg, endpoints, views, wallets, from, n - 1, e);
    }
  }

  lemma {:induction false} ScanAllSafe(
    cfg: Config, endpoints: seq<Endpoint>, views: seq<View>, wallets: seq<Address>, from: map<int, int>, n: nat)
    requires ValidConfig(cfg) && n <= |endpoints| == |views|
    requires forall i :: 0 <= i < |views| ==> Honest(views[i].node)
    ensures var r := ScanAll(cfg, endpoints, views, wallets, from, n);
      r.Ok? ==>
        forall ev ::
          ev in r.value.events ==> ev.to in wallets && ev.blockNumber >= ToUint64(GetOrZero(from, ev.chainID))
  {
    hide ScanEndpoint, Honest;
    if n == 0 || ScanAll(cfg, endpoints, views, wallets, from, n).Err? {
    } else {
      ScanAllSafe(cfg, endpoints, views, wallets, from, n - 1);
      var c := endpoints[n - 1].chainID;
      EndpointSafe(cfg, views[n - 1].node, c, ToUint64(GetOrZero(from, c)), views[n - 1].head.value.number, wallets);
    }
  }

  ghost predicate NonNegative(cursors: Cursors) {
    forall s, c :: s in cursors && c in cursors[s] ==> cursors[s][c] >= 0
  }

  lemma StaysNonNegative(cfg: Config, cursors: Cursors, call: Call)
    requires ValidConfig(cfg) && ValidCall(call) && NonNegative(cursors)
    ensures NonNegative(After(cfg, cursors, call))
  {
    hide ScanAll;
  }

  /** Whatever start block the caller asks for, a call returns nothing below the cursor it began with. */
  lemma NothingBelowCursor(cfg: Config, cursors: Cursors, call: Call, c: int)
    requires ValidConfig(cfg) && ValidCall(call) && HonestCall(call) && NonNegative(cursors)
    requires c in CursorOf(cursors, call.satellite)
    ensures var r := Outcome(cfg, cursors, call);
      r.Ok? ==> forall ev :: ev in r.value.events && ev.chainID == c
                  ==> ev.to in call.wallets.value && ev.blockNumber >= CursorOf(cursors, call.satellite)[c]
  {
    hide ScanAll, Honest;
    if call.wallets.Ok? {
      ScanAllSafe(cfg, call.endpoints, call.views, call.wallets.value,
                  Raised(call.from, CursorOf(cursors, call.satellite)), |call.endpoints|);
    }
  }

  /******* Runs *******/

  function CursorsAfter(cfg: Config, calls: seq<Call>): Cursors
    requires ValidConfig(cfg) && forall i :: 0 <= i < |calls| ==> ValidCall(calls[i])
  {
    if calls == [] then map[]
    else
      var n := |calls| - 1;
      After(cfg, CursorsAfter(cfg, calls[..n]), calls[n])
  }

  /** The head seen by the last successful call for satellite s that scanned chain c. */
  function LastHead(cfg: Config, calls: seq<Call>, s: string, c: int): Option<int>
    requires ValidConfig(cfg) && forall i :: 0 <= i < |calls| ==> ValidCall(calls[i])
  {
    if calls == [] then None
    else
      var n := |calls| - 1;
      var r := Outcome(cfg, CursorsAfter(cfg, calls[..n]), calls[n]);
      if calls[n].satellite == s && r.Ok? && c in r.value.blocks then Some(r.value.blocks[c].number)
      else LastHead(cfg, calls[..n], s, c)
  }

  /** A cursor is always the last head seen, moved back by the reorganisation buffer. */
  lemma {:induction false} CursorFollowsHead(cfg: Config, calls: seq<Call>, s: string, c: int)
    requires ValidConfig(cfg) && forall i :: 0 <= i < |calls| ==> ValidCall(calls[i])
    ensures NonNegative(CursorsAfter(cfg, calls))
    ensures var cursor := CursorOf(CursorsAfter(cfg, calls), s);
      && (c in cursor <==> LastHead(cfg, calls, s, c).Some?)
      && (c in cursor ==>
            var behind := LastHead(cfg, calls, s, c).value - cfg.chainReorgBuffer;
            && cursor[c] == CursorAt(cfg, LastHead(cfg, calls, s, c).value)
            && cursor[c] == if behind > 0 then behind else 0)
  {
    hide Outcome, After;
    if calls == [] {
    } else {
      var n := |calls| - 1;
      CursorFollowsHead(cfg, calls[..n], s, c);
      CursorUpdates(cfg, CursorsAfter(cfg, calls[..n]), calls[n]);
      StaysNonNegative(cfg, CursorsAfter(cfg, calls[..n]), calls[n]);
    }
  }

  ghost predicate HeadsGrow(cfg: Config, calls: seq<Call>, s: string, c: int)
    requires ValidConfig(cfg) && forall i :: 0 <= i < |calls| ==> ValidCall(calls[i])
  {
    forall i :: 0 <= i < |calls| ==>
      var before, after := LastHead(cfg, calls[..i], s, c), LastHead(cfg, calls[..i + 1], s, c);
      before.Some? ==> after.Some? && before.value <= after.value
  }

  lemma {:induction false} HeadsGrowFrom(cfg: Config, calls: seq<Call>, s: string, c: int, i: nat, k: nat)
    requires ValidConfig(cfg) && forall i :: 0 <= i < |calls| ==> ValidCall(calls[i])
    requires HeadsGrow(cfg, calls, s, c) && i <= k <= |calls|
    ensures var before, after := LastHead(cfg, calls[..i], s, c), LastHead(cfg, calls[..k], s, c);
      before.Some? ==> after.Some? && before.value <= after.value
  {
    hide LastHead;
    if i >= k {
    } else {
      HeadsGrowFrom(cfg, calls, s, c, i, k - 1);
    }
  }

  /** With non-decreasing heads, a block below a cursor is never reported again to that satellite. */
  lemma NeverAgain(cfg: Config, calls: seq<Call>, s: string, c: int, i: nat, k: nat)
    requires ValidConfig(cfg) && forall i :: 0 <= i < |calls| ==> ValidCall(calls[i]) && HonestCall(calls[i])
    requires HeadsGrow(cfg, calls, s, c) && i <= k < |calls| && calls[k].satellite == s
    requires c in CursorOf(CursorsAfter(cfg, calls[..i]), s)
    ensures var r := Outcome(cfg, CursorsAfter(cfg, calls[..k]), calls[k]);
      r.Ok? ==> forall ev :: ev in r.value.events && ev.chainID == c
                  ==> ev.blockNumber >= CursorOf(CursorsAfter(cfg, calls[..i]), s)[c]
  {
    hide LastHead, CursorsAfter, Outcome, HonestCall, HeadsGrow;
    CursorFollowsHead(cfg, calls[..i], s, c);
    CursorFollowsHead(cfg, calls[..k], s, c);
    HeadsGrowFrom(cfg, calls, s, c, i, k);
    NothingBelowCursor(cfg, CursorsAfter(cfg, calls[..k]), calls[k], c);
  }

  /******* Completeness *******/

  /** One call of a run, with the chain that satellite s is watching as it stands at that time. */
  datatype Moment = Moment(call: Call, chain: Chain)

  /** The history of satellite s on chain c: the cursors, the events of the scans for s, and the block from which
      on the calls answer for the chain. */
  datatype History = History(cursors: Cursors, seen: seq<TransferEvent>, first: Option<int>)

  function StartOf(h: History, call: Call, c: int): nat {
    ToUint64(GetOrZero(Raised(call.from, CursorOf(h.cursors, call.satellite)), c))
  }

  /** A first call answers for the chain from the first block it scans, or from the cursor it sets when that
      is lower: a start above the head scans nothing, and the next call begins at the cursor. */
  function CoverageStart(cfg: Config, start: nat, head: nat): int {
    var first := FirstScanned(cfg, start, head);
    if CursorAt(cfg, head) < first then CursorAt(cfg, head) else first
  }

  ghost function Step(cfg: Config, h: History, call: Call, s: string, c: int): History
    requires ValidConfig(cfg) && ValidCall(call)
  {
    var r := Outcome(cfg, h.cursors, call);
    var cursors := After(cfg, h.cursors, call);
    if call.satellite != s || r.Err? then h.(cursors := cursors)
    else
      var first := if h.first.None? && c in r.value.blocks && r.value.blocks[c].number >= 0
                   then Some(CoverageStart(cfg, StartOf(h, call, c), r.value.blocks[c].number)) else h.first;
      History(cursors, h.seen + r.value.events, first)
  }

  ghost function Run(cfg: Config, run: seq<Moment>, s: string, c: int): History
    requires ValidConfig(cfg) && forall i :: 0 <= i < |run| ==> ValidCall(run[i].call)
  {
    if run == [] then History(map[], [], None)
    else
      var n := |run| - 1;
      Step(cfg, Run(cfg, run[..n], s, c), run[n].call, s, c)
  }

  /** The history that call n of a run finds. */
  ghost function RunAt(cfg: Config, run: seq<Moment>, s: string, c: int, n: nat): History
    requires ValidConfig(cfg) && n <= |run| && forall i :: 0 <= i < |run| ==> ValidCall(run[i].call)
  {
    Run(cfg, run[..n], s, c)
  }

  lemma RunAtStep(cfg: Config, run: seq<Moment>, s: string, c: int, n: nat)
    requires ValidConfig(cfg) && n < |run| && forall i :: 0 <= i < |run| ==> ValidCall(run[i].call)
    ensures RunAt(cfg, run, s, c, n + 1) == Step(cfg, RunAt(cfg, run, s, c, n), run[n].call, s, c)
  {
    hide Step;
    assert run[..n + 1][..n] == run[..n];
  }

  lemma {:induction false} RunAtNonNegative(cfg: Config, run: seq<Moment>, s: string, c: int, n: nat)
    requires ValidConfig(cfg) && n <= |run| && forall i :: 0 <= i < |run| ==> ValidCall(run[i].call)
    ensures NonNegative(RunAt(cfg, run, s, c, n).cursors)
  {
    hide Outcome, After;
    if n == 0 {
    } else {
      RunAtNonNegative(cfg, run, s, c, n - 1);
      RunAtStep(cfg, run, s, c, n - 1);
      StaysNonNegative(cfg, RunAt(cfg, run, s, c, n - 1).cursors, run[n - 1].call);
    }
  }

  /**
   * What a call for satellite s must meet when it scans chain c through endpoint e: the wallet w is
   * listed, the node is faithful below the cursor to come, the scanned logs below it that match unpack,
   * and after the first scan the caller's start does not pass the cursor and the head is not too far above it.
   */
  ghost predicate Regular(cfg: Config, h: History, m: Moment, e: nat, s: string, c: int, w: Address)
    requires ValidConfig(cfg) && ValidCall(m.call)
  {
    var call, cursor := m.call, CursorOf(h.cursors, s);
    && e < |call.views| && call.endpoints[e].chainID == c && DistinctChains(call.endpoints)
    && call.wallets.Ok? && w in call.wallets.value && call.views[e].head.Ok?
    && var head := call.views[e].head.value.number;
       && Faithful(call.views[e].node, m.chain, CursorAt(cfg, head))
       && CursorAt(cfg, head) <= |m.chain|
       && MatchingDecode(m.chain, FirstScanned(cfg, StartOf(h, call, c), head), CursorAt(cfg, head), call.wallets.value)
       && (c in cursor ==> GetOrZero(call.from, c) <= cursor[c] && head - cursor[c] <= ToUint64(cfg.maximumQuerySize))
  }

  /** A reorganisation between two calls leaves the blocks below the cursor alone. */
  ghost predicate SettledBelow(cursor: map<int, int>, c: int, before: Chain, after: Chain) {
    c in cursor && cursor[c] >= 0 ==> AgreeBelow(before, after, cursor[c])
  }

  ghost predicate Orderly(cfg: Config, run: seq<Moment>, s: string, c: int, w: Address)
    requires ValidConfig(cfg) && forall i :: 0 <= i < |run| ==> ValidCall(run[i].call)
  {
    forall n :: 0 <= n < |run| ==> OrderlyAt(cfg, run, n, s, c, w)
  }

  ghost predicate OrderlyAt(cfg: Config, run: seq<Moment>, n: nat, s: string, c: int, w: Address)
    requires ValidConfig(cfg) && n < |run| && forall i :: 0 <= i < |run| ==> ValidCall(run[i].call)
  {
    var h, m := Run(cfg, run[..n], s, c), run[n];
    var r := Outcome(cfg, h.cursors, m.call);
    && (n > 0 ==> SettledBelow(CursorOf(h.cursors, s), c, run[n - 1].chain, m.chain))
    && (m.call.satellite == s && r.Ok? && c in r.value.blocks ==> exists e: nat :: Regular(cfg, h, m, e, s, c, w))
  }

  /** Every transfer to w from the start of the coverage up to the cursor is among the events. */
  ghost predicate CoveredBy(events: seq<TransferEvent>, h: History, chain: Chain, s: string, c: int, w: Address) {
    var cursor := CursorOf(h.cursors, s);
    && (c in cursor <==> h.first.Some?)
    && (c in cursor ==>
          && 0 <= cursor[c] <= |chain|
          && forall b, log :: h.first.value <= b < cursor[c] && 0 <= b && log in chain[b] && log.to == w
               ==> Event(c, log) in events)
  }

  ghost predicate Covered(h: History, chain: Chain, s: string, c: int, w: Address) {
    CoveredBy(h.seen, h, chain, s, c, w)
  }

  lemma CoveredAfterReorg(
    events: seq<TransferEvent>, h: History, before: Chain, after: Chain, s: string, c: int, w: Address)
    requires CoveredBy(events, h, before, s, c, w) && SettledBelow(CursorOf(h.cursors, s), c, before, after)
    ensures CoveredBy(events, h, after, s, c, w)
  {
    var cursor := CursorOf(h.cursors, s);
    if c in cursor {
      forall b, log | h.first.value <= b < cursor[c] && 0 <= b && log in after[b] && log.to == w
        ensures Event(c, log) in events
      {
        assert after[b] == after[..cursor[c]][b] == before[..cursor[c]][b] == before[b];
      }
    }
  }

  /** The block range that one regular scan covers reaches from the old cursor to the new one. */
  lemma StepCoversOne(cfg: Config, h: History, m: Moment, e: nat, s: string, c: int, w: Address, b: nat, log: Log)
    requires ValidConfig(cfg) && ValidCall(m.call) && cfg.chainReorgBuffer >= 0
    requires m.call.satellite == s && Regular(cfg, h, m, e, s, c, w) && Outcome(cfg, h.cursors, m.call).Ok?
    requires var cursor, head := CursorOf(h.cursors, s), m.call.views[e].head.value.number;
      && (c in cursor ==> 0 <= cursor[c] <= b)
      && (c !in cursor ==> FirstScanned(cfg, StartOf(h, m.call, c), head) <= b)
      && b < CursorAt(cfg, head) <= |m.chain|
    requires log in m.chain[b] && log.to == w
    ensures Event(c, log) in Outcome(cfg, h.cursors, m.call).value.events
  {
    hide ScanAll, ScanEndpoint, Faithful, DistinctChains;
    var call := m.call;
    var from := Raised(call.from, CursorOf(h.cursors, s));
    var head := call.views[e].head.value.number;
    ScanAllParts(cfg, call.endpoints, call.views, call.wallets.value, from, |call.endpoints|, e);
    var start := StartOf(h, call, c);
    assert c in CursorOf(h.cursors, s) ==> start == CursorOf(h.cursors, s)[c];
    EndpointCovers(cfg, call.views[e].node, c, start, head, call.wallets.value, m.chain, CursorAt(cfg, head), b, log);
  }

  /** The blocks from the start of the coverage on that a step puts below the cursor. */
  ghost predicate Passed(h: History, h': History, s: string, c: int, b: int) {
    var cursor, cursor' := CursorOf(h.cursors, s), CursorOf(h'.cursors, s);
    c in cursor' && h'.first.Some? && 0 <= b && h'.first.value <= b < cursor'[c] && (c in cursor ==> cursor[c] <= b)
  }

  /** A regular scan returns every transfer to w in the blocks that it puts below the cursor. */
  lemma StepReturns(cfg: Config, h: History, m: Moment, e: nat, s: string, c: int, w: Address)
    requires ValidConfig(cfg) && ValidCall(m.call) && cfg.chainReorgBuffer >= 0
    requires Covered(h, m.chain, s, c, w)
    requires m.call.satellite == s && Regular(cfg, h, m, e, s, c, w) && Outcome(cfg, h.cursors, m.call).Ok?
    ensures var h', scan := Step(cfg, h, m.call, s, c), Outcome(cfg, h.cursors, m.call).value;
      && c in CursorOf(h'.cursors, s) && h'.first.Some?
      && 0 <= CursorOf(h'.cursors, s)[c] <= |m.chain|
      && (h.first.Some? ==> h'.first == h.first)
      && forall b, log :: Passed(h, h', s, c, b) && log in m.chain[b] && log.to == w ==> Event(c, log) in scan.events
  {
    hide ScanAll, ScanEndpoint, Raised, Advanced, After, MatchingDecode;
    var call, h' := m.call, Step(cfg, h, m.call, s, c);
    var scan := Outcome(cfg, h.cursors, call).value;
    var head := call.views[e].head.value.number;
    CursorUpdates(cfg, h.cursors, call);
    ScanAllHeader(cfg, call.endpoints,
      call.views, call.wallets.value, Raised(call.from, CursorOf(h.cursors, s)), |call.endpoints|, e);
    assert CursorOf(h'.cursors, s)[c] == CursorAt(cfg, head);
    forall b, log | Passed(h, h', s, c, b) && log in m.chain[b] && log.to == w
      ensures Event(c, log) in scan.events
    {
      StepCoversOne(cfg, h, m, e, s, c, w, b, log);
    }
  }

  lemma StepCovers(cfg: Config, h: History, m: Moment, e: nat, s: string, c: int, w: Address)
    requires ValidConfig(cfg) && ValidCall(m.call) && cfg.chainReorgBuffer >= 0
    requires Covered(h, m.chain, s, c, w)
    requires m.call.satellite == s && Regular(cfg, h, m, e, s, c, w) && Outcome(cfg, h.cursors, m.call).Ok?
    ensures Covered(Step(cfg, h, m.call, s, c), m.chain, s, c, w)
  {
    hide Outcome, After, Regular;
    StepReturns(cfg, h, m, e, s, c, w);
    var h' := Step(cfg, h, m.call, s, c);
    var cursor' := CursorOf(h'.cursors, s);
    forall b, log | h'.first.value <= b < cursor'[c] && 0 <= b && log in m.chain[b] && log.to == w
      ensures Event(c, log) in h'.seen
    {
      if !Passed(h, h', s, c, b) {
        assert Event(c, log) in h.seen;
      }
    }
  }

  lemma StepKeeps(cfg: Config, h: History, m: Moment, s: string, c: int, w: Address)
    requires ValidConfig(cfg) && ValidCall(m.call)
    requires Covered(h, m.chain, s, c, w)
    requires var r := Outcome(cfg, h.cursors, m.call); m.call.satellite != s || r.Err? || c !in r.value.blocks
    ensures Covered(Step(cfg, h, m.call, s, c), m.chain, s, c, w)
  {
    hide Outcome, After;
    CursorUpdates(cfg, h.cursors, m.call);
  }

  lemma OrderlyPrefix(cfg: Config, run: seq<Moment>, s: string, c: int, w: Address, n: nat)
    requires ValidConfig(cfg) && n <= |run| && forall i :: 0 <= i < |run| ==> ValidCall(run[i].call)
    requires Orderly(cfg, run, s, c, w)
    ensures Orderly(cfg, run[..n], s, c, w)
  {
    hide Regular, Outcome;
    forall k | 0 <= k < n
      ensures OrderlyAt(cfg, run[..n], k, s, c, w)
    {
      assert OrderlyAt(cfg, run, k, s, c, w);
      assert run[..n][..k] == run[..k];
    }
  }

  /**
   * Completeness over whole runs: calls of any satellites, failing or not, on a chain that may be
   * reorganised above the cursor. Every transfer to a listed wallet has been returned by some scan, up to
   * (not including) the cursor, and from the first block scanned or the first cursor on, whichever is lower.
   */
  lemma {:induction false} RunCovers(cfg: Config, run: seq<Moment>, s: string, c: int, w: Address)
    requires ValidConfig(cfg) && cfg.chainReorgBuffer >= 0
    requires run != [] && forall i :: 0 <= i < |run| ==> ValidCall(run[i].call)
    requires Orderly(cfg, run, s, c, w)
    ensures Covered(Run(cfg, run, s, c), run[|run| - 1].chain, s, c, w)
    decreases |run|
  {
    hide Outcome, Regular, CoveredBy, Step;
    var n := |run| - 1;
    var m, h := run[n], Run(cfg, run[..n], s, c);
    assert OrderlyAt(cfg, run, n, s, c, w);
    if n == 0 {
      NothingToCover(m.chain, s, c, w);
    } else {
      OrderlyPrefix(cfg, run, s, c, w, n);
      RunCovers(cfg, run[..n], s, c, w);
      CoveredAfterReorg(h.seen, h, run[n - 1].chain, m.chain, s, c, w);
    }
    var r := Outcome(cfg, h.cursors, m.call);
    if m.call.satellite == s && r.Ok? && c in r.value.blocks {
      var e: nat :| Regular(cfg, h, m, e, s, c, w);
      StepCovers(cfg, h, m, e, s, c, w);
    } else {
      StepKeeps(cfg, h, m, s, c, w);
    }
  }

  lemma NothingToCover(chain: Chain, s: string, c: int, w: Address)
    ensures Covered(History(map[], [], None), chain, s, c, w)
  {}

  /******* Where completeness stops *******/

  /** A scan of several endpoints returns, for one of the chains, what the endpoint of that chain returned. */
  lemma {:induction false} ScanAllOfChain(
    cfg: Config, endpoints: seq<Endpoint>, views: seq<View>, wallets: seq<Address>, from: map<int, int>, n: nat, e: nat)
    requires ValidConfig(cfg) && e < n <= |endpoints| == |views| && DistinctChains(endpoints)
    requires ScanAll(cfg, endpoints, views, wallets, from, n).Ok?
    ensures views[e].head.Ok?
    ensures var c, events := endpoints[e].chainID, ScanAll(cfg, endpoints, views, wallets, from, n).value.events;
      var part := ScanEndpoint(
        cfg, views[e].node, c, ToUint64(GetOrZero(from, c)), views[e].head.value.number, wallets);
      part.Ok? && forall ev: TransferEvent :: ev.chainID == c ==> (ev in events <==> ev in part.value)
  {
    hide ScanEndpoint;
    if e == n - 1 {
      OtherChains(cfg, endpoints, views, wallets, from, n - 1, endpoints[e].chainID);
    } else {
      ScanAllOfChain(cfg, endpoints, views, wallets, from, n - 1, e);
      var c := endpoints[n - 1].chainID;
      EndpointChain(cfg, views[n - 1].node, c, ToUint64(GetOrZero(from, c)), views[n - 1].head.value.number, wallets);
    }
  }

  lemma {:induction false} OtherChains(
    cfg: Config, endpoints: seq<Endpoint>, views: seq<View>, wallets: seq<Address>, from: map<int, int>, n: nat, c: int)
    requires ValidConfig(cfg) && n <= |endpoints| == |views|
    requires forall i :: 0 <= i < n ==> endpoints[i].chainID != c
    requires ScanAll(cfg, endpoints, views, wallets, from, n).Ok?
    ensures forall ev :: ev in ScanAll(cfg, endpoints, views, wallets, from, n).value.events ==> ev.chainID != c
  {
    hide ScanEndpoint;
    if n == 0 {
    } else {
      OtherChains(cfg, endpoints, views, wallets, from, n - 1, c);
      var d := endpoints[n - 1].chainID;
      EndpointChain(cfg, views[n - 1].node, d, ToUint64(GetOrZero(from, d)), views[n - 1].head.value.number, wallets);
    }
  }

  /**
   * What one call loses, on the chain it scanned: it returns every transfer between the old and the new
   * cursor exactly when all matching logs there unpack and lie at or after the first block scanned.
   */
  lemma CallLossExact(cfg: Config, cursors: Cursors, call: Call, e: nat, chain: Chain)
    requires ValidConfig(cfg) && cfg.chainReorgBuffer >= 0 && NonNegative(cursors)
    requires ValidCall(call) && DistinctChains(call.endpoints) && Outcome(cfg, cursors, call).Ok?
    requires e < |call.views| && call.endpoints[e].chainID in CursorOf(cursors, call.satellite)
    requires |chain| > 0 && WellFormed(chain) && Indexed(chain) && Steady(call.views[e].node, chain)
    requires call.views[e].head.Ok? && call.views[e].head.value.number == |chain| - 1
    ensures var c, wallets := call.endpoints[e].chainID, call.wallets.value;
      var lo, upto: nat := CursorOf(cursors, call.satellite)[c], CursorAt(cfg, |chain| - 1);
      var first := FirstScanned(
        cfg, ToUint64(GetOrZero(Raised(call.from, CursorOf(cursors, call.satellite)), c)), |chain| - 1);
      && c in CursorOf(After(cfg, cursors, call), call.satellite)
      && CursorOf(After(cfg, cursors, call), call.satellite)[c] == upto
      && (ReturnsAll(Outcome(cfg, cursors, call).value.events, chain, c, wallets, lo, upto)
          <==> MatchingDecode(chain, lo, upto, wallets)
               && NothingMatches(chain, lo, if first < upto then first else upto, wallets))
  {
    hide ScanAll, ScanEndpoint, Steady, WellFormed, Indexed, DistinctChains,
      MatchingDecode, NothingMatches, ReturnsAll, FirstScanned;
    var from, wallets := Raised(call.from, CursorOf(cursors, call.satellite)), call.wallets.value;
    var c, latest := call.endpoints[e].chainID, |chain| - 1;
    var lo, upto, start: nat :=
      CursorOf(cursors, call.satellite)[c], CursorAt(cfg, latest), ToUint64(GetOrZero(from, c));
    ScanAllOfChain(cfg, call.endpoints, call.views, wallets, from, |call.endpoints|, e);
    OnlyOfChain(call.endpoints, e);
    ScanAllHeader(cfg, call.endpoints, call.views, wallets, from, |call.endpoints|, e);
    CursorUpdates(cfg, cursors, call);
    var part := ScanEndpoint(cfg, call.views[e].node, c, start, latest, wallets);
    SameChainReturns(Outcome(cfg, cursors, call).value.events, part.value, chain, c, wallets, lo, upto);
    if lo <= upto {
      ScannedReachable(cfg, call.views[e].node, c, start, latest, wallets);
      EndpointLossExact(cfg, call.views[e].node, chain, c, lo, start, upto, wallets);
    } else {
      NoRange(part.value, chain, c, wallets, lo, upto, FirstScanned(cfg, start, latest));
    }
  }

  lemma OnlyOfChain(endpoints: seq<Endpoint>, e: nat)
    requires DistinctChains(endpoints) && e < |endpoints|
    ensures forall k :: e < k < |endpoints| ==> endpoints[k].chainID != endpoints[e].chainID
  {}

  lemma ScannedReachable(cfg: Config, node: Node, chainID: int, start: nat, latest: nat, wallets: seq<Address>)
    requires ValidConfig(cfg) && ScanEndpoint(cfg, node, chainID, start, latest, wallets).Ok?
    ensures Reachable(node)
  {}

  lemma SameChainReturns(
    a: seq<TransferEvent>, b: seq<TransferEvent>, chain: Chain, c: int, wallets: seq<Address>, lo: nat, upto: nat)
    requires upto <= |chain| && forall ev: TransferEvent :: ev.chainID == c ==> (ev in a <==> ev in b)
    ensures ReturnsAll(a, chain, c, wallets, lo, upto) <==> ReturnsAll(b, chain, c, wallets, lo, upto)
  {}

  lemma NoRange(events: seq<TransferEvent>, chain: Chain, c: int, wallets: seq<Address>, lo: nat, upto: nat, first: nat)
    requires upto < lo && upto <= |chain|
    ensures ReturnsAll(events, chain, c, wallets, lo, upto) && MatchingDecode(chain, lo, upto, wallets)
    ensures NothingMatches(chain, lo, if first < upto then first else upto, wallets)
  {}

  /** On every fixed chain with this head whose matching logs unpack, a scan from the given start returns
      all transfers from block lo up to the cursor to come. */
  ghost predicate KeepsAll(cfg: Config, chainID: int, lo: nat, start: nat, latest: nat, wallets: seq<Address>)
    requires ValidConfig(cfg) && cfg.chainReorgBuffer >= 0
  {
    forall chain: Chain, node: Node ::
      |chain| == latest + 1 && WellFormed(chain) && Indexed(chain) && Steady(node, chain) && Reachable(node)
      && MatchingDecode(chain, lo, CursorAt(cfg, latest), wallets)
      ==> var r := ScanEndpoint(cfg, node, chainID, start, latest, wallets);
          r.Ok? && ReturnsAll(r.value, chain, chainID, wallets, lo, CursorAt(cfg, latest))
  }

  /** A node that serves the given chain to everybody. */
  function SteadyNode(chain: Chain): Node {
    Node(None, None, None, (j, i) => Served(chain, 0, None, 1, k => Choice(0, false)))
  }

  /** A chain whose only logs are in one block. */
  function OneBlock(logs: seq<Log>, at: nat, latest: nat): Chain {
    seq(latest + 1, b => if b == at then logs else [])
  }

  lemma OneBlockSteady(log: Log, b: nat, latest: nat, upto: nat)
    requires b <= latest && upto <= latest + 1 && log.decodes && log.blockNumber == b
    ensures var chain := OneBlock([log], b, latest);
      && WellFormed(chain) && Indexed(chain) && Reachable(SteadyNode(chain)) && Steady(SteadyNode(chain), chain)
      && Honest(SteadyNode(chain)) && Faithful(SteadyNode(chain), chain, upto)
      && forall lo: nat, to: seq<Address> :: MatchingDecode(chain, lo, upto, to)
  {
    var chain := OneBlock([log], b, latest);
    assert forall k, l: Log :: 0 <= k < |chain| && l in chain[k] ==> l == log;
    SteadyIsFaithful(SteadyNode(chain), chain, upto);
  }

  /**
   * A call that began with the cursor at lo and scans from the given start loses nothing on any chain
   * whose matching logs unpack, exactly when the cursor does not move past lo, or the caller did not ask
   * to start later and the head is no further than the maximum query size.
   */
  lemma StepLossExact(cfg: Config, chainID: int, lo: nat, start: nat, latest: nat, wallets: seq<Address>)
    requires ValidConfig(cfg) && cfg.chainReorgBuffer >= 0 && lo <= start && wallets != []
    ensures KeepsAll(cfg, chainID, lo, start, latest, wallets)
      <==> CursorAt(cfg, latest) <= lo || (start == lo && latest - lo <= ToUint64(cfg.maximumQuerySize))
  {
    hide ScanEndpoint, WellFormed, Steady, Indexed;
    var upto: nat := CursorAt(cfg, latest);
    if upto <= lo || (start == lo && latest - lo <= ToUint64(cfg.maximumQuerySize)) {
      forall chain: Chain, node: Node |
        && |chain| == latest + 1 && WellFormed(chain) && Indexed(chain) && Steady(node, chain) && Reachable(node)
        && MatchingDecode(chain, lo, upto, wallets)
        ensures var r := ScanEndpoint(cfg, node, chainID, start, latest, wallets);
          r.Ok? && ReturnsAll(r.value, chain, chainID, wallets, lo, upto)
      {
        EndpointLossExact(cfg, node, chain, chainID, if lo <= upto then lo else upto, start, upto, wallets);
      }
    } else {
      StepLoses(cfg, chainID, lo, start, latest, wallets);
    }
  }

  lemma StepLoses(cfg: Config, chainID: int, lo: nat, start: nat, latest: nat, wallets: seq<Address>)
    requires ValidConfig(cfg) && cfg.chainReorgBuffer >= 0 && lo <= start && lo < CursorAt(cfg, latest) && wallets != []
    requires start > lo || latest - lo > ToUint64(cfg.maximumQuerySize)
    ensures !KeepsAll(cfg, chainID, lo, start, latest, wallets)
  {
    hide ScanEndpoint, WellFormed, Indexed, Steady, Reachable, MatchingDecode, FirstScanned, Honest, Faithful,
      ReturnsAll, SteadyNode;
    var hash: Hash := seq(HASH_LENGTH, i => 0);
    var log := Log(wallets[0], wallets[0], 1, lo, hash, hash, 0, true);
    var chain, upto: nat := OneBlock([log], lo, latest), CursorAt(cfg, latest);
    OneBlockSteady(log, lo, latest, upto);
    EndpointLossExact(cfg, SteadyNode(chain), chain, chainID, lo, start, upto, wallets);
    var first := FirstScanned(cfg, start, latest);
    assert first > lo by { FirstIsLater(cfg, lo, start, latest); }
    assert log in chain[lo] && log.to in wallets;
  }

  lemma FirstIsLater(cfg: Config, lo: nat, start: nat, latest: nat)
    requires lo <= start && lo <= latest && (start > lo || latest - lo > ToUint64(cfg.maximumQuerySize))
    ensures FirstScanned(cfg, start, latest) > lo
  {}

  /******* Calls that lose transfers and report nothing *******/

  /** Every query of a scan for these wallets is answered with no events and no error. */
  ghost predicate Silent(node: Node) {
    Reachable(node) && forall opts: FilterOpts, i: int, to: seq<Address>, chainID: int ::
      to != [] ==> Batch(node.answer(opts.start, i), opts, to, chainID) == Ok([])
  }

  lemma {:induction false} SilentChunks(
    cfg: Config, node: Node, chainID: int, opts: FilterOpts, wallets: seq<Address>, i: nat)
    requires cfg.addressBatchSize > 0 && Silent(node)
    ensures ScanChunks(cfg, node, chainID, opts, wallets, i) == Ok([])
    decreases |wallets| - i
  {
    hide Batch;
    if i >= |wallets| {
    } else {
      SilentChunks(cfg, node, chainID, opts, wallets, i + cfg.addressBatchSize);
      AppendNothing([], Ok([]));
    }
  }

  lemma {:induction false} SilentWindows(
    cfg: Config, node: Node, chainID: int, j: nat, latest: nat, wallets: seq<Address>)
    requires ValidConfig(cfg) && Silent(node)
    ensures ScanWindows(cfg, node, chainID, j, latest, wallets) == Ok([])
    decreases latest - j
  {
    hide ScanChunks, Silent;
    if j >= latest {
    } else {
      SilentChunks(cfg, node, chainID, Window(cfg, j, latest), wallets, 0);
      SilentWindows(cfg, node, chainID, j + cfg.blockBatchSize, latest, wallets);
      AppendNothing([], Ok([]));
    }
  }

  function CallOf(
    satellite: string, endpoint: Endpoint, head: Head, node: Node, wallets: seq<Address>, from: map<int, int>)
    : Call
  {
    Call(satellite, [endpoint], [View(Ok(head), node)], Ok(wallets), from)
  }

  /** A call on one endpoint returns what the scan of the endpoint returns. */
  lemma SingleEndpoint(
    cfg: Config, cursors: Cursors, satellite: string, endpoint: Endpoint, head: Head, node: Node,
    wallets: seq<Address>, from: map<int, int>)
    requires ValidConfig(cfg)
    ensures var call, c := CallOf(satellite, endpoint, head, node, wallets, from), endpoint.chainID;
      var start := ToUint64(GetOrZero(Raised(from, CursorOf(cursors, satellite)), c));
      var part := ScanEndpoint(cfg, node, c, start, head.number, wallets);
      && Outcome(cfg, cursors, call)
         == (if part.Err? then Err(part.error) else Ok(Scanned(map[c := HeaderOf(c, head)], part.value)))
      && (part.Ok? ==> CursorOf(After(cfg, cursors, call), satellite)
                       == CursorOf(cursors, satellite)[c := CursorAt(cfg, head.number)])
  {
    hide ScanEndpoint, Raised;
    var call, c := CallOf(satellite, endpoint, head, node, wallets, from), endpoint.chainID;
    var from' := Raised(from, CursorOf(cursors, satellite));
    var part := ScanEndpoint(cfg, node, c, ToUint64(GetOrZero(from', c)), head.number, wallets);
    assert ScanAll(cfg, [endpoint], call.views, wallets, from', 0) == Ok(Scanned(map[], []));
    if part.Ok? {
      assert [] + part.value == part.value;
    }
    assert Outcome(cfg, cursors, call) == ScanOneMore(cfg, c, call.views[0], wallets, from', Scanned(map[], []));
  }

  /** With a silent node a call succeeds with no events, and still moves the cursor. */
  lemma SilentCall(
    cfg: Config, cursors: Cursors, satellite: string, endpoint: Endpoint, head: Head, node: Node,
    wallets: seq<Address>, from: map<int, int>)
    requires ValidConfig(cfg) && Silent(node)
    ensures var call := CallOf(satellite, endpoint, head, node, wallets, from);
      && Outcome(cfg, cursors, call) == Ok(Scanned(map[endpoint.chainID := HeaderOf(endpoint.chainID, head)], []))
      && CursorOf(After(cfg, cursors, call), satellite)
         == CursorOf(cursors, satellite)[endpoint.chainID := CursorAt(cfg, head.number)]
  {
    hide ScanWindows, Silent, Outcome, After;
    var start := ToUint64(GetOrZero(Raised(from, CursorOf(cursors, satellite)), endpoint.chainID));
    SilentReachable(node);
    if start <= head.number {
      SilentWindows(cfg, node, endpoint.chainID, Clamp(cfg, start, head.number), head.number, wallets);
    }
    SingleEndpoint(cfg, cursors, satellite, endpoint, head, node, wallets, from);
  }

  lemma SilentReachable(node: Node)
    requires Silent(node)
    ensures Reachable(node)
  {}

  lemma {:induction false} EmptyBlocks(chain: Chain, lo: nat, hi: nat, to: seq<Address>)
    requires hi <= |chain| && forall b :: lo <= b < hi ==> chain[b] == []
    ensures GetLogs(chain, lo, hi, to) == []
    decreases hi - lo
  {
    if lo >= hi {
    } else {
      EmptyBlocks(chain, lo + 1, hi, to);
    }
  }

  lemma ShadowSilent(bad: Log, good: Log, latest: nat)
    requires bad.to == good.to && !bad.decodes
    ensures Silent(SteadyNode(OneBlock([bad, good], 0, latest)))
  {
    var chain := OneBlock([bad, good], 0, latest);
    var node := SteadyNode(chain);
    forall opts: FilterOpts, i: int, to: seq<Address>, chainID: int | to != []
      ensures Batch(node.answer(opts.start, i), opts, to, chainID) == Ok([])
    {
      ShadowBatch(bad, good, latest, opts, i, to, chainID);
    }
  }

  lemma ShadowBatch(bad: Log, good: Log, latest: nat, opts: FilterOpts, i: int, to: seq<Address>, chainID: int)
    requires bad.to == good.to && !bad.decodes && to != []
    ensures Batch(SteadyNode(OneBlock([bad, good], 0, latest)).answer(opts.start, i), opts, to, chainID) == Ok([])
  {
    hide Drain;
    var chain := OneBlock([bad, good], 0, latest);
    var a := SteadyNode(chain).answer(opts.start, i);
    var hi := Until(chain, opts.end);
    EmptyBlocks(chain, if opts.start == 0 then 1 else opts.start, hi, to);
    var s := Opened(a, opts, to);
    DrainYieldsPrefix(s, a.sched, 0);
    var logs := GetLogs(chain, opts.start, hi, to);
    assert s.Remaining() == logs;
    assert logs == [] || logs[0] == bad by { PickTwo(bad, good, to); }
  }

  lemma PickTwo(bad: Log, good: Log, to: seq<Address>)
    requires bad.to == good.to
    ensures Pick([bad, good], to) == if bad.to in to then [bad, good] else []
  {
    assert [bad, good][1..] == [good];
    assert Pick([good], to) == if good.to in to then [good] else [];
  }

  /**
   * A log that does not unpack hides those behind it: the call succeeds with no events and moves the
   * cursor past a transfer that unpacks, although every query was served by an intact subscription.
   */
  lemma UndecodableLosesSilently(
    cfg: Config, cursors: Cursors, satellite: string, endpoint: Endpoint, head: Head, bad: Log, good: Log,
    wallets: seq<Address>, from: map<int, int>)
    requires ValidConfig(cfg) && head.number > cfg.chainReorgBuffer
    requires bad.to == good.to && good.to in wallets && !bad.decodes && good.decodes
    ensures var chain := OneBlock([bad, good], 0, head.number);
      var call := CallOf(satellite, endpoint, head, SteadyNode(chain), wallets, from);
      var cursor := CursorOf(After(cfg, cursors, call), satellite);
      && good in chain[0] && Steady(SteadyNode(chain), chain)
      && Outcome(cfg, cursors, call) == Ok(Scanned(map[endpoint.chainID := HeaderOf(endpoint.chainID, head)], []))
      && endpoint.chainID in cursor && cursor[endpoint.chainID] > 0
  {
    hide ScanEndpoint, Silent;
    ShadowSilent(bad, good, head.number);
    SilentCall(cfg, cursors, satellite, endpoint, head,
      SteadyNode(OneBlock([bad, good], 0, head.number)), wallets, from);
  }

  function LogCount(chain: Chain, lo: nat, hi: nat): nat
    requires hi <= |chain|
    decreases hi - lo
  {
    if lo >= hi then 0 else |chain[lo]| + LogCount(chain, lo + 1, hi)
  }

  lemma {:induction false} PickShortens(block: seq<Log>, to: seq<Address>)
    ensures |Pick(block, to)| <= |block|
  {
    if block == [] {
    } else {
      PickShortens(block[1..], to);
    }
  }

  lemma {:induction false} GetLogsBounded(chain: Chain, lo: nat, hi: nat, to: seq<Address>)
    requires hi <= |chain|
    ensures |GetLogs(chain, lo, hi, to)| <= LogCount(chain, 0, |chain|)
    ensures |GetLogs(chain, lo, hi, to)| <= LogCount(chain, lo, hi)
    decreases hi - lo
  {
    if lo >= hi {
    } else {
      PickShortens(chain[lo], to);
      GetLogsBounded(chain, lo + 1, hi, to);
      LogCountWithin(chain, 0, lo, hi, |chain|);
    }
  }

  lemma {:induction false} LogCountWithin(chain: Chain, a: nat, lo: nat, hi: nat, b: nat)
    requires a <= lo <= hi <= b <= |chain|
    ensures LogCount(chain, lo, hi) <= LogCount(chain, a, b)
    decreases b - a
  {
    if a < lo {
      LogCountWithin(chain, a + 1, lo, hi, b);
    } else if lo < hi {
      LogCountWithin(chain, a + 1, lo + 1, hi, b);
    }
  }

  /** A node that queues every matching log and then ends each subscription with an error, which the
      select sees before any of the logs. */
  function BrokenNode(chain: Chain, e: Error): Node {
    var n := LogCount(chain, 0, |chain|);
    Node(None, None, None, (j, i) => Served(chain, n, Some(e), n + 1, k => Choice(n + 1, true)))
  }

  lemma BrokenBatch(chain: Chain, e: Error, opts: FilterOpts, i: int, to: seq<Address>, chainID: int)
    ensures Batch(BrokenNode(chain, e).answer(opts.start, i), opts, to, chainID) == Ok([])
  {
    hide GetLogs, LogCount, Drain;
    var n := LogCount(chain, 0, |chain|);
    var a := BrokenNode(chain, e).answer(opts.start, i);
    GetLogsBounded(chain, opts.start, Until(chain, opts.end), to);
    assert Sent(a, opts, to) == GetLogs(chain, opts.start, Until(chain, opts.end), to);
    ErrorMayHideAll(Sent(a, opts, to), n + 1, n + 1, e, a.sched);
  }

  /**
   * An iterator's failure is not an error of the call: with a node whose subscriptions fail, a call
   * succeeds with no events, whatever the chain holds, and still moves the cursor.
   */
  lemma FailedIterationLosesSilently(
    cfg: Config, cursors: Cursors, satellite: string, endpoint: Endpoint, head: Head, chain: Chain, e: Error,
    wallets: seq<Address>, from: map<int, int>)
    requires ValidConfig(cfg)
    ensures var call := CallOf(satellite, endpoint, head, BrokenNode(chain, e), wallets, from);
      && Outcome(cfg, cursors, call) == Ok(Scanned(map[endpoint.chainID := HeaderOf(endpoint.chainID, head)], []))
      && CursorOf(After(cfg, cursors, call), satellite)
         == CursorOf(cursors, satellite)[endpoint.chainID := CursorAt(cfg, head.number)]
  {
    hide Batch;
    var node := BrokenNode(chain, e);
    forall opts: FilterOpts, i: int, to: seq<Address>, chainID: int | to != []
      ensures Batch(node.answer(opts.start, i), opts, to, chainID) == Ok([])
    {
      BrokenBatch(chain, e, opts, i, to, chainID);
    }
    SilentCall(cfg, cursors, satellite, endpoint, head, node, wallets, from);
  }
}
