/** When a scan fails and with which error, and how far past the head it can look. */
module ScanFailures {
  import opened Common
  import opened LogStream
  import opened Scan
  import opened ScanProperties
  import opened ScanCoverage
  import opened Cursor
  import opened CursorRuns

  /******* Queries *******/

  /** A loop from `first` in steps of `size` visits x. */
  predicate Visits(first: int, size: int, x: int)
    requires size > 0
  {
    x >= first && (x - first) % size == 0
  }

  lemma VisitsNext(first: int, size: int, x: int)
    requires size > 0
    ensures Visits(first, size, x) <==> x == first || Visits(first + size, size, x)
  {
    ModuloStep(x - first - size, size);
    if first < x < first + size {
      ModuloSmall(x - first, size);
    }
  }

  /** None of the queries for the window at block j, from wallet i on, is refused. */
  ghost predicate AllServed(cfg: Config, node: Node, j: int, i: int, wallets: seq<Address>)
    requires cfg.addressBatchSize > 0
  {
    forall k :: Visits(i, cfg.addressBatchSize, k) && k < |wallets| ==> node.answer(j, k).Served?
  }

  /** The query for the wallets from k on is the first that is refused. */
  ghost predicate RefusedAt(cfg: Config, node: Node, j: int, i: int, wallets: seq<Address>, k: int, e: Error)
    requires cfg.addressBatchSize > 0
  {
    && Visits(i, cfg.addressBatchSize, k) && k < |wallets| && node.answer(j, k) == Refused(e)
    && forall l :: Visits(i, cfg.addressBatchSize, l) && l < k ==> node.answer(j, l).Served?
  }

  lemma BatchFails(a: Answer, opts: FilterOpts, to: seq<Address>, chainID: int)
    ensures Batch(a, opts, to, chainID).Ok? <==> a.Served?
    ensures a.Refused? ==> Batch(a, opts, to, chainID) == Err(a.error)
  {}

  lemma {:induction false} ChunksFail(
    cfg: Config, node: Node, chainID: int, opts: FilterOpts, wallets: seq<Address>, i: nat)
    requires cfg.addressBatchSize > 0
    ensures var r := ScanChunks(cfg, node, chainID, opts, wallets, i);
      && (r.Ok? <==> AllServed(cfg, node, opts.start, i, wallets))
      && (r.Err? ==> exists k :: RefusedAt(cfg, node, opts.start, i, wallets, k, r.error))
    decreases |wallets| - i
  {
    hide Batch, Visits;
    var size, j := cfg.addressBatchSize, opts.start;
    forall k
      ensures Visits(i, size, k) <==> k == i || Visits(i + size, size, k)
      ensures Visits(i, size, k) ==> k >= i
      ensures Visits(i + size, size, k) ==> k >= i + size
    {
      VisitsNext(i, size, k);
      VisitsBounds(i, size, k);
      VisitsBounds(i + size, size, k);
    }
    if i >= |wallets| {
    } else {
      var batch := Batch(node.answer(j, i), opts, wallets[i..ChunkEnd(cfg, i, |wallets|)], chainID);
      BatchFails(node.answer(j, i), opts, wallets[i..ChunkEnd(cfg, i, |wallets|)], chainID);
      if batch.Err? {
        assert RefusedAt(cfg, node, j, i, wallets, i, batch.error);
      } else {
        ChunksFail(cfg, node, chainID, opts, wallets, i + size);
        var rest := ScanChunks(cfg, node, chainID, opts, wallets, i + size);
        if rest.Err? {
          var k :| RefusedAt(cfg, node, j, i + size, wallets, k, rest.error);
          assert RefusedAt(cfg, node, j, i, wallets, k, rest.error);
        }
      }
    }
  }

  lemma VisitsBounds(first: int, size: int, x: int)
    requires size > 0
    ensures Visits(first, size, x) ==> x >= first
  {}

  /** The windows below block b, from block j on, are all served. */
  ghost predicate ServedBelow(cfg: Config, node: Node, j: int, b: int, wallets: seq<Address>)
    requires cfg.addressBatchSize > 0 && cfg.blockBatchSize > 0
  {
    forall k :: Visits(j, cfg.blockBatchSize, k) && k < b ==> AllServed(cfg, node, k, 0, wallets)
  }

  /** The first refused query is the one for the window at block b and the wallets from k on. */
  ghost predicate FirstRefusal(
    cfg: Config, node: Node, j: int, latest: int, wallets: seq<Address>, b: int, k: int, e: Error)
    requires cfg.addressBatchSize > 0 && cfg.blockBatchSize > 0
  {
    && Visits(j, cfg.blockBatchSize, b) && b < latest
    && RefusedAt(cfg, node, b, 0, wallets, k, e) && ServedBelow(cfg, node, j, b, wallets)
  }

  lemma {:induction false} WindowsFail(
    cfg: Config, node: Node, chainID: int, j: nat, latest: nat, wallets: seq<Address>)
    requires cfg.addressBatchSize > 0 && cfg.blockBatchSize > 0
    ensures var r := ScanWindows(cfg, node, chainID, j, latest, wallets);
      && (r.Ok? <==> ServedBelow(cfg, node, j, latest, wallets))
      && (r.Err? ==> exists b, k :: FirstRefusal(cfg, node, j, latest, wallets, b, k, r.error))
    decreases latest - j
  {
    hide ScanChunks, Visits, AllServed, RefusedAt;
    var size := cfg.blockBatchSize;
    forall k
      ensures Visits(j, size, k) <==> k == j || Visits(j + size, size, k)
      ensures Visits(j, size, k) ==> k >= j
      ensures Visits(j + size, size, k) ==> k >= j + size
    {
      VisitsNext(j, size, k);
      VisitsBounds(j, size, k);
      VisitsBounds(j + size, size, k);
    }
    if j >= latest {
    } else {
      var window := ScanChunks(cfg, node, chainID, Window(cfg, j, latest), wallets, 0);
      ChunksFail(cfg, node, chainID, Window(cfg, j, latest), wallets, 0);
      if window.Err? {
        var k :| RefusedAt(cfg, node, j, 0, wallets, k, window.error);
        assert FirstRefusal(cfg, node, j, latest, wallets, j, k, window.error);
      } else {
        WindowsFail(cfg, node, chainID, j + size, latest, wallets);
        var rest := ScanWindows(cfg, node, chainID, j + size, latest, wallets);
        if rest.Err? {
          var b, k :| FirstRefusal(cfg, node, j + size, latest, wallets, b, k, rest.error);
          assert FirstRefusal(cfg, node, j, latest, wallets, b, k, rest.error);
        }
      }
    }
  }

  /**
   * A scan of an endpoint fails with what goes wrong first: the dial, the contract address, the binding, or
   * the first refused query, window by window and in each window chunk by chunk. Otherwise it succeeds.
   */
  lemma EndpointFails(cfg: Config, node: Node, chainID: int, start: nat, latest: nat, wallets: seq<Address>)
    requires cfg.addressBatchSize > 0 && cfg.blockBatchSize > 0
    ensures var r, first := ScanEndpoint(cfg, node, chainID, start, latest, wallets), FirstScanned(cfg, start, latest);
      && (node.dial.Some? ==> r == Err(node.dial.value))
      && (node.dial.None? && node.contract.Some? ==> r == Err(node.contract.value))
      && (node.dial.None? && node.contract.None? && node.bind.Some? ==> r == Err(node.bind.value))
      && (Reachable(node) ==>
            && (r.Ok? <==> ServedBelow(cfg, node, first, latest, wallets))
            && (r.Err? ==> exists b, k :: FirstRefusal(cfg, node, first, latest, wallets, b, k, r.error)))
  {
    hide ScanWindows, FirstRefusal, Clamp;
    WindowsFail(cfg, node, chainID, FirstScanned(cfg, start, latest), latest, wallets);
  }

  /******* A call *******/

  /** What endpoint e does to a call that reaches it. */
  function PartOf(cfg: Config, call: Call, from: map<int, int>, e: nat): Result<seq<TransferEvent>, Error>
    requires ValidConfig(cfg) && e < |call.endpoints| == |call.views| && call.wallets.Ok?
  {
    var c := call.endpoints[e].chainID;
    match call.views[e].head
    case Err(error) => Err(error)
    case Ok(head) =>
      ScanEndpoint(cfg, call.views[e].node, c, ToUint64(GetOrZero(from, c)), head.number, call.wallets.value)
  }

  ghost predicate FirstFailing(cfg: Config, call: Call, from: map<int, int>, n: nat, e: nat, error: Error)
    requires ValidConfig(cfg) && n <= |call.endpoints| == |call.views| && call.wallets.Ok?
  {
    e < n && PartOf(cfg, call, from, e) == Err(error) && forall k :: 0 <= k < e ==> PartOf(cfg, call, from, k).Ok?
  }

  lemma {:induction false} ScanAllFails(cfg: Config, call: Call, from: map<int, int>, n: nat)
    requires ValidConfig(cfg) && n <= |call.endpoints| == |call.views| && call.wallets.Ok?
    ensures var r := ScanAll(cfg, call.endpoints, call.views, call.wallets.value, from, n);
      && (r.Ok? <==> forall e :: 0 <= e < n ==> PartOf(cfg, call, from, e).Ok?)
      && (r.Err? ==> exists e: nat :: FirstFailing(cfg, call, from, n, e, r.error))
  {
    hide ScanEndpoint;
    if n == 0 {
    } else {
      ScanAllFails(cfg, call, from, n - 1);
      var before := ScanAll(cfg, call.endpoints, call.views, call.wallets.value, from, n - 1);
      var r := ScanAll(cfg, call.endpoints, call.views, call.wallets.value, from, n);
      if before.Err? {
        var e: nat :| FirstFailing(cfg, call, from, n - 1, e, before.error);
        assert FirstFailing(cfg, call, from, n, e, r.error);
      } else if r.Err? {
        assert FirstFailing(cfg, call, from, n, n - 1, r.error);
      }
    }
  }

  /** A call fails with the error of the wallet listing, or else of the first endpoint whose head or scan fails. */
  lemma CallFails(cfg: Config, cursors: Cursors, call: Call)
    requires ValidConfig(cfg) && ValidCall(call)
    ensures var r, n := Outcome(cfg, cursors, call), |call.endpoints|;
      var from := Raised(call.from, CursorOf(cursors, call.satellite));
      && (call.wallets.Err? ==> r == Err(call.wallets.error))
      && (call.wallets.Ok? ==>
            && (r.Ok? <==> forall e :: 0 <= e < n ==> PartOf(cfg, call, from, e).Ok?)
            && (r.Err? ==> exists e: nat :: FirstFailing(cfg, call, from, n, e, r.error)))
  {
    hide ScanAll, PartOf, Raised;
    if call.wallets.Ok? {
      ScanAllFails(cfg, call, Raised(call.from, CursorOf(cursors, call.satellite)), |call.endpoints|);
    }
  }

  /******* The last query *******/

  /** When the range divides into whole windows, nothing above the head that was read is returned. */
  lemma {:induction false} WindowsUpper(
    cfg: Config, node: Node, chainID: int, j: nat, latest: nat, wallets: seq<Address>)
    requires cfg.addressBatchSize > 0 && cfg.blockBatchSize > 0 && Honest(node)
    requires j <= latest && (latest - j) % cfg.blockBatchSize == 0
    ensures var r := ScanWindows(cfg, node, chainID, j, latest, wallets);
      r.Ok? ==> forall e :: e in r.value ==> e.blockNumber <= latest
    decreases latest - j
  {
    hide ScanChunks, Honest;
    if j >= latest {
    } else {
      var next := j + cfg.blockBatchSize;
      VisitsNext(j, cfg.blockBatchSize, latest);
      ChunksUpper(cfg, node, chainID, Window(cfg, j, latest), wallets, 0);
      WindowsUpper(cfg, node, chainID, next, latest, wallets);
    }
  }

  lemma {:induction false} ChunksUpper(
    cfg: Config, node: Node, chainID: int, opts: FilterOpts, wallets: seq<Address>, i: nat)
    requires cfg.addressBatchSize > 0 && Honest(node) && opts.end.Some?
    ensures var r := ScanChunks(cfg, node, chainID, opts, wallets, i);
      r.Ok? ==> forall e :: e in r.value ==> e.blockNumber <= opts.end.value
    decreases |wallets| - i
  {
    hide Batch;
    if i >= |wallets| {
    } else {
      BatchUpper(node.answer(opts.start, i), opts, wallets[i..ChunkEnd(cfg, i, |wallets|)], chainID);
      ChunksUpper(cfg, node, chainID, opts, wallets, i + cfg.addressBatchSize);
    }
  }

  lemma BatchUpper(a: Answer, opts: FilterOpts, to: seq<Address>, chainID: int)
    requires to != [] && opts.end.Some? && (a.Served? ==> WellFormed(a.chain))
    ensures var b := Batch(a, opts, to, chainID); b.Ok? ==> forall e :: e in b.value ==> e.blockNumber <= opts.end.value
  {
    hide Batch, GetLogs;
    if a.Served? {
      var hi := Until(a.chain, opts.end);
      BatchReads(a, opts, to, chainID);
      GetLogsMeans(a.chain, opts.start, hi, to);
      var logs, events := GetLogs(a.chain, opts.start, hi, to), Batch(a, opts, to, chainID).value;
      forall e | e in events
        ensures e.blockNumber <= opts.end.value
      {
        var i :| 0 <= i < |events| && events[i] == e;
        assert logs[i] in logs;
        var b :| opts.start <= b < hi && logs[i] in a.chain[b];
        NumberOf(a.chain, b, logs[i]);
      }
    } else {
      RefusedBatch(a, opts, to, chainID);
    }
  }

  /** Otherwise the last query runs to the node's head, and returns what has been added since. */
  lemma {:induction false} WindowsOpen(
    cfg: Config, node: Node, chain: Chain, chainID: int, j: nat, latest: nat, wallets: seq<Address>, b: nat, log: Log)
    requires cfg.addressBatchSize > 0 && cfg.blockBatchSize > 0 && Steady(node, chain)
    requires j < latest < b < |chain| && (latest - j) % cfg.blockBatchSize != 0
    requires MatchingDecode(chain, j, |chain|, wallets) && log in chain[b] && log.to in wallets
    ensures var r := ScanWindows(cfg, node, chainID, j, latest, wallets); r.Ok? && Event(chainID, log) in r.value
    decreases latest - j
  {
    hide ScanChunks, Steady, Faithful;
    var next, opts := j + cfg.blockBatchSize, Window(cfg, j, latest);
    SteadyIsFaithful(node, chain, |chain|);
    ChunksSucceed(cfg, node, chainID, opts, wallets, 0, chain, |chain|);
    WindowsSucceed(cfg, node, chainID, next, latest, wallets, chain, |chain|);
    if next > latest {
      ChunksCover(cfg, node, chainID, opts, wallets, 0, chain, |chain|, b, log);
      assert wallets[0..] == wallets;
    } else {
      ModuloStep(latest - next, cfg.blockBatchSize);
      if next < latest {
        WindowsOpen(cfg, node, chain, chainID, next, latest, wallets, b, log);
      }
    }
  }

  /** No honest node makes a scan return an event above the head that was read. */
  ghost predicate StaysBelowHead(cfg: Config, chainID: int, start: nat, latest: nat, wallets: seq<Address>)
    requires cfg.addressBatchSize > 0 && cfg.blockBatchSize > 0
  {
    forall node: Node :: Honest(node) ==>
      var r := ScanEndpoint(cfg, node, chainID, start, latest, wallets);
      r.Ok? ==> forall e :: e in r.value ==> e.blockNumber <= latest
  }

  /**
   * Whatever an honest node has added to its chain meanwhile, a scan returns nothing above the head that
   * was read, exactly when it scans nothing or its range divides into whole windows.
   */
  lemma UpperExact(cfg: Config, chainID: int, start: nat, latest: nat, wallets: seq<Address>)
    requires cfg.addressBatchSize > 0 && cfg.blockBatchSize > 0 && wallets != []
    ensures var first := FirstScanned(cfg, start, latest);
      StaysBelowHead(cfg, chainID, start, latest, wallets)
      <==> first >= latest || (latest - first) % cfg.blockBatchSize == 0
  {
    hide ScanWindows, Honest, Clamp;
    var first := FirstScanned(cfg, start, latest);
    if first >= latest || (latest - first) % cfg.blockBatchSize == 0 {
      forall node: Node | Honest(node)
        ensures var r := ScanEndpoint(cfg, node, chainID, start, latest, wallets);
          r.Ok? ==> forall e :: e in r.value ==> e.blockNumber <= latest
      {
        if first < latest {
          WindowsUpper(cfg, node, chainID, first, latest, wallets);
        } else {
          NoWindows(cfg, node, chainID, first, latest, wallets);
        }
      }
    } else {
      LateLogReturned(cfg, chainID, start, latest, wallets);
    }
  }

  lemma NoWindows(cfg: Config, node: Node, chainID: int, j: nat, latest: nat, wallets: seq<Address>)
    requires cfg.addressBatchSize > 0 && cfg.blockBatchSize > 0 && j >= latest
    ensures ScanWindows(cfg, node, chainID, j, latest, wallets) == Ok([])
  {}

  lemma LateLogReturned(cfg: Config, chainID: int, start: nat, latest: nat, wallets: seq<Address>)
    requires cfg.addressBatchSize > 0 && cfg.blockBatchSize > 0 && wallets != []
    requires var first := FirstScanned(cfg, start, latest);
      first < latest && (latest - first) % cfg.blockBatchSize != 0
    ensures !StaysBelowHead(cfg, chainID, start, latest, wallets)
  {
    hide ScanWindows, Clamp, Honest, Steady, MatchingDecode, Reachable;
    var hash: Hash := seq(HASH_LENGTH, i => 0);
    var log := Log(wallets[0], wallets[0], 1, latest + 1, hash, hash, 0, true);
    var first, chain := FirstScanned(cfg, start, latest), OneBlock([log], latest + 1, latest + 1);
    var node := SteadyNode(chain);
    OneBlockSteady(log, latest + 1, latest + 1, latest + 2);
    assert log in chain[latest + 1];
    WindowsOpen(cfg, node, chain, chainID, first, latest, wallets, latest + 1, log);
    var r := ScanEndpoint(cfg, node, chainID, start, latest, wallets);
    ScansFromFirst(cfg, chain, chainID, start, latest, wallets);
    assert Event(chainID, log).blockNumber == latest + 1;
  }

  lemma ScansFromFirst(cfg: Config, chain: Chain, chainID: int, start: nat, latest: nat, wallets: seq<Address>)
    requires cfg.addressBatchSize > 0 && cfg.blockBatchSize > 0 && start <= latest
    ensures ScanEndpoint(cfg, SteadyNode(chain), chainID, start, latest, wallets)
         == ScanWindows(cfg, SteadyNode(chain), chainID, FirstScanned(cfg, start, latest), latest, wallets)
  {
    hide ScanWindows;
  }
}
