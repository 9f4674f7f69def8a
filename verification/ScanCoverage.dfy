/** Safety and completeness of a scan whose queries may be answered from different views of the chain. */
module ScanCoverage {
  import opened Common
  import opened LogStream
  import opened Scan
  import opened ScanProperties

  /******* Nothing foreign *******/

  /** Logs carry the number of the block they are in; nothing else is asked of the node. */
  ghost predicate Honest(node: Node) {
    forall j: int, i: int :: var a := node.answer(j, i); a.Served? ==> WellFormed(a.chain)
  }

  ghost predicate Safe(events: seq<TransferEvent>, chainID: int, wallets: seq<Address>, lo: int) {
    forall e :: e in events ==> e.chainID == chainID && e.to in wallets && e.blockNumber >= lo
  }

  lemma BatchSafe(a: Answer, opts: FilterOpts, to: seq<Address>, chainID: int)
    requires to != [] && (a.Served? ==> WellFormed(a.chain))
    ensures var b := Batch(a, opts, to, chainID); b.Ok? ==> Safe(b.value, chainID, to, opts.start)
  {
    hide Batch, GetLogs, EventsOf;
    if a.Served? {
      var hi := Until(a.chain, opts.end);
      var logs := GetLogs(a.chain, opts.start, hi, to);
      BatchIsPrefix(a, opts, to, chainID);
      GetLogsMeans(a.chain, opts.start, hi, to);
      EventsOfMembers(logs, chainID);
      var events := Batch(a, opts, to, chainID).value;
      forall e | e in events
        ensures e.chainID == chainID && e.to in to && e.blockNumber >= opts.start
      {
        assert e in EventsOf(logs, chainID);
        var log :| log in logs && e == Event(chainID, log);
        var b :| opts.start <= b < hi && log in a.chain[b];
      }
    } else {
      RefusedBatch(a, opts, to, chainID);
    }
  }

  lemma RefusedBatch(a: Answer, opts: FilterOpts, to: seq<Address>, chainID: int)
    requires a.Refused?
    ensures Batch(a, opts, to, chainID).Err?
  {}

  lemma {:induction false} ChunksSafe(
    cfg: Config, node: Node, chainID: int, opts: FilterOpts, wallets: seq<Address>, i: nat)
    requires cfg.addressBatchSize > 0 && Honest(node)
    ensures var r := ScanChunks(cfg, node, chainID, opts, wallets, i);
      r.Ok? ==> Safe(r.value, chainID, wallets, opts.start)
    decreases |wallets| - i
  {
    hide Batch;
    if i >= |wallets| {
    } else {
      BatchSafe(node.answer(opts.start, i), opts, wallets[i..ChunkEnd(cfg, i, |wallets|)], chainID);
      ChunksSafe(cfg, node, chainID, opts, wallets, i + cfg.addressBatchSize);
    }
  }

  lemma {:induction false} WindowsSafe(
    cfg: Config, node: Node, chainID: int, j: nat, latest: nat, wallets: seq<Address>)
    requires cfg.addressBatchSize > 0 && cfg.blockBatchSize > 0 && Honest(node)
    ensures var r := ScanWindows(cfg, node, chainID, j, latest, wallets); r.Ok? ==> Safe(r.value, chainID, wallets, j)
    decreases latest - j
  {
    hide ScanChunks;
    if j >= latest {
    } else {
      ChunksSafe(cfg, node, chainID, Window(cfg, j, latest), wallets, 0);
      WindowsSafe(cfg, node, chainID, j + cfg.blockBatchSize, latest, wallets);
    }
  }

  /** Whatever the node answers and however iterations end: only listed recipients, nothing below the start. */
  lemma EndpointSafe(cfg: Config, node: Node, chainID: int, start: nat, latest: nat, wallets: seq<Address>)
    requires cfg.addressBatchSize > 0 && cfg.blockBatchSize > 0 && Honest(node)
    ensures var r := ScanEndpoint(cfg, node, chainID, start, latest, wallets);
      r.Ok? ==> Safe(r.value, chainID, wallets, start)
  {
    hide ScanWindows;
    if start <= latest {
      WindowsSafe(cfg, node, chainID, Clamp(cfg, start, latest), latest, wallets);
    }
  }

  /******* Chain ids *******/

  ghost predicate AllOn(events: seq<TransferEvent>, chainID: int) {
    forall i :: 0 <= i < |events| ==> events[i].chainID == chainID
  }

  lemma BatchChain(a: Answer, opts: FilterOpts, to: seq<Address>, chainID: int)
    ensures var r := Batch(a, opts, to, chainID); r.Ok? ==> AllOn(r.value, chainID)
  {
    hide Drain, GetLogs;
  }

  /** Events of an endpoint scan carry the endpoint's chain. */
  lemma {:induction false} ChunksChain(
    cfg: Config, node: Node, chainID: int, opts: FilterOpts, wallets: seq<Address>, i: nat)
    requires cfg.addressBatchSize > 0
    ensures var r := ScanChunks(cfg, node, chainID, opts, wallets, i); r.Ok? ==> AllOn(r.value, chainID)
    decreases |wallets| - i
  {
    hide Batch;
    if i >= |wallets| {
    } else {
      BatchChain(node.answer(opts.start, i), opts, wallets[i..ChunkEnd(cfg, i, |wallets|)], chainID);
      ChunksChain(cfg, node, chainID, opts, wallets, i + cfg.addressBatchSize);
    }
  }

  lemma {:induction false} WindowsChain(
    cfg: Config, node: Node, chainID: int, j: nat, latest: nat, wallets: seq<Address>)
    requires cfg.addressBatchSize > 0 && cfg.blockBatchSize > 0
    ensures var r := ScanWindows(cfg, node, chainID, j, latest, wallets); r.Ok? ==> AllOn(r.value, chainID)
    decreases latest - j
  {
    hide ScanChunks;
    if j >= latest {
    } else {
      ChunksChain(cfg, node, chainID, Window(cfg, j, latest), wallets, 0);
      WindowsChain(cfg, node, chainID, j + cfg.blockBatchSize, latest, wallets);
    }
  }

  lemma EndpointChain(cfg: Config, node: Node, chainID: int, start: nat, latest: nat, wallets: seq<Address>)
    requires cfg.addressBatchSize > 0 && cfg.blockBatchSize > 0
    ensures var r := ScanEndpoint(cfg, node, chainID, start, latest, wallets); r.Ok? ==> AllOn(r.value, chainID)
  {
    hide ScanWindows;
    if start <= latest {
      WindowsChain(cfg, node, chainID, Clamp(cfg, start, latest), latest, wallets);
    }
  }

  /******* Nothing invented *******/

  /** Every event was read from a log of this chain that unpacks, addressed to a listed wallet, at block lo or later. */
  ghost predicate Sourced(events: seq<TransferEvent>, chain: Chain, chainID: int, wallets: seq<Address>, lo: int) {
    forall e :: e in events ==> HasSource(e, chain, chainID, wallets, lo)
  }

  ghost predicate HasSource(e: TransferEvent, chain: Chain, chainID: int, wallets: seq<Address>, lo: int) {
    exists b, log :: SourceOf(e, chain, chainID, wallets, lo, b, log)
  }

  ghost predicate SourceOf(
    e: TransferEvent, chain: Chain, chainID: int, wallets: seq<Address>, lo: int, b: int, log: Log) {
    && 0 <= b < |chain| && lo <= b && log in chain[b] && log.to in wallets && log.decodes && e == Event(chainID, log)
  }

  lemma {:induction false} DecodedSources(logs: seq<Log>, chainID: int)
    ensures forall e :: e in ToEvents(chainID, Decoded(logs))
              ==> exists log :: log in logs && log.decodes && e == Event(chainID, log)
  {
    if logs == [] || !logs[0].decodes {
    } else {
      DecodedSources(logs[1..], chainID);
      ToEventsCons(chainID, Unpacked(logs[0]), Decoded(logs[1..]));
      assert logs == [logs[0]] + logs[1..];
    }
  }

  lemma BatchSourced(a: Answer, opts: FilterOpts, to: seq<Address>, chainID: int)
    requires a.Served? && to != []
    ensures Batch(a, opts, to, chainID).Ok?
    ensures Sourced(Batch(a, opts, to, chainID).value, a.chain, chainID, to, opts.start)
  {
    hide Drain, GetLogs, Decoded;
    var hi := Until(a.chain, opts.end);
    var s := Opened(a, opts, to);
    DrainYieldsPrefix(s, a.sched, 0);
    ToEventsPrefix(chainID, Drain(s, a.sched, 0).0, Decoded(s.Remaining()));
    DecodedSources(s.Remaining(), chainID);
    GetLogsMeans(a.chain, opts.start, hi, to);
    var events := Batch(a, opts, to, chainID).value;
    forall e | e in events
      ensures HasSource(e, a.chain, chainID, to, opts.start)
    {
      assert e in ToEvents(chainID, Decoded(s.Remaining()));
      var log :| log in s.Remaining() && log.decodes && e == Event(chainID, log);
      assert log in GetLogs(a.chain, opts.start, hi, to);
      var b :| opts.start <= b < hi && log in a.chain[b];
      assert SourceOf(e, a.chain, chainID, to, opts.start, b, log);
    }
  }

  lemma SourcedMore(
    events: seq<TransferEvent>, chain: Chain, chainID: int, few: seq<Address>, many: seq<Address>, lo: int,
    lower: int)
    requires Sourced(events, chain, chainID, few, lo) && lower <= lo && forall w :: w in few ==> w in many
    ensures Sourced(events, chain, chainID, many, lower)
  {
    forall e | e in events
      ensures HasSource(e, chain, chainID, many, lower)
    {
      assert HasSource(e, chain, chainID, few, lo);
      var b, log :| SourceOf(e, chain, chainID, few, lo, b, log);
      assert SourceOf(e, chain, chainID, many, lower, b, log);
    }
  }

  /** Every event was read from a log of a chain that the node served to one of the queries. */
  ghost predicate FromNode(events: seq<TransferEvent>, node: Node, chainID: int, wallets: seq<Address>, lo: int) {
    forall e :: e in events ==> HasQuery(e, node, chainID, wallets, lo)
  }

  ghost predicate HasQuery(e: TransferEvent, node: Node, chainID: int, wallets: seq<Address>, lo: int) {
    exists j, i :: QueryOf(e, node, chainID, wallets, lo, j, i)
  }

  ghost predicate QueryOf(
    e: TransferEvent, node: Node, chainID: int, wallets: seq<Address>, lo: int, j: int, i: int)
  {
    node.answer(j, i).Served? && HasSource(e, node.answer(j, i).chain, chainID, wallets, lo)
  }

  lemma BatchFrom(
    node: Node, opts: FilterOpts, i: int, to: seq<Address>, chainID: int, wallets: seq<Address>)
    requires to != [] && forall w :: w in to ==> w in wallets
    ensures var b := Batch(node.answer(opts.start, i), opts, to, chainID);
      b.Ok? ==> FromNode(b.value, node, chainID, wallets, opts.start)
  {
    hide Batch, HasSource;
    var a := node.answer(opts.start, i);
    if a.Served? {
      BatchSourced(a, opts, to, chainID);
      var events := Batch(a, opts, to, chainID).value;
      SourcedMore(events, a.chain, chainID, to, wallets, opts.start, opts.start);
      forall e | e in events
        ensures HasQuery(e, node, chainID, wallets, opts.start)
      {
        assert QueryOf(e, node, chainID, wallets, opts.start, opts.start, i);
      }
    } else {
      RefusedBatch(a, opts, to, chainID);
    }
  }

  lemma {:induction false} ChunksFrom(
    cfg: Config, node: Node, chainID: int, opts: FilterOpts, wallets: seq<Address>, i: nat)
    requires cfg.addressBatchSize > 0
    ensures var r := ScanChunks(cfg, node, chainID, opts, wallets, i);
      r.Ok? ==> FromNode(r.value, node, chainID, wallets, opts.start)
    decreases |wallets| - i
  {
    hide Batch, HasQuery;
    if i >= |wallets| {
    } else {
      BatchFrom(node, opts, i, wallets[i..ChunkEnd(cfg, i, |wallets|)], chainID, wallets);
      ChunksFrom(cfg, node, chainID, opts, wallets, i + cfg.addressBatchSize);
    }
  }

  lemma FromHigher(events: seq<TransferEvent>, node: Node, chainID: int, wallets: seq<Address>, lo: int, lower: int)
    requires FromNode(events, node, chainID, wallets, lo) && lower <= lo
    ensures FromNode(events, node, chainID, wallets, lower)
  {
    forall e | e in events
      ensures HasQuery(e, node, chainID, wallets, lower)
    {
      assert HasQuery(e, node, chainID, wallets, lo);
      var j, i :| QueryOf(e, node, chainID, wallets, lo, j, i);
      var b, log :| SourceOf(e, node.answer(j, i).chain, chainID, wallets, lo, b, log);
      assert SourceOf(e, node.answer(j, i).chain, chainID, wallets, lower, b, log);
      assert QueryOf(e, node, chainID, wallets, lower, j, i);
    }
  }

  lemma {:induction false} WindowsFrom(
    cfg: Config, node: Node, chainID: int, j: nat, latest: nat, wallets: seq<Address>)
    requires cfg.addressBatchSize > 0 && cfg.blockBatchSize > 0
    ensures var r := ScanWindows(cfg, node, chainID, j, latest, wallets);
      r.Ok? ==> FromNode(r.value, node, chainID, wallets, j)
    decreases latest - j
  {
    hide ScanChunks, HasQuery;
    if j >= latest {
    } else {
      var next := j + cfg.blockBatchSize;
      ChunksFrom(cfg, node, chainID, Window(cfg, j, latest), wallets, 0);
      WindowsFrom(cfg, node, chainID, next, latest, wallets);
      var rest := ScanWindows(cfg, node, chainID, next, latest, wallets);
      if rest.Ok? {
        FromHigher(rest.value, node, chainID, wallets, next, j);
      }
    }
  }

  /** Whatever the node answers, every event of a scan reads as a log that it served, sent to a listed wallet,
      that unpacks and lies in a block no lower than the start. */
  lemma EndpointReads(cfg: Config, node: Node, chainID: int, start: nat, latest: nat, wallets: seq<Address>)
    requires cfg.addressBatchSize > 0 && cfg.blockBatchSize > 0
    ensures var r := ScanEndpoint(cfg, node, chainID, start, latest, wallets);
      r.Ok? ==> FromNode(r.value, node, chainID, wallets, start)
  {
    hide ScanWindows, HasQuery;
    var r := ScanEndpoint(cfg, node, chainID, start, latest, wallets);
    if start <= latest && r.Ok? {
      var first := Clamp(cfg, start, latest);
      WindowsFrom(cfg, node, chainID, first, latest, wallets);
      FromHigher(r.value, node, chainID, wallets, first, start);
    }
  }

  lemma FromSteady(
    events: seq<TransferEvent>, node: Node, chain: Chain, chainID: int, wallets: seq<Address>, lo: int)
    requires FromNode(events, node, chainID, wallets, lo) && Steady(node, chain)
    ensures Sourced(events, chain, chainID, wallets, lo)
  {
    hide HasSource;
    forall e | e in events
      ensures HasSource(e, chain, chainID, wallets, lo)
    {
      assert HasQuery(e, node, chainID, wallets, lo);
      var j, i :| QueryOf(e, node, chainID, wallets, lo, j, i);
      assert node.answer(j, i).chain == chain;
    }
  }

  lemma WindowsSourced(
    cfg: Config, node: Node, chain: Chain, chainID: int, j: nat, latest: nat, wallets: seq<Address>)
    requires cfg.addressBatchSize > 0 && cfg.blockBatchSize > 0 && Steady(node, chain)
    ensures var r := ScanWindows(cfg, node, chainID, j, latest, wallets);
      r.Ok? && Sourced(r.value, chain, chainID, wallets, j)
  {
    hide ScanWindows, FromNode, Steady, Sourced;
    WindowsFrom(cfg, node, chainID, j, latest, wallets);
    SteadyIsFaithful(node, chain, 0);
    WindowsSucceed(cfg, node, chainID, j, latest, wallets, chain, 0);
    FromSteady(ScanWindows(cfg, node, chainID, j, latest, wallets).value, node, chain, chainID, wallets, j);
  }

  /******* Nothing missing *******/

  /** Two views of the chain hold the same blocks below a given one. */
  ghost predicate AgreeBelow(a: Chain, b: Chain, upto: nat) {
    upto <= |a| && upto <= |b| && a[..upto] == b[..upto]
  }

  /**
   * Every query is served, its subscription ends well, and below block upto the view it is served from
   * is the given chain. Above, the views may differ from query to query and hold anything.
   */
  ghost predicate Faithful(node: Node, chain: Chain, upto: nat) {
    forall j: int, i: int ::
      var a := node.answer(j, i);
      a.Served? && a.subErr.None? && AgreeBelow(a.chain, chain, upto)
  }

  lemma {:induction false} GetLogsSplit(chain: Chain, lo: nat, mid: nat, hi: nat, to: seq<Address>)
    requires lo <= mid <= hi <= |chain|
    ensures GetLogs(chain, lo, hi, to) == GetLogs(chain, lo, mid, to) + GetLogs(chain, mid, hi, to)
    decreases mid - lo
  {
    hide Matching;
    if lo == mid {
      assert [] + GetLogs(chain, mid, hi, to) == GetLogs(chain, mid, hi, to);
    } else {
      GetLogsSplit(chain, lo + 1, mid, hi, to);
    }
  }

  /** Logs are read in order: what comes before the first log that does not unpack is returned. */
  lemma {:induction false} DecodedFront(a: seq<Log>, b: seq<Log>, chainID: int)
    requires AllDecode(a)
    ensures EventsOf(a, chainID) <= ToEvents(chainID, Decoded(a + b))
  {
    if a == [] {
    } else {
      assert (a + b)[1..] == a[1..] + b;
      DecodedFront(a[1..], b, chainID);
      ToEventsCons(chainID, Unpacked(a[0]), Decoded(a[1..] + b));
    }
  }

  /** The logs below block upto come first among those that a query is served. */
  lemma FrontOfQuery(
    a: Answer, opts: FilterOpts, to: seq<Address>, chainID: int, chain: Chain, upto: nat, b: nat, log: Log)
    requires a.Served? && AgreeBelow(a.chain, chain, upto)
    requires opts.start <= b < upto && (opts.end.Some? ==> b <= opts.end.value)
    requires MatchingDecode(chain, opts.start, upto, to)
    requires log in chain[b] && log.to in to
    ensures var hi := Until(a.chain, opts.end);
      exists mid :: opts.start <= mid <= hi && FrontAt(a.chain, opts.start, mid, to, log)
  {
    hide GetLogs;
    var hi := Until(a.chain, opts.end);
    var mid := if upto < hi then upto else hi;
    assert forall k :: 0 <= k < upto ==> a.chain[k] == a.chain[..upto][k] == chain[..upto][k] == chain[k];
    assert b < hi && log in a.chain[b];
    GetLogsDecode(a.chain, opts.start, mid, to);
    GetLogsMeans(a.chain, opts.start, mid, to);
    assert FrontAt(a.chain, opts.start, mid, to, log);
  }

  /** The matching logs of blocks lo to mid - 1 unpack, and the given one is among them. */
  ghost predicate FrontAt(chain: Chain, lo: nat, mid: int, to: seq<Address>, log: Log) {
    lo <= mid <= |chain| && AllDecode(GetLogs(chain, lo, mid, to)) && log in GetLogs(chain, lo, mid, to)
  }

  lemma BatchCovers(
    a: Answer, opts: FilterOpts, to: seq<Address>, chainID: int, chain: Chain, upto: nat, b: nat, log: Log)
    requires a.Served? && a.subErr.None? && AgreeBelow(a.chain, chain, upto)
    requires opts.start <= b < upto && (opts.end.Some? ==> b <= opts.end.value)
    requires MatchingDecode(chain, opts.start, upto, to)
    requires log in chain[b] && log.to in to
    ensures Batch(a, opts, to, chainID).Ok? && Event(chainID, log) in Batch(a, opts, to, chainID).value
  {
    hide GetLogs, EventsOf, Drain, Decoded, AllDecode, MatchingDecode, AgreeBelow, ToEvents;
    var hi := Until(a.chain, opts.end);
    FrontOfQuery(a, opts, to, chainID, chain, upto, b, log);
    var mid :| opts.start <= mid <= hi && FrontAt(a.chain, opts.start, mid, to, log);
    var front, back := GetLogs(a.chain, opts.start, mid, to), GetLogs(a.chain, mid, hi, to);
    GetLogsSplit(a.chain, opts.start, mid, hi, to);
    EventsOfMembers(front, chainID);
    DecodedFront(front, back, chainID);
    var s := Opened(a, opts, to);
    DrainYieldsPrefix(s, a.sched, 0);
    assert s.Remaining() == front + back;
    PrefixMember(EventsOf(front, chainID), Batch(a, opts, to, chainID).value, Event(chainID, log));
  }

  lemma PrefixMember(a: seq<TransferEvent>, b: seq<TransferEvent>, e: TransferEvent)
    requires a <= b && e in a
    ensures e in b
  {
    var i :| 0 <= i < |a| && a[i] == e;
    assert b[i] == e;
  }

  lemma FaithfulBatch(node: Node, chain: Chain, upto: nat, chainID: int, opts: FilterOpts, i: nat, to: seq<Address>)
    requires Faithful(node, chain, upto)
    ensures Batch(node.answer(opts.start, i), opts, to, chainID).Ok?
  {
    assert node.answer(opts.start, i).Served?;
  }

  lemma {:induction false} ChunksCover(
    cfg: Config, node: Node, chainID: int, opts: FilterOpts, wallets: seq<Address>, i: nat,
    chain: Chain, upto: nat, b: nat, log: Log)
    requires cfg.addressBatchSize > 0 && i <= |wallets| && Faithful(node, chain, upto)
    requires opts.start <= b < upto <= |chain| && (opts.end.Some? ==> b <= opts.end.value)
    requires MatchingDecode(chain, opts.start, upto, wallets) && log in chain[b]
    ensures var r := ScanChunks(cfg, node, chainID, opts, wallets, i);
      r.Ok? && (log.to in wallets[i..] ==> Event(chainID, log) in r.value)
    decreases |wallets| - i
  {
    hide Batch;
    if i == |wallets| {
    } else {
      var end := ChunkEnd(cfg, i, |wallets|);
      var chunk := wallets[i..end];
      FaithfulBatch(node, chain, upto, chainID, opts, i, chunk);
      assert wallets[i..] == chunk + wallets[end..];
      if log.to in chunk {
        var a := node.answer(opts.start, i);
        assert a.Served?;
        assert MatchingDecode(chain, opts.start, upto, chunk);
        BatchCovers(a, opts, chunk, chainID, chain, upto, b, log);
      }
      if end < |wallets| {
        ChunksCover(cfg, node, chainID, opts, wallets, end, chain, upto, b, log);
      }
    }
  }

  lemma {:induction false} ChunksSucceed(
    cfg: Config, node: Node, chainID: int, opts: FilterOpts, wallets: seq<Address>, i: nat, chain: Chain, upto: nat)
    requires cfg.addressBatchSize > 0 && Faithful(node, chain, upto)
    ensures ScanChunks(cfg, node, chainID, opts, wallets, i).Ok?
    decreases |wallets| - i
  {
    hide Batch;
    if i >= |wallets| {
    } else {
      FaithfulBatch(node, chain, upto, chainID, opts, i, wallets[i..ChunkEnd(cfg, i, |wallets|)]);
      ChunksSucceed(cfg, node, chainID, opts, wallets, i + cfg.addressBatchSize, chain, upto);
    }
  }

  lemma {:induction false} WindowsSucceed(
    cfg: Config, node: Node, chainID: int, j: nat, latest: nat, wallets: seq<Address>, chain: Chain, upto: nat)
    requires cfg.addressBatchSize > 0 && cfg.blockBatchSize > 0 && Faithful(node, chain, upto)
    ensures ScanWindows(cfg, node, chainID, j, latest, wallets).Ok?
    decreases latest - j
  {
    hide ScanChunks, Faithful;
    if j >= latest {
    } else {
      ChunksSucceed(cfg, node, chainID, Window(cfg, j, latest), wallets, 0, chain, upto);
      WindowsSucceed(cfg, node, chainID, j + cfg.blockBatchSize, latest, wallets, chain, upto);
    }
  }

  lemma {:induction false} WindowsCover(
    cfg: Config, node: Node, chainID: int, j: nat, latest: nat, wallets: seq<Address>,
    chain: Chain, upto: nat, b: nat, log: Log)
    requires cfg.addressBatchSize > 0 && cfg.blockBatchSize > 0 && Faithful(node, chain, upto)
    requires b < upto <= |chain| && MatchingDecode(chain, j, upto, wallets)
    requires log in chain[b] && log.to in wallets
    ensures var r := ScanWindows(cfg, node, chainID, j, latest, wallets);
      r.Ok? && (j < latest && j <= b <= latest ==> Event(chainID, log) in r.value)
    decreases latest - j
  {
    hide ScanChunks, Faithful;
    if j >= latest {
    } else {
      var opts := Window(cfg, j, latest);
      ChunksSucceed(cfg, node, chainID, opts, wallets, 0, chain, upto);
      if j <= b <= j + cfg.blockBatchSize {
        ChunksCover(cfg, node, chainID, opts, wallets, 0, chain, upto, b, log);
        assert wallets[0..] == wallets;
      }
      WindowsCover(cfg, node, chainID, j + cfg.blockBatchSize, latest, wallets, chain, upto, b, log);
    }
  }

  /**
   * Every transfer to a listed wallet from the first scanned block on, in the blocks below upto that all
   * views agree on, is returned when the logs for listed wallets among those blocks unpack.
   */
  lemma EndpointCovers(
    cfg: Config, node: Node, chainID: int, start: nat, latest: nat, wallets: seq<Address>,
    chain: Chain, upto: nat, b: nat, log: Log)
    requires cfg.addressBatchSize > 0 && cfg.blockBatchSize > 0 && Faithful(node, chain, upto)
    requires FirstScanned(cfg, start, latest) <= b <= latest && FirstScanned(cfg, start, latest) < latest
    requires b < upto <= |chain| && MatchingDecode(chain, FirstScanned(cfg, start, latest), upto, wallets)
    requires log in chain[b] && log.to in wallets
    ensures var r := ScanEndpoint(cfg, node, chainID, start, latest, wallets);
      r.Ok? ==> Event(chainID, log) in r.value
  {
    hide ScanWindows, Faithful, Clamp;
    WindowsCover(cfg, node, chainID, FirstScanned(cfg, start, latest), latest, wallets, chain, upto, b, log);
  }

  /******* Exactly what one call loses *******/

  /**
   * On a fixed chain whose matching logs unpack, a transfer to a listed wallet is returned exactly when its
   * block is neither below the start nor further behind the head than the limit; a negative limit is none.
   */
  lemma LimitExact(
    cfg: Config, node: Node, chain: Chain, chainID: int, start: nat, wallets: seq<Address>, b: nat, log: Log)
    requires cfg.addressBatchSize > 0 && cfg.blockBatchSize > 0 && Reachable(node)
    requires WellFormed(chain) && Steady(node, chain) && MatchingDecode(chain, 0, |chain|, wallets)
    requires b < |chain| && log in chain[b] && log.to in wallets
    requires start < |chain| - 1 < 0x8000_0000_0000_0000
    requires -0x8000_0000_0000_0000 <= cfg.maximumQuerySize < 0x8000_0000_0000_0000 && cfg.maximumQuerySize != 0
    ensures var r, limit := ScanEndpoint(cfg, node, chainID, start, |chain| - 1, wallets), cfg.maximumQuerySize;
      r.Ok? && (Event(chainID, log) in r.value <==> b >= start && (limit < 0 || b >= |chain| - 1 - limit))
  {
    hide ScanWindows, Steady, MatchingDecode, HasSource, Faithful;
    var latest := |chain| - 1;
    var r, first := ScanEndpoint(cfg, node, chainID, start, latest, wallets), FirstScanned(cfg, start, latest);
    WindowsSourced(cfg, node, chain, chainID, first, latest, wallets);
    NumberOf(chain, b, log);
    if Event(chainID, log) in r.value {
      assert HasSource(Event(chainID, log), chain, chainID, wallets, first);
      SourceNotBelow(Event(chainID, log), chain, chainID, wallets, first);
    }
    if b >= first {
      SteadyIsFaithful(node, chain, |chain|);
      LaterDecode(chain, first, wallets);
      EndpointCovers(cfg, node, chainID, start, latest, wallets, chain, |chain|, b, log);
    }
  }

  lemma SourceNotBelow(e: TransferEvent, chain: Chain, chainID: int, wallets: seq<Address>, lo: int)
    requires WellFormed(chain) && HasSource(e, chain, chainID, wallets, lo)
    ensures e.blockNumber >= lo
  {
    var b, log :| SourceOf(e, chain, chainID, wallets, lo, b, log);
    NumberOf(chain, b, log);
  }

  lemma LaterDecode(chain: Chain, lo: nat, wallets: seq<Address>)
    requires MatchingDecode(chain, 0, |chain|, wallets)
    ensures MatchingDecode(chain, lo, |chain|, wallets)
  {}

  /** A negative start wraps around to a block above every head. */
  lemma NegativeStartScansNothing(
    cfg: Config, node: Node, chainID: int, asked: int, latest: nat, wallets: seq<Address>)
    requires cfg.addressBatchSize > 0 && cfg.blockBatchSize > 0 && Reachable(node)
    requires -0x8000_0000_0000_0000 <= asked < 0 && latest < 0x8000_0000_0000_0000
    ensures ScanEndpoint(cfg, node, chainID, ToUint64(asked), latest, wallets) == Ok([])
    ensures ToUint64(asked) == 0x1_0000_0000_0000_0000 + asked
  {}

  /** The logs of a block have different indices. */
  ghost predicate Indexed(chain: Chain) {
    forall b, l, m :: 0 <= b < |chain| && l in chain[b] && m in chain[b] && l.index == m.index ==> l == m
  }

  lemma SteadyIsFaithful(node: Node, chain: Chain, upto: nat)
    requires Steady(node, chain) && upto <= |chain|
    ensures Faithful(node, chain, upto)
  {}

  /** Every transfer to a listed wallet in blocks lo to upto - 1 is among the events. */
  ghost predicate ReturnsAll(
    events: seq<TransferEvent>, chain: Chain, chainID: int, wallets: seq<Address>, lo: nat, upto: nat)
    requires upto <= |chain|
  {
    forall b, log :: lo <= b < upto && log in chain[b] && log.to in wallets ==> Event(chainID, log) in events
  }

  /** Nothing is addressed to a listed wallet in blocks lo to hi - 1. */
  ghost predicate NothingMatches(chain: Chain, lo: nat, hi: nat, wallets: seq<Address>)
    requires hi <= |chain|
  {
    forall b, log :: lo <= b < hi && log in chain[b] ==> log.to !in wallets
  }

  /**
   * On a chain that does not change during the call, a scan returns every transfer of blocks lo to
   * upto - 1 exactly when all matching logs there unpack and lie at or after the first block scanned.
   */
  lemma EndpointLossExact(
    cfg: Config, node: Node, chain: Chain, chainID: int, lo: nat, start: nat, upto: nat, wallets: seq<Address>)
    requires cfg.addressBatchSize > 0 && cfg.blockBatchSize > 0 && Reachable(node)
    requires |chain| > 0 && WellFormed(chain) && Indexed(chain) && Steady(node, chain)
    requires lo <= start && lo <= upto < |chain|
    ensures var latest := |chain| - 1;
      var r, first := ScanEndpoint(cfg, node, chainID, start, latest, wallets), FirstScanned(cfg, start, latest);
      && r.Ok?
      && (ReturnsAll(r.value, chain, chainID, wallets, lo, upto)
          <==> MatchingDecode(chain, lo, upto, wallets)
               && NothingMatches(chain, lo, if first < upto then first else upto, wallets))
  {
    hide ScanWindows, Steady, Sourced, MatchingDecode, NothingMatches, ReturnsAll, Clamp;
    var latest := |chain| - 1;
    var r, first := ScanEndpoint(cfg, node, chainID, start, latest, wallets), FirstScanned(cfg, start, latest);
    var mid := if first < upto then first else upto;
    WindowsSourced(cfg, node, chain, chainID, first, latest, wallets);
    if start > latest {
      NothingScanned(chain, chainID, wallets, first);
    }
    if ReturnsAll(r.value, chain, chainID, wallets, lo, upto) {
      ReturnedDecodes(r.value, chain, chainID, wallets, lo, first, upto);
    }
    if MatchingDecode(chain, lo, upto, wallets) && NothingMatches(chain, lo, mid, wallets) {
      SteadyIsFaithful(node, chain, upto);
      DecodingReturned(cfg, node, chain, chainID, lo, start, upto, wallets);
    }
  }

  lemma NothingScanned(chain: Chain, chainID: int, wallets: seq<Address>, lo: int)
    ensures Sourced([], chain, chainID, wallets, lo)
  {}

  lemma ReturnedDecodes(
    events: seq<TransferEvent>, chain: Chain, chainID: int, wallets: seq<Address>, lo: nat, first: nat, upto: nat)
    requires WellFormed(chain) && Indexed(chain) && upto <= |chain| && lo <= upto
    requires Sourced(events, chain, chainID, wallets, first) && ReturnsAll(events, chain, chainID, wallets, lo, upto)
    ensures MatchingDecode(chain, lo, upto, wallets)
    ensures NothingMatches(chain, lo, if first < upto then first else upto, wallets)
  {
    forall b, log | lo <= b < upto && log in chain[b] && log.to in wallets
      ensures log.decodes && b >= first
    {
      var e := Event(chainID, log);
      assert e in events && HasSource(e, chain, chainID, wallets, first);
      var b', log' :| SourceOf(e, chain, chainID, wallets, first, b', log');
      NumberOf(chain, b, log);
      NumberOf(chain, b', log');
    }
  }

  lemma NumberOf(chain: Chain, b: int, log: Log)
    requires WellFormed(chain) && 0 <= b < |chain| && log in chain[b]
    ensures log.blockNumber == b
  {
    var i :| 0 <= i < |chain[b]| && chain[b][i] == log;
  }

  lemma DecodingReturned(
    cfg: Config, node: Node, chain: Chain, chainID: int, lo: nat, start: nat, upto: nat, wallets: seq<Address>)
    requires cfg.addressBatchSize > 0 && cfg.blockBatchSize > 0 && Reachable(node)
    requires lo <= start && lo <= upto < |chain| && Faithful(node, chain, upto)
    requires MatchingDecode(chain, lo, upto, wallets)
    requires var first := FirstScanned(cfg, start, |chain| - 1);
      NothingMatches(chain, lo, if first < upto then first else upto, wallets)
    ensures var r := ScanEndpoint(cfg, node, chainID, start, |chain| - 1, wallets);
      r.Ok? ==> ReturnsAll(r.value, chain, chainID, wallets, lo, upto)
  {
    hide ScanEndpoint, Faithful;
    var latest := |chain| - 1;
    var r, first := ScanEndpoint(cfg, node, chainID, start, latest, wallets), FirstScanned(cfg, start, latest);
    if r.Ok? {
      forall b, log | lo <= b < upto && log in chain[b] && log.to in wallets
        ensures Event(chainID, log) in r.value
      {
        assert first <= b;
        EndpointCovers(cfg, node, chainID, start, latest, wallets, chain, upto, b, log);
      }
    }
  }
}
