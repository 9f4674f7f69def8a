/** Scanning one chain for transfers: filter queries, block windows and address chunks. */
module Scan {
  import opened Common
  import opened LogStream

  datatype Config = Config(
    addressBatchSize: int, blockBatchSize: int, chainReorgBuffer: int, maximumQuerySize: int)

  datatype TransferEvent = TransferEvent(
    chainID: int, from: Address, to: Address, blockHash: Hash, blockNumber: int, txHash: Hash,
    logIndex: int, tokenValue: int)

  /******* The chain and the node *******/

  /** The logs of the token contract, block by block from block 0 to the head. */
  type Chain = seq<seq<Log>>

  ghost predicate WellFormed(chain: Chain) {
    forall b, i :: 0 <= b < |chain| && 0 <= i < |chain[b]| ==> chain[b][i].blockNumber == b
  }

  function Pick(block: seq<Log>, to: seq<Address>): seq<Log> {
    if block == [] then []
    else (if block[0].to in to then [block[0]] else []) + Pick(block[1..], to)
  }

  /** An empty recipient rule matches every log. */
  function Matching(block: seq<Log>, to: seq<Address>): seq<Log> {
    if to == [] then block else Pick(block, to)
  }

  /** The matching logs of blocks lo to hi - 1, in chain order. */
  function GetLogs(chain: Chain, lo: nat, hi: nat, to: seq<Address>): seq<Log>
    requires hi <= |chain|
    decreases hi - lo
  {
    if lo >= hi then [] else Matching(chain[lo], to) + GetLogs(chain, lo + 1, hi, to)
  }

  /** Bounds are inclusive; without an end the query runs to the node's head. */
  datatype FilterOpts = FilterOpts(start: nat, end: Option<nat>)

  function Until(chain: Chain, end: Option<nat>): nat {
    if end.Some? && end.value < |chain| then end.value + 1 else |chain|
  }

  type Capacity = c: nat | c > 0 witness 1

  /**
   * What the node does with one filter query: refuse it, or serve it from the chain it holds at that
   * moment. A subscription that ends with no error has sent every log, a failing one some of them.
   */
  datatype Answer =
    | Refused(error: Error)
    | Served(chain: Chain, sent: nat, subErr: Option<Error>, capacity: Capacity, sched: nat -> Choice)

  function Sent(a: Answer, opts: FilterOpts, to: seq<Address>): seq<Log>
    requires a.Served?
  {
    var logs := GetLogs(a.chain, opts.start, Until(a.chain, opts.end), to);
    if a.subErr.Some? && a.sent < |logs| then logs[..a.sent] else logs
  }

  /** The node behind one endpoint; a query is known by the first block and the first wallet it asks for. */
  datatype Node = Node(
    dial: Option<Error>, contract: Option<Error>, bind: Option<Error>, answer: (int, int) -> Answer)

  /******* One query *******/

  function ToEvent(chainID: int, t: Transfer): TransferEvent {
    TransferEvent(chainID, t.from, t.to, t.raw.blockHash, t.raw.blockNumber, t.raw.txHash, t.raw.index, t.amount)
  }

  function ToEvents(chainID: int, ts: seq<Transfer>): (es: seq<TransferEvent>)
    ensures |es| == |ts| && forall i :: 0 <= i < |ts| ==> es[i] == ToEvent(chainID, ts[i])
  {
    if ts == [] then [] else [ToEvent(chainID, ts[0])] + ToEvents(chainID, ts[1..])
  }

  lemma ToEventsCons(chainID: int, t: Transfer, ts: seq<Transfer>)
    ensures ToEvents(chainID, [t] + ts) == [ToEvent(chainID, t)] + ToEvents(chainID, ts)
  {
    assert ([t] + ts)[1..] == ts;
  }

  /** The iterator that a served query hands out. */
  function Opened(a: Answer, opts: FilterOpts, to: seq<Address>): Stream
    requires a.Served?
  {
    Stream(Sent(a, opts, to), [], a.capacity, a.subErr, false, false, None)
  }

  function Collected(chainID: int, s: Stream, sched: nat -> Choice, k: nat): seq<TransferEvent> {
    ToEvents(chainID, Drain(s, sched, k).0)
  }

  function Batch(a: Answer, opts: FilterOpts, to: seq<Address>, chainID: int): Result<seq<TransferEvent>, Error> {
    match a
    case Refused(e) => Err(e)
    case Served(_, _, _, _, sched) => Ok(Collected(chainID, Opened(a, opts, to), sched, 0))
  }

  lemma CollectedRound(chainID: int, s: Stream, sched: nat -> Choice, k: nat)
    requires s.Valid()
    ensures var (t, s') := NextStep(s, sched(k));
            if t.None? then Collected(chainID, s, sched, k) == []
            else s'.Valid() && |s'.Remaining()| < |s.Remaining()|
                 && Collected(chainID, s, sched, k)
                    == [ToEvent(chainID, t.value)] + Collected(chainID, s', sched, k + 1)
  {
    hide Drain;
    DrainRound(s, sched, k);
    var (t, s') := NextStep(s, sched(k));
    if t.Some? {
      NextOutcome(s, sched(k));
      ToEventsCons(chainID, t.value, Drain(s', sched, k + 1).0);
    }
  }

  /** The iterator's failure is never looked at: an interrupted iteration returns what it has, without an error. */
  method ProcessBatch(a: Answer, opts: FilterOpts, to: seq<Address>, chainID: int)
    returns (r: Result<seq<TransferEvent>, Error>)
    ensures r == Batch(a, opts, to, chainID)
  {
    if a.Refused? {
      return Err(a.error);
    }
    hide GetLogs, Sent, Collected;
    var iter := new ERC20TransferIterator(Sent(a, opts, to), a.capacity, a.subErr);
    assert iter.State() == Opened(a, opts, to);
    var newEvents := Exhaust(iter, a.sched, chainID);
    return Ok(newEvents);
  }

  /** The loop that calls Next until it returns false. */
  method Exhaust(iter: ERC20TransferIterator, sched: nat -> Choice, chainID: int)
    returns (newEvents: seq<TransferEvent>)
    requires iter.State().Valid()
    modifies iter
    ensures newEvents == Collected(chainID, old(iter.State()), sched, 0)
  {
    hide *;
    newEvents := [];
    ghost var before := iter.State();
    ghost var all := Collected(chainID, before, sched, 0);
    assert [] + all == all;
    var k := 0;
    var more := iter.Next(sched(k));
    while more
      invariant before.Valid()
      invariant (if more then iter.event else None, iter.State()) == NextStep(before, sched(k))
      invariant more ==> iter.event.Some?
      invariant all == newEvents + Collected(chainID, before, sched, k)
      decreases |before.Remaining()|
    {
      CollectedRound(chainID, before, sched, k);
      newEvents := newEvents + [ToEvent(chainID, iter.event.value)];
      before := iter.State();
      k := k + 1;
      more := iter.Next(sched(k));
    }
    CollectedRound(chainID, before, sched, k);
    assert newEvents + [] == newEvents;
  }

  /******* Windows of blocks, chunks of wallets *******/

  function Append(before: seq<TransferEvent>, r: Result<seq<TransferEvent>, Error>): Result<seq<TransferEvent>, Error> {
    if r.Ok? then Ok(before + r.value) else r
  }

  function ChunkEnd(cfg: Config, i: nat, n: nat): nat
    requires cfg.addressBatchSize > 0 && i <= n
  {
    if i + cfg.addressBatchSize < n then i + cfg.addressBatchSize else n
  }

  function Window(cfg: Config, j: nat, latest: nat): FilterOpts
    requires cfg.blockBatchSize > 0
  {
    var end := j + cfg.blockBatchSize;
    FilterOpts(j, if end > latest then None else Some(end))
  }

  /** The events of one window, from wallet i on. */
  function ScanChunks(cfg: Config, node: Node, chainID: int, opts: FilterOpts, wallets: seq<Address>, i: nat)
    : Result<seq<TransferEvent>, Error>
    requires cfg.addressBatchSize > 0
    decreases |wallets| - i
  {
    if i >= |wallets| then Ok([])
    else
      var end := ChunkEnd(cfg, i, |wallets|);
      var batch := Batch(node.answer(opts.start, i), opts, wallets[i..end], chainID);
      if batch.Err? then batch
      else Append(batch.value, ScanChunks(cfg, node, chainID, opts, wallets, i + cfg.addressBatchSize))
  }

  /** The events of the windows from block j on. */
  function ScanWindows(cfg: Config, node: Node, chainID: int, j: nat, latest: nat, wallets: seq<Address>)
    : Result<seq<TransferEvent>, Error>
    requires cfg.addressBatchSize > 0 && cfg.blockBatchSize > 0
    decreases latest - j
  {
    if j >= latest then Ok([])
    else
      var window := ScanChunks(cfg, node, chainID, Window(cfg, j, latest), wallets, 0);
      if window.Err? then window
      else Append(window.value, ScanWindows(cfg, node, chainID, j + cfg.blockBatchSize, latest, wallets))
  }

  /** The first block scanned: at most the maximum query size before the head. */
  function Clamp(cfg: Config, start: nat, latest: nat): nat
    requires start <= latest
  {
    var size := ToUint64(cfg.maximumQuerySize);
    if latest - start > size then latest - size else start
  }

  function ScanEndpoint(cfg: Config, node: Node, chainID: int, start: nat, latest: nat, wallets: seq<Address>)
    : Result<seq<TransferEvent>, Error>
    requires cfg.addressBatchSize > 0 && cfg.blockBatchSize > 0
  {
    if node.dial.Some? then Err(node.dial.value)
    else if node.contract.Some? then Err(node.contract.value)
    else if node.bind.Some? then Err(node.bind.value)
    else if start > latest then Ok([])
    else ScanWindows(cfg, node, chainID, Clamp(cfg, start, latest), latest, wallets)
  }

  lemma AppendAssociative(a: seq<TransferEvent>, b: seq<TransferEvent>, r: Result<seq<TransferEvent>, Error>)
    ensures Append(a, Append(b, r)) == Append(a + b, r)
  {
    if r.Ok? {
      assert a + (b + r.value) == a + b + r.value;
    }
  }

  lemma AppendNothing(a: seq<TransferEvent>, r: Result<seq<TransferEvent>, Error>)
    ensures Append(a, Ok([])) == Ok(a) && Append([], r) == r
  {
    assert a + [] == a;
    if r.Ok? {
      assert [] + r.value == r.value;
    }
  }

  /** The recipients of the queries of one window. */
  function Chunks(cfg: Config, wallets: seq<Address>, i: nat): seq<seq<Address>>
    requires cfg.addressBatchSize > 0
    decreases |wallets| - i
  {
    if i >= |wallets| then []
    else [wallets[i..ChunkEnd(cfg, i, |wallets|)]] + Chunks(cfg, wallets, i + cfg.addressBatchSize)
  }

  /** How many windows the loop makes. */
  function Iterations(cfg: Config, j: nat, latest: nat): nat
    requires cfg.blockBatchSize > 0
    decreases latest - j
  {
    if j >= latest then 0 else 1 + Iterations(cfg, j + cfg.blockBatchSize, latest)
  }

  method GetEventsForEndpoint(cfg: Config, node: Node, chainID: int, start: nat, latest: nat, wallets: seq<Address>)
    returns (r: Result<seq<TransferEvent>, Error>)
    requires cfg.addressBatchSize > 0 && cfg.blockBatchSize > 0
    ensures r == ScanEndpoint(cfg, node, chainID, start, latest, wallets)
  {
    hide ScanWindows;
    if node.dial.Some? {
      return Err(node.dial.value);
    }
    if node.contract.Some? {
      return Err(node.contract.value);
    }
    if node.bind.Some? {
      return Err(node.bind.value);
    }
    if start > latest {
      return Ok([]);
    }
    var first := start;
    if latest - start > ToUint64(cfg.maximumQuerySize) {
      first := latest - ToUint64(cfg.maximumQuerySize);
    }
    ghost var windows;
    r, windows := GetWindows(cfg, node, chainID, first, latest, wallets);
  }

  /** The loop over the block windows. */
  method GetWindows(cfg: Config, node: Node, chainID: int, first: nat, latest: nat, wallets: seq<Address>)
    returns (r: Result<seq<TransferEvent>, Error>, ghost windows: nat)
    requires cfg.addressBatchSize > 0 && cfg.blockBatchSize > 0
    ensures r == ScanWindows(cfg, node, chainID, first, latest, wallets)
    ensures r.Ok? ==> windows == Iterations(cfg, first, latest)
  {
    hide ScanChunks, Append, Window;
    var newEvents := [];
    var j := first;
    windows := 0;
    AppendNothing([], ScanWindows(cfg, node, chainID, first, latest, wallets));
    while j < latest
      invariant windows + Iterations(cfg, j, latest) == Iterations(cfg, first, latest)
      invariant Append(newEvents, ScanWindows(cfg, node, chainID, j, latest, wallets))
             == ScanWindows(cfg, node, chainID, first, latest, wallets)
      decreases latest - j
    {
      var opts := Window(cfg, j, latest);
      ghost var asked;
      var window;
      window, asked := GetWindow(cfg, node, chainID, opts, wallets);
      AppendErr(newEvents, window);
      if window.Err? {
        return window, windows;
      }
      AppendAssociative(newEvents, window.value,
        ScanWindows(cfg, node, chainID, j + cfg.blockBatchSize, latest, wallets));
      newEvents := newEvents + window.value;
      j := j + cfg.blockBatchSize;
      windows := windows + 1;
    }
    AppendNothing(newEvents, Ok([]));
    return Ok(newEvents), windows;
  }

  lemma AppendErr(a: seq<TransferEvent>, r: Result<seq<TransferEvent>, Error>)
    ensures r.Err? ==> Append(a, r) == r
  {}

  /** The wallets of the next query. */
  method NextChunk(cfg: Config, wallets: seq<Address>, i: nat) returns (addresses: seq<Address>)
    requires cfg.addressBatchSize > 0 && i < |wallets|
    ensures addresses == wallets[i..ChunkEnd(cfg, i, |wallets|)]
  {
    addresses := [];
    var a := i;
    while a - i < cfg.addressBatchSize && a < |wallets|
      invariant i <= a <= ChunkEnd(cfg, i, |wallets|)
      invariant addresses == wallets[i..a]
    {
      addresses := addresses + [wallets[a]];
      a := a + 1;
    }
  }

  /** The loop over the chunks of the wallet list. */
  method GetWindow(cfg: Config, node: Node, chainID: int, opts: FilterOpts, wallets: seq<Address>)
    returns (r: Result<seq<TransferEvent>, Error>, ghost asked: seq<seq<Address>>)
    requires cfg.addressBatchSize > 0
    ensures r == ScanChunks(cfg, node, chainID, opts, wallets, 0)
    ensures r.Ok? ==> asked == Chunks(cfg, wallets, 0)
  {
    hide Batch, Append;
    var newEvents := [];
    var i := 0;
    asked := [];
    assert asked + Chunks(cfg, wallets, 0) == Chunks(cfg, wallets, 0);
    AppendNothing([], ScanChunks(cfg, node, chainID, opts, wallets, 0));
    while i < |wallets|
      invariant i >= 0
      invariant asked + Chunks(cfg, wallets, i) == Chunks(cfg, wallets, 0)
      invariant Append(newEvents, ScanChunks(cfg, node, chainID, opts, wallets, i))
             == ScanChunks(cfg, node, chainID, opts, wallets, 0)
      decreases |wallets| - i
    {
      var addresses := NextChunk(cfg, wallets, i);
      var batch := ProcessBatch(node.answer(opts.start, i), opts, addresses, chainID);
      AppendErr(newEvents, batch);
      if batch.Err? {
        return batch, asked;
      }
      assert asked + Chunks(cfg, wallets, i) == asked + [addresses] + Chunks(cfg, wallets, i + cfg.addressBatchSize);
      asked := asked + [addresses];
      AppendAssociative(newEvents, batch.value,
        ScanChunks(cfg, node, chainID, opts, wallets, i + cfg.addressBatchSize));
      newEvents := newEvents + batch.value;
      i := i + cfg.addressBatchSize;
    }
    AppendNothing(newEvents, Ok([]));
    assert asked + [] == asked;
    return Ok(newEvents), asked;
  }
}
