/** What a scan of one endpoint returns: nothing foreign, nothing missing, and what exactly is doubled. */
module ScanProperties {
  import opened Common
  import opened LogStream
  import opened Scan

  /******* Transfers as bags of events *******/

  /** The event is on the chain and has the log's sender, recipient, block, transaction, index and amount. */
  ghost predicate Reads(e: TransferEvent, chainID: int, log: Log) {
    && e.chainID == chainID
    && e.from == log.from && e.to == log.to && e.tokenValue == log.amount
    && e.blockHash == log.blockHash && e.blockNumber == log.blockNumber
    && e.txHash == log.txHash && e.logIndex == log.index
  }

  /** The only event that reads as the log. */
  function Event(chainID: int, log: Log): (e: TransferEvent)
    ensures Reads(e, chainID, log)
  {
    ToEvent(chainID, Unpacked(log))
  }

  /** The transfers of one block to the given wallets. */
  function BlockBag(block: seq<Log>, to: seq<Address>, chainID: int): multiset<TransferEvent> {
    if block == [] then multiset{}
    else (if block[0].to in to then multiset{Event(chainID, block[0])} else multiset{})
         + BlockBag(block[1..], to, chainID)
  }

  /** The transfers of blocks lo to hi - 1. */
  function Bag(chain: Chain, lo: nat, hi: nat, to: seq<Address>, chainID: int): multiset<TransferEvent>
    requires hi <= |chain|
    decreases hi - lo
  {
    if lo >= hi then multiset{} else BlockBag(chain[lo], to, chainID) + Bag(chain, lo + 1, hi, to, chainID)
  }

  lemma {:induction false} BagSplit(chain: Chain, lo: nat, mid: nat, hi: nat, to: seq<Address>, chainID: int)
    requires lo <= mid <= hi <= |chain|
    ensures Bag(chain, lo, hi, to, chainID) == Bag(chain, lo, mid, to, chainID) + Bag(chain, mid, hi, to, chainID)
    decreases mid - lo
  {
    hide BlockBag;
    if lo >= mid {
    } else {
      BagSplit(chain, lo + 1, mid, hi, to, chainID);
    }
  }

  ghost predicate Disjoint(a: seq<Address>, b: seq<Address>) {
    forall w :: w in a ==> w !in b
  }

  lemma {:induction false} BlockBagChunks(block: seq<Log>, a: seq<Address>, b: seq<Address>, chainID: int)
    requires Disjoint(a, b)
    ensures BlockBag(block, a + b, chainID) == BlockBag(block, a, chainID) + BlockBag(block, b, chainID)
  {
    if block == [] {
    } else {
      BlockBagChunks(block[1..], a, b, chainID);
    }
  }

  lemma {:induction false} BagChunks(chain: Chain, lo: nat, hi: nat, a: seq<Address>, b: seq<Address>, chainID: int)
    requires hi <= |chain| && Disjoint(a, b)
    ensures Bag(chain, lo, hi, a + b, chainID) == Bag(chain, lo, hi, a, chainID) + Bag(chain, lo, hi, b, chainID)
    decreases hi - lo
  {
    hide BlockBag;
    if lo >= hi {
    } else {
      BlockBagChunks(chain[lo], a, b, chainID);
      BagChunks(chain, lo + 1, hi, a, b, chainID);
    }
  }

  lemma {:induction false} BlockBagOfNobody(chain: Chain, lo: nat, hi: nat, chainID: int)
    requires hi <= |chain|
    ensures Bag(chain, lo, hi, [], chainID) == multiset{}
    decreases hi - lo
  {
    if lo >= hi {
    } else {
      EmptyBlockBag(chain[lo], chainID);
      BlockBagOfNobody(chain, lo + 1, hi, chainID);
    }
  }

  lemma {:induction false} EmptyBlockBag(block: seq<Log>, chainID: int)
    ensures BlockBag(block, [], chainID) == multiset{}
  {
    if block == [] {
    } else {
      EmptyBlockBag(block[1..], chainID);
    }
  }

  /******* A query that is served in full *******/

  lemma PickCons(log: Log, block: seq<Log>, to: seq<Address>)
    ensures Pick([log] + block, to) == (if log.to in to then [log] else []) + Pick(block, to)
  {
    assert ([log] + block)[1..] == block;
  }

  /** The matching logs of a block come in the block's order. */
  lemma {:induction false} PickAppend(a: seq<Log>, b: seq<Log>, to: seq<Address>)
    ensures Pick(a + b, to) == Pick(a, to) + Pick(b, to)
  {
    if a == [] {
      assert a + b == b && [] + Pick(b, to) == Pick(b, to);
    } else {
      hide Pick;
      assert a + b == [a[0]] + (a[1..] + b) && a == [a[0]] + a[1..];
      PickCons(a[0], a[1..] + b, to);
      PickCons(a[0], a[1..], to);
      PickAppend(a[1..], b, to);
    }
  }

  /** Every event of a batch comes from the logs the node was asked for, in their order. */
  lemma {:induction false} PickMeans(block: seq<Log>, to: seq<Address>)
    ensures forall log :: log in Pick(block, to) <==> log in block && log.to in to
  {
    if block == [] {
    } else {
      PickMeans(block[1..], to);
      assert forall log :: log in block <==> log == block[0] || log in block[1..];
    }
  }

  lemma {:induction false} GetLogsMeans(chain: Chain, lo: nat, hi: nat, to: seq<Address>)
    requires hi <= |chain| && to != []
    ensures forall log :: log in GetLogs(chain, lo, hi, to)
              <==> log.to in to && exists b :: lo <= b < hi && log in chain[b]
    decreases hi - lo
  {
    if lo >= hi {
    } else {
      PickMeans(chain[lo], to);
      GetLogsMeans(chain, lo + 1, hi, to);
      forall log
        ensures (exists b :: lo <= b < hi && log in chain[b])
           <==> log in chain[lo] || (exists b :: lo + 1 <= b < hi && log in chain[b])
      {}
    }
  }

  /** Every matching log of blocks lo to hi - 1 unpacks. */
  ghost predicate MatchingDecode(chain: Chain, lo: nat, hi: nat, to: seq<Address>)
    requires hi <= |chain|
  {
    forall b, log :: lo <= b < hi && log in chain[b] && log.to in to ==> log.decodes
  }

  lemma GetLogsDecode(chain: Chain, lo: nat, hi: nat, to: seq<Address>)
    requires hi <= |chain| && to != []
    ensures AllDecode(GetLogs(chain, lo, hi, to)) <==> MatchingDecode(chain, lo, hi, to)
  {
    hide GetLogs;
    GetLogsMeans(chain, lo, hi, to);
    var logs := GetLogs(chain, lo, hi, to);
    if AllDecode(logs) {
      forall b, log | lo <= b < hi && log in chain[b] && log.to in to
        ensures log.decodes
      {
        assert log in logs;
      }
    }
    if MatchingDecode(chain, lo, hi, to) {
      forall i | 0 <= i < |logs|
        ensures logs[i].decodes
      {
        assert logs[i] in logs;
        var b :| lo <= b < hi && logs[i] in chain[b];
      }
    }
  }

  function EventsOf(logs: seq<Log>, chainID: int): seq<TransferEvent> {
    if logs == [] then [] else [Event(chainID, logs[0])] + EventsOf(logs[1..], chainID)
  }

  lemma {:induction false} EventsOfAppend(a: seq<Log>, b: seq<Log>, chainID: int)
    ensures EventsOf(a + b, chainID) == EventsOf(a, chainID) + EventsOf(b, chainID)
  {
    if a == [] {
      assert a + b == b;
    } else {
      assert (a + b)[1..] == a[1..] + b;
      EventsOfAppend(a[1..], b, chainID);
    }
  }

  lemma {:induction false} EventsOfMembers(logs: seq<Log>, chainID: int)
    ensures forall log :: log in logs ==> Event(chainID, log) in EventsOf(logs, chainID)
    ensures forall e :: e in EventsOf(logs, chainID) ==> exists log :: log in logs && e == Event(chainID, log)
  {
    if logs == [] {
    } else {
      EventsOfMembers(logs[1..], chainID);
      assert logs == [logs[0]] + logs[1..];
    }
  }

  lemma {:induction false} DecodedEvents(logs: seq<Log>, chainID: int)
    ensures ToEvents(chainID, Decoded(logs)) <= EventsOf(logs, chainID)
    ensures AllDecode(logs) ==> ToEvents(chainID, Decoded(logs)) == EventsOf(logs, chainID)
  {
    if logs == [] || !logs[0].decodes {
    } else {
      DecodedEvents(logs[1..], chainID);
      ToEventsCons(chainID, Unpacked(logs[0]), Decoded(logs[1..]));
      assert AllDecode(logs) ==> AllDecode(logs[1..]);
    }
  }

  lemma {:induction false} PickBag(block: seq<Log>, to: seq<Address>, chainID: int)
    ensures multiset(EventsOf(Pick(block, to), chainID)) == BlockBag(block, to, chainID)
  {
    if block == [] {
    } else {
      PickBag(block[1..], to, chainID);
      var first := if block[0].to in to then [block[0]] else [];
      EventsOfAppend(first, Pick(block[1..], to), chainID);
    }
  }

  lemma {:induction false} GetLogsBag(chain: Chain, lo: nat, hi: nat, to: seq<Address>, chainID: int)
    requires hi <= |chain| && to != []
    ensures multiset(EventsOf(GetLogs(chain, lo, hi, to), chainID)) == Bag(chain, lo, hi, to, chainID)
    decreases hi - lo
  {
    hide Pick, EventsOf, BlockBag;
    if lo >= hi {
      assert EventsOf([], chainID) == [] by { EventsOfLength([], chainID); }
    } else {
      PickBag(chain[lo], to, chainID);
      GetLogsBag(chain, lo + 1, hi, to, chainID);
      EventsOfAppend(Pick(chain[lo], to), GetLogs(chain, lo + 1, hi, to), chainID);
    }
  }

  lemma {:induction false} ToEventsPrefix(chainID: int, a: seq<Transfer>, b: seq<Transfer>)
    requires a <= b
    ensures ToEvents(chainID, a) <= ToEvents(chainID, b)
  {
    if a == [] {
    } else {
      assert a[1..] <= b[1..] by { assert b == a + b[|a|..]; assert b[1..] == a[1..] + b[|a|..]; }
      ToEventsPrefix(chainID, a[1..], b[1..]);
    }
  }

  lemma {:induction false} EventsOfPrefix(a: seq<Log>, b: seq<Log>, chainID: int)
    requires a <= b
    ensures EventsOf(a, chainID) <= EventsOf(b, chainID)
  {
    assert b == a + b[|a|..];
    EventsOfAppend(a, b[|a|..], chainID);
  }

  /**
   * A served query returns, in order and without repeats, a prefix of the logs that match; all of them
   * when the subscription ends with no error and every log decodes, whatever the scheduler did.
   */
  lemma BatchIsPrefix(a: Answer, opts: FilterOpts, to: seq<Address>, chainID: int)
    requires a.Served?
    ensures var logs := GetLogs(a.chain, opts.start, Until(a.chain, opts.end), to);
      && Batch(a, opts, to, chainID).Ok?
      && Batch(a, opts, to, chainID).value <= EventsOf(logs, chainID)
      && (a.subErr.None? && AllDecode(logs) ==> Batch(a, opts, to, chainID).value == EventsOf(logs, chainID))
  {
    hide Drain, GetLogs, EventsOf, Decoded, AllDecode, ToEvents;
    var logs := GetLogs(a.chain, opts.start, Until(a.chain, opts.end), to);
    var s := Opened(a, opts, to);
    DrainYieldsPrefix(s, a.sched, 0);
    assert s.Remaining() == Sent(a, opts, to);
    ToEventsPrefix(chainID, Drain(s, a.sched, 0).0, Decoded(s.Remaining()));
    DecodedEvents(s.Remaining(), chainID);
    EventsOfPrefix(s.Remaining(), logs, chainID);
  }

  /** Position by position, a batch carries over every field of the logs that match. */
  lemma BatchReads(a: Answer, opts: FilterOpts, to: seq<Address>, chainID: int)
    requires a.Served?
    ensures var logs, b := GetLogs(a.chain, opts.start, Until(a.chain, opts.end), to), Batch(a, opts, to, chainID);
      b.Ok? && |b.value| <= |logs| && forall i :: 0 <= i < |b.value| ==> Reads(b.value[i], chainID, logs[i])
  {
    hide Batch, GetLogs, EventsOf;
    var logs := GetLogs(a.chain, opts.start, Until(a.chain, opts.end), to);
    BatchIsPrefix(a, opts, to, chainID);
    EventsOfAt(logs, chainID);
  }

  lemma {:induction false} EventsOfAt(logs: seq<Log>, chainID: int)
    ensures |EventsOf(logs, chainID)| == |logs|
    ensures forall i :: 0 <= i < |logs| ==> Reads(EventsOf(logs, chainID)[i], chainID, logs[i])
  {
    if logs == [] {
    } else {
      EventsOfAt(logs[1..], chainID);
      assert forall i :: 0 < i < |logs| ==> logs[i] == logs[1..][i - 1];
    }
  }

  /** With an intact subscription the batch is complete if and only if every matching log decodes. */
  lemma IntactBatchComplete(a: Answer, opts: FilterOpts, to: seq<Address>, chainID: int)
    requires a.Served? && a.subErr.None?
    ensures var logs := GetLogs(a.chain, opts.start, Until(a.chain, opts.end), to);
      Batch(a, opts, to, chainID) == Ok(EventsOf(logs, chainID)) <==> AllDecode(logs)
  {
    hide Drain, GetLogs, Decoded, AllDecode;
    var logs := GetLogs(a.chain, opts.start, Until(a.chain, opts.end), to);
    var s := Opened(a, opts, to);
    DrainYieldsPrefix(s, a.sched, 0);
    assert s.Remaining() == logs;
    DecodedAll(logs);
    DecodedEvents(logs, chainID);
    EventsOfLength(logs, chainID);
  }

  /** The batch holds every matching log, whatever the scheduler does. */
  ghost predicate AlwaysComplete(a: Answer, opts: FilterOpts, to: seq<Address>, chainID: int)
    requires a.Served?
  {
    forall sched: nat -> Choice :: Batch(a.(sched := sched), opts, to, chainID)
      == Ok(EventsOf(GetLogs(a.chain, opts.start, Until(a.chain, opts.end), to), chainID))
  }

  lemma BatchLength(a: Answer, opts: FilterOpts, to: seq<Address>, chainID: int)
    requires a.Served?
    ensures var b := Batch(a, opts, to, chainID);
      b.Ok? && |b.value| == |Drain(Opened(a, opts, to), a.sched, 0).0|
  {
    hide Drain, GetLogs;
  }

  /** A subscription that ends with an error leaves a schedule on which the batch is too short. */
  lemma FailingBatchFallsShort(a: Answer, opts: FilterOpts, to: seq<Address>, chainID: int)
    requires a.Served? && a.subErr.Some?
    requires GetLogs(a.chain, opts.start, Until(a.chain, opts.end), to) != []
    ensures !AlwaysComplete(a, opts, to, chainID)
  {
    hide Drain, GetLogs, EventsOf, Batch;
    var logs := GetLogs(a.chain, opts.start, Until(a.chain, opts.end), to);
    var s := Opened(a, opts, to);
    var sent := Sent(a, opts, to);
    var n := if |sent| > 0 then |sent| - 1 else 0;
    var short := a.(sched := Impatient(n, |sent| + 1));
    assert Opened(short, opts, to) == s && s.Remaining() == sent;
    if AllDecode(sent) {
      ImpatientYields(s, n, |sent| + 1, 0);
    } else {
      DrainYieldsPrefix(s, short.sched, 0);
      DecodedAll(sent);
    }
    BatchLength(short, opts, to, chainID);
    EventsOfLength(logs, chainID);
    assert Batch(a.(sched := short.sched), opts, to, chainID) != Ok(EventsOf(logs, chainID));
  }

  /**
   * A batch is complete under every schedule exactly when nothing matches, or the subscription ends
   * with no error and every matching log unpacks.
   */
  lemma BatchComplete(a: Answer, opts: FilterOpts, to: seq<Address>, chainID: int)
    requires a.Served?
    ensures var logs := GetLogs(a.chain, opts.start, Until(a.chain, opts.end), to);
      AlwaysComplete(a, opts, to, chainID) <==> logs == [] || (a.subErr.None? && AllDecode(logs))
  {
    hide GetLogs, EventsOf, Batch;
    var logs := GetLogs(a.chain, opts.start, Until(a.chain, opts.end), to);
    if logs == [] {
      forall sched: nat -> Choice
        ensures Batch(a.(sched := sched), opts, to, chainID) == Ok(EventsOf(logs, chainID))
      {
        BatchIsPrefix(a.(sched := sched), opts, to, chainID);
        EventsOfLength(logs, chainID);
      }
    } else if a.subErr.Some? {
      FailingBatchFallsShort(a, opts, to, chainID);
    } else {
      forall sched: nat -> Choice
        ensures Batch(a.(sched := sched), opts, to, chainID) == Ok(EventsOf(logs, chainID)) <==> AllDecode(logs)
      {
        IntactBatchComplete(a.(sched := sched), opts, to, chainID);
      }
      assert a.(sched := a.sched) == a;
    }
  }

  lemma {:induction false} EventsOfLength(logs: seq<Log>, chainID: int)
    ensures |EventsOf(logs, chainID)| == |logs|
  {
    if logs == [] {
    } else {
      EventsOfLength(logs[1..], chainID);
    }
  }

  /******* Chunks of wallets *******/

  function Concat(chunks: seq<seq<Address>>): seq<Address> {
    if chunks == [] then [] else chunks[0] + Concat(chunks[1..])
  }

  /** No query asks for nobody (which would match everybody), none asks for too many, and no wallet is skipped. */
  lemma {:induction false} ChunksPartition(cfg: Config, wallets: seq<Address>, i: nat)
    requires cfg.addressBatchSize > 0 && i <= |wallets|
    ensures Concat(Chunks(cfg, wallets, i)) == wallets[i..]
    ensures forall c :: c in Chunks(cfg, wallets, i) ==> 0 < |c| <= cfg.addressBatchSize
    decreases |wallets| - i
  {
    if i < |wallets| {
      var end := ChunkEnd(cfg, i, |wallets|);
      assert wallets[i..] == wallets[i..end] + wallets[end..];
      if end == |wallets| {
        assert Chunks(cfg, wallets, i + cfg.addressBatchSize) == [];
      } else {
        ChunksPartition(cfg, wallets, end);
      }
    }
  }

  ghost predicate Distinct(wallets: seq<Address>) {
    forall i, k :: 0 <= i < k < |wallets| ==> wallets[i] != wallets[k]
  }

  /** The node serves every query of the call from the same chain, and every subscription ends well. */
  ghost predicate Steady(node: Node, chain: Chain) {
    forall j: int, i: int ::
      var a := node.answer(j, i); a.Served? && a.chain == chain && a.subErr.None?
  }

  /** Parts that fall short of their bounds do not add up to the sum of the bounds. */
  lemma BagsAdd(
    a: multiset<TransferEvent>, b: multiset<TransferEvent>, x: multiset<TransferEvent>, y: multiset<TransferEvent>)
    requires a <= x && b <= y
    ensures a + b <= x + y
    ensures a + b == x + y <==> a == x && b == y
  {
    if a + b == x + y {
      forall e
        ensures a[e] == x[e] && b[e] == y[e]
      {
        assert (a + b)[e] == (x + y)[e];
        assert a[e] <= x[e] && b[e] <= y[e];
      }
    }
  }

  lemma PrefixIsSmaller(a: seq<TransferEvent>, b: seq<TransferEvent>)
    requires a <= b
    ensures multiset(a) <= multiset(b)
    ensures multiset(a) == multiset(b) <==> a == b
  {
    assert b == a + b[|a|..];
    if multiset(a) == multiset(b) {
      assert |multiset(a)| == |a| && |multiset(b)| == |b|;
    }
  }

  /** A batch returns no more than the transfers asked for, and all of them exactly when they all decode. */
  lemma SteadyBatch(node: Node, chain: Chain, chainID: int, opts: FilterOpts, i: nat, to: seq<Address>)
    requires Steady(node, chain) && to != []
    ensures var b, hi := Batch(node.answer(opts.start, i), opts, to, chainID), Until(chain, opts.end);
      && b.Ok?
      && multiset(b.value) <= Bag(chain, opts.start, hi, to, chainID)
      && (multiset(b.value) == Bag(chain, opts.start, hi, to, chainID) <==> MatchingDecode(chain, opts.start, hi, to))
  {
    hide Batch, GetLogs, EventsOf, Bag, MatchingDecode, AllDecode;
    var a, hi := node.answer(opts.start, i), Until(chain, opts.end);
    BatchIsPrefix(a, opts, to, chainID);
    IntactBatchComplete(a, opts, to, chainID);
    GetLogsDecode(chain, opts.start, hi, to);
    GetLogsBag(chain, opts.start, hi, to, chainID);
    PrefixIsSmaller(Batch(a, opts, to, chainID).value, EventsOf(GetLogs(chain, opts.start, hi, to), chainID));
  }

  lemma MatchingDecodeChunks(chain: Chain, lo: nat, hi: nat, a: seq<Address>, b: seq<Address>)
    requires hi <= |chain|
    ensures MatchingDecode(chain, lo, hi, a + b)
      <==> MatchingDecode(chain, lo, hi, a) && MatchingDecode(chain, lo, hi, b)
  {
    assert forall w :: w in a + b <==> w in a || w in b;
  }

  lemma {:induction false} ChunksBag(
    cfg: Config, node: Node, chain: Chain, chainID: int, opts: FilterOpts, wallets: seq<Address>, i: nat)
    requires cfg.addressBatchSize > 0 && i <= |wallets| && Distinct(wallets) && Steady(node, chain)
    ensures var r, hi := ScanChunks(cfg, node, chainID, opts, wallets, i), Until(chain, opts.end);
      && r.Ok?
      && multiset(r.value) <= Bag(chain, opts.start, hi, wallets[i..], chainID)
      && (multiset(r.value) == Bag(chain, opts.start, hi, wallets[i..], chainID)
          <==> MatchingDecode(chain, opts.start, hi, wallets[i..]))
    decreases |wallets| - i
  {
    hide Batch, Bag, Steady, MatchingDecode;
    var lo, hi := opts.start, Until(chain, opts.end);
    if i == |wallets| {
      BlockBagOfNobody(chain, lo, hi, chainID);
      assert wallets[i..] == [];
      NobodyDecodes(chain, lo, hi);
    } else {
      var end, next := ChunkEnd(cfg, i, |wallets|), i + cfg.addressBatchSize;
      var chunk := wallets[i..end];
      SteadyBatch(node, chain, chainID, opts, i, chunk);
      assert wallets[i..] == chunk + wallets[end..];
      BagChunks(chain, lo, hi, chunk, wallets[end..], chainID);
      MatchingDecodeChunks(chain, lo, hi, chunk, wallets[end..]);
      if end == |wallets| {
        BlockBagOfNobody(chain, lo, hi, chainID);
        NobodyDecodes(chain, lo, hi);
        assert wallets[end..] == [];
        assert ScanChunks(cfg, node, chainID, opts, wallets, next) == Ok([]);
      } else {
        ChunksBag(cfg, node, chain, chainID, opts, wallets, end);
      }
      var batch, rest := Batch(node.answer(lo, i), opts, chunk, chainID),
        ScanChunks(cfg, node, chainID, opts, wallets, next);
      BagsAdd(multiset(batch.value), multiset(rest.value),
              Bag(chain, lo, hi, chunk, chainID), Bag(chain, lo, hi, wallets[end..], chainID));
    }
  }

  lemma NobodyDecodes(chain: Chain, lo: nat, hi: nat)
    requires hi <= |chain|
    ensures MatchingDecode(chain, lo, hi, [])
  {}

  /******* Windows of blocks *******/

  lemma {:induction false} IterationsIsCeiling(cfg: Config, j: nat, latest: nat)
    requires cfg.blockBatchSize > 0 && j <= latest
    ensures var k, size := Iterations(cfg, j, latest), cfg.blockBatchSize;
      k * size >= latest - j && (k - 1) * size < latest - j
    decreases latest - j
  {
    var size := cfg.blockBatchSize;
    if j < latest {
      var rest := Iterations(cfg, j + size, latest);
      if j + size < latest {
        IterationsIsCeiling(cfg, j + size, latest);
        assert (rest + 1) * size == rest * size + size;
        assert rest * size == (rest - 1) * size + size;
      } else {
        assert rest == 0;
      }
    }
  }

  /** The transfers in the blocks that two consecutive windows share. */
  function Shared(
    cfg: Config, chain: Chain, j: nat, latest: nat, to: seq<Address>, chainID: int)
    : multiset<TransferEvent>
    requires cfg.blockBatchSize > 0 && latest < |chain|
    decreases latest - j
  {
    var next := j + cfg.blockBatchSize;
    if next >= latest then multiset{}
    else Bag(chain, next, next + 1, to, chainID) + Shared(cfg, chain, next, latest, to, chainID)
  }

  /** All that the windows from block j on can return. */
  function WindowsTotal(cfg: Config, chain: Chain, j: nat, to: seq<Address>, chainID: int): multiset<TransferEvent>
    requires cfg.blockBatchSize > 0 && |chain| > 0
  {
    if j >= |chain| - 1 then multiset{}
    else Bag(chain, j, |chain|, to, chainID) + Shared(cfg, chain, j, |chain| - 1, to, chainID)
  }

  /** One window and the rest, in terms of all that they can return. */
  lemma WindowsTotalStep(cfg: Config, chain: Chain, j: nat, to: seq<Address>, chainID: int)
    requires cfg.blockBatchSize > 0 && |chain| > 0 && j < |chain| - 1
    ensures var next, hi := j + cfg.blockBatchSize, Until(chain, Window(cfg, j, |chain| - 1).end);
      && WindowsTotal(cfg, chain, j, to, chainID)
         == Bag(chain, j, hi, to, chainID) + WindowsTotal(cfg, chain, next, to, chainID)
      && (MatchingDecode(chain, j, |chain|, to)
          <==> MatchingDecode(chain, j, hi, to) && (next < |chain| - 1 ==> MatchingDecode(chain, next, |chain|, to)))
  {
    hide Bag;
    var next := j + cfg.blockBatchSize;
    if next < |chain| - 1 {
      BagSplit(chain, j, next + 1, |chain|, to, chainID);
      BagSplit(chain, next, next + 1, |chain|, to, chainID);
    }
  }

  lemma {:induction false} WindowsBag(
    cfg: Config, node: Node, chain: Chain, chainID: int, j: nat, wallets: seq<Address>)
    requires cfg.addressBatchSize > 0 && cfg.blockBatchSize > 0
    requires |chain| > 0 && Distinct(wallets) && Steady(node, chain)
    ensures var r := ScanWindows(cfg, node, chainID, j, |chain| - 1, wallets);
      && r.Ok?
      && multiset(r.value) <= WindowsTotal(cfg, chain, j, wallets, chainID)
      && (multiset(r.value) == WindowsTotal(cfg, chain, j, wallets, chainID)
          <==> j >= |chain| - 1 || MatchingDecode(chain, j, |chain|, wallets))
    decreases |chain| - j
  {
    hide Bag, Steady, Distinct, ScanChunks, MatchingDecode, WindowsTotal;
    var latest := |chain| - 1;
    if j >= latest {
      NoWindowsTotal(cfg, chain, j, wallets, chainID);
    } else {
      var next, opts := j + cfg.blockBatchSize, Window(cfg, j, latest);
      ChunksBag(cfg, node, chain, chainID, opts, wallets, 0);
      assert wallets[0..] == wallets;
      WindowsBag(cfg, node, chain, chainID, next, wallets);
      WindowsTotalStep(cfg, chain, j, wallets, chainID);
      var window := ScanChunks(cfg, node, chainID, opts, wallets, 0);
      var rest := ScanWindows(cfg, node, chainID, next, latest, wallets);
      BagsAdd(multiset(window.value), multiset(rest.value), Bag(chain, j, Until(chain, opts.end), wallets, chainID),
              WindowsTotal(cfg, chain, next, wallets, chainID));
    }
  }

  lemma NoWindowsTotal(cfg: Config, chain: Chain, j: nat, to: seq<Address>, chainID: int)
    requires cfg.blockBatchSize > 0 && |chain| > 0 && j >= |chain| - 1
    ensures WindowsTotal(cfg, chain, j, to, chainID) == multiset{}
  {}

  /******* Counting one transfer *******/

  lemma {:induction false} BagElsewhere(
    chain: Chain, lo: nat, hi: nat, to: seq<Address>, chainID: int, e: TransferEvent)
    requires hi <= |chain| && WellFormed(chain)
    requires !(lo <= e.blockNumber < hi)
    ensures e !in Bag(chain, lo, hi, to, chainID)
    decreases hi - lo
  {
    hide BlockBag;
    if lo >= hi {
    } else {
      BlockBagNumber(chain[lo], to, chainID, lo);
      BagElsewhere(chain, lo + 1, hi, to, chainID, e);
    }
  }

  lemma {:induction false} BlockBagNumber(block: seq<Log>, to: seq<Address>, chainID: int, b: nat)
    requires forall i :: 0 <= i < |block| ==> block[i].blockNumber == b
    ensures forall e :: e in BlockBag(block, to, chainID) ==> e.blockNumber == b
  {
    if block == [] {
    } else {
      BlockBagNumber(block[1..], to, chainID, b);
    }
  }

  lemma BagHere(chain: Chain, lo: nat, hi: nat, to: seq<Address>, chainID: int, e: TransferEvent)
    requires hi <= |chain| && WellFormed(chain) && lo <= e.blockNumber < hi
    ensures Bag(chain, lo, hi, to, chainID)[e] == Bag(chain, e.blockNumber, e.blockNumber + 1, to, chainID)[e]
  {
    hide Bag, WellFormed;
    var b: nat := e.blockNumber;
    BagSplit(chain, lo, b, hi, to, chainID);
    BagSplit(chain, b, b + 1, hi, to, chainID);
    BagElsewhere(chain, lo, b, to, chainID, e);
    BagElsewhere(chain, b + 1, hi, to, chainID, e);
  }

  /** Block b starts a window other than the first. */
  predicate StartsLaterWindow(cfg: Config, first: nat, latest: nat, b: int)
    requires cfg.blockBatchSize > 0
  {
    first < b < latest && (b - first) % cfg.blockBatchSize == 0
  }

  lemma ModuloStep(n: int, size: int)
    requires size > 0
    ensures (n + size) % size == n % size
  {
    var d := (n + size) / size - n / size - 1;
    assert n == n / size * size + n % size;
    assert n + size == (n + size) / size * size + (n + size) % size;
    MultipleIsFar(d, size);
    assert d * size == n % size - (n + size) % size;
  }

  lemma MultipleIsFar(d: int, size: int)
    requires size > 0
    ensures d >= 1 ==> d * size >= size
    ensures d <= -1 ==> d * size <= -size
  {
    assert d * size == (d - 1) * size + size == (d + 1) * size - size;
    assert d >= 1 ==> (d - 1) * size >= 0;
    assert d <= -1 ==> (d + 1) * size <= 0;
  }

  lemma ModuloSmall(n: int, size: int)
    requires 0 < n < size
    ensures n % size == n
  {}

  lemma {:induction false} SharedCount(
    cfg: Config, chain: Chain, j: nat, latest: nat, to: seq<Address>, chainID: int, e: TransferEvent)
    requires cfg.blockBatchSize > 0 && latest < |chain| && WellFormed(chain)
    ensures Shared(cfg, chain, j, latest, to, chainID)[e] ==
      if StartsLaterWindow(cfg, j, latest, e.blockNumber)
      then Bag(chain, e.blockNumber, e.blockNumber + 1, to, chainID)[e] else 0
    decreases latest - j
  {
    hide Bag, WellFormed;
    var size := cfg.blockBatchSize;
    var next, b := j + size, e.blockNumber;
    if next < latest {
      SharedCount(cfg, chain, next, latest, to, chainID, e);
      ModuloStep(b - next, size);
      if b == next {
      } else {
        BagElsewhere(chain, next, next + 1, to, chainID, e);
        if j < b < next {
          ModuloSmall(b - j, size);
        }
      }
    } else if j < b < latest {
      ModuloSmall(b - j, size);
    }
  }

  ghost predicate Reachable(node: Node) {
    node.dial.None? && node.contract.None? && node.bind.None?
  }

  /** The first block a scan queries; a start past the head queries nothing. */
  function FirstScanned(cfg: Config, start: nat, latest: nat): nat {
    if start > latest then start else Clamp(cfg, start, latest)
  }

  /** How often a scan should return an event: once when it is a matching transfer in the scanned range,
      and once more when its block starts a later window. */
  function Multiplicity(
    cfg: Config, chain: Chain, first: nat, wallets: seq<Address>, chainID: int, e: TransferEvent)
    : nat
    requires cfg.blockBatchSize > 0 && |chain| > 0
  {
    var latest := |chain| - 1;
    if first >= latest || !(first <= e.blockNumber <= latest) then 0
    else (if StartsLaterWindow(cfg, first, latest, e.blockNumber) then 2 else 1)
         * BlockBag(chain[e.blockNumber], wallets, chainID)[e]
  }

  lemma TotalIsMultiplicity(
    cfg: Config, chain: Chain, first: nat, wallets: seq<Address>, chainID: int, e: TransferEvent)
    requires cfg.blockBatchSize > 0 && |chain| > 0 && WellFormed(chain)
    ensures WindowsTotal(cfg, chain, first, wallets, chainID)[e] == Multiplicity(cfg, chain, first, wallets, chainID, e)
  {
    hide BlockBag, Shared, WellFormed;
    var latest := |chain| - 1;
    if first < latest {
      SharedCount(cfg, chain, first, latest, wallets, chainID, e);
      if first <= e.blockNumber <= latest {
        BagHere(chain, first, latest + 1, wallets, chainID, e);
        assert Bag(chain, e.blockNumber, e.blockNumber + 1, wallets, chainID)
            == BlockBag(chain[e.blockNumber], wallets, chainID);
      } else {
        BagElsewhere(chain, first, latest + 1, wallets, chainID, e);
      }
    }
  }

  /**
   * With the chain fixed during the call, an endpoint scan succeeds and never returns an event more often
   * than it should: once in the range from the clamped start to the head, twice when its block starts a
   * later window. It returns all events as often as it should exactly when every matching log of that
   * range unpacks.
   */
  lemma EndpointExact(cfg: Config, node: Node, chain: Chain, chainID: int, start: nat, wallets: seq<Address>)
    requires cfg.addressBatchSize > 0 && cfg.blockBatchSize > 0 && Reachable(node)
    requires |chain| > 0 && WellFormed(chain) && Steady(node, chain) && Distinct(wallets)
    ensures var latest := |chain| - 1;
      var r, first := ScanEndpoint(cfg, node, chainID, start, latest, wallets), FirstScanned(cfg, start, latest);
      && r.Ok?
      && (forall e :: multiset(r.value)[e] <= Multiplicity(cfg, chain, first, wallets, chainID, e))
      && ((forall e :: multiset(r.value)[e] == Multiplicity(cfg, chain, first, wallets, chainID, e))
          <==> first >= latest || MatchingDecode(chain, first, latest + 1, wallets))
  {
    hide ScanWindows, WindowsTotal, Multiplicity, Clamp, WellFormed, Steady, Distinct, MatchingDecode;
    var latest := |chain| - 1;
    var r, first := ScanEndpoint(cfg, node, chainID, start, latest, wallets), FirstScanned(cfg, start, latest);
    var total := WindowsTotal(cfg, chain, first, wallets, chainID);
    WindowsBag(cfg, node, chain, chainID, first, wallets);
    if start > latest {
      NoWindowsTotal(cfg, chain, first, wallets, chainID);
    }
    forall e
      ensures total[e] == Multiplicity(cfg, chain, first, wallets, chainID, e)
    {
      TotalIsMultiplicity(cfg, chain, first, wallets, chainID, e);
    }
    if forall e :: multiset(r.value)[e] == Multiplicity(cfg, chain, first, wallets, chainID, e) {
      assert forall e :: multiset(r.value)[e] == total[e];
      assert multiset(r.value) == total;
    }
  }
}
