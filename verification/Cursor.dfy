/** The events service: one cursor per satellite and chain (`blockchain/events/events.go`). */
module Cursor {
  import opened Common
  import opened Scan

  datatype Endpoint = Endpoint(name: string, url: string, contract: string, chainID: int)

  /** The head block an endpoint reports. */
  datatype Head = Head(hash: Hash, number: nat, timestamp: int)

  /** What one endpoint does during one call. */
  datatype View = View(head: Result<Head, Error>, node: Node)

  datatype Scanned = Scanned(blocks: map<int, Header>, events: seq<TransferEvent>)

  type Cursors = map<string, map<int, int>>

  ghost predicate ValidConfig(cfg: Config) {
    cfg.addressBatchSize > 0 && cfg.blockBatchSize > 0
  }

  /******* What a call computes *******/

  /** The caller's start blocks, raised to the cursor. */
  function Raised(from: map<int, int>, cursor: map<int, int>): map<int, int> {
    map chain | chain in from.Keys + cursor.Keys && (chain in from || GetOrZero(from, chain) < cursor[chain])
      :: if chain in cursor && GetOrZero(from, chain) < cursor[chain] then cursor[chain] else from[chain]
  }

  /** As far behind the head as the buffer, but never below block 0: the greater of the two. */
  function CursorAt(cfg: Config, head: int): (r: int)
    ensures r >= 0 && r >= head - cfg.chainReorgBuffer && (r == 0 || r == head - cfg.chainReorgBuffer)
  {
    if head > cfg.chainReorgBuffer then head - cfg.chainReorgBuffer else 0
  }

  function Advanced(cfg: Config, cursor: map<int, int>, blocks: map<int, Header>): map<int, int> {
    cursor + map chain | chain in blocks :: CursorAt(cfg, blocks[chain].number)
  }

  function CursorOf(cursors: Cursors, satellite: string): map<int, int> {
    if satellite in cursors then cursors[satellite] else map[]
  }

  function HeaderOf(chainID: int, head: Head): Header {
    Header(chainID, head.hash, head.number, head.timestamp)
  }

  /** The scan of the first n endpoints. */
  function ScanAll(
    cfg: Config, endpoints: seq<Endpoint>, views: seq<View>, wallets: seq<Address>, from: map<int, int>, n: nat)
    : Result<Scanned, Error>
    requires ValidConfig(cfg) && n <= |endpoints| == |views|
  {
    if n == 0 then Ok(Scanned(map[], []))
    else
      var before := ScanAll(cfg, endpoints, views, wallets, from, n - 1);
      if before.Err? then before
      else ScanOneMore(cfg, endpoints[n - 1].chainID, views[n - 1], wallets, from, before.value)
  }

  function ScanOneMore(
    cfg: Config, chainID: int, view: View, wallets: seq<Address>, from: map<int, int>, before: Scanned)
    : Result<Scanned, Error>
    requires ValidConfig(cfg)
  {
    match view.head
    case Err(e) => Err(e)
    case Ok(head) =>
      match ScanEndpoint(cfg, view.node, chainID, ToUint64(GetOrZero(from, chainID)), head.number, wallets)
      case Err(e) => Err(e)
      case Ok(events) => Ok(Scanned(before.blocks[chainID := HeaderOf(chainID, head)], before.events + events))
  }

  /** One call of GetForSatellite; `wallets` is the satellite's list, in the order in which the map yields it. */
  datatype Call = Call(
    satellite: string, endpoints: seq<Endpoint>, views: seq<View>, wallets: Result<seq<Address>, Error>,
    from: map<int, int>)

  ghost predicate ValidCall(call: Call) {
    |call.endpoints| == |call.views|
  }

  function Outcome(cfg: Config, cursors: Cursors, call: Call): Result<Scanned, Error>
    requires ValidConfig(cfg) && ValidCall(call)
  {
    if call.wallets.Err? then Err(call.wallets.error)
    else ScanAll(cfg, call.endpoints, call.views, call.wallets.value,
                 Raised(call.from, CursorOf(cursors, call.satellite)), |call.endpoints|)
  }

  function After(cfg: Config, cursors: Cursors, call: Call): Cursors
    requires ValidConfig(cfg) && ValidCall(call)
  {
    match Outcome(cfg, cursors, call)
    case Err(_) => cursors
    case Ok(s) =>
      if s.blocks == map[] then cursors
      else cursors[call.satellite := Advanced(cfg, CursorOf(cursors, call.satellite), s.blocks)]
  }

  /******* The service *******/

  /** The map of start blocks that the caller passes and sees changed. */
  class FromBlocks {
    var blocks: map<int, int>

    constructor (blocks: map<int, int>)
      ensures this.blocks == blocks
    {
      this.blocks := blocks;
    }
  }

  class EventsService {
    const config: Config
    var lastScannedBlock: Cursors

    constructor (config: Config)
      ensures this.config == config && lastScannedBlock == map[]
    {
      this.config := config;
      lastScannedBlock := map[];
    }

    method GetForSatellite(
      endpoints: seq<Endpoint>, views: seq<View>, satellite: string, wallets: Result<seq<Address>, Error>,
      from: FromBlocks)
      returns (r: Result<Scanned, Error>)
      requires ValidConfig(config) && |endpoints| == |views|
      modifies this, from
      ensures var call := Call(satellite, endpoints, views, wallets, old(from.blocks));
        && r == Outcome(config, old(lastScannedBlock), call)
        && lastScannedBlock == After(config, old(lastScannedBlock), call)
      ensures from.blocks == Raised(old(from.blocks), CursorOf(old(lastScannedBlock), satellite))
    {
      hide ScanAll, Raised, Advanced;
      RaiseToCursor(satellite, from);
      if wallets.Err? {
        return Err(wallets.error);
      }
      r := GetEvents(endpoints, views, wallets.value, from.blocks);
      if r.Ok? {
        AdvanceCursor(satellite, r.value.blocks);
      }
    }

    method RaiseToCursor(satellite: string, from: FromBlocks)
      modifies from
      ensures from.blocks == Raised(old(from.blocks), CursorOf(lastScannedBlock, satellite))
    {
      hide Raised;
      var lastScan := CursorOf(lastScannedBlock, satellite);
      RaiseNothing(from.blocks, lastScan);
      var todo: set<int> := lastScan.Keys;
      while todo != {}
        invariant todo <= lastScan.Keys
        invariant from.blocks == Raised(old(from.blocks), lastScan - todo)
      {
        var chain := AnyMember(todo);
        RaiseOne(old(from.blocks), lastScan, todo, chain);
        if GetOrZero(from.blocks, chain) < lastScan[chain] {
          from.blocks := from.blocks[chain := lastScan[chain]];
        }
        todo := todo - {chain};
      }
      assert lastScan - {} == lastScan;
    }

    method SetCursor(satellite: string, chain: int, number: int)
      requires satellite in lastScannedBlock
      modifies this
      ensures lastScannedBlock == old(lastScannedBlock)
        [satellite := old(lastScannedBlock)[satellite][chain := CursorAt(config, number)]]
    {
      if number > config.chainReorgBuffer {
        lastScannedBlock := lastScannedBlock
          [satellite := lastScannedBlock[satellite][chain := number - config.chainReorgBuffer]];
      } else {
        lastScannedBlock := lastScannedBlock[satellite := lastScannedBlock[satellite][chain := 0]];
      }
    }

    /** Each scanned chain gets a cursor behind its head; all other chains and satellites keep theirs. */
    method AdvanceCursor(satellite: string, blocks: map<int, Header>)
      modifies this
      ensures forall c :: c in blocks ==>
        && satellite in lastScannedBlock && c in lastScannedBlock[satellite]
        && var behind := blocks[c].number - config.chainReorgBuffer;
           lastScannedBlock[satellite][c] == if behind > 0 then behind else 0
      ensures forall c :: c !in blocks ==>
        (c in CursorOf(lastScannedBlock, satellite) <==> c in CursorOf(old(lastScannedBlock), satellite))
        && GetOrZero(CursorOf(lastScannedBlock, satellite), c)
           == GetOrZero(CursorOf(old(lastScannedBlock), satellite), c)
      ensures forall s :: s != satellite ==> CursorOf(lastScannedBlock, s) == CursorOf(old(lastScannedBlock), s)
      ensures lastScannedBlock == if blocks == map[] then old(lastScannedBlock)
        else old(lastScannedBlock)[satellite := Advanced(config, CursorOf(old(lastScannedBlock), satellite), blocks)]
    {
      AdvancedMeans(config, CursorOf(lastScannedBlock, satellite), blocks);
      hide Advanced, CursorAt;
      var todo: set<int> := blocks.Keys;
      while todo != {}
        invariant todo <= blocks.Keys
        invariant todo == blocks.Keys ==> lastScannedBlock == old(lastScannedBlock)
        invariant todo != blocks.Keys ==> lastScannedBlock == old(lastScannedBlock)
                    [satellite := Advanced(config, CursorOf(old(lastScannedBlock), satellite), blocks - todo)]
      {
        var chain := AnyMember(todo);
        AdvanceOne(config, CursorOf(old(lastScannedBlock), satellite), blocks, todo, chain);
        if satellite !in lastScannedBlock {
          lastScannedBlock := lastScannedBlock[satellite := map[]];
        }
        SetCursor(satellite, chain, blocks[chain].number);
        todo := todo - {chain};
      }
      assert blocks - {} == blocks;
    }

    method GetEvents(endpoints: seq<Endpoint>, views: seq<View>, wallets: seq<Address>, from: map<int, int>)
      returns (r: Result<Scanned, Error>)
      requires ValidConfig(config) && |endpoints| == |views|
      ensures r == ScanAll(config, endpoints, views, wallets, from, |endpoints|)
    {
      hide ScanEndpoint;
      var scannedBlocks: map<int, Header> := map[];
      var newEvents := [];
      for i := 0 to |endpoints|
        invariant ScanAll(config, endpoints, views, wallets, from, i) == Ok(Scanned(scannedBlocks, newEvents))
      {
        var chainID := endpoints[i].chainID;
        if views[i].head.Err? {
          ErrStops(config, endpoints, views, wallets, from, i + 1);
          return Err(views[i].head.error);
        }
        var head := views[i].head.value;
        var events := GetEventsForEndpoint(
          config, views[i].node, chainID, ToUint64(GetOrZero(from, chainID)), head.number, wallets);
        if events.Err? {
          ErrStops(config, endpoints, views, wallets, from, i + 1);
          return Err(events.error);
        }
        scannedBlocks := scannedBlocks[chainID := HeaderOf(chainID, head)];
        newEvents := newEvents + events.value;
      }
      return Ok(Scanned(scannedBlocks, newEvents));
    }
  }

  lemma RaiseNothing(from: map<int, int>, cursor: map<int, int>)
    ensures Raised(from, cursor - cursor.Keys) == from
  {}

  lemma RaiseOne(from: map<int, int>, cursor: map<int, int>, todo: set<int>, chain: int)
    requires chain in todo && todo <= cursor.Keys
    ensures var before, after := Raised(from, cursor - todo), Raised(from, cursor - (todo - {chain}));
      after == if GetOrZero(before, chain) < cursor[chain] then before[chain := cursor[chain]] else before
  {}

  lemma AdvancedMeans(cfg: Config, cursor: map<int, int>, blocks: map<int, Header>)
    ensures var after := Advanced(cfg, cursor, blocks);
      && after.Keys == cursor.Keys + blocks.Keys
      && (forall c :: c in blocks ==>
            var behind := blocks[c].number - cfg.chainReorgBuffer;
            after[c] == if behind > 0 then behind else 0)
      && (forall c :: c in cursor && c !in blocks ==> after[c] == cursor[c])
  {}

  /** A start block ends up at the greater of what the caller asks for and the cursor, a missing one counting as 0. */
  lemma RaisedMeans(from: map<int, int>, cursor: map<int, int>, c: int)
    ensures var asked, raised := GetOrZero(from, c), GetOrZero(Raised(from, cursor), c);
      && (c !in cursor ==> raised == asked)
      && (c in cursor ==> raised >= asked && raised >= cursor[c] && (raised == asked || raised == cursor[c]))
  {}

  lemma AdvanceOne(cfg: Config, cursor: map<int, int>, blocks: map<int, Header>, todo: set<int>, chain: int)
    requires chain in todo && todo <= blocks.Keys
    ensures Advanced(cfg, cursor, blocks - (todo - {chain}))
         == Advanced(cfg, cursor, blocks - todo)[chain := CursorAt(cfg, blocks[chain].number)]
    ensures todo == blocks.Keys ==> Advanced(cfg, cursor, blocks - todo) == cursor
  {}

  lemma {:induction false} ErrStops(
    cfg: Config, endpoints: seq<Endpoint>, views: seq<View>, wallets: seq<Address>, from: map<int, int>, n: nat)
    requires ValidConfig(cfg) && n <= |endpoints| == |views|
    requires ScanAll(cfg, endpoints, views, wallets, from, n).Err?
    ensures ScanAll(cfg, endpoints, views, wallets, from, |endpoints|)
       == ScanAll(cfg, endpoints, views, wallets, from, n)
    decreases |endpoints| - n
  {
    if n >= |endpoints| {
    } else {
      ErrStops(cfg, endpoints, views, wallets, from, n + 1);
    }
  }
}
