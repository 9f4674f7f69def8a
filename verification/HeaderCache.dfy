/** The block header cache (`blockchain/headers.go`) over its table (`storjscandb/headers.go`). */
module HeaderCache {
  import opened Common

  const SECOND: int := 1_000_000_000

  datatype HeaderError = NoHeader | InvalidChain | Conflict | Database(cause: Error) | Client(cause: Error)

  /** A header as a node reports it, with its time in seconds since 1970, read as a signed number. */
  datatype EthHeader = EthHeader(number: int, time: int)

  datatype Key = Key(chainID: int, hash: Hash)

  datatype Row = Row(number: int, timestamp: int)

  type Rows = map<Key, Row>

  function FromRow(key: Key, row: Row): Header {
    Header(key.chainID, key.hash, row.number, row.timestamp)
  }

  function ToRow(h: EthHeader): Row {
    Row(h.number, EPOCH + h.time * SECOND)
  }

  class HeadersDB {
    var rows: Rows

    constructor ()
      ensures rows == map[]
    {
      rows := map[];
    }

    method Insert(fault: Option<Error>, header: Header) returns (err: Option<HeaderError>)
      modifies this
      ensures (err, rows) == InsertStep(old(rows), fault, header)
    {
      if header.chainID == 0 {
        return Some(InvalidChain);
      }
      if fault.Some? {
        return Some(Database(fault.value));
      }
      var key := Key(header.chainID, header.hash);
      if key in rows {
        return Some(Conflict);
      }
      rows := rows[key := Row(header.number, header.timestamp)];
      return None;
    }

    method Delete(fault: Option<Error>, chainID: int, hash: Hash) returns (err: Option<HeaderError>)
      modifies this
      ensures rows == if err.None? then old(rows) - {Key(chainID, hash)} else old(rows)
      ensures err == if chainID == 0 then Some(InvalidChain)
                     else if fault.Some? then Some(Database(fault.value))
                     else if Key(chainID, hash) !in old(rows) then Some(NoHeader) else None
    {
      if chainID == 0 {
        return Some(InvalidChain);
      }
      if fault.Some? {
        return Some(Database(fault.value));
      }
      var deleted := Key(chainID, hash) in rows;
      rows := rows - {Key(chainID, hash)};
      if !deleted {
        return Some(NoHeader);
      }
      return None;
    }

    method DeleteBefore(fault: Option<Error>, before: int) returns (err: Option<HeaderError>)
      modifies this
      ensures err == if fault.Some? then Some(Database(fault.value)) else None
      ensures rows == if err.None? then RowsFrom(old(rows), before) else old(rows)
    {
      if fault.Some? {
        return Some(Database(fault.value));
      }
      rows := RowsFrom(rows, before);
      return None;
    }

    method Get(fault: Option<Error>, chainID: int, hash: Hash) returns (r: Result<Header, HeaderError>)
      ensures r == Lookup(rows, fault, chainID, hash)
    {
      if chainID == 0 {
        return Err(InvalidChain);
      }
      if fault.Some? {
        return Err(Database(fault.value));
      }
      if Key(chainID, hash) !in rows {
        return Err(NoHeader);
      }
      return Ok(FromRow(Key(chainID, hash), rows[Key(chainID, hash)]));
    }
  }

  function RowsFrom(rows: Rows, before: int): Rows {
    map key | key in rows && rows[key].timestamp >= before :: rows[key]
  }

  function Lookup(rows: Rows, fault: Option<Error>, chainID: int, hash: Hash): Result<Header, HeaderError> {
    if chainID == 0 then Err(InvalidChain)
    else if fault.Some? then Err(Database(fault.value))
    else if Key(chainID, hash) !in rows then Err(NoHeader)
    else Ok(FromRow(Key(chainID, hash), rows[Key(chainID, hash)]))
  }

  function InsertStep(rows: Rows, fault: Option<Error>, header: Header): (Option<HeaderError>, Rows) {
    var key := Key(header.chainID, header.hash);
    if header.chainID == 0 then (Some(InvalidChain), rows)
    else if fault.Some? then (Some(Database(fault.value)), rows)
    else if key in rows then (Some(Conflict), rows)
    else (None, rows[key := Row(header.number, header.timestamp)])
  }

  /** What the outside does during one Get: database faults, and the node's answer for the hash. */
  datatype World = World(readFault: Option<Error>, writeFault: Option<Error>, answer: Result<EthHeader, Error>)

  function GetStep(rows: Rows, chainID: int, hash: Hash, world: World): (Result<Header, HeaderError>, Rows) {
    var found := Lookup(rows, world.readFault, chainID, hash);
    if found.Ok? || found.error != NoHeader then (found, rows)
    else if world.answer.Err? then (Err(Client(world.answer.error)), rows)
    else
      var header := FromRow(Key(chainID, hash), ToRow(world.answer.value));
      var (err, rows') := InsertStep(rows, world.writeFault, header);
      (if err.Some? then Err(err.value) else Ok(header), rows')
  }

  class HeadersCache {
    const db: HeadersDB

    constructor (db: HeadersDB)
      ensures this.db == db
    {
      this.db := db;
    }

    /** The hash kept is the one asked for, not one computed from the node's header. */
    method Get(chainID: int, hash: Hash, world: World) returns (r: Result<Header, HeaderError>)
      modifies db
      ensures (r, db.rows) == GetStep(old(db.rows), chainID, hash, world)
    {
      r := db.Get(world.readFault, chainID, hash);
      if r.Ok? || r.error != NoHeader {
        return;
      }
      if world.answer.Err? {
        return Err(Client(world.answer.error));
      }
      var header := Header(chainID, hash, world.answer.value.number, EPOCH + world.answer.value.time * SECOND);
      var err := db.Insert(world.writeFault, header);
      if err.Some? {
        return Err(err.value);
      }
      return Ok(header);
    }
  }

  /******* Runs *******/

  /** The headers that exist, on all chains: a hash stands for one header for ever. */
  type Truth = Key -> Option<EthHeader>

  const UNKNOWN_HEADER: Error := "not found"

  /** A reachable node reports the header, or that there is none. */
  function Fetch(truth: Truth, key: Key): Result<EthHeader, Error> {
    if truth(key).Some? then Ok(truth(key).value) else Err(UNKNOWN_HEADER)
  }

  /** The uncached answer: the header as its chain has it, under the key asked for, dated in nanoseconds. */
  function Uncached(truth: Truth, key: Key): Result<Header, HeaderError> {
    if truth(key).None? then Err(Client(UNKNOWN_HEADER))
    else
      var h := truth(key).value;
      Ok(Header(key.chainID, key.hash, h.number, EPOCH + h.time * 1_000_000_000))
  }

  ghost predicate AgreesWith(rows: Rows, truth: Truth) {
    forall key :: key in rows ==> key.chainID != 0 && truth(key).Some? && rows[key] == ToRow(truth(key).value)
  }

  /** Faults of the database may hit any operation; a question asks a reachable node. */
  datatype Op =
    | Ask(key: Key, readFault: Option<Error>, writeFault: Option<Error>)
    | Remove(key: Key)
    | RemoveBefore(before: int)

  ghost function After(rows: Rows, truth: Truth, op: Op): Rows {
    match op
    case Ask(key, rf, wf) => GetStep(rows, key.chainID, key.hash, World(rf, wf, Fetch(truth, key))).1
    case Remove(key) => rows - {key}
    case RemoveBefore(before) => RowsFrom(rows, before)
  }

  ghost function RowsAfter(truth: Truth, ops: seq<Op>): Rows {
    if ops == [] then map[] else After(RowsAfter(truth, ops[..|ops| - 1]), truth, ops[|ops| - 1])
  }

  lemma {:induction false} RowsAgree(truth: Truth, ops: seq<Op>)
    ensures AgreesWith(RowsAfter(truth, ops), truth)
  {
    if ops == [] {
    } else {
      RowsAgree(truth, ops[..|ops| - 1]);
    }
  }

  /** After any run, a fault-free Get answers what an uncached one would, and its insert never conflicts. */
  lemma CacheIsTransparent(truth: Truth, ops: seq<Op>, key: Key)
    requires key.chainID != 0
    ensures GetStep(RowsAfter(truth, ops), key.chainID, key.hash, World(None, None, Fetch(truth, key))).0
       == Uncached(truth, key)
  {
    RowsAgree(truth, ops);
    assert Key(key.chainID, key.hash) == key;
  }

  /** With faults, a Get is either that answer or the fault; it never returns a wrong header or a conflict. */
  lemma CacheIsSafe(truth: Truth, ops: seq<Op>, key: Key, rf: Option<Error>, wf: Option<Error>)
    ensures var r := GetStep(RowsAfter(truth, ops), key.chainID, key.hash, World(rf, wf, Fetch(truth, key))).0;
      || (key.chainID != 0 && r == Uncached(truth, key))
      || (r.Err? && (r.error == InvalidChain <==> key.chainID == 0) && (r.error.InvalidChain? || r.error.Database?))
  {
    RowsAgree(truth, ops);
    assert Key(key.chainID, key.hash) == key;
  }
}
