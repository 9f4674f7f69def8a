/** The wallets table and the operations on it (`storjscandb/wallets.go`). */
module Wallets {
  import opened Common

  datatype Row = Row(address: seq<byte>, claimed: Option<int>, satellite: string, info: Option<string>)

  /** Rows by id; ids are drawn from a sequence, also when the insert is then ignored. */
  datatype Table = Table(rows: map<nat, Row>, next: nat)

  const EMPTY_TABLE := Table(map[], 0)

  datatype Entry = Entry(address: Address, info: string)

  datatype Wallet = Wallet(address: Address, claimed: Option<int>, satellite: string, info: string)

  datatype Stats = Stats(total: int, claimed: int, unclaimed: int)

  const NO_AVAILABLE_WALLETS: Error := "no unclaimed wallets found"
  const ADDRESS_LENGTH_ERROR: Error := "Address must be 20 bytes in length"

  /** Unique addresses of 20 bytes, and info that is never null. */
  ghost predicate Valid(t: Table) {
    && (forall id :: id in t.rows ==> id < t.next && |t.rows[id].address| == ADDRESS_LENGTH && t.rows[id].info.Some?)
    && (forall i, k :: i in t.rows && k in t.rows && t.rows[i].address == t.rows[k].address ==> i == k)
  }

  /******* Statements as functions of the table *******/

  predicate Taken(t: Table, address: seq<byte>) {
    exists id :: id in t.rows && t.rows[id].address == address
  }

  /** INSERT ... ON CONFLICT DO NOTHING. */
  function InsertRow(t: Table, satellite: string, address: Address, info: string): Table {
    Table(if Taken(t, address) then t.rows else t.rows[t.next := Row(address, None, satellite, Some(info))], t.next + 1)
  }

  function InsertAll(t: Table, satellite: string, entries: seq<Entry>): Table {
    if entries == [] then t
    else
      var n := |entries| - 1;
      InsertRow(InsertAll(t, satellite, entries[..n]), satellite, entries[n].address, entries[n].info)
  }

  function Unclaimed(t: Table, satellite: string): set<nat> {
    set id | id in t.rows && t.rows[id].claimed.None? && t.rows[id].satellite == satellite
  }

  /** The claimed rows of one satellite, or of all. */
  function ClaimedRows(t: Table, satellite: Option<string>): set<nat> {
    set id | id in t.rows && t.rows[id].claimed.Some? && (satellite.Some? ==> t.rows[id].satellite == satellite.value)
  }

  /** UPDATE ... SET claimed WHERE id: it does not ask whether the row is still unclaimed. */
  function ClaimRow(t: Table, id: nat, now: int): Table
    requires id in t.rows
  {
    t.(rows := t.rows[id := t.rows[id].(claimed := Some(now))])
  }

  function AddressesOf(t: Table, ids: set<nat>): set<seq<byte>>
    requires ids <= t.rows.Keys
  {
    set id | id in ids :: t.rows[id].address
  }

  lemma InsertKeepsValid(t: Table, satellite: string, address: Address, info: string)
    requires Valid(t)
    ensures Valid(InsertRow(t, satellite, address, info))
  {}

  lemma {:induction false} InsertAllKeepsValid(t: Table, satellite: string, entries: seq<Entry>)
    requires Valid(t)
    ensures Valid(InsertAll(t, satellite, entries))
  {
    if entries == [] {
    } else {
      var n := |entries| - 1;
      InsertAllKeepsValid(t, satellite, entries[..n]);
      InsertKeepsValid(InsertAll(t, satellite, entries[..n]), satellite, entries[n].address, entries[n].info);
    }
  }

  lemma ClaimKeepsValid(t: Table, id: nat, now: int)
    requires Valid(t) && id in t.rows
    ensures Valid(ClaimRow(t, id, now))
  {}

  /******* What a batch does to each address *******/

  ghost function Lookup(t: Table, address: seq<byte>): Option<Row> {
    if Taken(t, address) then
      var id :| id in t.rows && t.rows[id].address == address;
      Some(t.rows[id])
    else None
  }

  function FirstEntry(entries: seq<Entry>, address: seq<byte>, satellite: string): Option<Row> {
    if entries == [] then None
    else if entries[0].address == address then Some(Row(address, None, satellite, Some(entries[0].info)))
    else FirstEntry(entries[1..], address, satellite)
  }

  lemma {:induction false} FirstEntryAppend(es: seq<Entry>, e: Entry, address: seq<byte>, satellite: string)
    ensures FirstEntry(es + [e], address, satellite) ==
      if FirstEntry(es, address, satellite).Some? then FirstEntry(es, address, satellite)
      else FirstEntry([e], address, satellite)
  {
    if es == [] {
      assert es + [e] == [e];
    } else {
      assert (es + [e])[1..] == es[1..] + [e];
      FirstEntryAppend(es[1..], e, address, satellite);
    }
  }

  lemma InsertLookup(t: Table, satellite: string, e: Entry, address: seq<byte>)
    requires Valid(t)
    ensures Lookup(InsertRow(t, satellite, e.address, e.info), address) ==
      if Lookup(t, address).Some? then Lookup(t, address) else FirstEntry([e], address, satellite)
  {
    hide InsertRow, Lookup;
    var t' := InsertRow(t, satellite, e.address, e.info);
    InsertKeepsValid(t, satellite, e.address, e.info);
    InsertPlaces(t, satellite, e);
    if Taken(t, address) {
      var id :| id in t.rows && t.rows[id].address == address;
      LookupRow(t, id);
      LookupRow(t', id);
    } else if e.address == address {
      LookupRow(t', t.next);
    }
    LookupNone(t, address);
    LookupNone(t', address);
  }

  /** A valid table holds one row for an address, so a lookup finds that row. */
  lemma LookupRow(t: Table, id: nat)
    requires Valid(t) && id in t.rows
    ensures Lookup(t, t.rows[id].address) == Some(t.rows[id])
  {}

  lemma LookupNone(t: Table, address: seq<byte>)
    ensures Lookup(t, address).None? <==> !Taken(t, address)
  {}

  /** Rows stay; a free address gets the next id. */
  lemma InsertPlaces(t: Table, satellite: string, e: Entry)
    requires Valid(t)
    ensures var t' := InsertRow(t, satellite, e.address, e.info);
      && (forall id :: id in t.rows ==> id in t'.rows && t'.rows[id] == t.rows[id])
      && (forall id :: id in t'.rows ==> id in t.rows || (id == t.next && !Taken(t, e.address)))
      && (!Taken(t, e.address) ==>
            t.next in t'.rows && t'.rows[t.next] == Row(e.address, None, satellite, Some(e.info)))
  {}

  /** The row that a wallet describes. */
  function RowOf(w: Wallet): Row {
    Row(w.address, w.claimed, w.satellite, Some(w.info))
  }

  /** An insert answers with the stored row exactly when the address was free, or held that very row unclaimed. */
  lemma InsertAnswerExact(t: Table, satellite: string, address: Address, info: string)
    requires Valid(t)
    ensures var answer := Wallet(address, None, satellite, info);
      Lookup(InsertRow(t, satellite, address, info), address) == Some(RowOf(answer))
      <==> !Taken(t, address) || Lookup(t, address) == Some(Row(address, None, satellite, Some(info)))
  {
    hide Valid;
    InsertLookup(t, satellite, Entry(address, info), address);
  }

  /** Two satellites insert one address: the second is answered as if the wallet were its own. */
  lemma InsertMisleads(address: Address, info: string, one: string, other: string)
    requires one != other
    ensures var t := InsertRow(EMPTY_TABLE, one, address, info);
      Valid(t) && Lookup(InsertRow(t, other, address, info), address) == Some(Row(address, None, one, Some(info)))
  {
    var t := InsertRow(EMPTY_TABLE, one, address, info);
    InsertKeepsValid(EMPTY_TABLE, one, address, info);
    InsertLookup(EMPTY_TABLE, one, Entry(address, info), address);
    InsertLookup(t, other, Entry(address, info), address);
  }

  /** A batch keeps what was recorded first: an earlier row as it is, else the first entry of the batch. */
  lemma {:induction false} BatchKeepsFirst(t: Table, satellite: string, entries: seq<Entry>, address: seq<byte>)
    requires Valid(t)
    ensures Lookup(InsertAll(t, satellite, entries), address) ==
      if Lookup(t, address).Some? then Lookup(t, address) else FirstEntry(entries, address, satellite)
  {
    hide Lookup, InsertRow, Valid;
    if entries == [] {
    } else {
      var n := |entries| - 1;
      assert entries == entries[..n] + [entries[n]];
      BatchKeepsFirst(t, satellite, entries[..n], address);
      InsertAllKeepsValid(t, satellite, entries[..n]);
      InsertLookup(InsertAll(t, satellite, entries[..n]), satellite, entries[n], address);
      FirstEntryAppend(entries[..n], entries[n], address, satellite);
    }
  }

  lemma {:induction false} AllTaken(t: Table, satellite: string, entries: seq<Entry>)
    requires forall i :: 0 <= i < |entries| ==> Taken(t, entries[i].address)
    ensures InsertAll(t, satellite, entries).rows == t.rows
  {
    if entries == [] {
    } else {
      AllTaken(t, satellite, entries[..|entries| - 1]);
    }
  }

  lemma InsertKeepsRows(t: Table, satellite: string, e: Entry)
    requires Valid(t)
    ensures var t' := InsertRow(t, satellite, e.address, e.info);
      && (forall id :: id in t.rows ==> id in t'.rows && t'.rows[id] == t.rows[id])
      && (forall id :: id in t'.rows && id !in t.rows ==> t'.rows[id].claimed.None?)
      && Taken(t', e.address)
  {
    var t' := InsertRow(t, satellite, e.address, e.info);
    if !Taken(t, e.address) {
      assert t'.rows[t.next].address == e.address;
    }
  }

  lemma {:induction false} BatchTakes(t: Table, satellite: string, entries: seq<Entry>)
    requires Valid(t)
    ensures forall i :: 0 <= i < |entries| ==> Taken(InsertAll(t, satellite, entries), entries[i].address)
  {
    if entries == [] {
    } else {
      var n := |entries| - 1;
      var t1 := InsertAll(t, satellite, entries[..n]);
      BatchTakes(t, satellite, entries[..n]);
      InsertAllKeepsValid(t, satellite, entries[..n]);
      InsertKeepsRows(t1, satellite, entries[n]);
      forall i | 0 <= i < n
        ensures Taken(InsertAll(t, satellite, entries), entries[i].address)
      {
        assert Taken(t1, entries[..n][i].address);
      }
    }
  }

  /** Inserting a batch a second time changes no row. */
  lemma BatchIdempotent(t: Table, satellite: string, other: string, entries: seq<Entry>)
    requires Valid(t)
    ensures var once := InsertAll(t, satellite, entries); InsertAll(once, other, entries).rows == once.rows
  {
    BatchTakes(t, satellite, entries);
    AllTaken(InsertAll(t, satellite, entries), other, entries);
  }

  /******* The database *******/

  /** An unclaimed row of the satellite was marked claimed at the given time and returned, all else is as before. */
  ghost predicate Claimed(t: Table, satellite: string, id: nat, now: int, w: Wallet, t': Table) {
    && id in Unclaimed(t, satellite)
    && t'.next == t.next && t'.rows.Keys == t.rows.Keys
    && (forall k :: k in t.rows && k != id ==> t'.rows[k] == t.rows[k])
    && t'.rows[id] == Row(t.rows[id].address, Some(now), satellite, t.rows[id].info)
    && t.rows[id].info.Some? && |t.rows[id].address| == ADDRESS_LENGTH
    && w == Wallet(t.rows[id].address, Some(now), satellite, t.rows[id].info.value)
  }

  function InfoOf(row: Row): string {
    if row.info.Some? then row.info.value else ""
  }

  /** What a single lookup ends with; dereferencing a null pointer stops the program. */
  datatype Answer = Got(wallet: Wallet) | NoRow | NilDereference

  ghost predicate StoredAs(t: Table, id: nat, satellite: string, address: seq<byte>) {
    id in t.rows && t.rows[id].address == address && t.rows[id].satellite == satellite
  }

  /** A row is answered exactly when it is claimed and has info; any other row is dereferenced in vain. */
  ghost predicate GetMeans(t: Table, satellite: string, address: seq<byte>, r: Answer) {
    match r
    case NoRow => forall id :: !StoredAs(t, id, satellite, address)
    case NilDereference =>
      exists id :: StoredAs(t, id, satellite, address) && (t.rows[id].claimed.None? || t.rows[id].info.None?)
    case Got(w) => exists id :: StoredAs(t, id, satellite, address) && w.claimed.Some? && t.rows[id] == RowOf(w)
  }

  class WalletsDB {
    var table: Table

    constructor ()
      ensures table == EMPTY_TABLE
    {
      table := EMPTY_TABLE;
    }

    /** The row of a taken address stays, a free address gets the new row; the answer does not tell which. */
    method Insert(satellite: string, address: Address, info: string) returns (w: Wallet)
      modifies this
      ensures table == InsertRow(old(table), satellite, address, info)
      ensures w == Wallet(address, None, satellite, info)
      ensures Valid(old(table)) ==> Valid(table) && forall a ::
        Lookup(table, a) == if a == address && !Taken(old(table), a) then Some(RowOf(w)) else Lookup(old(table), a)
    {
      ghost var before := table;
      if !Taken(table, address) {
        table := table.(rows := table.rows[table.next := Row(address, None, satellite, Some(info))]);
      }
      table := table.(next := table.next + 1);
      w := Wallet(address, None, satellite, info);
      if Valid(before) {
        InsertKeepsValid(before, satellite, address, info);
        forall a
          ensures Lookup(table, a) == if a == address && !Taken(before, a) then Some(RowOf(w)) else Lookup(before, a)
        {
          InsertLookup(before, satellite, Entry(address, info), a);
        }
      }
    }

    /** The wallet stored for an address. Claimed time and info are dereferenced without a check. */
    method Get(satellite: string, address: Address) returns (r: Answer)
      requires forall i, k ::
        i in table.rows && k in table.rows && table.rows[i].address == table.rows[k].address ==> i == k
      ensures GetMeans(table, satellite, address, r)
    {
      var found := set id | id in table.rows
        && table.rows[id].address == address && table.rows[id].satellite == satellite;
      if found == {} {
        assert forall id :: StoredAs(table, id, satellite, address) ==> id in found;
        return NoRow;
      }
      var id := AnyMember(found);
      var row := table.rows[id];
      assert StoredAs(table, id, satellite, address);
      if row.claimed.None? || row.info.None? {
        return NilDereference;
      }
      return Got(Wallet(address, row.claimed, row.satellite, row.info.value));
    }

    method InsertBatch(satellite: string, entries: seq<Entry>)
      modifies this
      ensures table == InsertAll(old(table), satellite, entries)
    {
      for i := 0 to |entries|
        invariant table == InsertAll(old(table), satellite, entries[..i])
      {
        assert entries[..i + 1][..i] == entries[..i];
        table := InsertRow(table, satellite, entries[i].address, entries[i].info);
      }
      assert entries[..|entries|] == entries;
    }

    /** An undisturbed claim: some unclaimed row of the satellite, or the error when there is none. */
    method Claim(satellite: string, now: int) returns (r: Result<Wallet, Error>)
      requires Valid(table)
      modifies this
      ensures Valid(table)
      ensures r.Err? <==> Unclaimed(old(table), satellite) == {}
      ensures r.Err? ==> r.error == NO_AVAILABLE_WALLETS && table == old(table)
      ensures r.Ok? ==> exists id :: Claimed(old(table), satellite, id, now, r.value, table)
    {
      var free := Unclaimed(table, satellite);
      if free == {} {
        return Err(NO_AVAILABLE_WALLETS);
      }
      var id := AnyMember(free);
      ClaimKeepsValid(table, id, now);
      table := ClaimRow(table, id, now);
      var row := table.rows[id];
      r := Ok(Wallet(row.address, row.claimed, row.satellite, row.info.value));
      assert Claimed(old(table), satellite, id, now, r.value, table);
    }

    method GetStats() returns (stats: Stats)
      ensures stats.total == |table.rows|
      ensures stats.claimed == |ClaimedRows(table, None)|
      ensures stats.unclaimed == |table.rows.Keys - ClaimedRows(table, None)|
    {
      var total, claimed := |table.rows|, |ClaimedRows(table, None)|;
      assert ClaimedRows(table, None) <= table.rows.Keys;
      stats := Stats(total, claimed, total - claimed);
    }

    /** Claimed accounts with their info, of one satellite or of all;
        rows whose address has not 20 bytes are skipped and reported. */
    method List(satellite: Option<string>) returns (accounts: map<seq<byte>, string>, err: Option<Error>)
      requires forall i, k ::
        i in table.rows && k in table.rows && table.rows[i].address == table.rows[k].address ==> i == k
      ensures var ids := ClaimedRows(table, satellite);
        && (err.None? <==> forall id :: id in ids ==> |table.rows[id].address| == ADDRESS_LENGTH)
        && (forall a :: a in accounts <==> |a| == ADDRESS_LENGTH && a in AddressesOf(table, ids))
        && (forall id :: id in ids && |table.rows[id].address| == ADDRESS_LENGTH ==>
              var info, answer := table.rows[id].info, accounts[table.rows[id].address];
              (info.Some? ==> answer == info.value) && (info.None? ==> answer == ""))
    {
      accounts, err := map[], None;
      var ids := ClaimedRows(table, satellite);
      var todo := ids;
      while todo != {}
        invariant todo <= ids
        invariant err.None? <==> forall id :: id in ids - todo ==> |table.rows[id].address| == ADDRESS_LENGTH
        invariant forall a :: a in accounts ==> |a| == ADDRESS_LENGTH && a in AddressesOf(table, ids - todo)
        invariant forall id :: id in ids - todo && |table.rows[id].address| == ADDRESS_LENGTH
                    ==> table.rows[id].address in accounts && accounts[table.rows[id].address] == InfoOf(table.rows[id])
      {
        var id := AnyMember(todo);
        var row := table.rows[id];
        if |row.address| != ADDRESS_LENGTH {
          err := Some(ADDRESS_LENGTH_ERROR);
        } else {
          accounts := accounts[row.address := InfoOf(row)];
        }
        assert ids - (todo - {id}) == (ids - todo) + {id};
        todo := todo - {id};
      }
      assert ids - {} == ids;
    }
  }

  /******* Listing and counting *******/

  lemma NoAddresses(t: Table)
    ensures AddressesOf(t, {}) == {}
  {}

  lemma AddressOfOneMore(t: Table, ids: set<nat>, id: nat)
    requires Valid(t) && ids <= t.rows.Keys && id in t.rows && id !in ids
    ensures AddressesOf(t, ids + {id}) == AddressesOf(t, ids) + {t.rows[id].address}
    ensures t.rows[id].address !in AddressesOf(t, ids)
  {}

  lemma {:induction false} DistinctAddresses(t: Table, ids: set<nat>)
    requires Valid(t) && ids <= t.rows.Keys
    ensures |AddressesOf(t, ids)| == |ids|
  {
    hide AddressesOf, Valid;
    if ids == {} {
      NoAddresses(t);
    } else {
      var id := Member(ids);
      var others := ids - {id};
      DistinctAddresses(t, others);
      AddressOfOneMore(t, others, id);
      assert ids == others + {id};
    }
  }

  /** The claimed count is the size of the full list; that list is the disjoint union of the satellites' lists. */
  lemma ListsAndCounts(t: Table)
    requires Valid(t)
    ensures |ClaimedRows(t, None)| == |AddressesOf(t, ClaimedRows(t, None))|
    ensures forall a :: a in AddressesOf(t, ClaimedRows(t, None))
              <==> exists s :: a in AddressesOf(t, ClaimedRows(t, Some(s)))
    ensures forall s, s' ::
      s != s' ==> AddressesOf(t, ClaimedRows(t, Some(s))) !! AddressesOf(t, ClaimedRows(t, Some(s')))
  {
    DistinctAddresses(t, ClaimedRows(t, None));
    forall a | a in AddressesOf(t, ClaimedRows(t, None))
      ensures exists s :: a in AddressesOf(t, ClaimedRows(t, Some(s)))
    {
      var id :| id in ClaimedRows(t, None) && t.rows[id].address == a;
      assert id in ClaimedRows(t, Some(t.rows[id].satellite));
      assert a in AddressesOf(t, ClaimedRows(t, Some(t.rows[id].satellite)));
    }
  }
}
