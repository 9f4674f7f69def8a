/** Claims and inserts interleaved: each claim reads a row in one step and updates it by id in another. */
module WalletRuns {
  import opened Common
  import opened Wallets

  type Process = nat

  /** What an open claim transaction has read. */
  datatype Read = Read(id: nat, row: Row)

  /** An address handed out by a claim, and the satellite it was handed to. */
  datatype Grant = Grant(satellite: string, address: seq<byte>)

  datatype Pool = Pool(table: Table, open: map<Process, Read>, grants: seq<Grant>)

  const START := Pool(EMPTY_TABLE, map[], [])

  datatype Step =
    | Insert(satellite: string, entries: seq<Entry>)
    | Select(p: Process, satellite: string, pick: nat)
    | SelectNone(p: Process, satellite: string)
    | Update(p: Process, now: int)
    | Abort(p: Process)

  /** A select may return any unclaimed row of the satellite, or none when there is none. */
  ghost predicate Enabled(s: Pool, step: Step) {
    match step
    case Insert(_, _) => true
    case Select(p, satellite, pick) => p !in s.open && pick in Unclaimed(s.table, satellite)
    case SelectNone(p, satellite) => p !in s.open && Unclaimed(s.table, satellite) == {}
    case Update(p, _) => p in s.open && s.open[p].id in s.table.rows
    case Abort(p) => p in s.open
  }

  ghost function Next(s: Pool, step: Step): Pool
    requires Enabled(s, step)
  {
    match step
    case Insert(satellite, entries) => s.(table := InsertAll(s.table, satellite, entries))
    case Select(p, _, pick) => s.(open := s.open[p := Read(pick, s.table.rows[pick])])
    case SelectNone(_, _) => s
    case Update(p, now) =>
      var id := s.open[p].id;
      var row := s.table.rows[id];
      Pool(ClaimRow(s.table, id, now), s.open - {p}, s.grants + [Grant(row.satellite, row.address)])
    case Abort(p) => s.(open := s.open - {p})
  }

  ghost predicate IsRun(run: seq<Step>)
    decreases |run|, 0
  {
    run == [] || (IsRun(run[..|run| - 1]) && Enabled(Exec(run[..|run| - 1]), run[|run| - 1]))
  }

  ghost function Exec(run: seq<Step>): Pool
    requires IsRun(run)
    decreases |run|, 1
  {
    if run == [] then START else Next(Exec(run[..|run| - 1]), run[|run| - 1])
  }

  /******* What every run keeps *******/

  /** Open transactions read rows that still exist, unclaimed when they were read; the grants are
      exactly the claimed rows. */
  ghost predicate Consistent(s: Pool) {
    && Valid(s.table)
    && (forall p :: p in s.open ==> SameRow(s, p))
    && (forall id :: id in s.table.rows && s.table.rows[id].claimed.Some?
          ==> Grant(s.table.rows[id].satellite, s.table.rows[id].address) in s.grants)
    && (forall g :: g in s.grants ==> exists id :: GrantedAs(s.table, id, g))
  }

  ghost predicate SameRow(s: Pool, p: Process)
    requires p in s.open
  {
    var read := s.open[p];
    && read.row.claimed.None?
    && read.id in s.table.rows
    && s.table.rows[read.id].(claimed := None) == read.row
  }

  ghost predicate GrantedAs(t: Table, id: nat, g: Grant) {
    id in t.rows && t.rows[id].claimed.Some? && t.rows[id].satellite == g.satellite && t.rows[id].address == g.address
  }

  lemma {:induction false} InsertAllKeepsRows(t: Table, satellite: string, entries: seq<Entry>)
    requires Valid(t)
    ensures var t' := InsertAll(t, satellite, entries);
      && (forall id :: id in t.rows ==> id in t'.rows && t'.rows[id] == t.rows[id])
      && (forall id :: id in t'.rows && id !in t.rows ==> t'.rows[id].claimed.None?)
  {
    hide Taken, Valid;
    if entries == [] {
    } else {
      var n := |entries| - 1;
      InsertAllKeepsRows(t, satellite, entries[..n]);
      InsertAllKeepsValid(t, satellite, entries[..n]);
      InsertKeepsRows(InsertAll(t, satellite, entries[..n]), satellite, entries[n]);
    }
  }

  lemma InsertConsistent(s: Pool, satellite: string, entries: seq<Entry>)
    requires Consistent(s)
    ensures Consistent(Next(s, Insert(satellite, entries)))
  {
    hide InsertAll;
    var s' := Next(s, Insert(satellite, entries));
    InsertAllKeepsRows(s.table, satellite, entries);
    InsertAllKeepsValid(s.table, satellite, entries);
    forall g | g in s'.grants
      ensures exists id :: GrantedAs(s'.table, id, g)
    {
      var id :| GrantedAs(s.table, id, g);
      assert GrantedAs(s'.table, id, g);
    }
    forall p | p in s'.open
      ensures SameRow(s', p)
    {
      assert SameRow(s, p);
    }
  }

  lemma UpdateConsistent(s: Pool, p: Process, now: int)
    requires Consistent(s) && Enabled(s, Update(p, now))
    ensures Consistent(Next(s, Update(p, now)))
  {
    hide Valid;
    var s' := Next(s, Update(p, now));
    var id := s.open[p].id;
    ClaimKeepsValid(s.table, id, now);
    forall g | g in s'.grants
      ensures exists i :: GrantedAs(s'.table, i, g)
    {
      if g in s.grants {
        var i :| GrantedAs(s.table, i, g);
        assert GrantedAs(s'.table, i, g);
      } else {
        assert GrantedAs(s'.table, id, g);
      }
    }
    forall q | q in s'.open
      ensures SameRow(s', q)
    {
      assert SameRow(s, q);
    }
  }

  lemma NextConsistent(s: Pool, step: Step)
    requires Consistent(s) && Enabled(s, step)
    ensures Consistent(Next(s, step))
  {
    match step
    case Insert(satellite, entries) => InsertConsistent(s, satellite, entries);
    case Select(p, satellite, pick) =>
      var s' := Next(s, step);
      forall q | q in s'.open
        ensures SameRow(s', q)
      {
        assert q != p ==> SameRow(s, q);
      }
    case SelectNone(_, _) =>
    case Update(p, now) => UpdateConsistent(s, p, now);
    case Abort(p) =>
      var s' := Next(s, step);
      forall q | q in s'.open
        ensures SameRow(s', q)
      {
        assert SameRow(s, q);
      }
  }

  lemma {:induction false} RunConsistent(run: seq<Step>)
    requires IsRun(run)
    ensures Consistent(Exec(run))
  {
    hide Consistent, Next, Enabled;
    if run == [] {
      StartConsistent();
    } else {
      RunConsistent(run[..|run| - 1]);
      NextConsistent(Exec(run[..|run| - 1]), run[|run| - 1]);
    }
  }

  lemma StartConsistent()
    ensures Consistent(START)
  {}

  /** The list of a satellite is exactly the set of addresses its claims were given. */
  lemma ListIsGrants(run: seq<Step>, satellite: string)
    requires IsRun(run)
    ensures var s := Exec(run);
      forall a :: a in AddressesOf(s.table, ClaimedRows(s.table, Some(satellite))) <==> Grant(satellite, a) in s.grants
  {
    hide IsRun, Exec;
    RunConsistent(run);
    var s := Exec(run);
    forall a | Grant(satellite, a) in s.grants
      ensures a in AddressesOf(s.table, ClaimedRows(s.table, Some(satellite)))
    {
      var id :| GrantedAs(s.table, id, Grant(satellite, a));
      assert id in ClaimedRows(s.table, Some(satellite));
    }
  }

  /** A lookup succeeds exactly for the addresses that claims of the satellite were given, and dereferences
      a null pointer exactly for its addresses that were not. */
  lemma GetExact(run: seq<Step>, satellite: string, address: Address, r: Answer)
    requires IsRun(run) && GetMeans(Exec(run).table, satellite, address, r)
    ensures var s := Exec(run);
      && (r.Got? <==> Grant(satellite, address) in s.grants)
      && (r.NilDereference? <==> Grant(satellite, address) !in s.grants
                                 && exists id :: StoredAs(s.table, id, satellite, address))
  {
    hide IsRun, Exec;
    RunConsistent(run);
    var s := Exec(run);
    if Grant(satellite, address) in s.grants {
      var id :| GrantedAs(s.table, id, Grant(satellite, address));
      assert StoredAs(s.table, id, satellite, address);
    }
  }

  /******* Undisturbed claims *******/

  /** A select and an update with no step in between do what the contract of Claim promises. */
  lemma UndisturbedClaim(s: Pool, p: Process, satellite: string, pick: nat, now: int)
    requires Consistent(s) && Enabled(s, Select(p, satellite, pick))
    ensures var s' := Next(s, Select(p, satellite, pick));
      && Enabled(s', Update(p, now))
      && var row, done := s.table.rows[pick], Next(s', Update(p, now));
         && row.info.Some? && |row.address| == ADDRESS_LENGTH
         && Claimed(s.table, satellite, pick, now,
            Wallet(row.address, Some(now), satellite, row.info.value), done.table)
         && done.grants == s.grants + [Grant(satellite, row.address)] && done.open == s.open
  {
    RowIsWhole(s, pick);
    hide Consistent, ClaimRow;
    var row, t := s.table.rows[pick], s.table;
    assert s.open[p := Read(pick, row)] - {p} == s.open;
    ClaimChanges(t, pick, now);
  }

  lemma RowIsWhole(s: Pool, id: nat)
    requires Consistent(s) && id in s.table.rows
    ensures s.table.rows[id].info.Some? && |s.table.rows[id].address| == ADDRESS_LENGTH
  {}

  lemma ClaimChanges(t: Table, id: nat, now: int)
    requires id in t.rows
    ensures var t' := ClaimRow(t, id, now);
      && t'.next == t.next && t'.rows.Keys == t.rows.Keys
      && (forall k :: k in t.rows && k != id ==> t'.rows[k] == t.rows[k])
      && t'.rows[id] == t.rows[id].(claimed := Some(now))
  {}

  /******* Double claims *******/

  ghost predicate NoDoubleClaim(s: Pool) {
    forall i, k :: 0 <= i < k < |s.grants| ==> s.grants[i].address != s.grants[k].address
  }

  /** Every update of the run found its row still unclaimed. */
  ghost predicate UpdatesAreFresh(run: seq<Step>)
    requires IsRun(run)
  {
    run == [] ||
    var s, step := Exec(run[..|run| - 1]), run[|run| - 1];
    UpdatesAreFresh(run[..|run| - 1]) && (step.Update? ==> s.table.rows[s.open[step.p].id].claimed.None?)
  }

  lemma OneMoreGrant(s: Pool, s': Pool, g: Grant)
    requires s'.grants == s.grants + [g]
    ensures NoDoubleClaim(s') <==> NoDoubleClaim(s) && forall other :: other in s.grants ==> other.address != g.address
  {
    var n := |s.grants|;
    assert s'.grants[n] == g && forall i :: 0 <= i < n ==> s'.grants[i] == s.grants[i];
    if NoDoubleClaim(s') {
      forall i, k | 0 <= i < k < n
        ensures s.grants[i].address != s.grants[k].address
      {
        assert s'.grants[i].address != s'.grants[k].address;
      }
      forall other | other in s.grants
        ensures other.address != g.address
      {
        var i :| 0 <= i < n && s.grants[i] == other;
        assert s'.grants[i].address != s'.grants[n].address;
      }
    }
  }

  lemma UpdateDoubles(s: Pool, p: Process, now: int)
    requires Consistent(s) && Enabled(s, Update(p, now))
    ensures NoDoubleClaim(Next(s, Update(p, now))) <==> NoDoubleClaim(s) && s.table.rows[s.open[p].id].claimed.None?
  {
    hide NoDoubleClaim;
    var s', row := Next(s, Update(p, now)), s.table.rows[s.open[p].id];
    var g := Grant(row.satellite, row.address);
    OneMoreGrant(s, s', g);
    if row.claimed.Some? {
      assert g in s.grants;
    } else {
      forall other | other in s.grants
        ensures other.address != g.address
      {
        var id :| GrantedAs(s.table, id, other);
      }
    }
  }

  /** No address is granted twice exactly when no update hits a row claimed since it was read. */
  lemma {:induction false} DoubleClaimExact(run: seq<Step>)
    requires IsRun(run)
    ensures NoDoubleClaim(Exec(run)) <==> UpdatesAreFresh(run)
  {
    hide Consistent, Enabled;
    if run == [] {
    } else {
      var s, step := Exec(run[..|run| - 1]), run[|run| - 1];
      DoubleClaimExact(run[..|run| - 1]);
      RunConsistent(run[..|run| - 1]);
      if step.Update? {
        UpdateDoubles(s, step.p, step.now);
      }
    }
  }

  /******* Serializable transactions *******/

  /** The database lets a transaction commit only when the row it read has not changed. */
  ghost predicate Serializable(run: seq<Step>)
    requires IsRun(run)
  {
    run == [] ||
    var s, step := Exec(run[..|run| - 1]), run[|run| - 1];
    Serializable(run[..|run| - 1]) && (step.Update? ==> s.table.rows[s.open[step.p].id] == s.open[step.p].row)
  }

  lemma {:induction false} SerializableIsFresh(run: seq<Step>)
    requires IsRun(run) && Serializable(run)
    ensures UpdatesAreFresh(run)
  {
    if run == [] {
    } else {
      SerializableIsFresh(run[..|run| - 1]);
      RunConsistent(run[..|run| - 1]);
      var s, step := Exec(run[..|run| - 1]), run[|run| - 1];
      if step.Update? {
        assert SameRow(s, step.p);
      }
    }
  }

  /** Under serializable isolation no address is ever granted twice. */
  lemma SerializableClaims(run: seq<Step>)
    requires IsRun(run) && Serializable(run)
    ensures NoDoubleClaim(Exec(run))
  {
    SerializableIsFresh(run);
    DoubleClaimExact(run);
  }

  /** The pools on the way: the row is there, one claim has read it, then both, then one has updated it. */
  function WitnessPools(satellite: string, entry: Entry): seq<Pool> {
    var row, g := Row(entry.address, None, satellite, Some(entry.info)), Grant(satellite, entry.address);
    var t := Table(map[0 := row], 1);
    [START,
     Pool(t, map[], []),
     Pool(t, map[0 := Read(0, row)], []),
     Pool(t, map[0 := Read(0, row), 1 := Read(0, row)], []),
     Pool(ClaimRow(t, 0, 1), map[1 := Read(0, row)], [g]),
     Pool(ClaimRow(ClaimRow(t, 0, 1), 0, 2), map[], [g, g])]
  }

  function WitnessRun(satellite: string, entry: Entry): seq<Step> {
    [Insert(satellite, [entry]), Select(0, satellite, 0), Select(1, satellite, 0), Update(0, 1), Update(1, 2)]
  }

  lemma WitnessInsert(satellite: string, entry: Entry)
    ensures Next(START, WitnessRun(satellite, entry)[0]) == WitnessPools(satellite, entry)[1]
  {
    assert InsertAll(EMPTY_TABLE, satellite, []) == EMPTY_TABLE;
    assert [entry][..0] == [];
  }

  lemma WitnessStep(satellite: string, entry: Entry, n: nat)
    requires n < 5
    ensures var pools, step := WitnessPools(satellite, entry), WitnessRun(satellite, entry)[n];
      Enabled(pools[n], step) && Next(pools[n], step) == pools[n + 1]
  {
    if n == 0 {
      WitnessInsert(satellite, entry);
    }
  }

  /** Without it, two claims that read the same row are both given its address. */
  lemma DoubleClaimWithoutIsolation(satellite: string, entry: Entry)
    ensures var run := WitnessRun(satellite, entry);
      IsRun(run) && Exec(run).grants == [Grant(satellite, entry.address), Grant(satellite, entry.address)]
  {
    hide IsRun, Exec, Next, Enabled;
    var run, pools := WitnessRun(satellite, entry), WitnessPools(satellite, entry);
    NothingRun();
    assert run[..0] == [];
    for n := 0 to 5
      invariant IsRun(run[..n]) && Exec(run[..n]) == pools[n]
    {
      WitnessStep(satellite, entry, n);
      OneStep(run, n, pools[n], pools[n + 1]);
    }
    assert run[..5] == run;
  }

  lemma NothingRun()
    ensures IsRun([]) && Exec([]) == START
  {}

  lemma OneStep(run: seq<Step>, n: nat, s: Pool, s': Pool)
    requires n < |run| && IsRun(run[..n]) && Exec(run[..n]) == s
    requires Enabled(s, run[n]) && Next(s, run[n]) == s'
    ensures IsRun(run[..n + 1]) && Exec(run[..n + 1]) == s'
  {
    assert run[..n + 1][..n] == run[..n];
  }

  /******* Refinement: a serializable run is a sequence of atomic operations *******/

  datatype AtomicOp =
    | AtomicInsert(satellite: string, entries: seq<Entry>)
    | AtomicClaim(satellite: string, id: nat, now: int)
    | AtomicNoWallet(satellite: string)

  datatype Ledger = Ledger(table: Table, grants: seq<Grant>)

  /** The atomic claim takes a row that is unclaimed at that very moment. */
  ghost predicate AtomicEnabled(l: Ledger, op: AtomicOp) {
    match op
    case AtomicInsert(_, _) => true
    case AtomicClaim(satellite, id, _) => id in Unclaimed(l.table, satellite)
    case AtomicNoWallet(satellite) => Unclaimed(l.table, satellite) == {}
  }

  ghost function AtomicNext(l: Ledger, op: AtomicOp): Ledger
    requires AtomicEnabled(l, op)
  {
    match op
    case AtomicInsert(satellite, entries) => l.(table := InsertAll(l.table, satellite, entries))
    case AtomicClaim(satellite, id, now) =>
      Ledger(ClaimRow(l.table, id, now), l.grants + [Grant(satellite, l.table.rows[id].address)])
    case AtomicNoWallet(_) => l
  }

  ghost predicate IsAtomicRun(ops: seq<AtomicOp>)
    decreases |ops|, 0
  {
    ops == [] || (IsAtomicRun(ops[..|ops| - 1]) && AtomicEnabled(AtomicExec(ops[..|ops| - 1]), ops[|ops| - 1]))
  }

  ghost function AtomicExec(ops: seq<AtomicOp>): Ledger
    requires IsAtomicRun(ops)
    decreases |ops|, 1
  {
    if ops == [] then Ledger(EMPTY_TABLE, []) else AtomicNext(AtomicExec(ops[..|ops| - 1]), ops[|ops| - 1])
  }

  /** A claim takes effect when it commits, an unsuccessful one when it looks. */
  ghost function Effects(run: seq<Step>): seq<AtomicOp>
    requires IsRun(run)
  {
    if run == [] then []
    else
      var s, step := Exec(run[..|run| - 1]), run[|run| - 1];
      Effects(run[..|run| - 1]) +
      match step
      case Insert(satellite, entries) => [AtomicInsert(satellite, entries)]
      case Select(_, _, _) => []
      case SelectNone(_, satellite) => [AtomicNoWallet(satellite)]
      case Update(p, now) => [AtomicClaim(s.table.rows[s.open[p].id].satellite, s.open[p].id, now)]
      case Abort(_) => []
  }

  ghost function LedgerOf(s: Pool): Ledger {
    Ledger(s.table, s.grants)
  }

  lemma OneMoreEffect(ops: seq<AtomicOp>, op: AtomicOp, after: Ledger)
    requires IsAtomicRun(ops) && AtomicEnabled(AtomicExec(ops), op) && AtomicNext(AtomicExec(ops), op) == after
    ensures IsAtomicRun(ops + [op]) && AtomicExec(ops + [op]) == after
  {
    assert (ops + [op])[..|ops|] == ops;
  }

  /** Every serializable run has the table and the grants of a run of atomic inserts and claims. */
  lemma {:induction false} RunRefinesAtomic(run: seq<Step>)
    requires IsRun(run) && Serializable(run)
    ensures IsAtomicRun(Effects(run)) && AtomicExec(Effects(run)) == LedgerOf(Exec(run))
  {
    hide IsAtomicRun, AtomicExec, Consistent;
    if run == [] {
      NoEffects();
    } else {
      var front, step := run[..|run| - 1], run[|run| - 1];
      var s, s' := Exec(front), Exec(run);
      RunRefinesAtomic(front);
      assert Effects(front) + [] == Effects(front);
      match step
      case Insert(satellite, entries) =>
        OneMoreEffect(Effects(front), AtomicInsert(satellite, entries), LedgerOf(s'));
      case SelectNone(_, satellite) =>
        OneMoreEffect(Effects(front), AtomicNoWallet(satellite), LedgerOf(s'));
      case Update(p, now) =>
        SerializableIsFresh(run);
        OneMoreEffect(Effects(front), AtomicClaim(s.table.rows[s.open[p].id].satellite, s.open[p].id, now),
          LedgerOf(s'));
      case Select(_, _, _) =>
      case Abort(_) =>
    }
  }

  lemma NoEffects()
    ensures IsAtomicRun([]) && AtomicExec([]) == Ledger(EMPTY_TABLE, [])
  {}
}
