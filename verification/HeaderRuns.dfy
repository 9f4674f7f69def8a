/** Lookups of block headers that overlap: each looks, fetches and stores in separate steps. */
module HeaderRuns {
  import opened Common
  import opened HeaderCache

  /** How far an unfinished Get has come. */
  datatype Phase = Missed(key: Key) | Holding(key: Key, header: EthHeader)

  datatype Reply = Reply(key: Key, result: Result<Header, HeaderError>)

  datatype Cache = Cache(rows: Rows, calls: map<nat, Phase>, replies: seq<Reply>)

  const EMPTY := Cache(map[], map[], [])

  datatype Step =
    | Look(p: nat, key: Key, fault: Option<Error>)
    | Fetch(p: nat, answer: Result<EthHeader, Error>)
    | Store(p: nat, fault: Option<Error>)
    | Remove(key: Key)
    | RemoveBefore(before: int)

  /** A node may fail, and reports only headers that exist. */
  ghost predicate Enabled(c: Cache, truth: Truth, step: Step) {
    match step
    case Look(p, _, _) => p !in c.calls
    case Fetch(p, answer) =>
      p in c.calls && c.calls[p].Missed? && (answer.Ok? ==> truth(c.calls[p].key) == Some(answer.value))
    case Store(p, _) => p in c.calls && c.calls[p].Holding?
    case Remove(_) => true
    case RemoveBefore(_) => true
  }

  function Answered(c: Cache, key: Key, result: Result<Header, HeaderError>): Cache {
    c.(replies := c.replies + [Reply(key, result)])
  }

  function Stored(c: Cache, fault: Option<Error>, key: Key, header: EthHeader): Cache {
    var (err, rows) := InsertStep(c.rows, fault, FromRow(key, ToRow(header)));
    Answered(c.(rows := rows), key, if err.Some? then Err(err.value) else Ok(FromRow(key, ToRow(header))))
  }

  ghost function Next(c: Cache, truth: Truth, step: Step): Cache
    requires Enabled(c, truth, step)
  {
    match step
    case Look(p, key, fault) =>
      var found := Lookup(c.rows, fault, key.chainID, key.hash);
      if found.Ok? || found.error != NoHeader then Answered(c, key, found)
      else c.(calls := c.calls[p := Missed(key)])
    case Fetch(p, answer) =>
      var key := c.calls[p].key;
      if answer.Err? then Answered(c.(calls := c.calls - {p}), key, Err(Client(answer.error)))
      else c.(calls := c.calls[p := Holding(key, answer.value)])
    case Store(p, fault) => Stored(c.(calls := c.calls - {p}), fault, c.calls[p].key, c.calls[p].header)
    case Remove(key) => c.(rows := c.rows - {key})
    case RemoveBefore(before) => c.(rows := RowsFrom(c.rows, before))
  }

  /** The cache after the first n steps. */
  ghost function At(truth: Truth, run: seq<Step>, n: nat): Cache
    requires n <= |run|
  {
    if n == 0 then EMPTY
    else
      var c := At(truth, run, n - 1);
      if Enabled(c, truth, run[n - 1]) then Next(c, truth, run[n - 1]) else c
  }

  ghost predicate IsRun(truth: Truth, run: seq<Step>) {
    forall n: nat :: n < |run| ==> EnabledAt(truth, run, n)
  }

  ghost predicate EnabledAt(truth: Truth, run: seq<Step>, n: nat)
    requires n < |run|
  {
    Enabled(At(truth, run, n), truth, run[n])
  }

  /******* What every interleaving keeps *******/

  ghost predicate RightReply(truth: Truth, r: Reply) {
    match r.result
    case Ok(header) => r.key.chainID != 0 && truth(r.key).Some? && IsHeader(header, r.key, truth(r.key).value)
    case Err(e) => e != NoHeader
  }

  /** The header of a block as its chain has it, under the key asked for, dated in nanoseconds. */
  ghost predicate IsHeader(header: Header, key: Key, h: EthHeader) {
    header == Header(key.chainID, key.hash, h.number, EPOCH + h.time * 1_000_000_000)
  }

  ghost predicate RightCall(truth: Truth, call: Phase) {
    call.key.chainID != 0 && (call.Holding? ==> truth(call.key) == Some(call.header))
  }

  ghost predicate Sound(truth: Truth, c: Cache) {
    && AgreesWith(c.rows, truth)
    && (forall p :: p in c.calls ==> RightCall(truth, c.calls[p]))
    && (forall i :: 0 <= i < |c.replies| ==> RightReply(truth, c.replies[i]))
  }

  lemma KeyIs(key: Key)
    ensures Key(key.chainID, key.hash) == key
  {}

  lemma NextSound(truth: Truth, c: Cache, step: Step)
    requires Sound(truth, c) && Enabled(c, truth, step)
    ensures Sound(truth, Next(c, truth, step))
  {
    match step
    case Look(p, key, fault) => KeyIs(key);
    case Fetch(p, answer) => assert RightCall(truth, c.calls[p]);
    case Store(p, fault) =>
      assert RightCall(truth, c.calls[p]);
      KeyIs(c.calls[p].key);
    case Remove(key) =>
    case RemoveBefore(before) =>
  }

  /**
   * Over every interleaving of lookups and removals, with faults and failing nodes: the stored headers are
   * those of the chain, a header that is answered is the right one, and "no header" is never the answer.
   */
  lemma {:induction false} RunSound(truth: Truth, run: seq<Step>, n: nat)
    requires n <= |run|
    ensures Sound(truth, At(truth, run, n))
  {
    hide Sound, Next, Enabled;
    if n == 0 {
      EmptySound(truth);
    } else {
      RunSound(truth, run, n - 1);
      if Enabled(At(truth, run, n - 1), truth, run[n - 1]) {
        NextSound(truth, At(truth, run, n - 1), run[n - 1]);
      }
    }
  }

  lemma EmptySound(truth: Truth)
    ensures Sound(truth, EMPTY)
  {}

  /******* Conflicts *******/

  /** Step m stores a header under the key, or finds one there. */
  ghost predicate Puts(truth: Truth, run: seq<Step>, m: nat, key: Key)
    requires m < |run|
  {
    var c := At(truth, run, m);
    run[m].Store? && run[m].fault.None? && run[m].p in c.calls && c.calls[run[m].p].key == key
  }

  /** Step l removes what is stored under the key. */
  ghost predicate Drops(truth: Truth, run: seq<Step>, l: nat, key: Key)
    requires l < |run|
  {
    match run[l]
    case Remove(k) => k == key
    case RemoveBefore(before) => truth(key).Some? && ToRow(truth(key).value).timestamp < before
    case _ => false
  }

  lemma RowStep(truth: Truth, run: seq<Step>, n: nat, key: Key)
    requires IsRun(truth, run) && n < |run|
    ensures key in At(truth, run, n + 1).rows
      <==> Puts(truth, run, n, key) || (key in At(truth, run, n).rows && !Drops(truth, run, n, key))
  {
    hide At;
    RunSound(truth, run, n);
    var c := At(truth, run, n);
    AtNext(truth, run, n);
    match run[n]
    case Store(p, fault) =>
      assert RightCall(truth, c.calls[p]);
      KeyIs(c.calls[p].key);
    case _ =>
  }

  lemma AtNext(truth: Truth, run: seq<Step>, n: nat)
    requires IsRun(truth, run) && n < |run|
    ensures Enabled(At(truth, run, n), truth, run[n])
    ensures At(truth, run, n + 1) == Next(At(truth, run, n), truth, run[n])
  {
    hide Next, Enabled;
    assert EnabledAt(truth, run, n);
  }

  /** Some step from i on, before n, put the key there, and none since removed it. */
  ghost predicate PutSince(truth: Truth, run: seq<Step>, i: nat, n: nat, key: Key)
    requires n <= |run|
  {
    exists m: nat :: i <= m < n && Puts(truth, run, m, key) && forall l: nat :: m < l < n ==> !Drops(truth, run, l, key)
  }

  lemma PutSinceStep(truth: Truth, run: seq<Step>, i: nat, n: nat, key: Key)
    requires i <= n < |run|
    ensures PutSince(truth, run, i, n + 1, key)
      <==> Puts(truth, run, n, key) || (PutSince(truth, run, i, n, key) && !Drops(truth, run, n, key))
  {
    hide Puts, Drops;
    if PutSince(truth, run, i, n + 1, key) && !Puts(truth, run, n, key) {
      var m: nat :| i <= m < n + 1 && Puts(truth, run, m, key)
        && forall l: nat :: m < l < n + 1 ==> !Drops(truth, run, l, key);
      assert m < n && !Drops(truth, run, n, key);
    }
    if PutSince(truth, run, i, n, key) && !Drops(truth, run, n, key) {
      var m: nat :| i <= m < n && Puts(truth, run, m, key) && forall l: nat :: m < l < n ==> !Drops(truth, run, l, key);
      assert forall l: nat :: m < l < n + 1 ==> !Drops(truth, run, l, key);
    }
  }

  /** A key missing at step i is there at step n exactly when it was put there since. */
  lemma {:induction false} ThereExactly(truth: Truth, run: seq<Step>, i: nat, n: nat, key: Key)
    requires IsRun(truth, run) && i <= n <= |run| && key !in At(truth, run, i).rows
    ensures key in At(truth, run, n).rows <==> PutSince(truth, run, i, n, key)
    decreases n
  {
    hide At, Puts, Drops, PutSince, IsRun;
    if i == n {
      assert !PutSince(truth, run, i, n, key) by { NothingPut(truth, run, n, key); }
    } else {
      ThereExactly(truth, run, i, n - 1, key);
      RowStep(truth, run, n - 1, key);
      PutSinceStep(truth, run, i, n - 1, key);
    }
  }

  lemma NothingPut(truth: Truth, run: seq<Step>, n: nat, key: Key)
    requires n <= |run|
    ensures !PutSince(truth, run, n, n, key)
  {}

  /** The call of p that is open before step n looked for the key at step i, in vain. */
  ghost predicate OpenSince(truth: Truth, run: seq<Step>, p: nat, key: Key, i: nat, n: nat)
    requires n <= |run|
  {
    && i < n && run[i].Look? && run[i].p == p && run[i].key == key && key !in At(truth, run, i).rows
    && forall l: nat :: i < l <= n ==> OpenAt(truth, run, p, key, l)
  }

  ghost predicate OpenAt(truth: Truth, run: seq<Step>, p: nat, key: Key, n: nat)
    requires n <= |run|
  {
    var c := At(truth, run, n);
    p in c.calls && c.calls[p].key == key
  }

  /** Every open call has looked, in vain. */
  lemma {:induction false} OpenLooked(truth: Truth, run: seq<Step>, p: nat, n: nat)
    requires IsRun(truth, run) && n <= |run| && p in At(truth, run, n).calls
    ensures exists i: nat :: OpenSince(truth, run, p, At(truth, run, n).calls[p].key, i, n)
  {
    hide At, IsRun;
    AtStart(truth, run);
    if n == 0 {
    } else {
      var m := n - 1;
      var c, key := At(truth, run, m), At(truth, run, n).calls[p].key;
      AtNext(truth, run, m);
      if p in c.calls {
        OpenLooked(truth, run, p, m);
        var i: nat :| OpenSince(truth, run, p, c.calls[p].key, i, m);
        assert OpenSince(truth, run, p, key, i, n);
      } else {
        KeyIs(key);
        assert OpenSince(truth, run, p, key, m, n);
      }
    }
  }

  lemma AtStart(truth: Truth, run: seq<Step>)
    ensures At(truth, run, 0) == EMPTY
  {}

  /**
   * The store of an open call, without a fault, conflicts exactly when since its lookup some overlapping
   * call put the header there and nothing removed it; otherwise the call is answered the right header.
   */
  lemma ConflictExact(truth: Truth, run: seq<Step>, p: nat, key: Key, i: nat, n: nat)
    requires IsRun(truth, run) && n < |run| && run[n] == Store(p, None) && OpenSince(truth, run, p, key, i, n)
    ensures var replies := At(truth, run, n + 1).replies;
      && replies != []
      && truth(key).Some?
      && var last := replies[|replies| - 1];
         && last.key == key
         && (PutSince(truth, run, i, n, key) ==> last.result == Err(Conflict))
         && (!PutSince(truth, run, i, n, key) ==>
               last.result.Ok? && IsHeader(last.result.value, key, truth(key).value))
  {
    hide At, PutSince;
    RunSound(truth, run, n);
    ThereExactly(truth, run, i, n, key);
    AtNext(truth, run, n);
    var c := At(truth, run, n);
    assert OpenAt(truth, run, p, key, n);
    assert RightCall(truth, c.calls[p]);
    KeyIs(key);
  }

  /******* A call that nothing disturbs *******/

  /** What the steps of one Get leave when nothing comes between them is what the cache computes as a whole. */
  lemma UndisturbedGet(truth: Truth, c: Cache, p: nat, key: Key, world: World)
    requires p !in c.calls && (world.answer.Ok? ==> truth(key) == Some(world.answer.value))
    ensures var (r, rows) := GetStep(c.rows, key.chainID, key.hash, world);
      var looked := Next(c, truth, Look(p, key, world.readFault));
      var done := if p !in looked.calls then looked
        else
          var fetched := Next(looked, truth, Fetch(p, world.answer));
          if p !in fetched.calls then fetched else Next(fetched, truth, Store(p, world.writeFault));
      done == Cache(rows, c.calls, c.replies + [Reply(key, r)])
  {
    KeyIs(key);
    assert c.calls[p := Missed(key)] - {p} == c.calls;
  }
}
