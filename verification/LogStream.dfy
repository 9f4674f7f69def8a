/** The concurrent iterator over transfer logs (`ERC20TransferIterator`) and the producer that feeds it. */
module LogStream {
  import opened Common

  /** A log of the token contract; `decodes` tells whether its data unpacks as a Transfer event. */
  datatype Log = Log(
    from: Address, to: Address, amount: int,
    blockNumber: nat, blockHash: Hash, txHash: Hash, index: nat,
    decodes: bool)

  datatype Transfer = Transfer(from: Address, to: Address, amount: int, raw: Log)

  function Unpacked(log: Log): Transfer {
    Transfer(log.from, log.to, log.amount, log)
  }

  const UNPACK_ERROR: Error := "cannot unpack log"

  /**
   * The producer goroutine sends `pending` into the channel `logs`, which holds at most `capacity` entries,
   * and then ends the subscription with `subErr`. The other fields are the iterator's own.
   */
  datatype Stream = Stream(
    pending: seq<Log>, logs: seq<Log>, capacity: nat, subErr: Option<Error>, ended: bool,
    done: bool, fail: Option<Error>)
  {
    ghost predicate Valid() {
      && capacity > 0 && |logs| <= capacity
      && (ended ==> pending == [])
      && (done ==> ended)
      && (done && fail.None? ==> subErr.None?)
    }

    function Remaining(): seq<Log> {
      logs + pending
    }

    predicate Ready() {
      logs != [] || ended
    }
  }

  /** What the scheduler decides during one call of Next: how far the producer gets before the select
      fires, and which ready case the select takes. */
  datatype Choice = Choice(moves: nat, preferError: bool)

  /******* The steps *******/

  function Produce(s: Stream): (s': Stream)
    ensures s'.Remaining() == s.Remaining()
    ensures s.Valid() ==> s'.Valid() && (!s.Ready() ==> s'.Ready())
    ensures s' == s.(pending := s'.pending, logs := s'.logs, ended := s'.ended)
  {
    if s.ended then s
    else if s.pending == [] then s.(ended := true)
    else if |s.logs| < s.capacity then s.(logs := s.logs + s.pending[..1], pending := s.pending[1..])
    else s
  }

  function ProduceMany(s: Stream, n: nat): (s': Stream)
    ensures s'.Remaining() == s.Remaining()
    ensures s.Valid() ==> s'.Valid()
    ensures s' == s.(pending := s'.pending, logs := s'.logs, ended := s'.ended)
    decreases n
  {
    if n == 0 then s else ProduceMany(Produce(s), n - 1)
  }

  /** The producer makes some moves; a select with nothing ready waits for one more. */
  function Await(s: Stream, moves: nat): (s': Stream)
    ensures s'.Remaining() == s.Remaining()
    ensures s.Valid() ==> s'.Valid() && s'.Ready()
    ensures s' == s.(pending := s'.pending, logs := s'.logs, ended := s'.ended)
  {
    var r := ProduceMany(s, moves);
    if r.Ready() then r else Produce(r)
  }

  /** Take one log out of the channel. */
  function Deliver(s: Stream): (Option<Transfer>, Stream)
    requires s.logs != []
  {
    var s' := s.(logs := s.logs[1..]);
    if s.logs[0].decodes then (Some(Unpacked(s.logs[0])), s') else (None, s'.(fail := Some(UNPACK_ERROR)))
  }

  /** One call of Next: the event it yields, if any, and the state it leaves. */
  function NextStep(s: Stream, choice: Choice): (r: (Option<Transfer>, Stream))
    ensures r.0.Some? ==> |r.1.Remaining()| < |s.Remaining()|
  {
    if s.fail.Some? then (None, s)
    else if s.done then
      if s.logs != [] then Deliver(s) else (None, s)
    else
      var r := Await(s, choice.moves);
      if r.logs != [] && !(r.ended && choice.preferError) then Deliver(r)
      else
        var d := r.(done := true, fail := r.subErr);
        if d.fail.None? && d.logs != [] then Deliver(d) else (None, d)
  }

  class ERC20TransferIterator {
    var event: Option<Transfer>
    var pending: seq<Log>
    var logs: seq<Log>
    const capacity: nat
    const subErr: Option<Error>
    var ended: bool
    var done: bool
    var fail: Option<Error>

    function State(): Stream
      reads this
    {
      Stream(pending, logs, capacity, subErr, ended, done, fail)
    }

    /** A fresh iterator over the logs the producer is going to send. */
    constructor (sent: seq<Log>, capacity: nat, subErr: Option<Error>)
      ensures State() == Stream(sent, [], capacity, subErr, false, false, None)
    {
      event := None;
      pending, logs, ended := sent, [], false;
      this.capacity, this.subErr := capacity, subErr;
      done, fail := false, None;
    }

    /** The producer runs for a number of moves, and longer if the consumer would block. */
    method Wait(moves: nat)
      modifies this
      ensures State() == Await(old(State()), moves) && event == old(event)
    {
      var s := Await(State(), moves);
      pending, logs, ended := s.pending, s.logs, s.ended;
    }

    method Receive() returns (more: bool)
      requires logs != []
      modifies this
      ensures (if more then event else None, State()) == Deliver(old(State()))
      ensures more ==> event.Some?
    {
      var log := logs[0];
      logs := logs[1..];
      event := Some(Unpacked(log));
      if !log.decodes {
        fail := Some(UNPACK_ERROR);
        return false;
      }
      return true;
    }

    method Next(choice: Choice) returns (more: bool)
      requires State().Valid()
      modifies this
      ensures (if more then event else None, State()) == NextStep(old(State()), choice)
      ensures more ==> event.Some?
      decreases !done
    {
      if fail.Some? {
        return false;
      }
      if done {
        if logs != [] {
          more := Receive();
        } else {
          more := false;
        }
        return;
      }
      Wait(choice.moves);
      if logs != [] && !(ended && choice.preferError) {
        more := Receive();
      } else {
        done := true;
        fail := subErr;
        more := Next(choice);
      }
    }
  }

  /******* Iterating to the end *******/

  /** The events of all calls of Next until it returns false, and the final state. */
  function Drain(s: Stream, sched: nat -> Choice, k: nat): (seq<Transfer>, Stream)
    decreases |s.Remaining()|
  {
    var (t, s') := NextStep(s, sched(k));
    if t.None? then ([], s')
    else
      var (rest, end) := Drain(s', sched, k + 1);
      ([t.value] + rest, end)
  }

  lemma DrainRound(s: Stream, sched: nat -> Choice, k: nat)
    ensures var (t, s') := NextStep(s, sched(k));
            Drain(s, sched, k).0 == if t.None? then [] else [t.value] + Drain(s', sched, k + 1).0
  {
    hide NextStep;
  }

  /** The events up to the first log that does not unpack. */
  function Decoded(logs: seq<Log>): seq<Transfer> {
    if logs == [] || !logs[0].decodes then [] else [Unpacked(logs[0])] + Decoded(logs[1..])
  }

  ghost predicate AllDecode(logs: seq<Log>) {
    forall i :: 0 <= i < |logs| ==> logs[i].decodes
  }

  lemma {:induction false} DecodedAll(logs: seq<Log>)
    ensures |Decoded(logs)| == |logs| <==> AllDecode(logs)
    ensures |Decoded(logs)| <= |logs|
    ensures forall i :: 0 <= i < |Decoded(logs)| ==> Decoded(logs)[i] == Unpacked(logs[i])
  {
    if logs == [] || !logs[0].decodes {
    } else {
      DecodedAll(logs[1..]);
      assert forall i :: 0 < i < |logs| ==> logs[i] == logs[1..][i - 1];
      assert forall i :: 0 <= i < |logs| - 1 ==> logs[1..][i] == logs[i + 1];
    }
  }

  /** One call: it yields the next remaining event, or stops with a reason. */
  lemma NextOutcome(s: Stream, choice: Choice)
    requires s.Valid() && s.fail.None?
    ensures var (t, s') := NextStep(s, choice);
      && s'.Valid() && s'.subErr == s.subErr
      && (t.Some? ==> && s.Remaining() != [] && s.Remaining()[0].decodes && s'.fail.None?
                      && t.value == Unpacked(s.Remaining()[0]) && s'.Remaining() == s.Remaining()[1..])
      && (t.None? ==> s'.fail.None? ==> s.Remaining() == [])
      && (t.None? ==> s'.fail.Some? && s.subErr.None? ==> s.Remaining() != [] && !s.Remaining()[0].decodes)
      && (t.None? ==> s'.fail.Some? ==>
            || s'.fail == s.subErr
            || (s'.fail == Some(UNPACK_ERROR) && s.Remaining() != [] && !s.Remaining()[0].decodes))
  {
    var r := if s.done then s else Await(s, choice.moves);
    assert r.Remaining() == s.Remaining();
    if r.logs != [] {
      assert r.Remaining()[0] == r.logs[0];
      assert r.Remaining()[1..] == r.logs[1..] + r.pending;
    }
  }

  /**
   * Whatever the scheduler does: the events are an in-order prefix of the decodable logs, without
   * repeats; an iteration that ends without a failure has yielded every log; and when the subscription
   * ends with no error, the events do not depend on the schedule at all.
   */
  lemma {:induction false} DrainYieldsPrefix(s: Stream, sched: nat -> Choice, k: nat)
    requires s.Valid() && s.fail.None?
    ensures var (events, end) := Drain(s, sched, k);
      && events <= Decoded(s.Remaining())
      && (end.fail.None? ==> |events| == |s.Remaining()|)
      && (s.subErr.None? ==> events == Decoded(s.Remaining()))
      && (s.subErr.None? ==> (end.fail.None? <==> AllDecode(s.Remaining())))
    decreases |s.Remaining()|
  {
    var logs := s.Remaining();
    var (t, s') := NextStep(s, sched(k));
    NextOutcome(s, sched(k));
    DecodedAll(logs);
    if t.Some? {
      DrainYieldsPrefix(s', sched, k + 1);
      DecodedAll(logs[1..]);
      assert Decoded(logs) == [t.value] + Decoded(logs[1..]);
    }
  }

  /******* Subscriptions that end with an error *******/

  lemma {:induction false} ProducerFinishes(s: Stream, moves: nat)
    requires |s.logs| + |s.pending| <= s.capacity && (s.ended ==> s.pending == [])
    requires s.ended || |s.pending| < moves
    ensures ProduceMany(s, moves) == s.(pending := [], logs := s.logs + s.pending, ended := true)
    decreases moves
  {
    var s' := Produce(s);
    if moves == 0 {
    } else {
      ProducerFinishes(s', moves - 1);
    }
    assert s.logs + s.pending == s'.logs + s'.pending;
  }

  lemma {:induction false} ProducerSends(s: Stream, moves: nat)
    requires s.Valid() && s.Remaining() != [] && moves > 0
    ensures ProduceMany(s, moves).logs != []
    decreases moves
  {
    if moves == 1 {
      assert ProduceMany(Produce(s), 0) == Produce(s);
    } else {
      ProducerSends(Produce(s), moves - 1);
    }
  }

  /** A scheduler that lets the producer run ahead, takes n logs and then the error as soon as it is there. */
  function Impatient(n: nat, moves: nat): nat -> Choice {
    k => Choice(moves, k >= n)
  }

  /** The channel holds back at most its capacity: all earlier logs have been read before the error can be seen. */
  lemma {:induction false} FailingYieldsMost(s: Stream, sched: nat -> Choice, k: nat)
    requires s.Valid() && s.fail.None? && AllDecode(s.Remaining())
    ensures |Drain(s, sched, k).0| >= |s.Remaining()| - s.capacity
    decreases |s.Remaining()|
  {
    var r := if s.done then s else Await(s, sched(k).moves);
    var (t, s') := NextStep(s, sched(k));
    NextOutcome(s, sched(k));
    assert r.Remaining() == s.Remaining() && r.Valid();
    if t.Some? {
      assert s'.capacity == s.capacity;
      FailingYieldsMost(s', sched, k + 1);
    } else if s.Remaining() != [] {
      assert s.Remaining()[0].decodes;
      assert r.logs != [] ==> r.logs[0] == r.Remaining()[0];
      assert r.ended;
    }
  }

  lemma {:induction false} ImpatientYields(s: Stream, n: nat, moves: nat, k: nat)
    requires s.Valid() && s.fail.None? && !s.done && s.subErr.Some? && AllDecode(s.Remaining())
    requires k <= n && |s.Remaining()| < moves && |s.Remaining()| - s.capacity <= n - k <= |s.Remaining()|
    ensures |Drain(s, Impatient(n, moves), k).0| == n - k
    decreases n - k
  {
    var sched := Impatient(n, moves);
    var (t, s') := NextStep(s, sched(k));
    NextOutcome(s, sched(k));
    if k < n {
      ProducerSends(s, moves);
      assert s'.capacity == s.capacity;
      assert t.Some? by {
        var r := Await(s, moves);
        assert r.logs[0] == r.Remaining()[0];
      }
      ImpatientYields(s', n, moves, k + 1);
    } else {
      ProducerFinishes(s, moves);
    }
  }

  /**
   * A subscription that ends with an error after sending decodable logs may yield any number of them,
   * but only the last ones, as many as the channel holds, can be lost.
   */
  lemma FailingOutcomes(logs: seq<Log>, capacity: nat, e: Error, n: nat)
    requires capacity > 0 && AllDecode(logs)
    ensures (exists sched: nat -> Choice :: YieldsCount(logs, capacity, e, sched, n))
      <==> |logs| - capacity <= n <= |logs|
  {
    var s := Stream(logs, [], capacity, Some(e), false, false, None);
    assert s.Remaining() == logs;
    forall sched: nat -> Choice | YieldsCount(logs, capacity, e, sched, n)
      ensures |logs| - capacity <= n <= |logs|
    {
      FailingYieldsMost(s, sched, 0);
      DrainYieldsPrefix(s, sched, 0);
      DecodedAll(logs);
    }
    if |logs| - capacity <= n <= |logs| {
      ImpatientYields(s, n, |logs| + 1, 0);
      assert YieldsCount(logs, capacity, e, Impatient(n, |logs| + 1), n);
    }
  }

  /** When the queue holds every log before the first select, the error may hide them all, whatever they hold. */
  lemma ErrorMayHideAll(logs: seq<Log>, capacity: nat, moves: nat, e: Error, sched: nat -> Choice)
    requires 0 < |logs| + 1 <= capacity && |logs| < moves && sched(0) == Choice(moves, true)
    ensures Drain(Stream(logs, [], capacity, Some(e), false, false, None), sched, 0).0 == []
  {
    var s := Stream(logs, [], capacity, Some(e), false, false, None);
    ProducerFinishes(s, moves);
    assert [] + logs == logs;
  }

  ghost predicate YieldsCount(logs: seq<Log>, capacity: nat, e: Error, sched: nat -> Choice, n: nat) {
    |Drain(Stream(logs, [], capacity, Some(e), false, false, None), sched, 0).0| == n
  }
}
