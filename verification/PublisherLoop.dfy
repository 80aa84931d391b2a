/** One publisher thread's loop over its own batch queue, tied to the publisher's steps in the pipeline. */
module PublisherLoop {
  import opened Sequences
  import opened Queues
  import opened Pipeline

  /** How an attempt goes: whether a needed reconnect succeeds, and whether the command gets a non-null reply. */
  datatype Outcome = Outcome(reconnected: bool, replied: bool)

  /** A process of which only the batch queue and one publisher at its loop head matter. */
  predicate Alone(s: State) {
    |s.publishers| == 1 && s.publishers[0].phase == LoopHead && !s.publishers[0].stop
  }

  /** The publisher's three steps from loop head to loop head. */
  function Turn(s: State, o: Outcome): (t: State)
    requires Alone(s) && s.batches.items != []
    ensures Alone(t)
  {
    var waiting := PublisherApply(s, 0, PublisherAct.PublisherLoop);
    var holding := PublisherApply(waiting, 0, PublisherPop);
    PublisherApply(holding, 0, Attempt(o.reconnected, o.replied))
  }

  predicate Fails(s: State, o: Outcome)
    requires Alone(s)
  {
    (!s.publishers[0].conn && !o.reconnected) || !o.replied
  }

  /** A turn at a glance: the front batch is consumed, or put back and the connection given up. */
  function TurnAtOnce(s: State, o: Outcome): State
    requires Alone(s) && s.batches.items != []
  {
    var b, rest := s.batches.items[0], s.batches.(items := s.batches.items[1..]);
    var idle := s.publishers[0];
    if s.dryRun then s.(batches := rest, log := s.log.(simulated := s.log.simulated + [b]))
    else if Fails(s, o) then
      s.(batches := PushTo(rest, b), publishers := [idle.(conn := false)],
         log := if rest.stopped then s.log.(requeueLost := s.log.requeueLost + [b]) else s.log)
    else s.(batches := rest, publishers := [idle.(conn := true)], log := s.log.(acked := s.log.acked + [b]))
  }

  lemma TurnIsAtOnce(s: State, o: Outcome)
    requires Alone(s) && s.batches.items != []
    ensures Turn(s, o) == TurnAtOnce(s, o)
  {
    assert s.publishers == [s.publishers[0]];
    assert s.batches.(items := s.batches.items[1..]) == PopFrom(s.batches);
  }

  /**
   * Outside a dry run the front batch is acked exactly when the connection was valid or could be made again, and the
   * command got a reply; otherwise it goes to the back of the queue, unless that has stopped, and the connection is
   * given up.
   */
  lemma SentIff(s: State, o: Outcome)
    requires Alone(s) && s.batches.items != [] && !s.dryRun
    ensures var b, rest, t := s.batches.items[0], s.batches.items[1..], Turn(s, o);
            if (s.publishers[0].conn || o.reconnected) && o.replied then
              && t.log.acked == s.log.acked + [b] && t.log.requeueLost == s.log.requeueLost
              && t.batches.items == rest && t.publishers[0].conn
            else
              && t.log.acked == s.log.acked && !t.publishers[0].conn
              && (s.batches.stopped ==> t.batches.items == rest && t.log.requeueLost == s.log.requeueLost + [b])
              && (!s.batches.stopped ==> t.batches.items == rest + [b] && t.log.requeueLost == s.log.requeueLost)
  {
    TurnIsAtOnce(s, o);
  }

  /** Turns until the outcomes end, or until the queue has nothing for another turn. */
  function Turns(s: State, outcomes: seq<Outcome>): (t: State)
    requires Alone(s)
    ensures Alone(t)
  {
    if outcomes == [] then s
    else
      var before := Turns(s, Init(outcomes));
      if before.batches.items == [] then before else Turn(before, Last(outcomes))
  }

  class PublisherThread {
    const batchQueue: Fifo<Batch>
    const dryRun: bool
    var connected: bool
    ghost var acked: seq<Batch>
    ghost var simulated: seq<Batch>
    ghost var requeueLost: seq<Batch>

    constructor (queue: Fifo<Batch>, dryRunMode: bool, connects: bool)
      ensures batchQueue == queue && dryRun == dryRunMode && connected == connects
      ensures acked == simulated == requeueLost == []
    {
      batchQueue, dryRun, connected := queue, dryRunMode, connects;
      acked, simulated, requeueLost := [], [], [];
    }

    ghost function View(): State
      reads this, batchQueue
    {
      State(dryRun, [], Queue([], false), [], Queue([], false), BatcherThread(false, BatcherDone, map[]),
            batchQueue.State(), [Publisher(false, connected, LoopHead)], Running,
            EmptyLog().(acked := acked, simulated := simulated, requeueLost := requeueLost))
    }

    method PutBack(batch: Batch)
      requires batchQueue.Valid()
      modifies batchQueue, `requeueLost
      ensures batchQueue.Valid() && batchQueue.State() == PushTo(old(batchQueue.State()), batch)
      ensures requeueLost == if old(batchQueue.stopped) then old(requeueLost) + [batch] else old(requeueLost)
    {
      if batchQueue.stopped {
        requeueLost := requeueLost + [batch];
      }
      batchQueue.Push(batch);
    }

    /** The loop body, for a queue that is ready; `false` when the queue has ended. */
    method LoopBody(o: Outcome) returns (goOn: bool)
      requires batchQueue.Valid() && Ready(batchQueue.State())
      modifies this, batchQueue
      ensures batchQueue.Valid() && goOn == old(batchQueue.queue != [])
      ensures View() == old(if batchQueue.queue == [] then View() else Turn(View(), o))
    {
      if batchQueue.queue != [] {
        TurnIsAtOnce(View(), o);
      }
      var batchOpt := batchQueue.PopReady();
      if batchOpt.None? {
        return false;
      }
      goOn := true;
      var batch := batchOpt.value;
      if dryRun {
        simulated := simulated + [batch];
        return;
      }
      if !connected {
        connected := o.reconnected;
        if !connected {
          PutBack(batch);
          return;
        }
      }
      if !o.replied {
        connected := false;
        PutBack(batch);
        return;
      }
      acked := acked + [batch];
    }

    /**
     * `publisher_loop` with these outcomes, until a stop request (which ends them), the end of the queue, or a
     * wait.
     */
    method Loop(outcomes: seq<Outcome>)
      requires batchQueue.Valid()
      modifies this, batchQueue
      ensures batchQueue.Valid() && View() == Turns(old(View()), outcomes)
    {
      var i := 0;
      while i < |outcomes| && (batchQueue.queue != [] || batchQueue.stopped)
        invariant i <= |outcomes| && batchQueue.Valid()
        invariant View() == Turns(old(View()), outcomes[..i])
      {
        var goOn := LoopBody(outcomes[i]);
        assert Init(outcomes[..i + 1]) == outcomes[..i];
        i := i + 1;
        if !goOn {
          break;
        }
      }
      assert outcomes[..|outcomes|] == outcomes;
      NothingLeft(old(View()), outcomes, i);
    }
  }

  lemma {:induction false} NothingLeft(s: State, outcomes: seq<Outcome>, i: nat)
    requires Alone(s) && i <= |outcomes|
    ensures Turns(s, outcomes[..i]).batches.items == [] ==> Turns(s, outcomes) == Turns(s, outcomes[..i])
    decreases |outcomes|
  {
    if i == |outcomes| {
      assert outcomes[..i] == outcomes;
    } else {
      assert Init(outcomes)[..i] == outcomes[..i];
      NothingLeft(s, Init(outcomes), i);
    }
  }

  /** How often a batch is queued, answered, simulated or dropped. */
  function Whereabouts(s: State, x: Batch): nat {
    Count(s.batches.items, x) + Count(s.log.acked, x) + Count(s.log.simulated, x) + Count(s.log.requeueLost, x)
  }

  lemma TurnConserves(s: State, o: Outcome, x: Batch)
    requires Alone(s) && s.batches.items != []
    ensures Whereabouts(Turn(s, o), x) == Whereabouts(s, x)
    ensures !s.batches.stopped ==> Turn(s, o).log.requeueLost == s.log.requeueLost
    ensures Turn(s, o).batches.stopped == s.batches.stopped
    ensures s.batches.stopped ==> Turn(s, o).batches.items == s.batches.items[1..]
  {
    TurnIsAtOnce(s, o);
    var b := s.batches.items[0];
    CountFront(s.batches.items, x);
    if s.dryRun {
      CountSnoc(s.log.simulated, b, x);
    } else if !Fails(s, o) {
      CountSnoc(s.log.acked, b, x);
    } else if s.batches.stopped {
      CountSnoc(s.log.requeueLost, b, x);
    } else {
      CountSnoc(s.batches.items[1..], b, x);
    }
  }

  /**
   * Whatever the outcomes, no batch is lost or duplicated by a publisher; before the queue stops none is dropped
   * either.
   */
  lemma {:induction false} TurnsConserve(s: State, outcomes: seq<Outcome>, x: Batch)
    requires Alone(s)
    ensures Whereabouts(Turns(s, outcomes), x) == Whereabouts(s, x)
    ensures !s.batches.stopped ==> Turns(s, outcomes).log.requeueLost == s.log.requeueLost
    ensures Turns(s, outcomes).batches.stopped == s.batches.stopped
  {
    if outcomes != [] {
      var before := Turns(s, Init(outcomes));
      TurnsConserve(s, Init(outcomes), x);
      if before.batches.items != [] {
        TurnConserves(before, Last(outcomes), x);
      }
    }
  }

  /**
   * After the queue has stopped each turn shortens it, even if every attempt fails, so the thread ends after as
   * many turns as it had batches.
   */
  lemma {:induction false} TurnsDrain(s: State, outcomes: seq<Outcome>)
    requires Alone(s) && s.batches.stopped
    ensures Turns(s, outcomes).batches.stopped
    ensures |Turns(s, outcomes).batches.items|
         == if |outcomes| <= |s.batches.items| then |s.batches.items| - |outcomes| else 0
  {
    if outcomes != [] {
      var before := Turns(s, Init(outcomes));
      TurnsDrain(s, Init(outcomes));
      if before.batches.items != [] {
        TurnConserves(before, Last(outcomes), before.batches.items[0]);
      }
    }
  }

  /** While Redis is away, re-queuing rotates the queue; a whole round of failures restores its order. */
  lemma {:induction false} FailuresRotate(s: State, n: nat)
    requires Alone(s) && !s.batches.stopped && !s.dryRun && n <= |s.batches.items|
    ensures var q, t := s.batches.items, Turns(s, seq(n, i => Outcome(false, false)));
            && t.batches.items == q[n..] + q[..n] && t.batches.stopped == s.batches.stopped && t.dryRun == s.dryRun
            && t.log == s.log
    ensures n == |s.batches.items| ==> Turns(s, seq(n, i => Outcome(false, false))).batches == s.batches
  {
    var q, failures := s.batches.items, seq(n, i => Outcome(false, false));
    if n == 0 {
      assert failures == [];
    } else {
      FailuresRotate(s, n - 1);
      assert Init(failures) == seq(n - 1, i => Outcome(false, false));
      var before := Turns(s, Init(failures));
      FailedTurn(before, Last(failures));
      Rotated(q, n);
    }
    if n == |q| {
      assert q[n..] + q[..n] == q;
    }
  }

  lemma Rotated<T>(q: seq<T>, n: nat)
    requires 0 < n <= |q|
    ensures (q[n - 1..] + q[..n - 1])[1..] + [(q[n - 1..] + q[..n - 1])[0]] == q[n..] + q[..n]
  {
  }

  lemma FailedTurn(s: State, o: Outcome)
    requires Alone(s) && s.batches.items != [] && !s.batches.stopped && !s.dryRun && !o.reconnected && !o.replied
    ensures var t := Turn(s, o);
            && t.batches.items == s.batches.items[1..] + [s.batches.items[0]]
            && t.batches.stopped == s.batches.stopped && t.dryRun == s.dryRun && t.log == s.log
  {
    TurnIsAtOnce(s, o);
  }
}
