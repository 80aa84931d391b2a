/**
 * The queue's condition variable as a step system: each step is one mutex section of `push`,
 * `wait_and_pop` or `stop`, a spurious wake-up, or a woken waiter getting the mutex back.
 */
module Monitor {
  import opened Options
  import opened Queues

  type Tid = nat

  /** `sleeping` waiters are in `cv_.wait`; `woken` ones have been notified but not run yet. */
  datatype State<T> = State(q: Queue<T>, sleeping: set<Tid>, woken: set<Tid>, accepted: seq<T>, delivered: seq<T>)

  datatype Step<T> =
    | Push(x: T, wake: Option<Tid>)
    | Enter(c: Tid)
    | Spurious(c: Tid)
    | Resume(c: Tid)
    | Stop

  predicate Enabled<T>(s: State<T>, a: Step<T>) {
    match a
    case Push(_, wake) =>
      // `notify_one` wakes one sleeper if there is any; a push after `stop` returns before it.
      if s.q.stopped || s.sleeping == {} then wake.None? else wake.Some? && wake.value in s.sleeping
    case Enter(c) => c !in s.sleeping && c !in s.woken
    case Spurious(c) => c in s.sleeping
    case Resume(c) => c in s.woken
    case Stop => true
  }

  /** A consumer with the mutex tests the predicate: it pops and leaves, or goes (back) to sleep. */
  function Check<T>(s: State<T>, c: Tid): State<T> {
    if Ready(s.q) then
      s.(q := PopFrom(s.q), sleeping := s.sleeping - {c}, woken := s.woken - {c},
         delivered := if s.q.items == [] then s.delivered else s.delivered + [s.q.items[0]])
    else s.(sleeping := s.sleeping + {c}, woken := s.woken - {c})
  }

  function Apply<T>(s: State<T>, a: Step<T>): State<T>
    requires Enabled(s, a)
  {
    match a
    case Push(x, wake) =>
      var w := if wake.Some? then {wake.value} else {};
      s.(q := PushTo(s.q, x), sleeping := s.sleeping - w, woken := s.woken + w,
         accepted := if s.q.stopped then s.accepted else s.accepted + [x])
    case Enter(c) => Check(s, c)
    case Spurious(c) => s.(sleeping := s.sleeping - {c}, woken := s.woken + {c})
    case Resume(c) => Check(s, c)
    case Stop => s.(q := StopQueue(s.q), sleeping := {}, woken := s.woken + s.sleeping)
  }

  function Initial<T>(): State<T> {
    State(Queue([], false), {}, {}, [], [])
  }

  predicate Possible<T>(s: State<T>, run: seq<Step<T>>)
    decreases |run|
  {
    run == [] || (Enabled(s, run[0]) && Possible(Apply(s, run[0]), run[1..]))
  }

  function After<T>(s: State<T>, run: seq<Step<T>>): State<T>
    requires Possible(s, run)
    decreases |run|
  {
    if run == [] then s else After(Apply(s, run[0]), run[1..])
  }

  ghost predicate Inv<T>(s: State<T>) {
    && s.sleeping !! s.woken
    && (s.sleeping != {} ==> |s.q.items| <= |s.woken|)
    && (s.q.stopped ==> s.sleeping == {})
    && s.accepted == s.delivered + s.q.items
  }

  lemma InvStep<T>(s: State<T>, a: Step<T>)
    requires Inv(s) && Enabled(s, a)
    ensures Inv(Apply(s, a))
  {
    match a
    case Push(x, wake) =>
      assert s.accepted + [x] == s.delivered + (s.q.items + [x]);
    case Spurious(c) =>
    case Stop =>
    case Enter(c) => CheckInv(s, c);
    case Resume(c) => CheckInv(s, c);
  }

  lemma CheckInv<T>(s: State<T>, c: Tid)
    requires Inv(s) && c !in s.sleeping
    ensures Inv(Check(s, c))
  {
    assert s.sleeping - {c} == s.sleeping;
    OneLess(s.woken, c);
    if s.q.items != [] {
      FrontOut(s.delivered, s.q.items);
    }
  }

  lemma FrontOut<T>(delivered: seq<T>, items: seq<T>)
    requires items != []
    ensures delivered + items == (delivered + [items[0]]) + items[1..]
  {
  }

  lemma OneLess(woken: set<Tid>, c: Tid)
    ensures |woken| - 1 <= |woken - {c}|
  {
    if c in woken {
      assert woken == (woken - {c}) + {c};
    } else {
      assert woken - {c} == woken;
    }
  }

  lemma {:induction false} InvRun<T>(s: State<T>, run: seq<Step<T>>)
    requires Inv(s) && Possible(s, run)
    ensures Inv(After(s, run))
    decreases |run|
  {
    if run != [] {
      InvStep(s, run[0]);
      InvRun(Apply(s, run[0]), run[1..]);
    }
  }

  /**
   * No lost wake-up, in every reachable state, with any producers, consumers and spurious wake-ups:
   * if anyone sleeps, every queued item has a woken waiter coming for it, so a non-empty queue always
   * has a waiter whose next step takes the front item.
   */
  lemma NoLostWakeup<T>(run: seq<Step<T>>)
    requires Possible(Initial(), run)
    ensures var s := After(Initial<T>(), run);
            && (s.sleeping == {} || |s.q.items| <= |s.woken|)
            && (s.sleeping != {} && s.q.items != [] ==>
                  exists c :: c in s.woken && Enabled(s, Resume(c))
                              && Apply(s, Resume(c)).delivered == s.delivered + [s.q.items[0]])
  {
    InvRun(Initial(), run);
    var s := After(Initial<T>(), run);
    if s.sleeping != {} && s.q.items != [] {
      assert s.woken != {};
      var c :| c in s.woken;
      assert Enabled(s, Resume(c)) && Apply(s, Resume(c)).delivered == s.delivered + [s.q.items[0]];
    }
  }

  /** Items come out in push order, each once: what was delivered is a prefix of what was accepted. */
  lemma DeliveredInOrder<T>(run: seq<Step<T>>)
    requires Possible(Initial(), run)
    ensures var s := After(Initial<T>(), run); s.accepted == s.delivered + s.q.items
  {
    InvRun(Initial(), run);
  }

  /** After `stop` nobody sleeps, now or later, and nothing more is accepted. */
  lemma {:induction false} NobodySleepsAfterStop<T>(s: State<T>, run: seq<Step<T>>)
    requires Inv(s) && s.q.stopped && Possible(s, run)
    ensures var t := After(s, run); t.q.stopped && t.sleeping == {} && t.accepted == s.accepted
    decreases |run|
  {
    if run != [] {
      InvStep(s, run[0]);
      NobodySleepsAfterStop(Apply(s, run[0]), run[1..]);
    }
  }

  /** A consumer's step: it calls `wait_and_pop`, or has been woken and has the mutex back. */
  predicate IsConsumerStep<T>(a: Step<T>, c: Tid) {
    a == Enter(c) || a == Resume(c)
  }

  /**
   * What a consumer does with the mutex: it sleeps, taking nothing, exactly when the queue is empty and has not
   * stopped; otherwise it leaves with the front item, or with nothing from a stopped empty queue.
   */
  lemma ConsumerSleepsIff<T>(s: State<T>, a: Step<T>, c: Tid)
    requires IsConsumerStep(a, c) && Enabled(s, a)
    ensures c in Apply(s, a).sleeping <==> s.q.items == [] && !s.q.stopped
    ensures s.q.items == [] ==> Apply(s, a).q == s.q && Apply(s, a).delivered == s.delivered
    ensures s.q.items != [] ==>
              && Apply(s, a).q.items == s.q.items[1..] && Apply(s, a).q.stopped == s.q.stopped
              && Apply(s, a).delivered == s.delivered + [s.q.items[0]]
    ensures c !in Apply(s, a).woken
  {
  }

  /** Any sleeper may wake for no reason. */
  lemma AnySleeperMayWake<T>(s: State<T>, c: Tid)
    requires c in s.sleeping
    ensures Enabled(s, Spurious(c)) && c in Apply(s, Spurious(c)).woken && c !in Apply(s, Spurious(c)).sleeping
    ensures Apply(s, Spurious(c)).q == s.q
  {
  }

  // ---------- The queue without waiting ----------

  /** A push, a pop that finds the queue ready, and a stop, each in one piece. */
  datatype Op<T> = PushOp(x: T) | PopOp | StopOp

  /** The queue and all it has accepted and delivered. */
  datatype View<T> = View(q: Queue<T>, accepted: seq<T>, delivered: seq<T>)

  predicate OpEnabled<T>(v: View<T>, op: Op<T>) {
    op.PopOp? ==> Ready(v.q)
  }

  function ApplyOp<T>(v: View<T>, op: Op<T>): View<T>
    requires OpEnabled(v, op)
  {
    match op
    case PushOp(x) => View(PushTo(v.q, x), if v.q.stopped then v.accepted else v.accepted + [x], v.delivered)
    case PopOp =>
      View(PopFrom(v.q), v.accepted, match Front(v.q) case None => v.delivered case Some(x) => v.delivered + [x])
    case StopOp => View(StopQueue(v.q), v.accepted, v.delivered)
  }

  predicate OpsPossible<T>(v: View<T>, ops: seq<Op<T>>)
    decreases |ops|
  {
    ops == [] || (OpEnabled(v, ops[0]) && OpsPossible(ApplyOp(v, ops[0]), ops[1..]))
  }

  function AfterOps<T>(v: View<T>, ops: seq<Op<T>>): View<T>
    requires OpsPossible(v, ops)
    decreases |ops|
  {
    if ops == [] then v else AfterOps(ApplyOp(v, ops[0]), ops[1..])
  }

  function ViewOf<T>(s: State<T>): View<T> {
    View(s.q, s.accepted, s.delivered)
  }

  /** What a step is to the others: waiting, sleeping on and waking up are nothing. */
  function Seen<T>(s: State<T>, a: Step<T>): seq<Op<T>> {
    match a
    case Push(x, _) => [PushOp(x)]
    case Stop => [StopOp]
    case Spurious(_) => []
    case _ => if Ready(s.q) then [PopOp] else []
  }

  function SeenRun<T>(s: State<T>, run: seq<Step<T>>): seq<Op<T>>
    requires Possible(s, run)
    decreases |run|
  {
    if run == [] then [] else Seen(s, run[0]) + SeenRun(Apply(s, run[0]), run[1..])
  }

  /**
   * Waiting is invisible: every run of producers and consumers, with all its sleeping and waking, is a run of whole
   * pushes, pops and stops that accepts and delivers the same items.
   */
  lemma {:induction false} RefinesQueue<T>(s: State<T>, run: seq<Step<T>>)
    requires Possible(s, run)
    ensures OpsPossible(ViewOf(s), SeenRun(s, run))
    ensures AfterOps(ViewOf(s), SeenRun(s, run)) == ViewOf(After(s, run))
    decreases |run|
  {
    if run != [] {
      var next := Apply(s, run[0]);
      var seen, rest := Seen(s, run[0]), SeenRun(next, run[1..]);
      RefinesQueue(next, run[1..]);
      if seen == [] {
        assert seen + rest == rest;
      } else {
        assert (seen + rest)[1..] == rest;
        assert ApplyOp(ViewOf(s), seen[0]) == ViewOf(next);
      }
    }
  }

  /** The run in which nobody ever has to wait. */
  function WithoutWaiting<T>(ops: seq<Op<T>>, c: Tid): seq<Step<T>> {
    if ops == [] then []
    else
      var step := match ops[0] case PushOp(x) => Push(x, None) case PopOp => Enter(c) case StopOp => Stop;
      [step] + WithoutWaiting(ops[1..], c)
  }

  /** ... and every run of whole operations is one of producers and consumers, so nothing else is visible either. */
  lemma {:induction false} EveryQueueRunOccurs<T>(s: State<T>, ops: seq<Op<T>>, c: Tid)
    requires s.sleeping == {} && s.woken == {} && OpsPossible(ViewOf(s), ops)
    ensures Possible(s, WithoutWaiting(ops, c)) && SeenRun(s, WithoutWaiting(ops, c)) == ops
    ensures ViewOf(After(s, WithoutWaiting(ops, c))) == AfterOps(ViewOf(s), ops)
    decreases |ops|
  {
    if ops != [] {
      var run := WithoutWaiting(ops, c);
      assert run[1..] == WithoutWaiting(ops[1..], c);
      EveryQueueRunOccurs(Apply(s, run[0]), ops[1..], c);
      assert ops == [ops[0]] + ops[1..];
    }
  }
}
