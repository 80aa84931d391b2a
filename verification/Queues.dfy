/** The stoppable queue between threads: its value, and the class whose methods are its mutex sections. */
module Queues {
  import opened Options

  /** What consumers and producers can observe of the queue. */
  datatype Queue<+T> = Queue(items: seq<T>, stopped: bool)

  /** A push after `stop` is dropped silently. */
  function PushTo<T>(q: Queue<T>, x: T): Queue<T> {
    if q.stopped then q else q.(items := q.items + [x])
  }

  function StopQueue<T>(q: Queue<T>): Queue<T> {
    q.(stopped := true)
  }

  /** The condition `wait_and_pop` waits for. */
  predicate Ready<T>(q: Queue<T>) {
    q.items != [] || q.stopped
  }

  /** What `wait_and_pop` returns once ready: the front item, or nothing when stopped and empty. */
  function Front<T>(q: Queue<T>): Option<T>
    requires Ready(q)
  {
    if q.items == [] then None else Some(q.items[0])
  }

  function PopFrom<T>(q: Queue<T>): Queue<T>
    requires Ready(q)
  {
    if q.items == [] then q else q.(items := q.items[1..])
  }

  datatype QueueStats = QueueStats(currentSize: nat, peakSize: nat, totalPushed: nat, totalPopped: nat, dropCount: nat)

  class Fifo<T> {
    var queue: seq<T>
    var stopped: bool
    var peakSize: nat
    var totalPushed: nat
    var totalPopped: nat
    var dropCount: nat

    /** Every item ever accepted, in order; `delivered` is the prefix handed out. */
    ghost var accepted: seq<T>
    ghost var delivered: seq<T>

    /** Nothing is lost, duplicated or reordered inside the queue, and the counters count. */
    ghost predicate Valid()
      reads this
    {
      && accepted == delivered + queue
      && totalPushed == |accepted| && totalPopped == |delivered|
      && |queue| <= peakSize <= totalPushed
    }

    ghost function State(): Queue<T>
      reads this
    {
      Queue(queue, stopped)
    }

    constructor ()
      ensures Valid() && State() == Queue([], false) && accepted == [] && peakSize == 0 && dropCount == 0
    {
      queue, stopped := [], false;
      peakSize, totalPushed, totalPopped, dropCount := 0, 0, 0, 0;
      accepted, delivered := [], [];
    }

    method Push(value: T)
      requires Valid()
      modifies this
      ensures Valid() && State() == PushTo(old(State()), value)
      ensures accepted == if old(stopped) then old(accepted) else old(accepted) + [value]
      ensures delivered == old(delivered) && dropCount == old(dropCount)
      ensures peakSize == if |queue| > old(peakSize) then |queue| else old(peakSize)
    {
      if stopped {
        return;
      }
      queue := queue + [value];
      totalPushed := totalPushed + 1;
      accepted := accepted + [value];
      if |queue| > peakSize {
        peakSize := |queue|;
      }
    }

    /** The part of `wait_and_pop` after its wait. */
    method PopReady() returns (r: Option<T>)
      requires Valid() && Ready(State())
      modifies this
      ensures Valid() && r == old(Front(State())) && State() == old(PopFrom(State()))
      ensures accepted == old(accepted) && peakSize == old(peakSize) && dropCount == old(dropCount)
      ensures r.Some? ==> delivered == old(delivered) + [r.value] && r.value == accepted[|old(delivered)|]
      ensures r.None? ==> delivered == accepted == old(delivered)
      ensures r.Some? <==> old(queue) != []
      ensures r.None? ==> old(stopped)
    {
      if stopped && queue == [] {
        return None;
      }
      r := Some(queue[0]);
      delivered := delivered + [queue[0]];
      queue := queue[1..];
      totalPopped := totalPopped + 1;
    }

    method Stop()
      requires Valid()
      modifies `stopped
      ensures Valid() && State() == StopQueue(old(State()))
    {
      stopped := true;
    }

    method GetStats(resetPeak: bool) returns (stats: QueueStats)
      requires Valid()
      modifies `peakSize
      ensures Valid()
      ensures stats == QueueStats(|queue|, old(peakSize), |accepted|, |delivered|, dropCount)
      ensures stats.totalPushed == stats.totalPopped + stats.currentSize
      ensures peakSize == if resetPeak then |queue| else old(peakSize)
    {
      stats := QueueStats(|queue|, peakSize, totalPushed, totalPopped, dropCount);
      if resetPeak {
        peakSize := |queue|;
      }
    }
  }
}
