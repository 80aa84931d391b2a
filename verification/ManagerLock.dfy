/**
 * `stop_all` against the reloader: both hold the manager's mutex while they join stream threads. A step is one move of
 * the main thread, of the reloader in `update_streams`, or of a stream thread.
 */
module ManagerLock {
  import opened Sequences
  import opened Pipeline
  import opened PipelineControl

  datatype Owner = Nobody | Main | Reloader

  /**
   * The main thread: before `stop_all`, waiting for the mutex, clearing the map of threads, joining one, or
   * through.
   */
  datatype MainPhase = Working | Wanting | Clearing | JoinMain(i: nat) | Through

  /** The reloader: outside `update_streams`, with streams still to stop and to start, or joining one. */
  datatype ReloaderPhase =
    | Outside
    | Updating(toStop: seq<nat>, toStart: nat)
    | JoinOne(i: nat, toStop: seq<nat>, toStart: nat)

  /** All stream threads ever started; `registered` are those in the manager's map. */
  datatype Manager = Manager(
    streams: seq<Stream>, registered: set<nat>, owner: Owner, main: MainPhase, reloader: ReloaderPhase)

  datatype Move =
    | StreamMove(i: nat, sa: StreamAct)
    | MainCalls | MainLocks | MainAsks(i: nat) | MainJoins | MainUnlocks
    | ReloaderLocks(toStop: seq<nat>, toStart: nat) | ReloaderAsks | ReloaderJoins | ReloaderStarts | ReloaderUnlocks

  predicate CanMove(m: Manager, a: Move) {
    match a
    case StreamMove(i, sa) =>
      && i < |m.streams|
      && (match sa
          case Read(_) => m.streams[i].phase == Reading && !m.streams[i].stop
          case Emit => m.streams[i].phase.Emitting?
          case Leave => m.streams[i].phase == Reading)
    case MainCalls => m.main == Working
    case MainLocks => m.main == Wanting && m.owner == Nobody
    case MainAsks(i) => m.main == Clearing && i in m.registered && i < |m.streams|
    case MainJoins => m.main.JoinMain? && m.main.i < |m.streams| && m.streams[m.main.i].phase == StreamDone
    case MainUnlocks => m.main == Clearing && m.registered == {}
    case ReloaderLocks(toStop, _) =>
      m.reloader == Outside && m.owner == Nobody && Distinct(toStop) && forall i | i in toStop :: i in m.registered
    case ReloaderAsks => m.reloader.Updating? && m.reloader.toStop != [] && m.reloader.toStop[0] < |m.streams|
    case ReloaderJoins =>
      m.reloader.JoinOne? && m.reloader.i < |m.streams| && m.streams[m.reloader.i].phase == StreamDone
    case ReloaderStarts => m.reloader.Updating? && m.reloader.toStop == [] && m.reloader.toStart > 0
    case ReloaderUnlocks => m.reloader == Updating([], 0)
  }

  /** A stream thread moves on; what it pushes does not matter here. */
  function Moved(t: Stream, sa: StreamAct): Stream {
    match sa
    case Read(out) => t.(phase := Emitting(out))
    case Leave => t.(phase := StreamDone)
    case Emit =>
      if !t.phase.Emitting? then t
      else if t.phase.out == [] then t.(phase := Reading) else t.(phase := Emitting(t.phase.out[1..]))
  }

  /** Stream threads move as they do in the pipeline. */
  lemma SameStreamMoves(s: State, m: Manager, i: nat, sa: StreamAct)
    requires s.streams == m.streams
    ensures StreamEnabled(s, i, sa) <==> CanMove(m, StreamMove(i, sa))
    ensures StreamEnabled(s, i, sa) ==> StreamApply(s, i, sa).streams == Next(m, StreamMove(i, sa)).streams
  {
  }

  function Ask(streams: seq<Stream>, i: nat): seq<Stream>
    requires i < |streams|
  {
    streams[i := streams[i].(stop := true)]
  }

  function Next(m: Manager, a: Move): Manager
    requires CanMove(m, a)
  {
    match a
    case StreamMove(i, sa) => m.(streams := m.streams[i := Moved(m.streams[i], sa)])
    case MainCalls => m.(main := Wanting)
    case MainLocks => m.(main := Clearing, owner := Main)
    case MainAsks(i) => m.(main := JoinMain(i), streams := Ask(m.streams, i))
    case MainJoins => m.(main := Clearing, registered := m.registered - {m.main.i})
    case MainUnlocks => m.(main := Through, owner := Nobody)
    case ReloaderLocks(toStop, toStart) => m.(reloader := Updating(toStop, toStart), owner := Reloader)
    case ReloaderAsks =>
      var r := m.reloader;
      m.(reloader := JoinOne(r.toStop[0], r.toStop[1..], r.toStart), streams := Ask(m.streams, r.toStop[0]))
    case ReloaderJoins =>
      var r := m.reloader;
      m.(reloader := Updating(r.toStop, r.toStart), registered := m.registered - {r.i})
    case ReloaderStarts =>
      m.(reloader := Updating([], m.reloader.toStart - 1), streams := m.streams + [Stream(false, Reading)],
         registered := m.registered + {|m.streams|})
    case ReloaderUnlocks => m.(reloader := Outside, owner := Nobody)
  }

  // ---------- What every step keeps ----------

  predicate MainHolds(m: Manager) {
    m.main.Clearing? || m.main.JoinMain?
  }

  /** The mutex has the owner it should, so never both; a thread being joined is registered and has been asked. */
  predicate LockInv(m: Manager) {
    && (m.owner == Main <==> MainHolds(m)) && (m.owner == Reloader <==> m.reloader != Outside)
    && (forall i | i in m.registered :: i < |m.streams|)
    && (forall i | 0 <= i < |m.streams| :: i in m.registered || m.streams[i].phase == StreamDone)
    && (m.main.JoinMain? ==> m.main.i in m.registered && m.streams[m.main.i].stop)
    && (m.reloader != Outside ==> Distinct(m.reloader.toStop) && forall i | i in m.reloader.toStop :: i in m.registered)
    && (m.reloader.JoinOne? ==>
          m.reloader.i in m.registered && m.streams[m.reloader.i].stop && m.reloader.i !in m.reloader.toStop)
  }

  lemma AsksNext(m: Manager)
    requires LockInv(m) && CanMove(m, ReloaderAsks)
    ensures LockInv(Next(m, ReloaderAsks))
  {
    var ts := m.reloader.toStop;
    assert forall i | i in ts[1..] :: i in ts;
    assert ts[0] !in ts[1..];
    assert ts[0] in ts;
  }

  lemma LockStep(m: Manager, a: Move)
    requires LockInv(m) && CanMove(m, a)
    ensures LockInv(Next(m, a))
  {
    match a
    case ReloaderAsks => AsksNext(m);
    case _ =>
  }

  /** While `stop_all` is at its joins the reloader can neither start a stream, nor ask one, nor join one. */
  lemma StopAllIsAlone(m: Manager, a: Move)
    requires LockInv(m) && MainHolds(m) && CanMove(m, a)
    ensures !(a.ReloaderLocks? || a.ReloaderAsks? || a.ReloaderJoins? || a.ReloaderStarts? || a.ReloaderUnlocks?)
    ensures |Next(m, a).streams| == |m.streams|
  {
  }

  /** When `stop_all` lets go of the mutex and returns, every stream thread ever started has finished. */
  lemma AllJoined(m: Manager)
    requires LockInv(m) && CanMove(m, MainUnlocks)
    ensures Next(m, MainUnlocks).main == Through
    ensures forall i | 0 <= i < |m.streams| :: Next(m, MainUnlocks).streams[i].phase == StreamDone
  {
  }

  // ---------- No deadlock ----------

  /**
   * What `stop_all` waits for: its own next move, or that of whoever holds the mutex, or of the thread being
   * joined.
   */
  predicate Needed(m: Manager, a: Move) {
    if m.owner == Reloader then
      match a
      case StreamMove(i, _) => m.reloader.JoinOne? && i == m.reloader.i
      case ReloaderAsks => true
      case ReloaderJoins => true
      case ReloaderStarts => true
      case ReloaderUnlocks => true
      case _ => false
    else
      match a
      case StreamMove(i, _) => m.main == JoinMain(i)
      case MainLocks => true
      case MainAsks(_) => true
      case MainJoins => true
      case MainUnlocks => true
      case _ => false
  }

  /** `stop_all` has been called and has not returned. */
  predicate Stopping(m: Manager) {
    m.main != Working && m.main != Through
  }

  lemma JoinedCanMove(m: Manager, i: nat)
    requires i < |m.streams| && m.streams[i].phase != StreamDone
    ensures exists sa :: CanMove(m, StreamMove(i, sa))
  {
    var sa := if m.streams[i].phase == Reading then Leave else Emit;
    assert CanMove(m, StreamMove(i, sa));
  }

  lemma ReloaderCanMove(m: Manager) returns (a: Move)
    requires LockInv(m) && m.owner == Reloader
    ensures Needed(m, a) && CanMove(m, a)
  {
    match m.reloader
    case Updating(toStop, toStart) =>
      a := if toStop != [] then ReloaderAsks else if toStart > 0 then ReloaderStarts else ReloaderUnlocks;
      if toStop != [] {
        assert toStop[0] in toStop;
      }
    case JoinOne(i, _, _) =>
      a := ReloaderJoins;
      if m.streams[i].phase != StreamDone {
        JoinedCanMove(m, i);
        var sa :| CanMove(m, StreamMove(i, sa));
        a := StreamMove(i, sa);
      }
  }

  /** A registered thread to ask next, if there is one. */
  lemma MainCanMove(m: Manager) returns (a: Move)
    requires LockInv(m) && Stopping(m) && m.owner != Reloader
    ensures Needed(m, a) && CanMove(m, a)
  {
    match m.main
    case Wanting => a := MainLocks;
    case Clearing =>
      a := MainUnlocks;
      if i :| i in m.registered {
        a := MainAsks(i);
      }
    case JoinMain(i) =>
      a := MainJoins;
      if m.streams[i].phase != StreamDone {
        JoinedCanMove(m, i);
        var sa :| CanMove(m, StreamMove(i, sa));
        a := StreamMove(i, sa);
      }
  }

  /**
   * No deadlock: until `stop_all` returns, something it waits for can move, even while the reloader holds the
   * mutex through its own joins.
   */
  lemma NeverDeadlocked(m: Manager) returns (a: Move)
    requires LockInv(m) && Stopping(m)
    ensures Needed(m, a) && CanMove(m, a)
  {
    if m.owner == Reloader {
      a := ReloaderCanMove(m);
    } else {
      a := MainCanMove(m);
    }
  }

  // ---------- `stop_all` returns ----------

  /** Who has to be done first: the reloader, then the mutex taken, then `stop_all` itself. */
  function LockStage(m: Manager): nat {
    if m.owner == Reloader then 2 else if m.main == Wanting then 1 else 0
  }

  function Work(m: Manager): nat {
    match m.reloader
    case Updating(toStop, toStart) => 2 * |toStop| + toStart + 1
    case JoinOne(_, toStop, toStart) => 2 * |toStop| + toStart + 2
    case Outside =>
      match m.main
      case Clearing => 2 * |m.registered| + 1
      case JoinMain(_) => 2 * |m.registered|
      case _ => 0
  }

  /** How far the thread being joined is from its end. */
  function JoinedRank(m: Manager): nat {
    match m.reloader
    case JoinOne(i, _, _) => if i < |m.streams| then StreamRank(m.streams[i]) else 0
    case Updating(_, _) => 0
    case Outside =>
      match m.main
      case JoinMain(i) => if i < |m.streams| then StreamRank(m.streams[i]) else 0
      case _ => 0
  }

  predicate Closer(t: Manager, m: Manager) {
    || LockStage(t) < LockStage(m)
    || (LockStage(t) == LockStage(m) && Work(t) < Work(m))
    || (LockStage(t) == LockStage(m) && Work(t) == Work(m) && JoinedRank(t) < JoinedRank(m))
  }

  lemma OneFewer(s: set<nat>, i: nat)
    requires i in s
    ensures |s - {i}| == |s| - 1
  {
  }

  lemma MovedCloser(t: Stream, sa: StreamAct)
    requires t.stop && CanMove(Manager([t], {}, Nobody, Working, Outside), StreamMove(0, sa))
    ensures StreamRank(Moved(t, sa)) < StreamRank(t)
  {
  }

  lemma JoinedMoves(m: Manager, i: nat, sa: StreamAct)
    requires LockInv(m) && Needed(m, StreamMove(i, sa)) && CanMove(m, StreamMove(i, sa))
    ensures Closer(Next(m, StreamMove(i, sa)), m)
  {
    MovedCloser(m.streams[i], sa);
  }

  /** Every move that `stop_all` waits for brings its return closer. */
  lemma NeededCloser(m: Manager, a: Move)
    requires LockInv(m) && Stopping(m) && Needed(m, a) && CanMove(m, a)
    ensures Closer(Next(m, a), m)
  {
    match a
    case StreamMove(i, sa) => JoinedMoves(m, i, sa);
    case MainJoins => OneFewer(m.registered, m.main.i);
    case _ =>
  }

  /** No other move takes it further away, save the reloader taking the free mutex once more. */
  lemma OthersKeepAway(m: Manager, a: Move)
    requires LockInv(m) && Stopping(m) && !Needed(m, a) && CanMove(m, a) && !a.ReloaderLocks?
    ensures LockStage(Next(m, a)) == LockStage(m) && Work(Next(m, a)) == Work(m)
    ensures JoinedRank(Next(m, a)) == JoinedRank(m)
  {
  }

  predicate MovesPossible(m: Manager, moves: seq<Move>)
    decreases |moves|
  {
    moves == [] || (CanMove(m, moves[0]) && MovesPossible(Next(m, moves[0]), moves[1..]))
  }

  function AfterMoves(m: Manager, moves: seq<Move>): Manager
    requires MovesPossible(m, moves)
    decreases |moves|
  {
    if moves == [] then m else AfterMoves(Next(m, moves[0]), moves[1..])
  }

  lemma StoppingNext(m: Manager, a: Move)
    requires Stopping(m) && CanMove(m, a)
    ensures Stopping(Next(m, a)) || Next(m, a).main == Through
  {
  }

  /** From every state in which `stop_all` has been called it can return, by moves it waits for alone. */
  lemma {:induction false} StopAllCanReturn(m: Manager) returns (moves: seq<Move>)
    requires LockInv(m) && (Stopping(m) || m.main == Through)
    ensures MovesPossible(m, moves) && AfterMoves(m, moves).main == Through
    decreases LockStage(m), Work(m), JoinedRank(m)
  {
    moves := [];
    if m.main != Through {
      var a := NeverDeadlocked(m);
      NeededCloser(m, a);
      LockStep(m, a);
      StoppingNext(m, a);
      var rest := StopAllCanReturn(Next(m, a));
      moves := [a] + rest;
      assert moves[1..] == rest;
    }
  }

  ghost predicate CanGoOn(m: Manager) {
    exists a :: Needed(m, a) && CanMove(m, a)
  }

  ghost predicate CanReturn(m: Manager) {
    exists moves :: MovesPossible(m, moves) && AfterMoves(m, moves).main == Through
  }

  predicate Fresh(m: Manager) {
    m == Manager([], {}, Nobody, Working, Outside)
  }

  /** The invariant holds in every state of every run, so all of the above does. */
  lemma {:induction false} LockRun(m: Manager, moves: seq<Move>)
    requires LockInv(m) && MovesPossible(m, moves)
    ensures LockInv(AfterMoves(m, moves))
    decreases |moves|
  {
    if moves != [] {
      LockStep(m, moves[0]);
      LockRun(Next(m, moves[0]), moves[1..]);
    }
  }

  /**
   * Whatever the reloader and the streams have done since the start, `stop_all` once called is never deadlocked
   * and can return.
   */
  lemma StopAllReturns(m0: Manager, moves: seq<Move>)
    requires Fresh(m0) && MovesPossible(m0, moves) && Stopping(AfterMoves(m0, moves))
    ensures CanGoOn(AfterMoves(m0, moves)) && CanReturn(AfterMoves(m0, moves))
  {
    LockRun(m0, moves);
    var m := AfterMoves(m0, moves);
    var a := NeverDeadlocked(m);
    assert Needed(m, a) && CanMove(m, a);
    var more := StopAllCanReturn(m);
    assert MovesPossible(m, more) && AfterMoves(m, more).main == Through;
  }
}
