/** Infinite runs of the shutdown: it is over as soon as the threads being joined keep getting their turns. */
module PipelineTermination {
  import opened Pipeline
  import opened PipelineControl

  /** A run without end: the state before each step, and the step. */
  datatype Trace = Trace(state: nat -> State, action: nat -> Action)

  ghost predicate IsRun(tr: Trace) {
    forall n: nat :: StepsAt(tr, n)
  }

  ghost predicate StepsAt(tr: Trace, n: nat) {
    Enabled(tr.state(n), tr.action(n)) && tr.state(n + 1) == Apply(tr.state(n), tr.action(n))
  }

  ghost predicate AwaitedAt(tr: Trace, n: nat) {
    Awaited(tr.state(n), tr.action(n))
  }

  /** As long as the shutdown is not over, the main thread or the thread it joins takes another step some time. */
  ghost predicate IsFair(tr: Trace) {
    forall n: nat | tr.state(n).ctl != Finished :: exists m: nat :: n <= m && AwaitedAt(tr, m)
  }

  predicate RankAtMost(t: State, s: State) {
    CallsLeft(t) < CallsLeft(s) || (CallsLeft(t) == CallsLeft(s) && StepsLeft(t) <= StepsLeft(s))
  }

  lemma OneStep(tr: Trace, n: nat)
    requires IsRun(tr) && ControlInv(tr.state(n)) && tr.state(n).ctl != Running
    ensures ControlInv(tr.state(n + 1)) && tr.state(n + 1).ctl != Running
    ensures RankAtMost(tr.state(n + 1), tr.state(n))
    ensures AwaitedAt(tr, n) ==> RankDecreases(tr.state(n), tr.state(n + 1))
  {
    assert StepsAt(tr, n);
    var s, a := tr.state(n), tr.action(n);
    ControlStep(s, a);
    StillStopping(s, a);
    if Awaited(s, a) {
      AwaitedDecreases(s, a);
    } else {
      OthersDoNotDelay(s, a);
    }
  }

  /** The measure never rises, whoever moves. */
  lemma {:induction false} NeverRises(tr: Trace, n: nat, m: nat)
    requires IsRun(tr) && ControlInv(tr.state(n)) && tr.state(n).ctl != Running && n <= m
    ensures ControlInv(tr.state(m)) && tr.state(m).ctl != Running && RankAtMost(tr.state(m), tr.state(n))
    decreases m - n
  {
    if n < m {
      NeverRises(tr, n, m - 1);
      OneStep(tr, m - 1);
    }
  }

  /** The shutdown is going on, with this rank. */
  ghost predicate RanksAt(tr: Trace, n: nat, calls: nat, steps: nat) {
    && ControlInv(tr.state(n)) && tr.state(n).ctl != Running
    && CallsLeft(tr.state(n)) == calls && StepsLeft(tr.state(n)) == steps
  }

  lemma RankChain(s: State, t: State, u: State)
    requires RankAtMost(t, s) && RankDecreases(t, u)
    ensures CallsLeft(u) < CallsLeft(s) || (CallsLeft(u) == CallsLeft(s) && StepsLeft(u) < StepsLeft(s))
  {
  }

  lemma NextTurn(tr: Trace, n: nat, calls: nat, steps: nat) returns (m: nat, calls': nat, steps': nat)
    requires IsRun(tr) && IsFair(tr) && RanksAt(tr, n, calls, steps) && tr.state(n).ctl != Finished
    ensures n < m && RanksAt(tr, m, calls', steps')
    ensures calls' < calls || (calls' == calls && steps' < steps)
  {
    var turn: nat :| n <= turn && AwaitedAt(tr, turn);
    NeverRises(tr, n, turn);
    OneStep(tr, turn);
    RankChain(tr.state(n), tr.state(turn), tr.state(turn + 1));
    m, calls', steps' := turn + 1, CallsLeft(tr.state(turn + 1)), StepsLeft(tr.state(turn + 1));
  }

  lemma {:induction false} Terminates(tr: Trace, n: nat, calls: nat, steps: nat) returns (m: nat)
    requires IsRun(tr) && IsFair(tr) && RanksAt(tr, n, calls, steps)
    ensures n <= m && tr.state(m).ctl == Finished
    decreases calls, steps
  {
    m := n;
    if tr.state(n).ctl != Finished {
      var later, calls', steps' := NextTurn(tr, n, calls, steps);
      m := Terminates(tr, later, calls', steps');
    }
  }

  /**
   * Shutdown terminates: every infinite run from a state of the shutdown gets to its end, whatever the other
   * threads and the reloader do and however Redis answers, if the threads being joined are not starved.
   */
  lemma ShutdownTerminates(tr: Trace, n: nat)
    requires IsRun(tr) && IsFair(tr) && ControlInv(tr.state(n)) && tr.state(n).ctl != Running
    ensures exists m: nat :: n <= m && tr.state(m).ctl == Finished
  {
    var m := Terminates(tr, n, CallsLeft(tr.state(n)), StepsLeft(tr.state(n)));
  }

  // ---------- Such runs exist ----------

  /** `n` streams more. */
  function Spawned(s: State, n: nat): State {
    if n == 0 then s else Spawned(s, n - 1).(streams := Spawned(s, n - 1).streams + [Stream(false, Reading)])
  }

  lemma {:induction false} SpawnedKeeps(s: State, n: nat)
    ensures Spawned(s, n).ctl == s.ctl
  {
    if n > 0 {
      SpawnedKeeps(s, n - 1);
    }
  }

  lemma {:induction false} PossiblePrefix(s: State, run: seq<Action>, n: nat)
    requires Possible(s, run) && n < |run|
    ensures Possible(s, run[..n]) && Possible(s, run[..n + 1])
    ensures Enabled(After(s, run[..n]), run[n])
    ensures After(s, run[..n + 1]) == Apply(After(s, run[..n]), run[n])
    decreases |run|
  {
    if n == 0 {
      assert run[..1] == [run[0]] && [run[0]][1..] == [];
    } else {
      PossiblePrefix(Apply(s, run[0]), run[1..], n - 1);
      assert run[..n][1..] == run[1..][..n - 1] && run[..n + 1][1..] == run[1..][..n];
    }
  }

  /** The state before step `n` of a run that ends with the shutdown and then only starts streams. */
  ghost function StateAt(s: State, run: seq<Action>, n: nat): State
    requires Possible(s, run)
  {
    if n <= |run| then (if n < |run| then PossiblePrefix(s, run, n); After(s, run[..n]) else After(s, run))
    else Spawned(After(s, run), n - |run|)
  }

  lemma StepOfFinished(s: State, run: seq<Action>, n: nat)
    requires Possible(s, run) && After(s, run).ctl == Finished && n >= |run|
    ensures StateAt(s, run, n).ctl == Finished && Enabled(StateAt(s, run, n), SpawnStream)
    ensures StateAt(s, run, n + 1) == Apply(StateAt(s, run, n), SpawnStream)
  {
    SpawnedKeeps(After(s, run), n - |run|);
    assert Spawned(After(s, run), 0) == After(s, run);
  }

  lemma StepOfRun(s: State, run: seq<Action>, n: nat)
    requires Possible(s, run) && n < |run|
    ensures Enabled(StateAt(s, run, n), run[n])
    ensures StateAt(s, run, n + 1) == Apply(StateAt(s, run, n), run[n])
  {
    PossiblePrefix(s, run, n);
    assert run[..|run|] == run;
  }

  /** Every step is one that the shutdown waits for. */
  predicate AllAwaited(s: State, run: seq<Action>)
    requires Possible(s, run)
    decreases |run|
  {
    run != [] ==> Awaited(s, run[0]) && AllAwaited(Apply(s, run[0]), run[1..])
  }

  lemma {:induction false} AwaitedAtIndex(s: State, run: seq<Action>, n: nat)
    requires Possible(s, run) && AllAwaited(s, run) && n < |run|
    ensures Possible(s, run[..n]) && Awaited(After(s, run[..n]), run[n])
    decreases |run|
  {
    if n > 0 {
      AwaitedAtIndex(Apply(s, run[0]), run[1..], n - 1);
      assert run[..n][1..] == run[1..][..n - 1];
    }
  }

  lemma {:induction false} AwaitedRun(s: State) returns (run: seq<Action>)
    requires ControlInv(s) && s.ctl != Running
    ensures Possible(s, run) && AllAwaited(s, run) && After(s, run).ctl == Finished
    decreases CallsLeft(s), StepsLeft(s)
  {
    run := [];
    if s.ctl != Finished {
      var a := AwaitedNext(s);
      var rest := AwaitedRun(Apply(s, a));
      run := [a] + rest;
      assert run[1..] == rest;
    }
  }

  ghost function TraceOf(s: State, run: seq<Action>): Trace
    requires Possible(s, run)
  {
    Trace((n: nat) => StateAt(s, run, n), (n: nat) => if n < |run| then run[n] else SpawnStream)
  }

  /** From every state of the shutdown there is such a run, so that the theorem above is about something. */
  lemma FairRunExists(s: State) returns (tr: Trace)
    requires ControlInv(s) && s.ctl != Running
    ensures IsRun(tr) && IsFair(tr) && tr.state(0) == s
  {
    var run := AwaitedRun(s);
    tr := TraceOf(s, run);
    forall n: nat ensures StepsAt(tr, n) {
      if n < |run| {
        StepOfRun(s, run, n);
      } else {
        StepOfFinished(s, run, n);
      }
    }
    forall n: nat | tr.state(n).ctl != Finished ensures exists m: nat :: n <= m && AwaitedAt(tr, m) {
      if n < |run| {
        AwaitedAtIndex(s, run, n);
        assert AwaitedAt(tr, n);
      } else {
        StepOfFinished(s, run, n);
      }
    }
    assert run[..0] == [];
  }
}
