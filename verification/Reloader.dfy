/** The reloader driving the reconciler: calls of `update_streams` repeated, and whole runs of reload cycles. */
module Reloader {
  import opened Options
  import opened Widths
  import opened Configs
  import opened Reconciler

  // ---------- One call ----------

  /** All desired ids fit the `int` keys. */
  predicate Fits(desired: Active) {
    forall id | id in desired :: IsInt32(id)
  }

  /** The recurrence by id: survive if unchanged, start if desired and not registered. */
  ghost function ById(active: Active, desired: Active): Active {
    map id | id in active.Keys + desired.Keys && Stays(id, active, desired)
      :: if id in active then active[id] else desired[id]
  }

  lemma OwnWinner(id: int, desired: Active)
    requires id in desired && Fits(desired)
    ensures Trunc32(id) == id && id in KeysOf(desired) && Winner(id, desired) == id
  {
    assert StartsLast(Winner(id, desired), desired);
  }

  /** A call is the recurrence by id exactly when all desired ids fit; disabled entries do not matter. */
  lemma ByIdIff(active: Active, desired: Active)
    requires Keyed(active) && WellKeyed(desired)
    ensures Reconcile(active, desired) == ById(active, desired) <==> Fits(desired)
  {
    var r, plain := Reconcile(active, desired), ById(active, desired);
    if Fits(desired) {
      forall k ensures k in r <==> k in plain
        ensures k in r && k in plain ==> r[k] == plain[k]
      {
        if k in desired {
          OwnWinner(k, desired);
        }
      }
    } else {
      var id :| id in desired && !IsInt32(id);
      assert id in plain && id !in r;
    }
  }

  /** Every registered stream has the configuration that is desired for its own id. */
  ghost predicate FromDesired(active: Active, desired: Active) {
    Keyed(active)
    && forall k | k in active :: active[k].id in desired && SameStream(desired[active[k].id], active[k])
  }

  /** That holds after every call, whatever was registered and however wide the ids. */
  lemma ReconciledFromDesired(active: Active, desired: Active)
    requires Keyed(active) && WellKeyed(desired)
    ensures FromDesired(Reconcile(active, desired), desired)
  {
    var r := Reconcile(active, desired);
    forall k | k in r
      ensures Trunc32(r[k].id) == k && r[k].id in desired && SameStream(desired[r[k].id], r[k])
    {
      if k !in active {
        assert StartsLast(Winner(k, desired), desired);
      }
    }
  }

  ghost predicate AllCurrent(active: Active, desired: Active) {
    forall k | k in active :: Survives(k, active, desired)
  }

  /** No desired id displaces the one that equals its key. */
  predicate KeepsOwnKey(id: int, desired: Active) {
    Trunc32(id) in desired && id <= Trunc32(id)
  }

  lemma KeyWinsIff(k: int, desired: Active)
    requires k in KeysOf(desired)
    ensures Winner(k, desired) == k <==> forall id | id in desired && Trunc32(id) == k :: KeepsOwnKey(id, desired)
  {
    var w := Winner(k, desired);
    assert StartsLast(w, desired);
    assert Trunc32(k) == k;
  }

  /** The next call keeps every stream exactly when every key just filled went to the id that equals it. */
  lemma AllCurrentIff(active: Active, desired: Active)
    requires WellKeyed(desired)
    ensures AllCurrent(Reconcile(active, desired), desired)
       <==> forall id | id in desired && Trunc32(id) !in active :: KeepsOwnKey(id, desired)
  {
    var r := Reconcile(active, desired);
    forall k | k in KeysOf(desired) && k !in active
      ensures Survives(k, r, desired) <==> Winner(k, desired) == k
      ensures Winner(k, desired) == k <==> forall id | id in desired && Trunc32(id) == k :: KeepsOwnKey(id, desired)
    {
      KeyWinsIff(k, desired);
    }
    if AllCurrent(r, desired) {
      forall id | id in desired && Trunc32(id) !in active ensures KeepsOwnKey(id, desired) {
        var k := Trunc32(id);
        assert k in KeysOf(desired) && k in r;
      }
    }
  }

  /** One call reaches the desired set exactly when all desired ids fit and no registered stream has changed. */
  lemma OneCallSufficesIff(active: Active, desired: Active)
    requires Keyed(active) && WellKeyed(desired)
    ensures Reconcile(active, desired).Keys == desired.Keys
       <==> Fits(desired) && forall k | k in active && k in desired :: SameStream(desired[k], active[k])
  {
    var r := Reconcile(active, desired);
    if k :| k in active && k in desired && !SameStream(desired[k], active[k]) {
      assert k !in r && k in desired.Keys;
    } else if Fits(desired) {
      forall k ensures k in r <==> k in desired {
        if k in desired {
          OwnWinner(k, desired);
        }
      }
    } else {
      var id :| id in desired && !IsInt32(id);
      assert id in desired.Keys && id !in r;
    }
  }

  // ---------- The same list again ----------

  ghost predicate ReachedAndStable(active: Active, desired: Active) {
    active.Keys == desired.Keys && AllCurrent(active, desired) && Reconcile(active, desired) == active
  }

  ghost function Twice(active: Active, desired: Active): Active {
    Reconcile(Reconcile(active, desired), desired)
  }

  /** The same list applied twice reaches exactly the desired set, and stays there, exactly when all desired ids fit. */
  lemma TwoCallsReachDesiredIff(active: Active, desired: Active)
    requires Keyed(active) && WellKeyed(desired)
    ensures ReachedAndStable(Twice(active, desired), desired) <==> Fits(desired)
  {
    var once, twice := Reconcile(active, desired), Twice(active, desired);
    ReconciledFromDesired(active, desired);
    OneCallSufficesIff(once, desired);
    if Fits(desired) {
      forall k | k in once ensures Survives(k, once, desired) {
        assert once[k].id == k;
      }
      ReconciledFromDesired(once, desired);
      forall k | k in twice ensures Survives(k, twice, desired) {
        assert twice[k].id == k;
      }
      Stable(twice, desired);
    }
  }

  lemma Stable(active: Active, desired: Active)
    requires AllCurrent(active, desired) && KeysOf(desired) <= active.Keys
    ensures Reconcile(active, desired) == active
  {
    var r := Reconcile(active, desired);
    assert forall k :: k in r <==> k in active;
    assert forall k | k in active :: r[k] == active[k];
  }

  /** The key of `id` settles: it goes to the id that equals it, or that one holds it already. */
  predicate SettlesKey(id: int, active: Active, desired: Active) {
    KeepsOwnKey(id, desired) || Survives(Trunc32(id), active, desired)
  }

  /** `update_streams` called `n` times with one list. */
  ghost function Applied(n: nat, active: Active, desired: Active): Active {
    if n == 0 then active else Reconcile(Applied(n - 1, active, desired), desired)
  }

  lemma FlapStep(now: Active, desired: Active, k: int)
    requires WellKeyed(desired) && k in KeysOf(desired) && Winner(k, desired) != k && !Survives(k, now, desired)
    ensures !Survives(k, Reconcile(now, desired), desired)
    ensures k in Reconcile(now, desired) <==> k !in now
  {
    assert StartsLast(Winner(k, desired), desired);
  }

  lemma {:induction false} NeverSurvives(n: nat, active: Active, desired: Active, k: int)
    requires WellKeyed(desired) && k in KeysOf(desired) && Winner(k, desired) != k && !Survives(k, active, desired)
    ensures !Survives(k, Applied(n, active, desired), desired)
  {
    if n > 0 {
      NeverSurvives(n - 1, active, desired, k);
      FlapStep(Applied(n - 1, active, desired), desired, k);
    }
  }

  /** A key that does not settle is filled by one call and emptied by the next, for ever. */
  lemma KeyFlaps(n: nat, active: Active, desired: Active, id: int)
    requires WellKeyed(desired) && id in desired && !SettlesKey(id, active, desired)
    ensures !Survives(Trunc32(id), Applied(n, active, desired), desired)
    ensures Trunc32(id) in Applied(n + 1, active, desired) <==> Trunc32(id) !in Applied(n, active, desired)
  {
    var k := Trunc32(id);
    assert k in KeysOf(desired);
    KeyWinsIff(k, desired);
    NeverSurvives(n, active, desired, k);
    FlapStep(Applied(n, active, desired), desired, k);
  }

  lemma SettledStays(active: Active, desired: Active)
    requires WellKeyed(desired) && forall id | id in desired :: SettlesKey(id, active, desired)
    ensures Reconcile(Twice(active, desired), desired) == Twice(active, desired)
  {
    var once, twice := Reconcile(active, desired), Twice(active, desired);
    forall id | id in desired && Trunc32(id) !in active ensures KeepsOwnKey(id, desired) {
      assert SettlesKey(id, active, desired);
    }
    AllCurrentIff(active, desired);
    forall id | id in desired && Trunc32(id) !in once ensures KeepsOwnKey(id, desired) {
      assert SettlesKey(id, active, desired);
    }
    AllCurrentIff(once, desired);
    forall k | k in KeysOf(desired) ensures k in twice {
    }
    Stable(twice, desired);
  }

  /** Calls with one list come to rest, at the latest after two, exactly when every desired key settles. */
  lemma SettlesIff(active: Active, desired: Active)
    requires WellKeyed(desired)
    ensures Reconcile(Twice(active, desired), desired) == Twice(active, desired)
       <==> forall id | id in desired :: SettlesKey(id, active, desired)
  {
    if id :| id in desired && !SettlesKey(id, active, desired) {
      KeyFlaps(2, active, desired, id);
      assert Applied(2, active, desired) == Twice(active, desired) by {
        assert Applied(1, active, desired) == Reconcile(Applied(0, active, desired), desired);
      }
    } else {
      SettledStays(active, desired);
    }
  }

  /** The class on an id that does not fit: one update starts its stream, the next identical one stops it again. */
  method WideIdFlaps(manager: StreamIoManager, c: StreamConfig) returns (afterFirst: set<int>)
    requires manager.Valid() && manager.streamThreads == map[]
    requires c.enabled && !IsInt32(c.id)
    modifies manager
    ensures manager.Valid()
    ensures afterFirst == {Trunc32(c.id)} && manager.streamThreads == map[]
  {
    WideReconciled(c);
    manager.UpdateStreams([c]);
    assert manager.activeStreamConfigs == map[Trunc32(c.id) := c];
    afterFirst := manager.streamThreads.Keys;
    manager.UpdateStreams([c]);
    assert manager.activeStreamConfigs == map[];
  }

  lemma WideReconciled(c: StreamConfig)
    requires c.enabled && !IsInt32(c.id)
    ensures Reconcile(map[], Desired([c])) == map[Trunc32(c.id) := c]
    ensures Reconcile(map[Trunc32(c.id) := c], Desired([c])) == map[]
  {
    var desired := map[c.id := c];
    assert Desired([c]) == desired by {
      assert [c][..0] == [];
    }
    assert KeysOf(desired) == {Trunc32(c.id)};
    assert StartsLast(Winner(Trunc32(c.id), desired), desired);
  }

  // ---------- Whole runs ----------

  /** The configuration in force, all notifications so far, and the registered streams. */
  datatype System = System(current: GlobalConfig, notified: seq<GlobalConfig>, active: Active)

  ghost function Notify(s: System): System {
    System(s.current, s.notified + [s.current], Reconcile(s.active, Desired(s.current.streamConfigs)))
  }

  /** `start_reloader`: the callback runs once with the initial configuration. */
  ghost function Start(initial: GlobalConfig): System {
    Notify(System(initial, [], map[]))
  }

  /** One turn of the reload loop; `None` when the file does not parse. */
  ghost function Cycle(s: System, loaded: Option<GlobalConfig>): System {
    if loaded.Some? && !SameGlobal(s.current, loaded.value) then Notify(s.(current := loaded.value)) else s
  }

  ghost function Cycles(s: System, loads: seq<Option<GlobalConfig>>): System
    decreases |loads|
  {
    if loads == [] then s else Cycles(Cycle(s, loads[0]), loads[1..])
  }

  ghost predicate SystemInv(s: System) {
    && s.notified != [] && s.notified[|s.notified| - 1] == s.current
    && (forall i | 0 < i < |s.notified| :: !SameGlobal(s.notified[i - 1], s.notified[i]))
    && FromDesired(s.active, Desired(s.current.streamConfigs))
  }

  lemma CycleInv(s: System, loaded: Option<GlobalConfig>)
    requires SystemInv(s)
    ensures SystemInv(Cycle(s, loaded))
  {
    var t := Cycle(s, loaded);
    if t != s {
      DesiredIds(t.current.streamConfigs);
      ReconciledFromDesired(s.active, Desired(t.current.streamConfigs));
      assert t.notified[|t.notified| - 2] == s.current;
    }
  }

  lemma {:induction false} CyclesInv(s: System, loads: seq<Option<GlobalConfig>>)
    requires SystemInv(s)
    ensures SystemInv(Cycles(s, loads))
    decreases |loads|
  {
    if loads != [] {
      CycleInv(s, loads[0]);
      CyclesInv(Cycle(s, loads[0]), loads[1..]);
    }
  }

  /**
   * After any sequence of reload cycles, whatever was loaded and however wide the ids: the last notification is
   * the configuration in force, successive notifications differ, and every registered stream runs a configuration
   * equal to the enabled entry of its id in it, under the key that its id is converted to.
   */
  lemma ReloaderSafety(initial: GlobalConfig, loads: seq<Option<GlobalConfig>>)
    ensures SystemInv(Cycles(Start(initial), loads))
  {
    DesiredIds(initial.streamConfigs);
    ReconciledFromDesired(map[], Desired(initial.streamConfigs));
    CyclesInv(Start(initial), loads);
  }

  /** Cycles that load nothing new change nothing. */
  lemma {:induction false} QuietCycles(s: System, loads: seq<Option<GlobalConfig>>)
    requires forall l | l in loads :: l.Some? ==> SameGlobal(s.current, l.value)
    ensures Cycles(s, loads) == s
    decreases |loads|
  {
    if loads != [] {
      assert loads[0] in loads;
      assert Cycle(s, loads[0]) == s;
      QuietCycles(s, loads[1..]);
    }
  }

  lemma {:induction false} CyclesSnoc(s: System, loads: seq<Option<GlobalConfig>>, l: Option<GlobalConfig>)
    ensures Cycles(s, loads + [l]) == Cycle(Cycles(s, loads), l)
    decreases |loads|
  {
    if loads == [] {
      assert [l][1..] == [];
      assert loads + [l] == [l];
    } else {
      assert (loads + [l])[1..] == loads[1..] + [l];
      CyclesSnoc(Cycle(s, loads[0]), loads[1..], l);
    }
  }

  /** The last configuration that was read. */
  function LastLoaded(initial: GlobalConfig, loads: seq<Option<GlobalConfig>>): GlobalConfig {
    if loads == [] then initial
    else if loads[|loads| - 1].Some? then loads[|loads| - 1].value
    else LastLoaded(initial, loads[..|loads| - 1])
  }

  /** After any cycles the configuration in force is the last one read, up to what equality ignores. */
  lemma {:induction false} CurrentIsLastLoaded(initial: GlobalConfig, loads: seq<Option<GlobalConfig>>)
    ensures SameGlobal(Cycles(Start(initial), loads).current, LastLoaded(initial, loads))
  {
    if loads != [] {
      var before, l := loads[..|loads| - 1], loads[|loads| - 1];
      CurrentIsLastLoaded(initial, before);
      CyclesSnoc(Start(initial), before, l);
      assert before + [l] == loads;
    }
  }

  /** A thread runs for this stream id. */
  predicate IsUp(id: int, active: Active) {
    Trunc32(id) in active && active[Trunc32(id)].id == id
  }

  /**
   * When a stream is up after a change and any number of further cycles that load nothing new. If its key was
   * registered, exactly when the stream there is its own, by an id that fits, and has not changed: a changed
   * stream stays down. If not, exactly when no greater desired id has the same key.
   */
  lemma UpAfterChangeIff(s: System, changed: GlobalConfig, id: int, quiet: seq<Option<GlobalConfig>>)
    requires Keyed(s.active) && !SameGlobal(s.current, changed)
    requires forall l | l in quiet :: l.Some? ==> SameGlobal(changed, l.value)
    ensures IsUp(id, Cycles(Cycle(s, Some(changed)), quiet).active)
       <==> if Trunc32(id) in s.active then IsInt32(id) && Survives(id, s.active, Desired(changed.streamConfigs))
            else StartsLast(id, Desired(changed.streamConfigs))
  {
    QuietCycles(Cycle(s, Some(changed)), quiet);
    var desired, k := Desired(changed.streamConfigs), Trunc32(id);
    DesiredIds(changed.streamConfigs);
    if k !in s.active && k in KeysOf(desired) {
      assert StartsLast(Winner(k, desired), desired);
    }
  }

  // ---------- The class ----------

  class ConfigManager {
    const manager: StreamIoManager
    var currentConfig: GlobalConfig
    ghost var notified: seq<GlobalConfig>

    ghost function State(): System
      reads this, manager
    {
      System(currentConfig, notified, manager.activeStreamConfigs)
    }

    /** The initial configuration is loaded; nothing runs yet. */
    constructor (initial: GlobalConfig, streams: StreamIoManager)
      ensures manager == streams && currentConfig == initial && notified == []
    {
      manager, currentConfig, notified := streams, initial, [];
    }

    /** The callback `main` installs. */
    method OnUpdate(config: GlobalConfig)
      requires manager.Valid()
      modifies manager, `notified
      ensures manager.Valid() && notified == old(notified) + [config]
      ensures manager.activeStreamConfigs == Reconcile(old(manager.activeStreamConfigs), Desired(config.streamConfigs))
    {
      notified := notified + [config];
      manager.UpdateStreams(config.streamConfigs);
    }

    method StartReloader()
      requires manager.Valid()
      modifies this, manager
      ensures manager.Valid() && State() == Notify(old(State()))
    {
      OnUpdate(currentConfig);
    }

    /** One turn of `reloader_loop`. */
    method ReloadCycle(loaded: Option<GlobalConfig>)
      requires manager.Valid()
      modifies this, manager
      ensures manager.Valid() && State() == Cycle(old(State()), loaded)
    {
      if loaded.None? {
        return;
      }
      if !SameGlobal(currentConfig, loaded.value) {
        currentConfig := loaded.value;
        OnUpdate(currentConfig);
      }
    }

    /** A whole run: `start_reloader`, then `reloader_loop` with these loads until a stop request ends them. */
    method Run(loads: seq<Option<GlobalConfig>>)
      requires manager.Valid() && manager.activeStreamConfigs == map[] && notified == []
      modifies this, manager
      ensures manager.Valid() && State() == Cycles(Start(old(currentConfig)), loads) && SystemInv(State())
    {
      StartReloader();
      for i := 0 to |loads|
        invariant manager.Valid() && State() == Cycles(Start(old(currentConfig)), loads[..i])
      {
        ReloadCycle(loads[i]);
        CyclesSnoc(Start(old(currentConfig)), loads[..i], loads[i]);
        assert loads[..i + 1] == loads[..i] + [loads[i]];
      }
      assert loads[..|loads|] == loads;
      ReloaderSafety(old(currentConfig), loads);
    }
  }
}
