/** `update_streams`: stop what is gone or changed, start what is new, and what the map of streams is afterwards. */
module Reconciler {
  import opened Sequences
  import opened Widths
  import opened Configs

  /** Keyed by `int`; the desired configurations have the same shape, keyed by the full id. */
  type Active = map<int, StreamConfig>

  /** The enabled entries, the last one per id. */
  function Desired(cfgs: seq<StreamConfig>): Active {
    if cfgs == [] then map[]
    else
      var before, cfg := Desired(cfgs[..|cfgs| - 1]), cfgs[|cfgs| - 1];
      if cfg.enabled then before[cfg.id := cfg] else before
  }

  predicate WellKeyed(desired: Active) {
    forall id | id in desired :: desired[id].id == id
  }

  lemma {:induction false} DesiredIds(cfgs: seq<StreamConfig>)
    ensures WellKeyed(Desired(cfgs))
    ensures forall id | id in Desired(cfgs) :: Desired(cfgs)[id].enabled && Desired(cfgs)[id] in cfgs
  {
    if cfgs != [] {
      DesiredIds(cfgs[..|cfgs| - 1]);
    }
  }

  /** Entry `i` is enabled, and no later enabled entry has its id. */
  predicate IsLastEnabled(cfgs: seq<StreamConfig>, i: int) {
    && 0 <= i < |cfgs| && cfgs[i].enabled
    && forall j | i < j < |cfgs| && cfgs[j].enabled :: cfgs[j].id != cfgs[i].id
  }

  lemma EarlierLast(cfgs: seq<StreamConfig>, i: int)
    requires cfgs != [] && 0 <= i < |cfgs| - 1
    ensures IsLastEnabled(cfgs, i)
       <==> IsLastEnabled(cfgs[..|cfgs| - 1], i) && !(cfgs[|cfgs| - 1].enabled && cfgs[|cfgs| - 1].id == cfgs[i].id)
  {
    var before := cfgs[..|cfgs| - 1];
    forall j | i < j < |before| ensures before[j] == cfgs[j] {
    }
  }

  /** Desired are exactly the last enabled entries of the ids that have one. */
  lemma {:induction false} DesiredIs(cfgs: seq<StreamConfig>)
    ensures forall i | IsLastEnabled(cfgs, i) :: cfgs[i].id in Desired(cfgs) && Desired(cfgs)[cfgs[i].id] == cfgs[i]
    ensures forall id | id in Desired(cfgs) :: exists i :: IsLastEnabled(cfgs, i) && cfgs[i].id == id
  {
    if cfgs != [] {
      var n := |cfgs| - 1;
      var before, last := cfgs[..n], cfgs[n];
      DesiredIs(before);
      forall i | IsLastEnabled(cfgs, i) ensures cfgs[i].id in Desired(cfgs) && Desired(cfgs)[cfgs[i].id] == cfgs[i] {
        if i < n {
          EarlierLast(cfgs, i);
        }
      }
      forall id | id in Desired(cfgs) ensures exists i :: IsLastEnabled(cfgs, i) && cfgs[i].id == id {
        if last.enabled && last.id == id {
          assert IsLastEnabled(cfgs, n);
        } else {
          assert id in Desired(before);
          var i :| IsLastEnabled(before, i) && before[i].id == id;
          EarlierLast(cfgs, i);
          assert IsLastEnabled(cfgs, i);
        }
      }
    }
  }

  /** Every registered configuration is under the key its id is converted to. */
  predicate Keyed(active: Active) {
    forall k | k in active :: Trunc32(active[k].id) == k
  }

  predicate Survives(k: int, active: Active, desired: Active) {
    k in active && k in desired && SameStream(desired[k], active[k])
  }

  // ---------- Ids and keys ----------

  /** The keys that desired ids are converted to. */
  function KeysOf(desired: Active): set<int> {
    set id | id in desired :: Trunc32(id)
  }

  /** Of the desired ids with its key, `id` is the greatest, so the one started last. */
  predicate StartsLast(id: int, desired: Active) {
    id in desired && forall j | j in desired && Trunc32(j) == Trunc32(id) :: j <= id
  }

  predicate IsGreatest(m: int, s: set<int>) {
    m in s && forall j | j in s :: j <= m
  }

  lemma GreatestOfTwo(s: set<int>, x: int, m: int)
    requires x in s && IsGreatest(m, s - {x})
    ensures IsGreatest(if m < x then x else m, s)
  {
    forall j | j in s ensures j == x || j <= m {
      assert j == x || j in s - {x};
    }
  }

  lemma {:induction false} HasGreatest(s: set<int>, x: int)
    requires x in s
    ensures exists m :: IsGreatest(m, s)
    decreases s
  {
    if y :| y in s && y != x {
      HasGreatest(s - {x}, y);
      var m :| IsGreatest(m, s - {x});
      GreatestOfTwo(s, x, m);
    } else {
      assert IsGreatest(x, s);
    }
  }

  /** The id whose stream ends up under key `k`, if none was there. */
  ghost function Winner(k: int, desired: Active): (id: int)
    requires k in KeysOf(desired)
    ensures StartsLast(id, desired) && Trunc32(id) == k
  {
    var ids := set id | id in desired && Trunc32(id) == k;
    var some :| some in desired && Trunc32(some) == k;
    HasGreatest(ids, some);
    var id :| IsGreatest(id, ids);
    assert forall j | j in desired && Trunc32(j) == k :: j in ids;
    id
  }

  // ---------- The map after a call ----------

  predicate Stays(k: int, active: Active, desired: Active) {
    k in active ==> Survives(k, active, desired)
  }

  /**
   * A registered key survives if its configuration is unchanged; an unregistered one goes to the last id with that
   * key.
   */
  ghost function Reconcile(active: Active, desired: Active): Active {
    map k | k in active.Keys + KeysOf(desired) && Stays(k, active, desired)
      :: if k in active then active[k] else desired[Winner(k, desired)]
  }

  /** The clauses of the update leave no choice, whatever the width of the ids. */
  lemma IsReconciled(active: Active, desired: Active, after: Active)
    requires forall k | k in active ::
               (k in after <==> Survives(k, active, desired)) && (k in after ==> after[k] == active[k])
    requires forall id | StartsLast(id, desired) && Trunc32(id) !in active ::
               Trunc32(id) in after && after[Trunc32(id)] == desired[id]
    requires forall k | k in after && k !in active :: k in KeysOf(desired)
    ensures after == Reconcile(active, desired)
  {
    var r := Reconcile(active, desired);
    forall k ensures k in after <==> k in r
      ensures k in after && k in r ==> after[k] == r[k]
    {
      if k !in active && k in KeysOf(desired) {
        var id := Winner(k, desired);
        assert StartsLast(id, desired);
      }
    }
  }

  /** Entry `i` is the one that its key goes to: of the last enabled entries with that key, the greatest id. */
  ghost predicate FillsKey(cfgs: seq<StreamConfig>, i: int) {
    && IsLastEnabled(cfgs, i)
    && forall j | IsLastEnabled(cfgs, j) && Trunc32(cfgs[j].id) == Trunc32(cfgs[i].id) :: cfgs[j].id <= cfgs[i].id
  }

  lemma FillsKeyWins(cfgs: seq<StreamConfig>, i: int)
    requires FillsKey(cfgs, i)
    ensures StartsLast(cfgs[i].id, Desired(cfgs))
  {
    DesiredIs(cfgs);
    var desired := Desired(cfgs);
    forall j | j in desired && Trunc32(j) == Trunc32(cfgs[i].id) ensures j <= cfgs[i].id {
      var m :| IsLastEnabled(cfgs, m) && cfgs[m].id == j;
    }
  }

  /** A call in terms of the list: what an unregistered key gets, and which registered ones survive. */
  ghost predicate FollowsList(active: Active, cfgs: seq<StreamConfig>, after: Active) {
    && (forall i | FillsKey(cfgs, i) && Trunc32(cfgs[i].id) !in active ::
          Trunc32(cfgs[i].id) in after && after[Trunc32(cfgs[i].id)] == cfgs[i])
    && (forall k | k in after && k !in active :: exists i :: FillsKey(cfgs, i) && Trunc32(cfgs[i].id) == k)
    && (forall k | k in active && k in after :: after[k] == active[k])
    && (forall k | k in active ::
          k in after <==> exists i :: IsLastEnabled(cfgs, i) && cfgs[i].id == k && SameStream(cfgs[i], active[k]))
  }

  lemma SurvivesByList(active: Active, cfgs: seq<StreamConfig>, k: int)
    requires k in active
    ensures Survives(k, active, Desired(cfgs))
       <==> exists i :: IsLastEnabled(cfgs, i) && cfgs[i].id == k && SameStream(cfgs[i], active[k])
  {
    DesiredIs(cfgs);
    if Survives(k, active, Desired(cfgs)) {
      var i :| IsLastEnabled(cfgs, i) && cfgs[i].id == k;
      assert Desired(cfgs)[k] == cfgs[i];
    }
  }

  lemma FilledByList(active: Active, cfgs: seq<StreamConfig>, k: int)
    requires k !in active && k in Reconcile(active, Desired(cfgs))
    ensures exists i :: FillsKey(cfgs, i) && Trunc32(cfgs[i].id) == k
  {
    DesiredIs(cfgs);
    var w := Winner(k, Desired(cfgs));
    assert StartsLast(w, Desired(cfgs));
    var i :| IsLastEnabled(cfgs, i) && cfgs[i].id == w;
    assert FillsKey(cfgs, i);
  }

  /** The map after a call is the one the list says. */
  lemma ReconcileFollowsList(active: Active, cfgs: seq<StreamConfig>)
    ensures FollowsList(active, cfgs, Reconcile(active, Desired(cfgs)))
  {
    var after := Reconcile(active, Desired(cfgs));
    DesiredIs(cfgs);
    forall i | FillsKey(cfgs, i) && Trunc32(cfgs[i].id) !in active
      ensures Trunc32(cfgs[i].id) in after && after[Trunc32(cfgs[i].id)] == cfgs[i]
    {
      FillsKeyWins(cfgs, i);
      assert Trunc32(cfgs[i].id) in KeysOf(Desired(cfgs));
    }
    forall k | k in after && k !in active ensures exists i :: FillsKey(cfgs, i) && Trunc32(cfgs[i].id) == k {
      FilledByList(active, cfgs, k);
    }
    forall k | k in active
      ensures k in after
         <==> exists i :: IsLastEnabled(cfgs, i) && cfgs[i].id == k && SameStream(cfgs[i], active[k])
    {
      SurvivesByList(active, cfgs, k);
    }
  }

  /** The next entry of an iteration over a map, in whatever order. */
  method AnyKey<K(==), V>(m: map<K, V>) returns (k: K)
    requires m != map[]
    ensures k in m
  {
    k :| k in m;
  }

  /** The next entry of an iteration in key order. */
  method LeastKey(m: Active) returns (k: int)
    requires m != map[]
    ensures k in m && forall j | j in m :: k <= j
  {
    k := AnyKey(m);
    var todo := m;
    while todo != map[]
      invariant k in m && forall j | j in todo :: j in m
      invariant forall j | j in m && j !in todo :: k <= j
      decreases todo.Keys
    {
      var j := AnyKey(todo);
      if j < k {
        k := j;
      }
      todo := todo - {j};
    }
  }

  predicate Ascending(cs: seq<StreamConfig>) {
    forall i, j | 0 <= i < j < |cs| :: cs[i].id < cs[j].id
  }

  /** Among the first `n`, no later configuration has the key of configuration `j`. */
  predicate LastOfKey(cs: seq<StreamConfig>, n: nat, j: nat)
    requires n <= |cs|
  {
    j < n && forall m | j < m < n :: Trunc32(cs[m].id) != Trunc32(cs[j].id)
  }

  /** Of the first `n`, the last configuration of every key is registered under it. */
  ghost predicate Started(cs: seq<StreamConfig>, n: nat, active: Active)
    requires n <= |cs|
  {
    forall j: nat | LastOfKey(cs, n, j) :: Trunc32(cs[j].id) in active && active[Trunc32(cs[j].id)] == cs[j]
  }

  lemma StartedMore(cs: seq<StreamConfig>, n: nat, before: Active, after: Active)
    requires n < |cs| && Started(cs, n, before) && after == before[Trunc32(cs[n].id) := cs[n]]
    ensures Started(cs, n + 1, after)
  {
    forall j: nat | LastOfKey(cs, n + 1, j)
      ensures Trunc32(cs[j].id) in after && after[Trunc32(cs[j].id)] == cs[j]
    {
      if j < n {
        assert LastOfKey(cs, n, j);
        assert Trunc32(cs[n].id) != Trunc32(cs[j].id);
      }
    }
  }

  /** In id order, the greatest id of its key is the last of its key. */
  lemma LastStarted(desired: Active, toStart: seq<StreamConfig>, id: int) returns (j: nat)
    requires WellKeyed(desired) && Ascending(toStart) && StartsLast(id, desired) && desired[id] in toStart
    requires forall c | c in toStart :: c.id in desired
    ensures LastOfKey(toStart, |toStart|, j) && toStart[j] == desired[id]
  {
    j :| j < |toStart| && toStart[j] == desired[id];
    forall m | j < m < |toStart| ensures Trunc32(toStart[m].id) != Trunc32(id) {
      assert toStart[m] in toStart && toStart[j].id < toStart[m].id;
    }
  }

  /** A thread alive: the key it is registered under and the configuration it was started with. */
  datatype LiveThread = LiveThread(key: int, config: StreamConfig)

  class StreamIoManager {
    var streamThreads: map<int, nat>
    var activeStreamConfigs: Active
    var nextThread: nat
    ghost var live: map<nat, LiveThread>

    /**
     * Both maps have the same keys; every key has one live thread, running the registered configuration, whose
     * id is converted to that key; no thread is live without a key.
     */
    ghost predicate Valid()
      reads this
    {
      && streamThreads.Keys == activeStreamConfigs.Keys && Keyed(activeStreamConfigs)
      && (forall k | k in streamThreads ::
            streamThreads[k] in live && live[streamThreads[k]] == LiveThread(k, activeStreamConfigs[k]))
      && (forall t | t in live ::
            t < nextThread && live[t].key in streamThreads && streamThreads[live[t].key] == t)
    }

    constructor ()
      ensures Valid() && streamThreads == map[] && activeStreamConfigs == map[]
    {
      streamThreads, activeStreamConfigs, live, nextThread := map[], map[], map[], 0;
    }

    /** Requests the stop of one registered thread, joins it and forgets it. */
    method StopOne(k: int)
      requires Valid() && k in streamThreads
      modifies this
      ensures Valid() && nextThread == old(nextThread)
      ensures activeStreamConfigs == old(activeStreamConfigs) - {k}
      ensures streamThreads == old(streamThreads) - {k}
    {
      live := live - {streamThreads[k]};
      streamThreads := streamThreads - {k};
      activeStreamConfigs := activeStreamConfigs - {k};
    }

    /** Starts a thread under the key the id is converted to; a thread already there is stopped and joined. */
    method StartOne(config: StreamConfig)
      requires Valid()
      modifies this
      ensures Valid() && nextThread == old(nextThread) + 1
      ensures activeStreamConfigs == old(activeStreamConfigs)[Trunc32(config.id) := config]
      ensures streamThreads == old(streamThreads)[Trunc32(config.id) := old(nextThread)]
    {
      var k := Trunc32(config.id);
      if k in streamThreads {
        live := live - {streamThreads[k]};
      }
      activeStreamConfigs := activeStreamConfigs[k := config];
      streamThreads := streamThreads[k := nextThread];
      live := live[nextThread := LiveThread(k, config)];
      nextThread := nextThread + 1;
    }

    /** The enabled entries, the last one per id. */
    method CollectDesired(newConfigs: seq<StreamConfig>) returns (desired: Active)
      ensures desired == Desired(newConfigs)
      ensures forall i | IsLastEnabled(newConfigs, i) ::
                newConfigs[i].id in desired && desired[newConfigs[i].id] == newConfigs[i]
      ensures forall id | id in desired :: exists i :: IsLastEnabled(newConfigs, i) && newConfigs[i].id == id
    {
      DesiredIs(newConfigs);
      desired := map[];
      for i := 0 to |newConfigs|
        invariant desired == Desired(newConfigs[..i])
      {
        assert newConfigs[..i + 1][..i] == newConfigs[..i];
        if newConfigs[i].enabled {
          desired := desired[newConfigs[i].id := newConfigs[i]];
        }
      }
      assert newConfigs[..|newConfigs|] == newConfigs;
    }

    /** Phase 1: the registered ids that are gone or changed, each once. */
    method CollectToStop(desired: Active) returns (toStop: seq<int>)
      requires Valid()
      ensures forall k :: k in toStop <==> k in streamThreads && !Survives(k, activeStreamConfigs, desired)
      ensures Distinct(toStop)
    {
      toStop := [];
      var todo := streamThreads;
      while todo != map[]
        invariant forall k | k in todo :: k in streamThreads && k !in toStop
        invariant forall k | k in streamThreads && k !in todo ::
                    k in toStop <==> !Survives(k, activeStreamConfigs, desired)
        invariant forall k | k in toStop :: k in streamThreads
        invariant Distinct(toStop)
        decreases todo.Keys
      {
        var k := AnyKey(todo);
        if k !in desired || !SameStream(desired[k], activeStreamConfigs[k]) {
          toStop := toStop + [k];
        }
        todo := todo - {k};
      }
    }

    /** Phase 1: the desired entries whose key is not registered, in id order, decided before anything is stopped. */
    method CollectToStart(desired: Active) returns (toStart: seq<StreamConfig>)
      requires WellKeyed(desired)
      ensures Ascending(toStart)
      ensures forall c | c in toStart :: c.id in desired && c == desired[c.id] && Trunc32(c.id) !in streamThreads
      ensures forall id | id in desired && Trunc32(id) !in streamThreads :: desired[id] in toStart
    {
      toStart := [];
      var todo := desired;
      while todo != map[]
        invariant forall id | id in todo :: id in desired && forall c | c in toStart :: c.id < id
        invariant Ascending(toStart)
        invariant forall c | c in toStart :: c.id in desired && c == desired[c.id] && Trunc32(c.id) !in streamThreads
        invariant forall id | id in desired && id !in todo && Trunc32(id) !in streamThreads :: desired[id] in toStart
        decreases todo.Keys
      {
        var id := LeastKey(todo);
        if Trunc32(id) !in streamThreads {
          toStart := toStart + [desired[id]];
        }
        todo := todo - {id};
      }
    }

    /** Phase 2. */
    method StopAllOf(toStop: seq<int>)
      requires Valid() && Distinct(toStop) && forall k | k in toStop :: k in streamThreads
      modifies this
      ensures Valid()
      ensures forall k :: k in streamThreads <==> k in old(streamThreads) && k !in toStop
      ensures forall k | k in streamThreads ::
                streamThreads[k] == old(streamThreads)[k] && activeStreamConfigs[k] == old(activeStreamConfigs)[k]
    {
      for i := 0 to |toStop|
        invariant Valid()
        invariant forall k :: k in streamThreads <==> k in old(streamThreads) && k !in toStop[..i]
        invariant forall k | k in streamThreads ::
                    streamThreads[k] == old(streamThreads)[k] && activeStreamConfigs[k] == old(activeStreamConfigs)[k]
      {
        assert toStop[i] !in toStop[..i];
        StopOne(toStop[i]);
        assert toStop[..i + 1] == toStop[..i] + [toStop[i]];
      }
      assert toStop[..|toStop|] == toStop;
    }

    /** Phase 3: exactly the keys of `toStart` are new, each with its last configuration; the rest is untouched. */
    method StartAllOf(toStart: seq<StreamConfig>)
      requires Valid() && forall c | c in toStart :: Trunc32(c.id) !in streamThreads
      modifies this
      ensures Valid()
      ensures forall k | k in old(streamThreads) ::
                && k in streamThreads && streamThreads[k] == old(streamThreads)[k]
                && activeStreamConfigs[k] == old(activeStreamConfigs)[k]
      ensures Started(toStart, |toStart|, activeStreamConfigs)
      ensures forall k | k in streamThreads && k !in old(streamThreads) :: activeStreamConfigs[k] in toStart
    {
      for i := 0 to |toStart|
        invariant Valid()
        invariant forall k | k in old(streamThreads) ::
                    && k in streamThreads && streamThreads[k] == old(streamThreads)[k]
                    && activeStreamConfigs[k] == old(activeStreamConfigs)[k]
        invariant Started(toStart, i, activeStreamConfigs)
        invariant forall k | k in streamThreads && k !in old(streamThreads) :: activeStreamConfigs[k] in toStart
      {
        ghost var before := activeStreamConfigs;
        StartOne(toStart[i]);
        StartedMore(toStart, i, before, activeStreamConfigs);
      }
    }

    /**
     * `update_streams`, for ids of any width. A registered stream survives, thread untouched, exactly when its
     * stored configuration equals the new one for its key; a key is filled exactly when it was not registered
     * before the call, by the greatest desired id converted to it.
     */
    method UpdateStreams(newConfigs: seq<StreamConfig>)
      requires Valid()
      modifies this
      ensures Valid()
      ensures activeStreamConfigs == Reconcile(old(activeStreamConfigs), Desired(newConfigs))
      ensures FollowsList(old(activeStreamConfigs), newConfigs, activeStreamConfigs)
      ensures forall k | k in streamThreads && k in old(streamThreads) :: streamThreads[k] == old(streamThreads)[k]
    {
      DesiredIds(newConfigs);
      var desired := CollectDesired(newConfigs);
      var toStop := CollectToStop(desired);
      var toStart := CollectToStart(desired);
      StopAllOf(toStop);
      StartAllOf(toStart);
      forall id | StartsLast(id, desired) && Trunc32(id) !in old(streamThreads)
        ensures Trunc32(id) in streamThreads && activeStreamConfigs[Trunc32(id)] == desired[id]
      {
        var j := LastStarted(desired, toStart, id);
      }
      forall k | k in streamThreads && k !in old(streamThreads) ensures k in KeysOf(desired) {
        assert activeStreamConfigs[k].id in desired;
      }
      IsReconciled(old(activeStreamConfigs), desired, activeStreamConfigs);
      ReconcileFollowsList(old(activeStreamConfigs), newConfigs);
    }

    /** `stop_all`. */
    method StopAll()
      requires Valid()
      modifies this
      ensures Valid() && streamThreads == map[] && activeStreamConfigs == map[] && live == map[]
    {
      var todo := streamThreads;
      while todo != map[]
        invariant Valid() && streamThreads == todo
        decreases todo.Keys
      {
        var k := AnyKey(todo);
        StopOne(k);
        todo := todo - {k};
      }
      assert activeStreamConfigs == map[] && live == map[];
    }
  }
}
