/** Which stream entries of the configuration file an instance takes, and how a fleet of instances divides them. */
module StreamFilter {
  import opened Options
  import opened Sequences
  import opened Division
  import opened Widths
  import opened Configs
  import opened Reconciler
  import opened Reloader

  // ---------- Entries as read: every field present or not ----------

  datatype ScaleEntry = ScaleEntry(width: Option<int>, height: Option<int>)
  datatype CropEntry = CropEntry(x: Option<int>, y: Option<int>, width: Option<int>, height: Option<int>)
  datatype EventEntry = EventEntry(name: Option<string>, targetFps: Option<real>, batchSize: Option<int>)

  datatype Entry = Entry(
    id: Option<int>, url: Option<string>, targetFps: Option<real>, waitForKeyframe: Option<bool>, enabled: Option<bool>,
    scale: Option<ScaleEntry>, crop: Option<CropEntry>, events: Option<seq<EventEntry>>)

  /** The settings an instance reads from its environment. */
  datatype Instance = Instance(slot: int, total: int, maxStreams: int, hasWhitelist: bool, whitelist: set<int>)

  function OrElse<T>(o: Option<T>, default: T): T {
    match o case Some(v) => v case None => default
  }

  /** A 64-bit field stored in an `int`, zero by default. */
  function IntField(o: Option<int>): int {
    Trunc32(OrElse(o, 0))
  }

  function BuildEvent(e: EventEntry): EventConfig {
    EventConfig(0, OrElse(e.name, ""), OrElse(e.targetFps, 1.0), Trunc32(OrElse(e.batchSize, 8)),
                NoProcessing())
  }

  function Build(e: Entry): StreamConfig
    requires e.id.Some? && e.url.Some?
  {
    var scale := OrElse(e.scale, ScaleEntry(None, None));
    var crop := OrElse(e.crop, CropEntry(None, None, None, None));
    var events := OrElse(e.events, []);
    StreamConfig(e.id.value, e.url.value, OrElse(e.targetFps, 1.0), OrElse(e.waitForKeyframe, false),
                 OrElse(e.enabled, false),
                 ProcessingConfig(ScaleConfig(IntField(scale.width), IntField(scale.height)),
                                  CropConfig(IntField(crop.x), IntField(crop.y),
                                             IntField(crop.width), IntField(crop.height))),
                 seq(|events|, i requires 0 <= i < |events| => BuildEvent(events[i])))
  }

  /** A configuration the file can express: widths of 32 bits, events without an id or processing of their own. */
  ghost predicate Expressible(c: StreamConfig) {
    var scale, crop := c.processing.scale, c.processing.crop;
    && IsInt32(scale.width) && IsInt32(scale.height)
    && IsInt32(crop.x) && IsInt32(crop.y) && IsInt32(crop.width) && IsInt32(crop.height)
    && forall e | e in c.events :: e.id == 0 && IsInt32(e.batchSize) && e.processing == NoProcessing()
  }

  function NoProcessing(): ProcessingConfig {
    ProcessingConfig(ScaleConfig(0, 0), CropConfig(0, 0, 0, 0))
  }

  /** The entry that says all of a configuration. */
  function EntryOf(c: StreamConfig): Entry {
    var scale, crop := c.processing.scale, c.processing.crop;
    Entry(Some(c.id), Some(c.url), Some(c.targetFps), Some(c.waitForKeyframe), Some(c.enabled),
          Some(ScaleEntry(Some(scale.width), Some(scale.height))),
          Some(CropEntry(Some(crop.x), Some(crop.y), Some(crop.width), Some(crop.height))),
          Some(seq(|c.events|, i requires 0 <= i < |c.events| =>
                     EventEntry(Some(c.events[i].name), Some(c.events[i].targetFps), Some(c.events[i].batchSize)))))
  }

  /**
   * A configuration written out in full reads back, so every field of the file reaches its own field of the
   * configuration.
   */
  lemma BuildReadsBack(c: StreamConfig)
    requires Expressible(c)
    ensures Build(EntryOf(c)) == c
  {
    var events := EntryOf(c).events.value;
    forall i | 0 <= i < |c.events| ensures BuildEvent(events[i]) == c.events[i] {
      assert c.events[i] in c.events;
    }
    assert Build(EntryOf(c)).events == c.events;
  }

  /** What fields that are missing come out as, at every level. */
  lemma BuildDefaults(id: int, url: string, n: int)
    ensures Build(Entry(Some(id), Some(url), None, None, None, None, None, None))
         == StreamConfig(id, url, 1.0, false, false, ProcessingConfig(ScaleConfig(0, 0), CropConfig(0, 0, 0, 0)), [])
    ensures BuildEvent(EventEntry(None, None, None))
         == EventConfig(0, "", 1.0, 8, ProcessingConfig(ScaleConfig(0, 0), CropConfig(0, 0, 0, 0)))
    ensures IntField(None) == 0 && IntField(Some(n)) == Trunc32(n)
  {
  }

  // ---------- The filter ----------

  /** The remainder of C++: it has the sign of the dividend. */
  function TruncMod(a: int, n: int): int
    requires n > 0
  {
    if a >= 0 then a % n else -((-a) % n)
  }

  /** It differs from the dividend by a multiple of the divisor, is smaller, and has the dividend's sign. */
  lemma TruncModIs(a: int, n: int)
    requires n > 0
    ensures (a - TruncMod(a, n)) % n == 0 && -n < TruncMod(a, n) < n
    ensures (a >= 0 ==> TruncMod(a, n) >= 0) && (a <= 0 ==> TruncMod(a, n) <= 0)
  {
    if a >= 0 {
      assert a - a % n == a / n * n;
      MultipleOf(a - a % n, n, a / n);
    } else {
      var b := -a;
      assert b - b % n == b / n * n;
      MinusOut(b / n, n);
      MultipleOf(a + b % n, n, -(b / n));
    }
  }

  predicate OwnsStream(inst: Instance, id: int) {
    inst.total <= 1 || TruncMod(id, inst.total) == TruncMod(inst.slot, inst.total)
  }

  /**
   * With a slot that is not negative: the id and the slot have one residue, and a negative id is a multiple of the
   * fleet's size.
   */
  lemma OwnsStreamIff(inst: Instance, id: int)
    requires inst.slot >= 0 && inst.total > 1
    ensures OwnsStream(inst, id)
       <==> id % inst.total == inst.slot % inst.total && (id >= 0 || id % inst.total == 0)
  {
    var n := inst.total;
    if id < 0 {
      TruncModIs(id, n);
      if (-id) % n == 0 {
        NegatedMultiple(-id, n);
      }
      if id % n == 0 {
        NegatedMultiple(id, n);
      }
    }
  }

  predicate IsWhitelisted(inst: Instance, id: int) {
    !inst.hasWhitelist || id in inst.whitelist
  }

  /** A usable entry: an id and a non-empty URL. */
  predicate IsUsable(e: Entry) {
    e.id.Some? && e.url.Some? && e.url.value != ""
  }

  predicate Takes(inst: Instance, e: Entry) {
    IsUsable(e) && IsWhitelisted(inst, e.id.value) && OwnsStream(inst, e.id.value)
  }

  /** An entry is taken if it has an id and a URL that is not empty, its id is allowed, and the instance owns it. */
  lemma TakesIff(inst: Instance, e: Entry)
    ensures Takes(inst, e)
       <==> && e.id.Some? && e.url.Some? && |e.url.value| > 0
            && (inst.hasWhitelist ==> e.id.value in inst.whitelist)
            && (inst.total > 1 ==> TruncMod(e.id.value, inst.total) == TruncMod(inst.slot, inst.total))
  {
  }

  /** All entries the instance takes, in file order, no cap. */
  function TakenAll(inst: Instance, entries: seq<Entry>): seq<StreamConfig> {
    if entries == [] then []
    else
      TakenAll(inst, Init(entries)) + (if Takes(inst, Last(entries)) then [Build(Last(entries))] else [])
  }

  /** At most `maxStreams` of them, the first ones; all when it is not positive. */
  function Taken(inst: Instance, entries: seq<Entry>): seq<StreamConfig> {
    var all := TakenAll(inst, entries);
    if inst.maxStreams > 0 && |all| > inst.maxStreams then all[..inst.maxStreams] else all
  }

  lemma TakenAllSnoc(inst: Instance, entries: seq<Entry>, e: Entry)
    ensures TakenAll(inst, entries + [e]) ==
            if Takes(inst, e) then TakenAll(inst, entries) + [Build(e)] else TakenAll(inst, entries)
  {
    assert Init(entries + [e]) == entries;
  }

  lemma TakenSnoc(inst: Instance, entries: seq<Entry>, e: Entry)
    ensures var full := inst.maxStreams > 0 && |Taken(inst, entries)| >= inst.maxStreams;
            Taken(inst, entries + [e]) ==
            if Takes(inst, e) && !full then Taken(inst, entries) + [Build(e)] else Taken(inst, entries)
  {
    TakenAllSnoc(inst, entries, e);
  }

  /**
   * The stream loop of `parse_config_json`, with its `continue`s in its own order: the cap is tested before the
   * URL.
   */
  method ParseStreams(inst: Instance, entries: seq<Entry>) returns (configs: seq<StreamConfig>)
    ensures configs == Taken(inst, entries)
  {
    configs := [];
    for i := 0 to |entries|
      invariant configs == Taken(inst, entries[..i])
    {
      var e := entries[i];
      assert entries[..i + 1] == entries[..i] + [e];
      TakenSnoc(inst, entries[..i], e);
      if e.id.None? {
        continue;
      }
      if !IsWhitelisted(inst, e.id.value) {
        continue;
      }
      if !OwnsStream(inst, e.id.value) {
        continue;
      }
      if inst.maxStreams > 0 && |configs| >= inst.maxStreams {
        continue;
      }
      if e.url.None? {
        continue;
      }
      var cfg := Build(e);
      if cfg.url == "" {
        continue;
      }
      configs := configs + [cfg];
    }
    assert entries[..|entries|] == entries;
  }

  /** The entries taken, by their places: entry `i` comes right behind those taken before it. */
  lemma {:induction false} TakenAt(inst: Instance, entries: seq<Entry>, i: nat)
    requires i < |entries| && Takes(inst, entries[i])
    ensures |TakenAll(inst, entries[..i])| < |TakenAll(inst, entries)|
    ensures TakenAll(inst, entries)[|TakenAll(inst, entries[..i])|] == Build(entries[i])
    decreases |entries|
  {
    if i == |entries| - 1 {
      assert entries[..i] == Init(entries);
    } else {
      assert Init(entries)[..i] == entries[..i];
      TakenAt(inst, Init(entries), i);
    }
  }

  /** How many entries an instance takes without a cap. */
  lemma {:induction false} TakenAllCount(inst: Instance, entries: seq<Entry>)
    ensures |TakenAll(inst, entries)| == |set i | 0 <= i < |entries| && Takes(inst, entries[i])|
  {
    var places := set i | 0 <= i < |entries| && Takes(inst, entries[i]);
    if entries == [] {
      assert places == {};
    } else {
      TakenAllCount(inst, Init(entries));
      var before := set i | 0 <= i < |Init(entries)| && Takes(inst, Init(entries)[i]);
      var last := |entries| - 1;
      if Takes(inst, entries[last]) {
        assert places == before + {last};
      } else {
        assert places == before;
      }
    }
  }

  /** A cap keeps as many of the first entries as it allows, and no cap, or one that is not positive, keeps all. */
  lemma TakenCap(inst: Instance, entries: seq<Entry>)
    ensures Taken(inst, entries) <= TakenAll(inst, entries)
    ensures |Taken(inst, entries)|
         == if 0 < inst.maxStreams < |TakenAll(inst, entries)| then inst.maxStreams else |TakenAll(inst, entries)|
  {
  }

  lemma {:induction false} TakenAllOwned(inst: Instance, entries: seq<Entry>)
    ensures forall c | c in TakenAll(inst, entries) ::
              OwnsStream(inst, c.id) && IsWhitelisted(inst, c.id) && c.url != ""
  {
    if entries != [] {
      TakenAllOwned(inst, Init(entries));
    }
  }

  lemma TakenOwned(inst: Instance, entries: seq<Entry>)
    ensures forall c | c in Taken(inst, entries) :: OwnsStream(inst, c.id)
    ensures inst.maxStreams > 0 ==> |Taken(inst, entries)| <= inst.maxStreams
  {
    TakenAllOwned(inst, entries);
  }

  // ---------- The fleet ----------

  /** `total` instances with these slots, otherwise configured alike and without a cap. */
  datatype Fleet = Fleet(slots: seq<int>, hasWhitelist: bool, whitelist: set<int>)

  function Member(f: Fleet, i: nat): Instance
    requires i < |f.slots|
  {
    Instance(f.slots[i], |f.slots|, 0, f.hasWhitelist, f.whitelist)
  }

  predicate HasSlot(slots: seq<int>, r: int)
    requires slots != []
  {
    exists i :: 0 <= i < |slots| && slots[i] % |slots| == r
  }

  /** Slots are not negative and their residues are all different; being `|slots|` many, they are all residues. */
  predicate CoversResidues(slots: seq<int>) {
    && slots != []
    && (forall i | 0 <= i < |slots| :: slots[i] >= 0)
    && (forall i, j | 0 <= i < j < |slots| :: slots[i] % |slots| != slots[j] % |slots|)
    && (forall r | 0 <= r < |slots| :: HasSlot(slots, r))
  }

  /** Slots numbered from 0, and slots numbered from 1. */
  lemma NumberedSlots(n: nat, first: nat)
    requires n > 0 && first <= 1
    ensures CoversResidues(seq(n, i => i + first))
  {
    var slots := seq(n, i => i + first);
    forall i | 0 <= i < n ensures slots[i] % n == if i + first == n then 0 else i + first {
      Residue(i + first, n);
    }
    forall r | 0 <= r < n ensures HasSlot(slots, r) {
      var i := if r >= first then r - first else n - 1;
      assert slots[i] % n == r;
    }
  }

  lemma Residue(a: nat, n: nat)
    requires 0 < n && a <= n
    ensures a % n == if a == n then 0 else a
  {
  }

  /** Per instance, 1 if it owns the id. */
  function OwnerFlags(f: Fleet, id: int): seq<nat> {
    seq(|f.slots|, i requires 0 <= i < |f.slots| => if OwnsStream(Member(f, i), id) then 1 else 0)
  }

  /** How many instances own an id. */
  function Owners(f: Fleet, id: int): nat {
    Sum(OwnerFlags(f, id))
  }

  /**
   * Every id has exactly one owner if it is not negative or a multiple of the fleet's size, and none otherwise:
   * the remainder of a negative id is negative and no slot's is.
   */
  lemma OwnersOf(f: Fleet, id: int)
    requires CoversResidues(f.slots)
    ensures Owners(f, id) == if id >= 0 || TruncMod(id, |f.slots|) == 0 then 1 else 0
  {
    var n, flags := |f.slots|, OwnerFlags(f, id);
    if n == 1 {
      SumAt(flags, 0);
    } else if id >= 0 || TruncMod(id, n) == 0 {
      var r := TruncMod(id, n);
      assert HasSlot(f.slots, r);
      var i :| 0 <= i < n && f.slots[i] % n == r;
      forall j | 0 <= j < n && j != i ensures flags[j] == 0 {
        assert f.slots[j] % n != f.slots[i] % n;
      }
      SumAt(flags, i);
    } else {
      assert TruncMod(id, n) < 0;
      SumZero(flags);
    }
  }

  /** Per instance, how often it takes configuration `c`. */
  function TakenCounts(f: Fleet, entries: seq<Entry>, c: StreamConfig): seq<nat> {
    seq(|f.slots|, i requires 0 <= i < |f.slots| => Count(Taken(Member(f, i), entries), c))
  }

  /** How often the instances together take configuration `c`. */
  function FleetCount(f: Fleet, entries: seq<Entry>, c: StreamConfig): nat {
    Sum(TakenCounts(f, entries, c))
  }

  /** The usable entries the whitelist lets through, whoever owns them. */
  function Offered(f: Fleet, entries: seq<Entry>): seq<StreamConfig> {
    TakenAll(Instance(0, 1, 0, f.hasWhitelist, f.whitelist), entries)
  }

  /** `e` is a usable entry that the whitelist lets through, and `c` is its configuration. */
  predicate Offers(f: Fleet, e: Entry, c: StreamConfig) {
    IsUsable(e) && (f.hasWhitelist ==> e.id.value in f.whitelist) && Build(e) == c
  }

  lemma MemberTakes(f: Fleet, i: nat, entries: seq<Entry>, e: Entry, c: StreamConfig)
    requires i < |f.slots|
    ensures Count(Taken(Member(f, i), entries + [e]), c) ==
            Count(Taken(Member(f, i), entries), c)
            + (if Offers(f, e, c) && OwnsStream(Member(f, i), e.id.value) then 1 else 0)
  {
    var inst := Member(f, i);
    TakenSnoc(inst, entries, e);
    if Takes(inst, e) {
      CountSnoc(Taken(inst, entries), Build(e), c);
    }
  }

  lemma FleetCountSnoc(f: Fleet, entries: seq<Entry>, e: Entry, c: StreamConfig)
    ensures FleetCount(f, entries + [e], c) ==
            FleetCount(f, entries, c) + (if Offers(f, e, c) then Owners(f, e.id.value) else 0)
  {
    var n, before, after := |f.slots|, TakenCounts(f, entries, c), TakenCounts(f, entries + [e], c);
    forall i | 0 <= i < n
      ensures after[i] == before[i] + (if Offers(f, e, c) && OwnsStream(Member(f, i), e.id.value) then 1 else 0)
    {
      MemberTakes(f, i, entries, e, c);
    }
    if Offers(f, e, c) {
      SumAdd(before, OwnerFlags(f, e.id.value), after);
    } else {
      assert after == before;
    }
  }

  lemma OfferedSnoc(f: Fleet, entries: seq<Entry>, e: Entry, c: StreamConfig)
    ensures Count(Offered(f, entries + [e]), c) == Count(Offered(f, entries), c) + (if Offers(f, e, c) then 1 else 0)
  {
    var inst := Instance(0, 1, 0, f.hasWhitelist, f.whitelist);
    TakenAllSnoc(inst, entries, e);
    if Takes(inst, e) {
      CountSnoc(Offered(f, entries), Build(e), c);
    }
  }

  /**
   * Without a cap, the instances' lists together are exactly the offered list, each entry as often as it is
   * there, if no offered id is negative (or a negative one is a multiple of the fleet's size).
   */
  lemma {:induction false} FleetPartition(f: Fleet, entries: seq<Entry>, c: StreamConfig)
    requires CoversResidues(f.slots)
    ensures FleetCount(f, entries, c) ==
            if c.id >= 0 || TruncMod(c.id, |f.slots|) == 0 then Count(Offered(f, entries), c) else 0
  {
    if entries == [] {
      SumZero(TakenCounts(f, entries, c));
    } else {
      var e := Last(entries);
      assert entries == Init(entries) + [e];
      FleetPartition(f, Init(entries), c);
      FleetCountSnoc(f, Init(entries), e, c);
      OfferedSnoc(f, Init(entries), e, c);
      if Offers(f, e, c) {
        OwnersOf(f, e.id.value);
      }
    }
  }

  // ---------- Instances over time ----------

  /** All streams of a loaded configuration are the instance's own. */
  ghost predicate Loadable(inst: Instance, c: GlobalConfig) {
    exists entries :: c.streamConfigs == Taken(inst, entries)
  }

  /** What the parser makes of any entries is such a configuration. */
  lemma ParsedIsLoadable(inst: Instance, entries: seq<Entry>, c: GlobalConfig)
    requires c.streamConfigs == Taken(inst, entries)
    ensures Loadable(inst, c)
  {
  }

  ghost predicate OwnsAll(inst: Instance, s: System) {
    forall k | k in s.active :: OwnsStream(inst, s.active[k].id)
  }

  lemma NotifyOwned(inst: Instance, s: System)
    requires OwnsAll(inst, s) && Loadable(inst, s.current)
    ensures OwnsAll(inst, Notify(s))
  {
    var entries :| s.current.streamConfigs == Taken(inst, entries);
    TakenOwned(inst, entries);
    var desired := Desired(s.current.streamConfigs);
    DesiredIds(s.current.streamConfigs);
    forall k | k in Notify(s).active ensures OwnsStream(inst, Notify(s).active[k].id) {
      if k !in s.active {
        assert StartsLast(Winner(k, desired), desired);
      }
    }
  }

  lemma {:induction false} CyclesOwned(inst: Instance, s: System, loads: seq<Option<GlobalConfig>>)
    requires OwnsAll(inst, s) && forall l | l in loads && l.Some? :: Loadable(inst, l.value)
    ensures OwnsAll(inst, Cycles(s, loads))
    decreases |loads|
  {
    if loads != [] {
      var t := Cycle(s, loads[0]);
      assert loads[0] in loads;
      if t != s {
        NotifyOwned(inst, s.(current := loads[0].value));
      }
      CyclesOwned(inst, t, loads[1..]);
    }
  }

  /**
   * Two instances of different residue never have the same id registered, under whatever keys, whatever files each
   * of them reads and when.
   */
  lemma NeverRegisteredTwice(a: Instance, b: Instance, initialA: GlobalConfig, initialB: GlobalConfig,
                             loadsA: seq<Option<GlobalConfig>>, loadsB: seq<Option<GlobalConfig>>, i: int, j: int)
    requires a.total == b.total > 1 && TruncMod(a.slot, a.total) != TruncMod(b.slot, b.total)
    requires Loadable(a, initialA) && forall l | l in loadsA && l.Some? :: Loadable(a, l.value)
    requires Loadable(b, initialB) && forall l | l in loadsB && l.Some? :: Loadable(b, l.value)
    requires i in Cycles(Start(initialA), loadsA).active && j in Cycles(Start(initialB), loadsB).active
    ensures Cycles(Start(initialA), loadsA).active[i].id != Cycles(Start(initialB), loadsB).active[j].id
  {
    NotifyOwned(a, System(initialA, [], map[]));
    NotifyOwned(b, System(initialB, [], map[]));
    CyclesOwned(a, Start(initialA), loadsA);
    CyclesOwned(b, Start(initialB), loadsB);
  }
}
