/**
 * `AdvancementAPI`: registration of advancement triggers and the event
 * callback each registration installs. The callback reads the player's
 * counter for the advancement, adds the event's increment, and under the
 * trigger's grant mode may grant all remaining criteria or the next one,
 * then writes the counter back.
 *
 * The host's state is held in the API object: the advancements the host knows
 * (`NamespacedKey.fromString` followed by `Bukkit.getAdvancement`, fixed for
 * the life of the object), every player's persistent data container (only its
 * integer entries), every player's awarded criteria, and the registered
 * triggers in registration order (Bukkit's listener list). Grant calls and
 * logged warnings are kept as ghost logs.
 */
module AdvancementLib {
  import opened Wrappers
  import opened JavaInt
  import opened Events
  import opened GrantModes
  import opened PlayerExtractor
  import opened StorageKeys
  import opened Progress
  import opened Advancements

  /** `BiPredicate<Player, E>`: whether an event counts for a player. */
  type Condition = (Player, Event) -> bool

  /** `ToIntFunction<E>`: the progress an event adds. */
  type Increment = Event -> Int32

  /** A registered trigger: what `registerAdvancement` accepted and its callback captures. */
  datatype Trigger = Trigger(
    key: string,
    eventType: EventClass,
    condition: Condition,
    target: Target,
    extractor: Extractor,
    mode: GrantMode,
    increment: Option<Increment>)

  /** The exceptions of registration and of the builder. */
  datatype ApiError =
    | NullArgument                       // a builder setter was given null (NullPointerException)
    | MissingKey                         // build(): no advancement key
    | MissingEventType                   // build(): no event type
    | TargetTooSmall                     // build(): target value below 1
    | InvalidArguments                   // registerAdvancement: a required argument null, or target below 1
    | AdvancementNotFound(key: string)   // registerAdvancement: the host has no such advancement

  /** A warning written to the plugin's logger. */
  datatype Warning = UnknownAdvancement(key: string) | NoPlayerExtractor(eventType: EventClass)

  datatype GrantKind = GrantAll | GrantOne

  /** A call of `grantAdvancement` (GrantAll) or `grantCriterion` (GrantOne). */
  datatype GrantCall = GrantCall(player: Player, key: string, kind: GrantKind)

  /** The integer entries of every player's persistent data container. */
  type Containers = map<(Player, NamespacedKey), Int32>

  /** The criteria awarded to each player, per advancement id. */
  type Awards = map<(Player, string), set<string>>

  /** The advancements the host resolves, by the key string given to the API. */
  type Catalog = map<string, Advancement>

  ghost predicate WellFormed(catalog: Catalog)
  {
    forall k | k in catalog :: Distinct(catalog[k].criteria)
  }

  /** `getOrDefault(key, INTEGER, 0)`. */
  function Read(containers: Containers, p: Player, slot: NamespacedKey): Int32
  {
    if (p, slot) in containers then containers[(p, slot)] else 0
  }

  /** The criteria of advancement `id` awarded to `p`. */
  function Done(awarded: Awards, p: Player, id: string): set<string>
  {
    if (p, id) in awarded then awarded[(p, id)] else {}
  }

  /** `getRemainingCriteria()` of the advancement `key` for `p`. */
  function RemainingFor(catalog: Catalog, awarded: Awards, p: Player, key: string): seq<string>
    requires key in catalog
  {
    Remaining(catalog[key].criteria, Done(awarded, p, catalog[key].id))
  }

  /** `awardCriteria(c)`. */
  function Award(awarded: Awards, p: Player, id: string, c: string): Awards
  {
    awarded[(p, id) := Done(awarded, p, id) + {c}]
  }

  /** Awards each of `cs`, in order. */
  function AwardEach(awarded: Awards, p: Player, id: string, cs: seq<string>): Awards
    decreases |cs|
  {
    if cs == [] then awarded else AwardEach(Award(awarded, p, id, cs[0]), p, id, cs[1..])
  }

  /** What `grantAdvancement` does to the awards: every remaining criterion is awarded. */
  function AwardAll(catalog: Catalog, awarded: Awards, p: Player, key: string): Awards
  {
    if key !in catalog then awarded
    else AwardEach(awarded, p, catalog[key].id, RemainingFor(catalog, awarded, p, key))
  }

  /** What `grantCriterion` does to the awards: the first remaining criterion, if any, is awarded. */
  function AwardFirst(catalog: Catalog, awarded: Awards, p: Player, key: string): Awards
  {
    if key !in catalog || RemainingFor(catalog, awarded, p, key) == [] then awarded
    else Award(awarded, p, catalog[key].id, RemainingFor(catalog, awarded, p, key)[0])
  }

  /** `increment != null ? increment.applyAsInt(e) : 1`. */
  function IncrementValue(increment: Option<Increment>, e: Event): Int32
  {
    if increment.Some? then increment.value(e) else 1
  }

  function KindOf(mode: GrantMode): GrantKind
  {
    match mode
    case AllAtOnce => GrantAll
    case StepByStep => GrantOne
  }

  /** What the callback decides for one event: nothing, or write a counter and maybe grant. */
  datatype Effect =
    | Ignore
    | Write(player: Player, slot: NamespacedKey, value: Int32, grant: Option<GrantKind>)

  /** The callback's decision for trigger `t` and event `e`, given the containers. */
  function Decide(t: Trigger, e: Event, containers: Containers): Effect
  {
    if !IsInstance(t.eventType, e) then Ignore
    else match Apply(t.extractor, e)
      case None => Ignore
      case Some(p) =>
        if !t.condition(p, e) then Ignore
        else
          var slot := StorageKey(t.key);
          match CounterStep(t.mode, t.target, Read(containers, p, slot), IncrementValue(t.increment, e))
          case Keep => Ignore
          case Store(v, fire) => Write(p, slot, v, if fire then Some(KindOf(t.mode)) else None)
  }

  /** The state the core reads and writes, with its ghost logs. */
  datatype World = World(containers: Containers, awarded: Awards, grants: seq<GrantCall>, warnings: seq<Warning>)

  /** A grant call: it looks the advancement up again, and warns and does nothing if it is unknown. */
  function Grant(catalog: Catalog, w: World, p: Player, key: string, kind: GrantKind): World
  {
    World(
      w.containers,
      match kind
      case GrantAll => AwardAll(catalog, w.awarded, p, key)
      case GrantOne => AwardFirst(catalog, w.awarded, p, key),
      w.grants + [GrantCall(p, key, kind)],
      w.warnings + if key in catalog then [] else [UnknownAdvancement(key)])
  }

  /** One run of trigger `t`'s callback on event `e`. */
  function Handle(catalog: Catalog, t: Trigger, e: Event, w: World): World
  {
    match Decide(t, e, w.containers)
    case Ignore => w
    case Write(p, slot, v, g) =>
      var granted := if g.Some? then Grant(catalog, w, p, t.key, g.value) else w;
      granted.(containers := w.containers[(p, slot) := v])
  }

  /** Delivery of `e` to the callbacks of `ts`, in order. */
  function Deliver(catalog: Catalog, ts: seq<Trigger>, e: Event, w: World): World
    decreases |ts|
  {
    if ts == [] then w else Deliver(catalog, ts[1..], e, Handle(catalog, ts[0], e, w))
  }

  // ---------------------------------------------------------------------------
  // Properties of grants

  /** Awarding a list adds exactly its criteria, to one player's one advancement. */
  lemma {:induction false} AwardEachAdds(awarded: Awards, p: Player, id: string, cs: seq<string>)
    ensures Done(AwardEach(awarded, p, id, cs), p, id) == Done(awarded, p, id) + set c | c in cs
    ensures forall q, j | (q, j) != (p, id) :: Done(AwardEach(awarded, p, id, cs), q, j) == Done(awarded, q, j)
    decreases |cs|
  {
    if cs != [] {
      AwardEachAdds(Award(awarded, p, id, cs[0]), p, id, cs[1..]);
      assert (set c | c in cs) == {cs[0]} + set c | c in cs[1..];
    }
  }

  /**
   * `grantAdvancement` leaves the player no remaining criteria of the
   * advancement and changes no other progress; for an unknown advancement it
   * changes nothing.
   */
  lemma GrantAllCompletes(catalog: Catalog, awarded: Awards, p: Player, key: string)
    ensures key !in catalog ==> AwardAll(catalog, awarded, p, key) == awarded
    ensures key in catalog ==> RemainingFor(catalog, AwardAll(catalog, awarded, p, key), p, key) == []
    ensures key in catalog ==> forall q, j | (q, j) != (p, catalog[key].id) ::
      Done(AwardAll(catalog, awarded, p, key), q, j) == Done(awarded, q, j)
  {
    if key in catalog {
      var adv := catalog[key];
      AwardEachAdds(awarded, p, adv.id, RemainingFor(catalog, awarded, p, key));
      AwardingRemainingLeavesNone(adv.criteria, Done(awarded, p, adv.id));
    }
  }

  /**
   * `grantCriterion` awards exactly the first remaining criterion, so the
   * remaining list loses its head; with none remaining, or for an unknown
   * advancement, it changes nothing.
   */
  lemma GrantOneAwardsFirst(catalog: Catalog, awarded: Awards, p: Player, key: string)
    requires WellFormed(catalog)
    ensures key !in catalog ==> AwardFirst(catalog, awarded, p, key) == awarded
    ensures key in catalog && RemainingFor(catalog, awarded, p, key) == [] ==>
      AwardFirst(catalog, awarded, p, key) == awarded
    ensures key in catalog && RemainingFor(catalog, awarded, p, key) != [] ==>
      && Done(AwardFirst(catalog, awarded, p, key), p, catalog[key].id)
         == Done(awarded, p, catalog[key].id) + {RemainingFor(catalog, awarded, p, key)[0]}
      && RemainingFor(catalog, AwardFirst(catalog, awarded, p, key), p, key)
         == RemainingFor(catalog, awarded, p, key)[1..]
    ensures key in catalog ==> forall q, j | (q, j) != (p, catalog[key].id) ::
      Done(AwardFirst(catalog, awarded, p, key), q, j) == Done(awarded, q, j)
  {
    if key in catalog && RemainingFor(catalog, awarded, p, key) != [] {
      var adv := catalog[key];
      AwardingFirstRemovesFirst(adv.criteria, Done(awarded, p, adv.id));
    }
  }

  // ---------------------------------------------------------------------------
  // Properties of the callback

  /**
   * An event the trigger's type does not cover, an event without a player, a
   * false condition, and a non-positive increment leave everything unchanged:
   * no counter is written and nothing is granted. A missing increment
   * function counts 1.
   */
  lemma UncountedEventsChangeNothing(catalog: Catalog, t: Trigger, e: Event, w: World)
    ensures IncrementValue(None, e) == 1
    ensures !IsInstance(t.eventType, e) ==> Handle(catalog, t, e, w) == w
    ensures Apply(t.extractor, e).None? ==> Handle(catalog, t, e, w) == w
    ensures Apply(t.extractor, e).Some? && !t.condition(Apply(t.extractor, e).value, e) ==>
      Handle(catalog, t, e, w) == w
    ensures IncrementValue(t.increment, e) <= 0 ==> Handle(catalog, t, e, w) == w
  {
  }

  /**
   * A trigger whose extractor is the default for an unsupported event type
   * never counts an event: every event leaves everything unchanged.
   */
  lemma UnsupportedTypeNeverCounts(catalog: Catalog, t: Trigger, e: Event, w: World)
    requires DefaultPlayerExtractor(t.eventType).warned
    requires t.extractor == DefaultPlayerExtractor(t.eventType).extractor
    ensures Handle(catalog, t, e, w) == w
  {
    UnsupportedExtractsNothing(t.eventType, e);
  }

  /**
   * The callback changes at most one counter: that of the extracted player
   * under the trigger's storage key.
   */
  lemma HandleTouchesOneCounter(catalog: Catalog, t: Trigger, e: Event, w: World, q: Player, slot: NamespacedKey)
    requires Apply(t.extractor, e).None? || (q, slot) != (Apply(t.extractor, e).value, StorageKey(t.key))
    ensures Read(Handle(catalog, t, e, w).containers, q, slot) == Read(w.containers, q, slot)
  {
  }

  /**
   * Under `AllAtOnce` with the default increment, a completed counter is never
   * written again and grants nothing: a zero sum is discarded.
   */
  lemma CompletedCounterIsFinal(catalog: Catalog, t: Trigger, e: Event, w: World)
    requires t.mode == AllAtOnce && t.increment.None?
    requires Apply(t.extractor, e).Some?
    requires Read(w.containers, Apply(t.extractor, e).value, StorageKey(t.key)) == Completed
    ensures Handle(catalog, t, e, w) == w
  {
    SentinelAbsorbsUnitIncrement(t.target);
  }

  /**
   * `AllAtOnce` keeps the player's counter in [-1, target). A non-zero sum that
   * reaches the target stores -1 and grants all remaining criteria; a smaller
   * one is stored as it is (without overflow).
   */
  lemma AllAtOnceHandleInRange(catalog: Catalog, t: Trigger, e: Event, w: World, p: Player)
    requires t.mode == AllAtOnce && IsInstance(t.eventType, e)
    requires Apply(t.extractor, e) == Some(p) && t.condition(p, e)
    requires -1 <= Read(w.containers, p, StorageKey(t.key)) < t.target
    requires Read(w.containers, p, StorageKey(t.key)) + IncrementValue(t.increment, e) <= MaxInt
    ensures -1 <= Read(Handle(catalog, t, e, w).containers, p, StorageKey(t.key)) < t.target
    ensures |Handle(catalog, t, e, w).grants| == |w.grants| +
      if IncrementValue(t.increment, e) > 0
         && Read(w.containers, p, StorageKey(t.key)) + IncrementValue(t.increment, e) >= t.target
      then 1 else 0
    ensures var sum := Read(w.containers, p, StorageKey(t.key)) + IncrementValue(t.increment, e);
      IncrementValue(t.increment, e) > 0 && sum != 0 ==>
        && Read(Handle(catalog, t, e, w).containers, p, StorageKey(t.key)) == (if sum >= t.target then Completed else sum)
        && Handle(catalog, t, e, w).grants == w.grants + if sum >= t.target then [GrantCall(p, t.key, GrantAll)] else []
  {
    StepTable(AllAtOnce, t.target, Read(w.containers, p, StorageKey(t.key)), IncrementValue(t.increment, e));
  }

  /**
   * `StepByStep` with a non-zero sum stores the sum, minus the target once when
   * it reaches the target, and then grants one criterion (without overflow). The
   * stored counter may be -1 here: an `AllAtOnce` trigger for the same key
   * shares it.
   */
  lemma StepByStepHandle(catalog: Catalog, t: Trigger, e: Event, w: World, p: Player)
    requires t.mode == StepByStep && IsInstance(t.eventType, e)
    requires Apply(t.extractor, e) == Some(p) && t.condition(p, e)
    requires Read(w.containers, p, StorageKey(t.key)) + IncrementValue(t.increment, e) != 0
    requires Read(w.containers, p, StorageKey(t.key)) + IncrementValue(t.increment, e) <= MaxInt
    requires IncrementValue(t.increment, e) > 0
    ensures var sum := Read(w.containers, p, StorageKey(t.key)) + IncrementValue(t.increment, e);
      && Read(Handle(catalog, t, e, w).containers, p, StorageKey(t.key)) == (if sum >= t.target then sum - t.target else sum)
      && Handle(catalog, t, e, w).grants == w.grants + if sum >= t.target then [GrantCall(p, t.key, GrantOne)] else []
  {
    StepTable(StepByStep, t.target, Read(w.containers, p, StorageKey(t.key)), IncrementValue(t.increment, e));
  }

  /**
   * A grant for an advancement the host no longer knows does nothing but log a
   * warning; the counter is written all the same.
   */
  lemma UnknownAdvancementStillWrites(catalog: Catalog, t: Trigger, e: Event, w: World)
    requires t.key !in catalog
    requires Decide(t, e, w.containers).Write?
    ensures var d := Decide(t, e, w.containers);
      && Handle(catalog, t, e, w).containers == w.containers[(d.player, d.slot) := d.value]
      && Handle(catalog, t, e, w).awarded == w.awarded
      && Handle(catalog, t, e, w).warnings == w.warnings + if d.grant.Some? then [UnknownAdvancement(t.key)] else []
  {
  }

  // ---------------------------------------------------------------------------
  // Properties of delivery

  /** Delivering to two lists of callbacks is delivering to the first, then the second. */
  lemma {:induction false} DeliverAppend(catalog: Catalog, ts: seq<Trigger>, us: seq<Trigger>, e: Event, w: World)
    ensures Deliver(catalog, ts + us, e, w) == Deliver(catalog, us, e, Deliver(catalog, ts, e, w))
    decreases |ts|
  {
    if ts == [] {
      assert ts + us == us;
    } else {
      assert (ts + us)[0] == ts[0] && (ts + us)[1..] == ts[1..] + us;
      DeliverAppend(catalog, ts[1..], us, e, Handle(catalog, ts[0], e, w));
    }
  }

  /**
   * Registering the same advancement twice installs two callbacks on one
   * counter: a single event then counts twice. With target 2, one event
   * completes the advancement that a single registration leaves at 1.
   */
  lemma DuplicateRegistrationCountsTwice()
    ensures
      var t := Trigger("demo:jump", PlayerJumpEvent, (q, ev) => true, 2, PlayerOf(PlayerJumpEvent), AllAtOnce, None);
      var p := Player(1);
      var e := Event(PlayerJumpEvent, Some(p), []);
      var catalog := map["demo:jump" := Advancement("demo:jump", ["jumped"])];
      var w := World(map[], map[], [], []);
      && Read(Deliver(catalog, [t], e, w).containers, p, StorageKey(t.key)) == 1
      && Deliver(catalog, [t], e, w).grants == []
      && Read(Deliver(catalog, [t, t], e, w).containers, p, StorageKey(t.key)) == Completed
      && Deliver(catalog, [t, t], e, w).grants == [GrantCall(p, "demo:jump", GrantAll)]
  {
    var t := Trigger("demo:jump", PlayerJumpEvent, (q, ev) => true, 2, PlayerOf(PlayerJumpEvent), AllAtOnce, None);
    var p := Player(1);
    var e := Event(PlayerJumpEvent, Some(p), []);
    var catalog := map["demo:jump" := Advancement("demo:jump", ["jumped"])];
    var w := World(map[], map[], [], []);
    var slot := StorageKey(t.key);
    AssignableToRoot(PlayerJumpEvent);
    assert Apply(t.extractor, e) == Some(p);
    assert Decide(t, e, w.containers) == Write(p, slot, 1, None) by {
      assert Read(w.containers, p, slot) == 0;
      assert CounterStep(AllAtOnce, 2, 0, 1) == Store(1, false);
    }
    var once := w.(containers := map[(p, slot) := 1]);
    assert Handle(catalog, t, e, w) == once;
    assert Deliver(catalog, [t], e, w) == once;
    assert Decide(t, e, once.containers) == Write(p, slot, Completed, Some(GrantAll)) by {
      assert Read(once.containers, p, slot) == 1;
      assert CounterStep(AllAtOnce, 2, 1, 1) == Store(Completed, true);
    }
    var twice := Handle(catalog, t, e, once);
    assert twice.grants == [GrantCall(p, "demo:jump", GrantAll)];
    assert twice.containers == map[(p, slot) := Completed];
    assert Deliver(catalog, [t], e, once) == twice;
    assert [t, t][1..] == [t];
    assert Deliver(catalog, [t, t], e, w) == Deliver(catalog, [t], e, once);
  }

  /**
   * A trigger on entity deaths whose condition asks for a killed villager
   * (event detail [1]) and whose extractor yields the killer: at target 1 one
   * such death grants everything and the counter reads -1; another death
   * changes nothing.
   */
  lemma VillagerKillScenario(alice: Player)
    ensures
      var death := Subclass("org.bukkit.event.entity.EntityDeathEvent", EventRoot);
      var t := Trigger("demo:trade", death, (q, ev: Event) => ev.detail == [1], 1,
                       Custom((ev: Event) => ev.player), AllAtOnce, None);
      var catalog := map["demo:trade" := Advancement("demo:trade", ["kill"])];
      var w := World(map[], map[], [], []);
      var villager := Handle(catalog, t, Event(death, Some(alice), [1]), w);
      && Read(villager.containers, alice, StorageKey("demo:trade")) == Completed
      && villager.grants == [GrantCall(alice, "demo:trade", GrantAll)]
      && Handle(catalog, t, Event(death, Some(alice), [2]), w) == w
  {
    var death := Subclass("org.bukkit.event.entity.EntityDeathEvent", EventRoot);
    AssignableToRoot(death);
  }

  class AdvancementApi {
    const catalog: Catalog
    var containers: Containers
    var awarded: Awards
    var registry: seq<Trigger>
    ghost var grants: seq<GrantCall>
    ghost var warnings: seq<Warning>

    ghost predicate Valid()
      reads this
    {
      WellFormed(catalog)
    }

    ghost function Now(): World
      reads this
    {
      World(containers, awarded, grants, warnings)
    }

    constructor (catalog: Catalog, containers: Containers, awarded: Awards)
      requires WellFormed(catalog)
      ensures Valid()
      ensures this.catalog == catalog && this.containers == containers && this.awarded == awarded
      ensures registry == [] && grants == [] && warnings == []
    {
      this.catalog := catalog;
      this.containers := containers;
      this.awarded := awarded;
      registry := [];
      grants := [];
      warnings := [];
    }

    /** `getProgress(advancementKey, player)`: the raw stored counter, 0 when there is none. */
    function GetProgress(advancementKey: string, p: Player): (n: Int32)
      reads this
      ensures (p, StorageKey(advancementKey)) !in containers ==> n == 0
      ensures (p, StorageKey(advancementKey)) in containers ==> n == containers[(p, StorageKey(advancementKey))]
    {
      Read(containers, p, StorageKey(advancementKey))
    }

    /** `getAdvancement(advancementKey)`: the host's advancement, or a warning and null. */
    method GetAdvancement(advancementKey: string) returns (a: Option<Advancement>)
      modifies this`warnings
      ensures a == if advancementKey in catalog then Some(catalog[advancementKey]) else None
      ensures warnings == old(warnings) + if a.None? then [UnknownAdvancement(advancementKey)] else []
    {
      if advancementKey in catalog {
        a := Some(catalog[advancementKey]);
      } else {
        warnings := warnings + [UnknownAdvancement(advancementKey)];
        a := None;
      }
    }

    /**
     * `registerAdvancement(...)`: validates its arguments and, when they pass,
     * installs a callback for the trigger. Registrations are never merged.
     */
    method RegisterAdvancement(
      advancementKey: Option<string>,
      eventType: EventClass,
      condition: Option<Condition>,
      targetValue: Int32,
      playerExtractor: Option<Extractor>,
      grantMode: Option<GrantMode>,
      increment: Option<Increment>)
      returns (r: Outcome<ApiError>)
      modifies this`registry, this`warnings
      ensures r ==
        if advancementKey.None? || condition.None? || targetValue < 1 || playerExtractor.None? || grantMode.None?
        then Fail(InvalidArguments)
        else if advancementKey.value !in catalog then Fail(AdvancementNotFound(advancementKey.value))
        else Pass
      ensures registry ==
        if r.Pass?
        then old(registry) + [Trigger(advancementKey.value, eventType, condition.value, targetValue,
                                      playerExtractor.value, grantMode.value, increment)]
        else old(registry)
      ensures warnings ==
        old(warnings) + if r.Fail? && r.error.AdvancementNotFound? then [UnknownAdvancement(advancementKey.value)] else []
    {
      if advancementKey.None? || condition.None? || targetValue < 1 || playerExtractor.None? || grantMode.None? {
        return Fail(InvalidArguments);
      }
      var a := GetAdvancement(advancementKey.value);
      if a.None? {
        return Fail(AdvancementNotFound(advancementKey.value));
      }
      registry := registry + [Trigger(advancementKey.value, eventType, condition.value, targetValue,
                                      playerExtractor.value, grantMode.value, increment)];
      r := Pass;
    }

    /** `grantAdvancement(player, key)`: awards every remaining criterion, one by one. */
    method GrantAdvancement(p: Player, advancementKey: string)
      modifies this`awarded, this`grants, this`warnings
      ensures Now() == Grant(catalog, old(Now()), p, advancementKey, GrantAll)
    {
      grants := grants + [GrantCall(p, advancementKey, GrantAll)];
      var a := GetAdvancement(advancementKey);
      if a.None? {
        return;
      }
      var adv := a.value;
      var remaining := Remaining(adv.criteria, Done(awarded, p, adv.id));
      var i := 0;
      while i < |remaining|
        invariant 0 <= i <= |remaining|
        invariant AwardEach(awarded, p, adv.id, remaining[i..]) == AwardAll(catalog, old(awarded), p, advancementKey)
        invariant grants == old(grants) + [GrantCall(p, advancementKey, GrantAll)] && warnings == old(warnings)
      {
        assert remaining[i..][1..] == remaining[i + 1..];
        awarded := Award(awarded, p, adv.id, remaining[i]);
        i := i + 1;
      }
      assert remaining[i..] == [];
    }

    /** `grantCriterion(player, key)`: awards the first remaining criterion, if there is one. */
    method GrantCriterion(p: Player, advancementKey: string)
      requires Valid()
      modifies this`awarded, this`grants, this`warnings
      ensures Now() == Grant(catalog, old(Now()), p, advancementKey, GrantOne)
      ensures advancementKey in catalog && old(RemainingFor(catalog, awarded, p, advancementKey)) != [] ==>
        RemainingFor(catalog, awarded, p, advancementKey) == old(RemainingFor(catalog, awarded, p, advancementKey))[1..]
    {
      GrantOneAwardsFirst(catalog, awarded, p, advancementKey);
      grants := grants + [GrantCall(p, advancementKey, GrantOne)];
      var a := GetAdvancement(advancementKey);
      if a.None? {
        return;
      }
      var adv := a.value;
      var remaining := Remaining(adv.criteria, Done(awarded, p, adv.id));
      if |remaining| > 0 {
        awarded := Award(awarded, p, adv.id, remaining[0]);
      }
    }

    /**
     * The callback installed for trigger `t`, run on event `e`. When it writes,
     * `getProgress` reads the written value back; when it does not, no counter
     * and no award changes.
     */
    method HandleEvent(t: Trigger, e: Event)
      requires Valid()
      modifies this`containers, this`awarded, this`grants, this`warnings
      ensures Now() == Handle(catalog, t, e, old(Now()))
      ensures Decide(t, e, old(containers)).Write? ==>
        GetProgress(t.key, Decide(t, e, old(containers)).player) == Decide(t, e, old(containers)).value
      ensures Decide(t, e, old(containers)).Ignore? ==> containers == old(containers) && awarded == old(awarded)
    {
      if !IsInstance(t.eventType, e) {
        return;
      }
      var player := Apply(t.extractor, e);
      if player.None? || !t.condition(player.value, e) {
        return;
      }
      var p := player.value;
      var slot := StorageKey(t.key);
      var inc := if t.increment.Some? then t.increment.value(e) else 1;
      if inc <= 0 {
        return;
      }
      var value: Int32 := Add(Read(containers, p, slot), inc);
      if value == 0 {
        return;
      }
      match t.mode {
        case AllAtOnce =>
          if value >= t.target {
            value := Completed;
            GrantAdvancement(p, t.key);
          }
        case StepByStep =>
          if value >= t.target {
            value := value - t.target;
            GrantCriterion(p, t.key);
          }
      }
      containers := containers[(p, slot) := value];
    }

    /** Delivery of one event to every registered callback, in registration order. */
    method Dispatch(e: Event)
      requires Valid()
      modifies this`containers, this`awarded, this`grants, this`warnings
      ensures Now() == Deliver(catalog, registry, e, old(Now()))
    {
      var i := 0;
      while i < |registry|
        invariant 0 <= i <= |registry|
        invariant Deliver(catalog, registry[i..], e, Now()) == Deliver(catalog, registry, e, old(Now()))
      {
        assert registry[i..][1..] == registry[i + 1..];
        HandleEvent(registry[i], e);
        i := i + 1;
      }
    }
  }
}
