/**
 * Player extractors and the default resolver `getDefaultPlayerExtractor`:
 * an ordered check of the event type against four supported event classes,
 * with an extractor that never finds a player (and a logged warning) as the
 * fallback.
 */
module PlayerExtractor {
  import opened Wrappers
  import opened Events

  /**
   * A function from an event to its player: the `getPlayer()` of one of the
   * supported event classes, the fallback `event -> null`, or one the caller supplies.
   */
  datatype Extractor =
    | PlayerOf(cls: EventClass)
    | NullExtractor
    | Custom(f: Event -> Option<Player>)

  /**
   * Applies an extractor. `PlayerOf(c)` casts the event to `c` first; a cast that
   * fails throws, which ends the callback before anything is written, exactly as
   * an absent player does, so it is modelled as `None`.
   */
  function Apply(x: Extractor, e: Event): Option<Player>
  {
    match x
    case PlayerOf(c) => if IsInstance(c, e) then e.player else None
    case NullExtractor => None
    case Custom(f) => f(e)
  }

  /** What the resolver returns, and whether it logged its warning. */
  datatype Resolution = Resolution(extractor: Extractor, warned: bool)

  /** The supported event classes, in the order the resolver tries them. */
  const SupportedEvents: seq<EventClass> :=
    [BlockBreakEvent, BlockPlaceEvent, PlayerInteractEvent, PlayerJumpEvent]

  /** `getDefaultPlayerExtractor(eventType, logger)`. */
  function DefaultPlayerExtractor(eventType: EventClass): Resolution
  {
    if IsAssignable(BlockBreakEvent, eventType) then Resolution(PlayerOf(BlockBreakEvent), false)
    else if IsAssignable(BlockPlaceEvent, eventType) then Resolution(PlayerOf(BlockPlaceEvent), false)
    else if IsAssignable(PlayerInteractEvent, eventType) then Resolution(PlayerOf(PlayerInteractEvent), false)
    else if IsAssignable(PlayerJumpEvent, eventType) then Resolution(PlayerOf(PlayerJumpEvent), false)
    else Resolution(NullExtractor, true)
  }

  /** The first candidate that `c` is assignable to, if any: an ordered type dispatch. */
  function FirstMatch(c: EventClass, candidates: seq<EventClass>): (r: Option<EventClass>)
    ensures r.None? <==> forall i :: 0 <= i < |candidates| ==> !IsAssignable(candidates[i], c)
    ensures r.Some? ==>
      exists i :: 0 <= i < |candidates| && candidates[i] == r.value && IsAssignable(r.value, c)
        && forall j :: 0 <= j < i ==> !IsAssignable(candidates[j], c)
  {
    if candidates == [] then None
    else if IsAssignable(candidates[0], c) then Some(candidates[0])
    else
      FirstMatch(c, candidates[1..])
  }

  /**
   * The resolver is the ordered dispatch over `SupportedEvents`: the first
   * supported class the event type descends from picks `getPlayer()` of that
   * class, and only when there is none does it fall back to the null extractor
   * and log a warning.
   */
  lemma DefaultIsFirstMatch(eventType: EventClass)
    ensures DefaultPlayerExtractor(eventType) ==
      match FirstMatch(eventType, SupportedEvents)
      case Some(s) => Resolution(PlayerOf(s), false)
      case None => Resolution(NullExtractor, true)
  {
    var tail3 := [PlayerJumpEvent];
    var tail2 := [PlayerInteractEvent] + tail3;
    var tail1 := [BlockPlaceEvent] + tail2;
    assert SupportedEvents == [BlockBreakEvent] + tail1;
    assert FirstMatch(eventType, tail3) ==
      if IsAssignable(PlayerJumpEvent, eventType) then Some(PlayerJumpEvent) else FirstMatch(eventType, []);
    assert FirstMatch(eventType, tail2) ==
      if IsAssignable(PlayerInteractEvent, eventType) then Some(PlayerInteractEvent) else FirstMatch(eventType, tail3);
    assert FirstMatch(eventType, tail1) ==
      if IsAssignable(BlockPlaceEvent, eventType) then Some(BlockPlaceEvent) else FirstMatch(eventType, tail2);
  }

  /** No supported class is a subclass of another. */
  lemma SupportedAreUnrelated()
    ensures forall i, j | 0 <= i < |SupportedEvents| && 0 <= j < |SupportedEvents| && i != j ::
      !IsAssignable(SupportedEvents[i], SupportedEvents[j])
  {
    assert IsAssignable(BlockEvent, BlockBreakEvent);
    forall i, j | 0 <= i < |SupportedEvents| && 0 <= j < |SupportedEvents| && i != j
      ensures !IsAssignable(SupportedEvents[i], SupportedEvents[j])
    {
    }
  }

  /**
   * So, under single inheritance, an event type descends from at most one of
   * them, and the order of the checks never decides the outcome.
   */
  lemma AtMostOneSupportedMatches(c: EventClass, i: nat, j: nat)
    requires i < |SupportedEvents| && j < |SupportedEvents|
    requires IsAssignable(SupportedEvents[i], c) && IsAssignable(SupportedEvents[j], c)
    ensures i == j
  {
    SuperclassesAreChain(SupportedEvents[i], SupportedEvents[j], c);
    SupportedAreUnrelated();
  }

  /**
   * An event type below one of the supported classes resolves, without a
   * warning, to an extractor that returns the `getPlayer()` of every event the
   * callback accepts for that type.
   */
  lemma {:induction false} DefaultExtractsPlayer(eventType: EventClass, i: nat, e: Event)
    requires i < |SupportedEvents| && IsAssignable(SupportedEvents[i], eventType)
    requires IsInstance(eventType, e)
    ensures DefaultPlayerExtractor(eventType) == Resolution(PlayerOf(SupportedEvents[i]), false)
    ensures Apply(DefaultPlayerExtractor(eventType).extractor, e) == e.player
  {
    DefaultIsFirstMatch(eventType);
    var s := FirstMatch(eventType, SupportedEvents);
    var k :| 0 <= k < |SupportedEvents| && SupportedEvents[k] == s.value && IsAssignable(s.value, eventType);
    AtMostOneSupportedMatches(eventType, i, k);
    AssignableTransitive(SupportedEvents[i], eventType, e.cls);
  }

  /**
   * An event type below none of the supported classes resolves to an extractor
   * that yields no player for any event, and only this path logs the warning.
   */
  lemma UnsupportedExtractsNothing(eventType: EventClass, e: Event)
    ensures DefaultPlayerExtractor(eventType).warned <==>
      forall i :: 0 <= i < |SupportedEvents| ==> !IsAssignable(SupportedEvents[i], eventType)
    ensures DefaultPlayerExtractor(eventType).warned ==>
      Apply(DefaultPlayerExtractor(eventType).extractor, e) == None
  {
    DefaultIsFirstMatch(eventType);
  }
}
