/**
 * `AdvancementRegisterBuilder`: the fluent way to register an advancement
 * trigger. Its fields start at their defaults, each setter changes its own
 * field and returns the builder, and `build()` checks the required fields,
 * fills in the default condition and player extractor, and hands everything
 * to `registerAdvancement`.
 */
module RegisterBuilder {
  import opened Wrappers
  import opened JavaInt
  import opened Events
  import opened GrantModes
  import opened PlayerExtractor
  import opened AdvancementLib

  /** The default condition, `(player, event) -> true`. */
  const AlwaysTrue: Condition := (q, ev) => true

  class AdvancementRegisterBuilder {
    const api: AdvancementApi
    var advancementKey: Option<string>
    var eventType: Option<EventClass>
    var condition: Option<Condition>
    var targetValue: Int32
    var playerExtractor: Option<Extractor>
    var grantMode: GrantMode
    var increment: Option<Increment>

    /** The builder carries every field that `build()` insists on, with a valid target. */
    predicate Ready()
      reads this
    {
      advancementKey.Some? && eventType.Some? && targetValue >= 1
    }

    /** A fresh builder: no key, no event type, target 1, `AllAtOnce`, nothing else set. */
    constructor (api: AdvancementApi)
      ensures this.api == api
      ensures advancementKey == None && eventType == None && condition == None
      ensures targetValue == 1 && playerExtractor == None && grantMode == AllAtOnce && increment == None
    {
      this.api := api;
      advancementKey := None;
      eventType := None;
      condition := None;
      targetValue := 1;
      playerExtractor := None;
      grantMode := AllAtOnce;
      increment := None;
    }

    /** A fresh builder with its key set. */
    constructor WithKey(api: AdvancementApi, advancementKey: string)
      ensures this.api == api
      ensures this.advancementKey == Some(advancementKey) && eventType == None && condition == None
      ensures targetValue == 1 && playerExtractor == None && grantMode == AllAtOnce && increment == None
    {
      this.api := api;
      this.advancementKey := Some(advancementKey);
      eventType := None;
      condition := None;
      targetValue := 1;
      playerExtractor := None;
      grantMode := AllAtOnce;
      increment := None;
    }

    /** A fresh builder with its key and event type set. */
    constructor WithKeyAndType(api: AdvancementApi, advancementKey: string, eventType: EventClass)
      ensures this.api == api
      ensures this.advancementKey == Some(advancementKey) && this.eventType == Some(eventType) && condition == None
      ensures targetValue == 1 && playerExtractor == None && grantMode == AllAtOnce && increment == None
    {
      this.api := api;
      this.advancementKey := Some(advancementKey);
      this.eventType := Some(eventType);
      condition := None;
      targetValue := 1;
      playerExtractor := None;
      grantMode := AllAtOnce;
      increment := None;
    }

    /**
     * `AdvancementAPI.register(eventType)`: a fresh builder for an event type;
     * a null type throws in the `eventType` setter.
     */
    static method Register(api: AdvancementApi, eventType: Option<EventClass>)
      returns (r: Result<AdvancementRegisterBuilder, ApiError>)
      ensures eventType.None? ==> r == Failure(NullArgument)
      ensures eventType.Some? ==> r.Success? && fresh(r.value) && r.value.api == api
      ensures eventType.Some? ==> var b := r.value;
        && b.advancementKey == None && b.eventType == eventType && b.condition == None
        && b.targetValue == 1 && b.playerExtractor == None && b.grantMode == AllAtOnce && b.increment == None
    {
      var b := new AdvancementRegisterBuilder(api);
      r := b.SetEventType(eventType);
    }

    /** `advancementKey(key)`: throws on null, leaving the field as it was. */
    method SetAdvancementKey(key: Option<string>) returns (r: Result<AdvancementRegisterBuilder, ApiError>)
      modifies this`advancementKey
      ensures key.None? ==> r == Failure(NullArgument) && advancementKey == old(advancementKey)
      ensures key.Some? ==> r == Success(this) && advancementKey == key
    {
      if key.None? {
        return Failure(NullArgument);
      }
      advancementKey := key;
      r := Success(this);
    }

    /** `eventType(type)`: throws on null, leaving the field as it was. */
    method SetEventType(cls: Option<EventClass>) returns (r: Result<AdvancementRegisterBuilder, ApiError>)
      modifies this`eventType
      ensures cls.None? ==> r == Failure(NullArgument) && eventType == old(eventType)
      ensures cls.Some? ==> r == Success(this) && eventType == cls
    {
      if cls.None? {
        return Failure(NullArgument);
      }
      eventType := cls;
      r := Success(this);
    }

    /** `grantMode(mode)`: throws on null, leaving the field as it was. */
    method SetGrantMode(mode: Option<GrantMode>) returns (r: Result<AdvancementRegisterBuilder, ApiError>)
      modifies this`grantMode
      ensures mode.None? ==> r == Failure(NullArgument) && grantMode == old(grantMode)
      ensures mode.Some? ==> r == Success(this) && grantMode == mode.value
    {
      if mode.None? {
        return Failure(NullArgument);
      }
      grantMode := mode.value;
      r := Success(this);
    }

    /** `condition(c)`: null is accepted and means "use the default". */
    method SetCondition(c: Option<Condition>) returns (b: AdvancementRegisterBuilder)
      modifies this`condition
      ensures b == this && condition == c
    {
      condition := c;
      b := this;
    }

    /** `targetValue(n)`: any value is accepted here; `build()` checks it. */
    method SetTargetValue(n: Int32) returns (b: AdvancementRegisterBuilder)
      modifies this`targetValue
      ensures b == this && targetValue == n
    {
      targetValue := n;
      b := this;
    }

    /** `playerExtractor(x)`: null is accepted and means "use the default". */
    method SetPlayerExtractor(x: Option<Extractor>) returns (b: AdvancementRegisterBuilder)
      modifies this`playerExtractor
      ensures b == this && playerExtractor == x
    {
      playerExtractor := x;
      b := this;
    }

    /** `increment(f)`: null is accepted and means one per event. */
    method SetIncrement(f: Option<Increment>) returns (b: AdvancementRegisterBuilder)
      modifies this`increment
      ensures b == this && increment == f
    {
      increment := f;
      b := this;
    }

    /**
     * `build()`: throws, changing nothing, when the key or the event type is
     * missing or the target is below 1; otherwise replaces a missing condition
     * by `AlwaysTrue` and a missing extractor by the default one for the event
     * type (in the builder's own fields, whatever happens next), and registers
     * the trigger with the increment passed on as it is.
     */
    method Build() returns (r: Outcome<ApiError>)
      modifies this`condition, this`playerExtractor, api`registry, api`warnings
      ensures old(advancementKey).None? ==> r == Fail(MissingKey)
      ensures old(advancementKey).Some? && old(eventType).None? ==> r == Fail(MissingEventType)
      ensures old(advancementKey).Some? && old(eventType).Some? && targetValue < 1 ==> r == Fail(TargetTooSmall)
      ensures !old(Ready()) ==>
        && condition == old(condition) && playerExtractor == old(playerExtractor)
        && api.registry == old(api.registry) && api.warnings == old(api.warnings)
      ensures old(Ready()) ==>
        && condition == (if old(condition).None? then Some(AlwaysTrue) else old(condition))
        && playerExtractor ==
           (if old(playerExtractor).None? then Some(DefaultPlayerExtractor(eventType.value).extractor)
            else old(playerExtractor))
        && r == (if advancementKey.value in api.catalog then Pass else Fail(AdvancementNotFound(advancementKey.value)))
        && api.registry ==
           (if r.Pass?
            then old(api.registry) + [Trigger(advancementKey.value, eventType.value, condition.value, targetValue,
                                              playerExtractor.value, grantMode, increment)]
            else old(api.registry))
        && api.warnings == old(api.warnings)
           + (if old(playerExtractor).None? && DefaultPlayerExtractor(eventType.value).warned
              then [NoPlayerExtractor(eventType.value)] else [])
           + (if r.Fail? then [UnknownAdvancement(advancementKey.value)] else [])
    {
      if advancementKey.None? {
        return Fail(MissingKey);
      }
      if eventType.None? {
        return Fail(MissingEventType);
      }
      if targetValue < 1 {
        return Fail(TargetTooSmall);
      }
      if condition.None? {
        condition := Some(AlwaysTrue);
      }
      if playerExtractor.None? {
        var resolved := DefaultPlayerExtractor(eventType.value);
        if resolved.warned {
          api.warnings := api.warnings + [NoPlayerExtractor(eventType.value)];
        }
        playerExtractor := Some(resolved.extractor);
      }
      r := api.RegisterAdvancement(advancementKey, eventType.value, condition, targetValue,
                                   playerExtractor, Some(grantMode), increment);
    }
  }
}
