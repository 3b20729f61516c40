# AdvancementLib: a verified model of the progress-tracking core

AdvancementLib is a library for Bukkit/Paper plugins. A plugin uses it to register an
advancement trigger. A trigger names an advancement key, an event class, a condition on
(player, event), a target value, a player extractor, a grant mode and an optional
increment function. Each registration installs an event callback. The callback finds the
player, checks the condition and computes the increment. It then reads the player's
counter for the advancement from the player's persistent data container and adds the
increment. Depending on the grant mode, it grants all remaining criteria or the next one
when the sum reaches the target, and it writes the counter back.

This project models that core in Dafny:

- `java_int.dfy` (`JavaInt`): Java's 32-bit `int` and its wrap-around `+`.
- `events.dfy` (`Events`): players, events and the event class hierarchy. `isInstance` and `isAssignableFrom` become the relation `IsAssignable`.
- `grant_mode.dfy` (`GrantModes`): the `GrantMode` enum.
- `player_extractor.dfy` (`PlayerExtractor`): extractors and the default resolver `getDefaultPlayerExtractor`.
- `storage_keys.dfy` (`StorageKeys`): the storage key `advancement_api:<key with its first ':' replaced by '.'>`.
- `progress.dfy` (`Progress`): the counter state machine of one event (`CounterStep`) and of a run of events (`Replay`).
- `advancements.dfy` (`Advancements`): advancement criteria and `getRemainingCriteria`.
- `advancement_api.dfy` (`AdvancementLib`): the trigger record, the callback as a pure decision (`Decide`, `Handle`), and the class `AdvancementApi`. The class has `registerAdvancement`, the callback (`HandleEvent`), `getProgress`, `grantAdvancement` and `grantCriterion`, plus the delivery of one event to every registered callback (`Dispatch`).
- `register_builder.dfy` (`RegisterBuilder`): the class `AdvancementRegisterBuilder` with its defaults, its setters and `build()`.

The host's state is held as fields of `AdvancementApi`:

- the advancements the host knows, as a fixed map;
- the integer entries of every player's persistent data container, as `map<(Player, NamespacedKey), Int32>`; a missing entry reads as 0;
- every player's awarded criteria;
- the registered triggers, as a sequence that only grows.

Grant calls and logged warnings are ghost logs.

Points where the code behaves differently from what one might expect, all modelled as the
code does:

- In step-by-step mode a single event fires at most one criterion grant and subtracts the target once, however large the increment. With target 3, an increment of 7 from 0 grants once and leaves 4, not twice with 1 left (`StepByStepFiresOncePerEvent`). One may read "support increments larger than one target-width" as a promise of several grants per event; the code does not do that. The carried remainder pays out one grant per later event instead.
- Registering the same key twice installs two callbacks on the same counter (`DuplicateRegistrationCountsTwice`).
- The store holds the raw counter. `getProgress` of a completed all-at-once trigger returns -1. Registration does not reset a counter that already exists, so `getProgress` right after registering reads 0 only for a player with no stored counter. `RegisterAdvancement` does not modify the containers.
- `stored + increment` is Java `int` addition and wraps. An all-at-once counter at 5 of 10 that gets an increment of 2147483647 does not complete, and it stores a negative value (`OverflowWrapsCounter`). The range and conservation lemmas are stated for runs without overflow.
- Keys `a:b` and `a.b` share one storage key (`StorageKeysCanCollide`). Keys that contain no '.' never collide (`StorageKeyInjective`).

## Model

| member | source | states |
|---|---|---|
| `JavaInt.Add` | src/main/java/io/github/_6mal7/advancementLib/AdvancementAPI.java:128-132 | Java `int` addition: the exact sum when it fits, otherwise the sum shifted by 2^32 into range |
| `PlayerExtractor.FirstMatch` | src/main/java/io/github/_6mal7/advancementLib/PlayerExtractor.java:53-64 | the ordered type dispatch: the result is the first candidate the class is assignable to, and none exactly when no candidate matches |
| `PlayerExtractor.DefaultIsFirstMatch` | src/main/java/io/github/_6mal7/advancementLib/PlayerExtractor.java:53-68 | the resolver returns `getPlayer()` of the first supported class (BlockBreak, BlockPlace, PlayerInteract, PlayerJump, in that order) that the event type descends from, without a warning; otherwise the null extractor with a warning |
| `PlayerExtractor.SupportedAreUnrelated` | src/main/java/io/github/_6mal7/advancementLib/PlayerExtractor.java:53-64 | none of the four supported event classes is a subclass of another |
| `PlayerExtractor.AtMostOneSupportedMatches` | src/main/java/io/github/_6mal7/advancementLib/PlayerExtractor.java:53-64 | under single inheritance an event type descends from at most one supported class, so the order of the checks never changes the result |
| `PlayerExtractor.DefaultExtractsPlayer` | src/main/java/io/github/_6mal7/advancementLib/PlayerExtractor.java:53-64 | an event type below a supported class resolves, without a warning, to that class's `getPlayer()`, which returns the player of every event of the type |
| `PlayerExtractor.UnsupportedExtractsNothing` | src/main/java/io/github/_6mal7/advancementLib/PlayerExtractor.java:66-68 | the warning is logged exactly when no supported class matches, and then the extractor returns no player for any event |
| `Events.SuperclassesAreChain` | src/main/java/io/github/_6mal7/advancementLib/PlayerExtractor.java:53-62 | two superclasses of one event class are always related by `isAssignableFrom` (single inheritance) |
| `Events.AssignableTransitive` | src/main/java/io/github/_6mal7/advancementLib/AdvancementAPI.java:120 | `isInstance` holds for supertypes: an instance of a subclass of `c` is an instance of `c` |
| `StorageKeys.ReplaceFirstAbsent` | src/main/java/io/github/_6mal7/advancementLib/AdvancementAPI.java:125 | `replaceFirst` keeps the length and leaves a string without the character unchanged |
| `StorageKeys.ReplaceFirstAt` | src/main/java/io/github/_6mal7/advancementLib/AdvancementAPI.java:125 | `replaceFirst` changes exactly the position of the first occurrence |
| `StorageKeys.ReplaceFirstInjective` | src/main/java/io/github/_6mal7/advancementLib/AdvancementAPI.java:125 | on strings without the replacement character, `replaceFirst` is injective |
| `StorageKeys.StorageKeyInjective` | src/main/java/io/github/_6mal7/advancementLib/AdvancementAPI.java:124-125 | advancement keys without '.' get distinct storage keys |
| `StorageKeys.StorageKeysCanCollide` | src/main/java/io/github/_6mal7/advancementLib/AdvancementAPI.java:180-181 | `demo:trade` and `demo.trade` share the storage key `advancement_api:demo.trade` |
| `StorageKeys.OnlyFirstColonReplaced` | src/main/java/io/github/_6mal7/advancementLib/AdvancementAPI.java:125 | `replaceFirst(":", ".")` rewrites only the first `:` (`a:b:c` becomes `a.b:c`) |
| `Progress.StepTable` | src/main/java/io/github/_6mal7/advancementLib/AdvancementAPI.java:126-147 | without overflow, with sum = stored + inc: inc <= 0 or sum == 0 change nothing; sum < target stores sum without a grant; sum >= target grants once and stores -1 (all at once) or sum - target (step by step) |
| `Progress.AllAtOnceInRange` | src/main/java/io/github/_6mal7/advancementLib/AdvancementAPI.java:135-140 | all at once keeps a counter in [-1, target) |
| `Progress.SentinelAbsorbsUnitIncrement` | src/main/java/io/github/_6mal7/advancementLib/AdvancementAPI.java:133-139 | a completed counter (-1) plus increment 1 is a zero sum: nothing is written or granted |
| `Progress.StepByStepNonNegative` | src/main/java/io/github/_6mal7/advancementLib/AdvancementAPI.java:141-146 | step by step never makes a non-negative counter negative |
| `Progress.StepByStepFiresOncePerEvent` | src/main/java/io/github/_6mal7/advancementLib/AdvancementAPI.java:142-145 | target 3: increment 7 from 0 grants once and stores 4; a following increment 1 grants once and stores 2 |
| `Progress.OverflowWrapsCounter` | src/main/java/io/github/_6mal7/advancementLib/AdvancementAPI.java:128-140 | all at once, target 10, stored 5, increment 2147483647: the sum wraps, nothing is granted and -2147483644 is stored |
| `Progress.AllAtOnceRunInRange` | src/main/java/io/github/_6mal7/advancementLib/AdvancementAPI.java:128-151 | over any run of events without overflow, an all-at-once counter stays in [-1, target) |
| `Progress.CompletedStaysCompleted` | src/main/java/io/github/_6mal7/advancementLib/AdvancementAPI.java:126-139 | a completed all-at-once counter meeting increments of at most 1 stays at -1 and grants nothing, forever |
| `Progress.AllAtOnceFiresOnReaching` | src/main/java/io/github/_6mal7/advancementLib/AdvancementAPI.java:135-140 | a counter in progress that is offered at least the missing progress grants at least once (without overflow) |
| `Progress.StepByStepConserves` | src/main/java/io/github/_6mal7/advancementLib/AdvancementAPI.java:141-151 | step by step without overflow: grants x target + final counter = initial counter + the positive increments, and the counter stays non-negative |
| `Progress.StepByStepThreeUnits` | src/main/java/io/github/_6mal7/advancementLib/AdvancementAPI.java:141-146 | target 3 and three unit events: one grant, counter back to 0 |
| `Advancements.Remaining` | src/main/java/io/github/_6mal7/advancementLib/AdvancementAPI.java:222 | the remaining criteria are exactly the criteria not yet awarded |
| `Advancements.AwardingRemainingLeavesNone` | src/main/java/io/github/_6mal7/advancementLib/AdvancementAPI.java:222-224 | awarding every remaining criterion leaves none |
| `Advancements.NoneRemainWhenAllDone` | src/main/java/io/github/_6mal7/advancementLib/AdvancementAPI.java:222-224 | nothing remains once every criterion is awarded |
| `Advancements.AwardingFirstRemovesFirst` | src/main/java/io/github/_6mal7/advancementLib/AdvancementAPI.java:241 | awarding the first remaining criterion removes exactly it: the remaining list loses its head |
| `Advancements.SameRemainingWithoutAbsent` | src/main/java/io/github/_6mal7/advancementLib/AdvancementAPI.java:241 | awarding a criterion the advancement does not list changes nothing that remains |
| `AdvancementLib.AwardEachAdds` | src/main/java/io/github/_6mal7/advancementLib/AdvancementAPI.java:222-224 | the award loop adds exactly the listed criteria to one player's one advancement and changes no other progress |
| `AdvancementLib.GrantAllCompletes` | src/main/java/io/github/_6mal7/advancementLib/AdvancementAPI.java:217-225 | `grantAdvancement` leaves no remaining criteria and changes no other progress; an unknown advancement changes nothing |
| `AdvancementLib.GrantOneAwardsFirst` | src/main/java/io/github/_6mal7/advancementLib/AdvancementAPI.java:236-242 | `grantCriterion` awards exactly the first remaining criterion; with none remaining, or an unknown advancement, nothing changes |
| `AdvancementLib.UncountedEventsChangeNothing` | src/main/java/io/github/_6mal7/advancementLib/AdvancementAPI.java:120-127 | an event not of the trigger's type, one without a player, a false condition and a non-positive increment change no counter and grant nothing; no increment function means 1 |
| `AdvancementLib.UnsupportedTypeNeverCounts` | src/main/java/io/github/_6mal7/advancementLib/PlayerExtractor.java:66-68 | with the default extractor of an unsupported event type, no event ever changes anything |
| `AdvancementLib.HandleTouchesOneCounter` | src/main/java/io/github/_6mal7/advancementLib/AdvancementAPI.java:124-151 | the callback changes only the extracted player's counter under the trigger's storage key |
| `AdvancementLib.CompletedCounterIsFinal` | src/main/java/io/github/_6mal7/advancementLib/AdvancementAPI.java:126-139 | all at once with the default increment: a counter at -1 is never written again and nothing is granted |
| `AdvancementLib.AllAtOnceHandleInRange` | src/main/java/io/github/_6mal7/advancementLib/AdvancementAPI.java:128-151 | all at once keeps the player's counter in [-1, target); a non-zero sum that reaches the target stores exactly -1 with one `grantAdvancement` call, a smaller one is stored as it is with no call (without overflow) |
| `AdvancementLib.StepByStepHandle` | src/main/java/io/github/_6mal7/advancementLib/AdvancementAPI.java:141-151 | step by step with a non-zero sum stores sum - target with one `grantCriterion` call when the sum reaches the target, else the sum with no call; the stored counter may be -1 from an all-at-once trigger sharing the key (without overflow) |
| `AdvancementLib.UnknownAdvancementStillWrites` | src/main/java/io/github/_6mal7/advancementLib/AdvancementAPI.java:138-151 | for an advancement the host does not know, a grant only logs a warning and awards nothing, and the counter is written all the same |
| `AdvancementLib.DeliverAppend` | src/main/java/io/github/_6mal7/advancementLib/AdvancementAPI.java:114-153 | delivering an event to two lists of callbacks is delivering it to the first list, then to the second |
| `AdvancementLib.DuplicateRegistrationCountsTwice` | src/main/java/io/github/_6mal7/advancementLib/AdvancementAPI.java:114-153 | two registrations of one key both update the same counter: at target 2, one event completes the advancement that a single registration leaves at 1 |
| `AdvancementLib.VillagerKillScenario` | src/main/java/io/github/_6mal7/advancementLib/AdvancementAPI.java:119-151 | at target 1, all at once: a qualifying death grants everything once and leaves the counter at -1; a non-qualifying one changes nothing |
| `AdvancementLib.AdvancementApi.constructor` | src/main/java/io/github/_6mal7/advancementLib/AdvancementAPI.java:56-58 | a new API object has no registered triggers and empty logs over the host's state |
| `AdvancementLib.AdvancementApi.GetProgress` | src/main/java/io/github/_6mal7/advancementLib/AdvancementAPI.java:179-185 | the raw stored counter under the storage key of the advancement key, 0 when absent |
| `AdvancementLib.AdvancementApi.GetAdvancement` | src/main/java/io/github/_6mal7/advancementLib/AdvancementAPI.java:195-206 | the host's advancement for the key, or null and a logged warning |
| `AdvancementLib.AdvancementApi.RegisterAdvancement` | src/main/java/io/github/_6mal7/advancementLib/AdvancementAPI.java:97-119 | fails with invalid arguments when the key, condition, extractor or grant mode is null or the target is below 1; otherwise fails (with a warning) when the advancement is unknown; registers nothing on failure and appends exactly one trigger on success |
| `AdvancementLib.AdvancementApi.GrantAdvancement` | src/main/java/io/github/_6mal7/advancementLib/AdvancementAPI.java:217-225 | the loop awards each remaining criterion; the new state is the all-criteria grant of the old one |
| `AdvancementLib.AdvancementApi.GrantCriterion` | src/main/java/io/github/_6mal7/advancementLib/AdvancementAPI.java:236-242 | the new state is the first-criterion grant of the old one; for a known advancement with criteria remaining, the remaining list loses exactly its head |
| `AdvancementLib.AdvancementApi.HandleEvent` | src/main/java/io/github/_6mal7/advancementLib/AdvancementAPI.java:119-152 | the callback's new state is `Handle` of the old; after a write `getProgress` reads the written value; when ignored, no counter or award changes |
| `AdvancementLib.AdvancementApi.Dispatch` | src/main/java/io/github/_6mal7/advancementLib/AdvancementAPI.java:114-153 | an event reaches every registered callback in registration order; the new state is `Deliver` over the whole registry |
| `RegisterBuilder.AdvancementRegisterBuilder.constructor` | src/main/java/io/github/_6mal7/advancementLib/AdvancementRegisterBuilder.java:50-69 | a fresh builder has target 1, grant mode all at once, and no key, event type, condition, extractor or increment |
| `RegisterBuilder.AdvancementRegisterBuilder.WithKey` | src/main/java/io/github/_6mal7/advancementLib/AdvancementRegisterBuilder.java:79-82 | a fresh builder with the key set |
| `RegisterBuilder.AdvancementRegisterBuilder.WithKeyAndType` | src/main/java/io/github/_6mal7/advancementLib/AdvancementRegisterBuilder.java:93-97 | a fresh builder with the key and event type set |
| `RegisterBuilder.AdvancementRegisterBuilder.Register` | src/main/java/io/github/_6mal7/advancementLib/AdvancementAPI.java:71-73 | `register(eventType)` gives a fresh builder with only the event type set; a null type fails with the setter's null-argument error |
| `RegisterBuilder.AdvancementRegisterBuilder.SetAdvancementKey` | src/main/java/io/github/_6mal7/advancementLib/AdvancementRegisterBuilder.java:107-110 | null throws and leaves the key; otherwise sets it and returns the same builder |
| `RegisterBuilder.AdvancementRegisterBuilder.SetEventType` | src/main/java/io/github/_6mal7/advancementLib/AdvancementRegisterBuilder.java:121-124 | null throws and leaves the event type; otherwise sets it and returns the same builder |
| `RegisterBuilder.AdvancementRegisterBuilder.SetGrantMode` | src/main/java/io/github/_6mal7/advancementLib/AdvancementRegisterBuilder.java:183-186 | null throws and leaves the grant mode; otherwise sets it and returns the same builder |
| `RegisterBuilder.AdvancementRegisterBuilder.SetCondition` | src/main/java/io/github/_6mal7/advancementLib/AdvancementRegisterBuilder.java:136-139 | sets the condition, null included, and returns the same builder |
| `RegisterBuilder.AdvancementRegisterBuilder.SetTargetValue` | src/main/java/io/github/_6mal7/advancementLib/AdvancementRegisterBuilder.java:150-153 | sets the target, unchecked, and returns the same builder |
| `RegisterBuilder.AdvancementRegisterBuilder.SetPlayerExtractor` | src/main/java/io/github/_6mal7/advancementLib/AdvancementRegisterBuilder.java:167-170 | sets the extractor, null included, and returns the same builder |
| `RegisterBuilder.AdvancementRegisterBuilder.SetIncrement` | src/main/java/io/github/_6mal7/advancementLib/AdvancementRegisterBuilder.java:198-201 | sets the increment function, null included, and returns the same builder |
| `RegisterBuilder.AdvancementRegisterBuilder.Build` | src/main/java/io/github/_6mal7/advancementLib/AdvancementRegisterBuilder.java:213-235 | a missing key, then a missing event type, then a target below 1 each throw and change nothing. Otherwise a null condition becomes always-true and a null extractor becomes the default for the event type, in the builder's own fields. Set values pass through unchanged and the increment is forwarded as it is. The result and the registry are those of `registerAdvancement` |

## Left out

- Bukkit listener plumbing (`registerEvent`, `EventPriority`, the empty `Listener`, handler lists) is not modelled. The registry is a sequence and `Dispatch` runs every registered callback in registration order. Each callback checks `isInstance` itself.
- Isolation of a callback that throws is not modelled, because conditions, extractors and increments are total functions here. The one throwing path kept is a failed cast in a built-in extractor. It ends the callback before any write and is modelled as "no player".
- `NamespacedKey.fromString` parsing and `Bukkit.getAdvancement` are foreign calls. They are one fixed map from key strings to advancements. The map does not change during the model, so a host reload of advancements is not captured. `HandleEvent` accepts any trigger, so the grant path for an unknown advancement is still covered.
- The host's advancements are taken to list each criterion once (`AdvancementApi.Valid`, set up by the constructor). `GrantCriterion`, `HandleEvent` and `Dispatch` rely on it for the head-removal property of `grantCriterion`.
- The character checks of the `NamespacedKey` constructor are host library code and are not modelled. Such a check can throw inside the callback or in `getProgress` for a key with a second ':'.
- The persistent data container is modelled only through its `INTEGER` entries. `getOrDefault` throwing on an entry of another type is not modelled.
- Logging is modelled as ghost warning lists, without the message text.
- Concurrent event delivery is not modelled. The read and write of a counter are not atomic in the source; the model runs callbacks one at a time.
- Reset of progress, parent gating, multiple grants per event, and extractors for entity deaths or joins are not modelled, because the code has none of them.
- The `plugin` argument of the API constructor and the `api` argument of the builder constructors are left out, together with their null checks. `WithKey` and `WithKeyAndType` take non-null arguments here. In the source these throw on null through the setters.
- `registerAdvancement` does not check `eventType` for null, and Bukkit would reject it. The parameter is non-null in the model.
- The builder's type parameter `E` is not modelled: there is one event type, and conditions, extractors and increments take any event.
- Awarding a criterion can raise further host events in the server. This is not modelled.
- Progress.AllAtOnceInRange: holds only when `stored + inc` does not overflow a Java `int`, because the source's addition wraps (see `Progress.OverflowWrapsCounter`).
- Progress.StepByStepNonNegative: holds only without overflow, for the same reason.
- Progress.StepTable: states the exact-arithmetic decision table only without overflow.
- Progress.AllAtOnceRunInRange: holds only for runs without overflow.
- Progress.AllAtOnceFiresOnReaching: holds only for runs without overflow.
- Progress.StepByStepConserves: holds only for runs without overflow.
- AdvancementLib.AllAtOnceHandleInRange: holds only without overflow.
- AdvancementLib.StepByStepHandle: holds only without overflow.
