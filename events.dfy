/**
 * Bukkit events as the core sees them: a runtime class in a single-inheritance
 * hierarchy rooted at `org.bukkit.event.Event`, the acting player where the
 * event has one, and other data that conditions and increments may inspect.
 * The reflective `Class.isInstance` / `Class.isAssignableFrom` become the
 * explicit relation `IsAssignable` over this hierarchy.
 */
module Events {
  import opened Wrappers

  /** A player, by identity. */
  datatype Player = Player(id: nat)

  /** An event class: the root `Event`, or a named class and its superclass. */
  datatype EventClass = EventRoot | Subclass(name: string, parent: EventClass)

  /** `sup.isAssignableFrom(c)`: `c` is `sup` or one of its subclasses. */
  predicate IsAssignable(sup: EventClass, c: EventClass)
  {
    c == sup || (c.Subclass? && IsAssignable(sup, c.parent))
  }

  /** A delivered event: its runtime class, its `getPlayer()` where it has one, and further data. */
  datatype Event = Event(cls: EventClass, player: Option<Player>, detail: seq<int>)

  /** `c.isInstance(e)`. */
  predicate IsInstance(c: EventClass, e: Event)
  {
    IsAssignable(c, e.cls)
  }

  // The part of the Bukkit/Paper event hierarchy that the default extractors name.
  const BlockEvent: EventClass := Subclass("org.bukkit.event.block.BlockEvent", EventRoot)
  const BlockExpEvent: EventClass := Subclass("org.bukkit.event.block.BlockExpEvent", BlockEvent)
  const BlockBreakEvent: EventClass := Subclass("org.bukkit.event.block.BlockBreakEvent", BlockExpEvent)
  const BlockPlaceEvent: EventClass := Subclass("org.bukkit.event.block.BlockPlaceEvent", BlockEvent)
  const PlayerEvent: EventClass := Subclass("org.bukkit.event.player.PlayerEvent", EventRoot)
  const PlayerInteractEvent: EventClass := Subclass("org.bukkit.event.player.PlayerInteractEvent", PlayerEvent)
  const PlayerJumpEvent: EventClass := Subclass("com.destroystokyo.paper.event.player.PlayerJumpEvent", PlayerEvent)

  /** Every class is assignable from itself and to the root. */
  lemma {:induction false} AssignableToRoot(c: EventClass)
    ensures IsAssignable(c, c)
    ensures IsAssignable(EventRoot, c)
  {
    if c.Subclass? {
      AssignableToRoot(c.parent);
    }
  }

  /** Assignability is transitive: a subclass of a subclass is a subclass. */
  lemma {:induction false} AssignableTransitive(a: EventClass, b: EventClass, c: EventClass)
    requires IsAssignable(a, b) && IsAssignable(b, c)
    ensures IsAssignable(a, c)
  {
    if c != b {
      AssignableTransitive(a, b, c.parent);
    }
  }

  /** Under single inheritance the superclasses of a class form a chain: any two are related. */
  lemma {:induction false} SuperclassesAreChain(a: EventClass, b: EventClass, c: EventClass)
    requires IsAssignable(a, c) && IsAssignable(b, c)
    ensures IsAssignable(a, b) || IsAssignable(b, a)
  {
    if c == a {
      assert IsAssignable(b, a);
    } else if c == b {
      assert IsAssignable(a, b);
    } else {
      SuperclassesAreChain(a, b, c.parent);
    }
  }
}
