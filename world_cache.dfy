/**
 * The plugin's world lookup: a map from world name to the Dynmap-side
 * SpongeWorld wrapper, fronted by a one-entry cache of the last world asked
 * for. Entries are created on a miss and re-marked loaded when found unloaded.
 */
module WorldCache {
  import opened Wrappers

  /** A server world. `uid` stands for the object's identity, so two values
      are equal exactly when they are the same world object. */
  datatype World = World(name: string, uid: nat)

  /** The Dynmap-side wrapper of a world. Only its name and its loaded flag
      are modelled. */
  class SpongeWorld {
    const name: string
    var isLoaded: bool

    /** Wrapping a world the server has handed out: the wrapper starts loaded. */
    constructor (w: World)
      ensures name == w.name && isLoaded
    {
      name := w.name;
      isLoaded := true;
    }

    method SetWorldLoaded()
      modifies this
      ensures isLoaded
    {
      isLoaded := true;
    }
  }

  /** The lookup state of the plugin object. */
  class WorldRegistry {
    var worldMap: map<string, SpongeWorld>
    var lastWorld: Option<World>
    var lastSpongeWorld: SpongeWorld?

    /** Every entry is filed under its own name (so distinct names hold
        distinct wrappers), and the cache, when set, agrees with the map. */
    ghost predicate Valid()
      reads this
    {
      (forall n :: n in worldMap ==> worldMap[n].name == n) &&
      (lastWorld.Some? <==> lastSpongeWorld != null) &&
      (lastWorld.Some? ==>
         lastWorld.value.name in worldMap && worldMap[lastWorld.value.name] == lastSpongeWorld)
    }

    /** The map entry for `name`, or null. */
    function Lookup(name: string): SpongeWorld?
      reads this
    {
      if name in worldMap then worldMap[name] else null
    }

    constructor ()
      ensures Valid()
      ensures worldMap == map[] && lastWorld == None && lastSpongeWorld == null
    {
      worldMap := map[];
      lastWorld := None;
      lastSpongeWorld := null;
    }

    /** getWorldByName: answers from the cache when the cached world has this
        name, else from the map. The cache is transparent: in a valid state
        the answer is always the map's entry. */
    function GetWorldByName(name: string): (r: SpongeWorld?)
      reads this
      ensures r != null && r != Lookup(name) ==>
        lastWorld.Some? && lastWorld.value.name == name && r == lastSpongeWorld
      ensures Valid() ==> r == Lookup(name)
    {
      if lastWorld.Some? && lastSpongeWorld != null && lastWorld.value.name == name then
        lastSpongeWorld
      else
        Lookup(name)
    }

    /** getWorld: a hit on the identity cache returns the cached wrapper and
        changes nothing; otherwise the wrapper under the world's name is
        reused (and marked loaded if it was not) or created and inserted,
        and the cache is pointed at it. */
    method GetWorld(w: World) returns (s: SpongeWorld)
      requires Valid()
      modifies this, if w.name in worldMap then {worldMap[w.name]} else {}
      ensures Valid()
      ensures s == Lookup(w.name) && lastWorld == Some(w) && lastSpongeWorld == s
      ensures old(lastWorld) == Some(w) ==>
        s == old(lastSpongeWorld) && unchanged(this) && unchanged(s)
      ensures old(lastWorld) != Some(w) && w.name in old(worldMap) ==>
        s == old(worldMap[w.name]) && worldMap == old(worldMap) && s.isLoaded
      ensures old(lastWorld) != Some(w) && w.name !in old(worldMap) ==>
        fresh(s) && worldMap == old(worldMap)[w.name := s] && s.isLoaded
    {
      if lastWorld == Some(w) && lastSpongeWorld != null {
        return lastSpongeWorld;
      }

      if w.name !in worldMap {
        s := new SpongeWorld(w);
        worldMap := worldMap[w.name := s];
      } else {
        s := worldMap[w.name];
        if !s.isLoaded {
          s.SetWorldLoaded();
        }
      }

      lastWorld := Some(w);
      lastSpongeWorld := s;
    }
  }
}
