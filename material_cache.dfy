/** `MaterialCache` (serialization/caching.rs): material handles by name. */
module MaterialCaching {
  import opened Common

  /** A handle to a material: its index in the material store. */
  type Handle = nat

  class MaterialCache {
    var entries: map<string, Handle>

    /** What `get(name)` answers. */
    function Lookup(name: string): (r: Option<Handle>)
      reads this
      ensures r.Some? <==> name in entries
      ensures r.Some? ==> entries[name] == r.value
    {
      if name in entries then Some(entries[name]) else None
    }

    /** `MaterialCache::new`: nothing cached. */
    constructor New()
      ensures entries == map[]
      ensures forall name :: Lookup(name) == None
    {
      entries := map[];
    }

    /** `insert`: `name` now gives `handle`, replacing any earlier one, and
      * every other name gives what it gave before. */
    method Insert(name: string, handle: Handle)
      modifies this
      ensures entries == old(entries)[name := handle]
      ensures Lookup(name) == Some(handle)
      ensures forall other :: other != name ==> Lookup(other) == old(Lookup(other))
    {
      entries := entries[name := handle];
    }

    /** `get`. */
    method Get(name: string) returns (r: Option<Handle>)
      ensures r == Lookup(name)
    {
      if name in entries {
        r := Some(entries[name]);
      } else {
        r := None;
      }
    }
  }
}
