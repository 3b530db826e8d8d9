/**
 The parts of an execution state whose logic is visible in its header: the
 per-state plugin-state registry (lazily created, identity-keyed), the
 memory-object cache it owns, and the rule that routes an object-state fetch
 either straight to the engine's address space or through the cache.

 The cache-backed fetches and the engine's copy-on-write `getWriteable` have
 no visible body; they enter as function parameters (stubs) that receive and
 return the cache contents, so that what the routing does with the cache is
 explicit.
 */
module ExecutionState {
  import opened Wrappers
  import opened ObjectCache

  /** An analysis plugin, known only by its identity. */
  class Plugin {
  }

  /** The opaque per-state data of one plugin. */
  class PluginState {
  }

  /** A plugin-supplied factory; `calls` counts its invocations. */
  class PluginStateFactory {
    ghost var calls: nat

    /** Builds a new, non-null instance for `plugin` in `state`. */
    method Create(plugin: Plugin, state: S2EExecutionState) returns (r: PluginState)
      modifies this
      ensures fresh(r)
      ensures calls == old(calls) + 1
    {
      r := new PluginState;
      calls := calls + 1;
    }
  }

  /** The engine's address space as seen by `findObject`: object to current snapshot. */
  type AddressSpace = map<MemoryObject, ObjectState>

  /** `addressSpace.findObject(mo)`: the current snapshot, or NULL. */
  function FindObject(space: AddressSpace, mo: MemoryObject): (r: Option<ObjectState>)
    ensures r.Some? <==> mo in space
    ensures r.Some? ==> r.value == space[mo]
  {
    if mo in space then Some(space[mo]) else None
  }

  /** Stub for `fetchObjectStateMem(hostAddress, tpm)`: cache contents in, pair and cache contents out. */
  type MemFetch = (seq<CacheEntry>, Address, Address) -> (ObjectPair, seq<CacheEntry>)

  /** Stub for `fetchObjectStateMemWritable(mo, os)`. */
  type MemFetchWritable = (seq<CacheEntry>, MemoryObject, ObjectState) -> (ObjectState, seq<CacheEntry>)

  /** Stub for the engine's copy-on-write `addressSpace.getWriteable(mo, os)`. */
  type GetWriteable = (MemoryObject, ObjectState) -> ObjectState

  class S2EExecutionState {
    /** The CPU-registers and CPU-system-state memory objects, fixed for the state's lifetime. */
    const cpuRegistersState: MemoryObject
    const cpuSystemState: MemoryObject

    var pluginState: map<Plugin, PluginState>
    var memCache: MemObjectCache

    ghost predicate Valid()
      reads this, memCache, memCache.entries
    {
      memCache.Valid() && memCache.entries.Length == DefaultSize
    }

    /** The header's members start out default-constructed: an empty plugin map and
        an empty cache of 101 entries. */
    constructor (registers: MemoryObject, system: MemoryObject)
      ensures Valid() && fresh(memCache) && fresh(memCache.entries)
      ensures cpuRegistersState == registers && cpuSystemState == system
      ensures pluginState == map[]
      ensures memCache.Contents() == map[]
    {
      cpuRegistersState := registers;
      cpuSystemState := system;
      pluginState := map[];
      memCache := new MemObjectCache(DefaultSize);
    }

    /** The two objects that are never resolved through the cache. */
    predicate IsSpecial(mo: MemoryObject) {
      mo == cpuRegistersState || mo == cpuSystemState
    }

    /** `fetchObjectState`: the snapshot of `mo`, and this state's cache contents afterwards. */
    function FetchObjectState(space: AddressSpace, fetchMem: MemFetch,
                              mo: MemoryObject, tpm: Address): (r: (Option<ObjectState>, seq<CacheEntry>))
      reads this, memCache, memCache.entries
      requires Valid()
      ensures IsSpecial(mo) ==> r.1 == memCache.entries[..]
    {
      var cache := memCache.entries[..];
      if IsSpecial(mo) then
        (FindObject(space, mo), cache)
      else
        var (pair, cache') := fetchMem(cache, mo.address, tpm);
        (pair.second, cache')
    }

    /** `fetchObjectStateWritable`: a writable snapshot of `mo`, and this state's cache contents afterwards. */
    function FetchObjectStateWritable(getWriteable: GetWriteable, fetchMemWritable: MemFetchWritable,
                                      mo: MemoryObject, os: ObjectState): (r: (ObjectState, seq<CacheEntry>))
      reads this, memCache, memCache.entries
      requires Valid()
      ensures IsSpecial(mo) ==> r.1 == memCache.entries[..]
    {
      var cache := memCache.entries[..];
      if IsSpecial(mo) then
        (getWriteable(mo, os), cache)
      else
        fetchMemWritable(cache, mo, os)
    }

    /** The plugin's state in this execution state, created by `factory` on first request. */
    method GetPluginState(plugin: Plugin, factory: PluginStateFactory) returns (r: PluginState)
      modifies this`pluginState, factory
      ensures plugin in old(pluginState) ==>
                r == old(pluginState)[plugin] && pluginState == old(pluginState) &&
                factory.calls == old(factory.calls)
      ensures plugin !in old(pluginState) ==>
                fresh(r) && pluginState == old(pluginState)[plugin := r] &&
                factory.calls == old(factory.calls) + 1
      ensures plugin in pluginState && pluginState[plugin] == r
    {
      if plugin !in pluginState {
        var created := factory.Create(plugin, this);
        pluginState := pluginState[plugin := created];
        return created;
      }
      r := pluginState[plugin];
    }

    /** Memoisation: two requests for the same plugin return the identical instance and
        invoke the factory at most once between them, exactly once if the plugin was new. */
    method GetPluginStateTwice(plugin: Plugin, factory: PluginStateFactory) returns (first: PluginState, second: PluginState)
      modifies this`pluginState, factory
      ensures first == second
      ensures factory.calls == old(factory.calls) + (if plugin in old(pluginState) then 0 else 1)
      ensures pluginState.Keys == old(pluginState).Keys + {plugin}
      ensures forall q :: q in old(pluginState) ==> pluginState[q] == old(pluginState)[q]
    {
      first := GetPluginState(plugin, factory);
      second := GetPluginState(plugin, factory);
    }
  }

  /** The register and system-state objects never consult the cache path: the result
      is the address space's snapshot, whatever the cache-backed fetch would do, and
      the state's cache is left as it was. */
  lemma SpecialObjectsBypassCache(st: S2EExecutionState, space: AddressSpace,
                                  fetchA: MemFetch, fetchB: MemFetch, mo: MemoryObject, tpm: Address)
    requires st.Valid()
    requires st.IsSpecial(mo)
    ensures st.FetchObjectState(space, fetchA, mo, tpm) == st.FetchObjectState(space, fetchB, mo, tpm)
    ensures st.FetchObjectState(space, fetchA, mo, tpm) == (FindObject(space, mo), st.memCache.entries[..])
  {
  }

  /** Every other object is fetched through the cache path at its base address, which
      supplies both the snapshot and the cache contents afterwards; the direct
      address-space lookup plays no part. */
  lemma OrdinaryObjectsUseCache(st: S2EExecutionState, spaceA: AddressSpace, spaceB: AddressSpace,
                                fetchMem: MemFetch, mo: MemoryObject, tpm: Address)
    requires st.Valid()
    requires !st.IsSpecial(mo)
    ensures st.FetchObjectState(spaceA, fetchMem, mo, tpm) == st.FetchObjectState(spaceB, fetchMem, mo, tpm)
    ensures st.FetchObjectState(spaceA, fetchMem, mo, tpm).0 == fetchMem(st.memCache.entries[..], mo.address, tpm).0.second
    ensures st.FetchObjectState(spaceA, fetchMem, mo, tpm).1 == fetchMem(st.memCache.entries[..], mo.address, tpm).1
  {
  }

  /** The writable fetch of a special object goes to copy-on-write and leaves the state's cache alone. */
  lemma SpecialObjectsBypassCacheWritable(st: S2EExecutionState, getWriteable: GetWriteable,
                                          fetchA: MemFetchWritable, fetchB: MemFetchWritable,
                                          mo: MemoryObject, os: ObjectState)
    requires st.Valid()
    requires st.IsSpecial(mo)
    ensures st.FetchObjectStateWritable(getWriteable, fetchA, mo, os)
         == st.FetchObjectStateWritable(getWriteable, fetchB, mo, os)
    ensures st.FetchObjectStateWritable(getWriteable, fetchA, mo, os) == (getWriteable(mo, os), st.memCache.entries[..])
  {
  }

  /** The writable fetch of any other object goes through the cache-backed path only. */
  lemma OrdinaryObjectsUseCacheWritable(st: S2EExecutionState, getA: GetWriteable, getB: GetWriteable,
                                        fetchMemWritable: MemFetchWritable, mo: MemoryObject, os: ObjectState)
    requires st.Valid()
    requires !st.IsSpecial(mo)
    ensures st.FetchObjectStateWritable(getA, fetchMemWritable, mo, os)
         == st.FetchObjectStateWritable(getB, fetchMemWritable, mo, os)
    ensures st.FetchObjectStateWritable(getA, fetchMemWritable, mo, os) == fetchMemWritable(st.memCache.entries[..], mo, os)
  {
  }
}
