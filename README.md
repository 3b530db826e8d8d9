# Execution-state core of S2E: memory-object cache, plugin-state registry, object-state routing

This project models the three pieces of `qemu/s2e/S2EExecutionState.h` whose
logic is written out in the header of S2E's execution state (the per-path state
of a platform that mixes concrete CPU emulation with KLEE-based symbolic
execution), and proves their contracts in Dafny.

- **`S2EMemObjectCache<Size>`** (`object_cache.dfy`, module `ObjectCache`): a
  direct-mapped cache from a 64-bit host address to a KLEE `ObjectPair`
  (memory object, snapshot). An address lives in slot `address % Size`. There
  is no chaining. `update` overwrites its slot and evicts whatever was there.
  `lookup` hits only on an exact address match and otherwise returns the null
  pair. `invalidate` empties a slot only when it holds exactly the given
  address. The cache is described twice:
  - as a value: `LookupIn`, `UpdateIn`, `InvalidateIn` over the sequence of
    entries, with a finite-map view `View` (address to pair, at most one
    address per slot) and the lemmas relating them;
  - as the class `MemObjectCache`, whose `entries` array is filled by the
    constructor's loop and overwritten in place by `Update` and `Invalidate`.
    Each method is proved against the value-level functions and against the
    map view `Contents()`.
  `Size` is the array length, given to the constructor (any positive value);
  the execution state uses 101, as the header does.
- **`getPluginState`** (`execution_state.dfy`, class `S2EExecutionState`): a
  memoising lookup in the identity-keyed map `pluginState`. On a miss the
  factory is called once; its result is stored and returned. On a hit the
  stored instance is returned and nothing changes. Plugins and plugin states
  are classes, so equality is pointer identity. The factory is a class whose
  ghost field `calls` counts its invocations. The header's `assert(ret)`
  becomes the factory's return type, which is non-null.
- **`fetchObjectState` / `fetchObjectStateWritable`**: the routing rule. The
  CPU-registers and CPU-system-state objects go to the address space
  (`findObject`, or copy-on-write `getWriteable`). Every other object goes to
  the cache-backed `fetchObjectStateMem*` at its base address. Those callees
  have no body in the header, so they are function parameters. Each receives
  the contents of the state's own cache (`memCache`) and returns new ones.
  The lemmas show that a special object's fetch does not depend on the
  cache-backed callee and leaves the cache as it was. Any other object's
  fetch takes both its result and the new cache contents from the
  cache-backed callee, and does not depend on the direct address-space path.

Modelling choices:
- `uint64_t` addresses are integers in `[0, 2^64)`. The empty-slot sentinel
  `(uintptr_t)-1` is `2^64 - 1`, its value on a 64-bit host. On a 32-bit host
  it would be `2^32 - 1`; nothing proved here depends on which.
- A memory object is an identity plus a base address. A snapshot records the
  object it belongs to, which is what `getObject()` returns. `ObjectPair` is a
  pair of optional values, and `None` plays NULL.
- `lookup` asserts that a hit pair is consistent (line 68). The model makes
  that assert its precondition (`LookupAllowed`). On a well-formed table this
  excludes only one case: a lookup of the sentinel address itself when its
  slot is empty. The code would then dereference the null snapshot at line 68
  (`LookupAllowedUnlessSentinel`, `FreshCacheIsEmpty`). That happens only in a
  build with assertions enabled. With `NDEBUG` the call simply returns the
  stored null pair, which is the value `LookupIn` gives.
- Invalidation can create this case: `invalidate(a)` on the address occupying
  the sentinel's slot empties the slot. A lookup of the sentinel address then
  stops being a plain miss and reaches the assert instead
  (`InvalidateExposesSentinel`). So "the lookup of every other address is
  unchanged" is about the value returned. Whether the assert holds for the
  sentinel can change.
- `update` asserts a consistent, non-null pair (lines 79-80). This is the
  precondition `Consistent(p)`. As written, line 79 dereferences the snapshot
  before line 80 checks it for NULL. Both asserts must hold for the call to
  be valid, so the precondition is the same either way.
- `lookup` returns a null `ObjectPair` on a miss, and the model returns
  `NullPair`.
- The engine's address space, as `findObject` sees it, is a finite map from
  memory object to its current snapshot (`AddressSpace`). `FindObject`
  returns the snapshot or NULL. It stands in for foreign code and is not a
  property of this header.

## Model

| member | source | states |
|---|---|---|
| ObjectCache.Hash | qemu/s2e/S2EExecutionState.h:48-50 | The slot index is always below the table size, and an address smaller than the size is its own slot. |
| ObjectCache.FreshCacheIsEmpty | qemu/s2e/S2EExecutionState.h:36-61 | A freshly constructed table is well formed and its map view is empty. Every lookup misses. The lookup assert can fail on it only for the sentinel address. |
| ObjectCache.MemObjectCache.constructor | qemu/s2e/S2EExecutionState.h:53-61 | The constructor loop leaves every slot as the empty entry (sentinel address, null pair). The cache satisfies its invariant and holds no address. |
| ObjectCache.LookupAllowedUnlessSentinel | qemu/s2e/S2EExecutionState.h:63-70 | On a well-formed table, the consistency assert in `lookup` holds for every address except the sentinel. |
| ObjectCache.LookupMatchesView | qemu/s2e/S2EExecutionState.h:63-72 | `lookup` hits exactly on the addresses the non-empty entries hold. A hit returns the pair stored with that address, and that pair is consistent. |
| ObjectCache.InvalidateExposesSentinel | qemu/s2e/S2EExecutionState.h:63-89 | Invalidating the occupant of the sentinel's slot turns `lookup(Sentinel)` from a miss that passes the line-68 assert into one that fails it. The value returned stays the null pair. |
| ObjectCache.MemObjectCache.Lookup | qemu/s2e/S2EExecutionState.h:63-72 | On the live cache, a cached address returns its consistent pair and any other address returns the null pair. It reads the cache and changes nothing. |
| ObjectCache.UpdateIn | qemu/s2e/S2EExecutionState.h:74-81 | After `update(a, p)`, `lookup(a)` returns `p`. Any other address in the same slot misses. Lookups of other slots, and the entries themselves, are unchanged. |
| ObjectCache.InvalidateIn | qemu/s2e/S2EExecutionState.h:83-89 | After `invalidate(a)`, `lookup(a)` misses and the lookup of every other address is unchanged. Only slot `a % Size` can change. |
| ObjectCache.UpdateView | qemu/s2e/S2EExecutionState.h:74-81 | `update` keeps the table well formed. In the map view it removes every address that shares the slot and then maps `a` to `p`. |
| ObjectCache.InvalidateView | qemu/s2e/S2EExecutionState.h:83-89 | `invalidate` keeps the table well formed and removes exactly `a` from the map view. |
| ObjectCache.ViewIsDirectMapped | qemu/s2e/S2EExecutionState.h:44-50 | Two cached addresses in the same slot are the same address: there is no chaining. |
| ObjectCache.CollisionEvicts | qemu/s2e/S2EExecutionState.h:74-78 | If `a != b` share a slot, `update(a,p); update(b,q)` makes `lookup(a)` miss and `lookup(b)` return `q`. |
| ObjectCache.InvalidateIsAddressExact | qemu/s2e/S2EExecutionState.h:83-89 | If `a != b` share a slot, `invalidate(b)` after `update(a,p)` changes nothing, and `lookup(a)` still returns `p`. |
| ObjectCache.UndisturbedLookupSurvives | qemu/s2e/S2EExecutionState.h:63-89 | A sequence of updates and invalidations leaves `lookup(a)` unchanged if none of them updates `a`'s slot or invalidates `a`. |
| ObjectCache.UpdateThenLookup | qemu/s2e/S2EExecutionState.h:63-78 | Round trip: `update(a,p)`, then any calls that do not disturb `a`, then `lookup(a)` returns `p`. |
| ObjectCache.RunPreservesWellFormed | qemu/s2e/S2EExecutionState.h:74-89 | Any sequence of updates with consistent pairs and of invalidations keeps every entry empty or consistent, in its own slot. |
| ObjectCache.MemObjectCache.Update | qemu/s2e/S2EExecutionState.h:74-81 | Requires a consistent pair. In place, only slot `a % Size` is overwritten. The invariant holds afterwards. The map view loses the slot's old occupant and gains `a -> p`. |
| ObjectCache.MemObjectCache.Invalidate | qemu/s2e/S2EExecutionState.h:83-89 | In place, the slot is reset to empty only when it holds `a`. The invariant holds afterwards, and the map view loses exactly `a`. |
| ExecutionState.S2EExecutionState.constructor | qemu/s2e/S2EExecutionState.h:103-125 | A new state starts with an empty plugin map and an empty, valid cache of 101 entries, and keeps its two special objects. |
| ExecutionState.S2EExecutionState.FetchObjectState | qemu/s2e/S2EExecutionState.h:167-173 | Fetching a register or system-state object leaves the state's own cache contents unchanged. |
| ExecutionState.S2EExecutionState.FetchObjectStateWritable | qemu/s2e/S2EExecutionState.h:175-181 | The writable fetch of a register or system-state object leaves the state's own cache contents unchanged. |
| ExecutionState.SpecialObjectsBypassCache | qemu/s2e/S2EExecutionState.h:167-173 | For the two special objects, the result is the address space's snapshot and the state's cache is unchanged, whatever the cache-backed fetch would do. |
| ExecutionState.OrdinaryObjectsUseCache | qemu/s2e/S2EExecutionState.h:167-173 | For every other object, the cache-backed fetch at the object's base address supplies both the snapshot and the resulting cache contents, whatever the address space holds. |
| ExecutionState.SpecialObjectsBypassCacheWritable | qemu/s2e/S2EExecutionState.h:175-181 | For the two special objects, the writable fetch is copy-on-write `getWriteable` and the cache is unchanged, whatever the cache-backed fetch would do. |
| ExecutionState.OrdinaryObjectsUseCacheWritable | qemu/s2e/S2EExecutionState.h:175-181 | For every other object, the writable fetch is the cache-backed one, whatever copy-on-write would return. |
| ExecutionState.PluginStateFactory.Create | qemu/s2e/S2EExecutionState.h:26 | The factory returns a new, non-null plugin state and its call count goes up by one. |
| ExecutionState.S2EExecutionState.GetPluginState | qemu/s2e/S2EExecutionState.h:187-196 | On a miss, the factory is called exactly once and its new instance is stored and returned. On a hit, the stored instance is returned, and the map and the call count are unchanged. Either way the map holds the returned instance for the plugin. |
| ExecutionState.S2EExecutionState.GetPluginStateTwice | qemu/s2e/S2EExecutionState.h:187-196 | Two requests for the same plugin return the identical instance. The factory runs once if the plugin was new and not at all otherwise. Other plugins' entries are unchanged. |

## Left out

- The members that the header only declares: register and CPU-state access, memory reads and writes, string readers, address translation, `bypassFunction`, `undoCallAndJumpToSymbolic`, `clone`, `refreshTlb`, `getTotalInstructionCount`, `invalidateObjectStateMem`. Their bodies are not part of this model. `fetchObjectStateMem` and `fetchObjectStateMemWritable` appear only as stub parameters of the routing functions.
- KLEE's address space, copy-on-write in `getWriteable`, expressions and the `klee::ExecutionState` base class are foreign code. `getWriteable` is a stub parameter, and the change it makes to the address space is not modelled.
- QEMU's timer state, translation blocks, CPU structure offsets and device state: emulator plumbing with no visible logic here.
- The cache counters `m_hits`, `m_misses`, `m_cval`, `m_chash`: the shown code only sets them to zero.
- The static state-ID counter, `dumpX86State`, `dumpStack` and the `SREAD`/`SREADR` macros: no visible logic, or diagnostics only.
- ExecutionState.S2EExecutionState.constructor: the state's constructor body is not in the header. This one sets only what the header's member declarations imply: default-constructed plugin map and cache. It takes the two special objects as parameters.
- ExecutionState.PluginStateFactory.Create: a real factory is plugin code. The model returns a fresh instance, and it ignores any effect the factory could have on the state it receives.
