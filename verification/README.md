# A verified model of submilli-wasm's stateful core

submilli-wasm is a WebAssembly 3.0 interpreter. This project models its four stateful machines in
Dafny and proves what they promise:

1. **The canonical type registry** hash-conses recursive type groups, reuses slots, counts
   references and reclaims in a worklist cascade. Identity is iso-recursive, as in section 3.1 of the
   WebAssembly Core Specification 3.0. Object layouts are computed twice, from module IR and back out
   of the registry, and must agree.
2. **The managed heap and its mark-sweep collector**: three arenas that refer to each other, a mark
   bitmap, free lists with generations, one byte budget, and an engine-wide total.
3. **The shared execution stacks**: cells with a reference-tag shadow, frames, delimiters between
   calls, branches, returns, tail calls and exception unwinding.
4. **Suspension bookkeeping**: cleanup records of async calls whose futures may be dropped, and fuel
   slices.

Code that changes state step by step is a class or a method with loops, proved against a function of
the old state. What must hold over time is proved on transition systems whose steps are those same
functions, for every run.

| file | contents |
|---|---|
| `Options`, `FreeLists`, `Gathering`, `Bytes`, `Reachability` | shared definitions |
| `TypeForms`, `Structure`, `RegistryState`, `RegistrySteps`, `RegistryRuns`, `Subtyping`, `Registry`, `Interning` | the type registry, its invariant, its runs, and the class |
| `Layout`, `Codec` | object layouts, and values in object bodies |
| `Arenas`, `Budget`, `Heap`, `Tracing`, `Collector`, `Allocating` | the heap, its budget, the collector and the allocating instructions |
| `Managed`, `Conversions`, `Mutator`, `Survival`, `MutatorSafety`, `Presenting`, `StoreRuns`, `HostScopes`, `KeptTooLong` | whole runs of a store, and what a host may present to it |
| `ExecState`, `Handlers`, `Unwinding`, `Execution`, `CallRuns` | the stack machine and its runs |
| `AsyncCleanup`, `AsyncRuns`, `Fuel`, `EngineTotal` | suspension, fuel, the engine's total |

## What the code does not do

- `is_subtype` follows declared supertypes without a bound. The module parser guarantees that
  supertypes are declared earlier, but the host-facing group builder accepts a sibling as supertype in
  either direction, so a host-built group may contain a supertype cycle, and then a query about a
  type outside the chain never returns (`Subtyping.SelfSupertypeNeverStops` builds one). The exact
  condition is `Subtyping.ChainsEndIffNoCycle`: all chains end if and only if no live group's key has
  a supertype cycle among its own members.
- A reference can dangle through a handle the host has kept too long, in two ways the code accepts.
  Host allocations test their field values, then reserve, which may collect, and then store the raw
  handles: a handle whose root scope has closed passes and is freed in between
  (`KeptTooLong.FieldFreedByReservation`). And the parameters of a host call carry no generation, while
  the test of an externref looks only at generations: a parameter kept past its call and returned from
  a later one is accepted after its entry was freed (`KeptTooLong.ParameterKeptPastItsCall`). In both
  runs the next collection fails. The exact condition is `StoreRuns.RunOkIffSafe`: no state of a run has
  a dangling reference if and only if every handle presented names an entry that is there and, for a
  host allocation whose reservation collects, that is reachable from the roots (or is the very slot the
  new entry takes). Short of 2^32-1 frees of one slot, stamped handles meet the first half by themselves
  (`Presenting.StampIsLiveness`), so only unstamped externrefs escape it (`Presenting.OnlyExternsEscape`).
  What a caller can check is whether the handle's root is still registered, that is, whether the root
  scope or host call it was made in is still open: a run in which every presented handle is still rooted
  has no dangling reference in any state and no failing collection, whatever reservations collect
  (`StoreRuns.RootedRunOk`).
- An allocation suspended for the limiter finds room when it is executed again if and only if the
  bytes in use plus its charge fit a `usize` (`Budget.GrowthSettlesIt`). On the 64-bit target modelled
  here no instruction charges more than 2^37+32 bytes, so one granted growth is always enough in a store
  whose heap stops that far short of 2^64 bytes (`Budget.OneGrowthIsEnough`). The code has no test for
  the remaining case: the operation would trap if growth is refused, and otherwise ask for the same
  growth again and again (`Budget.UncountableNeverSettles`).
- Nothing keeps the index of an externref or exception below the null sentinel. The budget does, under a
  ceiling of 128 GiB (`IndexBounded` in `Collector.StoreInner.PushExtern`). With a limiter that grants more,
  an entry takes the sentinel's index exactly when every index below it is taken
  (`Collector.SentinelIsNext`); `Collector.ReachesSentinel` is a store in which that happens, and such an
  entry is lost at once (`Collector.SentinelEntryIsLost`).
- The engine's committed total plus what is in flight equals the sum of the live reservations modulo the
  word size, and exactly if and only if the difference of the two fits a word
  (`EngineTotal.CommittedIsReserved`). Two stores that each reserve all a word can count make the total
  fall short of either, and dropping one wraps it (`EngineTotal.TwoHugeStores`).
- A comment in `src/store/inner.rs` says that exceptions and externref boxes are not reclaimed yet.
  The collector does reclaim them, and so does the model.

## Model

| member | source | states |
|---|---|---|
| `TypeForms.MapTypeInjective` | src/canon/keys.rs:62-103 | Two canonical types that become equal when their references are mapped injectively were equal: the key form loses nothing. |
| `TypeForms.MapOfKey` | src/canon/keys.rs:62-103 | Building a key with one reference function and then mapping it is building it with the composed function. |
| `Structure.TypeKeysEqual` | src/canon/keys.rs:62-103 | Two module types have equal keys if and only if they agree constructor by constructor: finality, presence of a supertype, parameters and results, each field's mutability and storage, nullability, abstract heap type, concrete kind, and references that are sent to the same place. |
| `RegistryState.SameIdIffSameStructure` | src/canon/registry.rs:242-282 | Two owned type ids are equal if and only if their fully expanded structures are equal. |
| `RegistryState.EdgeOlder` | src/canon/registry.rs:242-282 | A cross-group edge always leads to a group born earlier, so edges are acyclic whatever ids are reused. |
| `RegistryState.LiveIffReached` | src/canon/registry.rs:298-327 | A group is live if and only if a registration reaches it along edges. |
| `RegistryState.NothingHeldNothingLive` | src/canon/registry.rs:298-327 | With no registration and an empty worklist no group is live. |
| `RegistrySteps.ReclaimedKeeps` | src/canon/registry.rs:298-327 | Reclaiming a group whose last reference was popped keeps the whole invariant and makes the table of interned keys smaller. |
| `RegistrySteps.AddedKeeps` | src/canon/registry.rs:242-282 | Interning a key no live group has keeps the whole invariant, with the new ids denoting the key's expansion. |
| `RegistryRuns.RunKeepsInvariant` | src/canon/registry.rs:242-327 | Every state of every run, also between two worklist rounds, satisfies the invariant: slots, free lists, interning, edges, counts and meanings. |
| `RegistryRuns.CountsBalance` | src/canon/registry.rs:298-327 | A live group's refcount is its registrations plus its pending worklist entries plus the edge occurrences from live groups, and every pending group is live. |
| `RegistryRuns.RoundsKeeps` | src/canon/registry.rs:298-327 | A worklist round keeps the invariant and either reclaims a group or shortens the worklist. |
| `RegistryRuns.ReclaimTerminates` | src/canon/registry.rs:298-327 | While the worklist is not empty a next round exists, its popped group live and its decrement possible, and it lowers a well-founded measure: the cascade ends. |
| `RegistryRuns.LiveExactlyReached` | src/canon/registry.rs:298-327 | Between operations the live groups are exactly those reached from registrations, and none if there are none: no leak, nothing reclaimed early. |
| `RegistryRuns.IdsAreExact` | src/canon/registry.rs:54-80 | In every reachable state, same id if and only if same expanded structure. |
| `RegistryRuns.StoredTypesMean` | src/canon/keys.rs:157-184 | In every reachable state the type stored under a live id has the kind and finality of the group member the id stands for, its supertype and every reference in its body is the id of a live type, and those ids stand for what the expanded member has in their place, siblings being members of the same group. |
| `RegistryRuns.RegisteredIdsAreStable` | src/canon/registry.rs:260-327 | While a registration is held through any other interns and releases, its ids keep their stored type and their whole supertype chain. |
| `RegistryRuns.ChainIsStable` | src/canon/registry.rs:176-189 | The ids any number of supertype steps above an owned type do not change while it stays owned. |
| `RegistryRuns.AboveIsLive` | src/canon/registry.rs:176-189 | No supertype step from a live type meets a reclaimed slot. |
| `Subtyping.ChainsEndIffNoCycle` | src/canon/registry.rs:176-189 | In every reachable state, all supertype chains end if and only if no live group's key has a sibling supertype cycle. |
| `Subtyping.EarlierSupertypesNoCycle` | src/canon/registry.rs:350-373 | A group whose sibling supertypes are declared earlier has no such cycle. |
| `Subtyping.StopsForAllIffEnds` | src/canon/registry.rs:176-189 | The walk stops for every possible supertype asked about if and only if the chain ends. |
| `Subtyping.SelfSupertypeNeverStops` | src/canon/registry.rs:136-167 | A run that interns a self-supertype group, after which the walk from that type to any other type never stops. |
| `Registry.TypeRegistry.constructor` | src/canon/registry.rs:20-50 | An empty registry. |
| `Registry.TypeRegistry.IncrefGroup` | src/canon/registry.rs:284-292 | Adds one registration of a live group and changes no id's meaning. |
| `Registry.TypeRegistry.IncrefType` | src/canon/registry.rs:330-336 | The same for the group owning a live type. |
| `Registry.TypeRegistry.ReclaimRound` | src/canon/registry.rs:298-327 | One round: the popped group is live, its checked decrement succeeds, and the step is a step of the transition system. |
| `Registry.TypeRegistry.DecrefGroup` | src/canon/registry.rs:298-327 | Removes exactly one registration; every id that survives keeps its meaning, and ids of groups still registered survive. |
| `Registry.TypeRegistry.DecrefType` | src/canon/registry.rs:338-344 | The same for the group owning a type. |
| `Registry.TypeRegistry.Release` | src/canon/registry.rs:169-173 | Removes exactly the given registrations, with multiplicity. |
| `Registry.TypeRegistry.InternGroup` | src/canon/registry.rs:242-282 | The group's members denote the key's expansion, the registration count grows by one, earlier meanings stay, and every live id's stored type is the one it stands for. |
| `Registry.TypeRegistry.AddGroup` | src/canon/registry.rs:252-281 | A fresh or recycled slot becomes a live group with those members, whose stored bodies name, by id, the types they stand for; no type changes owner. |
| `Registry.TypeRegistry.PushTargets` | src/canon/registry.rs:381-418 | Appends the owning group of every edge occurrence, in order. |
| `Registry.TypeRegistry.IsSubtype` | src/canon/registry.rs:176-189 | The answer is the reflexive-transitive closure of declared supertypes, for every chain that ends. |
| `Interning.InternModule` | src/canon/registry.rs:54-80 | Every type of the module gets an id denoting its fully expanded structure, is stored under it as declared with ids in place of indices, and there is one registration per recursive group. |
| `Interning.MeaningsEqual` | src/canon/registry.rs:350-373 | The expanded structures of two module types are equal if and only if the types are iso-recursively the same, said of the modules alone: same place in groups that agree member by member, siblings by place and earlier types by sameness. |
| `Interning.StoredAsDeclared` | src/canon/keys.rs:157-184 | In every reachable state the type stored for each type of an interned module is the declared one with each type index replaced by that type's id: kind, finality, supertype and body. |
| `Interning.ModuleKeyExpands` | src/canon/registry.rs:350-373 | The key built for a module group, siblings relative and earlier types by id, expands to the group's full structure. |
| `Interning.InternHostGroup` | src/canon/registry.rs:136-167 | A host-built group's ids denote its expansion over the structures of its externals, with one registration taken. |
| `Interning.HostIdsExact` | src/canon/registry.rs:136-167 | Two host-built types have the same id if and only if they sit at the same place of groups that agree member by member, externals by id. |
| `Interning.HostMatchesModule` | src/canon/registry.rs:136-167 | A host-built type has the id of a loaded module's type if and only if they sit at the same place of groups that agree member by member, externals against the ids of the module's earlier types. |
| `Interning.Replay` | src/canon/registry.rs:54-80 | After any sequence of module loads and unloads, types of loaded modules share an id if and only if they are iso-recursively the same, and with nothing loaded the registry is empty. |
| `Interning.LoadedIdsExact` | src/canon/registry.rs:54-80 | In any reachable state, clients whose registrations are held have equal ids exactly for iso-recursively equal types, and no client left means no group left. |
| `Layout.StructLayout` | src/canon/layout.rs:137-147 | The running offset gives the slots the prefix sums describe, and the size is the total width. |
| `Layout.StructTiles` | src/canon/layout.rs:137-147 | A struct's slots tile its body from zero to its size. |
| `Layout.ArrayTiles` | src/canon/layout.rs:165-184 | An array's elements tile its body. |
| `Layout.TilesAreDisjoint` | src/canon/layout.rs:137-147 | Tiling slots never overlap. |
| `Layout.TilesCover` | src/canon/layout.rs:137-147 | Every byte below the end belongs to some slot. |
| `Layout.FieldKindsAgree` | src/canon/layout.rs:187-272 | A field's slot kind from the IR equals the one from the materialized public type of its key. |
| `Layout.FieldIsPublished` | src/canon/materialize.rs:17-48 | The public field materialized from a field's key has the declared mutability, packing, number type, nullability, abstract heap type, and concrete type of the declared kind. |
| `Layout.FieldsArePublished` | src/canon/materialize.rs:69-89 | In every reachable state the fields materialized for the id of a module's type are the declared ones, with each type index replaced by that type's id. |
| `Layout.KeyedLayout` | src/canon/keys.rs:62-103 | A body's key is laid out as the body is. |
| `Layout.MappedLayout` | src/canon/keys.rs:164-184 | Resolving references does not change a layout. |
| `Layout.LayoutsAgree` | src/canon/materialize.rs:17-48 | In every reachable registry state the layout recovered for an id is the one computed from the IR of the module type it stands for. |
| `Codec.I31RoundTrip` | src/store/gc.rs:36-58 | A 31-bit signed value survives boxing, and never looks like null. |
| `Codec.WriteThenRead` | src/store/gc_codec.rs:22-37 | A slot reads back what was written, packed scalars cut to their width. |
| `Bytes.LeSplits` | src/store/gc_codec.rs:22-37 | Stored numbers are little-endian: a byte string's number is its first part's plus the rest's shifted past it. |
| `Codec.PackedReads` | src/store/gc_codec.rs:40-53 | A packed field reads back the low bits written, zero- or sign-extended. |
| `Codec.WriteKeepsOthers` | src/store/gc_codec.rs:22-37 | Writing one field leaves every other field's reading unchanged. |
| `Arenas.ArenaStaysOk` | src/store/reclaim.rs:47-93 | After any history the free list is duplicate-free and is exactly the set of empty slots. |
| `Arenas.GenerationCountsFrees` | src/store/reclaim.rs:78-93 | A slot's generation is its number of frees modulo 2^32-1, after any history. |
| `Arenas.GenerationsCollide` | src/store/reclaim.rs:78-93 | Two lifetimes of a slot share a generation if and only if they are a multiple of 2^32-1 frees apart; no generation is `u32::MAX`. |
| `Arenas.SweepToEnd` | src/store/reclaim.rs:78-93 | The slot-by-slot sweep frees exactly the occupied slots outside the live set, each once. |
| `Arenas.SweepFacts` | src/store/reclaim.rs:78-93 | Bytes freed plus bytes left are the bytes there were. |
| `Budget.PlaceMeansFits` | src/exec/collect.rs:40-69 | "Place now" implies that the charge fits the reservation without overflow, and the grant is exactly what the reservation grew by. |
| `Budget.OnlyPressureSuspends` | src/exec/collect.rs:40-69 | A collection or a suspension happens only for growth beyond the free budget: the limiter is asked exactly when, after the collection if any, the charge still does not fit and the growth it needs exceeds that budget. |
| `Budget.DesiredIsLargest` | src/store/gc.rs:276-279 | The growth asked for is one step or the need, whichever is more. |
| `Budget.CeilingIsLargest` | src/store/gc.rs:261-270 | An unreserved allocation fits exactly below the largest of reservation, free budget and abort cap. |
| `Budget.GrowthSettlesIt` | src/exec/collect.rs:40-69 | After the growth asked for is granted, the operation fits and passes its capacity check if and only if its bytes can be counted. |
| `Budget.OneGrowthIsEnough` | src/exec/collect.rs:74-134 | With any charge an instruction computes, in a store whose heap stops 2^37+32 bytes short of 2^64, the re-executed operation is placed at once and passes its capacity check. |
| `Budget.ObjectChargeBound` | src/exec/collect.rs:119-134 | `u32` counts and fields of at most 16 bytes charge at most 2^36+28 bytes. |
| `Budget.UncountableNeverSettles` | src/store/grow.rs:140-162 | An operation whose bytes cannot be counted is never placed: it traps in the first round exactly if growth is refused, and with a consenting limiter the rounds change nothing from the first on. |
| `Budget.ClampedChargeIsExact` | src/exec/gc_array.rs:103-146 | An `array.new_data` or `array.new_elem` that succeeds places exactly the bytes its clamped charge announced. |
| `Budget.GrantKeepsOk` | src/store/gc.rs:285-291 | A grant reserves its target, keeps the growth step between its batch and its cap, and doubles it up to that cap. |
| `Heap.ReclaimArena.Alloc` | src/store/reclaim.rs:47-57 | Takes the most recently freed slot, or a fresh one, and touches no other. |
| `Heap.ReclaimArena.Sweep` | src/store/reclaim.rs:78-93 | Leaves the swept arena and returns the bytes it released. |
| `Heap.OrAddsBit` | src/store/gc.rs:363-372 | Or-ing a shifted one into a 64-bit word sets exactly that bit. |
| `Heap.BitmapIsSet` | src/store/gc.rs:357-389 | The 64-bit words, written with or and read with a mask, answer as the plain set of marked indices does. |
| `Heap.GcHeap.Alloc` | src/store/gc.rs:295-317 | Places an object in a free or fresh slot and charges it; fails exactly when no slot is free and the handle space is exhausted. |
| `Heap.GcHeap.Mark` | src/store/gc.rs:357-375 | Reports a first marking of a live slot, and marks nothing else. |
| `Heap.GcHeap.ClearMarks` | src/store/gc.rs:400-403 | No slot is marked afterwards. |
| `Heap.GcHeap.Sweep` | src/store/gc.rs:378-396 | Frees exactly the unmarked objects, credits exactly their bytes, and leaves no mark. |
| `Heap.GcHeap.Grant` | src/store/gc.rs:285-291 | Sets the reservation and returns the bytes added. |
| `Reachability.TraceDone` | src/store/gc_collect.rs:71-97 | A finished worklist has seen exactly the reachable nodes. |
| `Collector.StoreInner.constructor` | src/store/inner.rs:122-155 | An empty store with an exact budget and no roots. |
| `Collector.StoreInner.TraceReachable` | src/store/gc_collect.rs:71-97 | Terminates with exactly the reachable nodes visited, or with an error when a reachable node is dangling or corrupt. |
| `Collector.StoreInner.Visit` | src/store/gc_collect.rs:76-93 | Records a first visit in the bitmap or in one of the two sets. |
| `Collector.StoreInner.Collect` | src/store/gc_collect.rs:41-67 | Keeps exactly what the roots reach across the three arenas, with unchanged contents, each arena swept with its free list and generations; fails if and only if a reachable node is dangling or corrupt, and then frees nothing and leaves no mark; `used` stays the sum of all live charges. |
| `Collector.StoreInner.SweepAll` | src/store/gc_collect.rs:58-66 | Sweeps the three arenas and credits what each one frees. |
| `Collector.StoreInner.GcReserve` | src/exec/collect.rs:40-69 | Decides as the reservation flow does from the bytes left after the collection; a placement fits; it collects exactly when growth beyond the free budget is needed, and fails exactly when that collection fails. |
| `Collector.StoreInner.AllocGc` | src/store/managed.rs:348-350 | A reserved object is placed, counted exactly, and stays within the reservation, as do the bodies of all live objects together. |
| `Collector.StoreInner.UsedCoversBodies` | src/store/gc.rs:137-139 | The bytes in use cover the bodies of all live objects, their overhead, and the arguments of all live exceptions. |
| `Collector.StoreInner.AllocUnreserved` | src/store/gc.rs:322-327 | The same up to the hard ceiling, and fails exactly beyond it or without a handle. |
| `Collector.StoreInner.PushExtern` | src/store/managed.rs:32-39 | An extern entry is charged and stored, exactly when it fits the ceiling, and its index is bounded by that ceiling. |
| `Collector.StoreInner.AllocExn` | src/store/managed.rs:138-148 | The same for an exception, charged by its arguments. |
| `Collector.NextIndexBounded` | src/store/gc_codec.rs:16-19 | A fresh index costs its overhead for every slot below it, so under a ceiling of 128 GiB no index is the null sentinel. |
| `Collector.SentinelIsNext` | src/store/reclaim.rs:47-57 | An allocation takes the sentinel's index if and only if no slot is free and every index below it exists. |
| `Collector.ReachesSentinel` | src/store/managed.rs:32-39 | A store, its reservation granted by the limiter, in which an externref is given the sentinel's index. |
| `Collector.SentinelEntryIsLost` | src/store/gc_codec.rs:112-136 | A reference to an entry at the sentinel's index is stored as null and never traced. |
| `Allocating.BuildBody` | src/exec/gc.rs:51-77 | Filling a body from the last field back, every field reads back its value. |
| `Allocating.NewStruct` | src/exec/gc.rs:51-77 | From peek to placement: the struct stands in its slot with its fields, weighs exactly the charge peeked, and stays within the reservation; it waits for the target the flow decides with nothing reserved, and fails only if its collection ran or no handle is left. |
| `Allocating.NewArray` | src/exec/gc_array.rs:59-101 | The same for an array; one too large to count fails before it is reserved. |
| `Allocating.Throw` | src/exec/exn.rs:65-91 | The same for an exception; once its charge is reserved it cannot fail. |
| `Collector.StoreInner.ExternConvertAny` | src/store/managed.rs:85-107 | The store does what the conversion function does, with the arena's next slot. |
| `Collector.StoreInner.AnyConvertExtern` | src/store/managed.rs:112-133 | The same in the other direction. |
| `Managed.LiveRefsAreLive` | src/store/gc_collect.rs:130-195 | In intact contents, every live entry can be traced and refers only to live entries. |
| `Managed.FieldWriteOk` | src/exec/gc_array.rs:169-179 | Overwriting a field with a live value keeps the contents intact. |
| `Managed.BodyReads` | src/exec/gc_array.rs:84-101 | A body built field by field reads back the values it was built from. |
| `Managed.NewObjectOk` | src/store/managed.rs:348-350 | Storing an intact object in an empty slot keeps everything intact. |
| `Managed.NewEntryOk` | src/store/managed.rs:32-39 | The same for an extern entry. |
| `Managed.NewExnOk` | src/store/managed.rs:138-148 | The same for an exception. |
| `Conversions.WrapperReads` | src/store/gc.rs:114-128 | A wrapper gives back the index it wraps. |
| `Conversions.ExternConversionOk` | src/store/managed.rs:85-107 | Converting a live reference fails only for lack of room, keeps the contents intact, and gives a live reference. |
| `Conversions.AnyConversionOk` | src/store/managed.rs:112-133 | The same in the other direction. |
| `Survival.ContentsSurvive` | src/store/gc_collect.rs:41-67 | What a collection leaves is intact: wrappers still wrap live host entries, internalized entries never wrap wrappers, and no reference dangles. |
| `Survival.CollectKeepsOk` | src/exec/collect.rs:24-27 | A collection at any safe point keeps every reference held by stacks, globals, tables, elements, roots and the pending exception live. |
| `MutatorSafety.SourcedOk` | src/exec/stack.rs:215-227 | Whatever an instruction can obtain is null, rootless or live. |
| `MutatorSafety.EnterOk` | src/exec/host.rs:254-284 | Entering a host call with its parameters rooted leaves nothing dangling. |
| `MutatorSafety.ClosedOk` | src/exec/host.rs:286-338 | Leaving a host call drops only its own roots, and the pending exception it saved is still live. |
| `MutatorSafety.RaisedOk` | src/exec/exn.rs:154-187 | A caught exception's payload and a surfaced exception are live. |
| `MutatorSafety.HandOutOk` | src/store/managed.rs:264-281 | A value of the store's own handed to the host is live, rooted, and stamped with its generation. |
| `Presenting.StampedPasses` | src/value/gc_ref.rs:109-137 | The test of a stamped handle passes if and only if the arena answers and the slot was freed a multiple of 2^32-1 times since. |
| `Presenting.StampIsLiveness` | src/value/gc_ref.rs:109-137 | Short of that many frees, it passes if and only if the entry the handle was made of is still there. |
| `Presenting.OnlyExternsEscape` | src/store/managed.rs:66-72 | An accepted handle whose entry is gone is an externref, unstamped or wrapped around. |
| `Presenting.StoreStepIff` | src/value_match.rs:92-124 | Storing presented values (arguments, results, globals, elements, fields, roots) leaves nothing dangling if and only if all they name is there. |
| `Presenting.AllocStepIff` | src/store/grow.rs:171-215 | A host allocation (test, reserve and perhaps collect, place) leaves nothing dangling if and only if what its fields name lasts until it is placed. |
| `StoreRuns.StepOkIff` | src/store/gc_collect.rs:41-127 | Any step of a store in which nothing dangles leaves nothing dangling if and only if it meets its condition. |
| `StoreRuns.RunOkIffSafe` | src/store/gc_collect.rs:41-127 | No state of a run has a dangling reference if and only if every step met its condition. |
| `StoreRuns.RootedIsSafe` | src/value/gc_ref.rs:183-207 | A step whose presented handles are all still rooted meets its condition, whether or not its reservation collects. |
| `StoreRuns.RootedRunOk` | src/value/gc_ref.rs:183-207 | A run in which every presented handle is still rooted has no dangling reference and no failing collection. |
| `HostScopes.HandedOutPasses` | src/store/managed.rs:361-382 | In every run without a dangling reference, a value handed to the host is accepted back for as long as its root stands, whatever is collected and however often its slot was freed before. |
| `HostScopes.ParamsStayRooted` | src/exec/host.rs:254-284 | In every run, each reference passed to a host call stays rooted while the call is open, so no collection frees what it names. |
| `HostScopes.CallRestoresRoots` | src/exec/host.rs:286-335 | In every run, when a host call returns, fails or throws, the root list is exactly that of its entry, and a failure that is not the host's own puts the pending exception of its entry back. |
| `Presenting.CoerceOk` | src/value_match.rs:196-219 | Coercing a presented externref to an `anyref` argument leaves nothing dangling, whether or not its entry is there. |
| `KeptTooLong.FieldFreedByReservation` | src/value/exn_ref.rs:52-62 | A run in which an accepted field is freed by the allocation's own reservation, and the next collection fails. |
| `KeptTooLong.ParameterKeptPastItsCall` | src/exec/stack.rs:425-441 | A run in which a kept parameter is accepted after its entry was freed, and the next collection fails. |
| `StoreRuns.RunKeepsOk` | src/store/gc_collect.rs:41-127 | In every run mixing guest steps, host calls and collections, each reference held or stored names a live entry as long as every presented handle met its condition. |
| `StoreRuns.CollectionNeverFails` | src/store/gc_collect.rs:71-97 | In such a state everything reachable is live and intact, so no collection meets corrupt metadata. |
| `StoreRuns.CollectIsAStep` | src/store/inner.rs:184-186 | The collector's result over roots scanned off the cells and their shadow is the run model's collection step, its error included. |
| `StoreRuns.CollectKeepsGenerations` | src/store/reclaim.rs:78-93 | Sweeping the three arenas moves their generations as the collection step moves the machine's free counts. |
| `Survival.CollectTwice` | src/store/gc_collect.rs:41-67 | A collection right after a collection frees nothing. |
| `StoreRuns.EntryIsStable` | src/store/reclaim.rs:47-93 | An extern entry is not replaced within one lifetime of its slot. |
| `StoreRuns.AnyExternAny` | src/store/managed.rs:85-133 | any to extern to any gives the same handle for `i31`, struct and array references, after any steps within the entry's lifetime. |
| `StoreRuns.InternalizedStays` | src/store/managed.rs:85-107 | The object an internalized entry names is not freed within the entry's lifetime. |
| `StoreRuns.ExternAnyExtern` | src/store/managed.rs:85-133 | host extern to any to extern gives the same entry with the same payload, after any steps within the wrapper's lifetime. |
| `ExecState.PushedCallSound` | src/exec/frame.rs:44-87 | Pushing a call keeps the stacks in lockstep, the bases ascending and the re-entry count exact. |
| `ExecState.ReturnedSound` | src/exec/frame.rs:166-201 | So does returning. |
| `ExecState.EnteredSound` | src/exec/mod.rs:127-158 | So does entering a call. |
| `ExecState.BranchedSound` | src/exec/frame.rs:120-148 | So does a branch. |
| `ExecState.PushedCallLays` | src/exec/frame.rs:44-87 | A call keeps every cell and tag, starts reference locals null and scalars zero, and puts the frame's locals at the parameters. |
| `ExecState.EnteredCallLays` | src/exec/mod.rs:127-158 | An entered call lies over the untouched stacks: boundary, arguments in order, default locals, frame, and one more re-entry if it is one. |
| `ExecState.BranchedKeepsTop` | src/exec/frame.rs:120-148 | A branch keeps the top operands, in order, and everything below the popped ones. |
| `ExecState.ReturnedKeepsTop` | src/exec/frame.rs:166-201 | A return keeps the top operands, in order, and everything below the popped frame. |
| `Execution.Execution.PushCall` | src/exec/frame.rs:44-87 | Leaves the parameters in place as the first locals, starts the others null or zero, and lays the frame over them; or changes nothing, exactly when the parameters and 32-bit heights do not allow it. |
| `ExecState.DelimitedSound` | src/exec/frame.rs:93-116 | A boundary pushed at the current height, with the arguments above it, keeps the stacks in lockstep, the bases ascending and the re-entry count exact. |
| `Execution.Execution.EnterCall` | src/exec/mod.rs:127-158 | Lays the boundary, the arguments and the callee's locals and frame over the stacks as they are, or rolls back stacks, frames and re-entry count exactly. |
| `Execution.Execution.ReleaseReentry` | src/exec/mod.rs:162-178 | Releases one crossing for a re-entry boundary, none for a top-level one, and refuses a non-boundary. |
| `Execution.Execution.TakeResults` | src/exec/mod.rs:182-200 | Splits off exactly the declared results, tags included, leaving the stacks below them, or changes nothing. |
| `Execution.Execution.DiscardTo` | src/exec/mod.rs:204-217 | Cuts the stacks back to the boundary, or changes nothing. |
| `Execution.Execution.DiscardCurrentCall` | src/exec/mod.rs:221-238 | Finds the innermost delimiter and discards its call. |
| `Execution.Execution.TakeBranch` | src/exec/frame.rs:120-148 | Copying down element by element, over stretches that may overlap, leaves exactly the operands below the popped ones and then the kept ones, cells and tags alike; a branch that would reach below the floor changes nothing. |
| `Execution.MoveDown` | src/exec/frame.rs:140-146 | The overlapping copy and truncation keep the part below the target and the moved part, in order. |
| `Execution.Execution.DoReturn` | src/exec/frame.rs:166-201 | Leaves the top results at the popped frame's base over what lay below it, cells and tags alike, and nothing else; an ordinary return demands exactly its results. |
| `Execution.Execution.OperandRoots` | src/exec/stack.rs:484-500 | The roots collected seed what every cell and tag together stand for. |
| `Execution.ShadowKeepsRoots` | src/exec/stack.rs:484-500 | Cells and shadow tags seed a collection as the typed values would. |
| `Handlers.FindClause` | src/exec/exn.rs:234-263 | The nested loops compute the table search, missing tags included. |
| `Handlers.CatchesByTag` | src/exec/exn.rs:234-263 | A clause catches an exception if it has no tag or the tag its index names in the frame's instance is the one thrown, and lets it pass if that tag is another. |
| `Handlers.TableFinds` | src/exec/exn.rs:234-263 | It stops at the first covering span with a clause for the exception, and finds nothing exactly if there is none. |
| `Handlers.TableMisses` | src/exec/exn.rs:234-263 | A table has nothing for an exception exactly when every clause of every span around the instruction is for another tag of the instance. |
| `Handlers.FoundIsInnermost` | src/module/handler.rs:6-14 | With inner spans first, the clause found is for the exception thrown and belongs to the innermost covering span that has one. |
| `Handlers.SeekIsOutward` | src/exec/exn.rs:108-152 | The search over frames ends in the first frame above the boundary whose own table catches, and finds nothing if and only if none does. |
| `Execution.Execution.Unwind` | src/exec/exn.rs:108-152 | The loop leaves the stacks of the outward search; caught, control is in the innermost frame that catches the exception, with the operands below its `try_table`, the payload and nothing more, and it escapes exactly when no frame above the boundary catches. |
| `Execution.Execution.EnterHandler` | src/exec/exn.rs:154-187 | Keeps exactly the operands below floor plus restore height, pushes the arguments and the tagged handle the clause asks for and nothing more, and points the frame at the landing pad; or changes nothing. |
| `Execution.Execution.RaiseHostException` | src/exec/exn.rs:205-230 | A host throw unwinds from the call the top frame waits for, and lands or escapes as an unwinding from there does. |
| `Unwinding.UnwindKeeps` | src/exec/exn.rs:108-201 | Whatever its outcome, unwinding leaves frames, values and tags below its boundary alone and the stacks sound. |
| `Unwinding.LandedLands` | src/exec/exn.rs:154-187 | At the landing pad lie the operands below the `try_table`, the arguments if asked for, then the tagged handle if asked for, and nothing more. |
| `Unwinding.UnwindsRightly` | src/exec/exn.rs:108-201 | Unwinding lands in the innermost frame that catches the exception, or escapes exactly when none down to the boundary does, leaving what was below the boundary, or fails. |
| `CallRuns.RunStepProceeds` | src/exec/mod.rs:305-470 | Every step of a running call changes only what lies above its boundary. |
| `CallRuns.EndRestores` | src/exec/host.rs:157-188 | However a call ends, the execution left is the one it was entered on. |
| `CallRuns.CallIsolation` | src/exec/host.rs:116-188 | In every run, while a call is open, values, tags and frames below its boundary are as at entry. |
| `CallRuns.CallRestores` | src/exec/host.rs:116-188 | In every run, when a call has ended, the execution is exactly that of its entry. |
| `CallRuns.ReentryCountsDelimiters` | src/exec/mod.rs:127-178 | In every run, the re-entry counter is the number of host re-entry delimiters, values and tags are in lockstep, and bases ascend. |
| `CallRuns.StackIsBounded` | src/exec/mod.rs:243-302 | In every run, frames and crossings together weigh less than the limit plus three frames and one crossing. |
| `CallRuns.TailCallsKeepFrames` | src/exec/mod.rs:373-385 | Any number of tail calls keeps the frame count and base, the callee's starting height depends on that base and its own parameters and locals alone, and its parameters are the replaced frame's top operands. |
| `CallRuns.TailCallPasses` | src/exec/mod.rs:369-374 | A tail call hands the callee exactly the caller's top operands with their tags, drops what was under them, and leaves what is below the frame. |
| `CallRuns.CallPasses` | src/exec/mod.rs:346-358 | A call leaves the parameters in place as the callee's first locals and the caller at its resume point. |
| `CallRuns.ReturnHands` | src/exec/frame.rs:166-201 | An ordinary return hands back all of the frame's operands, exactly as many as it has results. |
| `CallRuns.ReentryIsDepth` | src/exec/host.rs:116-150 | In every run the first open call is the embedder's and all others are re-entries, so the re-entry counter is the number of open calls less one. |
| `AsyncRuns.BeginOk` | src/store/inner.rs:211-227 | A record begun with a call, or without one, would restore exactly the state it was begun in, and nests in the ones before it. |
| `AsyncCleanup.AsyncCalls.CompleteCleanup` | src/store/inner.rs:230-248 | Removes the innermost record and refuses any other token. |
| `AsyncCleanup.AsyncCalls.RecoverCancelled` | src/store/inner.rs:251-278 | The loop undoes the cancelled records from the innermost out. |
| `AsyncCleanup.AsyncCalls.AbandonBoundary` | src/store/inner.rs:281-289 | Truncates at the last record with the boundary, or does nothing. |
| `AsyncRuns.RecoveryRestores` | src/store/inner.rs:251-278 | After any droppable suffix is cancelled, recovery gives the execution, re-entry count, roots, pending exception and generation of the moment the outermost dropped call began, keeps the outer records, and latches no error. |
| `AsyncRuns.AsyncRunOk` | src/exec/host_async.rs:21-115 | In every run each record would restore exactly the state it was begun in, the exception it saves stays rooted, and records nest as calls do. |
| `AsyncRuns.SavedStaysRooted` | src/exec/host_async.rs:29-46 | In every run the exception an open record would put back is among the host roots. |
| `AsyncRuns.OwnerIsLast` | src/exec/guard.rs:34-56 | A panicking async call's boundary finds its own record, the innermost one. |
| `AsyncRuns.DropUndoesBegin` | src/exec/host_async.rs:21-115 | In every run, dropping a call mid-await with everything begun inside it restores the state and the records of the step at which it began. |
| `Fuel.YieldIsProductive` | src/store/inner.rs:316-335 | A needed yield is followed by a non-empty slice, the smaller of the interval and what is left, and moves fuel without making or losing any. |
| `Fuel.SlicingIsInvisible` | src/store/inner.rs:301-335 | The same total runs the same number of operations whatever the interval. |
| `Fuel.FuelMeter.SetFuel` | src/store/inner.rs:301-307 | The total is what was set; the active part is the smaller of interval and total. |
| `Fuel.FuelMeter.SetFuelYieldInterval` | src/store/inner.rs:310-313 | A new interval keeps the total and splits it again: the active part is the smaller of the new interval and the total. |
| `Fuel.FuelMeter.ConsumeFuelStep` | src/store/inner.rs:316-325 | Takes exactly one unit if there is active fuel, and reports exhaustion exactly when the total is zero. |
| `Fuel.FuelMeter.RefuelFromReserve` | src/store/inner.rs:328-335 | Moves the smaller of interval and reserve, and keeps the total; from no active fuel, no more than an interval is active afterwards. |
| `Fuel.FuelMeter.Drive` | src/exec/host_async.rs:67-85 | The driver charges as many operations as asked for or as the total allows, and yields exactly when the active slice is used up and then after every interval. |
| `Fuel.FullSlicesOnly` | src/exec/host_async.rs:67-85 | From a full slice, operations take one yield less than the slices they need, rounded up: never more than an interval of them between two yields. |
| `EngineTotal.CommittedIsReserved` | src/engine.rs:301-320 | In every interleaving, the total plus what is in flight is the sum of live reservations modulo the word size, exactly if and only if what should have been counted fits a word, and the total alone once nothing is in flight. |
| `EngineTotal.DropDoesNotUnderflow` | src/store/inner.rs:454-463 | Dropping a store never subtracts more than was counted, while that fits a word. |
| `EngineTotal.TwoHugeStores` | src/engine.rs:301-320 | A run of two stores after which a reservation exceeds the total and its drop wraps it. |
| `EngineTotal.StepOk` | src/store/grow.rs:140-196 | Creation, use, reservation, limiter growth, add and drop each keep the balance. |

## Left out

- Parsing, validation and compilation: their guarantees (local indices in range, earlier supertypes, inner spans first) are hypotheses of the lemmas that need them.
- Numeric, float, conversion and SIMD instructions: one-line wrappers that would only add easy members; the stack model covers their operand traffic.
- Linker, instantiation, typed function wrappers, configuration, backtraces and serialization: plumbing and presentation.
- `intern_func`, `intern_struct` and `intern_array`: one-member instances of interning a group.
- Registry.TypeRegistry.IncrefGroup: counts and ids are unbounded, so the panics at `u32` overflow are not modelled.
- Interning.InternModule: earlier types are looked up in the ids assigned so far instead of in a vector filled with a sentinel.
- Heap.ReclaimArena.Alloc: indices are unbounded, so the cast to `u32` is not modelled; the runs of a store take the bound of `Collector.NextIndexBounded`, which holds under a ceiling of 128 GiB, as given.
- Type metadata of heap objects: the collector takes a map of layouts that does not change while objects live; `Layout.LayoutsAgree` says what the registry would put there.
- Host handles of other stores: the store identity a handle carries is not modelled, and handles of function references, which are never collected, are plain values.
- Execution.Execution.EnterCall: overflow of the re-entry counter and of the byte-size estimate is not modelled.
- CallRuns.RunStepProceeds: an operand instruction is any change of the top frame's own operands and locals, which includes every instruction the compiler emits.
- StoreRuns.RunKeepsOk: instructions that only move values are one step that may put any value obtainable by a guest anywhere; field writes to extern wrappers, which validation excludes, are not steps.
- Which internal error is reported, and the first latched one: a result is a success or a failure, and latching is a flag.
- Epoch deadlines, memory and table growth, and the engine's request mailboxes: suspension points with no state of their own beyond what the call and root models cover.
- Locks, atomics ordering, panics as such and real futures: steps are atomic, and a dropped future is an event.
- Fuel.FuelMeter.Drive: models the async driver; the synchronous one returns an error at the first needed yield.
