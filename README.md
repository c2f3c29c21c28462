# MFramework core, modelled and verified in Dafny

This project models four runtime parts of the MFramework Unity plugin collection. Each part is proved against its own specification.

- **MFSM, the hierarchical finite state machine** (`mfsm_types.dfy`, `mfsm_paths.dfy`, `mfsm_machine.dfy`, `mfsm_layered.dfy`, `mfsm_builder.dfy`).
  - A machine registers states under ids, with parent links and compound states that name an initial sub-state.
  - It keeps transition entries ordered by priority.
  - It holds an active path from a top state down to a leaf.
  - Starting enters the leaf path of a state. An update fires the first matching transition, otherwise it updates the leaf.
  - A transition exits and enters the states past the common prefix of the two paths.
  - A layered machine runs several machines in order in one shared context. Each layer writes its leaf id into that context for the layers after it.
  - The builder is a fluent front end to one machine.
- **MPool's reference pool** (`refpool.dfy`).
  - A pool of one type keeps a FIFO queue of idle objects and five counters.
  - A static registry keeps one pool per type and creates each pool on first use.
- **MPool's GameObject pool** (`gopool_config.dfy`, `gopool.dfy`, `gopool_manager.dfy`).
  - A pool per prefab has an available queue, an in-use set and creation, spawn and return counters.
  - A configuration asset is validated in place.
  - A manager creates pools on demand from the configurations it stores.
- **MAudio's audio source pool** (`audio_pool.dfy`).
  - For each of the five source types there is an idle queue, a used set and a creation count.
  - Sources are configured by type when they are created.

`common.dfy` holds the shared result types.

- A C# exception becomes a `Fail(error)` or `Err(error)` value, named by its exception class.
- A C# `null` argument of an object or type parameter becomes `None` or a nullable reference.
- State and layer ids are plain strings with no null; see "Left out" for what that leaves unmodelled.

**Objects and their state.**

- Objects whose fields the C# code updates in place are Dafny classes with those fields.
- Each class has a ghost `Snap()` of its fields.
- Each state-changing method states its whole new state, either as a function of the old one (`Snap() == AfterAcquire(old(Snap()))`) or as a step relation (`GetStep`).
- The registry and manager methods do the same for the pool they act on: an existing pool's state after the step, or a fresh pool's state starting from an empty one. Every other pool is stated unchanged.
- The properties are proved about those functions and relations.

**Engine and user callbacks.**

- State callbacks (`OnEnter`, `OnExit`, `OnUpdate`) and the machine's events are entries of a ghost event trace.
- Transition conditions are tokens evaluated by an oracle parameter `eval`.
- Engine objects (`GameObject`, `AudioSource`, prefabs) are plain classes whose identity is their reference.

## Model

| member | source | states |
|---|---|---|
| MFSMPaths.UpChainAncestors | MFSM/Runtime/Core/MFSMMachine.cs:246-257 | The upward walk meets exactly the successive ancestors of the state, as an independent parent-link definition gives them, while each is registered. |
| MFSMPaths.PathToStateSpec | MFSM/Runtime/Core/MFSMMachine.cs:240-261 | The ancestor path ends with the state itself. Each element is the parent of the next, the ids are distinct, and the length is at most 64. It is empty exactly when the id is unregistered or the walk revisits an id (a parent cycle). |
| MFSMPaths.PathWithinEmpty | MFSM/Runtime/Core/MFSMMachine.cs:242-251 | For any positive bound, the walk gives the empty path if and only if the id is unregistered or an id recurs within the bound. |
| MFSMPaths.PathToStateTruncates | MFSM/Runtime/Core/MFSMMachine.cs:248-257 | An acyclic chain longer than MaxParentChainDepth is cut to exactly 64 states, not rejected. |
| MFSMPaths.ReversedChain | MFSM/Runtime/Core/MFSMMachine.cs:259 | Reversing a child-to-parent chain without repeated ids gives a top-down path without repeated ids. |
| MFSMPaths.ExpandSpec | MFSM/Runtime/Core/MFSMMachine.cs:271-283 | The expansion keeps the start as a prefix, and every appended state is the registered initial sub-state of the state before it. Ids stay distinct and at most `budget` states are appended. Expansion stops only at a non-compound tail, a blocked tail (no, unknown or repeated sub-state) or the exhausted budget. |
| MFSMPaths.ExpandOnce | MFSM/Runtime/Core/MFSMMachine.cs:274-281 | An expansion that is not blocked appends a state whose id is new to the path. |
| MFSMPaths.PathToLeafSpec | MFSM/Runtime/Core/MFSMMachine.cs:264-286 | The leaf path is empty exactly when the ancestor path is. Otherwise it extends the ancestor path by at most 64 expansion steps with distinct ids, ending at a leaf, a blocked expansion or the depth limit. |
| MFSMPaths.CommonPrefix | MFSM/Runtime/Core/MFSMMachine.cs:192-195 | The result is the length of the longest prefix on which the two paths have equal ids: the ids agree below it and differ at it. |
| MFSMPaths.TransitionEventsSpec | MFSM/Runtime/Core/MFSMMachine.cs:197-210 | A transition exits exactly the current states past the common prefix, leaf first, then enters exactly the target states past it, top first. |
| MFSMPaths.TransitionEventsNoUpdate | MFSM/Runtime/Core/MFSMMachine.cs:186-211 | A transition issues no leaf update. |
| MFSMPaths.FirstFiring | MFSM/Runtime/Core/MFSMMachine.cs:157-170 | The chosen entry fires (its source is the wildcard or on the path, and its condition is absent or holds) and no earlier entry fires. None is chosen only when no entry fires. |
| MFSMPaths.SelfTransitionEmptiesPath | MFSM/Runtime/Core/MFSMMachine.cs:192-210 | As written, a transition from a path to the same path issues no events and leaves the active path empty. |
| MFSMPaths.SiblingTransitionDropsParent | MFSM/Runtime/Core/MFSMMachine.cs:192-210 | As written, moving from Root/A to Root/B leaves the path [B]. Root drops out although it never exits. |
| MFSMPaths.IntendedNextPath | MFSM/Runtime/Core/MFSMMachine.cs:204-210 | Corrected path after a transition: it has the target's ids, keeps the current states of the common prefix, and continues with the states entered. |
| MFSMPaths.IntendedSelfTransitionKeepsPath | MFSM/Runtime/Core/MFSMMachine.cs:192-210 | With the corrected path, a self-transition keeps the path. |
| MFSMMachine.InsertionPoint | MFSM/Runtime/Core/MFSMMachine.cs:69-70 | The position where a new entry goes after every entry of priority at least its own and before the first entry of lower priority. |
| MFSMMachine.InsertKeeps | MFSM/Runtime/Core/MFSMMachine.cs:62-70 | Inserting at that position keeps the entries sorted by non-increasing priority and registered, and adds exactly that entry to the multiset. |
| MFSMMachine.Machine.constructor | MFSM/Runtime/Core/MFSMMachine.cs:9-14 | A new machine has no states, parents, entries, path or root. It is neither started nor paused. |
| MFSMMachine.Machine.SetContext | MFSM/Runtime/Core/MFSMMachine.cs:35-38 | Only the context changes. |
| MFSMMachine.Machine.RegisterState | MFSM/Runtime/Core/MFSMMachine.cs:41-56 | A null state gives ArgumentNull, and an empty or reserved ("*") id gives Argument, with nothing changed. Otherwise the state and its parent id are stored under its id, overwriting any earlier one. The root is set only when `isRoot`, no parent and no root yet. |
| MFSMMachine.Machine.AddTransition | MFSM/Runtime/Core/MFSMMachine.cs:59-79 | Fails with Argument, changing nothing, exactly when an id is empty, the source is neither "*" nor registered, or the target is unregistered. Otherwise the entries gain exactly the new entry, stay sorted by non-increasing priority, and nothing else changes. |
| MFSMMachine.Machine.AddAnyTransition | MFSM/Runtime/Core/MFSMMachine.cs:82-92 | AddTransition from "*": it fails exactly when the target is empty or unregistered. |
| MFSMMachine.Machine.SetRoot | MFSM/Runtime/Core/MFSMMachine.cs:128-135 | Fails with Argument exactly for an empty or unregistered id. Otherwise only the root changes. |
| MFSMMachine.Machine.Start | MFSM/Runtime/Core/MFSMMachine.cs:95-116 | Outcome and new state are StartSpec's; StartSpecEnters describes them. |
| MFSMMachine.StartSpecEnters | MFSM/Runtime/Core/MFSMMachine.cs:95-116 | Start passes exactly when the id is non-empty and registered and its leaf path is non-empty. A failed start leaves the started flag and the events as they were. A passing start leaves the machine started in the given context. Its path begins with the id's ancestor path, contains the id and has distinct ids, and one enter event is issued per state of the path, top first. The registry, the entries and the root are never touched. |
| MFSMMachine.Machine.StartWithRoot | MFSM/Runtime/Core/MFSMMachine.cs:119-125 | Without a root: InvalidOperation and no change. Otherwise: Start from the root. |
| MFSMMachine.Machine.Pause | MFSM/Runtime/Core/MFSMMachine.cs:138-141 | Only the paused flag is set. |
| MFSMMachine.Machine.Resume | MFSM/Runtime/Core/MFSMMachine.cs:144-147 | Only the paused flag is cleared. |
| MFSMMachine.Machine.Update | MFSM/Runtime/Core/MFSMMachine.cs:150-174 | The new state is UpdateSpec's; UpdateSpecEvents describes it. |
| MFSMMachine.UpdateSpecEvents | MFSM/Runtime/Core/MFSMMachine.cs:150-174 | Registry, entries, root, context and flags are kept, and events are only appended. A machine that is not running (not started, empty path or paused), or a negative delta, changes nothing. If an entry fires, no leaf update is issued. If none fires, exactly the leaf's update is issued and the path stays. |
| MFSMMachine.Machine.TransitionTo | MFSM/Runtime/Core/MFSMMachine.cs:177-184 | The new state is TransitionToSpec's: ignored before Start and for an empty or unregistered id, otherwise the transition. |
| MFSMMachine.Machine.PerformTransition | MFSM/Runtime/Core/MFSMMachine.cs:186-211 | If the leaf path of the target is empty, nothing changes. Otherwise the states past the common prefix exit and the path becomes the target past the common prefix: the code as written. |
| MFSMMachine.AfterTransitionIs | MFSM/Runtime/Core/MFSMMachine.cs:188-210 | Given the resolved target and the common prefix, the transition result is the exit events, then the enter events, with that path. |
| MFSMMachine.CommonPrefixUnique | MFSM/Runtime/Core/MFSMMachine.cs:192-195 | A scan that stops at the first differing id or at the shorter length yields the common prefix. |
| MFSMMachine.FirstFiringIs | MFSM/Runtime/Core/MFSMMachine.cs:161-170 | An entry that fires with no earlier entry firing is the first firing entry. |
| MFSMMachine.Machine.HasState | MFSM/Runtime/Core/MFSMMachine.cs:214-217 | True exactly when GetState finds a state. |
| MFSMMachine.Machine.IsInState | MFSM/Runtime/Core/MFSMMachine.cs:220-225 | True exactly when the id is non-empty, the active path is not empty and the id is the active leaf's. |
| MFSMMachine.Machine.GetState | MFSM/Runtime/Core/MFSMMachine.cs:289-294 | None exactly for the empty or an unregistered id, otherwise the stored state. |
| MFSMMachine.Machine.CurrentLeaf | MFSM/Runtime/Core/MFSMMachine.cs:17 | None exactly when the path is empty, otherwise its last state. |
| MFSMMachine.Machine.IsInStateOrDescendant | MFSM/Runtime/Core/MFSMMachine.cs:228-237 | True exactly when the id is non-empty and some state of the active path has it. |
| MFSMMachine.Machine.GetPathToState | MFSM/Runtime/Core/MFSMMachine.cs:240-261 | The walk's loop computes PathToState, whose properties PathToStateSpec states. |
| MFSMMachine.WalkUp | MFSM/Runtime/Core/MFSMMachine.cs:244-257 | The walking loop computes the bounded ancestor path for any bound. |
| MFSMMachine.Machine.GetPathToLeaf | MFSM/Runtime/Core/MFSMMachine.cs:264-286 | The loop computes PathToLeaf, whose properties PathToLeafSpec states. |
| MFSMMachine.Machine.ExpandToLeaf | MFSM/Runtime/Core/MFSMMachine.cs:271-283 | The expansion loop computes Expand for the given budget. |
| MFSMMachine.ScanCommonPrefix | MFSM/Runtime/Core/MFSMMachine.cs:192-195 | The loop computes the longest common id prefix. |
| MFSMMachine.Machine.Reset | MFSM/Runtime/Core/MFSMMachine.cs:297-309 | Every active state exits, leaf first. The path and both flags are cleared. No id is then the current state. |
| MFSMMachine.ResetSpecIdempotent | MFSM/Runtime/Core/MFSMMachine.cs:297-309 | Resetting twice is resetting once. |
| MFSMMachine.Machine.GetCurrentPathString | MFSM/Runtime/Core/MFSMMachine.cs:312-326 | The active path's ids joined by " > ", and "" for an empty path. |
| MFSMMachine.TransitionToCurrentEmptiesPath | MFSM/Runtime/Core/MFSMMachine.cs:177-211 | As written, a forced transition to a state whose leaf path is the active path leaves the machine started with an empty path and no events, so later updates do nothing. |
| MFSMMachine.IntendedTransitionReachesTarget | MFSM/Runtime/Core/MFSMMachine.cs:186-211 | With the corrected transition, the active path afterwards is the target's leaf path. A transition to the current leaf path changes nothing but the trace. |
| MFSMLayered.FindLayer | MFSM/Runtime/Core/MFSMLayeredMachine.cs:18-26 | The index of the first layer with this id, or None exactly when no layer has it. |
| MFSMLayered.SearchLayer | MFSM/Runtime/Core/MFSMLayeredMachine.cs:20-24 | The forward scan finds FindLayer's index. |
| MFSMLayered.SearchLayerFromEnd | MFSM/Runtime/Core/MFSMLayeredMachine.cs:79-87 | The backward scan finds the last layer with the id, or -1 exactly when no layer has it. |
| MFSMLayered.LayeredMachine.constructor | MFSM/Runtime/Core/MFSMLayeredMachine.cs:9-16 | No layers, the default context, and not started or paused. |
| MFSMLayered.LayeredMachine.SetContext | MFSM/Runtime/Core/MFSMLayeredMachine.cs:54 | Only the context changes. |
| MFSMLayered.LayeredMachine.SetPaused | MFSM/Runtime/Core/MFSMLayeredMachine.cs:16 | Only the paused flag changes. |
| MFSMLayered.LayeredMachine.GetMachine | MFSM/Runtime/Core/MFSMLayeredMachine.cs:18-26 | Null for the empty or an unknown id, otherwise the machine of the first layer with the id. |
| MFSMLayered.LayeredMachine.GetLayerCurrentStateId | MFSM/Runtime/Core/MFSMLayeredMachine.cs:28-32 | "" for the empty or an unknown layer, otherwise that layer's leaf id. |
| MFSMLayered.LayeredMachine.GetCurrentLayersString | MFSM/Runtime/Core/MFSMLayeredMachine.cs:35-48 | "layerId:leafId" for every layer, in order, joined by "\|". |
| MFSMLayered.LayeredMachine.AddLayer | MFSM/Runtime/Core/MFSMLayeredMachine.cs:57-74 | An empty id gives Argument and a null machine ArgumentNull, with no change. Otherwise an existing id keeps its position and gets the new machine, and a new id is appended. Ids stay non-empty and unique. |
| MFSMLayered.AddLayerKeeps | MFSM/Runtime/Core/MFSMLayeredMachine.cs:57-74 | Replacing or appending a layer keeps the ids non-empty and unique. |
| MFSMLayered.LayeredMachine.RemoveLayer | MFSM/Runtime/Core/MFSMLayeredMachine.cs:76-88 | The empty id changes nothing. Otherwise the layers become WithoutLayer: the layer with the id goes, the others keep their order. |
| MFSMLayered.WithoutLayerSpec | MFSM/Runtime/Core/MFSMLayeredMachine.cs:76-88 | An unknown id changes nothing. Otherwise exactly that layer is removed, the others keep their order, and the id is no longer found. |
| MFSMLayered.RemoveAtKeeps | MFSM/Runtime/Core/MFSMLayeredMachine.cs:79-87 | With unique ids, the layer removed from the back is the first layer with its id, and removal keeps the ids valid. |
| MFSMLayered.LayeredMachine.Start | MFSM/Runtime/Core/MFSMLayeredMachine.cs:95-116 | A null context or initial-state map gives ArgumentNull, and no layers gives InvalidOperation; in these cases no machine changes. Otherwise the context is set. When no machine serves two layers, the layers start in order as StartLayers gives. The started flag is set only when every layer started. |
| MFSMLayered.StartLayersSpec | MFSM/Runtime/Core/MFSMLayeredMachine.cs:100-115 | The run passes exactly when every layer's own start passes, and then every machine is as its own start left it. At the first failing layer the run fails with its error: the earlier layers are started, that layer keeps what its failed start did, and the later layers are untouched. |
| MFSMLayered.StartRunPass | MFSM/Runtime/Core/MFSMLayeredMachine.cs:100-115 | A run passes exactly when every step passes, and then each layer holds its step's machine. |
| MFSMLayered.StartRunFail | MFSM/Runtime/Core/MFSMLayeredMachine.cs:100-115 | At the first failing step, the run stops with that step's outcome, and the later layers are untouched. |
| MFSMLayered.LayeredMachine.StartLayerAt | MFSM/Runtime/Core/MFSMLayeredMachine.cs:102-113 | The layer's machine is started with the layer's initial state; a missing or empty entry is InvalidOperation. The start either extends the started prefix or ends the run. |
| MFSMLayered.LayeredMachine.Update | MFSM/Runtime/Core/MFSMLayeredMachine.cs:119-130 | Nothing changes when not started, paused or with a negative delta. Otherwise, when no machine serves two layers, the machines and the context are what RunLayers gives. |
| MFSMLayered.RunLayersOrder | MFSM/Runtime/Core/MFSMLayeredMachine.cs:119-130 | Layer j is updated in the context holding the leaf outputs of layers 0..j-1, written in order. |
| MFSMLayered.LayerOutputsWritten | MFSM/Runtime/Core/MFSMLayeredMachine.cs:121-129 | With distinct ids, afterwards every layer's output is its machine's leaf id, the other outputs are kept, and each layer saw the outputs of all layers before it. |
| MFSMLayered.ApplyOutputsLookup | MFSM/Runtime/Core/MFSMLayeredMachine.cs:126-128 | With distinct ids, each layer's output holds the value written for it. |
| MFSMLayered.LayeredMachine.UpdateLayerAt | MFSM/Runtime/Core/MFSMLayeredMachine.cs:124-128 | The layer's machine gets the context and one update, and its leaf id is the output. Only that machine changes. |
| MFSMLayered.LayeredMachine.TransitionLayerTo | MFSM/Runtime/Core/MFSMLayeredMachine.cs:136-137 | An unknown layer changes no machine. Otherwise the layer's machine does TransitionTo and the others are unchanged. |
| MFSMLayered.LayeredMachine.Reset | MFSM/Runtime/Core/MFSMLayeredMachine.cs:139-145 | Every layer's machine is reset, and the started and paused flags are cleared. |
| MFSMLayered.LayeredMachine.ResetLayerAt | MFSM/Runtime/Core/MFSMLayeredMachine.cs:141-142 | The layer's machine is reset. |
| MFSMBuilder.Builder.constructor | MFSM/Runtime/Core/MFSMBuilder.cs:8-9 | A fresh empty machine and no root id. |
| MFSMBuilder.Builder.AddRootState | MFSM/Runtime/Core/MFSMBuilder.cs:11-19 | A null state gives ArgumentNull. Otherwise the state is registered as a root with no parent, and the builder's root id is set only if unset. On failure nothing changes. |
| MFSMBuilder.Builder.AddState | MFSM/Runtime/Core/MFSMBuilder.cs:21-27 | Registered under the parent, never as a root. Nothing changes on failure. |
| MFSMBuilder.Builder.AddTransition | MFSM/Runtime/Core/MFSMBuilder.cs:29-41 | The machine's AddTransition: the same failure cases and the same added entry. |
| MFSMBuilder.Builder.AddAnyTransition | MFSM/Runtime/Core/MFSMBuilder.cs:43-55 | The machine's AddTransition from "*". |
| MFSMBuilder.Builder.SetRoot | MFSM/Runtime/Core/MFSMBuilder.cs:57-61 | Only the builder's root id changes, and the machine is untouched. |
| MFSMBuilder.Builder.Build | MFSM/Runtime/Core/MFSMBuilder.cs:64-69 | Returns the builder's own machine. A non-empty root id fails with Argument exactly when it is unregistered. Otherwise it becomes the machine's root. If the builder agreed with the machine, nothing changes. |
| RefPools.RefPool.constructor | MPool/Runtime/RefPool/RefPool.cs:23-35 | An empty queue, every counter zero, and the given type. |
| RefPools.NewRefPool | MPool/Runtime/RefPool/RefPool.cs:23-35 | A type that is not poolable gives Argument. Otherwise a fresh, valid, empty pool. |
| RefPools.AfterAcquire | MPool/Runtime/RefPool/RefPool.cs:86-103 | Acquiring keeps the counter balance: used == acquired - released, and added - removed == idle + used. |
| RefPools.RefPool.AcquireAny | MPool/Runtime/RefPool/RefPool.cs:86-103 | The front of the queue, or a fresh object of the pool type when the queue is empty. Counters change as AfterAcquire says. |
| RefPools.RefPool.Acquire | MPool/Runtime/RefPool/RefPool.cs:61-81 | The wrong type gives Argument and no change. Otherwise as AcquireAny. |
| RefPools.AfterRelease | MPool/Runtime/RefPool/RefPool.cs:133-153 | Releasing keeps the counter balance. |
| RefPools.RefPool.Release | MPool/Runtime/RefPool/RefPool.cs:133-153 | Null gives ArgumentNull, another runtime type Argument, and an already queued object InvalidOperation. Each of these changes nothing. Otherwise the object joins the back of the queue. |
| RefPools.RefPool.ReleaseAs | MPool/Runtime/RefPool/RefPool.cs:108-128 | As Release, checking the declared type instead of the runtime type. |
| RefPools.AcquireReleaseRotates | MPool/Runtime/RefPool/RefPool.cs:86-153 | Acquiring an idle object and releasing it moves it from the front to the back and restores the used count. |
| RefPools.AfterReleaseAll | MPool/Runtime/RefPool/RefPool.cs:158-166 | Destroying every idle object keeps the counter balance. |
| RefPools.RefPool.ReleaseAll | MPool/Runtime/RefPool/RefPool.cs:158-166 | The queue is emptied and its length is added to the remove counter. |
| RefPools.RefPool.Expand | MPool/Runtime/RefPool/RefPool.cs:171-185 | A count that is not positive gives ArgumentOutOfRange and no change. Otherwise `count` fresh objects of the pool's type are appended and the add counter grows by `count`: the state is AfterExpand of the old one. |
| RefPools.AfterExpand | MPool/Runtime/RefPool/RefPool.cs:171-185 | Appending the objects made to the queue and counting them as added keeps the counter balance. |
| RefPools.AfterShrink | MPool/Runtime/RefPool/RefPool.cs:190-204 | Removing min(n, idle) objects from the front keeps the counter balance. |
| RefPools.RefPool.Shrink | MPool/Runtime/RefPool/RefPool.cs:190-204 | A count that is not positive gives ArgumentOutOfRange and no change. Otherwise as AfterShrink. |
| RefPools.RefPoolRegistry.constructor | MPool/Runtime/RefPool/RefPoolMgr.cs:11 | No pools. |
| RefPools.RefPoolRegistry.Count | MPool/Runtime/RefPool/RefPoolMgr.cs:16-25 | The number of registered types. |
| RefPools.RefPoolRegistry.GetPool | MPool/Runtime/RefPool/RefPoolMgr.cs:97-113 | A null type gives ArgumentNull. A registered type gives its pool. A new poolable type gets a fresh empty pool, registered. A new type that is not poolable gives Argument, registering nothing. Other pools are untouched. |
| RefPools.RefPoolRegistry.Acquire | MPool/Runtime/RefPool/RefPoolMgr.cs:30-43 | GetPool's errors, otherwise an acquire on the type's pool: the state becomes AfterAcquire of the old one, or of the empty state for a pool created here. The object is the front of a non-empty queue; otherwise it is a fresh object of the type. Other pools are untouched. |
| RefPools.RefPoolRegistry.Release | MPool/Runtime/RefPool/RefPoolMgr.cs:48-55 | Null gives ArgumentNull. Otherwise a release on the pool of the object's runtime type, created if needed. Other pools are untouched. |
| RefPools.RefPoolRegistry.Expand | MPool/Runtime/RefPool/RefPoolMgr.cs:60-75 | A count that is not positive gives ArgumentOutOfRange before any pool is created. Otherwise GetPool's errors, or Pass. An existing pool's state becomes AfterExpand of its old state, and the registry is unchanged. A missing pool is created, registered under the type alone, and reaches AfterExpand of the empty state. Either way `count` fresh objects of the type join the queue, and the other pools are unchanged. |
| RefPools.RefPoolRegistry.ExpandAt | MPool/Runtime/RefPool/RefPoolMgr.cs:74 | `count` fresh objects of the type join the back of the registered pool's queue, and its state becomes AfterExpand of the old one. The registry keeps its invariant and the other pools are unchanged. |
| RefPools.RefPoolRegistry.Shrink | MPool/Runtime/RefPool/RefPoolMgr.cs:80-95 | A count that is not positive gives ArgumentOutOfRange before any pool is created. Otherwise GetPool's errors, or Pass. An existing pool's state becomes AfterShrink of its old state, and the registry is unchanged. A missing pool is created fresh, registered under the type alone, and stays empty. Other pools are unchanged. |
| RefPools.RefPoolRegistry.Clear | MPool/Runtime/RefPool/RefPoolMgr.cs:118-126 | Every pool is released completely, and then the registry is empty. |
| RefPools.RefPoolRegistry.GetAllPoolInfos | MPool/Runtime/RefPool/RefPoolMgr.cs:131-148 | One record per registered type, and each record is that pool's statistics. |
| GOPoolConfigs.GameObjectPoolConfig.constructor | MPool/Runtime/GOPool/GameObjectPoolConfig.cs:8-21 | The asset defaults: no prefab, 10, 100, auto-expand, persistent, and no name. |
| GOPoolConfigs.Validate | MPool/Runtime/GOPool/GameObjectPoolConfig.cs:32-53 | Without a prefab, nothing changes. Otherwise the sizes become sane: the initial size is not negative, and the maximum is unlimited or at least the initial size. Sane sizes are kept, and each change is the least raise that makes the sizes sane. An empty name is filled from the prefab. |
| GOPoolConfigs.ValidateIdempotent | MPool/Runtime/GOPool/GameObjectPoolConfig.cs:32-53 | Validating twice is validating once. |
| GOPoolConfigs.ValidateKeepsPoolName | MPool/Runtime/GOPool/GameObjectPoolConfig.cs:23-53 | Validation does not change the name GetPoolName gives. |
| GOPoolConfigs.GameObjectPoolConfig.ValidateConfig | MPool/Runtime/GOPool/GameObjectPoolConfig.cs:32-53 | The fields become Validate of the old fields, and the flags are kept. |
| GOPools.NewPool | MPool/Runtime/GOPool/GameObjectPool.cs:31-67 | A null prefab gives ArgumentNull. With a configuration, the maximum, auto-expand flag and name come from it. Without one, they are 100, true and the prefab's name. The pool starts empty. |
| GOPools.GameObjectPool.Get | MPool/Runtime/GOPool/GameObjectPool.cs:72-98 | GetStep: the front of the queue (a destroyed entry gives null), or a fresh instance when creation is allowed, or null with no change. Every instance handed out joins the in-use set and counts as spawned. |
| GOPools.GetStepConsistent | MPool/Runtime/GOPool/GameObjectPool.cs:72-98 | Get keeps queued instances out of the in-use set and unique. |
| GOPools.GetRespectsMaxSize | MPool/Runtime/GOPool/GameObjectPool.cs:79-86 | With a positive maximum, Get creates only below the maximum and only from an empty queue. |
| GOPools.GameObjectPool.Return | MPool/Runtime/GOPool/GameObjectPool.cs:103-121 | ReturnStep: an instance in use moves to the back of the queue and counts as returned. Anything else is refused with no change. |
| GOPools.ReturnStepConsistent | MPool/Runtime/GOPool/GameObjectPool.cs:103-121 | Return keeps the queue and in-use set consistent. |
| GOPools.GetThenReturn | MPool/Runtime/GOPool/GameObjectPool.cs:72-121 | An instance created by Get and returned is accepted and becomes the only available one, with both counters up by one. |
| GOPools.PrewarmCount | MPool/Runtime/GOPool/GameObjectPool.cs:126-138 | None for a count that is not positive. The count itself when the maximum is unlimited. Otherwise the smaller of the count and the maximum. |
| GOPools.GameObjectPool.Prewarm | MPool/Runtime/GOPool/GameObjectPool.cs:126-138 | PrewarmCount fresh instances are appended and counted as created, whatever the creation count already was. |
| GOPools.GameObjectPool.Clear | MPool/Runtime/GOPool/GameObjectPool.cs:143-164 | Both collections are emptied and the creation count is reset to 0; the spawn and return counters are kept. |
| GOPools.ShrinkCount | MPool/Runtime/GOPool/GameObjectPool.cs:169-184 | The number removed is the excess over the target, all of the queue for a negative target, and none when the target is not below the queue length. |
| GOPools.GameObjectPool.Shrink | MPool/Runtime/GOPool/GameObjectPool.cs:169-184 | The front ShrinkCount entries are destroyed, and the removed live instances no longer count as created. |
| GOPools.ShrinkToTarget | MPool/Runtime/GOPool/GameObjectPool.cs:169-184 | After Shrink the queue length is min(length, max(target, 0)), and shrinking again to the same target changes nothing. |
| GOPools.GameObjectPool.CreateNewObject | MPool/Runtime/GOPool/GameObjectPool.cs:186-195 | A fresh instance of the prefab numbered by the old creation count, and the creation count grows by one. |
| GOPoolManagers.GameObjectPoolManager.GetOrCreatePool | MPool/Runtime/GOPool/GameObjectPoolManager.cs:144-156 | An existing pool is returned as it is. A new pool is built from the stored configuration, validated first, or with the defaults when none is stored. A stored null configuration gives NullReference. Existing pools are untouched. |
| GOPoolManagers.GameObjectPoolManager.Get | MPool/Runtime/GOPool/GameObjectPoolManager.cs:31-41 | A null prefab gives null. A stored null configuration gives NullReference, exactly when the prefab has no pool yet. Otherwise a GetStep on the prefab's pool, where a created instance is fresh, of the prefab, and numbered by the old creation count. An existing pool leaves the registry and the configuration unchanged. A new pool is fresh and registered under the prefab alone. Its maximum, expansion flag and name come from the stored configuration, itself validated in place, or default to 100, true and the prefab's name. Other pools are untouched. |
| GOPoolManagers.GameObjectPoolManager.Return | MPool/Runtime/GOPool/GameObjectPoolManager.cs:49-59 | False for a null argument or a prefab without a pool, and no pool is created. Otherwise the pool's Return. |
| GOPoolManagers.GameObjectPoolManager.Prewarm | MPool/Runtime/GOPool/GameObjectPoolManager.cs:66-72 | A null prefab is ignored. A stored null configuration gives NullReference, exactly when the prefab has no pool yet. Otherwise the prefab's pool gains PrewarmCount new instances at the back of its queue, counted as created. Each is fresh, non-null, of the prefab, and numbered in order from the old creation count. The new-pool case is as for Get: fresh, registered under the prefab alone, with the validated configuration's settings or the defaults. Other pools are untouched. |
| GOPoolManagers.GameObjectPoolManager.SetPoolConfig | MPool/Runtime/GOPool/GameObjectPoolManager.cs:79-84 | Stores the configuration for the prefab (a null prefab is ignored). Pools are untouched. |
| GOPoolManagers.GameObjectPoolManager.DestroyPool | MPool/Runtime/GOPool/GameObjectPoolManager.cs:90-101 | A null or unknown prefab changes nothing. Otherwise its pool is cleared, and the pool and its configuration are forgotten. Other pools are untouched. |
| GOPoolManagers.GameObjectPoolManager.ClearAllPools | MPool/Runtime/GOPool/GameObjectPoolManager.cs:106-112 | Every pool is cleared, and both maps are then empty. |
| GOPoolManagers.GameObjectPoolManager.GetPoolInfo | MPool/Runtime/GOPool/GameObjectPoolManager.cs:119-133 | None exactly for a null prefab or one without a pool. Otherwise the pool's name and its five counts. |
| GOPoolManagers.GameObjectPoolManager.GetAllPoolInfos | MPool/Runtime/GOPool/GameObjectPoolManager.cs:139-142 | One record per pool, and each record is that pool's GetPoolInfo. |
| AudioPools.Configure | MAudio/Runtime/AudioSourcePool.cs:189-221 | The priority is the type's. Music and ambience always loop; the other types loop only when the configured default does. Only interface sounds are forced to 2D. |
| AudioPools.PriorityRanks | MAudio/Runtime/AudioSourcePool.cs:198-213 | Distinct types get distinct priorities, ordered Music, Voice, UI, Effect, Ambient. |
| AudioPools.AudioSourcePool.constructor | MAudio/Runtime/AudioSourcePool.cs:58-88 | A null configuration gives the defaults (10, 50, true, false). Each type then holds `defaultPoolSize` idle sources of that type, with its settings, unused and counted. Every idle source's loop flag is the one ConfigureAudioSource gives its type. |
| AudioPools.AudioSourcePool.InitializePools | MAudio/Runtime/AudioSourcePool.cs:68-88 | Every type is initialised in enumeration order, with the idle sources the constructor row describes, loop flags included. |
| AudioPools.AudioSourcePool.CreateNewSource | MAudio/Runtime/AudioSourcePool.cs:173-187 | A fresh source of the type, numbered by the old count and configured for the type, is queued as idle, and the count grows by one. |
| AudioPools.AudioSourcePool.GetSource | MAudio/Runtime/AudioSourcePool.cs:90-122 | GetStep as written for the type, and only that type changes. A source created because the queue was empty is fresh, of the type, numbered by the old count, and configured for the type, with its loop flag the configured one. |
| AudioPools.GetRespectsMax | MAudio/Runtime/AudioSourcePool.cs:100-113 | GetSource creates at most one source, and only from an empty queue below the maximum. With an empty queue and no room, it returns null and changes nothing. |
| AudioPools.GetStepTallied | MAudio/Runtime/AudioSourcePool.cs:90-122 | The count stays the number of distinct sources held. |
| AudioPools.Returned | MAudio/Runtime/AudioSourcePool.cs:124-144 | A used source moves to the back of the idle queue. Null or a source not in use changes nothing, and the count is kept. |
| AudioPools.AudioSourcePool.ReturnSource | MAudio/Runtime/AudioSourcePool.cs:124-144 | The type's bookkeeping becomes Returned, and the other types are unchanged. A returned source's loop flag is reset to the configured default, as ResetAudioSource does. A null source or one not in use is left unchanged. |
| AudioPools.GetThenReturnRotates | MAudio/Runtime/AudioSourcePool.cs:100-144 | While no source is both idle and used, handing out the front idle source and returning it moves it to the back and restores the used set. |
| AudioPools.ReturnedKeepsApart | MAudio/Runtime/AudioSourcePool.cs:124-144 | Returning keeps the idle sources distinct and out of the used set. |
| AudioPools.AudioSourcePool.StopAllOfType | MAudio/Runtime/AudioSourcePool.cs:147-155 | The used set becomes empty and the count is kept. The old idle queue is a prefix of the new one, and the queue holds the old idle and used sources exactly. Every source that was in use has its loop flag reset to the configured default. |
| AudioPools.AudioSourcePool.GetPoolInfo | MAudio/Runtime/AudioSourcePool.cs:158-171 | One record per type in enumeration order, with its idle count, used count and total. |
| AudioPools.TotalAtMostIdlePlusUsed | MAudio/Runtime/AudioSourcePool.cs:158-171 | The reported total never exceeds the idle and used counts together. |
| AudioPools.AudioSourcePool.ClearPool | MAudio/Runtime/AudioSourcePool.cs:233-251 | Every type's bookkeeping is emptied and the count reset to zero. |
| AudioPools.ExpandedSourceHandedOutTwice | MAudio/Runtime/AudioSourcePool.cs:104-121 | As written, a source created by GetSource is both used and idle, so the next GetSource hands out the same source again. |
| AudioPools.IntendedGetKeepsApart | MAudio/Runtime/AudioSourcePool.cs:100-121 | With the corrected GetSource, a source handed out is used and not idle, it was not in use before, and sources stay apart. |

## Left out

- Concurrency and locks:
  - the `lock` statements of RefPool and RefPoolMgr are not modelled;
  - every operation is one atomic step.
- Logging, `Debug.Log` messages and `LogPoolStatus` are not modelled.
- Events and callbacks: the machine's `OnStateEntered`/`OnStateExited` events and the state callbacks are one ghost trace.
  - The GO pool and manager events, `IRefPoolable` and `IGameObjectPoolable` callbacks are not modelled.
- Engine calls are not modelled:
  - `SetActive`, transforms and parents, and `DontDestroyOnLoad`;
  - object names (only the creation number is kept);
  - `customParent`, and the pool parent object destroyed by `Dispose`;
  - `OnDestroy` of the manager.
- Floating-point audio settings are not modelled.
  - The settings of ConfigureAudioSource are kept as priority, loop and whether only 2D is allowed.
  - Volume, pitch, rolloff, distances and the spatial blend value are out.
  - Of ResetAudioSource's property writes only the loop flag is kept. The clip, volume, pitch, playback time and `Stop` are out.
- Unity's destroyed-object null:
  - a GameObject destroyed outside its pool is a null entry of the GO pool queue;
  - audio sources destroyed outside the pool are not modelled;
  - a prefab destroyed while its pool is registered is not modelled. For such a key, `GetPoolInfo` returns null, since Unity's `==` makes the prefab compare equal to null (GameObjectPoolManager.cs:121). `GetAllPoolInfos` then drops that record (:141), so it can return fewer records than there are pools. The model's prefabs are never destroyed, and `GameObjectPoolManager.GetAllPoolInfos` returns one record per pool.
- `MFSMMachine.Machine.AddTransition`: the order among equal priorities after `List.Sort` (an unstable sort) is not specified. The contract gives sortedness and the exact multiset of entries.
- `MFSMLayered.LayeredMachine.Start`, `Update`: layer-by-layer results are proved when no machine serves two layers. With a shared machine only the frame and the flags are stated.
- `GetAllPoolInfos` (both registries): the order of records follows dictionary enumeration, which is left unspecified.
- `AudioPools.AudioSourcePool.StopAllOfType`: the order in which the used sources join the queue is the enumeration order of a HashSet. The contract gives the queue as a multiset.
- `AudioPools.AudioSourcePool.GetSource`: the unknown-type branch cannot be reached, because a source type is an enumeration here.
- The try/catch of InitializePools is not modelled, since no modelled step throws.
- `AudioPools.AudioSourcePool.ClearPool` removes every source, destroyed or not. `Dispose` is ClearPool followed by engine calls.
- Machines and layers are identified by reference. Layer contexts are one record of an opaque token and a map of layer outputs.
  - `IMFSMLayeredContext` is not part of this model. `SetLayerOutput` is a map write.
- Integers are unbounded. C# `int` overflow of the counters is outside the model.
- A null parent id and an empty one are the same here, as the source treats both the same way.
- Null string ids are not modelled. The source treats a null id like "" through `IsNullOrEmpty`, except in `GetPathToState` and `GetPathToLeaf` (MFSMMachine.cs:242, 267). There the null id reaches `Dictionary.TryGetValue`, which throws ArgumentNullException.
- `MFSMMachine.Machine.Update` takes the conditions as an oracle. A condition's side effects on the context are not modelled.

## Findings

| source | as written | input that shows it | evidently intended | confidence | as-written member | corrected member |
|---|---|---|---|---|---|---|
| MFSM/Runtime/Core/MFSMMachine.cs:204-210 | PerformTransition clears the whole active path, then re-adds only the target states past the common prefix. | Transition from Root/A to Root/B: Root drops from the path without exiting. A forced transition to the current state leaves a started machine with an empty path, so every later Update returns at once. | The states of the common prefix stay on the path, and the target states past it are appended. | high, not executed | MFSMMachine.TransitionToCurrentEmptiesPath | MFSMMachine.IntendedTransitionReachesTarget |
| MAudio/Runtime/AudioSourcePool.cs:104-121 | When the idle queue is empty, GetSource calls CreateNewSource, which enqueues the new source as idle (line 181). GetSource then also adds it to the used set (line 117). | Empty idle queue with auto-expansion on: two GetSource calls return the same source, although the first caller still uses it. | A created source goes only to the used set. | high, not executed | AudioPools.ExpandedSourceHandedOutTwice | AudioPools.IntendedGetKeepsApart |
