# ilurl core, modelled in Dafny

ilurl wraps a traffic simulator (SUMO, driven through the Flow framework) to run
reinforcement-learning experiments on signalised road networks. This project models the
data-mapping core of that code and proves what it promises:

- **Network views** (`networks.dfy`, module `Networks`): the `Network` object's
  `tls_ids`, `approaches`, `states`, `durations` and `phases` properties over node, edge
  and connection records and the registered signal programs. The class keeps one cache
  field per view, and every method states the view it returns and the new cache state.
  `phases` keeps its two nested loops. These are the loop over traffic lights and the
  loop over states with the dense counter `i`. The file also models the horizon that
  `Network.load` reads off a route file name.
- **Signal programs** (`traffic_lights.dfy`, module `TrafficLights`): the reshaping of
  `tlLogic` records into traffic-light registrations. Both wrappers' constructors share
  it. It covers `id` and `type` popped, `tls_type` set and `programID` shifted by one.
- **Scenario data layer** (`scenarios.dfy`, module `Scenarios`): `get_path`,
  `get_generic_element` (kept as its append loop), `get_routes` (distinct routes grouped
  by first edge with probability 1/n) and `get_edges` (lanes folded into maximum speed,
  maximum length and lane count, one edge dictionary rewritten at a time).
- **Rollout merge** (`rollouts.dfy`, module `Rollouts`): `concat`, which pops `id` and
  `rollout` from each evaluation in the caller's array. It registers experiments in
  order of first appearance. Scalar fields must agree across all evaluations. List and
  dictionary fields are collected under `[experiment index][rollout]`.
- **Experiment runner** (`experiment.dfy`, module `Experiments`): the constructor's
  validation and `save_step`, and the `_is_save_step`, `_is_save_q_table` and
  `_is_swap_q_table` tests. It also models `run`'s bookkeeping: two nested loops that keep
  five per-run lists in lock-step, buffer vehicle counts and speeds between save steps,
  call at most one Q hook per step and stop a run on `done`.
- Supporting modules:
  - `Records`: parsed XML elements, attribute maps and the dictionaries the wrappers build.
  - `PyText`: Python's `str.split`/`join`, `int()`/`str()` on integers, negative indexing,
    string order and `sorted(set(...))`.
  - `Seqs`: filtering, de-duplication by first appearance, and map and fold with a first
    error.
  - `Wrappers`: `Option` and `Result`.

Python exceptions become `Failure` values of a per-module error datatype. Dictionaries
whose insertion order the code exposes are association lists. These are the `links`
table of `phases`, the evaluations and the per-experiment `defaultdict`s of `concat`. The
merged result of `concat` is a map from field to slot, next to its `id` list.

Behaviour of the code worth noting:

- A node that is not a traffic light has no entry in `phases`, `states` or `durations`,
  so indexing one raises `KeyError`.
- A traffic light without a registered program makes `states` and `durations` raise
  `KeyError`. The model requires the program to be present.
- The edges of a phase are the `from` edges of the connections the node controls. The
  code does not compare them with the node's approaches.
- `concat` builds one merged object whose `id` field lists the experiments in order of
  first appearance.
- `get_edges` always reads the `intersection` network, whatever `network_id` it is given.

## Model

| member | source | states |
|---|---|---|
| Networks.TlsIdsSpec | ilurl/networks/base.py:344-347 | `tls_ids` is exactly the ids of the nodes whose `type` is `traffic_light`, in node order |
| Networks.Network.TlsIds | ilurl/networks/base.py:344-347 | returns the traffic-light ids of the current records on every call, because the cache it writes (`cached_tls_ids`) is not the one it tests; it changes no other cache |
| Networks.IncomingSpec | ilurl/networks/base.py:210-213 | a traffic light's approaches are exactly the ids of the edges whose `to` is that node, in edge order |
| Networks.Network.Approaches | ilurl/networks/base.py:208-215 | returns, for every traffic light, its incoming edges; the first access fills the cache and later accesses return the cached value unchanged |
| Networks.StateList | ilurl/networks/base.py:289-294 | a default program (`static`, `programID` 1) yields its phases' `state` strings one for one, in order; any other program yields none |
| Networks.DurationList | ilurl/networks/base.py:321-326 | a default program yields `int()` of each phase's `duration`, one for one, in order, and fails (`ValueError`) exactly when `int()` rejects one of them; any other program yields an empty list |
| Networks.DurationListRoundTrip | ilurl/networks/base.py:325 | durations written by `str()` read back as the same integers |
| Networks.DurationsOfFails | ilurl/networks/base.py:318-328 | `durations` raises exactly when some traffic light's default program has a duration `int()` rejects |
| Networks.DurationsMatchStates | ilurl/networks/base.py:318-328 | when `durations` does not raise, `durations[nid]` has the same length as `states[nid]`, and entry j of each comes from phase j of the same program |
| Networks.Network.States | ilurl/networks/base.py:286-296 | returns every traffic light's default-program states; computed once, then returned from the cache |
| Networks.Network.Durations | ilurl/networks/base.py:318-328 | returns every traffic light's default-program durations, or fails where `int()` raises; a result is computed once and then returned from the cache, and a failure leaves the cache empty |
| Networks.PutSpec | ilurl/networks/base.py:256-257 | storing a link index keeps every entry under another index, holds the new pair, grows the table by at most one entry and keeps the indices unique |
| Networks.LinksUnique | ilurl/networks/base.py:256-257 | the link table has no link index twice |
| Networks.LinksFrom | ilurl/networks/base.py:256-257 | every link-table entry pairs a connection's link index with that connection's `from` edge |
| Networks.LinksCover | ilurl/networks/base.py:256-257 | every connection's link index has an entry in the link table (a later connection overwrites an earlier one) |
| Networks.GreenEdgesSpec | ilurl/networks/base.py:261-262 | a state's components are exactly the edges of the links that show `G` or `g` in it (both directions) |
| Networks.GreenEdgesEmpty | ilurl/networks/base.py:261-264 | a state has components exactly when some linked position shows `G` or `g` |
| Networks.NoGreen | ilurl/networks/base.py:261-264 | a state with no `G` or `g` contributes no phase |
| Networks.PhaseListSnoc | ilurl/networks/base.py:260-266 | one more state adds the sorted set of its green edges as the next phase when that set is non-empty, and nothing otherwise |
| Networks.PhaseListSpec | ilurl/networks/base.py:260-266 | there are no more phases than states, and every phase is non-empty, strictly ascending and made of edges of links green in some state |
| Networks.NodePhasesSpec | ilurl/networks/base.py:253-266 | `phases[nid]` has keys exactly `0..k-1` with `k` at most the number of states; each value is non-empty, sorted without repeats, and holds only `from` edges of connections with `tl == nid` that carry a `linkIndex` |
| Networks.GreenThenYellow | ilurl/networks/base.py:260-266 | a green state followed by a yellow-only state adds exactly one phase, that of the green state |
| Networks.GreenYellowCycle | ilurl/networks/base.py:260-266 | a green, yellow, green, yellow cycle gives exactly phases 0 and 1, from the first and third states |
| Networks.GreenPhase | ilurl/networks/base.py:261-265 | a state's phase is `p` when its green links come exactly from the edges of the ascending list `p` |
| Networks.IntersectionFirstGreen | ilurl/networks/base.py:233 | over an assumed ten-link connection table, `GGrrrGGrrr` gives the documented phase 0, approaches `-238059324` and `383432312` |
| Networks.IntersectionSecondGreen | ilurl/networks/base.py:234 | over an assumed ten-link connection table, `rrGGGrrGGG` gives the documented phase 1, approaches `-238059328` and `309265401` |
| Networks.IntersectionPhases | ilurl/networks/base.py:232-234 | over an assumed ten-link connection table, the four states `GGrrrGGrrr`, `yyrrryyrrr`, `rrGGGrrGGG`, `rryyyrryyy` give exactly the two documented phases |
| Networks.IndexedSnoc | ilurl/networks/base.py:265-266 | storing a phase under the counter `i` and incrementing it is appending the phase to the list of phases |
| Networks.PhasesOfSnoc | ilurl/networks/base.py:251-253 | handling one more traffic light adds its phases under its id and changes no other entry |
| Networks.Network.NodeLoop | ilurl/networks/base.py:253-266 | the per-node loop, with its counter `i`, builds exactly the dictionary of dense phase indices to phases that `NodePhasesSpec` describes |
| Networks.Network.NodesLoop | ilurl/networks/base.py:251-266 | the loop over traffic lights gives each one its phases under its id |
| Networks.Network.Phases | ilurl/networks/base.py:247-267 | returns every traffic light's phases; computed once, then returned from the cache; reads `states` (and fills its cache) only when there is a traffic light |
| Networks.Network.constructor | ilurl/networks/base.py:160-163 | a new network holds its records and has every derived view uncached, with all caches consistent |
| Networks.HorizonRoundTrip | ilurl/networks/base.py:92 | a route file name whose fourth-from-last dot-separated field is the decimal text of `h` gives horizon `h`; a name with fewer than four fields has none |
| TrafficLights.IntOf | ilurl/networks/base.py:147 | `int()` parses decimal text, returns an integer unchanged, truncates a float toward zero, and rejects a list of child records |
| TrafficLights.IntOfRoundTrip | ilurl/networks/base.py:147 | `int()` reads back an integer written by `str()` and a whole float as that integer |
| TrafficLights.ReshapeSpec | ilurl/networks/base.py:144-148 | a program record is registered under its `id`, with `tls_type` = its `type`, `programID` = parsed value + 1, and all other fields except `id` and `type` unchanged; a record lacking `id`, `type` or `programID` fails on the first missing one, and a `programID` `int()` rejects fails |
| TrafficLights.FileDefaultIsSelected | ilurl/networks/base.py:145-147 | a file's static program with `programID` 0 is registered as the static program 1 that `states` and `durations` select, with its phases |
| TrafficLights.RegisterPrograms | ilurl/networks/base.py:140-150 | the registration loop registers the programs one by one, in order, and stops at the first record that raises |
| TrafficLights.RegistrationsSpec | ilurl/scenarios/base.py:221-227 | registration succeeds exactly when every record reshapes, then registers them one for one in order; otherwise it reports the first failing record's error |
| Scenarios.GetPath | ilurl/scenarios/base.py:26-28 | the path is `DIR + id + '/' + id + '.' + type + '.xml'` for a relative id; an absolute id discards `DIR`, as `os.path.join` does |
| Scenarios.GetPathSeparatesFileTypes | ilurl/scenarios/base.py:26-28 | one network's files of different types never share a path |
| Records.FindChildren | ilurl/scenarios/base.py:46 | `findall` with a one-tag path returns exactly the children that carry the tag, in document order |
| Scenarios.GenericElements | ilurl/scenarios/base.py:41-57 | a missing file yields the empty list |
| Scenarios.KeptSpec | ilurl/scenarios/base.py:46-47 | the elements kept are exactly those found without the `ignore` attribute, in document order |
| Scenarios.KeptIsFilter | ilurl/scenarios/base.py:46-47 | the kept elements are the found ones filtered by the absence of the `ignore` attribute |
| Scenarios.EmitShape | ilurl/scenarios/base.py:48-55 | the entry emitted for an element is the key's value exactly when the element has the key; otherwise its attribute map, plus the children's attribute maps under `child_key + 's'` when a child tag is given |
| Scenarios.GenericElementsSpec | ilurl/scenarios/base.py:44-55 | one entry per element found and not ignored, in document order; the key's value when the element has the key, otherwise its attribute map, plus its children's attribute maps under `child_key + 's'` when a child tag is given |
| Scenarios.AppendEntry | ilurl/scenarios/base.py:47-55 | appending an element and then rewriting the last entry adds exactly that element's entry |
| Scenarios.GetGenericElement | ilurl/scenarios/base.py:41-57 | the extraction loop returns exactly the entries `GenericElementsSpec` describes |
| Scenarios.RouteStrings | ilurl/scenarios/base.py:91-96 | the route strings are the entries' values one for one; `set()` fails exactly when some entry is a dictionary |
| Scenarios.Routes | ilurl/scenarios/base.py:91-107 | `get_routes` fails exactly when some extracted entry is a dictionary (a `route` without `edges`) |
| Scenarios.UniqueSpec | ilurl/scenarios/base.py:96 | the distinct route strings become distinct routes, every route string is among them, and nothing else is |
| Scenarios.EquiprobableTotal | ilurl/scenarios/base.py:105 | a group's probabilities add up to exactly one |
| Scenarios.GroupMembers | ilurl/scenarios/base.py:102 | a group holds exactly the routes that leave from its edge |
| Scenarios.DistributeGroup | ilurl/scenarios/base.py:99-105 | the group of a first edge is non-empty, holds only distinct routes from that edge, each with probability 1/n, and sums to one |
| Scenarios.DistributePlaces | ilurl/scenarios/base.py:99-105 | every route sits in the group of its first edge |
| Scenarios.TableSpec | ilurl/scenarios/base.py:96-105 | the table has one key per first edge of a route; each group is as `DistributeGroup` says; every route string appears in the group of its first edge and, since groups hold only their own edge's routes, in no other |
| Scenarios.RoutesSpec | ilurl/scenarios/base.py:91-107 | `get_routes` over the extracted route strings satisfies `TableSpec` |
| Scenarios.Floats | ilurl/scenarios/base.py:162-163 | the parsed lane values in lane order, or the error of the first lane that lacks the attribute or does not parse |
| Scenarios.MaxOf | ilurl/scenarios/base.py:162-163 | `max` returns one of the values, and none is larger |
| Scenarios.Summary | ilurl/scenarios/base.py:161-165 | an edge's summary succeeds exactly when it has lanes and every lane has a parsable speed and length; with parsable speeds and no lanes it fails as `max` of an empty list |
| Scenarios.FloatsLargest | ilurl/scenarios/base.py:162-163 | the maximum of the parsed values is the largest lane value and belongs to some lane |
| Scenarios.SummaryFields | ilurl/scenarios/base.py:161-165 | a summarised edge keeps its other fields, has `speed` and `length` the largest lane values and `numLanes` the lane count, and has no `lanes` |
| Scenarios.SummarizeEdge | ilurl/scenarios/base.py:162-165 | rewriting one edge dictionary statement by statement gives exactly its summary or the first statement's error |
| Scenarios.EdgeEntries | ilurl/scenarios/base.py:158-159 | every extracted edge entry is a dictionary holding its lanes |
| Scenarios.EdgesSpec | ilurl/scenarios/base.py:158-166 | `get_edges` succeeds exactly when every edge's summary does, then returns the summaries one for one; otherwise it reports the first failing edge's error |
| Scenarios.SummarizeEdges | ilurl/scenarios/base.py:161-166 | the loop rewrites the edges in place, one by one, and stops at the first that raises |
| Scenarios.GetEdges | ilurl/scenarios/base.py:158-166 | `get_edges` returns exactly what `EdgesSpec` describes, whatever network id it is given |
| Rollouts.Get | jobs/rollouts.py:59-60 | a lookup succeeds exactly when the key is present, and returns a value stored under it |
| Rollouts.GetUnique | jobs/rollouts.py:59-60 | in a dictionary, the lookup returns the one value stored under the key |
| Rollouts.PopMembers | jobs/rollouts.py:59-60 | popping a key keeps exactly the entries under other keys |
| Rollouts.GetPop | jobs/rollouts.py:59-60 | popping `id` leaves the lookup of `rollout` unchanged |
| Rollouts.PopIsDict | jobs/rollouts.py:59-60 | popping from a dictionary leaves a dictionary |
| Rollouts.Register | jobs/rollouts.py:63-64 | after registering, the experiment id is in the list |
| Rollouts.RegisterKeeps | jobs/rollouts.py:63-66 | registering an experiment keeps the earlier ones at their indexes and adds none twice |
| Rollouts.StepIds | jobs/rollouts.py:59-66 | a successful outer pass registers the evaluation's `id` and changes the experiment list in no other way |
| Rollouts.AppendRun | jobs/rollouts.py:82 | `runs[q].append(v)` grows only the list under `q`, by `v` at its end, and leaves no list empty |
| Rollouts.PutField | jobs/rollouts.py:67-82 | the inner loop's body stores or checks a scalar field, or appends a collected value under its experiment and rollout, with the errors the code raises |
| Rollouts.PutFields | jobs/rollouts.py:67-82 | the inner loop puts every field of an evaluation in order and stops at the first error |
| Rollouts.Absorb | jobs/rollouts.py:58-82 | one outer pass merges one evaluation; on success the evaluation has lost exactly `id` and `rollout`, and on failure at most those |
| Rollouts.Concat | jobs/rollouts.py:41-83 | `concat` merges the evaluations in order and stops at the first error; after a success each evaluation in the caller's array has lost exactly `id` and `rollout`, and whatever the outcome none has lost more |
| Rollouts.ConcatIds | jobs/rollouts.py:63-66 | a successful merge needs an `id` in every evaluation and lists each distinct id exactly once, in order of first appearance |
| Rollouts.ConcatIdsKnown | jobs/rollouts.py:63-66 | after a successful merge the experiment list has no repeats and holds every evaluation's id |
| Rollouts.PutKinds | jobs/rollouts.py:67-82 | one field put keeps every stored scalar and every collecting field, and records the kind of this field |
| Rollouts.PutAllKinds | jobs/rollouts.py:67-82 | putting an evaluation's fields keeps every stored scalar and every collecting field, and records each field's kind |
| Rollouts.ConcatKinds | jobs/rollouts.py:71-78 | after a successful merge every scalar field holds the value each evaluation gave it, and every collected field collects |
| Rollouts.ConcatConflicts | jobs/rollouts.py:71-76 | two evaluations giving a scalar field different values make the merge fail, even for different experiments; so does a field that is scalar in one evaluation and collected in another |
| Rollouts.Collected | jobs/rollouts.py:68 | an evaluation contributes a value to field `k` exactly when its value for `k` is a list or a dictionary |
| Rollouts.ContribsAbsent | jobs/rollouts.py:79-82 | evaluations of other experiments add nothing to an experiment's lists |
| Rollouts.PutRunsAt | jobs/rollouts.py:79-82 | one field put appends a collected value to exactly one list, that of its field, experiment index and rollout |
| Rollouts.PutAllRuns | jobs/rollouts.py:79-82 | putting an evaluation's fields appends each collected value under its field, experiment index and rollout, and changes no other list |
| Rollouts.StepRuns | jobs/rollouts.py:58-82 | a successful outer pass keeps earlier experiment indexes and appends the evaluation's collected values under its experiment and rollout only |
| Rollouts.RunsSnoc | jobs/rollouts.py:58-82 | one more merged evaluation keeps every list equal to what the evaluations so far gave it |
| Rollouts.ConcatRuns | jobs/rollouts.py:79-82 | after a successful merge, `result[k][e][q]` holds exactly the values the evaluations of experiment `e` and rollout `q` gave `k`, in input order |
| Rollouts.EarlierExperimentsCollected | jobs/rollouts.py:80-82 | a field collects for an experiment only if it collects for every earlier experiment; a merge where an earlier experiment lacks a collected field that a later one carries does not succeed |
| Experiments.New | ilurl/core/experiment.py:83-98 | validation without policies fails; otherwise `save_step * sim_step` is the cycle time (1 without one), and the experiment keeps its environment, mode, directory, policies and cycle |
| Experiments.IsSaveStep | ilurl/core/experiment.py:255-258 | with a cycle time, it holds exactly when the cycle `duration` is zero; without one it raises |
| Experiments.PyMod | ilurl/core/experiment.py:261 | Python's float `%`: the remainder has the divisor's sign, is smaller than it, and is zero exactly for a whole quotient |
| Experiments.AtQInterval | ilurl/core/experiment.py:261 | the step counter is a whole multiple of 100 save steps; a zero save step raises |
| Experiments.IsSaveQTable | ilurl/core/experiment.py:260-263 | holds exactly at the Q interval in training mode with a `dump` method and a directory set |
| Experiments.IsSwapQTable | ilurl/core/experiment.py:265-268 | holds exactly at the Q interval in validation mode, and never together with the save test |
| Experiments.DumpName | ilurl/core/experiment.py:199-200 | the snapshot name starts with the network's name and `.Q.` and ends with `.pickle` |
| Experiments.DumpNameInjective | ilurl/core/experiment.py:198-200 | two snapshots of one network get the same file name only when they have the same run and the same snapshot number |
| PyText.Trunc | ilurl/core/experiment.py:198 | `int()` of a float truncates toward zero: the result is within one of the float, on the zero side |
| Experiments.StepOnce | ilurl/core/experiment.py:171-208 | one step records `done` as soon as the environment reports it, and a validated experiment never hits `len(None)` |
| Experiments.StepSaves | ilurl/core/experiment.py:181-191 | at a save step the five lists each gain the step's entry and the buffers are emptied |
| Experiments.StepBuffers | ilurl/core/experiment.py:173-179 | at any other step the five lists are unchanged and the buffers gain the step's count and speed |
| Experiments.StepLockStep | ilurl/core/experiment.py:181-191 | a step keeps the five lists the same length |
| Experiments.StepHooks | ilurl/core/experiment.py:193-208 | a `done` step calls no hook; otherwise the dump, named by run and `int(j / save_step) + 1`, when the save test holds, else the swap when the swap test holds and the run has a policy |
| Experiments.StepsShape | ilurl/core/experiment.py:171-208 | within a run the lists stay in lock-step, hold at most one entry per step, the buffers hold only steps since the last save, and every hook is one the mode allows, at most one per step |
| Experiments.StepsDone | ilurl/core/experiment.py:193-194 | a run reports `done` exactly when some step so far returned `done` |
| Experiments.StopsAtDone | ilurl/core/experiment.py:171-194 | after a step that returns `done`, further iterations change nothing |
| Experiments.NoHookOnDone | ilurl/core/experiment.py:193-197 | a step that returns `done` adds no hook |
| Experiments.StepsHavePolicies | ilurl/core/experiment.py:206-208 | a constructed experiment's run never fails on a missing policy list |
| Experiments.TakeStep | ilurl/core/experiment.py:172-208 | the loop body buffers, saves, stops or calls a hook exactly as `StepOnce` says |
| Experiments.RunSteps | ilurl/core/experiment.py:171-208 | the step loop of one run gives the state after at most `num_steps` steps, stopping on `done` or the first error |
| Experiments.StepsFailSticks | ilurl/core/experiment.py:171-208 | an exception in a step ends the run with that error |
| Experiments.Count | ilurl/core/experiment.py:159 | `range(n)` runs `n` iterations, none for a negative `n` |
| Experiments.RunSpec | ilurl/core/experiment.py:137-251 | `run` refuses a csv conversion without an emission path before any step; after runs that complete, a csv conversion with a non-empty emission path fails on the misspelt attribute at line 247; so it succeeds only without a csv conversion or with an empty emission path, and then with the outcome of the runs |
| Experiments.RunsShape | ilurl/core/experiment.py:210-227 | after `k` runs each outer list has `k` entries, entry `i` holding run `i`'s list, and the result names the network, the cycle and the save step |
| Experiments.RunsSnoc | ilurl/core/experiment.py:210-214 | one more run appends its five lists to the outer lists and its hooks to the hooks, or fails with its error |
| Experiments.RunsFailSticks | ilurl/core/experiment.py:159-214 | an exception in a run ends `run` with that error |
| Experiments.NoCycleFails | ilurl/core/experiment.py:255-258 | without a cycle time, a run with at least one step fails at its first save-step test |
| Experiments.Run | ilurl/core/experiment.py:106-253 | `run` returns exactly the outcome `RunSpec` describes: `num_runs` runs of at most `num_steps` steps, with the per-run lists collected, then the failing csv conversion when one is asked for |
| PyText.SplitJoin | ilurl/networks/base.py:92 | splitting a join of separator-free pieces gives the pieces back |
| PyText.JoinSplit | ilurl/scenarios/base.py:96 | joining the pieces of a split gives the string back |
| PyText.ParseIntRoundTrip | ilurl/networks/base.py:92 | `int(str(n)) == n` for every integer |
| PyText.SortedUnique | ilurl/networks/base.py:265 | `sorted(set(xs))` is strictly ascending and holds exactly the values of `xs` |
| PyText.StrictlySortedUnique | ilurl/networks/base.py:265 | a strictly ascending list is fixed by its values, so `sorted(set(xs))` is the only such arrangement |
| Seqs.DedupSpec | jobs/rollouts.py:63-64 | appending an id only when absent keeps every value once, ordered by first appearance |
| Seqs.FilterMembers | ilurl/networks/base.py:346 | a comprehension with a condition keeps exactly the elements that satisfy it |
| Seqs.MapAllSucceeds | ilurl/scenarios/base.py:161-165 | a loop that raises on an element succeeds exactly when every element succeeds, and then maps them one for one |
| Seqs.MapAllFirstError | ilurl/scenarios/base.py:161-165 | a failing loop reports the error of the first element that fails |

## Left out

- XML parsing and `os.path.isfile`: a file system is a map from path to parsed root
  element. `findall` paths are plain tags separated by `/`.
- `float()` on lane attributes is a parameter `parse` of `get_edges`, because floating-point
  parsing is not modelled. Probabilities `1/n` are exact reals.
- `int()` on text accepts an optional sign and decimal digits only. Surrounding whitespace
  and underscores, which Python also accepts, are not modelled.
- The iteration order of `set(routes)` is unspecified in Python. The model takes the order
  of first appearance, and the proved properties do not depend on it.
- The Flow framework classes (`TrafficLightParams`, `VehicleParams`, `InFlows`,
  `NetParams`, `InitialConfig`, the base `Network` and `Scenario`) are outside the model.
  The registry's `get_properties()` is given as a map from node id to program.
  `Network.make`, the inflow setup and the `ilurl.loaders.nets` readers are outside it
  too. The node, edge and connection records are given.
- Networks.Network.TlsIds, Networks.Network.Approaches, Networks.Network.States,
  Networks.Network.Durations: records missing a key the comprehensions read make the
  source raise `KeyError`. The methods require readable records instead of modelling that
  error. `states` requires only a `state` per default phase, and `durations` only a
  `duration`. A duration that `int()` rejects is modelled: it is the failure of
  `DurationList` and `Network.Durations`.
- Networks.Network.Phases: requires every `linkIndex` to parse and to index every state
  of its node. The source raises on the first bad one, leaving a partly filled
  `_cached_phases`. It reads `self.states` once instead of once per traffic light; the
  value is the same because it is cached.
- Networks.Network.NodeLoop: an out-of-range `linkIndex` is a precondition, not a
  modelled `IndexError`.
- Scenarios.GetGenericElement: `key` and `child_key` together would subscript a string;
  callers never pass both, and the method requires that.
- Rollouts.Concat: the key order of the merged result (`id` first, then the fields in
  order of first appearance) is not modelled; the result's fields are a map.
- Rollouts.Concat: `Json.Object` values are equal only with the same members in the same
  order, whereas Python dictionaries compare regardless of key order. This matters only
  for an `id` that is itself a dictionary, in the `exid not in result['id']` test.
- Rollouts.Concat: on failure it states only that each evaluation has at most lost `id`
  and `rollout`. It does not say which evaluations did.
- Rollouts.Concat: the evaluations are the cells of one array, so two cells holding the
  same Python dictionary, and popping from it twice, are not modelled. With no evaluations
  Python's result has no `id` key at all; the model's empty merge has an empty experiment
  list.
- JSON `true` and `1` are equal in Python but distinct values here, and numbers are exact
  reals.
- Experiments: `np.nanmean`, `round`/`.round(4)` and the reward are opaque, passed in as
  `Numerics`. The environment's answers are a given trace per run and step. Calls to
  `reset`, `rl_actions` and the vehicle accessors are not modelled.
- Experiments.Run: the contents written by `env.dump` are not modelled; only the hook
  (directory and file name) is recorded. Line 247 names a nonexistent attribute, so a csv
  conversion with a non-empty emission path always raises before `emission_to_csv`. The
  model reports that as the error `NoSuchAttribute`. Also not modelled: `time.sleep`, `tqdm`, `logging`, `print`,
  `env.terminate`, and the summary statistics printed at the end.
- Experiments.New: a `cycle_time` attribute that exists but is `None` is treated like a
  missing one, so `save_step` uses 1 where Python would raise a `TypeError`.
- Experiments.IsSaveStep: without a cycle time the source reads a `step_counter` the
  experiment lacks. The model reports that as the error `NoStepCounter` (see
  `NoCycleFails`).
- Experiments.PyMod, PyText.Trunc: exact real arithmetic, not IEEE doubles.
- The `__main__` driver of `jobs/rollouts.py` (argument parsing, JSON files, directory
  moves) and `PipeGuard` are I/O and are outside the model.
