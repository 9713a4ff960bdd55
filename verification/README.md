# Verified model of the topology controller, the project inventory and the capsule metrics

This project models, in Dafny 4.11, the parts of the repository whose behaviour spans several
functions or a whole state machine, and proves properties of them for all inputs, all runs and all
interleavings:

* **The Trove MongoDB topology controller** (`scripts/openstack/trove-mongodb`): grouping a grow
  request into shards, creating, growing and shrinking clusters, the replica-set removal protocol
  with elections and failures at any point, draining shards before deleting them, assembling a
  cluster from the task manager, and the guest's configuration trees (normalising dotted keys with a
  moving cursor, merging in place, sanitising).
* **The project inventory and deletion planner** (`scripts/openstack/list-project-resources.py`,
  `scripts/openstack/delete-project-resources.py`): the worklist over resource kinds as a least fixed
  point, the requests made for one kind, the exclusion of the default security group, the accounting
  and ordering of a deletion plan, and its execution.
* **The CRI compatibility channel and the capsule CPU figures** (`scripts/kolla-ansible`): the
  embedded Python of the three patch scripts, the channel also as a concurrent state machine.

Loops that change state are methods or class methods proved against a specification function or
reference definition; the properties of that function are lemmas. Remote calls, elections, clocks and
databases are nondeterministic steps, `rounds` stands for how often a clock reads before a deadline,
and a field `faulty` (or `healthy`) says whether calls may fail at all.

| file | what it covers |
|---|---|
| `ShardGrouping.dfy`, `GroupingOrder.dfy` | `_group_shard_instances` against connected components, and when the order of a request decides |
| `Topology.dfy`, `ClusterGrowth.dfy`, `GrowthNames.dfy`, `ShardNames.dfy` | cluster rows, invariants over runs, creation and growth, shard names |
| `ShardedShrink.dfy`, `ReplicaShrink.dfy` | the two shrink protocols |
| `RouterRegistry.dfy` | the routers' list of shards along runs of the cluster |
| `AssemblyTrace.dfy`, `AssemblyOrder.dfy`, `Assembly.dfy` | the task manager's guest calls, and what stands where in them |
| `ConfigTree.dfy`, `ConfigPaths.dfy`, `ConfigMerge.dfy`, `ConfigHeap.dfy` | configuration trees as values, the places that keys name, their merge, and the in-place code |
| `Worklist.dfy`, `Inventory.dfy`, `NetworkPlan.dfy` | the inventory |
| `DeletionPlan.dfy`, `PlanOrder.dfy`, `Planning.dfy`, `PlanExecution.dfy` | the planner and the execution of a plan |
| `CanonicalNames.dfy`, `NameWords.dfy`, `AliasTables.dfy` | the names of services and resources, their words, and the tool's two alias tables |
| `CriChannel.dfy`, `CpuSamples.dfy`, `CapsuleMean.dfy` | the embedded Zun code |
| `Filters.dfy`, `Options.dfy`, `Roles.dfy` | filtering lists, optional values, the kinds of an instance |

## What the proofs brought to light

* A grow request is refused as a name in two shards exactly when some item carries a name already in
  use as a label while its own key is not yet tied to that label. That includes an item whose key is
  new, and the outcome depends on the order of the items (`RefusalDependsOnOrder`). Some order of a
  request is refused exactly when two of its items clash, some order is accepted exactly when every
  component of its labels has a root from which, from keys to names, all its labels are reached, and the
  order decides exactly when both hold (`RefusedOrderIff`, `AcceptedOrderIff`, `OrderMattersIff`).
* If the detach loop of a replica-set shrink is stopped after its first instance, the same request is
  refused from then on, because a requested instance is no longer found (`Cluster.Shrink`).
* In a replica-set grow the task is set before the instances are validated, and a refusal there leaves
  it set; the sharded path clears it (`Cluster.GrowReplica`, `Cluster.GrowSharded`).
* Shard numbers count live shards, so removing a lower-numbered shard and growing repeats a live
  name (`RepeatedNumber` is such a run). The router then registers nothing for the new shard, and removing
  that shard later takes the live one off the list (`DuplicateUnregistered`). Along any run the list
  matches the shards exactly as long as no growth repeats a live number (`RegistryRuns`), and a shrink
  leaves the staying shards registered exactly when none shares its name with one that goes
  (`StaysRegisteredIff`). A
  growth gives every shard its own number exactly when no live number is among the next ones
  (`OneToOneIff`), and no growth ever repeats one exactly when the k live shards are numbered 1 to k
  (`NeverRepeatsIff`).
* An answer of the guest that is no JSON counts as a completed removal, also when the node was only
  asked to step down. A shrink whose first call meets this detaches and deletes instances whose hosts are
  all still members (`MisreadHappens`, `Cluster.Shrink`).
* A dictionary given as the value of a dotted key is copied as it is, so its own dotted keys stay
  (`DottedValueStays`). Normalising is idempotent, and the second pass on write a no-op, exactly when no
  option brings a dotted key that survives the later options at a path which sanitising keeps; values
  under dotted keys that hold no dotted key are enough (`NormalizeTwice`, `SecondNormalizationIsNoOp`).
* Merging is associative exactly where no dictionary meets a scalar and then a dictionary that does not
  cover it (`MergeAssociativeIff`, `CoversIff`, `MergeNotAssociative`).
* Without a memory size the comparison at service.py:232 raises; the model returns `None`.
* Objects are told apart by service, kind and identifier, so of two Swift objects with one name in two
  containers only the first gets an operation (`SameNameInTwoContainers`). Every resource has its own
  operation exactly when resources that share a key agree (`OwnOperationsWithCommands`).
* A service that falls back to v1alpha2 stays there on sequential runs, but a concurrent call that
  already holds a v1 answer can record v1 after the fallback (`FallbackUndone`). Some interleaving does
  so exactly when one call of the service is rejected by v1 and another gets a v1 answer that is
  recorded (`FallbackUndoneIff`).

## Model

| member | source | states |
|---|---|---|
| ShardGrouping.GroupShardInstances | scripts/openstack/trove-mongodb/controller/api.py:399-440 | the pass refuses exactly when some item ties two groups or labelled and unlabelled items are mixed; an accepted labelled request comes back as its connected components in request order |
| ShardGrouping.Scan | scripts/openstack/trove-mongodb/controller/api.py:406-433 | the loop stops only at a tie, and otherwise has read every item into the group table |
| ShardGrouping.Place | scripts/openstack/trove-mongodb/controller/api.py:408-433 | one turn refuses exactly when its item ties two groups, and otherwise keeps groups, label table and components in step |
| ShardGrouping.TiesDecided | scripts/openstack/trove-mongodb/controller/api.py:417-425 | the label table decides whether the next item ties two components of the transitive closure |
| ShardGrouping.LinkedSameOwner | scripts/openstack/trove-mongodb/controller/api.py:406-433 | items joined by a walk of shared labels are in one group |
| ShardGrouping.ExtendLinks | scripts/openstack/trove-mongodb/controller/api.py:406-433 | items in one group are joined by a walk, also after one more item |
| ShardGrouping.GroupingUnique | scripts/openstack/trove-mongodb/controller/api.py:399-440 | a request has at most one grouping into components numbered by first appearance |
| ShardGrouping.GroupsKeepMembers | scripts/openstack/trove-mongodb/controller/api.py:399-440 | the group sizes add up to the number of items: none lost, none doubled |
| ShardGrouping.RefusalDependsOnOrder | scripts/openstack/trove-mongodb/controller/api.py:417-425 | two orders of the same three items, one accepted and one refused |
| GroupingOrder.RefusedOrderIff | scripts/openstack/trove-mongodb/controller/api.py:406-433 | some order of a request is refused exactly when some item carries a name that another uses as a label without knowing its key |
| GroupingOrder.AcceptedOrderIff | scripts/openstack/trove-mongodb/controller/api.py:406-433 | some order of a request is accepted exactly when every component of its labels has a label from which, from keys to names, all others are reached |
| GroupingOrder.OrderMattersIff | scripts/openstack/trove-mongodb/controller/api.py:406-433 | the order decides between acceptance and refusal exactly when both conditions hold |
| Topology.CreateMakes | scripts/openstack/trove-mongodb/controller/api.py:134-243 | a created sharded cluster meets the invariant: distinct ids, its config servers, a router, a shard, no shard below two members |
| Topology.GrowKeeps | scripts/openstack/trove-mongodb/controller/api.py:452-547 | growth keeps the invariant, the config servers and every old shard |
| Topology.GrownShard | scripts/openstack/trove-mongodb/controller/api.py:478-513 | growth gives each new shard id exactly its group and adds nothing to an old shard |
| Topology.ShrinkKeeps | scripts/openstack/trove-mongodb/controller/api.py:616-688 | removing what the guards allow keeps the invariant, the config servers and every shard not removed whole |
| Topology.ShrunkShard | scripts/openstack/trove-mongodb/controller/api.py:650-672 | a shard is removed whole or left alone |
| Topology.ShardedRuns | scripts/openstack/trove-mongodb/controller/api.py:452-688 | on every run of completed operations a sharded cluster keeps the invariant and its config servers |
| Topology.ShardWholeOrGone | scripts/openstack/trove-mongodb/controller/api.py:452-688 | between any two moments of a run a shard is unchanged or gone as a whole |
| Topology.ReplicaKeeps | scripts/openstack/trove-mongodb/controller/api.py:549-754 | growing or shrinking a replica set keeps two members, distinct ids and no sharded role |
| Topology.ReplicaRuns | scripts/openstack/trove-mongodb/controller/api.py:549-754 | on every run of completed operations a replica-set cluster keeps two members and never turns into a sharded one |
| Topology.ReplicaCreated | scripts/openstack/trove-mongodb/controller/api.py:246-336 | a replica-set cluster of two or more members starts with the replica-set invariant |
| ClusterGrowth.CreateSharded | scripts/openstack/trove-mongodb/controller/api.py:134-243 | a request below a minimum makes nothing; any other makes the rows that meet the invariant |
| ClusterGrowth.SplitByRole | scripts/openstack/trove-mongodb/controller/api.py:442-468 | an item with another role, or not exactly one, refuses the request; the others are split by role in order |
| ClusterGrowth.RoleByType | scripts/openstack/trove-mongodb/controller/api.py:442-468 | which type names make a member, which a router, and which refuse the request |
| ClusterGrowth.ReplicasAre | scripts/openstack/trove-mongodb/controller/api.py:454-456 | the members to group are the items without a type or with a member type |
| ClusterGrowth.GroupIntoShards | scripts/openstack/trove-mongodb/controller/api.py:470-472 | accepted exactly when no item ties two groups, labels are on all or none, and no group is too small; the groups are then the components |
| ClusterGrowth.Validate | scripts/openstack/trove-mongodb/controller/api.py:452-488 | accepted exactly when every item has one supported role, the members can be grouped, no group is too small and the other checks pass |
| ClusterGrowth.Cluster.GrowSharded | scripts/openstack/trove-mongodb/controller/api.py:533-547 | accepted exactly with no task set and an acceptable request; a refusal changes no row and leaves the task clear; acceptance completes a growth step whose shards are the components of the request, with one router for each item of type query_router and one instance for each item |
| ClusterGrowth.Cluster.AddShards | scripts/openstack/trove-mongodb/controller/api.py:485-513 | each group becomes one shard with one fresh id and the next number |
| ClusterGrowth.Cluster.GrowReplica | scripts/openstack/trove-mongodb/controller/api.py:549-572 | exactly when the replica-set path accepts, busies or refuses, and which task status each leaves |
| ClusterGrowth.GrowthMatchesRequest | scripts/openstack/trove-mongodb/controller/api.py:452-531 | an accepted growth makes exactly one instance per requested item |
| ClusterGrowth.GrowCompletes | scripts/openstack/trove-mongodb/controller/api.py:478-531 | the grown rows are a completed step and all their ids lie below the next fresh ones |
| GrowthNames.Growth | scripts/openstack/trove-mongodb/controller/api.py:482-513 | growing rs1..rsk by m groups gives rs1..rs(k+m), one number and one fresh shard id to a group |
| GrowthNames.OneToOneIff | scripts/openstack/trove-mongodb/controller/api.py:482-491 | on rows with one number to a shard, growth by m groups keeps that exactly when no live number is among the next m |
| GrowthNames.NeverRepeatsIff | scripts/openstack/trove-mongodb/controller/api.py:482-491 | no growth the controller accepts, whatever its groups and routers, repeats a live number exactly when the k live shards are numbered 1 to k |
| GrowthNames.RepeatedNumber | scripts/openstack/trove-mongodb/controller/api.py:482-491 | creating, growing, removing the first shard and growing again is a run of completed steps that ends with two shards numbered 2 |
| ShardNames.NamesInjective | scripts/openstack/trove-mongodb/controller/api.py:489-491 | different numbers give different replica-set names |
| ShardNames.DecimalReads | scripts/openstack/trove-mongodb/controller/api.py:489-491 | a name's number is written in decimal, highest digit first and without a leading zero |
| ShardNames.NoRepeatIff | scripts/openstack/trove-mongodb/controller/api.py:482-491 | of a set of live numbers, no next numbers meet it exactly when it is 1 to k |
| ShardNames.RegisteredIff | scripts/openstack/trove-mongodb/service.py:613-629 | a shard is registered exactly when its name is not taken |
| RouterRegistry.CreatedMatches | scripts/openstack/trove-mongodb/controller/taskmanager.py:131-143 | a created cluster has its one shard, and nothing else, on the list |
| RouterRegistry.StepMatches | scripts/openstack/trove-mongodb/controller/api.py:478-688 | a completed step keeps one registered name to a live shard exactly when it gives no new shard the number of a live one |
| RouterRegistry.RegistryRuns | scripts/openstack/trove-mongodb/controller/api.py:478-688 | along a run the list matches the live shards at every moment exactly when no growth repeats a live number |
| RouterRegistry.StaysRegisteredIff | scripts/openstack/trove-mongodb/controller/api.py:650-688 | a shrink leaves every registered shard that stays on the list exactly when none shares its registered name with one that goes; one name to a shard is enough |
| RouterRegistry.DuplicateUnregistered | scripts/openstack/trove-mongodb/service.py:613-646 | along the run that repeats number 2 the third shard is not registered, and its removal, which is allowed, takes the live second shard off the list |
| ShardedShrink.Cluster.Check | scripts/openstack/trove-mongodb/controller/api.py:616-672 | the guards pass exactly for requests that remove whole shards and routers and leave one of each, and what every refusal means |
| ShardedShrink.Cluster.RemoveShardFromRouter | scripts/openstack/trove-mongodb/controller/api.py:592-614 | success exactly when the first answer does not refuse and one of the answers in time completes the drain before any raises; then the shard is off the list, and otherwise the list is as it was |
| ShardedShrink.Cluster.CallRemoveShard | scripts/openstack/trove-mongodb/service.py:631-646 | a call that gets through counts an unregistered shard as completed, and takes a registered one off the list exactly on completion |
| ShardedShrink.Cluster.TargetShards | scripts/openstack/trove-mongodb/controller/api.py:653-663 | every shard that loses members is targeted once |
| ShardedShrink.Cluster.DrainAll | scripts/openstack/trove-mongodb/controller/api.py:674-681 | drains go through the first router that stays; when nothing else fails, success exactly when every target drains in time, and then every target is off the list |
| ShardedShrink.Cluster.DeleteAll | scripts/openstack/trove-mongodb/controller/api.py:683-688 | each deletion directly follows its detach, and what is gone after a failure |
| ShardedShrink.Cluster.Shrink | scripts/openstack/trove-mongodb/controller/api.py:616-688 | nothing is detached or deleted while a target is registered; a failed drain deletes nothing; the task is cleared; when nothing else fails it finishes exactly when every drain ends in time, where shards drained before count as ended |
| ReplicaShrink.NodeStays | scripts/openstack/trove-mongodb/service.py:541-563 | a node reached through a primary address that matches no host is none of the hosts |
| ReplicaShrink.NamedHost | scripts/openstack/trove-mongodb/service.py:427-435 | the host part of a name or an IPv4 address with a port is the name or address |
| ReplicaShrink.NumberedHost | scripts/openstack/trove-mongodb/service.py:427-435 | the host part of an IPv6 address in brackets is the address, and a bare one is left alone |
| ReplicaShrink.SecondaryRoutes | scripts/openstack/trove-mongodb/service.py:541-563 | a call to a secondary reaches the primary it names, and fails when it names none |
| ReplicaShrink.SteadyCompletes | scripts/openstack/trove-mongodb/service.py:541-583 | a call that reaches a staying node completes the removal when that node is primary throughout and no removal fails, and when no host is left to remove |
| ReplicaShrink.Cluster.RemoveReplicaMembers | scripts/openstack/trove-mongodb/service.py:541-583 | removal, step-down and failure, each exactly when; only requested hosts leave the replica set, none while it is primary; a reported removal is true exactly when it was not misread or had nothing left to do |
| ReplicaShrink.MisreadHappens | scripts/openstack/trove-mongodb/service.py:541-583 | a call that is misread: the host to remove is the writable primary and its output cannot be read |
| ReplicaShrink.Cluster.RemoveEach | scripts/openstack/trove-mongodb/service.py:567-575 | the script's loop removes in order on the current primary, skips hosts that are no members, and succeeds exactly when no needed removal meets another primary or fails; a failure leaves a prefix removed |
| ReplicaShrink.Cluster.TryCandidates | scripts/openstack/trove-mongodb/controller/api.py:718-733 | one pass over the candidates keeps the removals safe, stops only on a complete removal or a misread answer, and does stop at a call that can remove what is left |
| ReplicaShrink.Cluster.RemoveFromReplicaSet | scripts/openstack/trove-mongodb/controller/api.py:712-743 | fails for an address exactly when one is not visible; the retry loop ends with every requested host out or with a misread answer, and does so whenever some call in time can remove what is left |
| ReplicaShrink.Cluster.DetachAndDelete | scripts/openstack/trove-mongodb/controller/api.py:744-751 | the two loops do a prefix of all detaches followed by all deletions |
| ReplicaShrink.Cluster.Shrink | scripts/openstack/trove-mongodb/controller/api.py:690-754 | exact refusals; on every other run removals come first, detaches and deletions only in the final configuration, which is free of the requested hosts unless the last answer was misread; some call in time that can remove what is left makes it finish; survivors keep row and membership; a run stopped after a detach cannot be repeated; a misread first call ends with all requested instances deleted and all their hosts still members |
| ReplicaShrink.RunIsSafe | scripts/openstack/trove-mongodb/controller/api.py:697-751 | event by event: unless the last answer was misread, no detach or deletion before all requested hosts have left; no deletion before all detaches, no removal of the primary |
| ReplicaShrink.PartlyDetached | scripts/openstack/trove-mongodb/controller/api.py:744-747 | which rows are left after some detaches, and that a requested one is then missing |
| ReplicaShrink.DoneIsStep | scripts/openstack/trove-mongodb/controller/api.py:690-710 | the requests the shrink accepts are exactly the allowed cluster steps, and a finished shrink leaves the rows of the step |
| Assembly.Manager.WaitForReplicaMembers | scripts/openstack/trove-mongodb/controller/taskmanager.py:81-99 | the wait ends well exactly when one of the looks in time showed every expected address primary or secondary |
| Assembly.Manager.InitializeReplicaSet | scripts/openstack/trove-mongodb/controller/taskmanager.py:110-117 | success is initiation on the first member and then readiness of exactly the members; failure is a proper prefix of that |
| Assembly.Manager.ConfigureQueryRouters | scripts/openstack/trove-mongodb/controller/taskmanager.py:119-129 | success configures every router with all config servers in order; no routers or no config servers fail |
| Assembly.Manager.CreateShard | scripts/openstack/trove-mongodb/controller/taskmanager.py:131-143 | success is initiation, readiness and registration of one shard; an empty name or a refusal fails |
| Assembly.Manager.CreateShards | scripts/openstack/trove-mongodb/controller/taskmanager.py:164-172 | every shard of the members is created once, in order of appearance |
| Assembly.Manager.CreateCluster | scripts/openstack/trove-mongodb/controller/taskmanager.py:145-179 | the task is cleared exactly when the whole trace was made; any other run made a prefix of it, and marks the cluster failed or raises a foreign timeout again |
| Assembly.Manager.GrowCluster | scripts/openstack/trove-mongodb/controller/taskmanager.py:181-234 | the same for the growth trace |
| Assembly.CreatedSeenReady | scripts/openstack/trove-mongodb/controller/taskmanager.py:81-99 | after a creation that cleared the task one status answer had shown all config servers ready, and for every shard one had shown all its members ready |
| Assembly.GrownSeenReady | scripts/openstack/trove-mongodb/controller/taskmanager.py:81-99 | after such a growth one had shown all members of every new shard ready |
| Assembly.Manager.Finish | scripts/openstack/trove-mongodb/controller/taskmanager.py:54-79 | what a run leaves behind: the task cleared, the cluster marked failed, or neither when a timeout that is not its own is raised again |
| AssemblyTrace.AllShardsAbout | scripts/openstack/trove-mongodb/controller/taskmanager.py:164-172 | of all shard work exactly initiation, readiness and registration concern one shard, for its own members through the first router |
| AssemblyTrace.ShardIdsAre | scripts/openstack/trove-mongodb/controller/taskmanager.py:164-167 | the collected shard ids are those of the members, without repetition |
| AssemblyTrace.ShardIdsInOrder | scripts/openstack/trove-mongodb/controller/taskmanager.py:164-167 | shards are taken in the order in which their first members appear |
| AssemblyTrace.ShardedCreation | scripts/openstack/trove-mongodb/controller/taskmanager.py:145-179 | a complete creation: config servers first, routers, shards, completion; each router configured once, each shard created once, each instance told once |
| AssemblyTrace.ShardedGrowth | scripts/openstack/trove-mongodb/controller/taskmanager.py:181-234 | a complete growth does the same for the added instances alone |
| AssemblyOrder.CreatedInOrder | scripts/openstack/trove-mongodb/controller/taskmanager.py:145-179 | by position in a creation: config servers, routers, shards and completion in phases; the config servers and every shard initiated once on the first member with exactly the members, awaited once after that, and a shard registered once after that |
| AssemblyOrder.GrownInOrder | scripts/openstack/trove-mongodb/controller/taskmanager.py:181-234 | the same for the new shards of a growth, which touches no config server |
| AssemblyOrder.CreatedWhole | scripts/openstack/trove-mongodb/controller/taskmanager.py:145-179 | a replica-set creation is initiation on the first member, the wait, and the completion calls in order |
| AssemblyOrder.GrownWhole | scripts/openstack/trove-mongodb/controller/taskmanager.py:181-234 | a replica-set growth joins the new members through the first existing one, waits, and tells them in order |
| ConfigTree.DirtyAfterWrite | scripts/openstack/trove-mongodb/service.py:66-81 | after a write along a path the dotted keys at and below it are those of the written value, and elsewhere those from before |
| ConfigTree.AtAfterWrite | scripts/openstack/trove-mongodb/service.py:66-81 | the whole contents after a write: the value at and below the path, the dictionaries above it with the write in them, everything else as it was |
| ConfigPaths.DottedPath | scripts/openstack/trove-mongodb/service.py:71-79 | a dotted key names the place of its non-empty parts, in order, whatever dots stand in front, behind or doubled |
| ConfigPaths.EveryText | scripts/openstack/trove-mongodb/service.py:71 | every text is such parts with dots |
| ConfigPaths.JoinedPath | scripts/openstack/trove-mongodb/service.py:71-79 | words joined by dots name the place of the words, in order |
| ConfigPaths.NoPathIff | scripts/openstack/trove-mongodb/service.py:71-79 | only a key made of dots names no place |
| ConfigPaths.OptionStands | scripts/openstack/trove-mongodb/service.py:58-82 | the value of an option stands where its key says unless a later option writes above or below |
| ConfigPaths.NothingElse | scripts/openstack/trove-mongodb/service.py:58-82 | where no option writes above, at or below there is nothing |
| ConfigPaths.CopiedAsIs | scripts/openstack/trove-mongodb/service.py:79 | a value under a dotted key is copied as it was given |
| ConfigTree.LastWriterDecides | scripts/openstack/trove-mongodb/service.py:58-82 | a dotted key is at a path after normalising exactly when the last option writing there brought it |
| ConfigTree.NormalizedCleanIff | scripts/openstack/trove-mongodb/service.py:58-82 | before sanitising, the result is free of dotted keys exactly when no surviving option brings one |
| ConfigTree.NormalizedClean | scripts/openstack/trove-mongodb/service.py:58-82 | options whose dotted keys hold clean values normalise to a clean tree |
| ConfigTree.DottedValueStays | scripts/openstack/trove-mongodb/service.py:79 | an option whose copied value keeps its dotted key |
| ConfigTree.CleanIsFixed | scripts/openstack/trove-mongodb/service.py:58-82 | normalising a clean tree, in any key order, changes nothing |
| ConfigTree.FixedIsClean | scripts/openstack/trove-mongodb/service.py:58-82 | a tree that normalising leaves alone, up to removals, is clean |
| ConfigTree.SanitizeTwice | scripts/openstack/trove-mongodb/service.py:83-112 | sanitising is idempotent |
| ConfigTree.SanitizedDirtyAt | scripts/openstack/trove-mongodb/service.py:83-112 | sanitising removes the dotted keys below the MMAPv1 and journal-switch paths and no other |
| ConfigTree.SanitizedCleanIff | scripts/openstack/trove-mongodb/service.py:58-116 | the normalised options are free of dotted keys exactly when no surviving option brings one outside the removed paths |
| ConfigTree.DottedValuesCleanSuffices | scripts/openstack/trove-mongodb/service.py:58-116 | options whose dotted keys hold clean values leave no dotted key |
| ConfigTree.NormalizeTwice | scripts/openstack/trove-mongodb/service.py:114-116 | normalising twice is normalising once exactly when no option brings a dotted key that survives outside the removed paths; clean values under dotted keys suffice |
| ConfigMerge.MergeRightBiased | scripts/openstack/trove-mongodb/service.py:49-56 | at every path the user's leaf, the base leaf where the user leaves the path open, nothing where another shape blocks it |
| ConfigMerge.MergeAssociativeIff | scripts/openstack/trove-mongodb/service.py:49-56 | the two bracketings agree exactly where no dictionary meets a scalar and then a dictionary that does not cover it |
| ConfigMerge.CoversIff | scripts/openstack/trove-mongodb/service.py:49-56 | merging changes nothing in the second tree exactly when it covers the first: every key there, and dictionaries covered in turn |
| ConfigMerge.MergeNotAssociative | scripts/openstack/trove-mongodb/service.py:49-56 | three trees on which the two bracketings differ |
| ConfigMerge.MergeCleanIff | scripts/openstack/trove-mongodb/service.py:49-56 | merging onto a clean base is clean exactly when the user's tree is |
| ConfigMerge.MergedIsSanitized | scripts/openstack/trove-mongodb/service.py:83-112 | sanitising the merged configuration takes nothing out |
| ConfigMerge.GeneratedBase | scripts/openstack/trove-mongodb/service.py:225-245 | what the guest generates: the data directory, a cache of a quarter of the memory between 0.256 and 2 GiB when a size is known, and nothing else |
| ConfigMerge.UserWins | scripts/openstack/trove-mongodb/service.py:218-246 | in the guest's configuration a leaf set by the user stands, and a generated one only where the user leaves its place open |
| ConfigMerge.SecondNormalizationIsNoOp | scripts/openstack/trove-mongodb/service.py:118-246 | normalising again on write changes nothing exactly when no option brings a dotted key that survives outside the removed paths; clean values under dotted keys suffice |
| ConfigMerge.SanitizeRemovesObsolete | scripts/openstack/trove-mongodb/service.py:83-112 | exactly the leaves of the MMAPv1 subtree, the journal switch and a stderr destination disappear, at every path |
| ConfigMerge.SanitizeDropsEmptied | scripts/openstack/trove-mongodb/service.py:92-112 | the journal, storage and log dictionaries disappear exactly when nothing but obsolete entries is in them, and every other subtree stays whole |
| ConfigHeap.Enter | scripts/openstack/trove-mongodb/service.py:70-78 | one move of the cursor leaves the final tree of the write unchanged |
| ConfigHeap.Assign | scripts/openstack/trove-mongodb/service.py:66-81 | the cursor loop and its write are one SetPath on the tree |
| ConfigHeap.Normalize | scripts/openstack/trove-mongodb/service.py:58-82 | the mutable-cursor loop returns the left fold of SetPath over the places of the keys, and fails exactly when the fold does |
| ConfigHeap.NormalizeOption | scripts/openstack/trove-mongodb/service.py:61-81 | one option is one fold step on the heap |
| ConfigHeap.Merge | scripts/openstack/trove-mongodb/service.py:49-56 | the in-place merge makes the target the functional merge and changes nothing hanging elsewhere |
| ConfigHeap.MergeOption | scripts/openstack/trove-mongodb/service.py:51-56 | one key is merged into the dictionary there, or replaces what is there |
| ConfigHeap.WriteView | scripts/openstack/trove-mongodb/service.py:78-81 | writing one entry of a nested dictionary is SetPath seen from the root |
| Worklist.Collect | scripts/openstack/list-project-resources.py:1134-1163 | best effort returns a table that is closed and that another sweep leaves alone; what stays pending has a parent missing or empty, what is listed has the answer below the objects of all its parents, and the errors are exactly the failed listings; strict mode raises only for a failing kind of that table |
| Worklist.Sweep | scripts/openstack/list-project-resources.py:1138-1160 | one sweep lists ready kinds only, and a sweep that lists none leaves no kind ready |
| Worklist.StageEntry | scripts/openstack/list-project-resources.py:1134-1163 | every entry of a stage is the listing of its kind from that stage's own parents |
| Worklist.StageGrows | scripts/openstack/list-project-resources.py:1134-1163 | later stages keep what earlier ones list |
| Worklist.StageIsLeast | scripts/openstack/list-project-resources.py:1134-1163 | every stage lies below every closed table above the direct listing, so the closed table reached is the least |
| Worklist.StageIsFixed | scripts/openstack/list-project-resources.py:1134-1163 | a stage that leaves no open kind ready is a fixed point and closed |
| Worklist.RunReaches | scripts/openstack/list-project-resources.py:1134-1163 | any legal order of listings stays below the fixed point and tallies its failures |
| Worklist.RunComplete | scripts/openstack/list-project-resources.py:1134-1163 | an order that leaves no open kind ready has reached that same closed table, whatever the order was |
| Worklist.OrderDoesNotMatter | scripts/openstack/list-project-resources.py:1134-1163 | reordering the specs does not change the result |
| Inventory.ListSpec | scripts/openstack/list-project-resources.py:1006-1047 | listing one kind is one request per distinct combination of parents, with the project filter and its fallback, then the owner filter; the first failure decides |
| Inventory.OwnerDecides | scripts/openstack/list-project-resources.py:798-830 | which of an object's fields decides about its project, in order, the stack user's project last |
| Inventory.ListingExact | scripts/openstack/list-project-resources.py:1006-1047 | a listing that goes through holds exactly the objects of the project, by their fields, that the service gave to one of its requests, or to the repeated one |
| Inventory.ListingFailure | scripts/openstack/list-project-resources.py:1006-1047 | a listing that does not go through ends as the first request without a list does |
| Inventory.AskOutcome | scripts/openstack/list-project-resources.py:986-1004 | a request fails on an error and on a filter that cannot be left out or is rejected again; a missing resource type is no failure |
| Inventory.FallbackTransparent | scripts/openstack/list-project-resources.py:986-1004 | when the service rejects the filter of a request, or leaves out objects of other projects only, the filtered request with its fallback lists the same objects of the project, or fails in the same way, as the request without the filter |
| Inventory.FilterTransparent | scripts/openstack/list-project-resources.py:986-1047 | with such services listing a kind with the filter and its fallback, over all distinct requests and with the first failure deciding, gives exactly what listing without any filter gives |
| Inventory.ListDirect | scripts/openstack/list-project-resources.py:1062-1073 | every direct kind is listed, a failing one empty and noted; strict mode stops at the first failure, and only then |
| Inventory.RequestsExact | scripts/openstack/list-project-resources.py:1028-1041 | the requests are exactly the complete argument sets of the combinations, none twice |
| Inventory.RequestMeaning | scripts/openstack/list-project-resources.py:1030-1041 | a request gives every placeholder the value of its own parent, and the filter beside them; it is left out exactly when a parent has no value |
| Inventory.AttrOfId | scripts/openstack/list-project-resources.py:767-777 | an id placeholder takes the parent's attribute of that name, or else its id |
| Inventory.AttrOfName | scripts/openstack/list-project-resources.py:767-777 | a name placeholder takes the parent's attribute of that name, or else its name, or else its id |
| Inventory.ParentOfStem | scripts/openstack/list-project-resources.py:748-754 | the parent of a placeholder is the kind that its stem names |
| Inventory.NormalizedJoin | scripts/openstack/list-project-resources.py:744-745 | names are compared character by character |
| Inventory.NormalizedChar | scripts/openstack/list-project-resources.py:744-745 | of a character a lower-case letter or digit stays, an upper-case letter is lowered, and a separator is dropped |
| Inventory.ProductExact | scripts/openstack/list-project-resources.py:1030 | the combinations are exactly the choices of one object from every list |
| Inventory.PrependInOrder | scripts/openstack/list-project-resources.py:1030 | the combinations come in order, all those with one object of the first list before those with the next |
| Inventory.PrependOne | scripts/openstack/list-project-resources.py:1030 | with one object of the first list come all combinations of the rest, in their order |
| Inventory.DirectIsOwned | scripts/openstack/list-project-resources.py:828-830 | every directly listed object has, by its fields, no owner or the requested project as owner |
| Inventory.EveryListedIsOwned | scripts/openstack/list-project-resources.py:798-830 | the same for every object of the direct listing and of every stage of the nested one |
| NetworkPlan.Collected.ExcludeDefault | scripts/openstack/list-project-resources.py:861-897 | default groups and their rules leave the collected and the rendered lists, everything else stays in order, and the two stay in step |
| NetworkPlan.ExclusionRemoves | scripts/openstack/list-project-resources.py:876-897 | which groups and rules stay, and that no default group does |
| NetworkPlan.ExclusionComplete | scripts/openstack/list-project-resources.py:861-897 | afterwards no listed group is a default one and no listed rule belongs to one |
| NetworkPlan.NoDefaultPlanned | scripts/openstack/delete-project-resources.py:442-496 | over a report that shows the filtered lists under their names, no planned operation targets a default security group or a rule of one |
| NetworkPlan.ReportShows | scripts/openstack/list-project-resources.py:1072-1132 | the report built from the collected lists shows them under their canonical names |
| NetworkPlan.NoDefaultInPlan | scripts/openstack/delete-project-resources.py:442-496 | from the collected lists through the exclusion, whatever is listed or filtered later, through the report and the plan: no group that is named default after folding, and no rule whose security_group_id is the id of one, is planned |
| NetworkPlan.ToolNames | scripts/openstack/delete-project-resources.py:96-145 | the tool maps both list names to themselves, and the plural to the group name |
| DeletionPlan.ObjectRead | scripts/openstack/delete-project-resources.py:442-480 | every object of the report is read as an exclusion, an issue or an entry |
| DeletionPlan.ReadOnlyListed | scripts/openstack/delete-project-resources.py:442-480 | every entry comes from an object of the report |
| DeletionPlan.IssueHasCause | scripts/openstack/delete-project-resources.py:442-480 | reading reports an issue only for a service that is no object, a collection that is no list, or a listed object that is refused |
| DeletionPlan.IdentifierDecides | scripts/openstack/delete-project-resources.py:258-270 | which attribute identifies an object: the id before any name, an alarm's own id first, a cron trigger's name first |
| DeletionPlan.DifferentIds | scripts/openstack/delete-project-resources.py:258-270 | objects with different ids have different keys, whatever their names |
| DeletionPlan.CommandNames | scripts/openstack/delete-project-resources.py:273-306 | what a command names, and when there is none |
| Planning.ResourceEntries | scripts/openstack/delete-project-resources.py:442-480 | the nested loops read the report as the reference reading and keep the first resource of each key |
| Planning.ReadKindEntry | scripts/openstack/delete-project-resources.py:453-478 | one collection is read as its kind demands, with one issue for a kind that is not supported |
| Planning.PlanDeletions | scripts/openstack/delete-project-resources.py:483-496 | the returned operations are the plan and the issues are all of its issues |
| Planning.DedupExact | scripts/openstack/delete-project-resources.py:442-480 | one resource is kept per key, and every key keeps one |
| Planning.DedupFirst | scripts/openstack/delete-project-resources.py:442-480 | the kept resources are exactly the first of every key |
| Planning.PlanExact | scripts/openstack/delete-project-resources.py:483-496 | the plan is strictly sorted by phase and key, has one operation per key and holds exactly the operations of the kept resources |
| Planning.Accounting | scripts/openstack/delete-project-resources.py:442-496 | every object of the report is excluded, covered by an issue or represented by the one operation of its key |
| Planning.NothingSilent | scripts/openstack/delete-project-resources.py:442-496 | any listed object that is neither the project nor covered by its parent has one operation for its key or an issue about its kind |
| Planning.ExcludedNeverPlanned | scripts/openstack/delete-project-resources.py:442-480 | the project itself, covered children and kinds without a phase are never planned |
| Planning.PlannedHasCommand | scripts/openstack/delete-project-resources.py:442-496 | a key that has an operation is not reported as missing its command |
| Planning.CleanPlanKeys | scripts/openstack/delete-project-resources.py:442-496 | when there are no issues the keys of the plan are exactly those of the listed objects that are not excluded |
| Planning.PlannedIsListed | scripts/openstack/delete-project-resources.py:442-496 | every operation comes from an object of the report |
| Planning.PlanIff | scripts/openstack/delete-project-resources.py:442-496 | when objects that share a key agree, the plan holds exactly the operations of all entries |
| Planning.OrderIndependent | scripts/openstack/delete-project-resources.py:442-496 | two reports that list the same objects give the same plan when objects that share a key agree |
| Planning.ReorderedReport | scripts/openstack/delete-project-resources.py:442-496 | services, kinds and objects of a report may come in any order |
| Planning.PermutedReport | scripts/openstack/delete-project-resources.py:442-496 | the same for a permutation of the service entries |
| Planning.OwnOperationsIff | scripts/openstack/delete-project-resources.py:442-496 | every resource with a command has its own operation exactly when each is the first of its key |
| Planning.OwnOperationsWithCommands | scripts/openstack/delete-project-resources.py:442-496 | when every resource has a command, that is exactly when resources that share a key agree |
| Planning.SameNameInTwoContainers | scripts/openstack/delete-project-resources.py:258-285 | a report with two containers that hold an object of one name: the plan deletes the first and has neither an operation nor an issue for the second |
| PlanOrder.SortSorted | scripts/openstack/delete-project-resources.py:494-496 | sorting operations with distinct keys gives a strictly ordered list of the same operations |
| PlanOrder.SortedUnique | scripts/openstack/delete-project-resources.py:494-496 | a set of operations has one strictly sorted order |
| PlanOrder.SortedReads | scripts/openstack/delete-project-resources.py:494-496 | of two operations the earlier has the smaller phase, then service, then kind, then identifier |
| PlanOrder.TextLessAt | scripts/openstack/delete-project-resources.py:494-496 | texts compare by their first different characters, and a prefix comes first |
| PlanExecution.DeleteRouter | scripts/openstack/delete-project-resources.py:559-579 | no error means the router is gone; ports and gateway are taken off this router alone, and a healthy cloud, which refuses a router with either, gives no error for an unused one |
| PlanExecution.WaitForStackDelete | scripts/openstack/delete-project-resources.py:582-616 | the polling loop reports no error only once the stack is gone; on a healthy cloud it outlasts a deletion that takes fewer looks than there are rounds |
| PlanExecution.DeleteStack | scripts/openstack/delete-project-resources.py:657-675 | a stack is gone when no error is reported, and an unused one on a healthy cloud gives none |
| PlanExecution.DeleteSenlin | scripts/openstack/delete-project-resources.py:679-767 | the same for a clustering resource of a supported kind; another kind is always an error |
| PlanExecution.NextNotInUse | scripts/openstack/delete-project-resources.py:153-213 | with everything earlier gone, nothing present uses the next planned resource |
| PlanExecution.ExecutePlan | scripts/openstack/delete-project-resources.py:619-676 | an empty error list means everything planned is gone, whatever failed; on a healthy cloud whose uses the phases respect, whose deletions end in time and where only routers have ports and gateways there is no error |
| CanonicalNames.NormalizeNormal | scripts/openstack/delete-project-resources.py:238-239 | a normalised name is lower-case words joined by single underscores |
| CanonicalNames.NormalizeProjects | scripts/openstack/delete-project-resources.py:238-239 | normalising is a projection whose fixed points are exactly those names |
| NameWords.NormalizedWords | scripts/openstack/delete-project-resources.py:238-239 | a normalised name is the words of the lower-case text, in order, joined by single underscores |
| NameWords.EveryText | scripts/openstack/delete-project-resources.py:238-239 | every text is words with other characters around them |
| CanonicalNames.ServiceIdempotentIff | scripts/openstack/delete-project-resources.py:242-244 | for any alias table: canonical service names are stable for all strings exactly when every alias target is |
| CanonicalNames.ResourceIdempotentIff | scripts/openstack/delete-project-resources.py:247-249 | the same for resource names |
| AliasTables.ServiceNamesStable | scripts/openstack/delete-project-resources.py:64-93 | with the tool's own table canonical service names are stable, for every string |
| AliasTables.ResourceNamesStable | scripts/openstack/delete-project-resources.py:96-145 | with the tool's own table canonical resource names are stable, for every string |
| CriChannel.PathsInjective | scripts/kolla-ansible/patch-zun-cri-v1.py:28-35 | different v1alpha2 methods keep different v1 paths |
| CriChannel.PathsOfService | scripts/kolla-ansible/patch-zun-cri-v1.py:28-35 | the v1 path of a call differs in the version alone, and the calls of a service share its name |
| CriChannel.Channel.InvokeUnary | scripts/kolla-ansible/patch-zun-cri-v1.py:55-72 | what is recorded, asked and returned by a unary call |
| CriChannel.Channel.InvokeStream | scripts/kolla-ansible/patch-zun-cri-v1.py:92-118 | the same for a stream: the item read ahead is emitted again, later errors pass through |
| CriChannel.Transparent | scripts/kolla-ansible/patch-zun-cri-v1.py:55-118 | with fixed support every call of a run returns what the supported API answers |
| CriChannel.OnAlpha2Iff | scripts/kolla-ansible/patch-zun-cri-v1.py:55-118 | on any run a service is on v1alpha2 exactly when it was before or one of its calls was rejected since |
| CriChannel.RejectedOnce | scripts/kolla-ansible/patch-zun-cri-v1.py:55-118 | after one rejected v1 call a service is never asked for v1 again |
| CriChannel.ServicesIndependent | scripts/kolla-ansible/patch-zun-cri-v1.py:24-118 | what is recorded for a service depends on its own calls alone |
| CriChannel.InterleavedTransparent | scripts/kolla-ansible/patch-zun-cri-v1.py:55-118 | under every interleaving with fixed support only implemented versions are recorded and every returned call has the supported API's answer |
| CriChannel.FinishesInFour | scripts/kolla-ansible/patch-zun-cri-v1.py:55-118 | every call returns within four of its own steps |
| CriChannel.FallbackUndone | scripts/kolla-ansible/patch-zun-cri-v1.py:58-70 | two concurrent calls, one rejected and one answered by v1, undo a fallback |
| CriChannel.UndoingTurn | scripts/kolla-ansible/patch-zun-cri-v1.py:58-70 | a turn undoes a fallback exactly when its call holds a v1 answer that is recorded |
| CriChannel.FallbackUndoneIff | scripts/kolla-ansible/patch-zun-cri-v1.py:58-70 | some interleaving undoes a fallback exactly when one call of the service is rejected by v1 and another one gets a v1 answer that is recorded |
| CpuSamples.Driver.Stats | scripts/kolla-ansible/patch-zun-cri-capsule-stats.py:13-63 | the figure of a container from either counter, clamped, and what the cache then holds |
| CpuSamples.CacheHoldsNewest | scripts/kolla-ansible/patch-zun-cri-capsule-stats.py:41-46 | on every run the cache stays within its bound and holds newest samples only, the last poll's among them |
| CpuSamples.NothingEvicted | scripts/kolla-ansible/patch-zun-cri-capsule-stats.py:41-46 | with no more containers than the bound nothing is evicted |
| CpuSamples.OneCharge | scripts/kolla-ansible/patch-zun-cri-capsule-stats.py:47-54 | a poll accounts for the counter's advance since the container's previous poll, or for nothing after an eviction |
| CpuSamples.TimeConserved | scripts/kolla-ansible/patch-zun-cri-capsule-stats.py:34-54 | the usage times elapsed of all polls never exceeds the counter's advance, and equals it when the containers fit in the cache |
| CapsuleMean.Stats | scripts/kolla-ansible/patch-zun-capsule-stats.py:27-63 | the figure is the weighted mean over exactly the counted containers, none without any, and running containers get the capsule's host |
| CapsuleMean.CountedExact | scripts/kolla-ansible/patch-zun-capsule-stats.py:27-57 | a figure counts exactly when it comes from a running container with a host or the capsule's, an id and an answer, weighted by its request or by one |
| CapsuleMean.CountedMany | scripts/kolla-ansible/patch-zun-capsule-stats.py:27-57 | every such container counts once |
| CapsuleMean.MeanBounds | scripts/kolla-ansible/patch-zun-capsule-stats.py:58-63 | the mean lies between the smallest and largest counted figure |
| CapsuleMean.CapsuleUtilisation | scripts/kolla-ansible/patch-zun-cri-capsule-stats.py:56-63 | the mean is at most 100 times cores used over cores requested, and equal exactly when no figure is cut off |
| CapsuleMean.CapsuleOfDriver | scripts/kolla-ansible/patch-zun-capsule-stats.py:27-63 | with the driver's own answers, the figure of the capsule is at most the cores its counted containers used in percent of those requested, and equal exactly when nothing is cut off |
| CapsuleMean.CapsuleInRange | scripts/kolla-ansible/patch-zun-cri-capsule-stats.py:59-63 | the capsule's figure lies between 0 and 100 |

## Left out

- ReplicaShrink.Cluster.RemoveReplicaMembers: a mongosh run that fails raises, so output that cannot be read comes from a script that ran to its end.
- Topology.ShardedRuns: steps are completed operations; instances that Nova made or removed before an error in the middle of a step are not undone by the controller and are not modelled there (the shrink methods do model partial failure).
- ClusterGrowth.Validate: flavors, volumes, NICs, modules and quotas are one answer, and the order in which the reasons are tested is left out.
- ClusterGrowth.Cluster.GrowSharded: for the same reason the remaining validations are one answer; a failure of Nova in the middle of the creation, which leaves the instances made so far, is left out.
- ClusterGrowth.CreateSharded: extended properties, quotas and the names of instances are one answer or left out; the counts, kinds, shard id and shard number of the rows are modelled.
- RouterRegistry.RegistryRuns: steps are completed operations, the list is a map from names to members, and addresses and zones of a registration are not compared.
- ConfigHeap.Normalize: the deep copy of a nested result that is already fresh is not repeated.
- ConfigTree.NormalizeTwice: keys are strings or other scalars, values are scalars or dictionaries; lists of options are scalars here.
- ConfigMerge.SanitizeRemovesObsolete: speaks of leaves alone; SanitizeDropsEmptied says which dictionaries go.
- Inventory.ListSpec: what a client answers is a function of the request during one collection, and the project of an object's links and of its location arrives extracted.
- Inventory.ListDirect: the identity service's own project entry, which is put in before the loop, is left out.
- Inventory.EveryListedIsOwned: nested kinds start from what the direct listing left after its exclusions, as any part of that listing.
- Worklist.Collect: the table is keyed by normalised names, which must be pairwise distinct, because the code takes the first match; listings are a function of kind and parents during one collection.
- NetworkPlan.NoDefaultPlanned: case folding is a parameter, and the report shows attributes in the form in which they were listed.
- NetworkPlan.NoDefaultInPlan: later steps do not add to the two lists; of the listed names only the two list names themselves may be canonical for groups and rules; ToolNames shows that they are and that the plural, which the network service does not list, would not do.
- DeletionPlan.ReadOnlyListed: attributes arrive as stripped text; the conversion of report scalars to text is left out.
- Planning.PlanDeletions: the tables of canonical names, phases, covered children and commands are parameters of every statement.
- PlanExecution.WaitForStackDelete: a healthy cloud ends a deletion within a fixed number of looks and reports none as failed.
- PlanExecution.DeleteRouter: a port list holds at least the ports attached to the router; ports attached while the router is being deleted are left out.
- Assembly.Manager.CreateCluster: without faults a sound replica set is ready after a fixed number of looks.
- PlanExecution.ExecutePlan: successful deletion is taken to mean that the resource is gone; command lines and output parsing are left out, and a failing SDK connection is an error of its operation.
- CanonicalNames.ServiceIdempotentIff: lower-casing outside ASCII is left open.
- CriChannel.InterleavedTransparent: reading and recording a version are single steps; the gRPC serialisers and call options are left out.
- CpuSamples.Driver.Stats: figures are exact reals, not floating point; the lock makes one call one step.
- CapsuleMean.Stats: policy checks and the parsing of the figure's text are left out; a poll's answer is a number or none.
- The inventory's other providers, SDK discovery, workflow-execution filtering and Swift objects: they depend on libraries that are not part of this model.
- Guest container management, cluster configuration files, metrics and role switching in service.py: mostly calls into Docker and the database.
- Argument parsing, printing, exit codes, and the text patching of the `patch-*.py` scripts.
- Ansible, Terraform and shell code.
