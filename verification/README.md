# A verified model of the MySQL charm's relation data and cluster coordination

The project models the parts of the charm whose behaviour is hardest to see from the code:

- **Relation data.** A provider reads and writes what looks like one flat map of fields per
  relation, while each field lives either in the application databag or in one of several Juju
  secrets, grouped by field name and reached through a cache keyed by label. `FlatRelation` is
  the flat map, `FlatRuns` what it promises over runs; `SecretStore`, `StorageSteps` and
  `StorageRefinement` are the stored state, its invariants and its meaning; `SecretCaching` and
  `RelationData` are the classes. The main result, `ProviderData.Run` (from a fresh start,
  `RunFrom`), says that every run over databags, secrets and cache answers as the flat map does. On the way it shows that a URI key
  is published iff its secret exists, that a relation never keeps requested fields in both
  places, that cached content never disagrees with the store, and that no update takes the
  "second chance" on the databag.
- **Events on top of it.** `SnapshotDiff` (which custom event fires when), `Statuses` (raised
  and resolved statuses, from the provider's list to the requirer's events) and `Aliases`.
- **Cluster coordination.** `RollingRestart`, `ClusterLocks` and `SelfHealing` with `HealingRuns`
  as machines over their steps, with the code that takes those steps proved to take exactly them.
- **Algorithms.** `ScrapeTargets` and `JobNames` (Prometheus jobs), `BackupList`, `AccountNames`
  (user and role names under length limits). `Text` and `SecretLabels` hold decimal numerals,
  dotted names and secret labels, `Collections` a few facts about sets and lists.

`dafny verify dfyconfig.toml` checks everything.

Where the code falls short of what one would expect, the model keeps the code and states the
exact condition:

- A delete call pops all its fields from each group's secret, so a call that spans groups leaves
  those secrets as they are (`TwoGroupDeleteKeepsBoth`, exact condition `DeleteRemovesExactly`).
- A status event of a subordinated remote whose unit is not ready misses `_diff` and is reported
  again (`LostEventIsReportedTwice`, exact conditions `RunTracksExactly`, `ObserverMatchesProvider`).
- Lock rows know labels, not clients (`SharedLabelEntersTwice`, exact condition `MutualExclusion`),
  and a lost reply can leave a row behind that blocks everybody else (`LostReleaseLeavesRow`,
  `GivingUpLeavesRow`, `OrphanBlocks`, exact condition `RowRemainsExactly`).
- The guards against rebooting beside an unreachable member and against dropping metadata while a
  member is ONLINE read a failed query as zero, and trust the view of the instance they ask
  (`BlindReboot`, `BlindDrop`, exact conditions `RebootBesideUnreachable`, `DropBesideOnline`).
- Leadership is read once per event, so an election during one lets two units restore the cluster
  at once (`TwoRestorers`, exact conditions `ExclusiveExactly`, `ElectionExactly`).
- A relation that is gone can leave its account behind (`LeakOnFailure`, `LeakOnRemoval`, exact
  condition `LeakedExactly`), and a deletion that stops half-way orphans the accounts its user made
  (`OrphanedChild`, exact condition `OrphanedExactly`).
- A scrape job that already carries a generated name defeats the deduplication (`ClashWitness`,
  exact conditions `NamesDistinctExactly`, `IdempotentExactly`).
- Role numbering relies on no role ever being dropped (`DroppedRoleIsReused`, exact
  condition `RolesNeverCollideExactly`).
- User names collide for ids of 17 digits and more that begin alike (`SharedUsername`, exact
  condition `UsernamesCollideExactly`).

## Model

| member | source | states |
|---|---|---|
| `SecretLabels.LabelPieces` | common/src/single_kernel/libs/data_platform_libs/v0/data_interfaces.py:1464-1468 | a printed label splits into the pieces of the relation name followed by id, group and `secret`, whatever dots the name holds |
| `SecretLabels.LabelRoundTrip` | common/src/single_kernel/libs/data_platform_libs/v0/data_interfaces.py:1464-1495 | looking a printed label up gives back its relation when the model has it and fails when not, for every name (dots included), id and dot-free group |
| `SecretLabels.ParsesExactly` | common/src/single_kernel/libs/data_platform_libs/v0/data_interfaces.py:1474-1490 | any text is read as the number in its third last piece and all that stands before it as the name, or as no label when that piece is no number |
| `SecretLabels.ShortTexts` | common/src/single_kernel/libs/data_platform_libs/v0/data_interfaces.py:1476-1490 | three pieces are read as an id without a name, fewer as no label |
| `SecretLabels.LabelInjective` | common/src/single_kernel/libs/data_platform_libs/v0/data_interfaces.py:1464-1468 | distinct (relation, id, group) triples never share a label, so cache entries never alias |
| `SecretLabels.LabelFaithful` | common/src/single_kernel/libs/data_platform_libs/v0/data_interfaces.py:1464-1468 | two labels of one relation name print alike iff they are the same (id, group) pair; this is why the storage model may use the pair |
| `SecretLabels.ProviderSchemeSound` | common/src/single_kernel/libs/data_platform_libs/v0/data_interfaces.py:1138-1148 | the library's URI keys are pairwise distinct, recognisable, and look like secret references: the only facts the storage proofs use of the naming |
| `SecretLabels.KeyOfField` | common/src/single_kernel/libs/data_platform_libs/v0/data_interfaces.py:1138-1148 | the databag key under which each field's secret is published, field by field |
| `SecretStore.ViewAt` | common/src/single_kernel/libs/data_platform_libs/v0/data_interfaces.py:1511-1524 | a field is in the flat view iff it is stored in the databag or in its group's secret and is no secret reference, with the stored value |
| `SecretStore.StorageInvariant` | common/src/single_kernel/libs/data_platform_libs/v0/data_interfaces.py:1303-1330 | in every well-formed state `secret-<group>` is in the databag iff that group's secret exists and then holds its URI; secrets are not empty and not shared; while one exists no requested field is in the databag |
| `SecretStore.FoundInSecret` | common/src/single_kernel/libs/data_platform_libs/v0/data_interfaces.py:1555-1592 | in secret mode a requested field is not in the databag but in the secret whose URI stands under its literal key (`secret-user` for user names and passwords, and so on) |
| `SecretStore.FoundInDatabag` | common/src/single_kernel/libs/data_platform_libs/v0/data_interfaces.py:1567-1577 | any other field, and any field of a relation on its databag, is in the databag |
| `StorageSteps.PutGroupKeepsWF` | common/src/single_kernel/libs/data_platform_libs/v0/data_interfaces.py:1288-1355 | creating or extending one group's secret keeps every storage invariant (URI key published iff the secret exists, no split storage, contents in the right group) and changes nothing but that secret and its URI key |
| `StorageSteps.PopGroupKeepsWF` | common/src/single_kernel/libs/data_platform_libs/v0/data_interfaces.py:1358-1394 | shrinking or withdrawing one group's secret keeps every storage invariant and changes nothing but that secret and its URI key |
| `StorageRefinement.UpdateRefines` | common/src/single_kernel/libs/data_platform_libs/v0/data_interfaces.py:1273-1286 | once the groups of an update are written and its other fields put in the databag, the state is well formed and means the flat map's update, other relations and fields unchanged |
| `StorageRefinement.OneStoredGroupMeans` | common/src/single_kernel/libs/data_platform_libs/v0/data_interfaces.py:1366-1379 | all fields of a delete call can be popped from a group's secret iff they are distinct, stored, requested and of one group |
| `StorageRefinement.DropRefines` | common/src/single_kernel/libs/data_platform_libs/v0/data_interfaces.py:1396-1404 | a delete that leaves the secrets alone means the flat map's delete, unless one group held the whole call |
| `StorageRefinement.PopRefines` | common/src/single_kernel/libs/data_platform_libs/v0/data_interfaces.py:1358-1394 | a delete whose fields all sit in one group's secret means the flat map's delete |
| `SecretCaching.CachedSecret.Meta` | common/src/single_kernel/libs/data_platform_libs/v0/data_interfaces.py:807-822 | finds a secret by label, else by URI (which then takes the label), and remembers it |
| `SecretCaching.CachedSecret.AddSecret` | common/src/single_kernel/libs/data_platform_libs/v0/data_interfaces.py:902-922 | a new secret under the label, with a handle that agrees with the store |
| `SecretCaching.CachedSecret.GetContent` | common/src/single_kernel/libs/data_platform_libs/v0/data_interfaces.py:924-939 | returns exactly the stored content, from the cache or not |
| `SecretCaching.CachedSecret.SetContent` | common/src/single_kernel/libs/data_platform_libs/v0/data_interfaces.py:941-955 | no revision is written iff the store already holds that content |
| `SecretCaching.CachedSecret.Remove` | common/src/single_kernel/libs/data_platform_libs/v0/data_interfaces.py:962-972 | the label's secret is gone from the store and the handle is empty |
| `SecretCaching.SecretCache.Get` | common/src/single_kernel/libs/data_platform_libs/v0/data_interfaces.py:983-993 | a handle is returned iff the label exists; every cached handle stays coherent with the store |
| `SecretCaching.SecretCache.Add` | common/src/single_kernel/libs/data_platform_libs/v0/data_interfaces.py:995-1003 | refused iff the label is cached already; otherwise stored, and all other handles stay coherent |
| `SecretCaching.SecretCache.SetContent` | common/src/single_kernel/libs/data_platform_libs/v0/data_interfaces.py:941-955 | writing through one handle leaves every other cached handle coherent |
| `SecretCaching.SecretCache.Remove` | common/src/single_kernel/libs/data_platform_libs/v0/data_interfaces.py:1005-1015 | removing one secret leaves every other cached handle coherent |
| `RelationData.ProviderData.constructor` | common/src/single_kernel/libs/data_platform_libs/v0/data_interfaces.py:1152-1166 | works with the given model and naming, and starts with an empty cache on a well-formed model |
| `RelationData.UriExactly` | common/src/single_kernel/libs/data_platform_libs/v0/data_interfaces.py:1767-1777 | a group's URI is looked up under `secret-<group>` in our databag iff a field of the group was requested from us, else in the other side's |
| `RelationData.ProviderData.GetRelationSecret` | common/src/single_kernel/libs/data_platform_libs/v0/data_interfaces.py:1210-1227 | a handle iff the label exists afterwards; nothing changes when the label existed or no URI is published |
| `RelationData.ProviderData.AddRelationSecret` | common/src/single_kernel/libs/data_platform_libs/v0/data_interfaces.py:1303-1330 | refuses iff a URI is published; otherwise secret and URI key appear together, and the cache never finds the label taken |
| `RelationData.ProviderData.UpdateRelationSecret` | common/src/single_kernel/libs/data_platform_libs/v0/data_interfaces.py:1333-1355 | always succeeds on an existing secret and merges the new fields into its content |
| `RelationData.ProviderData.AddOrUpdateRelationSecrets` | common/src/single_kernel/libs/data_platform_libs/v0/data_interfaces.py:1288-1300 | always succeeds, whether or not the secret exists |
| `RelationData.ProviderData.WriteGroup` | common/src/single_kernel/libs/data_platform_libs/v0/data_interfaces.py:1582-1591 | one turn of the loop over groups: succeeds and adds that group's part, keeping every invariant |
| `RelationData.ProviderData.WriteGroups` | common/src/single_kernel/libs/data_platform_libs/v0/data_interfaces.py:1580-1592 | no group of an update ever fails, so the second chance on the databag is never taken |
| `RelationData.ProviderData.WriteSecretFields` | common/src/single_kernel/libs/data_platform_libs/v0/data_interfaces.py:1555-1592 | requested fields go to secrets unless the relation is on its databag; exactly the others are left for the databag |
| `RelationData.ProviderData.UpdateRelationData` | common/src/single_kernel/libs/data_platform_libs/v0/data_interfaces.py:1273-1286 | the state after the call means the flat map's update |
| `RelationData.ProviderData.TryUpdate` | common/src/single_kernel/libs/data_platform_libs/v0/data_interfaces.py:1986-1995 | the guarded call: refused without any change for a non-leader, a missing relation, or a write before the requirer named a database |
| `RelationData.ProviderData.Update` | common/src/single_kernel/libs/data_platform_libs/v0/data_interfaces.py:1871-1877 | update_relation_data refines the flat map's update, with the same outcome for a non-leader, a missing relation and a premature write |
| `RelationData.PopAll` | common/src/single_kernel/libs/data_platform_libs/v0/data_interfaces.py:1368-1379 | succeeds iff the fields are distinct and all present, and then removes exactly them |
| `RelationData.ProviderData.ShrinkSecret` | common/src/single_kernel/libs/data_platform_libs/v0/data_interfaces.py:1381-1391 | the secret keeps what is left, or is withdrawn together with its URI key |
| `RelationData.ProviderData.DeleteRelationSecret` | common/src/single_kernel/libs/data_platform_libs/v0/data_interfaces.py:1358-1394 | succeeds iff every field of the call can be popped; otherwise nothing changes |
| `RelationData.ProviderData.DeleteGroups` | common/src/single_kernel/libs/data_platform_libs/v0/data_interfaces.py:1580-1592 | after the loop the secrets differ only if one group held the whole call, and then by exactly its fields |
| `RelationData.ProviderData.DeleteSecretFields` | common/src/single_kernel/libs/data_platform_libs/v0/data_interfaces.py:1555-1592 | what a delete does to the secrets, and which fields it leaves for the databag |
| `RelationData.ProviderData.Delete` | common/src/single_kernel/libs/data_platform_libs/v0/data_interfaces.py:1880-1886 | delete_relation_data refines the flat map's delete |
| `RelationData.ProviderData.GroupContents` | common/src/single_kernel/libs/data_platform_libs/v0/data_interfaces.py:1511-1524 | the wanted fields of one group's secret, without changing anything |
| `RelationData.ProviderData.ReadGroups` | common/src/single_kernel/libs/data_platform_libs/v0/data_interfaces.py:1580-1592 | collects exactly the wanted fields held in secrets; only fields of empty groups are tried on the databag |
| `RelationData.ProviderData.ReadFields` | common/src/single_kernel/libs/data_platform_libs/v0/data_interfaces.py:1651-1687 | each wanted field is read from wherever it is stored, in secret mode and in databag mode |
| `RelationData.ProviderData.Fetch` | common/src/single_kernel/libs/data_platform_libs/v0/data_interfaces.py:1829-1857 | fetch_my_relation_data changes no state and reads what the flat map says; an unrestricted fetch returns no secret reference |
| `RelationData.ProviderData.Perform` | common/src/single_kernel/libs/data_platform_libs/v0/data_interfaces.py:1871-1886 | one step of a run gives the flat map's reply and next state |
| `RelationData.ProviderData.Run` | common/src/single_kernel/libs/data_platform_libs/v0/data_interfaces.py:1273-1404 | every run of updates, deletes, fetches, hooks, a controller upgrade and requirer writes answers exactly as a flat map per relation, with storage, cache and mode invariants kept throughout |
| `RelationData.RunFrom` | common/src/single_kernel/libs/data_platform_libs/v0/data_interfaces.py:1273-1404 | a charm built on any well-formed model with the library's own naming gets, for any run of calls, exactly the replies of a flat map per relation: NotLeader, NoRelation and, for a write, Premature iff neither the start nor an earlier step has `database` and it names a field other than the four early ones; the model left is well formed and means the flat map's final state |
| `FlatRuns.RunKeepsField` | common/src/single_kernel/libs/data_platform_libs/v0/data_interfaces.py:1555-1592 | over any run, a field of a relation that no step writes or erases keeps its value |
| `FlatRuns.WrittenFieldReadsBack` | common/src/single_kernel/libs/data_platform_libs/v0/data_interfaces.py:1871-1877 | a written field reads back after any run that leaves it alone |
| `FlatRuns.ErasedFieldIsGone` | common/src/single_kernel/libs/data_platform_libs/v0/data_interfaces.py:1880-1886 | an erased field stays gone until it is written again |
| `FlatRuns.FetchExactly` | common/src/single_kernel/libs/data_platform_libs/v0/data_interfaces.py:1651-1687 | what a fetch returns, field by field: the stored fields named, or all but unrequested `secret-` ones |
| `FlatRuns.DeleteExactly` | common/src/single_kernel/libs/data_platform_libs/v0/data_interfaces.py:1358-1404 | what a delete removes, field by field, other relations untouched |
| `FlatRuns.DeleteRemovesExactly` | common/src/single_kernel/libs/data_platform_libs/v0/data_interfaces.py:1358-1404 | a delete call removes all it names iff the relation is not in secret mode, or one stored group holds the call, or it names no stored secret field |
| `FlatRuns.OneFieldDelete` | common/src/single_kernel/libs/data_platform_libs/v0/data_interfaces.py:1880-1886 | deleting one field removes exactly that field, always |
| `FlatRuns.TwoGroupDeleteKeepsBoth` | common/src/single_kernel/libs/data_platform_libs/v0/data_interfaces.py:1368-1379 | a concrete call naming stored fields of two groups that removes neither |
| `FlatRuns.BulkIsPointwise` | common/src/single_kernel/libs/data_platform_libs/v0/data_interfaces.py:1668-1687 | fetching everything gives, for each ordinary key, what fetching that key gives, in both storage modes |
| `FlatRuns.SecretModeIsKept` | common/src/single_kernel/libs/data_platform_libs/v0/data_interfaces.py:1567-1577 | once secrets are enabled no run moves a relation to databag mode |
| `FlatRuns.StaysOnDatabag` | common/src/single_kernel/libs/data_platform_libs/v0/data_interfaces.py:1567-1577 | a relation that started on its databag stays there over any run while one requested field is left in it |
| `FlatRuns.DatabaseOpens` | common/src/single_kernel/libs/data_platform_libs/v0/data_interfaces.py:1986-1995 | once the requirer has written `database`, every write of the leader is accepted |
| `FlatRuns.EarlyExactly` | common/src/single_kernel/libs/data_platform_libs/v0/data_interfaces.py:1988-1994 | before that, a write is accepted iff it names only `endpoints`, `read-only-endpoints`, `replset` and `encryption-secret` |
| `FlatRuns.WriteAnswers` | common/src/single_kernel/libs/data_platform_libs/v0/data_interfaces.py:1986-1995 | over any run, how each write is answered |
| `FlatRuns.RefusedChangesNothing` | common/src/single_kernel/libs/data_platform_libs/v0/data_interfaces.py:1986-1995 | a call that is not accepted changes nothing |
| `SnapshotDiff.DiffPatches` | common/src/single_kernel/libs/data_platform_libs/v0/data_interfaces.py:575-617 | added, changed and deleted are disjoint, patch the old data into the new, and are empty iff nothing changed |
| `SnapshotDiff.DiffIsMinimal` | common/src/single_kernel/libs/data_platform_libs/v0/data_interfaces.py:575-617 | no patch that yields the new data touches fewer keys |
| `SnapshotDiff.ProviderHandlers.OnRelationChanged` | common/src/single_kernel/libs/data_platform_libs/v0/data_interfaces.py:3698-3743 | the handler agrees with the event function: skipped for a non-leader, refused and rolled back on an inconsistent change, else at most one emission |
| `SnapshotDiff.SnapshotIsLastHandled` | common/src/single_kernel/libs/data_platform_libs/v0/data_interfaces.py:575-617 | in every run the snapshot is the data of the last handled event |
| `SnapshotDiff.RequestsFireExactly` | common/src/single_kernel/libs/data_platform_libs/v0/data_interfaces.py:3698-3743 | in every run, against the data of the last handled event: skipped iff not leader; refused iff `entity-type`, `extra-user-roles` or `extra-group-roles` changed; else one request, of the right kind, iff `database` is new, or else the permissions event iff permissions are new or changed and the entity type is not new |
| `SnapshotDiff.CleanExactly` | common/src/single_kernel/libs/data_platform_libs/v0/data_interfaces.py:596-600 | of the requirer's data only the key `data` is left out |
| `SnapshotDiff.RequestsNeedWithdrawal` | common/src/single_kernel/libs/data_platform_libs/v0/data_interfaces.py:3698-3743 | between two requests of a run there is a handled event at which the requirer names no database |
| `SnapshotDiff.RequestsBalance` | common/src/single_kernel/libs/data_platform_libs/v0/data_interfaces.py:3698-3743 | over every run, requests and withdrawals of `database` balance, so a second request needs a withdrawal in between |
| `Statuses.SerializeRoundTrip` | common/src/single_kernel/libs/data_platform_libs/v0/data_interfaces.py:2098-2100 | the written list is strictly sorted by code and parses back to the same statuses |
| `Statuses.StoreRefines` | common/src/single_kernel/libs/data_platform_libs/v0/data_interfaces.py:2071-2125 | each call on the stored list is the corresponding change of a map from codes to statuses |
| `Statuses.StoredRunRefines` | common/src/single_kernel/libs/data_platform_libs/v0/data_interfaces.py:2071-2125 | after every run of raise, resolve and clear the list is strictly sorted and equals the abstract map |
| `Statuses.ReadStatuses` | common/src/single_kernel/libs/data_platform_libs/v0/data_interfaces.py:2049-2060 | a later entry wins over an earlier one with its code |
| `Statuses.LastEntryWins` | common/src/single_kernel/libs/data_platform_libs/v0/data_interfaces.py:2049-2060 | the entry read for a code is the last one with it |
| `Statuses.ListByCode` | common/src/single_kernel/libs/data_platform_libs/v0/data_interfaces.py:2100 | the statuses in the order of their codes |
| `Statuses.ProviderStatuses.RaiseStatus` | common/src/single_kernel/libs/data_platform_libs/v0/data_interfaces.py:2071-2101 | the status is active under its code, nothing else changes, the list stays sorted |
| `Statuses.ProviderStatuses.RaiseCode` | common/src/single_kernel/libs/data_platform_libs/v0/data_interfaces.py:2084-2088 | fails iff the schema does not know the code, and then changes nothing |
| `Statuses.ProviderStatuses.ResolveStatus` | common/src/single_kernel/libs/data_platform_libs/v0/data_interfaces.py:2103-2117 | the code is inactive, nothing else changes; resolving an inactive code is harmless |
| `Statuses.ProviderStatuses.ClearStatuses` | common/src/single_kernel/libs/data_platform_libs/v0/data_interfaces.py:2119-2125 | no status is active |
| `Statuses.ProviderStatuses.Run` | common/src/single_kernel/libs/data_platform_libs/v0/data_interfaces.py:2071-2125 | every run of calls leaves the list of the abstract map, strictly sorted |
| `Statuses.Find` | common/src/single_kernel/libs/data_platform_libs/v0/data_interfaces.py:2455 | the first entry with the code |
| `Statuses.Collect` | common/src/single_kernel/libs/data_platform_libs/v0/data_interfaces.py:2453-2473 | one event per code, each from the given list |
| `Statuses.RequirerHandlers.MayDiff` | common/src/single_kernel/libs/data_platform_libs/v0/data_interfaces.py:4028-4039 | goes on unless the last remote application is subordinated and the last remote unit has not published `ready` |
| `Statuses.MissesDiffExactly` | common/src/single_kernel/libs/data_platform_libs/v0/data_interfaces.py:4028-4039 | an event misses `_diff` iff the last databag of another application says `subordinated` is `true` and no last unit of another charm says `ready` |
| `Statuses.RequirerHandlers.OnRelationChanged` | common/src/single_kernel/libs/data_platform_libs/v0/data_interfaces.py:2436-2473 | raised and resolved events are exactly the two code differences, each code once; the snapshot moves iff that guard lets the event through |
| `Statuses.RequirerHandlers.HandleAll` | common/src/single_kernel/libs/data_platform_libs/v0/data_interfaces.py:2436-2473 | a whole run of events reports each against the snapshot the earlier ones left |
| `Statuses.TracksExactly` | common/src/single_kernel/libs/data_platform_libs/v0/data_interfaces.py:2436-2473 | one event is reported rightly iff the observer and the saved snapshot agreed before |
| `Statuses.RunTracksExactly` | common/src/single_kernel/libs/data_platform_libs/v0/data_interfaces.py:4028-4043 | folding the events rebuilds the active codes at every event, none raised or resolved twice in a row, iff every event that changes the codes, but the last, comes from a remote that is not subordinated or whose unit is ready |
| `Statuses.OrdinaryRunTracks` | common/src/single_kernel/libs/data_platform_libs/v0/data_interfaces.py:4028-4043 | where no other application says it is subordinated, every run tracks the active codes, with no further condition |
| `Statuses.LostEventIsReportedTwice` | common/src/single_kernel/libs/data_platform_libs/v0/data_interfaces.py:4036-4039 | a subordinated remote whose unit is not ready makes one status be raised twice |
| `Statuses.ObserverMatchesProvider` | common/src/single_kernel/libs/data_platform_libs/v0/data_interfaces.py:2071-2125 | end to end: when events carry the lists stored after prefixes of any run of the provider's calls, the observer's codes are at every event those of the abstract map, under exactly the same condition |
| `Aliases.Remove` | common/src/single_kernel/libs/data_platform_libs/v0/data_interfaces.py:3927 | removes the first occurrence and nothing else |
| `Aliases.AliasAllocator.AvailableAliases` | common/src/single_kernel/libs/data_platform_libs/v0/data_interfaces.py:3921-3927 | the pool minus the aliases in use, in pool order; the removal never meets a missing alias |
| `Aliases.AliasAllocator.AssignAlias` | common/src/single_kernel/libs/data_platform_libs/v0/data_interfaces.py:3903-3937 | a live relation without alias gets the first free one, which the leader repeats in the application databag; fails iff the leader names a relation that is gone, and then changes nothing |
| `Aliases.RoomForOneMore` | common/src/single_kernel/libs/data_platform_libs/v0/data_interfaces.py:3864-3874 | pigeonhole: while a live relation has no alias, fewer aliases are in use than the pool holds |
| `Aliases.AssignKeepsValid` | common/src/single_kernel/libs/data_platform_libs/v0/data_interfaces.py:3921-3932 | an assignment always finds a free alias and keeps aliases distinct |
| `Aliases.RunKeepsValid` | common/src/single_kernel/libs/data_platform_libs/v0/data_interfaces.py:3903-3932 | every run of joins, assignments and breaks keeps aliases distinct and from the pool |
| `Aliases.AliasNeverChanges` | common/src/single_kernel/libs/data_platform_libs/v0/data_interfaces.py:3915-3919 | an alias once given never changes while the relation lives |
| `RollingRestart.RollingHelper.CheckWaitingOps` | common/src/single_kernel/events/helpers/events/rolling_ops.py:46-60 | true iff some listed peer waits for that kind of operation |
| `RollingRestart.RollingHelper.Callback` | common/src/single_kernel/events/helpers/events/rolling_ops.py:78-118 | result and next queue of one granted callback |
| `RollingRestart.TurnExactly` | common/src/single_kernel/events/helpers/events/rolling_ops.py:78-118 | an operation leaves the queue iff its server runs, the peer relation is there and, for the primary, no listed peer waits for the same kind; the role moves exactly with the primary's own operation; any other turn changes nothing |
| `RollingRestart.PrimaryGoesLast` | common/src/single_kernel/events/helpers/events/rolling_ops.py:89-91 | the primary restarts only when nobody else waits for the same kind |
| `RollingRestart.RoleMovesOncePerKind` | common/src/single_kernel/events/helpers/events/rolling_ops.py:78-118 | in every run without new requests the primary role moves at most once per kind of operation, and then the kind's queue is empty |
| `RollingRestart.EachRunsOnce` | common/src/single_kernel/events/helpers/events/rolling_ops.py:78-118 | released and still waiting operations always add up: each is executed exactly once |
| `RollingRestart.RoundShrinks` | common/src/single_kernel/events/helpers/events/rolling_ops.py:78-118 | every full round of grants strictly shrinks a non-empty waiting set |
| `RollingRestart.QueueEmpties` | common/src/single_kernel/events/helpers/events/rolling_ops.py:78-118 | as many full rounds as waiting operations empty the queue |
| `RollingRestart.TwoRoundsSuffice` | common/src/single_kernel/events/helpers/events/rolling_ops.py:78-118 | two full rounds finish a batch of one kind, however many units wait |
| `RollingRestart.ThreeRoundsSuffice` | common/src/single_kernel/events/helpers/events/rolling_ops.py:78-118 | three full rounds empty any queue, whatever operations of either kind wait |
| `ClusterLocks.RunKeepsHolding` | common/src/single_kernel/managers/clients/mysql_server/mysql_cluster.py:44-92 | in every interleaving whoever is inside a section holds its row |
| `ClusterLocks.MutualExclusion` | common/src/single_kernel/managers/clients/mysql_server/mysql_cluster.py:79-92 | at most one client is in each task's section in every interleaving, iff no two clients share a label |
| `ClusterLocks.JobsExclude` | common/src/single_kernel/managers/clients/mysql_server/mysql_cluster.py:94-124 | over every run, of clients adding or rejoining at most one is in its section, and of clients removing at most one |
| `ClusterLocks.AddBesideRemove` | common/src/single_kernel/managers/clients/mysql_server/mysql_cluster.py:259-274 | adding and removing do not exclude each other |
| `ClusterLocks.SharedLabelEntersTwice` | common/src/single_kernel/managers/clients/mysql_server/mysql_cluster.py:60-61 | two clients with one label enter the same section |
| `ClusterLocks.ReleaseOnEveryExit` | common/src/single_kernel/managers/clients/mysql_server/mysql_cluster.py:79-124 | in every run each section entered is left by exactly one attempted release, the failed clone retry included |
| `ClusterLocks.AtMostTwoCalls` | common/src/single_kernel/managers/clients/mysql_server/mysql_cluster.py:106-124 | in every run a section calls the cluster at most twice, the clone retry being the last |
| `ClusterLocks.RowBlocks` | common/src/single_kernel/managers/clients/mysql_server/mysql_cluster.py:44-92 | from any state with a row held, in every run without its label the row stays and nobody of another label is ever inside |
| `ClusterLocks.OrphanBlocks` | common/src/single_kernel/managers/clients/mysql_server/mysql_cluster.py:63-92 | after any run, the row of a client that is done keeps everybody out of the section until that client acts again |
| `ClusterLocks.LostReleaseLeavesRow` | common/src/single_kernel/managers/clients/mysql_server/mysql_cluster.py:63-77 | a reachable run ending with the client done and its row held: the release is lost |
| `ClusterLocks.GivingUpLeavesRow` | common/src/single_kernel/managers/clients/mysql_server/mysql_cluster.py:82-89 | another: ten acquisitions take effect unanswered and the client gives up |
| `ClusterLocks.RowRemainsExactly` | common/src/single_kernel/managers/clients/mysql_server/mysql_cluster.py:44-92 | a finished call leaves its row iff, having entered, its release was lost before taking effect, or, having given up, the row was its own before or an acquisition took it unanswered; whatever other labels do meanwhile |
| `ClusterLocks.ClusterClient.AcquireLock` | common/src/single_kernel/managers/clients/mysql_server/mysql_cluster.py:44-61 | succeeds iff answered and holding the row, and is the machine's step |
| `ClusterLocks.ClusterClient.ReleaseLock` | common/src/single_kernel/managers/clients/mysql_server/mysql_cluster.py:63-77 | succeeds iff answered, and then the row is not the caller's |
| `ClusterLocks.ClusterClient.EnterSection` | common/src/single_kernel/managers/clients/mysql_server/mysql_cluster.py:79-89 | the retry loop ends inside the section or, after ten failures, finished with an error |
| `ClusterLocks.ClusterClient.AddInstance` | common/src/single_kernel/managers/clients/mysql_server/mysql_cluster.py:94-124 | whatever the replies and whatever other clients do in between, the call is a stretch of a run of the machine; it succeeds iff a section was entered, one of the two tries worked and the release was answered, and releases match entries |
| `ClusterLocks.ClusterClient.RejoinInstance` | common/src/single_kernel/managers/clients/mysql_server/mysql_cluster.py:224-235 | the same for rejoining, without a second try |
| `ClusterLocks.ClusterClient.RemoveInstance` | common/src/single_kernel/managers/clients/mysql_server/mysql_cluster.py:259-274 | the same for removing; the primary is left alone without touching the lock |
| `SelfHealing.SelfHealingHandler.CollectPeerStates` | common/src/single_kernel/events/handlers/self_healing.py:63-76 | the set of states the peers publish |
| `SelfHealing.SelfHealingHandler.RecoverFromOnline` | common/src/single_kernel/events/handlers/self_healing.py:93-121 | the actions of an ONLINE unit, leader or not, and whether it raises |
| `SelfHealing.SelfHealingHandler.RecoverFromOffline` | common/src/single_kernel/events/handlers/self_healing.py:123-160 | the actions of an OFFLINE unit, leader or not, and whether it raises |
| `SelfHealing.SelfHealingHandler.OnSelfHealing` | common/src/single_kernel/events/handlers/self_healing.py:162-186 | the whole event appends exactly the specified trace of actions |
| `SelfHealing.RebootsExactly` | common/src/single_kernel/managers/managers/self_healing.py:60-69 | the cluster is rebooted iff an attending leader may recover it and counted no unreachable member; the count comes after stopping replication and right before the reboot |
| `SelfHealing.DropsExactly` | common/src/single_kernel/events/handlers/self_healing.py:123-152 | metadata is dropped iff an attending OFFLINE leader without ONLINE peer counted no ONLINE and then no UNREACHABLE member and failed to reboot, in that order |
| `SelfHealing.CreatesExactly` | common/src/single_kernel/managers/managers/self_healing.py:71-74 | a cluster is created iff its metadata was dropped with success |
| `SelfHealing.RebootsOnSight` | common/src/single_kernel/events/handlers/self_healing.py:93-149 | the cluster is rebooted iff a running, set up, not refreshing leader got an unreachable count that failed or shows none and is ONLINE without quorum, or OFFLINE with peers all gone, all OFFLINE or all waiting and an ONLINE count that failed or shows none |
| `SelfHealing.DropsOnSight` | common/src/single_kernel/events/handlers/self_healing.py:120-149 | metadata is dropped iff the second of these holds and the reboot fails |
| `SelfHealing.IdleOnSight` | common/src/single_kernel/events/handlers/self_healing.py:160-186 | a stopped server is started, a unit not set up or refreshing waits, other states are left alone |
| `SelfHealing.OnlineOnSight` | common/src/single_kernel/events/handlers/self_healing.py:93-118 | all that an ONLINE unit does, action by action |
| `SelfHealing.RejoinsOnSight` | common/src/single_kernel/managers/managers/self_healing.py:38-58 | an OFFLINE unit beside an ONLINE peer rejoins iff a primary is found that lists it |
| `SelfHealing.OfflineOnSight` | common/src/single_kernel/events/handlers/self_healing.py:120-158 | all that an OFFLINE unit does otherwise, action by action |
| `SelfHealing.RebootBesideUnreachable` | common/src/single_kernel/managers/clients/mysql_server/mysql_instance.py:244-252 | with a member really unreachable, the reboot happens iff an attending leader may recover and the count failed or does not show the member; where the view asked is the cluster's, iff the count failed |
| `SelfHealing.DropBesideOnline` | common/src/single_kernel/managers/clients/mysql_server/mysql_instance.py:244-252 | with a member really ONLINE, metadata is dropped iff an attending OFFLINE leader whose peers look gone has an ONLINE count that failed or does not show it, an UNREACHABLE one that failed or reads zero, and failed to reboot; where the view asked is the cluster's, the ONLINE count failed |
| `SelfHealing.BlindReboot` | common/src/single_kernel/managers/managers/self_healing.py:60-69 | events that reboot beside an unreachable member, after a failed query and after one answered from a stale view |
| `SelfHealing.BlindDrop` | common/src/single_kernel/events/handlers/self_healing.py:138-146 | events that drop the metadata while a member is ONLINE, after failed queries and after ones answered from a stale view |
| `HealingRuns.RunSafety` | common/src/single_kernel/events/handlers/self_healing.py:93-186 | in every interleaving of the units' actions and of elections, each reboot, drop or creation is taken by the leader of the term its event began in, after counts that showed nobody or failed |
| `HealingRuns.DropFollowsReboot` | common/src/single_kernel/events/handlers/self_healing.py:141-146 | in every run metadata is dropped only after a reboot that failed earlier in the same event |
| `HealingRuns.OneRestorerPerTerm` | common/src/single_kernel/events/handlers/self_healing.py:171-184 | in every run the restoring actions of events begun in one term are one unit's; two units restore in one term only if an event was carried over an election |
| `HealingRuns.ExclusiveExactly` | common/src/single_kernel/events/handlers/self_healing.py:171-184 | until the next election no two units are ever about to restore at once, iff at most one unit leads or is about to restore now |
| `HealingRuns.ElectionExactly` | common/src/single_kernel/events/handlers/self_healing.py:171-184 | an election keeps that so iff it takes the lead from nobody who is about to restore |
| `HealingRuns.CalmRunsAreExclusive` | common/src/single_kernel/events/handlers/self_healing.py:171-184 | in every run whose elections are of that kind, no two units are ever about to restore at once |
| `HealingRuns.TwoRestorers` | common/src/single_kernel/events/handlers/self_healing.py:171-184 | leadership that moves during an event: a run with two units about to restore |
| `JobNames.DedupeJobNames` | common/src/single_kernel/libs/prometheus_k8s/v0/prometheus_scrape.py:1463-1503 | the loops compute the deduplication, seen digests standing for kept jobs |
| `JobNames.RenameGroups` | common/src/single_kernel/libs/prometheus_k8s/v0/prometheus_scrape.py:1473-1489 | the groups in order of first appearance, renamed where a name is shared |
| `JobNames.CollectNames` | common/src/single_kernel/libs/prometheus_k8s/v0/prometheus_scrape.py:1475-1478 | the names in order of first appearance |
| `JobNames.RenameGroup` | common/src/single_kernel/libs/prometheus_k8s/v0/prometheus_scrape.py:1480-1486 | the jobs of one name, renamed iff there are several |
| `JobNames.DropRepeats` | common/src/single_kernel/libs/prometheus_k8s/v0/prometheus_scrape.py:1491-1503 | the distinct jobs in order of first appearance |
| `JobNames.JobsSurvive` | common/src/single_kernel/libs/prometheus_k8s/v0/prometheus_scrape.py:1463-1503 | exactly the renamed input jobs come out, and uniquely named jobs keep their name |
| `JobNames.OutputExactly` | common/src/single_kernel/libs/prometheus_k8s/v0/prometheus_scrape.py:1463-1503 | exactly these jobs come out: each input job, its name kept if no other job has it, else followed by an underscore and the job's digest |
| `JobNames.NamesDistinctExactly` | common/src/single_kernel/libs/prometheus_k8s/v0/prometheus_scrape.py:1463-1503 | output names are pairwise distinct iff no singly named job carries a name generated for another job |
| `JobNames.ClashWitness` | common/src/single_kernel/libs/prometheus_k8s/v0/prometheus_scrape.py:1480-1489 | for every hash, three jobs of which one carries a name generated for another; without hash collisions their output names are not distinct |
| `JobNames.DistinctIsFixed` | common/src/single_kernel/libs/prometheus_k8s/v0/prometheus_scrape.py:1463-1503 | jobs with distinct names pass through unchanged, in order |
| `JobNames.IdempotentExactly` | common/src/single_kernel/libs/prometheus_k8s/v0/prometheus_scrape.py:1463-1503 | applying it again is the identity under exactly the same condition |
| `ScrapeTargets.ClassifyTargets` | common/src/single_kernel/libs/prometheus_k8s/v0/prometheus_scrape.py:498-513 | the two lists, in order, together hold every target with its multiplicity |
| `ScrapeTargets.ReplaceAround` | common/src/single_kernel/libs/prometheus_k8s/v0/prometheus_scrape.py:678-680 | each star gives way to the host and what stands around it stays |
| `ScrapeTargets.ReplaceFirst` | common/src/single_kernel/libs/prometheus_k8s/v0/prometheus_scrape.py:678-680 | `*` followed by a star-free rest, such as `*:9104`, becomes the host followed by that rest |
| `ScrapeTargets.NumberAfterSlash` | common/src/single_kernel/libs/prometheus_k8s/v0/prometheus_scrape.py:568 | the number of a unit is what follows its last slash |
| `ScrapeTargets.TableIsRight` | common/src/single_kernel/libs/prometheus_k8s/v0/prometheus_scrape.py:473-496 | the table names only units that own the address or FQDN |
| `ScrapeTargets.TableIsComplete` | common/src/single_kernel/libs/prometheus_k8s/v0/prometheus_scrape.py:490-496 | with a topology every address and FQDN is in the table, under the last unit that has it; without one the table is empty |
| `ScrapeTargets.MatchConserves` | common/src/single_kernel/libs/prometheus_k8s/v0/prometheus_scrape.py:515-542 | matching loses no target, lists each under a unit the table gives for its host, leaves only unknown hosts |
| `ScrapeTargets.ListsInOrder` | common/src/single_kernel/libs/prometheus_k8s/v0/prometheus_scrape.py:530-542 | each unit's list, and the rest, hold exactly their targets in the order given |
| `ScrapeTargets.MatchTargets` | common/src/single_kernel/libs/prometheus_k8s/v0/prometheus_scrape.py:515-542 | the loop computes that matching |
| `ScrapeTargets.MatchedJobs` | common/src/single_kernel/libs/prometheus_k8s/v0/prometheus_scrape.py:666-673 | one job per matched unit, in order of first match |
| `ScrapeTargets.WildcardJobs` | common/src/single_kernel/libs/prometheus_k8s/v0/prometheus_scrape.py:675-685 | one job per host with the star replaced |
| `ScrapeTargets.ExpandConfig` | common/src/single_kernel/libs/prometheus_k8s/v0/prometheus_scrape.py:635-685 | per-unit jobs of one config, and what is left of it |
| `ScrapeTargets.ExpandJob` | common/src/single_kernel/libs/prometheus_k8s/v0/prometheus_scrape.py:625-698 | per-unit jobs of one job, then one job for what is left |
| `ScrapeTargets.TargetsConserved` | common/src/single_kernel/libs/prometheus_k8s/v0/prometheus_scrape.py:587-700 | over all jobs the output targets are each plain target once and each wildcard target once per host, as multisets |
| `ScrapeTargets.NothingMissing` | common/src/single_kernel/libs/prometheus_k8s/v0/prometheus_scrape.py:587-700 | every plain target, and every wildcard at every host, is among the expected targets |
| `ScrapeTargets.ExpectedSize` | common/src/single_kernel/libs/prometheus_k8s/v0/prometheus_scrape.py:635-685 | a config gives one target for each plain one and one per host for each wildcard |
| `ScrapeTargets.OutputsExplained` | common/src/single_kernel/libs/prometheus_k8s/v0/prometheus_scrape.py:544-700 | every output job is one host unit's share of one config of an input job, with the name, path prefix, relabelling and exact labels (author's before unit's before topology's) due to it, each target owned by that unit or a wildcard resolved at its host (`*:port` to address and port); or the rest of an input job, likewise, whose targets' hosts are all unknown |
| `ScrapeTargets.ExpandTargets` | common/src/single_kernel/libs/prometheus_k8s/v0/prometheus_scrape.py:587-700 | the whole expansion conserves targets and explains every output job in that sense |
| `ScrapeTargets.LeftOverIsUnknown` | common/src/single_kernel/libs/prometheus_k8s/v0/prometheus_scrape.py:536-541 | a plain target is left over iff no unit is known for its host |
| `BackupList.SortSorted` | common/src/single_kernel/managers/managers/backup/backup_list.py:76 | the result is sorted by id and holds the same entries |
| `BackupList.SortedIsUnique` | common/src/single_kernel/managers/managers/backup/backup_list.py:76 | two sorted lists of the same entries are the same list, entries with equal ids being equal |
| `BackupList.ListingIgnoresOrder` | common/src/single_kernel/managers/managers/backup/backup_list.py:45-76 | the listing is the same for every order and paging of the objects |
| `BackupList.StatusOnlyAdvances` | common/src/single_kernel/managers/managers/backup/backup_list.py:29-39 | new objects never demote a finished backup nor return a failed one to progress |
| `BackupList.ListingExactly` | common/src/single_kernel/managers/managers/backup/backup_list.py:29-76 | entry by entry: an id is listed once per metadata file with a timestamp name, Finished iff `<id>.md5` is there, else Failed iff `<id>.log` or `<id>.backup.log` is, else InProgress |
| `BackupList.AtMostDiffers` | common/src/single_kernel/managers/managers/backup/backup_list.py:76 | the order of ids is that of their first different characters, a beginning coming first |
| `BackupList.CollectPage` | common/src/single_kernel/managers/managers/backup/backup_list.py:53-69 | one page extends the three id lists to what the objects seen so far hold |
| `BackupList.CollectIds` | common/src/single_kernel/managers/managers/backup/backup_list.py:48-69 | the three id lists hold the valid metadata ids, the checksum ids and the log ids of all pages |
| `BackupList.CollectBackups` | common/src/single_kernel/managers/managers/backup/backup_list.py:45-76 | the result is the sorted listing of the flattened pages |
| `AccountNames.UsernamesCollideExactly` | common/src/single_kernel/events/handlers/database.py:55-60 | two relations share a user name iff they are one, or both ids have at least 17 digits and agree on the first 17 |
| `AccountNames.UsernameExactly` | common/src/single_kernel/events/handlers/database.py:55-60 | `relation-`, the id, an underscore and as much of the model id as fits in 26 characters; a long id is cut after 17 digits |
| `AccountNames.LongIdsCollide` | common/src/single_kernel/events/handlers/database.py:55-60 | any two ids that differ only in a digit after the seventeenth share a user name |
| `AccountNames.SharedUsername` | common/src/single_kernel/events/handlers/database.py:55-60 | the first two ids of 18 digits share a user name |
| `AccountNames.UsernamesDistinct` | common/src/single_kernel/events/handlers/database.py:55-60 | below 10^16 every relation has a user name of its own, of at most 26 characters |
| `AccountNames.AccountsMatchRelations` | common/src/single_kernel/events/handlers/database.py:71-144 | in every run the relations' accounts are exactly those requested with success and not deleted since, each its own, so breaking one relation never removes the account of another |
| `AccountNames.LeakedExactly` | common/src/single_kernel/events/handlers/database.py:129-144 | the account of a relation that is gone (broken since its last request) stays behind iff each of its breaks was handled by a unit being removed or not leading, or its deletion failed |
| `AccountNames.LeakOnFailure` | common/src/single_kernel/events/handlers/database.py:141-144 | a failed deletion is only logged: the relation is gone, its account is not |
| `AccountNames.LeakOnRemoval` | common/src/single_kernel/events/handlers/database.py:131-133 | a leader being removed deletes nothing: the relation is gone, its account is not |
| `AccountNames.OrphanedExactly` | common/src/single_kernel/managers/managers/database.py:68-80 | in every run, accounts made by a relation's user are left without it iff some deletion stopped after the user while such accounts were there and no later event of the relation requested it again or deleted it whole |
| `AccountNames.ChildrenMatchRelations` | common/src/single_kernel/managers/managers/database.py:68-80 | in every run an account made by a relation's user has its maker, requested and not deleted since, or was orphaned by a deletion that stopped half-way and was not made good |
| `AccountNames.ChildStays` | common/src/single_kernel/managers/managers/database.py:68-80 | breaking other relations never removes an account made by this relation's user |
| `AccountNames.OrphanedChild` | common/src/single_kernel/managers/managers/database.py:78-80 | a deletion that stops after the user leaves the accounts it made without a maker |
| `AccountNames.LikeCoversPrefix` | common/src/single_kernel/managers/clients/mysql_server/mysql_instance.py:58-60 | the search pattern, with its wildcards, still matches every role with the literal prefix |
| `AccountNames.LikeExactly` | common/src/single_kernel/managers/clients/mysql_server/mysql_instance.py:58-60 | what such a pattern matches, exactly: the same characters, anything where it has an underscore, and any end |
| `AccountNames.RoleNameInjective` | common/src/single_kernel/managers/clients/mysql_server/mysql_instance.py:62-66 | a role name tells its trimmed database name and its number |
| `AccountNames.RoleExactly` | common/src/single_kernel/managers/clients/mysql_server/mysql_instance.py:51-66 | `charmed_dba_`, the first 17 characters of the database name, an underscore and the count in two digits or more |
| `AccountNames.NextRoleIsFresh` | common/src/single_kernel/managers/clients/mysql_server/mysql_instance.py:51-66 | the next role does not exist yet, even where another database name was cut to the same text, and numbering stays below the count |
| `AccountNames.RolesNeverCollide` | common/src/single_kernel/managers/clients/mysql_server/mysql_instance.py:76-93 | in every run that drops no role, each role created is new |
| `AccountNames.RolesNeverCollideExactly` | common/src/single_kernel/managers/clients/mysql_server/mysql_instance.py:51-93 | every run of database creations makes new roles only, iff each role in use is numbered below the count of roles matching its name (which no creation breaks and a drop can) |
| `AccountNames.EventuallyStale` | common/src/single_kernel/managers/clients/mysql_server/mysql_instance.py:51-93 | otherwise creating the same database often enough names an existing role |
| `AccountNames.RoleFits` | common/src/single_kernel/managers/clients/mysql_server/mysql_instance.py:51-66 | a role name fits 32 characters while fewer than 100 roles match, and for full-length names only then |
| `AccountNames.DroppedRoleIsReused` | common/src/single_kernel/managers/clients/mysql_server/mysql_instance.py:51-66 | after a drop the next name can be one that exists |

## Left out

- Databags are plain maps: Juju's rule that writing an empty value removes the key is not modelled, so values stand for non-empty ones.
- The requirer's list of requested secret fields is fixed per relation and taken as a set; reading it from JSON, and a malformed list keeping the previous value, are not modelled.
- The requirer does not publish `secret-extra`, and the charm does not itself write or erase a `secret-<group>` key or have one requested as a field.
- Looking a secret up by a URI that names no secret raises in Juju; here it is a precondition of `CachedSecret.Meta`, which every run is shown to meet.
- Encryption across models, legacy labels and their migration, secret revisions seen by other units, and Juju model errors.
- `DataPeerData`, the Kafka, OpenSearch, Karapace and Etcd classes, `DataDict` and the per-field setters, which only wrap the calls modelled here.
- Fetching the other side's data (`fetch_relation_data`): only the provider's own side is modelled.
- Non-ASCII digits and blanks in `int`, and Juju's own errors while looking a relation up.
- Statuses are modelled on one relation that is ready for writing; their storage as a relation field is what `RelationData` covers.
- The requirer's other events (database created, endpoints changed) and the secret-changed events.
- The rolling-operations library is reduced to one grant at a time and a queue that a release leaves and a retry keeps; errors raised inside a restart are not modelled.
- The SQL of the lock table is taken to be one atomic conditional write of one row per task; waiting times between attempts are not modelled.
- Joining, splitting and counting of cluster members inside mysqlsh, MySQL errors other than the execution error, and the effect of actions on the cluster: self-healing is a statement about which actions are taken on what was seen and on what was there when it was counted. What an instance shows of the others after its replication was stopped is left open (`shown` beside `actual`), not derived; members that change between a count and the action after it are not followed.
- Path splitting of object keys and timestamp parsing are taken as given (`Object` and `valid`); formatting the backup table is left out.
- The host part of a target is taken as given (`hostOf`); job dictionaries are values, so sharing between a job and its shallow copies is not modelled.
- JobNames.NamesDistinctExactly: SHA-256 over the JSON text is taken as a function that does not collide on the jobs at hand.
- AccountNames.NextRoleIsFresh: case folding in `LIKE` and database names with a backslash are not modelled.
- Accounts made by a relation's user are taken not to be named like relation users; removing a single router's account is not modelled.
- The other charm libraries (dashboards, logs, agents), TLS, refresh, configuration, status texts and the wiring of events to handlers.
