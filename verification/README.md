# Sharding table configuration: subscriber and data-node swapper

This project is a Dafny model of two parts of Apache ShardingSphere's sharding feature.

- **`ShardingTableConfigurationSubscriber`** has twelve `renew` handlers. Each one applies a configuration-change event to a database's sharding rule configuration, then posts a `DatabaseRuleConfigurationChangedEvent` carrying the whole configuration. The changes are: add, alter or delete a table rule, an auto-table rule or a binding group; and add, alter or delete broadcast tables.
- **`NewYamlShardingRuleConfigurationSwapper`** turns a `ShardingRuleConfiguration` into an ordered collection of repository data nodes, each a path and a marshalled value.

The model has five modules:

- `Wrappers` (wrappers.dfy) holds `Option` and `Result`.
- `Keyed` (keyed.dfy) models the list operations the handlers use:
  - `Select`, every entry with a given key;
  - `Without`, which is `removeIf` on a key;
  - `Upsert`, which is `removeIf` on the payload's own key followed by `add`;
  - `Replace`, which is `removeIf` on a named key followed by `add`.
- `RuleConfig` (rule_config.dfy) holds `ShardingRuleConfiguration` and its records.
  - Fields the Java code null-checks are `Option`s.
  - The three `LinkedHashMap` algorithm maps are insertion-ordered entry lists.
  - `ValidConfig` says that every keyed collection holds each key at most once.
- `Subscriber` (subscriber.dfy) holds the twelve handlers as pure functions and the dispatcher `Renew`.
  - Each handler takes the database registry and the event. The gated handlers also take the active-version oracle; the three binding-group handlers do not.
  - Each returns either the new registry together with the event it posted (`None` when the version gate dropped the event), or an error where the Java code would throw.
  - The Java code changes the configuration object that the rule holds, so after a commit the stored rule is the posted configuration.
- `YamlSwapper` (yaml_swapper.dfy) models the swapper.
  - `SwapToDataNodes` and its helpers are methods with loops, matching the Java.
  - `DataNodes` is a functional reference that concatenates thirteen sections in output order.
  - `ExpectedOccurrences` is a second, independent reference: how many times each path should appear.

## Model

Each row names a member whose contract states the property, and the lines of the source it models.

| member | source | states |
|---|---|---|
| Subscriber.RenewAddTable | features/sharding/core/src/main/java/org/apache/shardingsphere/sharding/subscriber/ShardingTableConfigurationSubscriber.java:71-88 | A stale event is dropped with no effect. An unknown database fails. With a rule present, the tables then hold exactly one entry with the payload's logic table: the payload itself, which is the last entry. Every other logic table keeps its entries, unique keys stay unique, no other field changes, and the stored rule is the posted one. With no rule, a fresh configuration holding only the payload is posted and nothing is stored. |
| Subscriber.RenewAddAutoTable | features/sharding/core/src/main/java/org/apache/shardingsphere/sharding/subscriber/ShardingTableConfigurationSubscriber.java:96-113 | The same as the add-table handler, for auto tables. |
| Subscriber.RenewAddTableReference | features/sharding/core/src/main/java/org/apache/shardingsphere/sharding/subscriber/ShardingTableConfigurationSubscriber.java:121-135 | An upsert by group name into the binding groups, with no version gate: it is never dropped. With no rule, a fresh configuration holding only the group is posted. |
| Subscriber.RenewAddBroadcastTable | features/sharding/core/src/main/java/org/apache/shardingsphere/sharding/subscriber/ShardingTableConfigurationSubscriber.java:143-156 | When not stale, it posts the stored configuration unchanged, or an empty one when there is no rule. The registry is left untouched. |
| Subscriber.RenewAlterTable | features/sharding/core/src/main/java/org/apache/shardingsphere/sharding/subscriber/ShardingTableConfigurationSubscriber.java:164-174 | It fails without a rule. Otherwise, entries keyed by the event's table name are removed and the payload becomes the last entry. If the payload is keyed differently, it is added after the existing entries for its key. Every other key is unchanged. |
| Subscriber.RenewAlterAutoTable | features/sharding/core/src/main/java/org/apache/shardingsphere/sharding/subscriber/ShardingTableConfigurationSubscriber.java:182-192 | The same remove-then-append, on auto tables. |
| Subscriber.RenewAlterTableReference | features/sharding/core/src/main/java/org/apache/shardingsphere/sharding/subscriber/ShardingTableConfigurationSubscriber.java:200-207 | The same remove-then-append, on binding groups, with no version gate. |
| Subscriber.RenewAlterBroadcastTable | features/sharding/core/src/main/java/org/apache/shardingsphere/sharding/subscriber/ShardingTableConfigurationSubscriber.java:215-222 | It fails without a rule. Otherwise it reposts the stored configuration unchanged. |
| Subscriber.RenewDeleteTable | features/sharding/core/src/main/java/org/apache/shardingsphere/sharding/subscriber/ShardingTableConfigurationSubscriber.java:230-238 | It fails without a rule. Otherwise no table keyed by the event's name remains and every other key keeps its entries. If none matched, the configuration is unchanged. |
| Subscriber.RenewDeleteAutoTable | features/sharding/core/src/main/java/org/apache/shardingsphere/sharding/subscriber/ShardingTableConfigurationSubscriber.java:246-254 | The same, on auto tables. Tables and binding groups are untouched. |
| Subscriber.RenewDeleteTableReference | features/sharding/core/src/main/java/org/apache/shardingsphere/sharding/subscriber/ShardingTableConfigurationSubscriber.java:262-267 | The same, on binding groups, with no version gate. |
| Subscriber.RenewDeleteBroadcastTable | features/sharding/core/src/main/java/org/apache/shardingsphere/sharding/subscriber/ShardingTableConfigurationSubscriber.java:275-282 | It fails without a rule. Otherwise it reposts the stored configuration unchanged. |
| Subscriber.Renew | features/sharding/core/src/main/java/org/apache/shardingsphere/sharding/subscriber/ShardingTableConfigurationSubscriber.java:70-281 | For every event: a gated event older than the active version is dropped with no effect, and an equal or newer one proceeds. Posting nothing happens only on a drop. A handler fails exactly on an unknown database, or on an alter or delete with no rule. Every other outcome posts one event naming the event's database. It carries the stored configuration when the database has a sharding rule. An add with no rule posts a fresh configuration that is not stored. Other databases are untouched, and no handler creates or removes a sharding rule. |
| Subscriber.AddTableIdempotent | features/sharding/core/src/main/java/org/apache/shardingsphere/sharding/subscriber/ShardingTableConfigurationSubscriber.java:79-82 | Delivering an add-table event a second time, to the state the first delivery left, reproduces that outcome exactly. |
| Subscriber.DeleteAutoTableIdempotent | features/sharding/core/src/main/java/org/apache/shardingsphere/sharding/subscriber/ShardingTableConfigurationSubscriber.java:251-253 | Delivering a delete-auto-table event a second time reproduces the first outcome. |
| Subscriber.AlterTableOwnNameIsAdd | features/sharding/core/src/main/java/org/apache/shardingsphere/sharding/subscriber/ShardingTableConfigurationSubscriber.java:170-172 | When a rule exists, an alter whose payload is keyed by the event's own table name gives the same result as adding that payload. |
| Subscriber.AlterTableMayDuplicate | features/sharding/core/src/main/java/org/apache/shardingsphere/sharding/subscriber/ShardingTableConfigurationSubscriber.java:170-172 | A concrete configuration with unique logic tables. After one alter whose payload is keyed differently from the event's table name, it holds two entries for the same logic table. |
| Subscriber.TablesKeepOrder | features/sharding/core/src/main/java/org/apache/shardingsphere/sharding/subscriber/ShardingTableConfigurationSubscriber.java:71-238 | After a fresh add, alter or delete of a table rule on an existing rule, the surviving tables keep their old relative order. For an add or alter, the payload is the last entry. |
| Subscriber.AutoTablesKeepOrder | features/sharding/core/src/main/java/org/apache/shardingsphere/sharding/subscriber/ShardingTableConfigurationSubscriber.java:96-254 | The same order facts for the add, alter and delete auto-table handlers, on `autoTables`. |
| Subscriber.BindingGroupsKeepOrder | features/sharding/core/src/main/java/org/apache/shardingsphere/sharding/subscriber/ShardingTableConfigurationSubscriber.java:121-267 | The same order facts for the three ungated binding-group handlers, on `bindingTableGroups`. |
| Subscriber.TableReferenceIgnoresOracle | features/sharding/core/src/main/java/org/apache/shardingsphere/sharding/subscriber/ShardingTableConfigurationSubscriber.java:121-135 | The binding-group handlers give the same outcome under any two active-version oracles, and never drop an event silently. |
| Keyed.Select | features/sharding/core/src/main/java/org/apache/shardingsphere/sharding/subscriber/ShardingTableConfigurationSubscriber.java:81 | The entries of a list keyed `k` are exactly its members with that key, and there are no more of them than entries in the list. |
| Keyed.Without | features/sharding/core/src/main/java/org/apache/shardingsphere/sharding/subscriber/ShardingTableConfigurationSubscriber.java:236 | `removeIf` on a key keeps exactly the members with another key. It drops as many entries as `Select` finds, and when there is no match it leaves the list as it was. |
| Keyed.WithoutKeepsOrder | features/sharding/core/src/main/java/org/apache/shardingsphere/sharding/subscriber/ShardingTableConfigurationSubscriber.java:236 | `removeIf` keeps the entries it keeps in their old relative order: the result is a subsequence of the input. |
| Keyed.Upsert | features/sharding/core/src/main/java/org/apache/shardingsphere/sharding/subscriber/ShardingTableConfigurationSubscriber.java:81-82 | Remove by the payload's key, then add. Afterwards the payload is the only entry with its key and is the last entry. Every other key is unchanged, unique keys stay unique, and the length follows. |
| Keyed.UpsertKeepsOrder | features/sharding/core/src/main/java/org/apache/shardingsphere/sharding/subscriber/ShardingTableConfigurationSubscriber.java:81-82 | The entries before the payload are a subsequence of the old list, so an upsert reorders no surviving entry. |
| Keyed.Replace | features/sharding/core/src/main/java/org/apache/shardingsphere/sharding/subscriber/ShardingTableConfigurationSubscriber.java:171-172 | Remove by a named key, then add. The payload is the last entry. The named key then holds the payload only if the payload carries that key. The payload's own key gains it at the end, and every other key is unchanged. |
| Keyed.ReplaceKeepsOrder | features/sharding/core/src/main/java/org/apache/shardingsphere/sharding/subscriber/ShardingTableConfigurationSubscriber.java:171-172 | The entries before the payload are a subsequence of the old list. |
| Keyed.UpsertIdempotent | features/sharding/core/src/main/java/org/apache/shardingsphere/sharding/subscriber/ShardingTableConfigurationSubscriber.java:81-82 | Upserting the same entry twice equals upserting it once. |
| Keyed.WithoutIdempotent | features/sharding/core/src/main/java/org/apache/shardingsphere/sharding/subscriber/ShardingTableConfigurationSubscriber.java:252 | Removing the same key twice equals removing it once. |
| Keyed.SelectWithout | features/sharding/core/src/main/java/org/apache/shardingsphere/sharding/subscriber/ShardingTableConfigurationSubscriber.java:236 | After a removal, the removed key selects nothing and every other key selects what it selected before. |
| Keyed.SelectReplace | features/sharding/core/src/main/java/org/apache/shardingsphere/sharding/subscriber/ShardingTableConfigurationSubscriber.java:171-172 | What each key selects after a remove-then-append, in terms of what it selected before. |
| Keyed.WithoutKeepsUnique | features/sharding/core/src/main/java/org/apache/shardingsphere/sharding/subscriber/ShardingTableConfigurationSubscriber.java:252 | Removing a key keeps a list's keys unique. |
| Keyed.UpsertAllLastWins | features/sharding/core/src/main/java/org/apache/shardingsphere/sharding/subscriber/ShardingTableConfigurationSubscriber.java:81-82 | After a run of upserts, a key named by some payload holds exactly the last payload for it, and any other key keeps its entries. |
| YamlSwapper.AppendEach | features/sharding/core/src/main/java/org/apache/shardingsphere/sharding/yaml/swapper/NewYamlShardingRuleConfigurationSwapper.java:58-60 | The for-each loop appends one node per element, in order. |
| YamlSwapper.SwapTableRules | features/sharding/core/src/main/java/org/apache/shardingsphere/sharding/yaml/swapper/NewYamlShardingRuleConfigurationSwapper.java:57-70 | At every path, the result holds the accumulator's nodes plus exactly the expected count for table, auto-table, binding-group and broadcast paths. It adds nothing at any other path. |
| YamlSwapper.SwapStrategies | features/sharding/core/src/main/java/org/apache/shardingsphere/sharding/yaml/swapper/NewYamlShardingRuleConfigurationSwapper.java:72-85 | At every path, the result holds the accumulator's nodes plus exactly the expected count for the four default-strategy paths: once for each strategy that is set. It adds nothing at any other path. |
| YamlSwapper.SwapAlgorithms | features/sharding/core/src/main/java/org/apache/shardingsphere/sharding/yaml/swapper/NewYamlShardingRuleConfigurationSwapper.java:87-97 | At every path, the result holds the accumulator's nodes plus one node per sharding-algorithm, key-generator or auditor entry carrying that path's name. It adds nothing at any other path. |
| YamlSwapper.SwapDefaults | features/sharding/core/src/main/java/org/apache/shardingsphere/sharding/yaml/swapper/NewYamlShardingRuleConfigurationSwapper.java:48-53 | At every path, the result holds the accumulator's nodes plus one default-sharding-column node when the column is set and one cache node when the cache is set. It adds nothing at any other path. |
| YamlSwapper.SectionOccurrences | features/sharding/core/src/main/java/org/apache/shardingsphere/sharding/yaml/swapper/NewYamlShardingRuleConfigurationSwapper.java:45-53 | Each swapper statement adds, at a path of its own kind, exactly the expected number of nodes, and no node at a path of another kind. |
| YamlSwapper.SwapToDataNodes | features/sharding/core/src/main/java/org/apache/shardingsphere/sharding/yaml/swapper/NewYamlShardingRuleConfigurationSwapper.java:42-55 | Returns the reference node list. Its length is the sum of the per-kind counts. When keys are unique, no two nodes share a path. |
| YamlSwapper.DataNodeCounts | features/sharding/core/src/main/java/org/apache/shardingsphere/sharding/yaml/swapper/NewYamlShardingRuleConfigurationSwapper.java:42-97 | Every path occurs exactly as often as `ExpectedOccurrences` says. |
| YamlSwapper.KeyedCounts | features/sharding/core/src/main/java/org/apache/shardingsphere/sharding/yaml/swapper/NewYamlShardingRuleConfigurationSwapper.java:58-66 | A keyed path occurs once for each entry carrying its name. This covers table, auto-table and binding-group paths, and the three algorithm-map paths. |
| YamlSwapper.StrategyCounts | features/sharding/core/src/main/java/org/apache/shardingsphere/sharding/yaml/swapper/NewYamlShardingRuleConfigurationSwapper.java:73-84 | Each default-strategy path occurs once when that strategy is set and never otherwise. |
| YamlSwapper.BroadcastCounts | features/sharding/core/src/main/java/org/apache/shardingsphere/sharding/yaml/swapper/NewYamlShardingRuleConfigurationSwapper.java:67-69 | The broadcast-tables path occurs exactly once when the list is non-null and non-empty, and never otherwise. |
| YamlSwapper.SingletonCounts | features/sharding/core/src/main/java/org/apache/shardingsphere/sharding/yaml/swapper/NewYamlShardingRuleConfigurationSwapper.java:48-84 | Every path that carries no name occurs as expected. The default-column and cache paths and the four default-strategy paths (database sharding, table sharding, key generation, audit) occur once when the field is set. The broadcast path occurs once when the list is non-null and non-empty. Each occurs never otherwise. |
| YamlSwapper.SingletonAtMostOnce | features/sharding/core/src/main/java/org/apache/shardingsphere/sharding/yaml/swapper/NewYamlShardingRuleConfigurationSwapper.java:67-69 | No singleton path, broadcast tables included, occurs more than once. |
| YamlSwapper.NodePresence | features/sharding/core/src/main/java/org/apache/shardingsphere/sharding/yaml/swapper/NewYamlShardingRuleConfigurationSwapper.java:42-97 | A path is present in the output if and only if its expected count is positive. |
| YamlSwapper.TableNodePresence | features/sharding/core/src/main/java/org/apache/shardingsphere/sharding/yaml/swapper/NewYamlShardingRuleConfigurationSwapper.java:58-60 | A node sits at the table path of `k` if and only if some table rule has logic table `k`. When keys are unique, there is at most one such node. |
| YamlSwapper.AutoTableNodePresence | features/sharding/core/src/main/java/org/apache/shardingsphere/sharding/yaml/swapper/NewYamlShardingRuleConfigurationSwapper.java:61-63 | The same, for auto-table rules. |
| YamlSwapper.BindingNodePresence | features/sharding/core/src/main/java/org/apache/shardingsphere/sharding/yaml/swapper/NewYamlShardingRuleConfigurationSwapper.java:64-66 | The same, for binding groups. |
| YamlSwapper.ShardingAlgorithmNodePresence | features/sharding/core/src/main/java/org/apache/shardingsphere/sharding/yaml/swapper/NewYamlShardingRuleConfigurationSwapper.java:88-90 | The same, for sharding algorithms. |
| YamlSwapper.KeyGeneratorNodePresence | features/sharding/core/src/main/java/org/apache/shardingsphere/sharding/yaml/swapper/NewYamlShardingRuleConfigurationSwapper.java:91-93 | The same, for key generators. |
| YamlSwapper.AuditorNodePresence | features/sharding/core/src/main/java/org/apache/shardingsphere/sharding/yaml/swapper/NewYamlShardingRuleConfigurationSwapper.java:94-96 | The same, for auditors. |
| YamlSwapper.DataNodesOrdered | features/sharding/core/src/main/java/org/apache/shardingsphere/sharding/yaml/swapper/NewYamlShardingRuleConfigurationSwapper.java:43-54 | The output is ordered by section: table rules first, then strategies, then algorithms, then the default sharding column and the cache. |
| YamlSwapper.DataNodesLength | features/sharding/core/src/main/java/org/apache/shardingsphere/sharding/yaml/swapper/NewYamlShardingRuleConfigurationSwapper.java:43-54 | The number of nodes is the sum of the per-kind counts. |
| YamlSwapper.DataNodesDistinct | features/sharding/core/src/main/java/org/apache/shardingsphere/sharding/yaml/swapper/NewYamlShardingRuleConfigurationSwapper.java:43 | When keys are unique, no two output nodes share a path. So the `LinkedHashSet` keeps every node under any equality that tells nodes with different paths apart, such as identity or field-wise equality. |
| YamlSwapper.SwapToObject | features/sharding/core/src/main/java/org/apache/shardingsphere/sharding/yaml/swapper/NewYamlShardingRuleConfigurationSwapper.java:100-102 | Whatever the input, the result is the default of `new ShardingRuleConfiguration()`: empty rule lists and algorithm maps, an empty broadcast list and no optional field set. That configuration writes no node. |
| YamlSwapper.NoRoundTrip | features/sharding/core/src/main/java/org/apache/shardingsphere/sharding/yaml/swapper/NewYamlShardingRuleConfigurationSwapper.java:100-102 | No configuration that writes at least one node is read back by `swapToObject`. |

## Left out

- The event bus is not modelled. Registration in `registerRuleConfigurationSubscriber` and the `@Subscribe` dispatch become the pure `Renew` function, and `post` becomes the `posted` field of the result.
- `synchronized` is not modelled. Handlers are sequential transitions, and concurrency is out of scope.
- `getActiveVersionByKey` is a parameter, an arbitrary function from version key to version. How the mode context manager computes it is not part of this model.
- The six collections `tables`, `autoTables`, `bindingTableGroups`, `shardingAlgorithms`, `keyGenerators` and `auditors` are assumed non-null. The Java code iterates them without a null check (swapper lines 58-66 and 88-96, `removeIf` in the subscriber), so a setter that nulls one makes it throw; the model cannot represent that case.
- A null database is modelled as an error, not as the Java code's null dereference. `databases.get` returning null becomes `UnknownDatabase`, and `getSingleRule` finding no rule becomes `NoShardingRule`. The exception types are not modelled.
- The default values of `ShardingRuleConfiguration` come from a class that is not part of this model. `EmptyConfig` assumes the usual ones: empty lists and maps, an empty broadcast list, and every strategy, column and cache unset.
- Payload records are opaque. Of each table rule, auto-table rule, binding group and algorithm, only its key matters. The other fields are carried unchanged.
- `YamlEngine.marshal` and the `ShardingNodeConverter` path builders are not modelled. Marshal is a tagged datatype that records which object was marshalled. Paths are a datatype whose builders give distinct paths for distinct kinds and names.
- `YamlDataNode` equality, and so `LinkedHashSet` de-duplication, is not modelled. The collection is a sequence that keeps every added node. `DataNodesDistinct` shows that for a configuration with unique keys the two agree under any equality that tells nodes with different paths apart. An equality that ignored paths could merge two strategy nodes with equal values; that case is not modelled.
- `getTypeClass`, `getRuleTagName` and `getOrder` return constants and are not modelled.
- Event sequences are not modelled beyond a single delivery. Repeated delivery is stated by `AddTableIdempotent` and `DeleteAutoTableIdempotent`, and last-write-wins over a run of upserts is stated on the list operation by `Keyed.UpsertAllLastWins`.
- There is no separate presence lemma for the broadcast path. That it is present if and only if the list is non-null and non-empty follows from `BroadcastCounts` together with `NodePresence`.
