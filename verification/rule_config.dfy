/** The sharding rule configuration of one logical database
    (`ShardingRuleConfiguration`) and the records it is assembled from. Only
    the keys of the records matter to the subscriber and the swapper; the
    other fields are carried through unchanged. */
module RuleConfig {
  import opened Wrappers
  import opened Keyed

  /** `ShardingTableRuleConfiguration`, keyed by its logic table. */
  datatype TableRule = TableRule(logicTable: string, actualDataNodes: string)

  /** `ShardingAutoTableRuleConfiguration`, keyed by its logic table; the
      auto tables are a namespace of their own. */
  datatype AutoTableRule = AutoTableRule(logicTable: string, actualDataSources: string)

  /** `ShardingTableReferenceRuleConfiguration`: a binding group, keyed by its
      name; `reference` is the comma-separated list of bound logic tables. */
  datatype TableReference = TableReference(name: string, reference: string)

  /** A default sharding strategy (database or table). */
  datatype ShardingStrategy = ShardingStrategy(shardingColumn: string, shardingAlgorithmName: string)

  /** The default key-generate strategy. */
  datatype KeyGenerateStrategy = KeyGenerateStrategy(column: string, keyGeneratorName: string)

  /** The default audit strategy. */
  datatype AuditStrategy = AuditStrategy(auditorNames: seq<string>, allowHintDisable: bool)

  /** `AlgorithmConfiguration`: an algorithm type and its properties. */
  datatype Algorithm = Algorithm(algorithmType: string, props: map<string, string>)

  /** One entry of an insertion-ordered algorithm map (`LinkedHashMap`). */
  datatype AlgorithmEntry = AlgorithmEntry(name: string, algorithm: Algorithm)

  /** `ShardingCacheConfiguration`. */
  datatype ShardingCache = ShardingCache(allowedMaxSqlLength: int, routeCacheInitialCapacity: int, routeCacheMaximumSize: int)

  /** `ShardingRuleConfiguration`. Fields the Java code null-checks are
      `Option`s; the rule lists and the three maps, which it iterates without
      a check, are never null here. The maps are insertion-ordered lists of
      entries. */
  datatype ShardingRuleConfig = ShardingRuleConfig(
    tables: seq<TableRule>,
    autoTables: seq<AutoTableRule>,
    bindingTableGroups: seq<TableReference>,
    broadcastTables: Option<seq<string>>,
    defaultDatabaseShardingStrategy: Option<ShardingStrategy>,
    defaultTableShardingStrategy: Option<ShardingStrategy>,
    defaultKeyGenerateStrategy: Option<KeyGenerateStrategy>,
    defaultAuditStrategy: Option<AuditStrategy>,
    defaultShardingColumn: Option<string>,
    shardingAlgorithms: seq<AlgorithmEntry>,
    keyGenerators: seq<AlgorithmEntry>,
    auditors: seq<AlgorithmEntry>,
    shardingCache: Option<ShardingCache>)

  /** `new ShardingRuleConfiguration()`: empty lists and maps, an empty
      broadcast list, and every optional field unset. */
  function EmptyConfig(): ShardingRuleConfig
  {
    ShardingRuleConfig([], [], [], Some([]), None, None, None, None, None, [], [], [], None)
  }

  function LogicTable(t: TableRule): string { t.logicTable }

  function AutoLogicTable(t: AutoTableRule): string { t.logicTable }

  function GroupName(g: TableReference): string { g.name }

  function AlgorithmName(a: AlgorithmEntry): string { a.name }

  /** The configuration's keyed collections hold each key at most once. A
      Java map guarantees this for the algorithm maps; for the three rule
      lists it is what the add handlers maintain. */
  ghost predicate ValidConfig(c: ShardingRuleConfig)
  {
    && UniqueKeys(c.tables, LogicTable)
    && UniqueKeys(c.autoTables, AutoLogicTable)
    && UniqueKeys(c.bindingTableGroups, GroupName)
    && UniqueKeys(c.shardingAlgorithms, AlgorithmName)
    && UniqueKeys(c.keyGenerators, AlgorithmName)
    && UniqueKeys(c.auditors, AlgorithmName)
  }
}
