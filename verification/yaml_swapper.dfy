/** `NewYamlShardingRuleConfigurationSwapper`: flattens a sharding rule
    configuration into an ordered collection of repository data nodes, one
    `(path, marshalled value)` pair per rule, strategy, algorithm and
    optional field. */
module YamlSwapper {
  import opened Wrappers
  import opened Keyed
  import opened RuleConfig

  /** The paths built by `ShardingNodeConverter`, left abstract: two paths
      built by different builders differ, and a keyed builder gives
      different paths for different names. */
  datatype Path =
    | TableNamePath(tableName: string)
    | AutoTableNamePath(tableName: string)
    | BindingTableNamePath(groupName: string)
    | BroadcastTablesPath
    | DefaultDatabaseStrategyPath
    | DefaultTableStrategyPath
    | DefaultKeyGenerateStrategyPath
    | DefaultAuditStrategyPath
    | ShardingAlgorithmPath(algorithmName: string)
    | KeyGeneratorPath(algorithmName: string)
    | AuditorPath(algorithmName: string)
    | DefaultShardingColumnPath
    | ShardingCachePath

  /** `YamlEngine.marshal`, left uninterpreted: a value records which object
      was marshalled and nothing about its text. */
  datatype Yaml =
    | YamlTableRule(tableRule: TableRule)
    | YamlAutoTableRule(autoTableRule: AutoTableRule)
    | YamlTableReference(group: TableReference)
    | YamlBroadcastTables(broadcastTables: seq<string>)
    | YamlShardingStrategy(shardingStrategy: ShardingStrategy)
    | YamlKeyGenerateStrategy(keyGenerateStrategy: KeyGenerateStrategy)
    | YamlAuditStrategy(auditStrategy: AuditStrategy)
    | YamlAlgorithm(algorithm: Algorithm)
    | YamlShardingColumn(column: string)
    | YamlShardingCache(cache: ShardingCache)

  /** `YamlDataNode`: a repository key and the marshalled value stored there. */
  datatype DataNode = DataNode(path: Path, value: Yaml)

  // ------------------------------------------------------------ one node each

  function TableNode(t: TableRule): DataNode { DataNode(TableNamePath(t.logicTable), YamlTableRule(t)) }

  function AutoTableNode(t: AutoTableRule): DataNode { DataNode(AutoTableNamePath(t.logicTable), YamlAutoTableRule(t)) }

  function BindingNode(g: TableReference): DataNode { DataNode(BindingTableNamePath(g.name), YamlTableReference(g)) }

  function DatabaseStrategyNode(s: ShardingStrategy): DataNode { DataNode(DefaultDatabaseStrategyPath, YamlShardingStrategy(s)) }

  function TableStrategyNode(s: ShardingStrategy): DataNode { DataNode(DefaultTableStrategyPath, YamlShardingStrategy(s)) }

  function KeyGenerateStrategyNode(s: KeyGenerateStrategy): DataNode { DataNode(DefaultKeyGenerateStrategyPath, YamlKeyGenerateStrategy(s)) }

  function AuditStrategyNode(s: AuditStrategy): DataNode { DataNode(DefaultAuditStrategyPath, YamlAuditStrategy(s)) }

  function ShardingAlgorithmNode(a: AlgorithmEntry): DataNode { DataNode(ShardingAlgorithmPath(a.name), YamlAlgorithm(a.algorithm)) }

  function KeyGeneratorNode(a: AlgorithmEntry): DataNode { DataNode(KeyGeneratorPath(a.name), YamlAlgorithm(a.algorithm)) }

  function AuditorNode(a: AlgorithmEntry): DataNode { DataNode(AuditorPath(a.name), YamlAlgorithm(a.algorithm)) }

  function ShardingColumnNode(column: string): DataNode { DataNode(DefaultShardingColumnPath, YamlShardingColumn(column)) }

  function ShardingCacheNode(cache: ShardingCache): DataNode { DataNode(ShardingCachePath, YamlShardingCache(cache)) }

  /** One node per element of `s`, in order: the body of a `for` loop that
      adds `node(each)` for each element. */
  function Entries<T>(s: seq<T>, node: T -> DataNode): (r: seq<DataNode>)
    ensures |r| == |s|
  {
    if s == [] then [] else [node(s[0])] + Entries(s[1..], node)
  }

  /** One node when the field is non-null, none otherwise. */
  function Optional<T>(o: Option<T>, node: T -> DataNode): (r: seq<DataNode>)
    ensures |r| == if o.Some? then 1 else 0
    ensures o.Some? ==> r[0] == node(o.value)
  {
    match o
    case None => []
    case Some(v) => [node(v)]
  }

  /** Whether the broadcast-tables node is written: the list is non-null and
      non-empty. */
  predicate HasBroadcastTables(c: ShardingRuleConfig)
  {
    c.broadcastTables.Some? && c.broadcastTables.value != []
  }

  /** A path built from a logic table, group or algorithm name. */
  predicate NamedPath(p: Path)
  {
    p.TableNamePath? || p.AutoTableNamePath? || p.BindingTableNamePath?
    || p.ShardingAlgorithmPath? || p.KeyGeneratorPath? || p.AuditorPath?
  }

  // ------------------------------------------------------------ the sections

  /** The number of sections, and the section each path belongs to, in output
      order: table rules (tables, auto tables, binding groups, broadcast
      tables), strategies, algorithms, default sharding column, cache. */
  const SectionCount: nat := 13

  function Rank(p: Path): (r: nat)
    ensures r < SectionCount
  {
    match p
    case TableNamePath(_) => 0
    case AutoTableNamePath(_) => 1
    case BindingTableNamePath(_) => 2
    case BroadcastTablesPath => 3
    case DefaultDatabaseStrategyPath => 4
    case DefaultTableStrategyPath => 5
    case DefaultKeyGenerateStrategyPath => 6
    case DefaultAuditStrategyPath => 7
    case ShardingAlgorithmPath(_) => 8
    case KeyGeneratorPath(_) => 9
    case AuditorPath(_) => 10
    case DefaultShardingColumnPath => 11
    case ShardingCachePath => 12
  }

  /** The nodes one statement of the swapper adds, grouped as the swapper's
      helpers group them. */
  function Section(c: ShardingRuleConfig, r: nat): seq<DataNode>
    requires r < SectionCount
  {
    if r < 4 then TableRuleSection(c, r)
    else if r < 8 then StrategySection(c, r)
    else if r < 11 then AlgorithmSection(c, r)
    else DefaultSection(c, r)
  }

  /** What `swapTableRules` adds, statement by statement. */
  function TableRuleSection(c: ShardingRuleConfig, r: nat): seq<DataNode>
    requires r < 4
  {
    match r
    case 0 => Entries(c.tables, TableNode)
    case 1 => Entries(c.autoTables, AutoTableNode)
    case 2 => Entries(c.bindingTableGroups, BindingNode)
    case _ => if HasBroadcastTables(c) then [DataNode(BroadcastTablesPath, YamlBroadcastTables(c.broadcastTables.value))] else []
  }

  /** What `swapStrategies` adds, statement by statement. */
  function StrategySection(c: ShardingRuleConfig, r: nat): seq<DataNode>
    requires 4 <= r < 8
  {
    match r
    case 4 => Optional(c.defaultDatabaseShardingStrategy, DatabaseStrategyNode)
    case 5 => Optional(c.defaultTableShardingStrategy, TableStrategyNode)
    case 6 => Optional(c.defaultKeyGenerateStrategy, KeyGenerateStrategyNode)
    case _ => Optional(c.defaultAuditStrategy, AuditStrategyNode)
  }

  /** What `swapAlgorithms` adds, statement by statement. */
  function AlgorithmSection(c: ShardingRuleConfig, r: nat): seq<DataNode>
    requires 8 <= r < 11
  {
    match r
    case 8 => Entries(c.shardingAlgorithms, ShardingAlgorithmNode)
    case 9 => Entries(c.keyGenerators, KeyGeneratorNode)
    case _ => Entries(c.auditors, AuditorNode)
  }

  /** The default sharding column and the cache. */
  function DefaultSection(c: ShardingRuleConfig, r: nat): seq<DataNode>
    requires 11 <= r < SectionCount
  {
    if r == 11 then Optional(c.defaultShardingColumn, ShardingColumnNode)
    else Optional(c.shardingCache, ShardingCacheNode)
  }

  /** All sections of `c`, by rank (none beyond the last). */
  function Sections(c: ShardingRuleConfig): nat -> seq<DataNode>
  {
    (r: nat) => if r < SectionCount then Section(c, r) else []
  }

  /** Every node of section `r` has a path of rank `r`. */
  ghost predicate Layered(sec: nat -> seq<DataNode>)
  {
    forall r: nat, i :: 0 <= i < |sec(r)| ==> Rank(sec(r)[i].path) == r
  }

  /** The `i`-th node is the node of the `i`-th element. */
  lemma {:induction false} EntriesAt<T>(s: seq<T>, node: T -> DataNode)
    ensures forall i :: 0 <= i < |s| ==> Entries(s, node)[i] == node(s[i])
  {
    if s != [] {
      EntriesAt(s[1..], node);
      forall i | 0 < i < |s| ensures Entries(s, node)[i] == node(s[i]) {
        assert s[1..][i - 1] == s[i];
      }
    }
  }

  /** Adding one more element adds its node at the end: the loop step. */
  lemma {:induction false} EntriesSnoc<T>(s: seq<T>, x: T, node: T -> DataNode)
    ensures Entries(s + [x], node) == Entries(s, node) + [node(x)]
  {
    if s == [] {
      assert s + [x] == [x];
      assert [x][1..] == [];
    } else {
      assert (s + [x])[0] == s[0];
      assert (s + [x])[1..] == s[1..] + [x];
      EntriesSnoc(s[1..], x, node);
    }
  }

  /** One node per entry, each at a path of rank `q`. */
  lemma EntriesRanks<T>(s: seq<T>, node: T -> DataNode, q: nat)
    requires forall x :: Rank(node(x).path) == q
    ensures forall i :: 0 <= i < |Entries(s, node)| ==> Rank(Entries(s, node)[i].path) == q
  {
    EntriesAt(s, node);
  }

  /** Section `r` holds only paths of rank `r`. */
  lemma SectionRanks(c: ShardingRuleConfig, r: nat)
    requires r < SectionCount
    ensures forall i :: 0 <= i < |Section(c, r)| ==> Rank(Section(c, r)[i].path) == r
  {
    match r
    case 0 => EntriesRanks(c.tables, TableNode, 0);
    case 1 => EntriesRanks(c.autoTables, AutoTableNode, 1);
    case 2 => EntriesRanks(c.bindingTableGroups, BindingNode, 2);
    case 8 => EntriesRanks(c.shardingAlgorithms, ShardingAlgorithmNode, 8);
    case 9 => EntriesRanks(c.keyGenerators, KeyGeneratorNode, 9);
    case 10 => EntriesRanks(c.auditors, AuditorNode, 10);
    case _ =>
  }

  lemma SectionsLayered(c: ShardingRuleConfig)
    ensures Layered(Sections(c))
  {
    forall r: nat, i | 0 <= i < |Sections(c)(r)| ensures Rank(Sections(c)(r)[i].path) == r {
      SectionRanks(c, r);
    }
  }

  /** The first `r` sections, in order: what the swapper has written once it
      has run its first `r` statements. */
  function Prefix(sec: nat -> seq<DataNode>, r: nat): seq<DataNode>
  {
    if r == 0 then [] else Prefix(sec, r - 1) + sec(r - 1)
  }

  /** Each further statement of the swapper appends the next section. */
  lemma PrefixStep(c: ShardingRuleConfig, r: nat)
    requires r < SectionCount
    ensures Prefix(Sections(c), r + 1) == Prefix(Sections(c), r) + Section(c, r)
  {
  }

  /** The first four sections: what `swapTableRules` writes. */
  lemma TableRulesPrefix(c: ShardingRuleConfig)
    ensures Prefix(Sections(c), 4) == [] + Section(c, 0) + Section(c, 1) + Section(c, 2) + Section(c, 3)
  {
    PrefixStep(c, 0);
    PrefixStep(c, 1);
    PrefixStep(c, 2);
    PrefixStep(c, 3);
  }

  /** The next four: what `swapStrategies` writes. */
  lemma StrategiesPrefix(c: ShardingRuleConfig)
    ensures Prefix(Sections(c), 8) == Prefix(Sections(c), 4) + Section(c, 4) + Section(c, 5) + Section(c, 6) + Section(c, 7)
  {
    PrefixStep(c, 4);
    PrefixStep(c, 5);
    PrefixStep(c, 6);
    PrefixStep(c, 7);
  }

  /** The next three: what `swapAlgorithms` writes. */
  lemma AlgorithmsPrefix(c: ShardingRuleConfig)
    ensures Prefix(Sections(c), 11) == Prefix(Sections(c), 8) + Section(c, 8) + Section(c, 9) + Section(c, 10)
  {
    PrefixStep(c, 8);
    PrefixStep(c, 9);
    PrefixStep(c, 10);
  }

  /** The output, section by section, in the order the swapper writes it. */
  lemma DataNodesSplit(c: ShardingRuleConfig)
    ensures DataNodes(c) == [] + Section(c, 0) + Section(c, 1) + Section(c, 2) + Section(c, 3)
      + Section(c, 4) + Section(c, 5) + Section(c, 6) + Section(c, 7)
      + Section(c, 8) + Section(c, 9) + Section(c, 10) + Section(c, 11) + Section(c, 12)
  {
    TableRulesPrefix(c);
    StrategiesPrefix(c);
    AlgorithmsPrefix(c);
    PrefixStep(c, 11);
    PrefixStep(c, 12);
  }

  /** `swapToDataNodes`, as one expression: every section, in order. */
  function DataNodes(c: ShardingRuleConfig): seq<DataNode>
  {
    Prefix(Sections(c), SectionCount)
  }

  // ------------------------------------------------------------ the reference

  /** How many times path `p` is expected in the output: once per entry keyed
      by the path's name for a keyed path, once or never for a singleton. */
  function ExpectedOccurrences(c: ShardingRuleConfig, p: Path): nat
  {
    match p
    case TableNamePath(k) => |Select(c.tables, LogicTable, k)|
    case AutoTableNamePath(k) => |Select(c.autoTables, AutoLogicTable, k)|
    case BindingTableNamePath(k) => |Select(c.bindingTableGroups, GroupName, k)|
    case BroadcastTablesPath => if HasBroadcastTables(c) then 1 else 0
    case DefaultDatabaseStrategyPath => if c.defaultDatabaseShardingStrategy.Some? then 1 else 0
    case DefaultTableStrategyPath => if c.defaultTableShardingStrategy.Some? then 1 else 0
    case DefaultKeyGenerateStrategyPath => if c.defaultKeyGenerateStrategy.Some? then 1 else 0
    case DefaultAuditStrategyPath => if c.defaultAuditStrategy.Some? then 1 else 0
    case ShardingAlgorithmPath(k) => |Select(c.shardingAlgorithms, AlgorithmName, k)|
    case KeyGeneratorPath(k) => |Select(c.keyGenerators, AlgorithmName, k)|
    case AuditorPath(k) => |Select(c.auditors, AlgorithmName, k)|
    case DefaultShardingColumnPath => if c.defaultShardingColumn.Some? then 1 else 0
    case ShardingCachePath => if c.shardingCache.Some? then 1 else 0
  }

  /** The number of nodes of `nodes` at path `p`. */
  function Occurrences(nodes: seq<DataNode>, p: Path): nat
  {
    if nodes == [] then 0
    else (if nodes[0].path == p then 1 else 0) + Occurrences(nodes[1..], p)
  }

  /** Some node of `nodes` sits at path `p`. */
  predicate Present(nodes: seq<DataNode>, p: Path)
  {
    exists i :: 0 <= i < |nodes| && nodes[i].path == p
  }

  // ------------------------------------------------------------ counting

  lemma {:induction false} OccurrencesAppend(a: seq<DataNode>, b: seq<DataNode>, p: Path)
    ensures Occurrences(a + b, p) == Occurrences(a, p) + Occurrences(b, p)
  {
    if a == [] {
      assert a + b == b;
    } else {
      assert (a + b)[1..] == a[1..] + b;
      OccurrencesAppend(a[1..], b, p);
    }
  }

  /** A path occurs in a list exactly when some node of the list carries it. */
  lemma {:induction false} OccurrencesPositive(nodes: seq<DataNode>, p: Path)
    ensures Occurrences(nodes, p) > 0 <==> Present(nodes, p)
  {
    if nodes != [] {
      OccurrencesPositive(nodes[1..], p);
      if nodes[0].path != p && Present(nodes, p) {
        var i :| 0 <= i < |nodes| && nodes[i].path == p;
        assert nodes[1..][i - 1].path == p;
      }
    }
  }

  /** A path carried at two positions occurs at least twice. */
  lemma {:induction false} OccurrencesTwice(nodes: seq<DataNode>, i: nat, j: nat)
    requires i < j < |nodes| && nodes[i].path == nodes[j].path
    ensures Occurrences(nodes, nodes[i].path) >= 2
  {
    if i == 0 {
      OccurrencesPositive(nodes[1..], nodes[0].path);
      assert nodes[1..][j - 1].path == nodes[0].path;
    } else {
      OccurrencesTwice(nodes[1..], i - 1, j - 1);
    }
  }

  /** Nodes whose paths are all of another rank do not count towards `p`. */
  lemma {:induction false} OccurrencesOtherRank(nodes: seq<DataNode>, r: nat, p: Path)
    requires forall i :: 0 <= i < |nodes| ==> Rank(nodes[i].path) == r
    requires Rank(p) != r
    ensures Occurrences(nodes, p) == 0
  {
    if nodes != [] {
      assert Rank(nodes[0].path) == r;
      OccurrencesOtherRank(nodes[1..], r, p);
    }
  }

  /** The nodes of a keyed list at the path of name `k` are the entries keyed `k`. */
  lemma {:induction false} OccurrencesEntries<T(!new)>(s: seq<T>, node: T -> DataNode, key: T -> string, p: Path, k: string)
    requires forall x :: node(x).path == p <==> key(x) == k
    ensures Occurrences(Entries(s, node), p) == |Select(s, key, k)|
  {
    if s != [] {
      OccurrencesEntries(s[1..], node, key, p, k);
      assert Entries(s, node)[1..] == Entries(s[1..], node);
    }
  }

  /** Only section `q` contributes nodes at `p` when no other does. */
  lemma {:induction false} OccurrencesPrefix(sec: nat -> seq<DataNode>, r: nat, p: Path, q: nat)
    requires forall k: nat :: k != q ==> Occurrences(sec(k), p) == 0
    ensures Occurrences(Prefix(sec, r), p) == if q < r then Occurrences(sec(q), p) else 0
  {
    if r > 0 {
      OccurrencesAppend(Prefix(sec, r - 1), sec(r - 1), p);
      OccurrencesPrefix(sec, r - 1, p, q);
    }
  }

  /** The output nodes at `p` are those of section `q`, its rank. */
  lemma DataNodesAt(c: ShardingRuleConfig, p: Path, q: nat)
    requires Rank(p) == q
    ensures Occurrences(DataNodes(c), p) == Occurrences(Section(c, q), p)
  {
    var sec := Sections(c);
    forall k: nat | k != q ensures Occurrences(sec(k), p) == 0 {
      if k < SectionCount {
        SectionRanks(c, k);
        OccurrencesOtherRank(Section(c, k), k, p);
      }
    }
    OccurrencesPrefix(sec, SectionCount, p, q);
  }

  /** A single node counts once at its own path. */
  lemma OccurrencesSingle(n: DataNode, p: Path)
    ensures Occurrences([n], p) == if n.path == p then 1 else 0
  {
    assert [n][1..] == [];
  }

  /** A singleton section holds its node once when the field is set. */
  lemma OccurrencesOptional<T>(o: Option<T>, node: T -> DataNode, p: Path)
    requires forall x :: node(x).path == p
    ensures Occurrences(Optional(o, node), p) == if o.Some? then 1 else 0
  {
    if o.Some? {
      OccurrencesSingle(node(o.value), p);
    }
  }

  /** Keyed paths occur once per entry keyed by the path's name. */
  lemma KeyedCounts(c: ShardingRuleConfig, p: Path)
    requires NamedPath(p)
    ensures Occurrences(DataNodes(c), p) == ExpectedOccurrences(c, p)
  {
    match p
    case TableNamePath(k) =>
      DataNodesAt(c, p, 0);
      OccurrencesEntries(c.tables, TableNode, LogicTable, p, k);
    case AutoTableNamePath(k) =>
      DataNodesAt(c, p, 1);
      OccurrencesEntries(c.autoTables, AutoTableNode, AutoLogicTable, p, k);
    case BindingTableNamePath(k) =>
      DataNodesAt(c, p, 2);
      OccurrencesEntries(c.bindingTableGroups, BindingNode, GroupName, p, k);
    case ShardingAlgorithmPath(k) =>
      DataNodesAt(c, p, 8);
      OccurrencesEntries(c.shardingAlgorithms, ShardingAlgorithmNode, AlgorithmName, p, k);
    case KeyGeneratorPath(k) =>
      DataNodesAt(c, p, 9);
      OccurrencesEntries(c.keyGenerators, KeyGeneratorNode, AlgorithmName, p, k);
    case AuditorPath(k) =>
      DataNodesAt(c, p, 10);
      OccurrencesEntries(c.auditors, AuditorNode, AlgorithmName, p, k);
  }

  /** Each default-strategy path occurs once when that strategy is set. */
  lemma StrategyCounts(c: ShardingRuleConfig, p: Path)
    requires p.DefaultDatabaseStrategyPath? || p.DefaultTableStrategyPath? || p.DefaultKeyGenerateStrategyPath? || p.DefaultAuditStrategyPath?
    ensures Occurrences(DataNodes(c), p) == ExpectedOccurrences(c, p)
  {
    match p
    case DefaultDatabaseStrategyPath =>
      DataNodesAt(c, p, 4);
      OccurrencesOptional(c.defaultDatabaseShardingStrategy, DatabaseStrategyNode, p);
    case DefaultTableStrategyPath =>
      DataNodesAt(c, p, 5);
      OccurrencesOptional(c.defaultTableShardingStrategy, TableStrategyNode, p);
    case DefaultKeyGenerateStrategyPath =>
      DataNodesAt(c, p, 6);
      OccurrencesOptional(c.defaultKeyGenerateStrategy, KeyGenerateStrategyNode, p);
    case DefaultAuditStrategyPath =>
      DataNodesAt(c, p, 7);
      OccurrencesOptional(c.defaultAuditStrategy, AuditStrategyNode, p);
  }

  /** The broadcast-tables path occurs once when the list is non-null and
      non-empty, never otherwise. */
  lemma BroadcastCounts(c: ShardingRuleConfig)
    ensures Occurrences(DataNodes(c), BroadcastTablesPath) == ExpectedOccurrences(c, BroadcastTablesPath)
  {
    DataNodesAt(c, BroadcastTablesPath, 3);
    if HasBroadcastTables(c) {
      OccurrencesSingle(DataNode(BroadcastTablesPath, YamlBroadcastTables(c.broadcastTables.value)), BroadcastTablesPath);
    }
  }

  /** The default-sharding-column path occurs once when the column is set. */
  lemma ShardingColumnCounts(c: ShardingRuleConfig)
    ensures Occurrences(DataNodes(c), DefaultShardingColumnPath) == ExpectedOccurrences(c, DefaultShardingColumnPath)
  {
    DataNodesAt(c, DefaultShardingColumnPath, 11);
    OccurrencesOptional(c.defaultShardingColumn, ShardingColumnNode, DefaultShardingColumnPath);
  }

  /** The sharding-cache path occurs once when the cache is set. */
  lemma ShardingCacheCounts(c: ShardingRuleConfig)
    ensures Occurrences(DataNodes(c), ShardingCachePath) == ExpectedOccurrences(c, ShardingCachePath)
  {
    DataNodesAt(c, ShardingCachePath, 12);
    OccurrencesOptional(c.shardingCache, ShardingCacheNode, ShardingCachePath);
  }

  /** Singleton paths occur once when their field is set (for broadcast
      tables: non-null and non-empty), never otherwise. */
  lemma SingletonCounts(c: ShardingRuleConfig, p: Path)
    requires !NamedPath(p)
    ensures Occurrences(DataNodes(c), p) == ExpectedOccurrences(c, p)
  {
    match p
    case BroadcastTablesPath => BroadcastCounts(c);
    case DefaultShardingColumnPath => ShardingColumnCounts(c);
    case ShardingCachePath => ShardingCacheCounts(c);
    case _ => StrategyCounts(c, p);
  }

  /** Every path occurs in the output exactly as often as the reference
      count says: once per table rule, auto-table rule, binding group and
      algorithm-map entry keyed by its name, once for broadcast tables when
      the list is non-null and non-empty, and once for each non-null
      strategy, default sharding column and cache. */
  lemma DataNodeCounts(c: ShardingRuleConfig, p: Path)
    ensures Occurrences(DataNodes(c), p) == ExpectedOccurrences(c, p)
  {
    if NamedPath(p) {
      KeyedCounts(c, p);
    } else {
      SingletonCounts(c, p);
    }
  }

  /** A path is present in the output exactly when its reference count is
      positive. */
  lemma NodePresence(c: ShardingRuleConfig, p: Path)
    ensures Present(DataNodes(c), p) <==> ExpectedOccurrences(c, p) > 0
    ensures Occurrences(DataNodes(c), p) == ExpectedOccurrences(c, p)
  {
    DataNodeCounts(c, p);
    OccurrencesPositive(DataNodes(c), p);
  }

  /** Every singleton path occurs at most once in the output. */
  lemma SingletonAtMostOnce(c: ShardingRuleConfig, p: Path)
    requires !NamedPath(p)
    ensures Occurrences(DataNodes(c), p) <= 1
  {
    SingletonCounts(c, p);
    SingletonExpected(c, p);
  }

  lemma SingletonExpected(c: ShardingRuleConfig, p: Path)
    requires !NamedPath(p)
    ensures ExpectedOccurrences(c, p) <= 1
  {
  }

  /** A keyed path whose reference count is the number of entries of `s`
      keyed `k` is present exactly when such an entry exists, and at most
      once when the keys of `s` are unique. */
  lemma EntryPresence<T(!new)>(c: ShardingRuleConfig, p: Path, s: seq<T>, key: T -> string, k: string)
    requires ExpectedOccurrences(c, p) == |Select(s, key, k)|
    ensures Present(DataNodes(c), p) <==> exists x :: x in s && key(x) == k
    ensures UniqueKeys(s, key) ==> Occurrences(DataNodes(c), p) <= 1
  {
    NodePresence(c, p);
    SelectNonEmpty(s, key, k);
  }

  /** A node sits at the path of name `k` if and only if a table rule is keyed
      `k`; with unique keys, exactly one. */
  lemma TableNodePresence(c: ShardingRuleConfig, k: string)
    ensures Present(DataNodes(c), TableNamePath(k)) <==> exists t :: t in c.tables && t.logicTable == k
    ensures ValidConfig(c) ==> Occurrences(DataNodes(c), TableNamePath(k)) <= 1
  {
    EntryPresence(c, TableNamePath(k), c.tables, LogicTable, k);
  }

  /** A node sits at the path of name `k` if and only if an auto-table rule is keyed
      `k`; with unique keys, exactly one. */
  lemma AutoTableNodePresence(c: ShardingRuleConfig, k: string)
    ensures Present(DataNodes(c), AutoTableNamePath(k)) <==> exists t :: t in c.autoTables && t.logicTable == k
    ensures ValidConfig(c) ==> Occurrences(DataNodes(c), AutoTableNamePath(k)) <= 1
  {
    EntryPresence(c, AutoTableNamePath(k), c.autoTables, AutoLogicTable, k);
  }

  /** A node sits at the path of name `k` if and only if a binding group is keyed
      `k`; with unique keys, exactly one. */
  lemma BindingNodePresence(c: ShardingRuleConfig, k: string)
    ensures Present(DataNodes(c), BindingTableNamePath(k)) <==> exists g :: g in c.bindingTableGroups && g.name == k
    ensures ValidConfig(c) ==> Occurrences(DataNodes(c), BindingTableNamePath(k)) <= 1
  {
    EntryPresence(c, BindingTableNamePath(k), c.bindingTableGroups, GroupName, k);
  }

  /** A node sits at the path of name `k` if and only if a sharding algorithm is keyed
      `k`; with unique keys, exactly one. */
  lemma ShardingAlgorithmNodePresence(c: ShardingRuleConfig, k: string)
    ensures Present(DataNodes(c), ShardingAlgorithmPath(k)) <==> exists a :: a in c.shardingAlgorithms && a.name == k
    ensures ValidConfig(c) ==> Occurrences(DataNodes(c), ShardingAlgorithmPath(k)) <= 1
  {
    EntryPresence(c, ShardingAlgorithmPath(k), c.shardingAlgorithms, AlgorithmName, k);
  }

  /** A node sits at the path of name `k` if and only if a key generator is keyed
      `k`; with unique keys, exactly one. */
  lemma KeyGeneratorNodePresence(c: ShardingRuleConfig, k: string)
    ensures Present(DataNodes(c), KeyGeneratorPath(k)) <==> exists a :: a in c.keyGenerators && a.name == k
    ensures ValidConfig(c) ==> Occurrences(DataNodes(c), KeyGeneratorPath(k)) <= 1
  {
    EntryPresence(c, KeyGeneratorPath(k), c.keyGenerators, AlgorithmName, k);
  }

  /** A node sits at the path of name `k` if and only if an auditor is keyed
      `k`; with unique keys, exactly one. */
  lemma AuditorNodePresence(c: ShardingRuleConfig, k: string)
    ensures Present(DataNodes(c), AuditorPath(k)) <==> exists a :: a in c.auditors && a.name == k
    ensures ValidConfig(c) ==> Occurrences(DataNodes(c), AuditorPath(k)) <= 1
  {
    EntryPresence(c, AuditorPath(k), c.auditors, AlgorithmName, k);
  }

  /** Appending nodes of rank `r` to nodes of lower, ordered ranks keeps the
      ranks ordered. */
  lemma RanksAppend(a: seq<DataNode>, b: seq<DataNode>, r: nat)
    requires forall i :: 0 <= i < |a| ==> Rank(a[i].path) < r
    requires forall i, j :: 0 <= i <= j < |a| ==> Rank(a[i].path) <= Rank(a[j].path)
    requires forall i :: 0 <= i < |b| ==> Rank(b[i].path) == r
    ensures forall i :: 0 <= i < |a + b| ==> Rank((a + b)[i].path) <= r
    ensures forall i, j :: 0 <= i <= j < |a + b| ==> Rank((a + b)[i].path) <= Rank((a + b)[j].path)
  {
    forall i, j | 0 <= i <= j < |a + b| ensures Rank((a + b)[i].path) <= Rank((a + b)[j].path) {
      if j < |a| {
      } else if i < |a| {
        assert Rank((a + b)[j].path) == Rank(b[j - |a|].path) == r;
      } else {
        assert Rank((a + b)[j].path) == Rank(b[j - |a|].path);
      }
    }
  }

  /** The first `r` sections are ordered by rank, and all below rank `r`. */
  lemma {:induction false} RanksPrefix(sec: nat -> seq<DataNode>, r: nat)
    requires Layered(sec)
    ensures forall i :: 0 <= i < |Prefix(sec, r)| ==> Rank(Prefix(sec, r)[i].path) < r
    ensures forall i, j :: 0 <= i <= j < |Prefix(sec, r)| ==> Rank(Prefix(sec, r)[i].path) <= Rank(Prefix(sec, r)[j].path)
  {
    if r > 0 {
      RanksPrefix(sec, r - 1);
      RanksAppend(Prefix(sec, r - 1), sec(r - 1), r - 1);
    }
  }

  /** The output is ordered by section: every table-rule node comes before
      every strategy node, every strategy node before every algorithm node,
      and those before the default sharding column and the cache. */
  lemma DataNodesOrdered(c: ShardingRuleConfig)
    ensures forall i, j :: 0 <= i <= j < |DataNodes(c)| ==> Rank(DataNodes(c)[i].path) <= Rank(DataNodes(c)[j].path)
  {
    SectionsLayered(c);
    RanksPrefix(Sections(c), SectionCount);
  }

  /** The length of each section: one node per entry of a list, one or
      none for a singleton. */
  lemma SectionLengths(c: ShardingRuleConfig)
    ensures |Section(c, 0)| == |c.tables| && |Section(c, 1)| == |c.autoTables| && |Section(c, 2)| == |c.bindingTableGroups|
    ensures |Section(c, 3)| == if HasBroadcastTables(c) then 1 else 0
    ensures |Section(c, 4)| == if c.defaultDatabaseShardingStrategy.Some? then 1 else 0
    ensures |Section(c, 5)| == if c.defaultTableShardingStrategy.Some? then 1 else 0
    ensures |Section(c, 6)| == if c.defaultKeyGenerateStrategy.Some? then 1 else 0
    ensures |Section(c, 7)| == if c.defaultAuditStrategy.Some? then 1 else 0
    ensures |Section(c, 8)| == |c.shardingAlgorithms| && |Section(c, 9)| == |c.keyGenerators| && |Section(c, 10)| == |c.auditors|
    ensures |Section(c, 11)| == if c.defaultShardingColumn.Some? then 1 else 0
    ensures |Section(c, 12)| == if c.shardingCache.Some? then 1 else 0
  {
  }

  /** The output length is the sum of the per-kind counts. */
  lemma DataNodesLength(c: ShardingRuleConfig)
    ensures |DataNodes(c)| == |c.tables| + |c.autoTables| + |c.bindingTableGroups| + (if HasBroadcastTables(c) then 1 else 0)
      + (if c.defaultDatabaseShardingStrategy.Some? then 1 else 0) + (if c.defaultTableShardingStrategy.Some? then 1 else 0)
      + (if c.defaultKeyGenerateStrategy.Some? then 1 else 0) + (if c.defaultAuditStrategy.Some? then 1 else 0)
      + |c.shardingAlgorithms| + |c.keyGenerators| + |c.auditors|
      + (if c.defaultShardingColumn.Some? then 1 else 0) + (if c.shardingCache.Some? then 1 else 0)
  {
    var sec := Sections(c);
    TableRulesPrefix(c);
    assert |Prefix(sec, 4)| == |Section(c, 0)| + |Section(c, 1)| + |Section(c, 2)| + |Section(c, 3)|;
    StrategiesPrefix(c);
    assert |Prefix(sec, 8)| == |Prefix(sec, 4)| + |Section(c, 4)| + |Section(c, 5)| + |Section(c, 6)| + |Section(c, 7)|;
    AlgorithmsPrefix(c);
    assert |Prefix(sec, 11)| == |Prefix(sec, 8)| + |Section(c, 8)| + |Section(c, 9)| + |Section(c, 10)|;
    PrefixStep(c, 11);
    PrefixStep(c, 12);
    SectionLengths(c);
  }

  /** With unique keys, the reference count of every path is at most one. */
  lemma ExpectedAtMostOnce(c: ShardingRuleConfig, p: Path)
    requires ValidConfig(c)
    ensures ExpectedOccurrences(c, p) <= 1
  {
  }

  /** With unique keys in every keyed collection (as the add handlers keep
      them, and as a Java map always has), no two nodes share a path, so a
      set keeps every node under any equality that tells nodes with
      different paths apart (identity or field-wise). */
  lemma DataNodesDistinct(c: ShardingRuleConfig)
    requires ValidConfig(c)
    ensures forall i, j :: 0 <= i < j < |DataNodes(c)| ==> DataNodes(c)[i].path != DataNodes(c)[j].path
  {
    var nodes := DataNodes(c);
    forall i, j | 0 <= i < j < |nodes| ensures nodes[i].path != nodes[j].path {
      if nodes[i].path == nodes[j].path {
        OccurrencesTwice(nodes, i, j);
        DataNodeCounts(c, nodes[i].path);
        ExpectedAtMostOnce(c, nodes[i].path);
      }
    }
  }

  /** Section `q` holds the expected nodes of the paths of rank `q`, and
      no node of any other path. */
  lemma SectionOccurrences(c: ShardingRuleConfig, q: nat, p: Path)
    requires q < SectionCount
    ensures Occurrences(Section(c, q), p) == if Rank(p) == q then ExpectedOccurrences(c, p) else 0
  {
    if Rank(p) == q {
      DataNodesAt(c, p, q);
      DataNodeCounts(c, p);
    } else {
      SectionRanks(c, q);
      OccurrencesOtherRank(Section(c, q), q, p);
    }
  }

  /** Appending section `q` adds the expected nodes of the paths of rank `q`. */
  lemma AppendSection(acc: seq<DataNode>, c: ShardingRuleConfig, q: nat, p: Path)
    requires q < SectionCount
    ensures Occurrences(acc + Section(c, q), p)
         == Occurrences(acc, p) + if Rank(p) == q then ExpectedOccurrences(c, p) else 0
  {
    OccurrencesAppend(acc, Section(c, q), p);
    SectionOccurrences(c, q, p);
  }

  // ------------------------------------------------------------ the swapper

  /** Appends one node per element of `s`, in order. */
  method AppendEach<T>(acc: seq<DataNode>, s: seq<T>, node: T -> DataNode) returns (result: seq<DataNode>)
    ensures |result| == |acc| + |s|
    ensures result == acc + Entries(s, node)
  {
    result := acc;
    var i := 0;
    while i < |s|
      invariant 0 <= i <= |s|
      invariant result == acc + Entries(s[..i], node)
    {
      assert s[..i + 1] == s[..i] + [s[i]];
      EntriesSnoc(s[..i], s[i], node);
      result := result + [node(s[i])];
      i := i + 1;
    }
    assert s[..i] == s;
  }

  /** `swapTableRules`: one node per table rule, per auto-table rule and per
      binding group, then the broadcast tables when there are any. It adds
      exactly the expected nodes of those paths and nothing else. */
  method SwapTableRules(c: ShardingRuleConfig, acc: seq<DataNode>) returns (result: seq<DataNode>)
    ensures result == acc + Section(c, 0) + Section(c, 1) + Section(c, 2) + Section(c, 3)
    ensures forall p :: Occurrences(result, p) == Occurrences(acc, p) + if Rank(p) < 4 then ExpectedOccurrences(c, p) else 0
  {
    result := AppendEach(acc, c.tables, TableNode);
    result := AppendEach(result, c.autoTables, AutoTableNode);
    result := AppendEach(result, c.bindingTableGroups, BindingNode);
    if c.broadcastTables.Some? && c.broadcastTables.value != [] {
      result := result + [DataNode(BroadcastTablesPath, YamlBroadcastTables(c.broadcastTables.value))];
    }
    forall p ensures Occurrences(result, p) == Occurrences(acc, p) + if Rank(p) < 4 then ExpectedOccurrences(c, p) else 0 {
      AppendSection(acc, c, 0, p);
      AppendSection(acc + Section(c, 0), c, 1, p);
      AppendSection(acc + Section(c, 0) + Section(c, 1), c, 2, p);
      AppendSection(acc + Section(c, 0) + Section(c, 1) + Section(c, 2), c, 3, p);
    }
  }

  /** `swapStrategies`: one node for each default strategy that is set. It
      adds exactly the expected nodes of the four strategy paths and nothing
      else. */
  method SwapStrategies(c: ShardingRuleConfig, acc: seq<DataNode>) returns (result: seq<DataNode>)
    ensures result == acc + Section(c, 4) + Section(c, 5) + Section(c, 6) + Section(c, 7)
    ensures forall p :: Occurrences(result, p) == Occurrences(acc, p) + if 4 <= Rank(p) < 8 then ExpectedOccurrences(c, p) else 0
  {
    result := acc;
    if c.defaultDatabaseShardingStrategy.Some? {
      result := result + [DatabaseStrategyNode(c.defaultDatabaseShardingStrategy.value)];
    }
    if c.defaultTableShardingStrategy.Some? {
      result := result + [TableStrategyNode(c.defaultTableShardingStrategy.value)];
    }
    if c.defaultKeyGenerateStrategy.Some? {
      result := result + [KeyGenerateStrategyNode(c.defaultKeyGenerateStrategy.value)];
    }
    if c.defaultAuditStrategy.Some? {
      result := result + [AuditStrategyNode(c.defaultAuditStrategy.value)];
    }
    assert result == acc + Section(c, 4) + Section(c, 5) + Section(c, 6) + Section(c, 7);
    forall p ensures Occurrences(result, p) == Occurrences(acc, p) + if 4 <= Rank(p) < 8 then ExpectedOccurrences(c, p) else 0 {
      AppendSection(acc, c, 4, p);
      AppendSection(acc + Section(c, 4), c, 5, p);
      AppendSection(acc + Section(c, 4) + Section(c, 5), c, 6, p);
      AppendSection(acc + Section(c, 4) + Section(c, 5) + Section(c, 6), c, 7, p);
    }
  }

  /** `swapAlgorithms`: one node per sharding algorithm, key generator and
      auditor, in map order. It adds exactly the expected nodes of the
      algorithm paths and nothing else. */
  method SwapAlgorithms(c: ShardingRuleConfig, acc: seq<DataNode>) returns (result: seq<DataNode>)
    ensures result == acc + Section(c, 8) + Section(c, 9) + Section(c, 10)
    ensures forall p :: Occurrences(result, p) == Occurrences(acc, p) + if 8 <= Rank(p) < 11 then ExpectedOccurrences(c, p) else 0
  {
    result := AppendEach(acc, c.shardingAlgorithms, ShardingAlgorithmNode);
    result := AppendEach(result, c.keyGenerators, KeyGeneratorNode);
    result := AppendEach(result, c.auditors, AuditorNode);
    forall p ensures Occurrences(result, p) == Occurrences(acc, p) + if 8 <= Rank(p) < 11 then ExpectedOccurrences(c, p) else 0 {
      AppendSection(acc, c, 8, p);
      AppendSection(acc + Section(c, 8), c, 9, p);
      AppendSection(acc + Section(c, 8) + Section(c, 9), c, 10, p);
    }
  }

  /** The tail of `swapToDataNodes`: the default sharding column and the
      cache, each when set. It adds exactly the expected nodes of those two
      paths and nothing else. */
  method SwapDefaults(c: ShardingRuleConfig, acc: seq<DataNode>) returns (result: seq<DataNode>)
    ensures result == acc + Section(c, 11) + Section(c, 12)
    ensures forall p :: Occurrences(result, p) == Occurrences(acc, p) + if 11 <= Rank(p) then ExpectedOccurrences(c, p) else 0
  {
    result := acc;
    if c.defaultShardingColumn.Some? {
      result := result + [ShardingColumnNode(c.defaultShardingColumn.value)];
    }
    if c.shardingCache.Some? {
      result := result + [ShardingCacheNode(c.shardingCache.value)];
    }
    assert result == acc + Section(c, 11) + Section(c, 12);
    forall p ensures Occurrences(result, p) == Occurrences(acc, p) + if 11 <= Rank(p) then ExpectedOccurrences(c, p) else 0 {
      AppendSection(acc, c, 11, p);
      AppendSection(acc + Section(c, 11), c, 12, p);
    }
  }

  /** `swapToDataNodes`. Its length is the sum of the per-kind counts, and for
      a configuration with unique keys its paths are pairwise distinct. */
  method SwapToDataNodes(c: ShardingRuleConfig) returns (result: seq<DataNode>)
    ensures result == DataNodes(c)
    ensures |result| == |c.tables| + |c.autoTables| + |c.bindingTableGroups| + (if HasBroadcastTables(c) then 1 else 0)
      + (if c.defaultDatabaseShardingStrategy.Some? then 1 else 0) + (if c.defaultTableShardingStrategy.Some? then 1 else 0)
      + (if c.defaultKeyGenerateStrategy.Some? then 1 else 0) + (if c.defaultAuditStrategy.Some? then 1 else 0)
      + |c.shardingAlgorithms| + |c.keyGenerators| + |c.auditors|
      + (if c.defaultShardingColumn.Some? then 1 else 0) + (if c.shardingCache.Some? then 1 else 0)
    ensures ValidConfig(c) ==> forall i, j :: 0 <= i < j < |result| ==> result[i].path != result[j].path
  {
    result := SwapTableRules(c, []);
    result := SwapStrategies(c, result);
    result := SwapAlgorithms(c, result);
    result := SwapDefaults(c, result);
    DataNodesSplit(c);
    DataNodesLength(c);
    if ValidConfig(c) {
      DataNodesDistinct(c);
    }
  }

  /** `swapToObject`: the reverse direction is not implemented; it returns
      a fresh empty configuration, which writes no node at all. */
  function SwapToObject(nodes: seq<DataNode>): (c: ShardingRuleConfig)
    ensures DataNodes(c) == []
    ensures c.tables == [] && c.autoTables == [] && c.bindingTableGroups == []
    ensures c.broadcastTables == Some([])
    ensures c.shardingAlgorithms == [] && c.keyGenerators == [] && c.auditors == []
    ensures c.defaultDatabaseShardingStrategy.None? && c.defaultTableShardingStrategy.None?
      && c.defaultKeyGenerateStrategy.None? && c.defaultAuditStrategy.None?
      && c.defaultShardingColumn.None? && c.shardingCache.None?
  {
    DataNodesLength(EmptyConfig());
    EmptyConfig()
  }

  /** So no round trip holds: a configuration that writes any node is not
      what `swapToObject` reads back. */
  lemma NoRoundTrip(c: ShardingRuleConfig)
    requires DataNodes(c) != []
    ensures SwapToObject(DataNodes(c)) != c
  {
  }
}
