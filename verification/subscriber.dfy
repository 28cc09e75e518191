/** `ShardingTableConfigurationSubscriber`: twelve handlers that apply a
    configuration-change event to the sharding rule configuration of one
    logical database and republish the whole configuration.

    Each handler is a pure transition: it receives the database registry and
    the event (the gated handlers also take the active-version oracle; the three
    binding-group handlers do not), and returns the registry afterwards
    together with the event it posted (`None` when the version gate dropped
    the event), or an error where the Java code would throw. */
module Subscriber {
  import opened Wrappers
  import opened Keyed
  import opened RuleConfig

  /** The part of a `ShardingSphereDatabase` this core reads: its sharding
      rule configuration, if a sharding rule is present. */
  datatype Database = Database(shardingRule: Option<ShardingRuleConfig>)

  /** The registry, by database name. */
  type Databases = map<string, Database>

  /** `getActiveVersionByKey`: the active version for a version key. */
  type VersionOracle = string -> int

  /** The twelve change events. Every event carries a database name, a
      version key and a version; alter and delete events also name the table
      (or binding group) they act on. */
  datatype Event =
    | AddTable(databaseName: string, versionKey: string, version: int, tableRule: TableRule)
    | AddAutoTable(databaseName: string, versionKey: string, version: int, autoTableRule: AutoTableRule)
    | AddTableReference(databaseName: string, versionKey: string, version: int, group: TableReference)
    | AddBroadcastTable(databaseName: string, versionKey: string, version: int)
    | AlterTable(databaseName: string, tableName: string, versionKey: string, version: int, tableRule: TableRule)
    | AlterAutoTable(databaseName: string, tableName: string, versionKey: string, version: int, autoTableRule: AutoTableRule)
    | AlterTableReference(databaseName: string, tableName: string, versionKey: string, version: int, group: TableReference)
    | AlterBroadcastTable(databaseName: string, versionKey: string, version: int)
    | DeleteTable(databaseName: string, tableName: string, versionKey: string, version: int)
    | DeleteAutoTable(databaseName: string, tableName: string, versionKey: string, version: int)
    | DeleteTableReference(databaseName: string, tableName: string, versionKey: string, version: int)
    | DeleteBroadcastTable(databaseName: string, versionKey: string, version: int)

  /** `DatabaseRuleConfigurationChangedEvent`: the database and its whole
      sharding rule configuration. */
  datatype RuleChanged = RuleChanged(databaseName: string, config: ShardingRuleConfig)

  /** What a handler leaves behind: the registry and the event it posted. */
  datatype Renewal = Renewal(databases: Databases, posted: Option<RuleChanged>)

  /** `UnknownDatabase`: the registry has no such database (the Java code
      dereferences null). `NoShardingRule`: an alter or delete found no
      sharding rule (`getSingleRule` fails). */
  datatype Error = UnknownDatabase(databaseName: string) | NoShardingRule(databaseName: string)

  /** The version gate: an event older than the active version is stale.
      An equal or newer version passes. */
  predicate Stale(e: Event, activeVersion: VersionOracle)
  {
    e.version < activeVersion(e.versionKey)
  }

  /** Every handler consults the version gate except the three binding-group
      (table reference) handlers. */
  predicate Gated(e: Event)
  {
    !(e.AddTableReference? || e.AlterTableReference? || e.DeleteTableReference?)
  }

  /** Alter and delete handlers fetch the rule with `getSingleRule`, which
      fails when there is none; add handlers use `findSingleRule`. */
  predicate NeedsRule(e: Event)
  {
    !(e.AddTable? || e.AddAutoTable? || e.AddTableReference? || e.AddBroadcastTable?)
  }

  predicate HasRule(dbs: Databases, name: string)
  {
    name in dbs && dbs[name].shardingRule.Some?
  }

  function RuleOf(dbs: Databases, name: string): ShardingRuleConfig
    requires HasRule(dbs, name)
  {
    dbs[name].shardingRule.value
  }

  /** The configuration a renewal posted. */
  function PostedConfig(r: Result<Renewal, Error>): ShardingRuleConfig
    requires r.Success? && r.value.posted.Some?
  {
    r.value.posted.value.config
  }

  /** The handler posted one event for `name`, and the configuration it posted
      is now the stored sharding rule of `name` (the Java code mutates the
      rule's own configuration object before posting it). */
  predicate Committed(dbs: Databases, name: string, r: Result<Renewal, Error>)
  {
    && r.Success? && r.value.posted.Some?
    && r.value.posted.value.databaseName == name
    && r.value.databases == dbs[name := Database(Some(r.value.posted.value.config))]
  }

  /** The handler posted one event for `name` and left the registry as it was. */
  predicate PostedOnly(dbs: Databases, name: string, r: Result<Renewal, Error>)
  {
    && r.Success? && r.value.posted.Some?
    && r.value.posted.value.databaseName == name
    && r.value.databases == dbs
  }

  function Commit(dbs: Databases, name: string, c: ShardingRuleConfig): Renewal
  {
    Renewal(dbs[name := Database(Some(c))], Some(RuleChanged(name, c)))
  }

  function Republish(dbs: Databases, name: string, c: ShardingRuleConfig): Renewal
  {
    Renewal(dbs, Some(RuleChanged(name, c)))
  }

  // ---------------------------------------------------------------- add

  /** Add a table rule: an upsert keyed by logic table into `tables`, or, with
      no sharding rule yet, a fresh configuration that is posted but not
      stored. */
  function RenewAddTable(dbs: Databases, activeVersion: VersionOracle, e: Event): (r: Result<Renewal, Error>)
    requires e.AddTable?
    ensures Reconciled(dbs, e, Stale(e, activeVersion), r)
    ensures Stale(e, activeVersion) ==> r == Success(Renewal(dbs, None))
    ensures !Stale(e, activeVersion) && e.databaseName !in dbs ==> r == Failure(UnknownDatabase(e.databaseName))
    ensures !Stale(e, activeVersion) && HasRule(dbs, e.databaseName) ==>
      Committed(dbs, e.databaseName, r) &&
      (var before, after, p := RuleOf(dbs, e.databaseName), PostedConfig(r), e.tableRule;
       && Select(after.tables, LogicTable, p.logicTable) == [p]
       && |after.tables| > 0 && after.tables[|after.tables| - 1] == p
       && (forall k :: k != p.logicTable ==> Select(after.tables, LogicTable, k) == Select(before.tables, LogicTable, k))
       && (UniqueKeys(before.tables, LogicTable) ==> UniqueKeys(after.tables, LogicTable))
       && after == before.(tables := after.tables))
    ensures !Stale(e, activeVersion) && e.databaseName in dbs && !HasRule(dbs, e.databaseName) ==>
      PostedOnly(dbs, e.databaseName, r) && PostedConfig(r) == EmptyConfig().(tables := [e.tableRule])
  {
    if Stale(e, activeVersion) then Success(Renewal(dbs, None))
    else if e.databaseName !in dbs then Failure(UnknownDatabase(e.databaseName))
    else match dbs[e.databaseName].shardingRule
      case Some(config) =>
        Success(Commit(dbs, e.databaseName, config.(tables := Upsert(config.tables, LogicTable, e.tableRule))))
      case None =>
        Success(Republish(dbs, e.databaseName, EmptyConfig().(tables := [e.tableRule])))
  }

  /** Add an auto-table rule: the same upsert, on `autoTables`. */
  function RenewAddAutoTable(dbs: Databases, activeVersion: VersionOracle, e: Event): (r: Result<Renewal, Error>)
    requires e.AddAutoTable?
    ensures Reconciled(dbs, e, Stale(e, activeVersion), r)
    ensures Stale(e, activeVersion) ==> r == Success(Renewal(dbs, None))
    ensures !Stale(e, activeVersion) && e.databaseName !in dbs ==> r == Failure(UnknownDatabase(e.databaseName))
    ensures !Stale(e, activeVersion) && HasRule(dbs, e.databaseName) ==>
      Committed(dbs, e.databaseName, r) &&
      (var before, after, p := RuleOf(dbs, e.databaseName), PostedConfig(r), e.autoTableRule;
       && Select(after.autoTables, AutoLogicTable, p.logicTable) == [p]
       && |after.autoTables| > 0 && after.autoTables[|after.autoTables| - 1] == p
       && (forall k :: k != p.logicTable ==> Select(after.autoTables, AutoLogicTable, k) == Select(before.autoTables, AutoLogicTable, k))
       && (UniqueKeys(before.autoTables, AutoLogicTable) ==> UniqueKeys(after.autoTables, AutoLogicTable))
       && after == before.(autoTables := after.autoTables))
    ensures !Stale(e, activeVersion) && e.databaseName in dbs && !HasRule(dbs, e.databaseName) ==>
      PostedOnly(dbs, e.databaseName, r) && PostedConfig(r) == EmptyConfig().(autoTables := [e.autoTableRule])
  {
    if Stale(e, activeVersion) then Success(Renewal(dbs, None))
    else if e.databaseName !in dbs then Failure(UnknownDatabase(e.databaseName))
    else match dbs[e.databaseName].shardingRule
      case Some(config) =>
        Success(Commit(dbs, e.databaseName, config.(autoTables := Upsert(config.autoTables, AutoLogicTable, e.autoTableRule))))
      case None =>
        Success(Republish(dbs, e.databaseName, EmptyConfig().(autoTables := [e.autoTableRule])))
  }

  /** Add a binding group: an upsert keyed by group name into
      `bindingTableGroups`. This handler has no version gate, so no oracle. */
  function RenewAddTableReference(dbs: Databases, e: Event): (r: Result<Renewal, Error>)
    requires e.AddTableReference?
    ensures Reconciled(dbs, e, false, r)
    ensures e.databaseName !in dbs ==> r == Failure(UnknownDatabase(e.databaseName))
    ensures HasRule(dbs, e.databaseName) ==>
      Committed(dbs, e.databaseName, r) &&
      (var before, after, g := RuleOf(dbs, e.databaseName), PostedConfig(r), e.group;
       && Select(after.bindingTableGroups, GroupName, g.name) == [g]
       && |after.bindingTableGroups| > 0 && after.bindingTableGroups[|after.bindingTableGroups| - 1] == g
       && (forall k :: k != g.name ==> Select(after.bindingTableGroups, GroupName, k) == Select(before.bindingTableGroups, GroupName, k))
       && (UniqueKeys(before.bindingTableGroups, GroupName) ==> UniqueKeys(after.bindingTableGroups, GroupName))
       && after == before.(bindingTableGroups := after.bindingTableGroups))
    ensures e.databaseName in dbs && !HasRule(dbs, e.databaseName) ==>
      PostedOnly(dbs, e.databaseName, r) && PostedConfig(r) == EmptyConfig().(bindingTableGroups := [e.group])
  {
    if e.databaseName !in dbs then Failure(UnknownDatabase(e.databaseName))
    else match dbs[e.databaseName].shardingRule
      case Some(config) =>
        Success(Commit(dbs, e.databaseName, config.(bindingTableGroups := Upsert(config.bindingTableGroups, GroupName, e.group))))
      case None =>
        Success(Republish(dbs, e.databaseName, EmptyConfig().(bindingTableGroups := [e.group])))
  }

  /** Add broadcast tables: republish the current configuration (or a fresh
      empty one) without changing any collection. */
  function RenewAddBroadcastTable(dbs: Databases, activeVersion: VersionOracle, e: Event): (r: Result<Renewal, Error>)
    requires e.AddBroadcastTable?
    ensures Reconciled(dbs, e, Stale(e, activeVersion), r)
    ensures Stale(e, activeVersion) ==> r == Success(Renewal(dbs, None))
    ensures !Stale(e, activeVersion) && e.databaseName !in dbs ==> r == Failure(UnknownDatabase(e.databaseName))
    ensures !Stale(e, activeVersion) && HasRule(dbs, e.databaseName) ==>
      PostedOnly(dbs, e.databaseName, r) && PostedConfig(r) == RuleOf(dbs, e.databaseName)
    ensures !Stale(e, activeVersion) && e.databaseName in dbs && !HasRule(dbs, e.databaseName) ==>
      PostedOnly(dbs, e.databaseName, r) && PostedConfig(r) == EmptyConfig()
  {
    if Stale(e, activeVersion) then Success(Renewal(dbs, None))
    else if e.databaseName !in dbs then Failure(UnknownDatabase(e.databaseName))
    else match dbs[e.databaseName].shardingRule
      case Some(config) => Success(Republish(dbs, e.databaseName, config))
      case None => Success(Republish(dbs, e.databaseName, EmptyConfig()))
  }

  // ---------------------------------------------------------------- alter

  /** Alter a table rule: remove the tables keyed by the event's table name,
      then append the payload. The payload's own logic table is not consulted,
      so a payload keyed differently from the event's table name is added next
      to any entry already carrying that key. */
  function RenewAlterTable(dbs: Databases, activeVersion: VersionOracle, e: Event): (r: Result<Renewal, Error>)
    requires e.AlterTable?
    ensures Reconciled(dbs, e, Stale(e, activeVersion), r)
    ensures Stale(e, activeVersion) ==> r == Success(Renewal(dbs, None))
    ensures !Stale(e, activeVersion) && e.databaseName !in dbs ==> r == Failure(UnknownDatabase(e.databaseName))
    ensures !Stale(e, activeVersion) && e.databaseName in dbs && !HasRule(dbs, e.databaseName) ==>
      r == Failure(NoShardingRule(e.databaseName))
    ensures !Stale(e, activeVersion) && HasRule(dbs, e.databaseName) ==>
      Committed(dbs, e.databaseName, r) &&
      (var before, after, p, name := RuleOf(dbs, e.databaseName), PostedConfig(r), e.tableRule, e.tableName;
       && Select(after.tables, LogicTable, name) == (if p.logicTable == name then [p] else [])
       && |after.tables| > 0 && after.tables[|after.tables| - 1] == p
       && (p.logicTable != name ==>
             Select(after.tables, LogicTable, p.logicTable) == Select(before.tables, LogicTable, p.logicTable) + [p])
       && (forall k :: k != name && k != p.logicTable ==>
             Select(after.tables, LogicTable, k) == Select(before.tables, LogicTable, k))
       && after == before.(tables := after.tables))
  {
    if Stale(e, activeVersion) then Success(Renewal(dbs, None))
    else if e.databaseName !in dbs then Failure(UnknownDatabase(e.databaseName))
    else match dbs[e.databaseName].shardingRule
      case Some(config) =>
        Success(Commit(dbs, e.databaseName, config.(tables := Replace(config.tables, LogicTable, e.tableName, e.tableRule))))
      case None => Failure(NoShardingRule(e.databaseName))
  }

  /** Alter an auto-table rule: the same remove-then-append, on `autoTables`. */
  function RenewAlterAutoTable(dbs: Databases, activeVersion: VersionOracle, e: Event): (r: Result<Renewal, Error>)
    requires e.AlterAutoTable?
    ensures Reconciled(dbs, e, Stale(e, activeVersion), r)
    ensures Stale(e, activeVersion) ==> r == Success(Renewal(dbs, None))
    ensures !Stale(e, activeVersion) && e.databaseName !in dbs ==> r == Failure(UnknownDatabase(e.databaseName))
    ensures !Stale(e, activeVersion) && e.databaseName in dbs && !HasRule(dbs, e.databaseName) ==>
      r == Failure(NoShardingRule(e.databaseName))
    ensures !Stale(e, activeVersion) && HasRule(dbs, e.databaseName) ==>
      Committed(dbs, e.databaseName, r) &&
      (var before, after, p, name := RuleOf(dbs, e.databaseName), PostedConfig(r), e.autoTableRule, e.tableName;
       && Select(after.autoTables, AutoLogicTable, name) == (if p.logicTable == name then [p] else [])
       && |after.autoTables| > 0 && after.autoTables[|after.autoTables| - 1] == p
       && (p.logicTable != name ==>
             Select(after.autoTables, AutoLogicTable, p.logicTable) == Select(before.autoTables, AutoLogicTable, p.logicTable) + [p])
       && (forall k :: k != name && k != p.logicTable ==>
             Select(after.autoTables, AutoLogicTable, k) == Select(before.autoTables, AutoLogicTable, k))
       && after == before.(autoTables := after.autoTables))
  {
    if Stale(e, activeVersion) then Success(Renewal(dbs, None))
    else if e.databaseName !in dbs then Failure(UnknownDatabase(e.databaseName))
    else match dbs[e.databaseName].shardingRule
      case Some(config) =>
        Success(Commit(dbs, e.databaseName, config.(autoTables := Replace(config.autoTables, AutoLogicTable, e.tableName, e.autoTableRule))))
      case None => Failure(NoShardingRule(e.databaseName))
  }

  /** Alter a binding group: remove the groups named by the event's table
      name, then append the payload. No version gate. */
  function RenewAlterTableReference(dbs: Databases, e: Event): (r: Result<Renewal, Error>)
    requires e.AlterTableReference?
    ensures Reconciled(dbs, e, false, r)
    ensures e.databaseName !in dbs ==> r == Failure(UnknownDatabase(e.databaseName))
    ensures e.databaseName in dbs && !HasRule(dbs, e.databaseName) ==> r == Failure(NoShardingRule(e.databaseName))
    ensures HasRule(dbs, e.databaseName) ==>
      Committed(dbs, e.databaseName, r) &&
      (var before, after, g, name := RuleOf(dbs, e.databaseName), PostedConfig(r), e.group, e.tableName;
       && Select(after.bindingTableGroups, GroupName, name) == (if g.name == name then [g] else [])
       && |after.bindingTableGroups| > 0 && after.bindingTableGroups[|after.bindingTableGroups| - 1] == g
       && (g.name != name ==>
             Select(after.bindingTableGroups, GroupName, g.name) == Select(before.bindingTableGroups, GroupName, g.name) + [g])
       && (forall k :: k != name && k != g.name ==>
             Select(after.bindingTableGroups, GroupName, k) == Select(before.bindingTableGroups, GroupName, k))
       && after == before.(bindingTableGroups := after.bindingTableGroups))
  {
    if e.databaseName !in dbs then Failure(UnknownDatabase(e.databaseName))
    else match dbs[e.databaseName].shardingRule
      case Some(config) =>
        Success(Commit(dbs, e.databaseName, config.(bindingTableGroups := Replace(config.bindingTableGroups, GroupName, e.tableName, e.group))))
      case None => Failure(NoShardingRule(e.databaseName))
  }

  /** Alter broadcast tables: republish the existing configuration unchanged. */
  function RenewAlterBroadcastTable(dbs: Databases, activeVersion: VersionOracle, e: Event): (r: Result<Renewal, Error>)
    requires e.AlterBroadcastTable?
    ensures Reconciled(dbs, e, Stale(e, activeVersion), r)
    ensures Stale(e, activeVersion) ==> r == Success(Renewal(dbs, None))
    ensures !Stale(e, activeVersion) && e.databaseName !in dbs ==> r == Failure(UnknownDatabase(e.databaseName))
    ensures !Stale(e, activeVersion) && e.databaseName in dbs && !HasRule(dbs, e.databaseName) ==>
      r == Failure(NoShardingRule(e.databaseName))
    ensures !Stale(e, activeVersion) && HasRule(dbs, e.databaseName) ==>
      PostedOnly(dbs, e.databaseName, r) && PostedConfig(r) == RuleOf(dbs, e.databaseName)
  {
    if Stale(e, activeVersion) then Success(Renewal(dbs, None))
    else if e.databaseName !in dbs then Failure(UnknownDatabase(e.databaseName))
    else match dbs[e.databaseName].shardingRule
      case Some(config) => Success(Republish(dbs, e.databaseName, config))
      case None => Failure(NoShardingRule(e.databaseName))
  }

  // ---------------------------------------------------------------- delete

  /** Delete a table rule: remove every table keyed by the event's table name. */
  function RenewDeleteTable(dbs: Databases, activeVersion: VersionOracle, e: Event): (r: Result<Renewal, Error>)
    requires e.DeleteTable?
    ensures Reconciled(dbs, e, Stale(e, activeVersion), r)
    ensures Stale(e, activeVersion) ==> r == Success(Renewal(dbs, None))
    ensures !Stale(e, activeVersion) && e.databaseName !in dbs ==> r == Failure(UnknownDatabase(e.databaseName))
    ensures !Stale(e, activeVersion) && e.databaseName in dbs && !HasRule(dbs, e.databaseName) ==>
      r == Failure(NoShardingRule(e.databaseName))
    ensures !Stale(e, activeVersion) && HasRule(dbs, e.databaseName) ==>
      Committed(dbs, e.databaseName, r) &&
      (var before, after := RuleOf(dbs, e.databaseName), PostedConfig(r);
       && Select(after.tables, LogicTable, e.tableName) == []
       && (forall k :: k != e.tableName ==> Select(after.tables, LogicTable, k) == Select(before.tables, LogicTable, k))
       && (Select(before.tables, LogicTable, e.tableName) == [] ==> after == before)
       && after == before.(tables := after.tables))
  {
    if Stale(e, activeVersion) then Success(Renewal(dbs, None))
    else if e.databaseName !in dbs then Failure(UnknownDatabase(e.databaseName))
    else match dbs[e.databaseName].shardingRule
      case Some(config) =>
        SelectWithoutAll(config.tables, LogicTable, e.tableName);
        Success(Commit(dbs, e.databaseName, config.(tables := Without(config.tables, LogicTable, e.tableName))))
      case None => Failure(NoShardingRule(e.databaseName))
  }

  /** Delete an auto-table rule: remove every auto table keyed by the event's
      table name; `tables` and the binding groups are untouched. */
  function RenewDeleteAutoTable(dbs: Databases, activeVersion: VersionOracle, e: Event): (r: Result<Renewal, Error>)
    requires e.DeleteAutoTable?
    ensures Reconciled(dbs, e, Stale(e, activeVersion), r)
    ensures Stale(e, activeVersion) ==> r == Success(Renewal(dbs, None))
    ensures !Stale(e, activeVersion) && e.databaseName !in dbs ==> r == Failure(UnknownDatabase(e.databaseName))
    ensures !Stale(e, activeVersion) && e.databaseName in dbs && !HasRule(dbs, e.databaseName) ==>
      r == Failure(NoShardingRule(e.databaseName))
    ensures !Stale(e, activeVersion) && HasRule(dbs, e.databaseName) ==>
      Committed(dbs, e.databaseName, r) &&
      (var before, after := RuleOf(dbs, e.databaseName), PostedConfig(r);
       && Select(after.autoTables, AutoLogicTable, e.tableName) == []
       && (forall k :: k != e.tableName ==> Select(after.autoTables, AutoLogicTable, k) == Select(before.autoTables, AutoLogicTable, k))
       && (Select(before.autoTables, AutoLogicTable, e.tableName) == [] ==> after == before)
       && after == before.(autoTables := after.autoTables))
  {
    if Stale(e, activeVersion) then Success(Renewal(dbs, None))
    else if e.databaseName !in dbs then Failure(UnknownDatabase(e.databaseName))
    else match dbs[e.databaseName].shardingRule
      case Some(config) =>
        SelectWithoutAll(config.autoTables, AutoLogicTable, e.tableName);
        Success(Commit(dbs, e.databaseName, config.(autoTables := Without(config.autoTables, AutoLogicTable, e.tableName))))
      case None => Failure(NoShardingRule(e.databaseName))
  }

  /** Delete a binding group: remove every group named by the event's table
      name. No version gate. */
  function RenewDeleteTableReference(dbs: Databases, e: Event): (r: Result<Renewal, Error>)
    requires e.DeleteTableReference?
    ensures Reconciled(dbs, e, false, r)
    ensures e.databaseName !in dbs ==> r == Failure(UnknownDatabase(e.databaseName))
    ensures e.databaseName in dbs && !HasRule(dbs, e.databaseName) ==> r == Failure(NoShardingRule(e.databaseName))
    ensures HasRule(dbs, e.databaseName) ==>
      Committed(dbs, e.databaseName, r) &&
      (var before, after := RuleOf(dbs, e.databaseName), PostedConfig(r);
       && Select(after.bindingTableGroups, GroupName, e.tableName) == []
       && (forall k :: k != e.tableName ==> Select(after.bindingTableGroups, GroupName, k) == Select(before.bindingTableGroups, GroupName, k))
       && (Select(before.bindingTableGroups, GroupName, e.tableName) == [] ==> after == before)
       && after == before.(bindingTableGroups := after.bindingTableGroups))
  {
    if e.databaseName !in dbs then Failure(UnknownDatabase(e.databaseName))
    else match dbs[e.databaseName].shardingRule
      case Some(config) =>
        SelectWithoutAll(config.bindingTableGroups, GroupName, e.tableName);
        Success(Commit(dbs, e.databaseName, config.(bindingTableGroups := Without(config.bindingTableGroups, GroupName, e.tableName))))
      case None => Failure(NoShardingRule(e.databaseName))
  }

  /** Delete broadcast tables: republish the existing configuration unchanged. */
  function RenewDeleteBroadcastTable(dbs: Databases, activeVersion: VersionOracle, e: Event): (r: Result<Renewal, Error>)
    requires e.DeleteBroadcastTable?
    ensures Reconciled(dbs, e, Stale(e, activeVersion), r)
    ensures Stale(e, activeVersion) ==> r == Success(Renewal(dbs, None))
    ensures !Stale(e, activeVersion) && e.databaseName !in dbs ==> r == Failure(UnknownDatabase(e.databaseName))
    ensures !Stale(e, activeVersion) && e.databaseName in dbs && !HasRule(dbs, e.databaseName) ==>
      r == Failure(NoShardingRule(e.databaseName))
    ensures !Stale(e, activeVersion) && HasRule(dbs, e.databaseName) ==>
      PostedOnly(dbs, e.databaseName, r) && PostedConfig(r) == RuleOf(dbs, e.databaseName)
  {
    if Stale(e, activeVersion) then Success(Renewal(dbs, None))
    else if e.databaseName !in dbs then Failure(UnknownDatabase(e.databaseName))
    else match dbs[e.databaseName].shardingRule
      case Some(config) => Success(Republish(dbs, e.databaseName, config))
      case None => Failure(NoShardingRule(e.databaseName))
  }

  // ---------------------------------------------------------------- dispatch

  /** What every handler promises, whatever the event; `dropped` says whether
      the version gate rejected it. */
  ghost predicate Reconciled(dbs: Databases, e: Event, dropped: bool, r: Result<Renewal, Error>)
  {
    // the gate drops stale gated events without any effect
    && (dropped ==> r == Success(Renewal(dbs, None)))
    // ... and that is the only way a handler posts nothing
    && (r.Success? && r.value.posted.None? ==> dropped && r.value.databases == dbs)
    // a handler fails exactly on an unknown database, or on an alter or delete with no sharding rule
    && (r.Failure? <==> !dropped && (e.databaseName !in dbs || (NeedsRule(e) && !HasRule(dbs, e.databaseName))))
    && (r.Failure? ==> r.error.databaseName == e.databaseName)
    // one posted event, for the event's database, carrying its whole stored configuration
    && (r.Success? && r.value.posted.Some? ==>
          && r.value.posted.value.databaseName == e.databaseName
          && (HasRule(r.value.databases, e.databaseName) ==>
                RuleOf(r.value.databases, e.databaseName) == r.value.posted.value.config))
    // no other database changes, and no handler creates or drops a sharding rule
    && (r.Success? ==>
          && r.value.databases.Keys == dbs.Keys
          && (forall n :: n in dbs && n != e.databaseName ==> r.value.databases[n] == dbs[n])
          && (forall n :: HasRule(r.value.databases, n) <==> HasRule(dbs, n)))
  }

  /** The event bus's dispatch: each event goes to the one handler declared
      for its type. */
  function Renew(dbs: Databases, activeVersion: VersionOracle, e: Event): (r: Result<Renewal, Error>)
    ensures Reconciled(dbs, e, Gated(e) && Stale(e, activeVersion), r)
  {
    match e
    case AddTable(_, _, _, _) => RenewAddTable(dbs, activeVersion, e)
    case AddAutoTable(_, _, _, _) => RenewAddAutoTable(dbs, activeVersion, e)
    case AddTableReference(_, _, _, _) => RenewAddTableReference(dbs, e)
    case AddBroadcastTable(_, _, _) => RenewAddBroadcastTable(dbs, activeVersion, e)
    case AlterTable(_, _, _, _, _) => RenewAlterTable(dbs, activeVersion, e)
    case AlterAutoTable(_, _, _, _, _) => RenewAlterAutoTable(dbs, activeVersion, e)
    case AlterTableReference(_, _, _, _, _) => RenewAlterTableReference(dbs, e)
    case AlterBroadcastTable(_, _, _) => RenewAlterBroadcastTable(dbs, activeVersion, e)
    case DeleteTable(_, _, _, _) => RenewDeleteTable(dbs, activeVersion, e)
    case DeleteAutoTable(_, _, _, _) => RenewDeleteAutoTable(dbs, activeVersion, e)
    case DeleteTableReference(_, _, _, _) => RenewDeleteTableReference(dbs, e)
    case DeleteBroadcastTable(_, _, _) => RenewDeleteBroadcastTable(dbs, activeVersion, e)
  }

  /** The binding-group handlers never consult the oracle: any two oracles
      give the same outcome, and that outcome is never a silent drop. */
  lemma TableReferenceIgnoresOracle(dbs: Databases, oracle1: VersionOracle, oracle2: VersionOracle, e: Event)
    requires !Gated(e)
    ensures Renew(dbs, oracle1, e) == Renew(dbs, oracle2, e)
    ensures Renew(dbs, oracle1, e) != Success(Renewal(dbs, None))
  {
  }

  /** Redelivering an add-table event changes nothing more: the second
      delivery finds the state the first one left and reproduces its outcome. */
  lemma AddTableIdempotent(dbs: Databases, activeVersion: VersionOracle, e: Event)
    requires e.AddTable?
    ensures var r1 := RenewAddTable(dbs, activeVersion, e);
      r1.Success? ==> RenewAddTable(r1.value.databases, activeVersion, e) == r1
  {
    var r1 := RenewAddTable(dbs, activeVersion, e);
    if r1.Success? && !Stale(e, activeVersion) && HasRule(dbs, e.databaseName) {
      var config := RuleOf(dbs, e.databaseName);
      UpsertIdempotent(config.tables, LogicTable, e.tableRule);
      var after := config.(tables := Upsert(config.tables, LogicTable, e.tableRule));
      var dbs1 := dbs[e.databaseName := Database(Some(after))];
      assert dbs1[e.databaseName := Database(Some(after))] == dbs1;
    }
  }

  /** Redelivering a delete-auto-table event changes nothing more. */
  lemma DeleteAutoTableIdempotent(dbs: Databases, activeVersion: VersionOracle, e: Event)
    requires e.DeleteAutoTable?
    ensures var r1 := RenewDeleteAutoTable(dbs, activeVersion, e);
      r1.Success? ==> RenewDeleteAutoTable(r1.value.databases, activeVersion, e) == r1
  {
    var r1 := RenewDeleteAutoTable(dbs, activeVersion, e);
    if r1.Success? && !Stale(e, activeVersion) {
      var config := RuleOf(dbs, e.databaseName);
      WithoutIdempotent(config.autoTables, AutoLogicTable, e.tableName);
      var after := config.(autoTables := Without(config.autoTables, AutoLogicTable, e.tableName));
      var dbs1 := dbs[e.databaseName := Database(Some(after))];
      assert dbs1[e.databaseName := Database(Some(after))] == dbs1;
    }
  }

  /** An alter whose payload is keyed by the event's own table name behaves
      exactly like an add of that payload to an existing rule. */
  lemma AlterTableOwnNameIsAdd(dbs: Databases, activeVersion: VersionOracle, name: string, versionKey: string, version: int, p: TableRule)
    requires HasRule(dbs, name)
    ensures RenewAlterTable(dbs, activeVersion, AlterTable(name, p.logicTable, versionKey, version, p))
         == RenewAddTable(dbs, activeVersion, AddTable(name, versionKey, version, p))
  {
  }

  /** The alter handler can leave two tables with the same logic table: a
      payload keyed "t_order" delivered under the table name "t_user" is
      appended beside the existing "t_order" entry. */
  lemma AlterTableMayDuplicate()
    ensures var before := EmptyConfig().(tables := [TableRule("t_order", "ds_0.t_order"), TableRule("t_user", "ds_0.t_user")]);
      var dbs := map["db" := Database(Some(before))];
      var r := RenewAlterTable(dbs, _ => 0, AlterTable("db", "t_user", "key", 0, TableRule("t_order", "ds_1.t_order")));
      && UniqueKeys(before.tables, LogicTable)
      && r.Success? && r.value.posted.Some?
      && !UniqueKeys(PostedConfig(r).tables, LogicTable)
  {
    var before := EmptyConfig().(tables := [TableRule("t_order", "ds_0.t_order"), TableRule("t_user", "ds_0.t_user")]);
    forall k ensures |Select(before.tables, LogicTable, k)| <= 1 {
      assert before.tables[1..][1..] == [];
    }
    var dbs := map["db" := Database(Some(before))];
    var r := RenewAlterTable(dbs, _ => 0, AlterTable("db", "t_user", "key", 0, TableRule("t_order", "ds_1.t_order")));
    assert |Select(PostedConfig(r).tables, LogicTable, "t_order")| == 2;
  }

  // ---------------------------------------------------------------- order

  /** Where a committed change leaves the entries of a keyed list: an add or
      alter leaves the payload last, after the surviving entries in their old
      order; a delete keeps the survivors in their old order. */
  ghost predicate KeepsOrder<T>(before: seq<T>, after: seq<T>, payload: Option<T>)
  {
    match payload
    case None => Subsequence(after, before)
    case Some(x) => |after| > 0 && after[|after| - 1] == x && Subsequence(after[..|after| - 1], before)
  }

  /** Add, alter and delete on the table rules keep the order of `tables`:
      `add` appends at the end after `removeIf`, which keeps the order of what
      it keeps. */
  lemma TablesKeepOrder(dbs: Databases, activeVersion: VersionOracle, e: Event)
    requires e.AddTable? || e.AlterTable? || e.DeleteTable?
    requires HasRule(dbs, e.databaseName) && !Stale(e, activeVersion)
    ensures var r := Renew(dbs, activeVersion, e);
      && r.Success? && r.value.posted.Some?
      && KeepsOrder(RuleOf(dbs, e.databaseName).tables, PostedConfig(r).tables,
                    if e.DeleteTable? then None else Some(e.tableRule))
  {
    var before := RuleOf(dbs, e.databaseName).tables;
    if e.AddTable? {
      UpsertKeepsOrder(before, LogicTable, e.tableRule);
    } else if e.AlterTable? {
      ReplaceKeepsOrder(before, LogicTable, e.tableName, e.tableRule);
    } else {
      WithoutKeepsOrder(before, LogicTable, e.tableName);
    }
  }

  /** The same for the auto-table rules and `autoTables`. */
  lemma AutoTablesKeepOrder(dbs: Databases, activeVersion: VersionOracle, e: Event)
    requires e.AddAutoTable? || e.AlterAutoTable? || e.DeleteAutoTable?
    requires HasRule(dbs, e.databaseName) && !Stale(e, activeVersion)
    ensures var r := Renew(dbs, activeVersion, e);
      && r.Success? && r.value.posted.Some?
      && KeepsOrder(RuleOf(dbs, e.databaseName).autoTables, PostedConfig(r).autoTables,
                    if e.DeleteAutoTable? then None else Some(e.autoTableRule))
  {
    var before := RuleOf(dbs, e.databaseName).autoTables;
    if e.AddAutoTable? {
      UpsertKeepsOrder(before, AutoLogicTable, e.autoTableRule);
    } else if e.AlterAutoTable? {
      ReplaceKeepsOrder(before, AutoLogicTable, e.tableName, e.autoTableRule);
    } else {
      WithoutKeepsOrder(before, AutoLogicTable, e.tableName);
    }
  }

  /** The same for the binding groups, which have no version gate. */
  lemma BindingGroupsKeepOrder(dbs: Databases, activeVersion: VersionOracle, e: Event)
    requires e.AddTableReference? || e.AlterTableReference? || e.DeleteTableReference?
    requires HasRule(dbs, e.databaseName)
    ensures var r := Renew(dbs, activeVersion, e);
      && r.Success? && r.value.posted.Some?
      && KeepsOrder(RuleOf(dbs, e.databaseName).bindingTableGroups, PostedConfig(r).bindingTableGroups,
                    if e.DeleteTableReference? then None else Some(e.group))
  {
    var before := RuleOf(dbs, e.databaseName).bindingTableGroups;
    if e.AddTableReference? {
      UpsertKeepsOrder(before, GroupName, e.group);
    } else if e.AlterTableReference? {
      ReplaceKeepsOrder(before, GroupName, e.tableName, e.group);
    } else {
      WithoutKeepsOrder(before, GroupName, e.tableName);
    }
  }
}
