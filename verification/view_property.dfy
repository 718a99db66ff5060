/** The materialized-view variant of an entity property: the capability
    profile of an entity that is backed by a read-only materialized view
    instead of a table. Every accessor of the Java class becomes a pure
    function over an immutable `View` record; setters and injections return
    the updated record; exceptions become `Failure` values. */
module ViewProperty {
  import opened Wrappers

  /** Consistency levels of the database driver. */
  datatype ConsistencyLevel =
    | ANY | ONE | TWO | THREE | QUORUM | ALL
    | LOCAL_QUORUM | EACH_QUORUM | SERIAL | LOCAL_SERIAL | LOCAL_ONE

  /** Which fields an insert writes. */
  datatype InsertStrategy = ALL_FIELDS | NOT_NULL_FIELDS

  /** Lifecycle events an interceptor can listen to. */
  datatype Event = PRE_INSERT | POST_INSERT | PRE_DELETE | POST_DELETE | POST_LOAD

  /** Whether an entity is backed by a table or by a materialized view. */
  datatype EntityType = TABLE | VIEW

  /** One mapped field of the entity and the column that stores it. */
  datatype Property = Property(fieldName: string, columnName: string)

  /** A reference to the property object of another entity (the view's base table). */
  datatype EntityRef = EntityRef(entityClass: string)

  /** The state of one view property object.
      `keyspace` is what the base class resolves from configuration and annotation;
      `viewName` is the view's own name; `derivedName` is the name the base class
      derives for messages. The consistency and strategy fields are the base
      class's injectable fields, absent until injected. */
  datatype View = View(
    entityClass: string,
    keyspace: Option<string>,
    viewName: string,
    derivedName: string,
    partitionKeys: seq<Property>,
    clusteringColumns: seq<Property>,
    normalColumns: seq<Property>,
    computedColumns: seq<Property>,
    readConsistencyLevel: Option<ConsistencyLevel>,
    writeConsistencyLevel: Option<ConsistencyLevel>,
    serialConsistencyLevel: Option<ConsistencyLevel>,
    insertStrategy: Option<InsertStrategy>,
    baseClassProperty: Option<EntityRef>)

  /** The exceptions a view property raises. */
  datatype ViewError =
    | KeyspaceNotProvided(entityClass: string)
    | KeyspaceNotFound(keyspace: string, entityClass: string)
    | ViewNotFound(viewName: string, entityClass: string)
    | InvalidColumns(columns: seq<Property>, entityClass: string)
    | MutationOnView(message: string)
    | InterceptorFailed(message: string)

  const MutationOnViewPrefix: string := "Cannot execute mutation for the materialized view "

  /** The runtime exception every mutation attempt on `p` raises. */
  function MutationRejected(p: View): ViewError {
    MutationOnView(MutationOnViewPrefix + p.derivedName)
  }

  // ---------------------------------------------------------------------
  // Kind of entity

  function IsTable(p: View): bool {
    false
  }

  function IsView(p: View): bool {
    true
  }

  function GetType(p: View): EntityType {
    VIEW
  }

  /** A view is never a table, always a view, and its type says the same. */
  lemma ViewKind(p: View)
    ensures !IsTable(p) && IsView(p)
    ensures GetType(p) == VIEW
    ensures GetType(p) == TABLE <==> IsTable(p)
  {
  }

  // ---------------------------------------------------------------------
  // Column lists

  /** Partition keys, then clustering columns, then normal columns. */
  function AllColumns(p: View): (r: seq<Property>)
    ensures |r| == |p.partitionKeys| + |p.clusteringColumns| + |p.normalColumns|
    ensures forall i :: 0 <= i < |p.partitionKeys| ==> r[i] == p.partitionKeys[i]
    ensures forall i :: 0 <= i < |p.clusteringColumns| ==>
              r[|p.partitionKeys| + i] == p.clusteringColumns[i]
    ensures forall i :: 0 <= i < |p.normalColumns| ==>
              r[|p.partitionKeys| + |p.clusteringColumns| + i] == p.normalColumns[i]
  {
    p.partitionKeys + p.clusteringColumns + p.normalColumns
  }

  /** The same list with the computed columns appended at the end. */
  function AllColumnsWithComputed(p: View): (r: seq<Property>)
    ensures |r| == |AllColumns(p)| + |p.computedColumns|
    ensures r[..|AllColumns(p)|] == AllColumns(p)
    ensures r[|AllColumns(p)|..] == p.computedColumns
  {
    p.partitionKeys + p.clusteringColumns + p.normalColumns + p.computedColumns
  }

  /** A column is listed exactly when it has one of the listed roles. */
  lemma AllColumnsMembership(p: View, x: Property)
    ensures x in AllColumns(p) <==>
              x in p.partitionKeys || x in p.clusteringColumns || x in p.normalColumns
    ensures x in AllColumnsWithComputed(p) <==> x in AllColumns(p) || x in p.computedColumns
  {
    assert AllColumnsWithComputed(p) == AllColumns(p) + p.computedColumns;
  }

  // ---------------------------------------------------------------------
  // Schema generation

  const DdlSeparator: string := "\n\n"

  /** The DDL statements of the view joined by blank lines. */
  function JoinStatements(statements: seq<string>): string {
    if |statements| == 0 then ""
    else if |statements| == 1 then statements[0]
    else statements[0] + DdlSeparator + JoinStatements(statements[1..])
  }

  /** Total length of the statements. */
  function TotalLength(statements: seq<string>): nat {
    if |statements| == 0 then 0 else |statements[0]| + TotalLength(statements[1..])
  }

  /** The DDL script of a view: whatever the schema creator generates for it,
      joined by blank lines. */
  function GenerateSchema(p: View, generateView: View -> seq<string>): string {
    JoinStatements(generateView(p))
  }

  /** Joining keeps every statement's characters and adds exactly one
      two-character separator between neighbours; the first statement
      starts the script. */
  lemma {:induction false} JoinStatementsShape(statements: seq<string>)
    ensures |statements| == 0 ==> JoinStatements(statements) == ""
    ensures |statements| > 0 ==>
              |JoinStatements(statements)| == TotalLength(statements) + 2 * (|statements| - 1)
    ensures |statements| > 0 ==>
              statements[0] <= JoinStatements(statements)
  {
    if |statements| > 1 {
      JoinStatementsShape(statements[1..]);
    }
  }

  /** Adding one more statement to the joiner: the empty joiner takes it as
      is, a non-empty one appends a separator and then the statement. */
  lemma {:induction false} JoinStatementsAppend(statements: seq<string>, t: string)
    ensures |statements| == 0 ==> JoinStatements(statements + [t]) == t
    ensures |statements| > 0 ==>
              JoinStatements(statements + [t]) == JoinStatements(statements) + "\n\n" + t
    decreases |statements|
  {
    if |statements| == 0 {
      assert statements + [t] == [t];
    } else if |statements| == 1 {
      assert (statements + [t])[1..] == [t];
    } else {
      assert (statements + [t])[1..] == statements[1..] + [t];
      JoinStatementsAppend(statements[1..], t);
    }
  }

  // ---------------------------------------------------------------------
  // Schema validation against the live database metadata

  /** Java `Character.isWhitespace`: ASCII blanks and controls 0x1C-0x1F, and
      the Unicode space, line and paragraph separators except the no-break spaces. */
  predicate IsWhitespace(c: char) {
    || c == ' ' || c == '\t' || c == '\n' || c == '\U{000B}' || c == '\U{000C}' || c == '\r'
    || ('\U{001C}' <= c <= '\U{001F}')
    || c == '\U{1680}'
    || ('\U{2000}' <= c <= '\U{2006}')
    || ('\U{2008}' <= c <= '\U{200A}')
    || c == '\U{2028}' || c == '\U{2029}' || c == '\U{205F}' || c == '\U{3000}'
  }

  /** An absent keyspace, or one made only of whitespace (including the empty one). */
  predicate IsBlank(s: Option<string>) {
    s.None? || forall i :: 0 <= i < |s.value| ==> IsWhitespace(s.value[i])
  }

  /** The keyspace is usable and the live metadata has that keyspace and that view. */
  predicate LiveViewExists<M>(p: View, live: map<string, map<string, M>>) {
    && !IsBlank(p.keyspace)
    && p.keyspace.value in live
    && p.viewName in live[p.keyspace.value]
  }

  /** The live metadata of the view; only meaningful when it exists. */
  function LiveView<M>(p: View, live: map<string, map<string, M>>): M
    requires LiveViewExists(p, live)
  {
    live[p.keyspace.value][p.viewName]
  }

  /** Declarative reading of a successful validation: the view exists live and
      its partition, clustering and normal columns all pass the column check. */
  predicate SchemaConforms<M>(p: View, live: map<string, map<string, M>>,
                              validateColumns: (M, seq<Property>, string) -> bool)
  {
    && LiveViewExists(p, live)
    && validateColumns(LiveView(p, live), p.partitionKeys, p.entityClass)
    && validateColumns(LiveView(p, live), p.clusteringColumns, p.entityClass)
    && validateColumns(LiveView(p, live), p.normalColumns, p.entityClass)
  }

  /** Validates the view against live metadata `live` (keyspace -> view name ->
      view metadata). `validateColumns` is the schema validator's column check. */
  function ValidateSchema<M>(p: View, live: map<string, map<string, M>>,
                             validateColumns: (M, seq<Property>, string) -> bool)
    : (r: Result<(), ViewError>)
    ensures r.Success? <==> SchemaConforms(p, live, validateColumns)
    ensures IsBlank(p.keyspace) ==> r == Failure(KeyspaceNotProvided(p.entityClass))
    ensures !IsBlank(p.keyspace) && p.keyspace.value !in live ==>
              r == Failure(KeyspaceNotFound(p.keyspace.value, p.entityClass))
    ensures !IsBlank(p.keyspace) && p.keyspace.value in live
            && p.viewName !in live[p.keyspace.value] ==>
              r == Failure(ViewNotFound(p.viewName, p.entityClass))
    ensures LiveViewExists(p, live) && r.Failure? ==>
              r.error.InvalidColumns? && r.error.entityClass == p.entityClass
              && r.error.columns in [p.partitionKeys, p.clusteringColumns, p.normalColumns]
              && !validateColumns(LiveView(p, live), r.error.columns, p.entityClass)
    ensures LiveViewExists(p, live)
            && !validateColumns(LiveView(p, live), p.partitionKeys, p.entityClass) ==>
              r == Failure(InvalidColumns(p.partitionKeys, p.entityClass))
    ensures LiveViewExists(p, live)
            && validateColumns(LiveView(p, live), p.partitionKeys, p.entityClass)
            && !validateColumns(LiveView(p, live), p.clusteringColumns, p.entityClass) ==>
              r == Failure(InvalidColumns(p.clusteringColumns, p.entityClass))
    ensures LiveViewExists(p, live)
            && validateColumns(LiveView(p, live), p.partitionKeys, p.entityClass)
            && validateColumns(LiveView(p, live), p.clusteringColumns, p.entityClass)
            && !validateColumns(LiveView(p, live), p.normalColumns, p.entityClass) ==>
              r == Failure(InvalidColumns(p.normalColumns, p.entityClass))
  {
    if IsBlank(p.keyspace) then
      Failure(KeyspaceNotProvided(p.entityClass))
    else if p.keyspace.value !in live then
      Failure(KeyspaceNotFound(p.keyspace.value, p.entityClass))
    else if p.viewName !in live[p.keyspace.value] then
      Failure(ViewNotFound(p.viewName, p.entityClass))
    else
      var viewMetadata := live[p.keyspace.value][p.viewName];
      if !validateColumns(viewMetadata, p.partitionKeys, p.entityClass) then
        Failure(InvalidColumns(p.partitionKeys, p.entityClass))
      else if !validateColumns(viewMetadata, p.clusteringColumns, p.entityClass) then
        Failure(InvalidColumns(p.clusteringColumns, p.entityClass))
      else if !validateColumns(viewMetadata, p.normalColumns, p.entityClass) then
        Failure(InvalidColumns(p.normalColumns, p.entityClass))
      else
        Success(())
  }

  /** Computed columns are never checked: replacing them changes nothing. */
  lemma ValidateSchemaIgnoresComputedColumns<M>(p: View, computed: seq<Property>,
                                                live: map<string, map<string, M>>,
                                                validateColumns: (M, seq<Property>, string) -> bool)
    ensures ValidateSchema(p.(computedColumns := computed), live, validateColumns)
         == ValidateSchema(p, live, validateColumns)
  {
  }

  /** Validation reads nothing of the live metadata but the view's own entry:
      two live schemas that agree on the keyspace and the view give the same verdict. */
  lemma ValidateSchemaReadsOnlyItsView<M>(p: View, live: map<string, map<string, M>>,
                                          live': map<string, map<string, M>>,
                                          validateColumns: (M, seq<Property>, string) -> bool)
    requires !IsBlank(p.keyspace) ==> (p.keyspace.value in live <==> p.keyspace.value in live')
    requires !IsBlank(p.keyspace) && p.keyspace.value in live && p.keyspace.value in live' ==>
               (p.viewName in live[p.keyspace.value] <==> p.viewName in live'[p.keyspace.value])
    requires LiveViewExists(p, live) && LiveViewExists(p, live') ==>
               LiveView(p, live) == LiveView(p, live')
    ensures ValidateSchema(p, live, validateColumns) == ValidateSchema(p, live', validateColumns)
  {
  }

  // ---------------------------------------------------------------------
  // Statement preparation

  /** The static statements an entity can have cached. */
  datatype StatementKind = SelectStatic | InsertStatic | DeleteStatic

  datatype CacheKey = CacheKey(kind: StatementKind, entityClass: string)

  datatype PreparedStatement = PreparedStatement(query: string)

  type StatementsCache = map<CacheKey, PreparedStatement>

  function SelectKey(p: View): CacheKey {
    CacheKey(SelectStatic, p.entityClass)
  }

  /** Prepares the static statements of a view: the select statement only.
      `prepareSelect` is the statement generator, which prepares the query on
      the driver session and may throw; cache entries, once there, are kept,
      and a cached select is not prepared again. */
  function PrepareStaticStatements<E>(p: View, cache: StatementsCache,
                                      prepareSelect: View -> Result<PreparedStatement, E>)
    : (r: Result<StatementsCache, E>)
    ensures r.Failure? <==> SelectKey(p) !in cache && prepareSelect(p).Failure?
    ensures r.Failure? ==> r.error == prepareSelect(p).error
    ensures r.Success? ==> r.value.Keys == cache.Keys + {SelectKey(p)}
    ensures r.Success? ==> forall k :: k in cache ==> k in r.value && r.value[k] == cache[k]
    ensures r.Success? && SelectKey(p) !in cache ==>
              r.value[SelectKey(p)] == prepareSelect(p).value
  {
    if SelectKey(p) in cache then Success(cache)
    else
      match prepareSelect(p)
      case Failure(e) => Failure(e)
      case Success(statement) => Success(cache[SelectKey(p) := statement])
  }

  /** No insert or delete statement is ever added for a view. */
  lemma PrepareAddsNoMutationStatement<E>(p: View, cache: StatementsCache,
                                          prepareSelect: View -> Result<PreparedStatement, E>)
    ensures PrepareStaticStatements(p, cache, prepareSelect).Success? ==>
              forall k :: (k in PrepareStaticStatements(p, cache, prepareSelect).value
                           && k.kind != SelectStatic) ==> k in cache
  {
  }

  /** Preparing again after a successful preparation succeeds without
      changing the cache. */
  lemma PrepareIsIdempotent<E>(p: View, cache: StatementsCache,
                               prepareSelect: View -> Result<PreparedStatement, E>)
    requires PrepareStaticStatements(p, cache, prepareSelect).Success?
    ensures PrepareStaticStatements(p, PrepareStaticStatements(p, cache, prepareSelect).value,
                                    prepareSelect)
         == PrepareStaticStatements(p, cache, prepareSelect)
  {
  }

  // ---------------------------------------------------------------------
  // Injection of runtime defaults

  /** The two `inject` overloads: a (read, write, serial) consistency triple,
      or an insert strategy. */
  datatype Injection =
    | ConsistencyLevels(read: Option<ConsistencyLevel>, write: Option<ConsistencyLevel>,
                        serial: Option<ConsistencyLevel>)
    | Strategy(strategy: InsertStrategy)

  /** Applies one injection: a view takes the read level of a triple and
      ignores the rest. */
  function Inject(p: View, injection: Injection): (r: View)
    ensures r.writeConsistencyLevel == p.writeConsistencyLevel
    ensures r.serialConsistencyLevel == p.serialConsistencyLevel
    ensures r.insertStrategy == p.insertStrategy
    ensures injection.ConsistencyLevels? ==> r.readConsistencyLevel == injection.read
    ensures injection.Strategy? ==> r == p
    ensures r.(readConsistencyLevel := p.readConsistencyLevel) == p
  {
    match injection
    case ConsistencyLevels(read, _, _) => p.(readConsistencyLevel := read)
    case Strategy(_) => p
  }

  /** Applies injections in order. */
  function InjectAll(p: View, injections: seq<Injection>): View
    decreases |injections|
  {
    if |injections| == 0 then p
    else InjectAll(Inject(p, injections[0]), injections[1..])
  }

  /** The read level the last triple set, or `current` when there was none. */
  function LastReadLevel(injections: seq<Injection>, current: Option<ConsistencyLevel>)
    : Option<ConsistencyLevel>
    decreases |injections|
  {
    if |injections| == 0 then current
    else if injections[|injections| - 1].ConsistencyLevels? then injections[|injections| - 1].read
    else LastReadLevel(injections[..|injections| - 1], current)
  }

  /** However the defaults are injected, a view ends with the read level of the
      last triple and with every other field, in particular the write and serial
      levels and the insert strategy, as it was. */
  lemma {:induction false} InjectAllKeepsOnlyReadLevel(p: View, injections: seq<Injection>)
    ensures InjectAll(p, injections).readConsistencyLevel
         == LastReadLevel(injections, p.readConsistencyLevel)
    ensures InjectAll(p, injections).(readConsistencyLevel := p.readConsistencyLevel) == p
    decreases |injections|
  {
    if |injections| > 0 {
      var q := Inject(p, injections[0]);
      InjectAllKeepsOnlyReadLevel(q, injections[1..]);
      LastReadLevelOfTail(injections, p.readConsistencyLevel);
    }
  }

  /** The read level one injection leaves behind when `current` was set before. */
  function ReadLevelAfter(injection: Injection, current: Option<ConsistencyLevel>)
    : Option<ConsistencyLevel>
  {
    if injection.ConsistencyLevels? then injection.read else current
  }

  /** Reading the last level of a non-empty list equals reading its tail from
      the level the head leaves. */
  lemma {:induction false} LastReadLevelOfTail(injections: seq<Injection>,
                                               current: Option<ConsistencyLevel>)
    requires |injections| > 0
    ensures LastReadLevel(injections, current)
         == LastReadLevel(injections[1..], ReadLevelAfter(injections[0], current))
    decreases |injections|
  {
    var n := |injections|;
    if n > 1 && !injections[n - 1].ConsistencyLevels? {
      LastReadLevelOfTail(injections[..n - 1], current);
      assert injections[..n - 1][1..] == injections[1..][..n - 2];
    }
  }

  // ---------------------------------------------------------------------
  // Mutation accessors and interceptors

  function InsertStrategyOf(p: View): Result<InsertStrategy, ViewError> {
    Failure(MutationRejected(p))
  }

  function WriteConsistency(p: View, runtimeConsistency: Option<ConsistencyLevel>)
    : Result<ConsistencyLevel, ViewError>
  {
    Failure(MutationRejected(p))
  }

  function SerialConsistency(p: View, runtimeConsistency: Option<ConsistencyLevel>)
    : Result<ConsistencyLevel, ViewError>
  {
    Failure(MutationRejected(p))
  }

  /** Asking a view for its insert strategy, write level or serial level always
      throws, even when a runtime level is supplied. */
  lemma MutationAccessorsAlwaysFail(p: View, runtimeConsistency: Option<ConsistencyLevel>)
    ensures InsertStrategyOf(p) == Failure(MutationRejected(p))
    ensures WriteConsistency(p, runtimeConsistency) == Failure(MutationRejected(p))
    ensures SerialConsistency(p, runtimeConsistency) == Failure(MutationRejected(p))
    ensures MutationRejected(p).message == MutationOnViewPrefix + p.derivedName
  {
  }

  /** The events that belong to a mutation (insert or delete). */
  predicate IsMutationEvent(e: Event) {
    e in {PRE_INSERT, POST_INSERT, PRE_DELETE, POST_DELETE}
  }

  /** Runs the interceptors for `event`. Only a post-load event reaches the
      base behaviour `runInterceptors`; every other one throws. */
  function TriggerInterceptorsForEvent<I>(p: View, event: Event, instance: I,
                                         runInterceptors: (Event, I) -> Result<I, ViewError>)
    : (r: Result<I, ViewError>)
    ensures event != POST_LOAD ==> r == Failure(MutationRejected(p))
    ensures event == POST_LOAD ==> r == runInterceptors(event, instance)
  {
    if event != POST_LOAD then Failure(MutationRejected(p))
    else runInterceptors(event, instance)
  }

  /** The events a view refuses are exactly the mutation events; the others
      are forwarded unchanged. */
  lemma InterceptorsRefuseExactlyMutations<I>(p: View, event: Event, instance: I,
                                              runInterceptors: (Event, I) -> Result<I, ViewError>)
    ensures IsMutationEvent(event) ==>
              TriggerInterceptorsForEvent(p, event, instance, runInterceptors)
              == Failure(MutationRejected(p))
    ensures !IsMutationEvent(event) ==>
              TriggerInterceptorsForEvent(p, event, instance, runInterceptors)
              == runInterceptors(event, instance)
  {
  }

  // ---------------------------------------------------------------------
  // Fixed defaults

  function IsCounterTable(p: View): bool {
    false
  }

  function StaticWriteConsistency(p: View): Option<ConsistencyLevel> {
    None
  }

  function StaticSerialConsistency(p: View): Option<ConsistencyLevel> {
    None
  }

  function StaticTtl(p: View): Option<int> {
    None
  }

  function StaticInsertStrategy(p: View): Option<InsertStrategy> {
    None
  }

  function StaticColumns(p: View): seq<Property> {
    []
  }

  function CounterColumns(p: View): seq<Property> {
    []
  }

  /** A view is never a counter table and has no static write or serial level,
      no TTL, no insert strategy, no static and no counter columns. */
  lemma ViewDefaults(p: View)
    ensures !IsCounterTable(p)
    ensures StaticWriteConsistency(p).None? && StaticSerialConsistency(p).None?
    ensures StaticTtl(p).None? && StaticInsertStrategy(p).None?
    ensures |StaticColumns(p)| == 0 && |CounterColumns(p)| == 0
  {
  }

  // ---------------------------------------------------------------------
  // Base class property

  function GetBaseClassProperty(p: View): Option<EntityRef> {
    p.baseClassProperty
  }

  function SetBaseClassProperty(p: View, base: Option<EntityRef>): View {
    p.(baseClassProperty := base)
  }

  /** The getter returns the last value set; a later set overrides an earlier
      one; setting touches nothing the view's other accessors read. */
  lemma BaseClassPropertyIsLastSet(p: View, a: Option<EntityRef>, b: Option<EntityRef>)
    ensures GetBaseClassProperty(SetBaseClassProperty(p, b)) == b
    ensures SetBaseClassProperty(SetBaseClassProperty(p, a), b) == SetBaseClassProperty(p, b)
    ensures AllColumnsWithComputed(SetBaseClassProperty(p, b)) == AllColumnsWithComputed(p)
    ensures MutationRejected(SetBaseClassProperty(p, b)) == MutationRejected(p)
  {
  }
}
