# Achilles entity-metadata bootstrap, modelled in Dafny

Achilles is an object mapper for Cassandra. This project models two parts of
its entity-metadata bootstrap and proves properties about them.

1. **The materialized-view property** (`AbstractViewProperty`). A view entity is
   read-only, and this class fixes what such an entity can do:
   - it reports "view, not table";
   - it lists its columns in key order;
   - it validates itself against the live keyspace → view metadata;
   - it prepares only a select statement;
   - it keeps only the read consistency level it is given;
   - it throws on every mutation accessor and on every interceptor event except
     `POST_LOAD`.

   Module `ViewProperty` (`view_property.dfy`) models the object as an
   immutable `View` record. Its accessors are pure functions, and exceptions
   are `Failure` values.
2. **The entity manager factory** (`AchillesEntityManagerFactory`). Its
   constructor rejects a null or empty configuration map. `bootstrap` runs
   `discoverEntities`, wraps any exception it throws into an
   `AchillesException`, and only then calls the table creator.
   `discoverEntities` works in two phases:
   - phase one explores the packages, requires at least one entity, and parses
     each class with a fresh parsing context. All these contexts share one join
     map. Each result goes into the entity map, and the "has simple counter"
     flags are ORed together;
   - phase two resolves the deferred joins once, over the complete map.

   Module `EntityManagerFactory` (`entity_manager_factory.dfy`) models this.
   The explorer, the entity-count validator, the parser, the join filler and
   the table creator are passed in as functions (`Collaborators`). The model
   does not define what they compute. The methods return a record of what they
   did with them: a `DiscoveryRun` or `BootstrapRun` holding the parser calls in
   order, the entity map afterwards, the join-resolution call and the
   table-creation call. The contracts are stated over those records.

`wrappers.dfy` holds `Option`, `Result` and `Outcome`. They stand for Java's
`null`/`Optional`, a value-or-exception, and a `void` call that may throw.

Two behaviours of the view property are worth stating plainly:
- Every interceptor event other than post-load throws a `RuntimeException`
  (`AbstractViewProperty.java:147-149`), and so does `TriggerInterceptorsForEvent`.
- View validation checks only that the keyspace and the view exist, then
  checks the partition, clustering and normal columns, in that order, through
  the column validator (`AbstractViewProperty.java:84-108`). The base table is
  not consulted. `ValidateSchema` does the same.

Path abbreviations used below:
- `AbstractViewProperty.java` is
  `achilles-core/src/main/java/info/archinnov/achilles/internals/metamodel/AbstractViewProperty.java`.
- `AchillesEntityManagerFactory.java` is
  `achilles-core/src/main/java/info/archinnov/achilles/entity/manager/AchillesEntityManagerFactory.java`.

## Model

| member | source | states |
|---|---|---|
| ViewProperty.ViewKind | achilles-core/src/main/java/info/archinnov/achilles/internals/metamodel/AbstractViewProperty.java:56-64 | A view is never a table and always a view. Its entity type (`getType`, lines 130-133) is `VIEW`, which agrees with both flags. |
| ViewProperty.AllColumns | achilles-core/src/main/java/info/archinnov/achilles/internals/metamodel/AbstractViewProperty.java:120-123 | The column list holds the partition keys, then the clustering columns, then the normal columns, each group in declared order. The positions are stated index by index. |
| ViewProperty.AllColumnsWithComputed | achilles-core/src/main/java/info/archinnov/achilles/internals/metamodel/AbstractViewProperty.java:125-128 | The list without computed columns is a prefix of this list, and the remainder is exactly the computed columns. |
| ViewProperty.AllColumnsMembership | achilles-core/src/main/java/info/archinnov/achilles/internals/metamodel/AbstractViewProperty.java:120-128 | A property is in the column list exactly when it is a partition, clustering or normal column. It is in the list with computed columns exactly when it is also or only a computed column. |
| ViewProperty.JoinStatementsShape | achilles-core/src/main/java/info/archinnov/achilles/internals/metamodel/AbstractViewProperty.java:66-76 | The DDL script is the generated statements joined by blank lines. Its length is the statements' total length plus two characters per separator, and it starts with the first statement. |
| ViewProperty.JoinStatementsAppend | achilles-core/src/main/java/info/archinnov/achilles/internals/metamodel/AbstractViewProperty.java:72-75 | Adding a statement to the joiner, as each `add` does, gives the statement itself when nothing was added yet, and otherwise the script so far, a blank line (`"\n\n"`) and the statement. The script therefore holds the statements in order with one blank line between neighbours. |
| ViewProperty.ValidateSchema | achilles-core/src/main/java/info/archinnov/achilles/internals/metamodel/AbstractViewProperty.java:78-109 | The checks fail in order: a blank or absent keyspace, then a keyspace missing from live metadata, then a view missing from that keyspace, then the first rejected column group in the order partition keys, clustering columns, normal columns. Validation succeeds exactly when the view exists live and all three groups pass. |
| ViewProperty.ValidateSchemaIgnoresComputedColumns | achilles-core/src/main/java/info/archinnov/achilles/internals/metamodel/AbstractViewProperty.java:106-108 | Computed columns are never checked: replacing them never changes the verdict. |
| ViewProperty.ValidateSchemaReadsOnlyItsView | achilles-core/src/main/java/info/archinnov/achilles/internals/metamodel/AbstractViewProperty.java:89-104 | Validation reads only the view's own entry in the live metadata. Two live schemas that agree on the keyspace and the view give the same verdict. |
| ViewProperty.PrepareStaticStatements | achilles-core/src/main/java/info/archinnov/achilles/internals/metamodel/AbstractViewProperty.java:111-118 | Preparation fails exactly when the select is not cached yet and the statement generator throws, and then that exception escapes. On success only the view's select key is added, it holds the generated statement, and existing entries are kept unchanged. |
| ViewProperty.PrepareAddsNoMutationStatement | achilles-core/src/main/java/info/archinnov/achilles/internals/metamodel/AbstractViewProperty.java:117 | After a successful preparation, every cache entry that is not a select was already in the cache: no insert or delete statement is ever added for a view. |
| ViewProperty.PrepareIsIdempotent | achilles-core/src/main/java/info/archinnov/achilles/internals/metamodel/AbstractViewProperty.java:111-118 | Preparing again after a successful preparation succeeds and leaves the same cache. |
| ViewProperty.Inject | achilles-core/src/main/java/info/archinnov/achilles/internals/metamodel/AbstractViewProperty.java:135-143 | A consistency triple sets only the read level, to the first component. Write level, serial level and insert strategy never change. An insert-strategy injection changes nothing. |
| ViewProperty.InjectAllKeepsOnlyReadLevel | achilles-core/src/main/java/info/archinnov/achilles/internals/metamodel/AbstractViewProperty.java:135-143 | After any sequence of injections, the read level is the first component of the last triple injected, or the original level when no triple was injected. Every other field, including the mutation settings, is as before. |
| ViewProperty.MutationAccessorsAlwaysFail | achilles-core/src/main/java/info/archinnov/achilles/internals/metamodel/AbstractViewProperty.java:153-166 | `insertStrategy`, `writeConsistency` and `serialConsistency` throw the mutation-on-view exception for every argument, including a present runtime level. The message is the fixed prefix followed by the view's derived name. |
| ViewProperty.TriggerInterceptorsForEvent | achilles-core/src/main/java/info/archinnov/achilles/internals/metamodel/AbstractViewProperty.java:145-151 | Every event except `POST_LOAD` throws the mutation-on-view exception. `POST_LOAD` gets exactly the base interceptor behaviour's result. |
| ViewProperty.InterceptorsRefuseExactlyMutations | achilles-core/src/main/java/info/archinnov/achilles/internals/metamodel/AbstractViewProperty.java:146-150 | Checked against an independent list of insert and delete events: every mutation event is refused, and every other event is forwarded to the base behaviour. |
| ViewProperty.ViewDefaults | achilles-core/src/main/java/info/archinnov/achilles/internals/metamodel/AbstractViewProperty.java:168-201 | A view is never a counter table. It has no static write or serial level, no TTL and no insert strategy, and its static and counter column lists are empty. |
| ViewProperty.BaseClassPropertyIsLastSet | achilles-core/src/main/java/info/archinnov/achilles/internals/metamodel/AbstractViewProperty.java:203-209 | The getter returns the last value set, and a later set overrides an earlier one. Setting changes neither the column lists nor the mutation error. |
| EntityManagerFactory.NewFactory | achilles-core/src/main/java/info/archinnov/achilles/entity/manager/AchillesEntityManagerFactory.java:50-60 | Construction succeeds exactly when the map is present and non-empty. A null map gives the not-null message and an empty one gives the not-empty message. A new factory has an empty entity map, the extractor's packages and the extractor's options. |
| EntityManagerFactory.RegistrationHasRegisteredKeys | achilles-core/src/main/java/info/archinnov/achilles/entity/manager/AchillesEntityManagerFactory.java:90-97 | The keys of the map the loop builds are exactly the old keys plus the parsed classes. |
| EntityManagerFactory.RegistrationHoldsLatestParses | achilles-core/src/main/java/info/archinnov/achilles/entity/manager/AchillesEntityManagerFactory.java:90-97 | In the map the loop builds, each parsed class holds the metadata of its latest parse, so a class listed twice keeps its second parse. |
| EntityManagerFactory.RegistrationKeepsOtherEntries | achilles-core/src/main/java/info/archinnov/achilles/entity/manager/AchillesEntityManagerFactory.java:90-97 | In the map the loop builds, an old key that was not parsed keeps its old entry. |
| EntityManagerFactory.RegistrationIsRegistered | achilles-core/src/main/java/info/archinnov/achilles/entity/manager/AchillesEntityManagerFactory.java:90-97 | Putting the parsed classes into the map one after another, as the loop does, gives exactly the declarative result: the old keys plus the parsed classes, each class holding its latest parse, and the other entries unchanged. |
| EntityManagerFactory.RegisteredExactly | achilles-core/src/main/java/info/archinnov/achilles/entity/manager/AchillesEntityManagerFactory.java:90-97 | A map has that declarative shape if and only if it is the one the loop builds. |
| EntityManagerFactory.RegisteredIsUnique | achilles-core/src/main/java/info/archinnov/achilles/entity/manager/AchillesEntityManagerFactory.java:90-97 | At most one map has that declarative shape for a given start map and parse trace. |
| EntityManagerFactory.ParseOneMore | achilles-core/src/main/java/info/archinnov/achilles/entity/manager/AchillesEntityManagerFactory.java:91-98 | One more successful parse, given a fresh context for the next class that shares the current join map, extends the ordered trace. The shared join map becomes the one that parse left, and the counter flag becomes the OR of the old flag and the new context's flag. |
| EntityManagerFactory.ParseEntities | achilles-core/src/main/java/info/archinnov/achilles/entity/manager/AchillesEntityManagerFactory.java:89-99 | The parser is called class by class, each time with a fresh context that shares the join map built so far. The entity map is the old map with each parsed class put in, in order (`Registration`). The flag is true exactly when some context reported a simple counter. The loop stops at the first parser exception, and that exception is the one the parser threw for the next class. |
| EntityManagerFactory.DiscoverEntities | achilles-core/src/main/java/info/archinnov/achilles/entity/manager/AchillesEntityManagerFactory.java:81-106 | An explorer or validator exception ends the run with the map unchanged. Otherwise phase one runs as in `ParseEntities`. Join resolution runs exactly when every class was parsed, and then once. It gets the final shared join map and the complete entity map. Its exception ends the run, and otherwise the counter flag is returned. |
| EntityManagerFactory.Bootstrap | achilles-core/src/main/java/info/archinnov/achilles/entity/manager/AchillesEntityManagerFactory.java:62-79 | Any discovery exception becomes an `AchillesException` with the parsing-failure prefix, the cause's message and the cause itself, and the table creator is not called. On success, the table creator gets the entity map, the configuration and the flag. Its exception escapes unwrapped, and otherwise bootstrap returns that same flag. |
| EntityManagerFactory.EmptyDiscoveryFails | achilles-core/src/main/java/info/archinnov/achilles/entity/manager/AchillesEntityManagerFactory.java:87-88 | When the validator refuses empty lists and the explorer finds nothing, discovery fails. Nothing is parsed, joins are not resolved and the map is unchanged. |
| EntityManagerFactory.LastOccurrenceExists | achilles-core/src/main/java/info/archinnov/achilles/entity/manager/AchillesEntityManagerFactory.java:90-97 | Every discovered class has a last position in the list, whose parse is the one the map keeps. |
| EntityManagerFactory.SuccessfulDiscoveryParsedAll | achilles-core/src/main/java/info/archinnov/achilles/entity/manager/AchillesEntityManagerFactory.java:85-105 | A successful discovery got past the explorer and the validator and parsed every discovered class in order. Its entity map is the one the loop builds, and join resolution ran once on the final join map and that entity map. The flag is true exactly when some context reported a simple counter. |
| EntityManagerFactory.SuccessfulDiscoveryCoversEntities | achilles-core/src/main/java/info/archinnov/achilles/entity/manager/AchillesEntityManagerFactory.java:85-105 | After a successful discovery, every class was parsed and has an entry holding what the parser returned for it. The flag is true exactly when some context reported a simple counter. Join resolution saw the shared join map and a map covering every class. |
| EntityManagerFactory.CoveredByParses | achilles-core/src/main/java/info/archinnov/achilles/entity/manager/AchillesEntityManagerFactory.java:90-97 | When every class of the list was parsed in order and the map is registered, every class has an entry, and that entry is the metadata of some parse of that class. |
| EntityManagerFactory.SingleEntityDiscovery | achilles-core/src/main/java/info/archinnov/achilles/entity/manager/AchillesEntityManagerFactory.java:90-99 | One discovered class and an empty starting map give exactly one entry: that class and its parsed metadata. |
| EntityManagerFactory.SimpleCounterFlagIsSticky | achilles-core/src/main/java/info/archinnov/achilles/entity/manager/AchillesEntityManagerFactory.java:98 | Once some parse has reported a simple counter, the flag stays true for every longer run of parses. |
| EntityManagerFactory.DiscoveryIsDeterministic | achilles-core/src/main/java/info/archinnov/achilles/entity/manager/AchillesEntityManagerFactory.java:81-106 | The discovery contract pins the run down completely: two runs that meet it for the same factory and collaborators are equal. |
| EntityManagerFactory.StepsAgree | achilles-core/src/main/java/info/archinnov/achilles/entity/manager/AchillesEntityManagerFactory.java:90-99 | Two parse traces that both follow the loop's contract agree on their common prefix. |
| EntityManagerFactory.Invoke | achilles-core/src/main/java/info/archinnov/achilles/entity/manager/AchillesEntityManagerFactory.java:130-187 | Of the persistence-API operations, only `getProperties` answers, and it returns an empty map. `getCriteriaBuilder`, `getMetamodel`, `getCache`, `close`, `isOpen` and `getPersistenceUnitUtil` throw `UnsupportedOperationException` with the fixed message. |

## Left out

- Logging (`LOGGER.debug`, `log.info`) has no effect on behaviour and is not modelled.
- The cluster metadata fetch (`getSession().getCluster().getMetadata()`) is a plain map from keyspace name to view name to view metadata. The driver's normalisation of identifier case is not modelled: the map is keyed by the names as the driver resolves them.
- ViewProperty.ValidateSchema: the view metadata and `SchemaValidator.validateColumns` are abstract. The model takes the column check as a function, and its failure is an `InvalidColumns` value naming the rejected column group, not the validator's own exception and message. The `Validator` class that formats the other messages is not part of this model, so those failures are structured values without message text.
- `SchemaCreator.generateView` (the DDL text) is not part of this model. `GenerateSchema` takes the generated statements as a function and models only the joining.
- `PreparedStatementGenerator.generateStaticSelectQuery` and `StatementsCache` are not part of this model. The select statement comes from a function that returns either the prepared statement or the exception that preparing it on the session threw. The model assumes the cache is written insert-if-absent: a select already cached is kept and not prepared again, and a failed preparation leaves the cache unchanged.
- `ListHelper.appendAll` is not part of this model. `AllColumns` and `AllColumnsWithComputed` take it to be plain concatenation of the lists in argument order.
- `getDerivedTableOrViewName` and `getKeyspace` live in the base class, which is not part of this model. They are the fields `derivedName` and `keyspace`. `getBaseEntityClass` is abstract and is left out.
- The base interceptor behaviour (`super.triggerInterceptorsForEvent`) is a function parameter. The event list is the five events `PRE_INSERT`, `POST_INSERT`, `PRE_DELETE`, `POST_DELETE` and `POST_LOAD`.
- Java object identity is not modelled: entity metadata is a value. `fillJoinEntityMeta` writes the resolved targets into the join properties' metadata. The model keeps only whether that call passes or throws, and which inputs it received.
- `AchillesEntityExplorer`, `AchillesEntityParser`, `AchillesEntityParsingValidator`, `AchillesTableCreator`, `AchillesArgumentExtractor` and the subclass's `initConsistencyLevelPolicy` are function parameters. Classpath scanning, annotation reflection and their `IOException`/`ClassNotFoundException` sources appear only as "the function may return a failure". Exceptions thrown while the constructor reads options are not modelled.
- EntityManagerFactory.NewFactory: the exception class thrown by `Validator.validateNotNull`/`validateNotEmpty` is not visible here and is modelled as `AchillesException`.
- EntityManagerFactory.Bootstrap: only exceptions are modelled. `bootstrap` catches `Exception`, so a Java `Error` (a `LinkageError` such as `NoClassDefFoundError`, or `ExceptionInInitializerError`) raised by the explorer, validator, parser or join filler escapes unwrapped in the source. The model has no such failures, and every discovery failure is wrapped.
- The factory's setters (`setTableCreator`, `setEntityParser`, `setEntityExplorer`, `setValidator`, `setEntityMetaMap`, `setConfigContext`, `setEntityPackages`) are replaced by passing the collaborators and the factory state as arguments.
- `AchillesMapEntryWrapperBuilderTest.java` (a proxy-wrapper test) and `MultiKeyColumnFamilyBean.java` (a plain test bean) hold no bootstrap logic and are not modelled.
- Concurrency is not modelled: bootstrap is single-threaded.
