/** The entity manager factory: its construction checks, the two-phase
    discovery of entity classes, the bootstrap that wraps discovery failures
    and hands the result to the table creator, and the persistence-API
    operations it does not support.

    The explorer, the parser, the entity-count validator, the join filler
    and the table creator are collaborators whose code is outside this model;
    they are passed in as functions (`Collaborators`). What the factory itself
    does with them -- the order of the calls, the shared join map, the entity
    map and the counter flag -- is recorded in a `DiscoveryRun` or
    `BootstrapRun`, and the contracts below speak about those records. */
module EntityManagerFactory {
  import opened Wrappers

  type ClassName = string

  datatype ExceptionKind =
    | AchillesException
    | IOException
    | ClassNotFoundException
    | UnsupportedOperationException

  /** A thrown exception: its class, its message (Java allows none) and its cause. */
  datatype Exception = Exception(kind: ExceptionKind, message: Option<string>, cause: Option<Exception>)

  /** `getMessage()` as string concatenation renders it: "null" when absent. */
  function MessageText(e: Exception): string {
    e.message.OrElse("null")
  }

  // ---------------------------------------------------------------------
  // Construction

  /** A configuration value (a Java `Object`). */
  datatype ConfigValue = ConfigValue(repr: string)

  type ConfigurationMap = map<string, ConfigValue>

  /** Reads the individual options out of the configuration map. */
  datatype ArgumentExtractor = ArgumentExtractor(
    initEntityPackages: ConfigurationMap -> seq<string>,
    ensureConsistencyOnJoin: ConfigurationMap -> bool,
    initForceCFCreation: ConfigurationMap -> bool,
    initObjectMapperFactory: ConfigurationMap -> string)

  datatype ConfigurationContext = ConfigurationContext(
    ensureJoinConsistency: bool,
    forceColumnFamilyCreation: bool,
    consistencyPolicy: string,
    objectMapperFactory: string)

  datatype PropertyMeta = PropertyMeta(entityClass: ClassName, propertyName: string)

  /** The metadata the parser builds for one entity class. */
  datatype EntityMeta = EntityMeta(entityClass: ClassName, columnFamilyName: string,
                                   properties: seq<PropertyMeta>)

  /** The state of a factory object. */
  datatype Factory = Factory(
    entityMetaMap: map<ClassName, EntityMeta>,
    configContext: ConfigurationContext,
    entityPackages: seq<string>)

  const NullConfigurationMessage: string :=
    "Configuration map for AchillesEntityManagerFactory should not be null"
  const EmptyConfigurationMessage: string :=
    "Configuration map for AchillesEntityManagerFactory should not be empty"

  /** Builds the configuration context from the options. `initConsistencyLevelPolicy`
      is the subclass's policy builder. */
  function ParseConfiguration(configurationMap: ConfigurationMap, extractor: ArgumentExtractor,
                              initConsistencyLevelPolicy: ConfigurationMap -> string)
    : ConfigurationContext
  {
    ConfigurationContext(
      extractor.ensureConsistencyOnJoin(configurationMap),
      extractor.initForceCFCreation(configurationMap),
      initConsistencyLevelPolicy(configurationMap),
      extractor.initObjectMapperFactory(configurationMap))
  }

  /** The constructor. A null (`None`) or empty configuration map is refused;
      otherwise the factory starts with no entity metadata, the packages the
      extractor reads and the parsed configuration. */
  function NewFactory(configurationMap: Option<ConfigurationMap>, extractor: ArgumentExtractor,
                      initConsistencyLevelPolicy: ConfigurationMap -> string)
    : (r: Result<Factory, Exception>)
    ensures r.Success? <==> configurationMap.Some? && |configurationMap.value| > 0
    ensures configurationMap.None? ==>
              r == Failure(Exception(AchillesException, Some(NullConfigurationMessage), None))
    ensures configurationMap == Some(map[]) ==>
              r == Failure(Exception(AchillesException, Some(EmptyConfigurationMessage), None))
    ensures r.Success? ==>
              && r.value.entityMetaMap == map[]
              && r.value.entityPackages == extractor.initEntityPackages(configurationMap.value)
              && r.value.configContext.ensureJoinConsistency
                 == extractor.ensureConsistencyOnJoin(configurationMap.value)
              && r.value.configContext.forceColumnFamilyCreation
                 == extractor.initForceCFCreation(configurationMap.value)
              && r.value.configContext.consistencyPolicy
                 == initConsistencyLevelPolicy(configurationMap.value)
              && r.value.configContext.objectMapperFactory
                 == extractor.initObjectMapperFactory(configurationMap.value)
  {
    if configurationMap.None? then
      Failure(Exception(AchillesException, Some(NullConfigurationMessage), None))
    else if configurationMap.value == map[] then
      Failure(Exception(AchillesException, Some(EmptyConfigurationMessage), None))
    else
      var config := configurationMap.value;
      Success(Factory(map[], ParseConfiguration(config, extractor, initConsistencyLevelPolicy),
                      extractor.initEntityPackages(config)))
  }

  // ---------------------------------------------------------------------
  // Discovery

  /** Join properties waiting for their target entity's metadata, keyed by the
      join property and holding the target class. */
  type JoinMap = map<PropertyMeta, ClassName>

  /** A parsing context: the shared join map, the configuration, the class
      being parsed (none for join resolution) and the flag the parser raises
      when the class has a simple counter. */
  datatype ParsingContext = ParsingContext(
    joinPropertyMetaToBeFilled: JoinMap,
    configContext: ConfigurationContext,
    entityClass: Option<ClassName>,
    hasSimpleCounter: bool)

  /** What the parser hands back: the entity's metadata and the context as it
      left it (with the join map it extended and the counter flag it set). */
  datatype Parsed = Parsed(meta: EntityMeta, context: ParsingContext)

  datatype Collaborators = Collaborators(
    discoverEntities: seq<string> -> Result<seq<ClassName>, Exception>,
    validateAtLeastOneEntity: (seq<ClassName>, seq<string>) -> Outcome<Exception>,
    parseEntity: ParsingContext -> Result<Parsed, Exception>,
    fillJoinEntityMeta: (ParsingContext, map<ClassName, EntityMeta>) -> Outcome<Exception>,
    validateOrCreateColumnFamilies: (map<ClassName, EntityMeta>, ConfigurationContext, bool)
                                    -> Outcome<Exception>)

  /** The entity-count validator refuses the empty list of entities, whatever
      the packages searched. */
  ghost predicate RefusesEmptyList(c: Collaborators) {
    forall packages :: c.validateAtLeastOneEntity([], packages).Fail?
  }

  /** One successful parser call: the context it was given and what it returned. */
  datatype ParseStep = ParseStep(input: ParsingContext, output: Parsed)

  /** The single join-resolution call: its context and the entity map it saw. */
  datatype JoinCall = JoinCall(context: ParsingContext, entityMetaMap: map<ClassName, EntityMeta>)

  /** Everything one discovery did: the classes the explorer found, the
      successful parser calls in order, the factory's entity map afterwards
      (partly filled when a parse failed), the join-resolution call if it was
      reached, and the counter flag or the exception that escaped. */
  datatype DiscoveryRun = DiscoveryRun(
    entities: seq<ClassName>,
    steps: seq<ParseStep>,
    entityMetaMap: map<ClassName, EntityMeta>,
    joinResolution: Option<JoinCall>,
    outcome: Result<bool, Exception>)

  /** A fresh parsing context for one class, sharing the join map `joins`. */
  function EntityContext(f: Factory, joins: JoinMap, entityClass: ClassName): ParsingContext {
    ParsingContext(joins, f.configContext, Some(entityClass), false)
  }

  /** The shared join map after the given parser calls: empty at first, then
      whatever the latest parse left in it. */
  function SharedJoins(steps: seq<ParseStep>): JoinMap {
    if |steps| == 0 then map[] else steps[|steps| - 1].output.context.joinPropertyMetaToBeFilled
  }

  /** The context join resolution is given: the shared map, no class. */
  function JoinContext(f: Factory, steps: seq<ParseStep>): ParsingContext {
    ParsingContext(SharedJoins(steps), f.configContext, None, false)
  }

  /** The i-th parser call parsed the i-th class, with a fresh context sharing
      the join map the earlier calls built, and returned what is recorded. */
  predicate ParsedInOrder(f: Factory, c: Collaborators, entities: seq<ClassName>,
                          steps: seq<ParseStep>)
  {
    && |steps| <= |entities|
    && forall i {:trigger steps[i].input} :: 0 <= i < |steps| ==>
         && steps[i].input == EntityContext(f, SharedJoins(steps[..i]), entities[i])
         && c.parseEntity(steps[i].input) == Success(steps[i].output)
  }

  /** No later position holds the same class. */
  predicate LastOccurrence(classes: seq<ClassName>, i: int)
    requires 0 <= i < |classes|
  {
    forall j :: i < j < |classes| ==> classes[j] != classes[i]
  }

  /** `m` is `initial` with an entry for every parsed class, holding the
      metadata of the class's latest parse, and nothing else changed. */
  ghost predicate Registered(initial: map<ClassName, EntityMeta>, classes: seq<ClassName>,
                             steps: seq<ParseStep>, m: map<ClassName, EntityMeta>)
    requires |classes| == |steps|
  {
    && HasRegisteredKeys(initial, classes, m)
    && HoldsLatestParses(classes, steps, m)
    && KeepsOtherEntries(initial, classes, m)
  }

  /** The keys of `m` are the old keys and the parsed classes. */
  ghost predicate HasRegisteredKeys(initial: map<ClassName, EntityMeta>, classes: seq<ClassName>,
                                    m: map<ClassName, EntityMeta>)
  {
    forall k :: k in m <==> k in initial || k in classes
  }

  /** Each parsed class maps to the metadata of its latest parse. */
  ghost predicate HoldsLatestParses(classes: seq<ClassName>, steps: seq<ParseStep>,
                                    m: map<ClassName, EntityMeta>)
    requires |classes| == |steps|
  {
    forall i :: 0 <= i < |classes| && LastOccurrence(classes, i) ==>
      classes[i] in m && m[classes[i]] == steps[i].output.meta
  }

  /** An old key that was not parsed keeps its old entry. */
  ghost predicate KeepsOtherEntries(initial: map<ClassName, EntityMeta>, classes: seq<ClassName>,
                                    m: map<ClassName, EntityMeta>)
  {
    forall k :: k in initial && k !in classes ==> k in m && m[k] == initial[k]
  }

  /** The entity map after putting each parsed class, in order, into `initial`. */
  function Registration(initial: map<ClassName, EntityMeta>, classes: seq<ClassName>,
                        steps: seq<ParseStep>): map<ClassName, EntityMeta>
    requires |classes| == |steps|
    decreases |steps|
  {
    if |steps| == 0 then initial
    else
      var n := |steps| - 1;
      Registration(initial, classes[..n], steps[..n])[classes[n] := steps[n].output.meta]
  }

  /** Some parsing context reported a simple counter. */
  predicate ReportsSimpleCounter(steps: seq<ParseStep>) {
    exists i :: 0 <= i < |steps| && steps[i].output.context.hasSimpleCounter
  }

  /** The explorer and the entity-count validator both let discovery go on. */
  predicate Accepted(f: Factory, c: Collaborators) {
    && c.discoverEntities(f.entityPackages).Success?
    && c.validateAtLeastOneEntity(c.discoverEntities(f.entityPackages).value,
                                  f.entityPackages).Pass?
  }

  /** Before parsing: an explorer failure or a validator refusal ends the run
      with that exception and leaves the entity map as it was. */
  predicate ExplorationDone(f: Factory, c: Collaborators, run: DiscoveryRun) {
    match c.discoverEntities(f.entityPackages)
    case Failure(e) =>
      && run.entities == [] && run.steps == [] && run.entityMetaMap == f.entityMetaMap
      && run.joinResolution.None? && run.outcome == Failure(e)
    case Success(entities) =>
      && run.entities == entities
      && match c.validateAtLeastOneEntity(entities, f.entityPackages)
         case Fail(e) =>
           && run.steps == [] && run.entityMetaMap == f.entityMetaMap
           && run.joinResolution.None? && run.outcome == Failure(e)
         case Pass => true
  }

  /** Phase one: the classes are parsed in order into the entity map; the
      first parser failure ends the run with that exception. */
  ghost predicate ParsingDone(f: Factory, c: Collaborators, run: DiscoveryRun) {
    && ParsedInOrder(f, c, run.entities, run.steps)
    && run.entityMetaMap == Registration(f.entityMetaMap, run.entities[..|run.steps|], run.steps)
    && (Accepted(f, c) && |run.steps| < |run.entities| ==>
          && run.joinResolution.None?
          && run.outcome.Failure?
          && c.parseEntity(EntityContext(f, SharedJoins(run.steps), run.entities[|run.steps|]))
             == Failure(run.outcome.error))
  }

  /** Phase two: join resolution runs once, exactly when every class was
      parsed, on the complete shared join map and the complete entity map; its
      failure ends the run, otherwise the counter flag is returned. */
  predicate JoinsResolved(f: Factory, c: Collaborators, run: DiscoveryRun) {
    && (run.joinResolution.Some? <==> Accepted(f, c) && |run.steps| == |run.entities|)
    && (run.joinResolution.Some? ==>
          && run.joinResolution.value == JoinCall(JoinContext(f, run.steps), run.entityMetaMap)
          && run.outcome == match c.fillJoinEntityMeta(JoinContext(f, run.steps), run.entityMetaMap)
                            case Fail(e) => Failure(e)
                            case Pass => Success(ReportsSimpleCounter(run.steps)))
  }

  /** The complete contract of one discovery. */
  ghost predicate DiscoveryRunOf(f: Factory, c: Collaborators, run: DiscoveryRun) {
    ExplorationDone(f, c, run) && ParsingDone(f, c, run) && JoinsResolved(f, c, run)
  }

  /** Appending the next parser call keeps the trace in order; the shared join
      map is then the one that call left, and the counter flag is ORed in. */
  lemma ParseOneMore(f: Factory, c: Collaborators, entities: seq<ClassName>,
                     steps: seq<ParseStep>, step: ParseStep)
    requires ParsedInOrder(f, c, entities, steps)
    requires |steps| < |entities|
    requires step.input == EntityContext(f, SharedJoins(steps), entities[|steps|])
    requires c.parseEntity(step.input) == Success(step.output)
    ensures ParsedInOrder(f, c, entities, steps + [step])
    ensures SharedJoins(steps + [step]) == step.output.context.joinPropertyMetaToBeFilled
    ensures ReportsSimpleCounter(steps + [step])
            <==> step.output.context.hasSimpleCounter || ReportsSimpleCounter(steps)
  {
    var steps' := steps + [step];
    assert forall j :: 0 <= j < |steps| ==> steps'[..j] == steps[..j];
    assert steps'[..|steps|] == steps;
    if ReportsSimpleCounter(steps) {
      var i :| 0 <= i < |steps| && steps[i].output.context.hasSimpleCounter;
      assert steps'[i] == steps[i];
    }
    if step.output.context.hasSimpleCounter {
      assert steps'[|steps|] == step;
    }
  }

  /** The reference registration meets the declarative description: every
      parsed class maps to its latest parse, and nothing else changed. */
  lemma RegistrationIsRegistered(initial: map<ClassName, EntityMeta>,
                                 classes: seq<ClassName>, steps: seq<ParseStep>)
    requires |classes| == |steps|
    ensures Registered(initial, classes, steps, Registration(initial, classes, steps))
  {
    RegistrationHasRegisteredKeys(initial, classes, steps);
    RegistrationHoldsLatestParses(initial, classes, steps);
    RegistrationKeepsOtherEntries(initial, classes, steps);
  }

  /** The loop's map has the old keys and the parsed classes as its keys. */
  lemma {:induction false} RegistrationHasRegisteredKeys(initial: map<ClassName, EntityMeta>,
                                                         classes: seq<ClassName>,
                                                         steps: seq<ParseStep>)
    requires |classes| == |steps|
    ensures HasRegisteredKeys(initial, classes, Registration(initial, classes, steps))
    decreases |steps|
  {
    if |steps| > 0 {
      var n := |steps| - 1;
      RegistrationHasRegisteredKeys(initial, classes[..n], steps[..n]);
      assert classes == classes[..n] + [classes[n]];
    }
  }

  /** In the loop's map each parsed class holds its latest parse. */
  lemma {:induction false} RegistrationHoldsLatestParses(initial: map<ClassName, EntityMeta>,
                                                         classes: seq<ClassName>,
                                                         steps: seq<ParseStep>)
    requires |classes| == |steps|
    ensures HoldsLatestParses(classes, steps, Registration(initial, classes, steps))
    decreases |steps|
  {
    if |steps| > 0 {
      var n := |steps| - 1;
      RegistrationHoldsLatestParses(initial, classes[..n], steps[..n]);
      forall i | 0 <= i < n && LastOccurrence(classes, i)
        ensures LastOccurrence(classes[..n], i)
      {
      }
    }
  }

  /** In the loop's map an old key that was not parsed keeps its entry. */
  lemma {:induction false} RegistrationKeepsOtherEntries(initial: map<ClassName, EntityMeta>,
                                                         classes: seq<ClassName>,
                                                         steps: seq<ParseStep>)
    requires |classes| == |steps|
    ensures KeepsOtherEntries(initial, classes, Registration(initial, classes, steps))
    decreases |steps|
  {
    if |steps| > 0 {
      var n := |steps| - 1;
      RegistrationKeepsOtherEntries(initial, classes[..n], steps[..n]);
      assert classes == classes[..n] + [classes[n]];
    }
  }

  /** A map meets the declarative description exactly when it is the
      reference registration. */
  lemma RegisteredExactly(initial: map<ClassName, EntityMeta>, classes: seq<ClassName>,
                          steps: seq<ParseStep>, m: map<ClassName, EntityMeta>)
    requires |classes| == |steps|
    ensures Registered(initial, classes, steps, m) <==> m == Registration(initial, classes, steps)
  {
    RegistrationIsRegistered(initial, classes, steps);
    if Registered(initial, classes, steps, m) {
      RegisteredIsUnique(initial, classes, steps, m, Registration(initial, classes, steps));
    }
  }

  /** Phase one: parses the classes in order, each with a fresh context sharing
      one join map, puts each result into the entity map and ORs the counter
      flags together; stops at the first parser exception. */
  method ParseEntities(f: Factory, c: Collaborators, entities: seq<ClassName>)
    returns (steps: seq<ParseStep>, entityMetaMap: map<ClassName, EntityMeta>,
             hasSimpleCounter: bool, error: Option<Exception>)
    ensures ParsedInOrder(f, c, entities, steps)
    ensures entityMetaMap == Registration(f.entityMetaMap, entities[..|steps|], steps)
    ensures hasSimpleCounter <==> ReportsSimpleCounter(steps)
    ensures error.None? <==> |steps| == |entities|
    ensures error.Some? ==>
              c.parseEntity(EntityContext(f, SharedJoins(steps), entities[|steps|]))
              == Failure(error.value)
  {
    var joins: JoinMap := map[];
    entityMetaMap := f.entityMetaMap;
    hasSimpleCounter := false;
    steps := [];
    var i := 0;
    while i < |entities|
      invariant 0 <= i <= |entities| && |steps| == i
      invariant ParsedInOrder(f, c, entities, steps)
      invariant joins == SharedJoins(steps)
      invariant entityMetaMap == Registration(f.entityMetaMap, entities[..i], steps)
      invariant hasSimpleCounter <==> ReportsSimpleCounter(steps)
    {
      var context := EntityContext(f, joins, entities[i]);
      var parsed := c.parseEntity(context);
      if parsed.Failure? {
        return steps, entityMetaMap, hasSimpleCounter, Some(parsed.error);
      }
      var step := ParseStep(context, parsed.value);
      ParseOneMore(f, c, entities, steps, step);
      assert entities[..i + 1][..i] == entities[..i];
      assert (steps + [step])[..i] == steps;
      entityMetaMap := entityMetaMap[entities[i] := parsed.value.meta];
      hasSimpleCounter := parsed.value.context.hasSimpleCounter || hasSimpleCounter;
      joins := parsed.value.context.joinPropertyMetaToBeFilled;
      steps := steps + [step];
      i := i + 1;
    }
    error := None;
  }

  /** Discovery: explore, check that something was found, parse every class
      (phase one), then resolve the joins once (phase two). */
  method DiscoverEntities(f: Factory, c: Collaborators) returns (run: DiscoveryRun)
    ensures ExplorationDone(f, c, run)
    ensures ParsingDone(f, c, run)
    ensures JoinsResolved(f, c, run)
  {
    var explored := c.discoverEntities(f.entityPackages);
    if explored.Failure? {
      return DiscoveryRun([], [], f.entityMetaMap, None, Failure(explored.error));
    }
    var entities := explored.value;
    var check := c.validateAtLeastOneEntity(entities, f.entityPackages);
    if check.Fail? {
      return DiscoveryRun(entities, [], f.entityMetaMap, None, Failure(check.error));
    }
    var steps, entityMetaMap, hasSimpleCounter, error := ParseEntities(f, c, entities);
    if error.Some? {
      return DiscoveryRun(entities, steps, entityMetaMap, None, Failure(error.value));
    }
    var joinContext := ParsingContext(SharedJoins(steps), f.configContext, None, false);
    var call := JoinCall(joinContext, entityMetaMap);
    var filled := c.fillJoinEntityMeta(joinContext, entityMetaMap);
    if filled.Fail? {
      return DiscoveryRun(entities, steps, entityMetaMap, Some(call), Failure(filled.error));
    }
    return DiscoveryRun(entities, steps, entityMetaMap, Some(call), Success(hasSimpleCounter));
  }

  // ---------------------------------------------------------------------
  // Bootstrap

  /** The single call to the table creator: the entity map, the configuration
      and the counter flag it was given. */
  datatype TableCreation = TableCreation(
    entityMetaMap: map<ClassName, EntityMeta>,
    configContext: ConfigurationContext,
    hasSimpleCounter: bool)

  datatype BootstrapRun = BootstrapRun(
    discovery: DiscoveryRun,
    tableCreation: Option<TableCreation>,
    outcome: Result<bool, Exception>)

  const ParsingFailurePrefix: string := "Exception during entity parsing : "

  /** The exception bootstrap throws for any exception `e` out of discovery. */
  function WrapDiscoveryFailure(e: Exception): Exception {
    Exception(AchillesException, Some(ParsingFailurePrefix + MessageText(e)), Some(e))
  }

  /** Bootstrap: discover; wrap any discovery exception and stop before the
      table creator; otherwise pass the entity map and the counter flag to the
      table creator (whose exceptions are not wrapped) and return the flag. */
  method Bootstrap(f: Factory, c: Collaborators) returns (b: BootstrapRun)
    ensures DiscoveryRunOf(f, c, b.discovery)
    ensures b.discovery.outcome.Failure? ==>
              && b.tableCreation.None?
              && b.outcome == Failure(WrapDiscoveryFailure(b.discovery.outcome.error))
    ensures b.discovery.outcome.Success? ==>
              && b.tableCreation == Some(TableCreation(b.discovery.entityMetaMap, f.configContext,
                                                       b.discovery.outcome.value))
              && b.outcome == match c.validateOrCreateColumnFamilies(b.discovery.entityMetaMap,
                                                                     f.configContext,
                                                                     b.discovery.outcome.value)
                              case Fail(e) => Failure(e)
                              case Pass => Success(b.discovery.outcome.value)
    ensures b.outcome.Success? ==>
              && b.tableCreation.Some?
              && b.outcome.value == b.tableCreation.value.hasSimpleCounter
              && (b.outcome.value <==> ReportsSimpleCounter(b.discovery.steps))
  {
    var run := DiscoverEntities(f, c);
    if run.outcome.Failure? {
      return BootstrapRun(run, None, Failure(WrapDiscoveryFailure(run.outcome.error)));
    }
    var hasSimpleCounter := run.outcome.value;
    var creation := TableCreation(run.entityMetaMap, f.configContext, hasSimpleCounter);
    var created := c.validateOrCreateColumnFamilies(run.entityMetaMap, f.configContext,
                                                    hasSimpleCounter);
    if created.Fail? {
      return BootstrapRun(run, Some(creation), Failure(created.error));
    }
    return BootstrapRun(run, Some(creation), Success(hasSimpleCounter));
  }

  // ---------------------------------------------------------------------
  // Properties of discovery

  /** With a validator that refuses empty lists, finding no entity fails
      discovery before any parsing or join resolution. */
  lemma EmptyDiscoveryFails(f: Factory, c: Collaborators, run: DiscoveryRun)
    requires RefusesEmptyList(c)
    requires DiscoveryRunOf(f, c, run)
    requires c.discoverEntities(f.entityPackages) == Success([])
    ensures run.outcome.Failure?
    ensures run.steps == [] && run.joinResolution.None?
    ensures run.entityMetaMap == f.entityMetaMap
  {
    assert c.validateAtLeastOneEntity([], f.entityPackages).Fail?;
  }

  /** Some position at or after `i` holds the last occurrence of `classes[i]`. */
  lemma {:induction false} LastOccurrenceExists(classes: seq<ClassName>, i: int)
    requires 0 <= i < |classes|
    ensures exists j :: i <= j < |classes| && classes[j] == classes[i] && LastOccurrence(classes, j)
    decreases |classes| - i
  {
    if !LastOccurrence(classes, i) {
      var k :| i < k < |classes| && classes[k] == classes[i];
      LastOccurrenceExists(classes, k);
    } else {
      assert i <= i < |classes| && classes[i] == classes[i] && LastOccurrence(classes, i);
    }
  }

  /** A successful discovery got past the explorer and the validator, parsed
      every class and resolved the joins once. */
  lemma SuccessfulDiscoveryParsedAll(f: Factory, c: Collaborators, run: DiscoveryRun)
    requires DiscoveryRunOf(f, c, run)
    requires run.outcome.Success?
    ensures Accepted(f, c)
    ensures |run.steps| == |run.entities|
    ensures run.joinResolution == Some(JoinCall(JoinContext(f, run.steps), run.entityMetaMap))
    ensures run.outcome.value <==> ReportsSimpleCounter(run.steps)
    ensures ParsedInOrder(f, c, run.entities, run.steps)
    ensures run.entityMetaMap == Registration(f.entityMetaMap, run.entities, run.steps)
  {
    assert run.entities[..|run.steps|] == run.entities by {
      if !Accepted(f, c) {
        match c.discoverEntities(f.entityPackages)
        case Failure(e) =>
        case Success(es) =>
      }
    }
  }

  /** After a successful discovery every discovered class has an entry holding
      what the parser returned for it, the flag reports whether any parsing
      context saw a simple counter, and join resolution ran once on the
      complete entity map and the join map all the parses shared. */
  lemma SuccessfulDiscoveryCoversEntities(f: Factory, c: Collaborators, run: DiscoveryRun)
    requires DiscoveryRunOf(f, c, run)
    requires run.outcome.Success?
    ensures |run.steps| == |run.entities|
    ensures forall i :: 0 <= i < |run.entities| ==>
              && run.entities[i] in run.entityMetaMap
              && exists j :: 0 <= j < |run.steps|
                             && run.steps[j].input.entityClass == Some(run.entities[i])
                             && run.entityMetaMap[run.entities[i]] == run.steps[j].output.meta
    ensures run.outcome.value <==> ReportsSimpleCounter(run.steps)
    ensures run.joinResolution == Some(JoinCall(JoinContext(f, run.steps), run.entityMetaMap))
  {
    SuccessfulDiscoveryParsedAll(f, c, run);
    RegistrationIsRegistered(f.entityMetaMap, run.entities, run.steps);
    CoveredByParses(f, c, run.entities, run.steps, f.entityMetaMap, run.entityMetaMap);
  }

  /** Every class of a fully parsed list maps to the result of one of its parses. */
  lemma CoveredByParses(f: Factory, c: Collaborators, entities: seq<ClassName>,
                        steps: seq<ParseStep>, initial: map<ClassName, EntityMeta>,
                        m: map<ClassName, EntityMeta>)
    requires |steps| == |entities|
    requires ParsedInOrder(f, c, entities, steps)
    requires Registered(initial, entities, steps, m)
    ensures forall i :: 0 <= i < |entities| ==>
              && entities[i] in m
              && exists j :: 0 <= j < |steps|
                             && steps[j].input.entityClass == Some(entities[i])
                             && m[entities[i]] == steps[j].output.meta
  {
    forall i | 0 <= i < |entities|
      ensures && entities[i] in m
              && exists j :: 0 <= j < |steps|
                             && steps[j].input.entityClass == Some(entities[i])
                             && m[entities[i]] == steps[j].output.meta
    {
      LastOccurrenceExists(entities, i);
      var j :| i <= j < |entities| && entities[j] == entities[i] && LastOccurrence(entities, j);
      assert entities[j] in m && m[entities[j]] == steps[j].output.meta;
      assert steps[j].input.entityClass == Some(entities[j]);
    }
  }

  /** A discovery of exactly one class into an empty factory yields exactly
      one entry: that class and its parsed metadata. */
  lemma SingleEntityDiscovery(f: Factory, c: Collaborators, run: DiscoveryRun, e: ClassName)
    requires DiscoveryRunOf(f, c, run)
    requires run.outcome.Success?
    requires f.entityMetaMap == map[]
    requires run.entities == [e]
    ensures |run.steps| == 1
    ensures run.entityMetaMap == map[e := run.steps[0].output.meta]
  {
    SuccessfulDiscoveryParsedAll(f, c, run);
    var step := run.steps[0];
    assert run.entities[..1] == [e];
    assert [e][..0] == [] && run.steps[..0] == [];
    assert Registration(map[], [], []) == map[];
    assert Registration(map[], [e], run.steps) == map[][e := step.output.meta];
  }

  /** Once some context has reported a simple counter, the flag stays raised
      for every longer run of parses. */
  lemma SimpleCounterFlagIsSticky(steps: seq<ParseStep>, n: int)
    requires 0 <= n <= |steps|
    ensures ReportsSimpleCounter(steps[..n]) ==> ReportsSimpleCounter(steps)
  {
    if ReportsSimpleCounter(steps[..n]) {
      var i :| 0 <= i < n && steps[..n][i].output.context.hasSimpleCounter;
      assert steps[i] == steps[..n][i];
    }
  }

  /** The discovery contract leaves no freedom: given the same factory and
      collaborators, two runs that meet it are the same run. */
  lemma DiscoveryIsDeterministic(f: Factory, c: Collaborators, r1: DiscoveryRun, r2: DiscoveryRun)
    requires DiscoveryRunOf(f, c, r1)
    requires DiscoveryRunOf(f, c, r2)
    ensures r1 == r2
  {
    if !Accepted(f, c) {
      RejectedRunsAgree(f, c, r1, r2);
    } else {
      var entities := c.discoverEntities(f.entityPackages).value;
      assert r1.entities == entities && r2.entities == entities;
      if |r1.steps| < |r2.steps| {
        ShorterTraceParsesNext(f, c, entities, r1.steps, r2.steps);
        assert false;
      } else if |r2.steps| < |r1.steps| {
        ShorterTraceParsesNext(f, c, entities, r2.steps, r1.steps);
        assert false;
      }
      StepsAgree(f, c, entities, r1.steps, r2.steps, |r1.steps|);
      assert r1.steps == r2.steps by {
        assert r1.steps == r1.steps[..|r1.steps|] && r2.steps == r2.steps[..|r2.steps|];
      }
    }
  }

  /** When the explorer fails or the validator refuses, the run is fixed. */
  lemma RejectedRunsAgree(f: Factory, c: Collaborators, r1: DiscoveryRun, r2: DiscoveryRun)
    requires !Accepted(f, c)
    requires ExplorationDone(f, c, r1) && JoinsResolved(f, c, r1)
    requires ExplorationDone(f, c, r2) && JoinsResolved(f, c, r2)
    ensures r1 == r2
  {
    match c.discoverEntities(f.entityPackages)
    case Failure(e) =>
    case Success(es) =>
      match c.validateAtLeastOneEntity(es, f.entityPackages)
      case Fail(e) =>
      case Pass =>
  }

  /** A trace shorter than another that meets the same contract is followed
      by a successful parse of the next class. */
  lemma ShorterTraceParsesNext(f: Factory, c: Collaborators, entities: seq<ClassName>,
                               s1: seq<ParseStep>, s2: seq<ParseStep>)
    requires ParsedInOrder(f, c, entities, s1)
    requires ParsedInOrder(f, c, entities, s2)
    requires |s1| < |s2|
    ensures c.parseEntity(EntityContext(f, SharedJoins(s1), entities[|s1|])).Success?
  {
    StepsAgree(f, c, entities, s1, s2, |s1|);
    assert s2[..|s1|] == s1;
    assert s2[|s1|].input == EntityContext(f, SharedJoins(s2[..|s1|]), entities[|s1|]);
  }

  /** Two parse traces that meet the contract agree on their common prefix. */
  lemma {:induction false} StepsAgree(f: Factory, c: Collaborators, entities: seq<ClassName>,
                                      s1: seq<ParseStep>, s2: seq<ParseStep>, n: int)
    requires ParsedInOrder(f, c, entities, s1)
    requires ParsedInOrder(f, c, entities, s2)
    requires 0 <= n <= |s1| && n <= |s2|
    ensures s1[..n] == s2[..n]
    decreases n
  {
    if n > 0 {
      StepsAgree(f, c, entities, s1, s2, n - 1);
      assert s1[..n - 1] == s2[..n - 1];
      assert s1[n - 1].input == s2[n - 1].input;
      assert c.parseEntity(s1[n - 1].input) == Success(s1[n - 1].output);
      assert s1[..n] == s1[..n - 1] + [s1[n - 1]];
      assert s2[..n] == s2[..n - 1] + [s2[n - 1]];
    }
  }

  /** The registration predicate determines the entity map. */
  lemma RegisteredIsUnique(initial: map<ClassName, EntityMeta>, classes: seq<ClassName>,
                           steps: seq<ParseStep>, m1: map<ClassName, EntityMeta>,
                           m2: map<ClassName, EntityMeta>)
    requires |classes| == |steps|
    requires Registered(initial, classes, steps, m1)
    requires Registered(initial, classes, steps, m2)
    ensures m1 == m2
  {
    assert m1.Keys == m2.Keys;
    forall k | k in m1
      ensures m1[k] == m2[k]
    {
      if k in classes {
        var i :| 0 <= i < |classes| && classes[i] == k;
        LastOccurrenceExists(classes, i);
      }
    }
  }

  // ---------------------------------------------------------------------
  // Unsupported persistence-API operations

  datatype FactoryOperation =
    | GetCriteriaBuilder | GetMetamodel | GetProperties | GetCache
    | Close | IsOpen | GetPersistenceUnitUtil

  const UnsupportedMessage: string := "This operation is not supported by Achilles"

  /** Of the persistence-API operations only `getProperties` answers, with an
      empty map; all others throw the unsupported-operation exception. */
  function Invoke(op: FactoryOperation): (r: Result<ConfigurationMap, Exception>)
    ensures r.Success? <==> op == GetProperties
    ensures r.Success? ==> r.value == map[]
    ensures r.Failure? ==>
              r.error == Exception(UnsupportedOperationException, Some(UnsupportedMessage), None)
  {
    if op == GetProperties then Success(map[])
    else Failure(Exception(UnsupportedOperationException, Some(UnsupportedMessage), None))
  }
}
