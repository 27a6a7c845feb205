/**
 The state machine that gets a client ready to sync: it reads the server's
 configuration, meta/global and crypto/keys, and starts afresh when they are
 missing or outdated. Everything the server answers is arbitrary and may depend
 on all that was sent before.
 */
module SetupMachine {
  import opened Wrappers
  import opened UploadProtocol

  const STORAGE_VERSION: nat := 5

  /** Engines of a fresh meta/global, with their versions. */
  const DEFAULT_ENGINES: seq<(string, nat)> := [
    ("passwords", 1), ("clients", 1), ("addons", 1), ("addresses", 1), ("bookmarks", 2),
    ("creditcards", 1), ("forms", 1), ("history", 1), ("prefs", 2), ("tabs", 1)]

  const DEFAULT_DECLINED: seq<string> := []

  const MAX_SIZE: nat := 0xFFFF_FFFF_FFFF_FFFF

  const DEFAULT_CONFIGURATION: InfoConfiguration :=
    InfoConfiguration(260 * 1024, MAX_SIZE, MAX_SIZE, MAX_SIZE, MAX_SIZE, 256 * 1024)

  datatype Engine = Engine(version: nat, syncId: string)

  datatype MetaGlobal = MetaGlobal(syncId: string, storageVersion: nat, engines: map<string, Engine>, declined: seq<string>)

  datatype CollectionKeys = CollectionKeys(timestamp: int, key: string)

  /** The crypto/keys record: its own timestamp, and the keys if it decrypts. */
  datatype KeysRecord = KeysRecord(modified: int, keys: Option<CollectionKeys>)

  type Collections = map<string, int>

  datatype GlobalState = GlobalState(
    config: InfoConfiguration, collections: Collections, global: MetaGlobal, globalTimestamp: int, keys: CollectionKeys)

  datatype SetupError = Interrupted | SetupRace | SetupRequired | ClientUpgradeRequired | StorageError | BadKeys | ClientError

  /** An answer: the record, a 404, another HTTP status, or no answer. */
  datatype Fetch<T> = Success(record: T, lastModified: int) | NotFound | OtherStatus | NoAnswer

  /** What the machine does to the outside. */
  datatype Event =
    | ReadConfiguration(configuration: Fetch<InfoConfiguration>)
    | ReadCollections(collections: Fetch<Collections>)
    | ReadMetaGlobal(answer: Fetch<MetaGlobal>)
    | ReadKeys(keys: Fetch<KeysRecord>)
    | WipeAll
    | PutMetaGlobal(global: MetaGlobal)
    | PutKeys

  /** Fresh random ids for a new meta/global. */
  datatype FreshIds = FreshIds(global: string, engine: string -> string)

  /** Everything outside the machine, depending on what happened so far. */
  datatype World = World(
    configuration: seq<Event> -> Fetch<InfoConfiguration>,
    collections: seq<Event> -> Fetch<Collections>,
    metaGlobal: seq<Event> -> Fetch<MetaGlobal>,
    keys: seq<Event> -> Fetch<KeysRecord>,
    accepts: seq<Event> -> bool,
    freshIds: seq<Event> -> Option<FreshIds>,
    newKeys: seq<Event> -> bool,
    interrupted: seq<Event> -> bool)

  datatype Label = LInitial | LInitialWithConfig | LInitialWithInfo | LInitialWithMetaGlobal | LReady | LWithPreviousState | LFreshStartRequired

  datatype SetupState =
    | Initial
    | InitialWithConfig(config: InfoConfiguration)
    | InitialWithInfo(config: InfoConfiguration, collections: Collections)
    | InitialWithMetaGlobal(config: InfoConfiguration, collections: Collections, global: MetaGlobal, globalTimestamp: int)
    | WithPreviousState(oldState: GlobalState)
    | Ready(state: GlobalState)
    | FreshStartRequired(config: InfoConfiguration)

  function LabelOf(s: SetupState): Label {
    match s
    case Initial => LInitial
    case InitialWithConfig(_) => LInitialWithConfig
    case InitialWithInfo(_, _) => LInitialWithInfo
    case InitialWithMetaGlobal(_, _, _, _) => LInitialWithMetaGlobal
    case Ready(_) => LReady
    case WithPreviousState(_) => LWithPreviousState
    case FreshStartRequired(_) => LFreshStartRequired
  }

  const FULL_SYNC: seq<Label> :=
    [LInitial, LInitialWithConfig, LInitialWithInfo, LInitialWithMetaGlobal, LReady, LFreshStartRequired, LWithPreviousState]
  const FAST_SYNC: seq<Label> := [LReady, LWithPreviousState]
  const READONLY_SYNC: seq<Label> :=
    [LInitial, LInitialWithConfig, LInitialWithInfo, LInitialWithMetaGlobal, LReady, LWithPreviousState]

  /** The persisted declined list, the labels recorded, and what was done outside. */
  datatype Machine = Machine(declined: Option<seq<string>>, sequence: seq<Label>, log: seq<Event>)

  /** Whether something cached is not older than the server's collection. */
  predicate IsFresh(local: int, collections: Collections, key: string) {
    key in collections && local >= collections[key]
  }

  function EnginesOf(ids: FreshIds, n: nat): map<string, Engine>
    requires n <= |DEFAULT_ENGINES|
  {
    if n == 0 then map[]
    else EnginesOf(ids, n - 1)[DEFAULT_ENGINES[n - 1].0 := Engine(DEFAULT_ENGINES[n - 1].1, ids.engine(DEFAULT_ENGINES[n - 1].0))]
  }

  /** The engines are the default ones, each with its version and its fresh id, and no others. */
  ghost predicate HasDefaultEngines(global: MetaGlobal, ids: FreshIds) {
    && (forall i | 0 <= i < |DEFAULT_ENGINES| ::
          var (name, version) := DEFAULT_ENGINES[i];
          name in global.engines && global.engines[name] == Engine(version, ids.engine(name)))
    && (forall name | name in global.engines :: exists i | 0 <= i < |DEFAULT_ENGINES| :: DEFAULT_ENGINES[i].0 == name)
  }

  /** No engine is named twice. */
  lemma EngineNamesDiffer(i: nat, j: nat)
    requires i < j < |DEFAULT_ENGINES|
    ensures DEFAULT_ENGINES[i].0 != DEFAULT_ENGINES[j].0
  {
  }

  lemma {:induction false} DefaultEngines(ids: FreshIds, n: nat)
    requires n <= |DEFAULT_ENGINES|
    ensures forall i | 0 <= i < n ::
      DEFAULT_ENGINES[i].0 in EnginesOf(ids, n) && EnginesOf(ids, n)[DEFAULT_ENGINES[i].0] == Engine(DEFAULT_ENGINES[i].1, ids.engine(DEFAULT_ENGINES[i].0))
    ensures forall name | name in EnginesOf(ids, n) :: exists i | 0 <= i < n :: DEFAULT_ENGINES[i].0 == name
  {
    if n > 0 {
      DefaultEngines(ids, n - 1);
      forall i | 0 <= i < n - 1 ensures DEFAULT_ENGINES[i].0 != DEFAULT_ENGINES[n - 1].0 {
        EngineNamesDiffer(i, n - 1);
      }
    }
  }

  function NewGlobal(declined: Option<seq<string>>, ids: FreshIds): MetaGlobal {
    MetaGlobal(ids.global, STORAGE_VERSION, EnginesOf(ids, |DEFAULT_ENGINES|),
               if declined.Some? then declined.value else DEFAULT_DECLINED)
  }

  function Did(m: Machine, e: Event): Machine {
    m.(log := m.log + [e])
  }

  /** Wipes the server and uploads a fresh meta/global and crypto/keys. */
  function FreshStart(w: World, m: Machine, config: InfoConfiguration): (Machine, Outcome<SetupState, SetupError>) {
    var m1 := Did(m, WipeAll);
    if !w.accepts(m1.log) then (m1, Failed(ClientError))
    else match w.freshIds(m1.log)
      case None => (m1, Failed(ClientError))
      case Some(ids) =>
        var m2 := Did(m1, PutMetaGlobal(NewGlobal(m1.declined, ids)));
        if !w.accepts(m2.log) || !w.newKeys(m2.log) then (m2, Failed(ClientError))
        else
          var m3 := Did(m2, PutKeys);
          (m3, if w.accepts(m3.log) then Done(InitialWithConfig(config)) else Failed(ClientError))
  }

  /** One transition. */
  function Advanced(w: World, m: Machine, s: SetupState): (Machine, Outcome<SetupState, SetupError>) {
    match s
    case Initial =>
      (Did(m, ReadConfiguration(w.configuration(m.log))),
       match w.configuration(m.log)
       case Success(config, _) => Done(InitialWithConfig(config))
       case NotFound => Done(InitialWithConfig(DEFAULT_CONFIGURATION))
       case OtherStatus => Failed(StorageError)
       case NoAnswer => Failed(ClientError))
    case InitialWithConfig(config) =>
      (Did(m, ReadCollections(w.collections(m.log))),
       match w.collections(m.log)
       case Success(collections, _) => Done(InitialWithInfo(config, collections))
       case NotFound => Done(FreshStartRequired(config))
       case OtherStatus => Failed(StorageError)
       case NoAnswer => Failed(ClientError))
    case InitialWithInfo(config, collections) =>
      (Did(m, ReadMetaGlobal(w.metaGlobal(m.log))),
       match w.metaGlobal(m.log)
       case Success(global, ts) =>
         if global.storageVersion > STORAGE_VERSION then Failed(ClientUpgradeRequired)
         else if global.storageVersion < STORAGE_VERSION then Done(FreshStartRequired(config))
         else Done(InitialWithMetaGlobal(config, collections, global, ts))
       case NotFound => Done(FreshStartRequired(config))
       case OtherStatus => Failed(StorageError)
       case NoAnswer => Failed(ClientError))
    case InitialWithMetaGlobal(config, collections, global, ts) =>
      (Did(m.(declined := Some(global.declined)), ReadKeys(w.keys(m.log))),
       match w.keys(m.log)
       case Success(record, lastModified) =>
         if lastModified != record.modified then Panicked
         else if record.keys.None? then Failed(BadKeys)
         else Done(Ready(GlobalState(config, collections, global, ts, record.keys.value)))
       case NotFound => Done(FreshStartRequired(config))
       case OtherStatus => Failed(StorageError)
       case NoAnswer => Failed(ClientError))
    case WithPreviousState(old_) =>
      (Did(m, ReadCollections(w.collections(m.log))),
       match w.collections(m.log)
       case Success(collections, _) =>
         if IsFresh(old_.globalTimestamp, collections, "meta") && IsFresh(old_.keys.timestamp, collections, "crypto")
         then Done(Ready(old_.(collections := collections)))
         else Done(InitialWithConfig(old_.config))
       case NoAnswer => Failed(ClientError)
       case _ => Done(InitialWithConfig(old_.config)))
    case Ready(state) => (m, Done(Ready(state)))
    case FreshStartRequired(config) => FreshStart(w, m, config)
  }

  /** How many labels a run can still record. */
  function Remaining(sequence: seq<Label>, s: SetupState): nat {
    var again := if LFreshStartRequired in sequence then 0 else 4;
    match s
    case Initial => 5 + again
    case WithPreviousState(_) => 5 + again
    case InitialWithConfig(_) => 4 + again
    case InitialWithInfo(_, _) => 3 + again
    case InitialWithMetaGlobal(_, _, _, _) => 2 + again
    case FreshStartRequired(_) => 1 + again
    case Ready(_) => 1
  }

  /** The check at the head of the loop. */
  function Refusal(allowed: seq<Label>, sequence: seq<Label>, s: SetupState): Option<SetupError> {
    match s
    case Ready(_) => None
    case InitialWithConfig(_) => if LInitialWithConfig in allowed then None else Some(SetupRequired)
    case InitialWithInfo(_, _) => if LInitialWithInfo in allowed then None else Some(SetupRequired)
    case InitialWithMetaGlobal(_, _, _, _) => if LInitialWithMetaGlobal in allowed then None else Some(SetupRequired)
    case _ => if LabelOf(s) in sequence then Some(SetupRace) else None
  }

  lemma AdvanceMakesProgress(w: World, allowed: seq<Label>, m: Machine, s: SetupState)
    requires !s.Ready? && Refusal(allowed, m.sequence, s).None?
    ensures var (m', next) := Advanced(w, m.(sequence := m.sequence + [LabelOf(s)]), s);
      && m'.sequence == m.sequence + [LabelOf(s)]
      && (next.Done? ==> Remaining(m'.sequence, next.value) < Remaining(m.sequence, s))
  {
  }

  function RunFrom(w: World, allowed: seq<Label>, m: Machine, s: SetupState): (Machine, Outcome<GlobalState, SetupError>)
    decreases Remaining(m.sequence, s)
  {
    if w.interrupted(m.log) then (m, Failed(Interrupted))
    else if s.Ready? then (m.(sequence := m.sequence + [LReady]), Done(s.state))
    else match Refusal(allowed, m.sequence, s)
      case Some(e) => (m, Failed(e))
      case None =>
        AdvanceMakesProgress(w, allowed, m, s);
        var (m', next) := Advanced(w, m.(sequence := m.sequence + [LabelOf(s)]), s);
        match next
        case Done(s') => RunFrom(w, allowed, m', s')
        case Failed(e) => (m', Failed(e))
        case Panicked => (m', Panicked)
  }

  function Start(state: Option<GlobalState>): SetupState {
    if state.Some? then WithPreviousState(state.value) else Initial
  }

  function Run(w: World, allowed: seq<Label>, declined: Option<seq<string>>, state: Option<GlobalState>): (Machine, Outcome<GlobalState, SetupError>) {
    RunFrom(w, allowed, Machine(declined, [], []), Start(state))
  }
}
