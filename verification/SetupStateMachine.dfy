/** The setup machine as an object: one transition at a time until it is ready. */
module SetupStateMachine {
  import opened Wrappers
  import opened UploadProtocol
  import opened SetupMachine
  import opened SetupRuns
  import opened SetupOutcome

  class SetupStateMachine {
    const world: World
    const allowedStates: seq<Label>
    var declined: Option<seq<string>>
    var sequence: seq<Label>
    /** What was done to the outside so far. */
    var log: seq<Event>

    constructor WithAllowedStates(world: World, declined: Option<seq<string>>, allowedStates: seq<Label>)
      ensures this.world == world && this.allowedStates == allowedStates
      ensures State() == Machine(declined, [], [])
    {
      this.world, this.allowedStates := world, allowedStates;
      this.declined, sequence, log := declined, [], [];
    }

    constructor ForFullSync(world: World, declined: Option<seq<string>>)
      ensures this.world == world && allowedStates == FULL_SYNC && State() == Machine(declined, [], [])
    {
      this.world, allowedStates := world, FULL_SYNC;
      this.declined, sequence, log := declined, [], [];
    }

    ghost function State(): Machine
      reads this
    {
      Machine(declined, sequence, log)
    }

    /** A fresh meta/global with the default engines. */
    method MakeGlobal(ids: FreshIds) returns (global: MetaGlobal)
      ensures global == NewGlobal(declined, ids)
      ensures global.storageVersion == 5 && global.syncId == ids.global
      ensures global.declined == if declined.Some? then declined.value else []
      ensures HasDefaultEngines(global, ids)
    {
      DefaultEngines(ids, |DEFAULT_ENGINES|);
      var engines: map<string, Engine> := map[];
      for i := 0 to |DEFAULT_ENGINES|
        invariant engines == EnginesOf(ids, i)
      {
        var (name, version) := DEFAULT_ENGINES[i];
        engines := engines[name := Engine(version, ids.engine(name))];
      }
      return MetaGlobal(ids.global, STORAGE_VERSION, engines, if declined.Some? then declined.value else DEFAULT_DECLINED);
    }

    method Advance(from: SetupState) returns (next: Outcome<SetupState, SetupError>)
      modifies this
      ensures (State(), next) == Advanced(world, old(State()), from)
    {
      match from {
        case Initial =>
          var answer := world.configuration(log);
          log := log + [ReadConfiguration(answer)];
          match answer {
            case Success(config, _) => return Done(InitialWithConfig(config));
            case NotFound => return Done(InitialWithConfig(DEFAULT_CONFIGURATION));
            case OtherStatus => return Failed(StorageError);
            case NoAnswer => return Failed(ClientError);
          }
        case InitialWithConfig(config) =>
          var answer := world.collections(log);
          log := log + [ReadCollections(answer)];
          match answer {
            case Success(collections, _) => return Done(InitialWithInfo(config, collections));
            case NotFound => return Done(FreshStartRequired(config));
            case OtherStatus => return Failed(StorageError);
            case NoAnswer => return Failed(ClientError);
          }
        case InitialWithInfo(config, collections) =>
          next := AdvanceWithInfo(config, collections);
        case InitialWithMetaGlobal(config, collections, global, ts) =>
          next := AdvanceWithMetaGlobal(config, collections, global, ts);
        case WithPreviousState(previous) =>
          var answer := world.collections(log);
          log := log + [ReadCollections(answer)];
          match answer {
            case Success(collections, _) =>
              if IsFresh(previous.globalTimestamp, collections, "meta") && IsFresh(previous.keys.timestamp, collections, "crypto") {
                return Done(Ready(previous.(collections := collections)));
              }
              return Done(InitialWithConfig(previous.config));
            case NoAnswer => return Failed(ClientError);
            case _ => return Done(InitialWithConfig(previous.config));
          }
        case Ready(state) =>
          return Done(Ready(state));
        case FreshStartRequired(config) =>
          next := StartAfresh(config);
      }
    }

    method AdvanceWithInfo(config: InfoConfiguration, collections: Collections) returns (next: Outcome<SetupState, SetupError>)
      modifies this
      ensures (State(), next) == Advanced(world, old(State()), InitialWithInfo(config, collections))
    {
      var answer := world.metaGlobal(log);
      log := log + [ReadMetaGlobal(answer)];
      match answer {
        case Success(global, ts) =>
          if global.storageVersion > STORAGE_VERSION {
            return Failed(ClientUpgradeRequired);
          }
          if global.storageVersion < STORAGE_VERSION {
            return Done(FreshStartRequired(config));
          }
          return Done(InitialWithMetaGlobal(config, collections, global, ts));
        case NotFound => return Done(FreshStartRequired(config));
        case OtherStatus => return Failed(StorageError);
        case NoAnswer => return Failed(ClientError);
      }
    }

    method AdvanceWithMetaGlobal(config: InfoConfiguration, collections: Collections, global: MetaGlobal, ts: int)
      returns (next: Outcome<SetupState, SetupError>)
      modifies this
      ensures (State(), next) == Advanced(world, old(State()), InitialWithMetaGlobal(config, collections, global, ts))
    {
      declined := Some(global.declined);
      var answer := world.keys(log);
      log := log + [ReadKeys(answer)];
      match answer {
        case Success(record, lastModified) =>
          if lastModified != record.modified {
            return Panicked;
          }
          if record.keys.None? {
            return Failed(BadKeys);
          }
          return Done(Ready(GlobalState(config, collections, global, ts, record.keys.value)));
        case NotFound => return Done(FreshStartRequired(config));
        case OtherStatus => return Failed(StorageError);
        case NoAnswer => return Failed(ClientError);
      }
    }

    method StartAfresh(config: InfoConfiguration) returns (next: Outcome<SetupState, SetupError>)
      modifies this
      ensures (State(), next) == FreshStart(world, old(State()), config)
    {
      log := log + [WipeAll];
      if !world.accepts(log) {
        return Failed(ClientError);
      }
      var ids := world.freshIds(log);
      if ids.None? {
        return Failed(ClientError);
      }
      var global := MakeGlobal(ids.value);
      log := log + [PutMetaGlobal(global)];
      if !world.accepts(log) || !world.newKeys(log) {
        return Failed(ClientError);
      }
      log := log + [PutKeys];
      return if world.accepts(log) then Done(InitialWithConfig(config)) else Failed(ClientError);
    }

    /** Runs until the machine is ready, refuses a state or fails. */
    method RunToReady(state: Option<GlobalState>) returns (r: Outcome<GlobalState, SetupError>)
      modifies this
      ensures (State(), r) == RunFrom(world, allowedStates, old(State()), Start(state))
      ensures old(State()).sequence == [] && old(State()).log == [] ==>
        EndsAs(world, allowedStates, state, log, r) && IsTruthful(world, log) && IsOrderly(world, allowedStates, state, log)
      ensures |sequence| <= |old(sequence)| + 9
      ensures Wipes(log) <= Wipes(old(log)) + if LFreshStartRequired in old(sequence) then 0 else 1
    {
      RunIsBounded(world, allowedStates, State(), Start(state));
      EveryRunEndsAs(world, allowedStates, declined, state);
      var s := Start(state);
      while true
        invariant RunFrom(world, allowedStates, State(), s) == RunFrom(world, allowedStates, old(State()), Start(state))
        decreases Remaining(sequence, s)
      {
        if world.interrupted(log) {
          return Failed(Interrupted);
        }
        var name := LabelOf(s);
        if s.Ready? {
          sequence := sequence + [name];
          return Done(s.state);
        }
        var refusal := Refusal(allowedStates, sequence, s);
        if refusal.Some? {
          return Failed(refusal.value);
        }
        AdvanceMakesProgress(world, allowedStates, State(), s);
        sequence := sequence + [name];
        var next := Advance(s);
        if next.Failed? {
          return Failed(next.error);
        } else if next.Panicked? {
          return Panicked;
        }
        s := next.value;
      }
    }
  }
}
