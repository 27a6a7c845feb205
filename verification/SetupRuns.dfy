/** What holds of every run of the setup machine, whatever the server does. */
module SetupRuns {
  import opened Wrappers
  import opened UploadProtocol
  import opened SetupMachine

  predicate IsWrite(e: Event) {
    e.WipeAll? || e.PutMetaGlobal? || e.PutKeys?
  }

  ghost function Writes(log: seq<Event>): nat {
    if log == [] then 0 else Writes(log[..|log| - 1]) + if IsWrite(log[|log| - 1]) then 1 else 0
  }

  ghost function Wipes(log: seq<Event>): nat {
    if log == [] then 0 else Wipes(log[..|log| - 1]) + if log[|log| - 1].WipeAll? then 1 else 0
  }

  lemma Logged(m: Machine, e: Event)
    ensures Writes(Did(m, e).log) == Writes(m.log) + if IsWrite(e) then 1 else 0
    ensures Wipes(Did(m, e).log) == Wipes(m.log) + if e.WipeAll? then 1 else 0
  {
    assert Did(m, e).log[..|m.log|] == m.log;
  }

  lemma {:induction false} FreshStartWipesOnce(w: World, m: Machine, config: InfoConfiguration)
    ensures Wipes(FreshStart(w, m, config).0.log) == Wipes(m.log) + 1
  {
    var m1 := Did(m, WipeAll);
    Logged(m, WipeAll);
    if w.freshIds(m1.log).Some? {
      var e := PutMetaGlobal(NewGlobal(m1.declined, w.freshIds(m1.log).value));
      Logged(m1, e);
      Logged(Did(m1, e), PutKeys);
    }
  }

  /** A transition writes to the server only from a fresh start, and then wipes it once. */
  lemma {:induction false} AdvanceWrites(w: World, m: Machine, s: SetupState)
    ensures var m' := Advanced(w, m, s).0;
      && (!s.FreshStartRequired? ==> Writes(m'.log) == Writes(m.log))
      && Wipes(m'.log) == Wipes(m.log) + if s.FreshStartRequired? then 1 else 0
  {
    match s {
      case Initial => Logged(m, ReadConfiguration(w.configuration(m.log)));
      case InitialWithConfig(_) => Logged(m, ReadCollections(w.collections(m.log)));
      case InitialWithInfo(_, _) => Logged(m, ReadMetaGlobal(w.metaGlobal(m.log)));
      case InitialWithMetaGlobal(_, _, global, _) => Logged(m.(declined := Some(global.declined)), ReadKeys(w.keys(m.log)));
      case WithPreviousState(_) => Logged(m, ReadCollections(w.collections(m.log)));
      case Ready(_) =>
      case FreshStartRequired(config) => FreshStartWipesOnce(w, m, config);
    }
  }

  /** From any point, a run records at most as many labels as remain, and wipes
      the server at most once, if it has not started afresh before. */
  lemma {:induction false} RunIsBounded(w: World, allowed: seq<Label>, m: Machine, s: SetupState)
    ensures var m' := RunFrom(w, allowed, m, s).0;
      && |m'.sequence| <= |m.sequence| + Remaining(m.sequence, s)
      && Wipes(m'.log) <= Wipes(m.log) + if LFreshStartRequired in m.sequence then 0 else 1
    decreases Remaining(m.sequence, s)
  {
    if !w.interrupted(m.log) && !s.Ready? && Refusal(allowed, m.sequence, s).None? {
      AdvanceMakesProgress(w, allowed, m, s);
      var m1 := m.(sequence := m.sequence + [LabelOf(s)]);
      var (m', next) := Advanced(w, m1, s);
      AdvanceWrites(w, m1, s);
      if next.Done? {
        RunIsBounded(w, allowed, m', next.value);
      }
    }
  }

  /** A whole run records at most nine labels and wipes the server at most once. */
  lemma RunToReadyIsBounded(w: World, allowed: seq<Label>, declined: Option<seq<string>>, state: Option<GlobalState>)
    ensures var m := Run(w, allowed, declined, state).0;
      |m.sequence| <= 9 && Wipes(m.log) <= 1
  {
    RunIsBounded(w, allowed, Machine(declined, [], []), Start(state));
  }

  /** Where a run stays that may not read the server's setup. */
  predicate BeforeSetup(s: SetupState) {
    s.Initial? || s.WithPreviousState? || s.InitialWithConfig? || s.Ready?
  }

  lemma {:induction false} NoSetupNoWrites(w: World, allowed: seq<Label>, m: Machine, s: SetupState)
    requires LInitialWithConfig !in allowed && BeforeSetup(s)
    ensures Writes(RunFrom(w, allowed, m, s).0.log) == Writes(m.log)
    decreases Remaining(m.sequence, s)
  {
    if !w.interrupted(m.log) && !s.Ready? && Refusal(allowed, m.sequence, s).None? {
      AdvanceMakesProgress(w, allowed, m, s);
      var m1 := m.(sequence := m.sequence + [LabelOf(s)]);
      var (m', next) := Advanced(w, m1, s);
      AdvanceWrites(w, m1, s);
      if next.Done? {
        NoSetupNoWrites(w, allowed, m', next.value);
      }
    }
  }

  /** A server that has lost its collections and takes everything else. */
  function Amnesiac(): World {
    World(_ => NotFound, _ => NotFound, _ => NotFound, _ => NotFound, _ => true, _ => None, _ => true, _ => false)
  }

  lemma {:induction false} AmnesiacForgets(allowed: seq<Label>, m: Machine, config: InfoConfiguration)
    requires LInitialWithConfig in allowed
    ensures RunFrom(Amnesiac(), allowed, m, InitialWithConfig(config)) ==
      RunFrom(Amnesiac(), allowed, Did(m.(sequence := m.sequence + [LInitialWithConfig]), ReadCollections(NotFound)), FreshStartRequired(config))
  {
  }

  lemma {:induction false} AmnesiacIsWiped(allowed: seq<Label>, m: Machine, config: InfoConfiguration)
    requires LFreshStartRequired !in m.sequence
    ensures RunFrom(Amnesiac(), allowed, m, FreshStartRequired(config)).0.log == m.log + [WipeAll]
  {
  }

  lemma {:induction false} AmnesiacRunWrites(allowed: seq<Label>, declined: Option<seq<string>>, state: Option<GlobalState>)
    requires LInitialWithConfig in allowed
    ensures Writes(Run(Amnesiac(), allowed, declined, state).0.log) > 0
  {
    var m1 := Machine(declined, [LabelOf(Start(state))], []);
    var first := if state.Some? then ReadCollections(NotFound) else ReadConfiguration(NotFound);
    Logged(m1, first);
    var config := if state.Some? then state.value.config else DEFAULT_CONFIGURATION;
    assert [] + [LabelOf(Start(state))] == m1.sequence;
    assert Run(Amnesiac(), allowed, declined, state) == RunFrom(Amnesiac(), allowed, Did(m1, first), InitialWithConfig(config));
    AmnesiacForgets(allowed, Did(m1, first), config);
    var m2 := Did(Did(m1, first).(sequence := m1.sequence + [LInitialWithConfig]), ReadCollections(NotFound));
    AmnesiacIsWiped(allowed, m2, config);
    Logged(m2, WipeAll);
  }

  /** Some server makes a run write to it exactly when the allowed states contain
      InitialWithConfig: a fast sync never writes, but a read-only sync can wipe
      the server, because the fresh start does not ask whether it is allowed. */
  lemma CanWriteIff(allowed: seq<Label>, declined: Option<seq<string>>, state: Option<GlobalState>)
    ensures (exists w :: Writes(Run(w, allowed, declined, state).0.log) > 0) <==> LInitialWithConfig in allowed
  {
    if LInitialWithConfig in allowed {
      AmnesiacRunWrites(allowed, declined, state);
    } else {
      forall w ensures Writes(Run(w, allowed, declined, state).0.log) == 0 {
        NoSetupNoWrites(w, allowed, Machine(declined, [], []), Start(state));
      }
    }
  }

  lemma FastSyncNeverWrites(w: World, declined: Option<seq<string>>, state: Option<GlobalState>)
    ensures Writes(Run(w, FAST_SYNC, declined, state).0.log) == 0
  {
    NoSetupNoWrites(w, FAST_SYNC, Machine(declined, [], []), Start(state));
  }

  lemma ReadonlySyncCanWrite(declined: Option<seq<string>>, state: Option<GlobalState>)
    ensures exists w :: Writes(Run(w, READONLY_SYNC, declined, state).0.log) > 0
  {
    assert READONLY_SYNC[1] == LInitialWithConfig;
    CanWriteIff(READONLY_SYNC, declined, state);
  }

  // ----- what is stored

  /** The declined list of the last meta/global of the current version that was read. */
  ghost function LastDeclined(log: seq<Event>, persisted: Option<seq<string>>): Option<seq<string>> {
    if log == [] then persisted
    else match log[|log| - 1]
      case ReadMetaGlobal(Success(global, _)) =>
        if global.storageVersion == STORAGE_VERSION then Some(global.declined) else LastDeclined(log[..|log| - 1], persisted)
      case _ => LastDeclined(log[..|log| - 1], persisted)
  }

  /** Every uploaded meta/global has the current version and declines what was
      last read in the run, else what was persisted, else the default. */
  ghost predicate UploadsDeclined(log: seq<Event>, persisted: Option<seq<string>>) {
    log == [] || (
      && UploadsDeclined(log[..|log| - 1], persisted)
      && (log[|log| - 1].PutMetaGlobal? ==>
            var last := LastDeclined(log[..|log| - 1], persisted);
            && log[|log| - 1].global.storageVersion == STORAGE_VERSION
            && log[|log| - 1].global.declined == if last.Some? then last.value else DEFAULT_DECLINED))
  }

  lemma LoggedDeclined(m: Machine, e: Event, persisted: Option<seq<string>>)
    requires UploadsDeclined(m.log, persisted)
    ensures !e.PutMetaGlobal? ==> UploadsDeclined(Did(m, e).log, persisted)
    ensures e.PutMetaGlobal? && e.global.storageVersion == STORAGE_VERSION
            && (var last := LastDeclined(m.log, persisted); e.global.declined == if last.Some? then last.value else DEFAULT_DECLINED)
            ==> UploadsDeclined(Did(m, e).log, persisted)
    ensures LastDeclined(Did(m, e).log, persisted) ==
      if e.ReadMetaGlobal? && e.answer.Success? && e.answer.record.storageVersion == STORAGE_VERSION
      then Some(e.answer.record.declined) else LastDeclined(m.log, persisted)
  {
    assert Did(m, e).log[..|m.log|] == m.log;
  }

  /** The machine remembers the declined list that was last read; a state that
      holds a meta/global holds one of the current version. */
  ghost predicate Remembers(m: Machine, s: SetupState, persisted: Option<seq<string>>) {
    && UploadsDeclined(m.log, persisted)
    && (match s
        case InitialWithMetaGlobal(_, _, global, _) =>
          global.storageVersion == STORAGE_VERSION && LastDeclined(m.log, persisted) == Some(global.declined)
        case Ready(state) => state.global.storageVersion == STORAGE_VERSION && m.declined == LastDeclined(m.log, persisted)
        case WithPreviousState(old_) => m.declined == LastDeclined(m.log, persisted) && old_.global.storageVersion == STORAGE_VERSION
        case _ => m.declined == LastDeclined(m.log, persisted))
  }

  lemma {:induction false} FreshStartRemembers(w: World, m: Machine, config: InfoConfiguration, persisted: Option<seq<string>>)
    requires Remembers(m, FreshStartRequired(config), persisted)
    ensures var (m', next) := FreshStart(w, m, config);
      && UploadsDeclined(m'.log, persisted)
      && (next.Done? ==> Remembers(m', next.value, persisted))
  {
    var m1 := Did(m, WipeAll);
    LoggedDeclined(m, WipeAll, persisted);
    if w.freshIds(m1.log).Some? {
      var e := PutMetaGlobal(NewGlobal(m1.declined, w.freshIds(m1.log).value));
      LoggedDeclined(m1, e, persisted);
      LoggedDeclined(Did(m1, e), PutKeys, persisted);
    }
  }

  lemma {:induction false} MetaGlobalRemembers(w: World, m: Machine, s: SetupState, persisted: Option<seq<string>>)
    requires Remembers(m, s, persisted) && s.InitialWithInfo?
    ensures var (m', next) := Advanced(w, m, s);
      && UploadsDeclined(m'.log, persisted)
      && (next.Done? ==> Remembers(m', next.value, persisted))
  {
    LoggedDeclined(m, ReadMetaGlobal(w.metaGlobal(m.log)), persisted);
  }

  lemma {:induction false} KeysRemember(w: World, m: Machine, s: SetupState, persisted: Option<seq<string>>)
    requires Remembers(m, s, persisted) && s.InitialWithMetaGlobal?
    ensures var (m', next) := Advanced(w, m, s);
      && UploadsDeclined(m'.log, persisted)
      && (next.Done? ==> Remembers(m', next.value, persisted))
  {
    LoggedDeclined(m.(declined := Some(s.global.declined)), ReadKeys(w.keys(m.log)), persisted);
  }

  lemma {:induction false} PreviousRemembers(w: World, m: Machine, s: SetupState, persisted: Option<seq<string>>)
    requires Remembers(m, s, persisted) && s.WithPreviousState?
    ensures var (m', next) := Advanced(w, m, s);
      && UploadsDeclined(m'.log, persisted)
      && (next.Done? ==> Remembers(m', next.value, persisted))
  {
    LoggedDeclined(m, ReadCollections(w.collections(m.log)), persisted);
  }

  lemma {:induction false} AdvanceRemembers(w: World, m: Machine, s: SetupState, persisted: Option<seq<string>>)
    requires Remembers(m, s, persisted) && !s.Ready?
    ensures var (m', next) := Advanced(w, m, s);
      && UploadsDeclined(m'.log, persisted)
      && (next.Done? ==> Remembers(m', next.value, persisted))
  {
    match s {
      case Initial => LoggedDeclined(m, ReadConfiguration(w.configuration(m.log)), persisted);
      case InitialWithConfig(_) => LoggedDeclined(m, ReadCollections(w.collections(m.log)), persisted);
      case InitialWithInfo(_, _) => MetaGlobalRemembers(w, m, s, persisted);
      case InitialWithMetaGlobal(_, _, _, _) => KeysRemember(w, m, s, persisted);
      case WithPreviousState(_) => PreviousRemembers(w, m, s, persisted);
      case FreshStartRequired(config) => FreshStartRemembers(w, m, config, persisted);
    }
  }

  lemma {:induction false} RunRemembers(w: World, allowed: seq<Label>, m: Machine, s: SetupState, persisted: Option<seq<string>>)
    requires Remembers(m, s, persisted)
    ensures var (m', r) := RunFrom(w, allowed, m, s);
      && UploadsDeclined(m'.log, persisted)
      && (r.Done? ==> r.value.global.storageVersion == STORAGE_VERSION && m'.declined == LastDeclined(m'.log, persisted))
    decreases Remaining(m.sequence, s)
  {
    if !w.interrupted(m.log) && !s.Ready? && Refusal(allowed, m.sequence, s).None? {
      AdvanceMakesProgress(w, allowed, m, s);
      var m1 := m.(sequence := m.sequence + [LabelOf(s)]);
      var (m', next) := Advanced(w, m1, s);
      AdvanceRemembers(w, m1, s, persisted);
      if next.Done? {
        RunRemembers(w, allowed, m', next.value, persisted);
      }
    }
  }

  // ----- chains of runs

  /** One run of a chain: the world it meets, what it may do, and whether the
      state it returns is kept for the next run. */
  datatype RunSpec = RunSpec(world: World, allowed: seq<Label>, keep: bool)

  /** What a client holds between runs. */
  datatype Held = Held(declined: Option<seq<string>>, state: Option<GlobalState>)

  /** After a run that succeeds its declined list is persisted. */
  ghost function Chain(runs: seq<RunSpec>, declined: Option<seq<string>>): Held {
    if runs == [] then Held(declined, None)
    else
      var held := Chain(runs[..|runs| - 1], declined);
      var spec := runs[|runs| - 1];
      var (m, r) := Run(spec.world, spec.allowed, held.declined, held.state);
      if r.Done? then Held(m.declined, if spec.keep then Some(r.value) else None) else Held(held.declined, None)
  }

  /** Over every chain of runs, the state held has the current storage version;
      the next run returns only such states, and every meta/global it uploads
      declines what the run last read, else what was persisted. */
  lemma {:induction false} EveryRunOfAChain(runs: seq<RunSpec>, declined: Option<seq<string>>, next: RunSpec)
    ensures var held := Chain(runs, declined);
      var (m, r) := Run(next.world, next.allowed, held.declined, held.state);
      && (held.state.Some? ==> held.state.value.global.storageVersion == STORAGE_VERSION)
      && (r.Done? ==> r.value.global.storageVersion == STORAGE_VERSION && m.declined == LastDeclined(m.log, held.declined))
      && UploadsDeclined(m.log, held.declined)
  {
    var held := Chain(runs, declined);
    if runs != [] {
      EveryRunOfAChain(runs[..|runs| - 1], declined, runs[|runs| - 1]);
    }
    RunRemembers(next.world, next.allowed, Machine(held.declined, [], []), Start(held.state), held.declined);
  }

  // ----- lists that come with an older storage version

  /** The declined list of the last meta/global that was read, whatever its version. */
  ghost function LastRead(log: seq<Event>, persisted: Option<seq<string>>): Option<seq<string>> {
    if log == [] then persisted
    else match log[|log| - 1]
      case ReadMetaGlobal(Success(global, _)) => Some(global.declined)
      case _ => LastRead(log[..|log| - 1], persisted)
  }

  /** The last meta/global that was read, if any, had the current version. */
  ghost predicate ReadCurrent(log: seq<Event>) {
    log == [] || (match log[|log| - 1]
      case ReadMetaGlobal(Success(global, _)) => global.storageVersion == STORAGE_VERSION
      case _ => ReadCurrent(log[..|log| - 1]))
  }

  function OrDefault(declined: Option<seq<string>>): seq<string> {
    if declined.Some? then declined.value else DEFAULT_DECLINED
  }

  lemma {:induction false} CurrentIsDeclined(log: seq<Event>, persisted: Option<seq<string>>)
    requires ReadCurrent(log)
    ensures LastRead(log, persisted) == LastDeclined(log, persisted)
  {
    if log != [] && !(log[|log| - 1].ReadMetaGlobal? && log[|log| - 1].answer.Success?) {
      CurrentIsDeclined(log[..|log| - 1], persisted);
    }
  }

  lemma {:induction false} UploadedAt(log: seq<Event>, persisted: Option<seq<string>>, i: nat)
    requires UploadsDeclined(log, persisted) && i < |log| && log[i].PutMetaGlobal?
    ensures log[i].global.declined == OrDefault(LastDeclined(log[..i], persisted))
  {
    if i < |log| - 1 {
      UploadedAt(log[..|log| - 1], persisted, i);
      assert log[..|log| - 1][..i] == log[..i];
    }
  }

  /** Over every chain of runs, an uploaded meta/global declines the list that
      was last read, whatever its version, exactly when that list came with the
      current version, nothing was read, or the list that had been carried so
      far is the same. */
  lemma {:induction false} UploadsLastReadIff(runs: seq<RunSpec>, declined: Option<seq<string>>, next: RunSpec, i: nat)
    requires var held := Chain(runs, declined);
      var log := Run(next.world, next.allowed, held.declined, held.state).0.log;
      i < |log| && log[i].PutMetaGlobal?
    ensures var held := Chain(runs, declined);
      var log := Run(next.world, next.allowed, held.declined, held.state).0.log;
      var read := OrDefault(LastRead(log[..i], held.declined));
      log[i].global.declined == read <==> ReadCurrent(log[..i]) || read == OrDefault(LastDeclined(log[..i], held.declined))
  {
    var held := Chain(runs, declined);
    var log := Run(next.world, next.allowed, held.declined, held.state).0.log;
    EveryRunOfAChain(runs, declined, next);
    UploadedAt(log, held.declined, i);
    if ReadCurrent(log[..i]) {
      CurrentIsDeclined(log[..i], held.declined);
    }
  }

  /** A server with a meta/global of version 4 that declines history. New keys cannot be made. */
  function OldServer(): World {
    World(_ => NotFound, _ => Success(map[], 0), _ => Success(OLD_GLOBAL, 0), _ => NotFound,
          _ => true, _ => Some(FreshIds("", _ => "")), _ => false, _ => false)
  }

  const OLD_GLOBAL: MetaGlobal := MetaGlobal("", 4, map[], ["history"])

  /** The machine after the three reads of a full sync from the old server. */
  ghost function AfterReads(): Machine {
    var sequence := [] + [LInitial] + [LInitialWithConfig] + [LInitialWithInfo];
    Machine(None, sequence, [] + [ReadConfiguration(NotFound)] + [ReadCollections(Success(map[], 0))] + [ReadMetaGlobal(Success(OLD_GLOBAL, 0))])
  }

  lemma OldServerIsRead()
    ensures Run(OldServer(), FULL_SYNC, None, None)
         == RunFrom(OldServer(), FULL_SYNC, AfterReads(), FreshStartRequired(DEFAULT_CONFIGURATION))
  {
    var w := OldServer();
    var m1 := Did(Machine(None, [] + [LInitial], []), ReadConfiguration(NotFound));
    assert Run(w, FULL_SYNC, None, None) == RunFrom(w, FULL_SYNC, m1, InitialWithConfig(DEFAULT_CONFIGURATION));
    assert FULL_SYNC[1] == LInitialWithConfig && FULL_SYNC[2] == LInitialWithInfo;
    var m2 := Did(m1.(sequence := m1.sequence + [LInitialWithConfig]), ReadCollections(Success(map[], 0)));
    assert RunFrom(w, FULL_SYNC, m1, InitialWithConfig(DEFAULT_CONFIGURATION))
        == RunFrom(w, FULL_SYNC, m2, InitialWithInfo(DEFAULT_CONFIGURATION, map[]));
  }

  /** The other case is real: nothing is persisted, the server declines history,
      and a full sync uploads a meta/global that declines nothing. */
  lemma OlderVersionIsForgotten()
    ensures var log := Run(OldServer(), FULL_SYNC, None, None).0.log;
      |log| == 5 && log[4].PutMetaGlobal? && log[4].global.declined == [] && LastRead(log[..4], None) == Some(["history"])
  {
    OldServerIsRead();
    var w, m3 := OldServer(), AfterReads();
    var m4 := Did(m3.(sequence := m3.sequence + [LFreshStartRequired]), WipeAll);
    var m5 := Did(m4, PutMetaGlobal(NewGlobal(None, w.freshIds(m4.log).value)));
    assert RunFrom(w, FULL_SYNC, m3, FreshStartRequired(DEFAULT_CONFIGURATION)).0.log == m5.log;
    assert m5.log[..4] == m4.log && m4.log[..3] == m3.log;
  }

  // ----- lists read in runs that fail

  /** The next run of a chain. */
  ghost function NextRun(runs: seq<RunSpec>, declined: Option<seq<string>>, next: RunSpec): (Machine, Outcome<GlobalState, SetupError>) {
    var held := Chain(runs, declined);
    Run(next.world, next.allowed, held.declined, held.state)
  }

  /** Some meta/global of the current version was read. */
  ghost predicate ReadsList(log: seq<Event>) {
    LastDeclined(log, None).Some?
  }

  /** The list last read with the current version in any run of a chain, failed runs included. */
  ghost function ChainRead(runs: seq<RunSpec>, declined: Option<seq<string>>): Option<seq<string>> {
    if runs == [] then declined
    else
      var init := runs[..|runs| - 1];
      LastDeclined(NextRun(init, declined, runs[|runs| - 1]).0.log, ChainRead(init, declined))
  }

  /** The last run of a chain that read a list succeeded, or none read one. */
  ghost predicate LastReaderSucceeded(runs: seq<RunSpec>, declined: Option<seq<string>>) {
    runs == [] || (
      var init := runs[..|runs| - 1];
      var (m, r) := NextRun(init, declined, runs[|runs| - 1]);
      if ReadsList(m.log) then r.Done? else LastReaderSucceeded(init, declined))
  }

  lemma {:induction false} ReadElsePersisted(log: seq<Event>, persisted: Option<seq<string>>)
    ensures LastDeclined(log, persisted) == if ReadsList(log) then LastDeclined(log, None) else persisted
  {
    if log != [] {
      ReadElsePersisted(log[..|log| - 1], persisted);
    }
  }

  /** What is persisted is the list last read if the last run that read one succeeded. */
  lemma {:induction false} SuccessfulReadIsKept(runs: seq<RunSpec>, declined: Option<seq<string>>)
    requires LastReaderSucceeded(runs, declined)
    ensures Chain(runs, declined).declined == ChainRead(runs, declined)
  {
    if runs != [] {
      var init, last := runs[..|runs| - 1], runs[|runs| - 1];
      var (m, r) := NextRun(init, declined, last);
      EveryRunOfAChain(init, declined, last);
      ReadElsePersisted(m.log, Chain(init, declined).declined);
      ReadElsePersisted(m.log, ChainRead(init, declined));
      if !ReadsList(m.log) {
        SuccessfulReadIsKept(init, declined);
      }
    }
  }

  /** Over every chain, an uploaded meta/global declines the list last read in the
      whole chain exactly when its own run has read one, the last run that read
      one succeeded, or the list that was persisted is the same. */
  lemma {:induction false} UploadsChainReadIff(runs: seq<RunSpec>, declined: Option<seq<string>>, next: RunSpec, i: nat)
    requires i < |NextRun(runs, declined, next).0.log| && NextRun(runs, declined, next).0.log[i].PutMetaGlobal?
    ensures var log, read := NextRun(runs, declined, next).0.log, ChainRead(runs, declined);
      log[i].global.declined == OrDefault(LastDeclined(log[..i], read)) <==>
        || ReadsList(log[..i])
        || LastReaderSucceeded(runs, declined)
        || OrDefault(Chain(runs, declined).declined) == OrDefault(read)
  {
    var held, log := Chain(runs, declined), NextRun(runs, declined, next).0.log;
    EveryRunOfAChain(runs, declined, next);
    UploadedAt(log, held.declined, i);
    ReadElsePersisted(log[..i], held.declined);
    ReadElsePersisted(log[..i], ChainRead(runs, declined));
    if LastReaderSucceeded(runs, declined) {
      SuccessfulReadIsKept(runs, declined);
    }
  }

  const DECLINES_HISTORY: MetaGlobal := MetaGlobal("", STORAGE_VERSION, map[], ["history"])

  predicate TakesOnlyWipes(log: seq<Event>) {
    log != [] && log[|log| - 1].WipeAll?
  }

  /** A server that declines history, has no keys, takes the wipe and refuses the upload after it. */
  function Refusing(): World {
    World(_ => NotFound, _ => Success(map[], 0), _ => Success(DECLINES_HISTORY, 0), _ => NotFound,
          TakesOnlyWipes, _ => Some(FreshIds("", _ => "")), _ => true, _ => false)
  }

  /** The server as the wipe left it. New keys cannot be made. */
  function Emptied(): World {
    World(_ => NotFound, _ => NotFound, _ => NotFound, _ => NotFound,
          _ => true, _ => Some(FreshIds("", _ => "")), _ => false, _ => false)
  }

  lemma LoggedRead(m: Machine, e: Event, persisted: Option<seq<string>>)
    ensures LastDeclined(Did(m, e).log, persisted) ==
      if e.ReadMetaGlobal? && e.answer.Success? && e.answer.record.storageVersion == STORAGE_VERSION
      then Some(e.answer.record.declined) else LastDeclined(m.log, persisted)
  {
    assert Did(m, e).log[..|m.log|] == m.log;
  }

  /** The run ended with a failure and last read that `list` is declined. */
  ghost predicate FailedAfter(run: (Machine, Outcome<GlobalState, SetupError>), list: Option<seq<string>>) {
    run.1.Failed? && LastDeclined(run.0.log, None) == list
  }

  lemma {:induction false} RefusedAfresh(m: Machine, config: InfoConfiguration)
    requires LFreshStartRequired !in m.sequence
    ensures FailedAfter(RunFrom(Refusing(), FULL_SYNC, m, FreshStartRequired(config)), LastDeclined(m.log, None))
  {
    var w := Refusing();
    var m1 := Did(m.(sequence := m.sequence + [LFreshStartRequired]), WipeAll);
    var put := PutMetaGlobal(NewGlobal(m1.declined, w.freshIds(m1.log).value));
    LoggedRead(m.(sequence := m.sequence + [LFreshStartRequired]), WipeAll, None);
    LoggedRead(m1, put, None);
    assert FreshStart(w, m.(sequence := m.sequence + [LFreshStartRequired]), config) == (Did(m1, put), Failed(ClientError));
  }

  lemma {:induction false} RefusedWithoutKeys(m: Machine, config: InfoConfiguration)
    requires LFreshStartRequired !in m.sequence
    ensures FailedAfter(RunFrom(Refusing(), FULL_SYNC, m, InitialWithMetaGlobal(config, map[], DECLINES_HISTORY, 0)), LastDeclined(m.log, None))
  {
    assert FULL_SYNC[3] == LInitialWithMetaGlobal;
    var m1 := m.(sequence := m.sequence + [LInitialWithMetaGlobal], declined := Some(["history"]));
    LoggedRead(m1, ReadKeys(NotFound), None);
    RefusedAfresh(Did(m1, ReadKeys(NotFound)), config);
  }

  lemma {:induction false} RefusedWithList(m: Machine, config: InfoConfiguration)
    requires LFreshStartRequired !in m.sequence
    ensures FailedAfter(RunFrom(Refusing(), FULL_SYNC, m, InitialWithInfo(config, map[])), Some(["history"]))
  {
    assert FULL_SYNC[2] == LInitialWithInfo;
    var m1 := m.(sequence := m.sequence + [LInitialWithInfo]);
    LoggedRead(m1, ReadMetaGlobal(Success(DECLINES_HISTORY, 0)), None);
    RefusedWithoutKeys(Did(m1, ReadMetaGlobal(Success(DECLINES_HISTORY, 0))), config);
  }

  lemma {:induction false} RefusedWithConfig(m: Machine, config: InfoConfiguration)
    requires LFreshStartRequired !in m.sequence
    ensures FailedAfter(RunFrom(Refusing(), FULL_SYNC, m, InitialWithConfig(config)), Some(["history"]))
  {
    assert FULL_SYNC[1] == LInitialWithConfig;
    RefusedWithList(Did(m.(sequence := m.sequence + [LInitialWithConfig]), ReadCollections(Success(map[], 0))), config);
  }

  lemma {:induction false} RefusedRun()
    ensures FailedAfter(Run(Refusing(), FULL_SYNC, None, None), Some(["history"]))
  {
    RefusedWithConfig(Did(Machine(None, [] + [LInitial], []), ReadConfiguration(NotFound)), DEFAULT_CONFIGURATION);
  }

  /** The last thing a run did was to upload a meta/global that declines nothing. */
  ghost predicate EndsDecliningNothing(log: seq<Event>) {
    log != [] && log[|log| - 1].PutMetaGlobal? && log[|log| - 1].global.declined == []
  }

  lemma {:induction false} EmptiedAfresh(m: Machine, config: InfoConfiguration)
    requires LFreshStartRequired !in m.sequence && m.declined == None
    ensures EndsDecliningNothing(RunFrom(Emptied(), FULL_SYNC, m, FreshStartRequired(config)).0.log)
  {
    var w := Emptied();
    var m1 := Did(m.(sequence := m.sequence + [LFreshStartRequired]), WipeAll);
    var put := PutMetaGlobal(NewGlobal(None, w.freshIds(m1.log).value));
    assert FreshStart(w, m.(sequence := m.sequence + [LFreshStartRequired]), config) == (Did(m1, put), Failed(ClientError));
  }

  lemma {:induction false} EmptiedWithConfig(m: Machine, config: InfoConfiguration)
    requires LFreshStartRequired !in m.sequence && m.declined == None
    ensures EndsDecliningNothing(RunFrom(Emptied(), FULL_SYNC, m, InitialWithConfig(config)).0.log)
  {
    assert FULL_SYNC[1] == LInitialWithConfig;
    EmptiedAfresh(Did(m.(sequence := m.sequence + [LInitialWithConfig]), ReadCollections(NotFound)), config);
  }

  lemma {:induction false} EmptiedRun()
    ensures EndsDecliningNothing(Run(Emptied(), FULL_SYNC, None, None).0.log)
  {
    EmptiedWithConfig(Did(Machine(None, [] + [LInitial], []), ReadConfiguration(NotFound)), DEFAULT_CONFIGURATION);
  }

  /** The failing case is real: a run reads that history is declined, wipes the
      server and fails; the next run uploads a meta/global that declines nothing. */
  lemma FailedRunForgets()
    ensures var runs := [RunSpec(Refusing(), FULL_SYNC, true)];
      && ChainRead(runs, None) == Some(["history"])
      && EndsDecliningNothing(NextRun(runs, None, RunSpec(Emptied(), FULL_SYNC, true)).0.log)
  {
    var runs := [RunSpec(Refusing(), FULL_SYNC, true)];
    assert runs[..0] == [];
    RefusedRun();
    assert Chain(runs, None) == Held(None, None);
    EmptiedRun();
  }
}
