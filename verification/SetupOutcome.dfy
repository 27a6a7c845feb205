/**
 What becomes of a setup run, told from its log: what the last thing that
 happened means, when a held state is used again, and where everything in a
 state that was read comes from.
 */
module SetupOutcome {
  import opened Wrappers
  import opened UploadProtocol
  import opened SetupMachine

  // ----- what the last event means

  /** What has to come next: the run fails or panics, asks the next question,
      starts afresh, writes on, or is ready. */
  datatype Next = Fails(error: SetupError) | Panics | ToStart | ToConfig | ToInfo | ToMetaGlobal | ToFresh | ToWrite | ToReady

  /** The server's collections name meta/global and crypto/keys, neither changed
      after the client last saw it. */
  predicate IsCurrent(c: Collections, held: GlobalState) {
    "meta" in c && c["meta"] <= held.globalTimestamp && "crypto" in c && c["crypto"] <= held.keys.timestamp
  }

  /** What an unsuccessful read means, if a 404 means `missing`. */
  function OnFailure<T>(answer: Fetch<T>, missing: Next): Next
    requires !answer.Success?
  {
    match answer
    case NotFound => missing
    case OtherStatus => Fails(StorageError)
    case NoAnswer => Fails(ClientError)
  }

  function OnCollections(answer: Fetch<Collections>, held: Option<GlobalState>, isFirst: bool): Next {
    if held.Some? && isFirst then
      if answer.NoAnswer? then Fails(ClientError)
      else if answer.Success? && IsCurrent(answer.record, held.value) then ToReady
      else ToConfig
    else if answer.Success? then ToInfo
    else OnFailure(answer, ToFresh)
  }

  function OnMetaGlobal(answer: Fetch<MetaGlobal>): Next {
    if !answer.Success? then OnFailure(answer, ToFresh)
    else if answer.record.storageVersion > 5 then Fails(ClientUpgradeRequired)
    else if answer.record.storageVersion < 5 then ToFresh
    else ToMetaGlobal
  }

  function OnKeys(answer: Fetch<KeysRecord>): Next {
    if !answer.Success? then OnFailure(answer, ToFresh)
    else if answer.lastModified != answer.record.modified then Panics
    else if answer.record.keys.None? then Fails(BadKeys)
    else ToReady
  }

  /** What the last event of a log means for a run that began with a held state or none. */
  function NextOf(w: World, log: seq<Event>, held: Option<GlobalState>): Next {
    if log == [] then ToStart
    else match log[|log| - 1]
      case ReadConfiguration(answer) => if answer.Success? then ToConfig else OnFailure(answer, ToConfig)
      case ReadCollections(answer) => OnCollections(answer, held, |log| == 1)
      case ReadMetaGlobal(answer) => OnMetaGlobal(answer)
      case ReadKeys(answer) => OnKeys(answer)
      case WipeAll => if w.accepts(log) && w.freshIds(log).Some? then ToWrite else Fails(ClientError)
      case PutMetaGlobal(_) => if w.accepts(log) && w.newKeys(log) then ToWrite else Fails(ClientError)
      case PutKeys => if w.accepts(log) then ToConfig else Fails(ClientError)
  }

  /** The state is the one that comes next. */
  ghost predicate Matches(w: World, log: seq<Event>, held: Option<GlobalState>, s: SetupState) {
    match NextOf(w, log, held)
    case ToStart => s == Start(held)
    case ToConfig => s.InitialWithConfig?
    case ToInfo => s.InitialWithInfo?
    case ToMetaGlobal => s.InitialWithMetaGlobal?
    case ToFresh => s.FreshStartRequired?
    case ToReady => s.Ready?
    case _ => false
  }

  // ----- where a state comes from

  /** The configuration last read; a server without one has the default. */
  ghost function LastConfiguration(log: seq<Event>): Option<InfoConfiguration> {
    if log == [] then None
    else match log[|log| - 1]
      case ReadConfiguration(Success(config, _)) => Some(config)
      case ReadConfiguration(_) => Some(DEFAULT_CONFIGURATION)
      case _ => LastConfiguration(log[..|log| - 1])
  }

  ghost function LastCollections(log: seq<Event>): Option<Collections> {
    if log == [] then None
    else match log[|log| - 1]
      case ReadCollections(Success(collections, _)) => Some(collections)
      case ReadCollections(_) => None
      case _ => LastCollections(log[..|log| - 1])
  }

  ghost function LastGlobal(log: seq<Event>): Option<(MetaGlobal, int)> {
    if log == [] then None
    else match log[|log| - 1]
      case ReadMetaGlobal(Success(global, ts)) => Some((global, ts))
      case ReadMetaGlobal(_) => None
      case _ => LastGlobal(log[..|log| - 1])
  }

  ghost function LastKeys(log: seq<Event>): Option<CollectionKeys> {
    if log == [] then None
    else match log[|log| - 1]
      case ReadKeys(Success(record, _)) => record.keys
      case ReadKeys(_) => None
      case _ => LastKeys(log[..|log| - 1])
  }

  /** The configuration of a run: read in it, or taken over from the held state. */
  ghost function ConfigurationOf(log: seq<Event>, held: Option<GlobalState>): Option<InfoConfiguration> {
    if LastConfiguration(log).Some? then LastConfiguration(log)
    else if held.Some? then Some(held.value.config)
    else None
  }

  /** The held state with the collections just read, which are the only thing that was asked for. */
  ghost predicate IsReused(log: seq<Event>, held: Option<GlobalState>, state: GlobalState) {
    && held.Some? && |log| == 1 && log[0].ReadCollections? && log[0].collections.Success?
    && IsCurrent(log[0].collections.record, held.value)
    && state == held.value.(collections := log[0].collections.record)
  }

  /** Everything in the state was read in the run, except a held configuration. */
  ghost predicate IsRead(log: seq<Event>, held: Option<GlobalState>, state: GlobalState) {
    && ConfigurationOf(log, held) == Some(state.config)
    && LastCollections(log) == Some(state.collections)
    && LastGlobal(log) == Some((state.global, state.globalTimestamp)) && state.global.storageVersion == 5
    && LastKeys(log) == Some(state.keys)
  }

  /** What a state holds comes from the log. */
  ghost predicate Holds(log: seq<Event>, held: Option<GlobalState>, s: SetupState) {
    match s
    case Initial => true
    case WithPreviousState(_) => true
    case InitialWithConfig(config) => ConfigurationOf(log, held) == Some(config)
    case InitialWithInfo(config, collections) =>
      ConfigurationOf(log, held) == Some(config) && LastCollections(log) == Some(collections)
    case InitialWithMetaGlobal(config, collections, global, ts) =>
      && ConfigurationOf(log, held) == Some(config) && LastCollections(log) == Some(collections)
      && LastGlobal(log) == Some((global, ts)) && global.storageVersion == 5
    case FreshStartRequired(config) => ConfigurationOf(log, held) == Some(config)
    case Ready(state) => IsReused(log, held, state) || IsRead(log, held, state)
  }

  lemma LogOne(log: seq<Event>, e: Event)
    ensures (log + [e])[..|log|] == log && (log + [e])[|log|] == e
  {
  }

  /** What a transition leads to is what its last event means. */
  ghost predicate Continues(w: World, held: Option<GlobalState>, log: seq<Event>, next: Outcome<SetupState, SetupError>) {
    match next
    case Done(s) => Holds(log, held, s) && Matches(w, log, held, s)
    case Failed(error) => NextOf(w, log, held) == Fails(error)
    case Panicked => NextOf(w, log, held) == Panics
  }

  lemma {:induction false} StartContinues(w: World, m: Machine, s: SetupState, held: Option<GlobalState>)
    requires Holds(m.log, held, s) && Matches(w, m.log, held, s) && (s.Initial? || s.WithPreviousState?)
    ensures Continues(w, held, Advanced(w, m, s).0.log, Advanced(w, m, s).1)
  {
    assert m.log == [] && LastConfiguration(m.log) == None;
    var e := if s.Initial? then ReadConfiguration(w.configuration(m.log)) else ReadCollections(w.collections(m.log));
    LogOne(m.log, e);
    assert s.WithPreviousState? ==> LastConfiguration(m.log + [e]) == LastConfiguration(m.log);
  }

  lemma {:induction false} ConfigContinues(w: World, m: Machine, s: SetupState, held: Option<GlobalState>)
    requires Holds(m.log, held, s) && Matches(w, m.log, held, s) && s.InitialWithConfig?
    ensures Continues(w, held, Advanced(w, m, s).0.log, Advanced(w, m, s).1)
  {
    LogOne(m.log, ReadCollections(w.collections(m.log)));
  }

  lemma {:induction false} InfoContinues(w: World, m: Machine, s: SetupState, held: Option<GlobalState>)
    requires Holds(m.log, held, s) && Matches(w, m.log, held, s) && s.InitialWithInfo?
    ensures Continues(w, held, Advanced(w, m, s).0.log, Advanced(w, m, s).1)
  {
    LogOne(m.log, ReadMetaGlobal(w.metaGlobal(m.log)));
  }

  lemma {:induction false} MetaGlobalContinues(w: World, m: Machine, s: SetupState, held: Option<GlobalState>)
    requires Holds(m.log, held, s) && Matches(w, m.log, held, s) && s.InitialWithMetaGlobal?
    ensures Continues(w, held, Advanced(w, m, s).0.log, Advanced(w, m, s).1)
  {
    LogOne(m.log, ReadKeys(w.keys(m.log)));
  }

  /** A write reads nothing. */
  lemma {:induction false} WriteKeeps(log: seq<Event>, held: Option<GlobalState>, e: Event)
    requires e.WipeAll? || e.PutMetaGlobal? || e.PutKeys?
    ensures ConfigurationOf(log + [e], held) == ConfigurationOf(log, held)
  {
    LogOne(log, e);
  }

  lemma {:induction false} FreshContinues(w: World, m: Machine, s: SetupState, held: Option<GlobalState>)
    requires Holds(m.log, held, s) && s.FreshStartRequired?
    ensures Continues(w, held, Advanced(w, m, s).0.log, Advanced(w, m, s).1)
  {
    var l1 := m.log + [WipeAll];
    WriteKeeps(m.log, held, WipeAll);
    LogOne(m.log, WipeAll);
    if w.accepts(l1) && w.freshIds(l1).Some? {
      var put := PutMetaGlobal(NewGlobal(m.declined, w.freshIds(l1).value));
      WriteKeeps(l1, held, put);
      LogOne(l1, put);
      WriteKeeps(l1 + [put], held, PutKeys);
      LogOne(l1 + [put], PutKeys);
    }
  }

  lemma {:induction false} AdvanceContinues(w: World, m: Machine, s: SetupState, held: Option<GlobalState>)
    requires Holds(m.log, held, s) && Matches(w, m.log, held, s) && !s.Ready?
    ensures Continues(w, held, Advanced(w, m, s).0.log, Advanced(w, m, s).1)
  {
    match s {
      case Initial => StartContinues(w, m, s, held);
      case WithPreviousState(_) => StartContinues(w, m, s, held);
      case InitialWithConfig(_) => ConfigContinues(w, m, s, held);
      case InitialWithInfo(_, _) => InfoContinues(w, m, s, held);
      case InitialWithMetaGlobal(_, _, _, _) => MetaGlobalContinues(w, m, s, held);
      case FreshStartRequired(_) => FreshContinues(w, m, s, held);
    }
  }

  /** Every read is logged with the answer the server gave. */
  ghost predicate IsTruthful(w: World, log: seq<Event>) {
    log == [] || (
      var before := log[..|log| - 1];
      && IsTruthful(w, before)
      && match log[|log| - 1]
         case ReadConfiguration(answer) => answer == w.configuration(before)
         case ReadCollections(answer) => answer == w.collections(before)
         case ReadMetaGlobal(answer) => answer == w.metaGlobal(before)
         case ReadKeys(answer) => answer == w.keys(before)
         case _ => true)
  }

  lemma {:induction false} AdvanceIsTruthful(w: World, m: Machine, s: SetupState)
    requires IsTruthful(w, m.log)
    ensures IsTruthful(w, Advanced(w, m, s).0.log)
  {
    match s {
      case Initial => LogOne(m.log, ReadConfiguration(w.configuration(m.log)));
      case WithPreviousState(_) => LogOne(m.log, ReadCollections(w.collections(m.log)));
      case InitialWithConfig(_) => LogOne(m.log, ReadCollections(w.collections(m.log)));
      case InitialWithInfo(_, _) => LogOne(m.log, ReadMetaGlobal(w.metaGlobal(m.log)));
      case InitialWithMetaGlobal(_, _, _, _) => LogOne(m.log, ReadKeys(w.keys(m.log)));
      case FreshStartRequired(config) => FreshIsTruthful(w, m, config);
      case Ready(_) =>
    }
  }

  lemma {:induction false} FreshIsTruthful(w: World, m: Machine, config: InfoConfiguration)
    requires IsTruthful(w, m.log)
    ensures IsTruthful(w, FreshStart(w, m, config).0.log)
  {
    var l1 := m.log + [WipeAll];
    LogOne(m.log, WipeAll);
    if w.accepts(l1) && w.freshIds(l1).Some? {
      var put := PutMetaGlobal(NewGlobal(m.declined, w.freshIds(l1).value));
      LogOne(l1, put);
      LogOne(l1 + [put], PutKeys);
    }
  }

  /** The event is the one that has to come next, and the run may go on to it. */
  ghost predicate MayFollow(w: World, allowed: seq<Label>, held: Option<GlobalState>, before: seq<Event>, e: Event) {
    match NextOf(w, before, held)
    case ToStart => !w.interrupted(before) && (if held.Some? then e.ReadCollections? else e.ReadConfiguration?)
    case ToConfig => !w.interrupted(before) && LInitialWithConfig in allowed && e.ReadCollections?
    case ToInfo => !w.interrupted(before) && LInitialWithInfo in allowed && e.ReadMetaGlobal?
    case ToMetaGlobal => !w.interrupted(before) && LInitialWithMetaGlobal in allowed && e.ReadKeys?
    case ToFresh => !w.interrupted(before) && WipeAll !in before && e.WipeAll?
    case ToWrite => if before[|before| - 1].WipeAll? then e.PutMetaGlobal? else e.PutKeys?
    case _ => false
  }

  /** Every event was due and allowed. */
  ghost predicate IsOrderly(w: World, allowed: seq<Label>, held: Option<GlobalState>, log: seq<Event>) {
    log == [] || (
      && IsOrderly(w, allowed, held, log[..|log| - 1])
      && MayFollow(w, allowed, held, log[..|log| - 1], log[|log| - 1]))
  }

  lemma {:induction false} OneMoreOrderly(w: World, allowed: seq<Label>, held: Option<GlobalState>, log: seq<Event>, e: Event)
    requires IsOrderly(w, allowed, held, log) && MayFollow(w, allowed, held, log, e)
    ensures IsOrderly(w, allowed, held, log + [e])
  {
    LogOne(log, e);
  }

  lemma {:induction false} FreshIsOrderly(w: World, allowed: seq<Label>, held: Option<GlobalState>, m: Machine, config: InfoConfiguration)
    requires IsOrderly(w, allowed, held, m.log) && MayFollow(w, allowed, held, m.log, WipeAll)
    ensures IsOrderly(w, allowed, held, FreshStart(w, m, config).0.log)
  {
    var l1 := m.log + [WipeAll];
    OneMoreOrderly(w, allowed, held, m.log, WipeAll);
    LogOne(m.log, WipeAll);
    if w.accepts(l1) && w.freshIds(l1).Some? {
      var put := PutMetaGlobal(NewGlobal(m.declined, w.freshIds(l1).value));
      OneMoreOrderly(w, allowed, held, l1, put);
      LogOne(l1, put);
      if w.accepts(l1 + [put]) && w.newKeys(l1 + [put]) {
        OneMoreOrderly(w, allowed, held, l1 + [put], PutKeys);
      }
    }
  }

  lemma {:induction false} AdvanceIsOrderly(w: World, allowed: seq<Label>, held: Option<GlobalState>, m: Machine, s: SetupState)
    requires Matches(w, m.log, held, s) && Labelled(m, s) && !s.Ready?
    requires IsOrderly(w, allowed, held, m.log) && !w.interrupted(m.log) && Refusal(allowed, m.sequence, s).None?
    ensures IsOrderly(w, allowed, held, Advanced(w, m.(sequence := m.sequence + [LabelOf(s)]), s).0.log)
  {
    match s {
      case Initial => OneMoreOrderly(w, allowed, held, m.log, ReadConfiguration(w.configuration(m.log)));
      case WithPreviousState(_) => OneMoreOrderly(w, allowed, held, m.log, ReadCollections(w.collections(m.log)));
      case InitialWithConfig(_) => OneMoreOrderly(w, allowed, held, m.log, ReadCollections(w.collections(m.log)));
      case InitialWithInfo(_, _) => OneMoreOrderly(w, allowed, held, m.log, ReadMetaGlobal(w.metaGlobal(m.log)));
      case InitialWithMetaGlobal(_, _, _, _) => OneMoreOrderly(w, allowed, held, m.log, ReadKeys(w.keys(m.log)));
      case FreshStartRequired(config) => FreshIsOrderly(w, allowed, held, m.(sequence := m.sequence + [LabelOf(s)]), config);
    }
  }

  // ----- whole runs

  /** How a run ends, as its log tells. */
  ghost predicate EndsAs(w: World, allowed: seq<Label>, held: Option<GlobalState>, log: seq<Event>, r: Outcome<GlobalState, SetupError>) {
    match NextOf(w, log, held)
    case Fails(error) => r == Failed(error)
    case Panics => r == Panicked
    case ToWrite => false
    case next =>
      if w.interrupted(log) then r == Failed(Interrupted)
      else match next
        case ToReady => r.Done? && (IsReused(log, held, r.value) || IsRead(log, held, r.value))
        case ToConfig => r == Failed(SetupRequired) && LInitialWithConfig !in allowed
        case ToInfo => r == Failed(SetupRequired) && LInitialWithInfo !in allowed
        case ToMetaGlobal => r == Failed(SetupRequired) && LInitialWithMetaGlobal !in allowed
        case ToFresh => r == Failed(SetupRace) && WipeAll in log
        case _ => false
  }

  /** The machine has started afresh exactly if it has wiped, and has a label for its start. */
  ghost predicate Labelled(m: Machine, s: SetupState) {
    && (LFreshStartRequired in m.sequence <==> WipeAll in m.log)
    && (s.Initial? || s.WithPreviousState? ==> m.sequence == [])
  }

  lemma {:induction false} AdvanceLabelled(w: World, allowed: seq<Label>, m: Machine, s: SetupState)
    requires Labelled(m, s) && !s.Ready? && Refusal(allowed, m.sequence, s).None?
    ensures var (m', next) := Advanced(w, m.(sequence := m.sequence + [LabelOf(s)]), s);
      next.Done? ==> Labelled(m', next.value)
  {
  }

  lemma {:induction false} RunEndsAs(w: World, allowed: seq<Label>, m: Machine, s: SetupState, held: Option<GlobalState>)
    requires Holds(m.log, held, s) && Matches(w, m.log, held, s) && Labelled(m, s)
    requires IsTruthful(w, m.log) && IsOrderly(w, allowed, held, m.log)
    ensures EndsAs(w, allowed, held, RunFrom(w, allowed, m, s).0.log, RunFrom(w, allowed, m, s).1)
    ensures IsTruthful(w, RunFrom(w, allowed, m, s).0.log) && IsOrderly(w, allowed, held, RunFrom(w, allowed, m, s).0.log)
    decreases Remaining(m.sequence, s)
  {
    if !w.interrupted(m.log) && !s.Ready? && Refusal(allowed, m.sequence, s).None? {
      AdvanceMakesProgress(w, allowed, m, s);
      var m1 := m.(sequence := m.sequence + [LabelOf(s)]);
      var (m', next) := Advanced(w, m1, s);
      AdvanceContinues(w, m1, s, held);
      AdvanceLabelled(w, allowed, m, s);
      AdvanceIsTruthful(w, m1, s);
      AdvanceIsOrderly(w, allowed, held, m, s);
      if next.Done? {
        RunEndsAs(w, allowed, m', next.value, held);
      }
    }
  }

  /** Every run ends as its log tells: with the error its last event means, or with
      a state that is the held one while it is current, or has been read in the
      run; else it was interrupted, was not allowed to go on, or would have had
      to start afresh a second time. */
  lemma EveryRunEndsAs(w: World, allowed: seq<Label>, declined: Option<seq<string>>, held: Option<GlobalState>)
    ensures EndsAs(w, allowed, held, Run(w, allowed, declined, held).0.log, Run(w, allowed, declined, held).1)
    ensures IsTruthful(w, Run(w, allowed, declined, held).0.log) && IsOrderly(w, allowed, held, Run(w, allowed, declined, held).0.log)
  {
    RunEndsAs(w, allowed, Machine(declined, [], []), Start(held), held);
  }

  /** A run returns without reading meta/global exactly when it holds a state, is not
      interrupted, and the server's collections say that the state is current. */
  lemma ReusedIff(w: World, allowed: seq<Label>, declined: Option<seq<string>>, held: Option<GlobalState>)
    ensures var (m, r) := Run(w, allowed, declined, held);
      r.Done? && LastGlobal(m.log).None? <==>
        && held.Some? && !w.interrupted([])
        && w.collections([]).Success? && IsCurrent(w.collections([]).record, held.value)
        && !w.interrupted([ReadCollections(w.collections([]))])
  {
    var (m, r) := Run(w, allowed, declined, held);
    EveryRunEndsAs(w, allowed, declined, held);
    var first := ReadCollections(w.collections([]));
    assert [] + [first] == [first];
    if r.Done? && LastGlobal(m.log).None? {
      assert m.log[..0] == [] && m.log == [m.log[0]];
    } else if held.Some? && !w.interrupted([]) && w.collections([]).Success? && IsCurrent(w.collections([]).record, held.value) && !w.interrupted([first]) {
      ReusedAtOnce(w, allowed, declined, held.value);
    }
  }

  lemma {:induction false} ReusedAtOnce(w: World, allowed: seq<Label>, declined: Option<seq<string>>, held: GlobalState)
    requires !w.interrupted([]) && w.collections([]).Success? && IsCurrent(w.collections([]).record, held)
    requires !w.interrupted([ReadCollections(w.collections([]))])
    ensures var (m, r) := Run(w, allowed, declined, Some(held));
      m.log == [ReadCollections(w.collections([]))] && r == Done(held.(collections := w.collections([]).record))
  {
    var first := ReadCollections(w.collections([]));
    assert [] + [first] == [first];
    var m1 := Did(Machine(declined, [] + [LWithPreviousState], []), first);
    var state := held.(collections := w.collections([]).record);
    assert Run(w, allowed, declined, Some(held)) == RunFrom(w, allowed, m1, Ready(state));
  }
}
