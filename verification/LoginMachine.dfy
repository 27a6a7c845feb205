/**
 The account login state machine: from an unverified account to one with a key
 pair and a signed certificate, against any clock, key generator and server.
 */
module LoginMachine {
  import opened Wrappers

  const DAY: int := 24 * 3600 * 1000
  const UNVERIFIED_ACCOUNT: int := 104

  datatype BaseState = BaseState(uid: string, email: string)
  datatype ReadyForKeys = ReadyForKeys(base: BaseState, sessionToken: string, keyFetchToken: string, unwrapKb: string)
  datatype TokenAndKeys = TokenAndKeys(base: BaseState, sessionToken: string, syncKey: string, xcs: string)
  datatype WithKeyPair = WithKeyPair(tokenAndKeys: TokenAndKeys, keyPair: string, keyPairExpiresAt: int)

  datatype LoginState =
    | Married(pair: WithKeyPair, certificate: string, certificateExpiresAt: int)
    | CohabitingBeforeKeyPair(keys: TokenAndKeys)
    | CohabitingAfterKeyPair(pair: WithKeyPair)
    | EngagedBeforeVerified(ready: ReadyForKeys)
    | EngagedAfterVerified(ready: ReadyForKeys)
    | Separated(base: BaseState)
    | Unknown

  datatype LoginError = DerivationFailed

  /** The server's answer to a request to sign the public key. */
  datatype SignAnswer = Signed(certificate: string) | SignRefused | SignUnanswered

  /** The server's answer to a request for keys: wrapped keys that cannot be
      unwrapped, that cannot be derived from, or that can; a refusal; or none. */
  datatype KeysAnswer =
    | Unwrappable
    | Unusable
    | Usable(syncKey: string, xcs: string)
    | KeysRefused(errno: int)
    | KeysUnanswered

  /** What one step sees of the outside. */
  datatype Tick = Tick(now: int, keyPair: Option<string>, sign: SignAnswer, keys: KeysAnswer)

  function HandleReadyForKeys(same: LoginState, ready: ReadyForKeys, t: Tick): Result<LoginState, LoginError> {
    match t.keys
    case Unwrappable => Ok(same)
    case Unusable => Err(DerivationFailed)
    case Usable(syncKey, xcs) => Ok(CohabitingBeforeKeyPair(TokenAndKeys(ready.base, ready.sessionToken, syncKey, xcs)))
    case KeysRefused(errno) => if errno == UNVERIFIED_ACCOUNT then Ok(same) else Ok(Separated(ready.base))
    case KeysUnanswered => Ok(same)
  }

  function AdvancedOne(s: LoginState, t: Tick): Result<LoginState, LoginError> {
    match s
    case Married(pair, _, certificateExpiresAt) =>
      if t.now > pair.keyPairExpiresAt then Ok(CohabitingBeforeKeyPair(pair.tokenAndKeys))
      else if t.now > certificateExpiresAt then Ok(CohabitingAfterKeyPair(pair))
      else Ok(s)
    case CohabitingBeforeKeyPair(keys) =>
      if t.keyPair.None? then Ok(Separated(keys.base))
      else Ok(CohabitingAfterKeyPair(WithKeyPair(keys, t.keyPair.value, t.now + 30 * DAY)))
    case CohabitingAfterKeyPair(pair) =>
      (match t.sign
       case Signed(certificate) => Ok(Married(pair, certificate, t.now + DAY))
       case SignRefused => Ok(Separated(pair.tokenAndKeys.base))
       case SignUnanswered => Ok(s))
    case EngagedBeforeVerified(ready) => HandleReadyForKeys(s, ready, t)
    case EngagedAfterVerified(ready) => HandleReadyForKeys(s, ready, t)
    case Separated(_) => Ok(s)
    case Unknown => Ok(s)
  }

  predicate SameKind(a: LoginState, b: LoginState) {
    match a
    case Married(_, _, _) => b.Married?
    case CohabitingBeforeKeyPair(_) => b.CohabitingBeforeKeyPair?
    case CohabitingAfterKeyPair(_) => b.CohabitingAfterKeyPair?
    case EngagedBeforeVerified(_) => b.EngagedBeforeVerified?
    case EngagedAfterVerified(_) => b.EngagedAfterVerified?
    case Separated(_) => b.Separated?
    case Unknown => b.Unknown?
  }

  // ----- what every step keeps

  function Identity(s: LoginState): Option<BaseState> {
    match s
    case Married(pair, _, _) => Some(pair.tokenAndKeys.base)
    case CohabitingBeforeKeyPair(keys) => Some(keys.base)
    case CohabitingAfterKeyPair(pair) => Some(pair.tokenAndKeys.base)
    case EngagedBeforeVerified(ready) => Some(ready.base)
    case EngagedAfterVerified(ready) => Some(ready.base)
    case Separated(base) => Some(base)
    case Unknown => None
  }

  function SessionToken(s: LoginState): Option<string> {
    match s
    case Married(pair, _, _) => Some(pair.tokenAndKeys.sessionToken)
    case CohabitingBeforeKeyPair(keys) => Some(keys.sessionToken)
    case CohabitingAfterKeyPair(pair) => Some(pair.tokenAndKeys.sessionToken)
    case EngagedBeforeVerified(ready) => Some(ready.sessionToken)
    case EngagedAfterVerified(ready) => Some(ready.sessionToken)
    case Separated(_) => None
    case Unknown => None
  }

  /** Uid and email survive; the session token survives unless the account
      separates; a separated account stays so. */
  ghost predicate Keeps(s: LoginState, s': LoginState) {
    && Identity(s') == Identity(s)
    && (!s'.Separated? ==> SessionToken(s') == SessionToken(s))
    && (s.Separated? ==> s' == s)
    && (s.Unknown? ==> s' == s)
  }

  lemma StepKeeps(s: LoginState, t: Tick)
    ensures AdvancedOne(s, t).Ok? ==> Keeps(s, AdvancedOne(s, t).value)
  {
  }

  // ----- what a step means

  /** The account waits for its keys. */
  predicate IsEngaged(s: LoginState) {
    s.EngagedBeforeVerified? || s.EngagedAfterVerified?
  }

  /** The server or the key generator ends the session: keys are refused although
      the account is verified, no key pair can be made, or signing is refused. */
  predicate IsRejected(s: LoginState, t: Tick) {
    || (IsEngaged(s) && t.keys.KeysRefused? && t.keys.errno != 104)
    || (s.CohabitingBeforeKeyPair? && t.keyPair.None?)
    || (s.CohabitingAfterKeyPair? && t.sign.SignRefused?)
  }

  /** Nothing new was learnt: keys that cannot be unwrapped or are not to be had
      yet, or no answer; or a certificate and key pair that are still valid. */
  predicate IsUnmoved(s: LoginState, t: Tick) {
    || (IsEngaged(s) && (t.keys.Unwrappable? || t.keys.KeysUnanswered? || t.keys == KeysRefused(104)))
    || (s.CohabitingAfterKeyPair? && t.sign.SignUnanswered?)
    || (s.Married? && t.now <= s.pair.keyPairExpiresAt && t.now <= s.certificateExpiresAt)
    || s.Separated? || s.Unknown?
  }

  function KeysOf(s: LoginState): Option<TokenAndKeys> {
    match s
    case Married(pair, _, _) => Some(pair.tokenAndKeys)
    case CohabitingBeforeKeyPair(keys) => Some(keys)
    case CohabitingAfterKeyPair(pair) => Some(pair.tokenAndKeys)
    case _ => None
  }

  function PairOf(s: LoginState): Option<WithKeyPair> {
    match s
    case Married(pair, _, _) => Some(pair)
    case CohabitingAfterKeyPair(pair) => Some(pair)
    case _ => None
  }

  /** One step of the account, told from what it met. Times are in milliseconds. */
  ghost predicate Moves(s: LoginState, t: Tick, s': LoginState) {
    && (IsUnmoved(s, t) ==> s' == s)
    && (s'.Separated? <==> s.Separated? || IsRejected(s, t))
    && (IsEngaged(s) && t.keys.Usable? ==>
          s'.CohabitingBeforeKeyPair? && s'.keys.syncKey == t.keys.syncKey && s'.keys.xcs == t.keys.xcs)
    && (s.CohabitingBeforeKeyPair? && t.keyPair.Some? ==>
          && s'.CohabitingAfterKeyPair? && s'.pair.tokenAndKeys == s.keys && s'.pair.keyPair == t.keyPair.value
          && s'.pair.keyPairExpiresAt == t.now + 2592000000)
    && (s.CohabitingAfterKeyPair? && t.sign.Signed? ==>
          && s'.Married? && s'.pair == s.pair && s'.certificate == t.sign.certificate
          && s'.certificateExpiresAt == t.now + 86400000)
    && (s.Married? && t.now > s.pair.keyPairExpiresAt ==> s' == CohabitingBeforeKeyPair(s.pair.tokenAndKeys))
    && (s.Married? && t.now <= s.pair.keyPairExpiresAt && t.now > s.certificateExpiresAt ==> s' == CohabitingAfterKeyPair(s.pair))
  }

  /** A step fails exactly if keys arrive that nothing can be derived from; else it moves as told. */
  lemma StepMoves(s: LoginState, t: Tick)
    ensures AdvancedOne(s, t).Err? <==> IsEngaged(s) && t.keys.Unusable?
    ensures AdvancedOne(s, t).Ok? ==> Moves(s, t, AdvancedOne(s, t).value)
  {
  }

  // ----- whole calls

  /** The state after `n` steps of a call, while they succeed. */
  ghost function StateAfter(s: LoginState, ticks: nat -> Tick, n: nat): Option<LoginState> {
    if n == 0 then Some(s)
    else match StateAfter(s, ticks, n - 1)
      case None => None
      case Some(s') => if AdvancedOne(s', ticks(n - 1)).Ok? then Some(AdvancedOne(s', ticks(n - 1)).value) else None
  }

  /** The call returns at its n-th step: the step fails or keeps the kind of state. */
  ghost predicate Returns(from: LoginState, ticks: nat -> Tick, n: nat) {
    var s := StateAfter(from, ticks, n);
    s.Some? && (AdvancedOne(s.value, ticks(n)).Err? || SameKind(s.value, AdvancedOne(s.value, ticks(n)).value))
  }

  /** The call has not returned before its n-th step. */
  ghost predicate Going(from: LoginState, ticks: nat -> Tick, n: nat) {
    n == 0 || (Going(from, ticks, n - 1) && !Returns(from, ticks, n - 1))
  }

  /** What the n-th step has to meet for the call to go on: keys, a key pair or a
      certificate where one is asked for, and a clock that overtakes the
      certificate or the key pair before the next look. */
  ghost predicate GoesOn(from: LoginState, ticks: nat -> Tick, n: nat) {
    var s := StateAfter(from, ticks, n);
    s.Some? && (match s.value
      case Married(pair, _, certificateExpiresAt) => ticks(n).now > certificateExpiresAt || ticks(n).now > pair.keyPairExpiresAt
      case CohabitingBeforeKeyPair(_) => ticks(n).keyPair.Some?
      case CohabitingAfterKeyPair(pair) =>
        ticks(n).sign.Signed? && (ticks(n + 1).now > ticks(n).now + DAY || ticks(n + 1).now > pair.keyPairExpiresAt)
      case EngagedBeforeVerified(_) => ticks(n).keys.Usable?
      case EngagedAfterVerified(_) => ticks(n).keys.Usable?
      case Separated(_) => false
      case Unknown => false)
  }

  /** A step that does not go on returns, or leads to one that does. */
  lemma {:induction false} StopsSoon(from: LoginState, ticks: nat -> Tick, n: nat)
    requires StateAfter(from, ticks, n).Some?
    ensures GoesOn(from, ticks, n) ==> !Returns(from, ticks, n)
    ensures !GoesOn(from, ticks, n) ==> Returns(from, ticks, n) || Returns(from, ticks, n + 1)
  {
    assert AdvancedOne(StateAfter(from, ticks, n).value, ticks(n)).Ok? ==>
      StateAfter(from, ticks, n + 1) == Some(AdvancedOne(StateAfter(from, ticks, n).value, ticks(n)).value);
  }

  lemma {:induction false} GoingIsDefined(from: LoginState, ticks: nat -> Tick, n: nat)
    requires Going(from, ticks, n)
    ensures StateAfter(from, ticks, n).Some?
  {
    if n > 0 {
      GoingIsDefined(from, ticks, n - 1);
    }
  }

  lemma {:induction false} NeverMeansGoing(from: LoginState, ticks: nat -> Tick, n: nat)
    requires forall k: nat :: !Returns(from, ticks, k)
    ensures Going(from, ticks, n)
  {
    if n > 0 {
      NeverMeansGoing(from, ticks, n - 1);
    }
  }

  /** For every start, clock, key generator and server: the call never returns
      exactly when every one of its steps meets what it takes to go on. */
  lemma {:induction false} NeverReturnsIff(from: LoginState, ticks: nat -> Tick)
    ensures (forall n: nat :: !Returns(from, ticks, n)) <==> (forall n: nat :: GoesOn(from, ticks, n))
  {
    if forall n: nat :: !Returns(from, ticks, n) {
      forall n: nat ensures GoesOn(from, ticks, n) {
        NeverMeansGoing(from, ticks, n);
        GoingIsDefined(from, ticks, n);
        StopsSoon(from, ticks, n);
        assert !Returns(from, ticks, n) && !Returns(from, ticks, n + 1);
      }
    }
    forall n: nat | GoesOn(from, ticks, n) ensures !Returns(from, ticks, n) {
      StopsSoon(from, ticks, n);
    }
  }

  /** The clock moves no more than 24 hours from one look to the next. */
  ghost predicate Steady(ticks: nat -> Tick) {
    forall i: nat :: ticks(i + 1).now <= ticks(i).now + DAY
  }

  /** The time of the look before the n-th; before the first, the first. */
  function Last(ticks: nat -> Tick, n: nat): int {
    ticks(if n == 0 then 0 else n - 1).now
  }

  /** An upper bound on the steps a call still takes after a look at `last`, if
      the next looks come within 24 hours of each other. */
  ghost function Rank(s: LoginState, last: int): nat {
    match s
    case Married(pair, _, certificateExpiresAt) =>
      if certificateExpiresAt >= last + DAY then (if pair.keyPairExpiresAt >= last + DAY then 1 else 4)
      else (if pair.keyPairExpiresAt >= last + 3 * DAY then 3 else 6)
    case CohabitingBeforeKeyPair(_) => 3
    case CohabitingAfterKeyPair(pair) => if pair.keyPairExpiresAt >= last + 2 * DAY then 2 else 5
    case EngagedBeforeVerified(_) => 4
    case EngagedAfterVerified(_) => 4
    case Separated(_) => 1
    case Unknown => 1
  }

  lemma RankDecreases(s: LoginState, t: Tick, last: int)
    requires t.now <= last + DAY
    requires AdvancedOne(s, t).Ok? && !SameKind(s, AdvancedOne(s, t).value)
    ensures Rank(AdvancedOne(s, t).value, t.now) < Rank(s, last)
  {
  }

  lemma {:induction false} RankAfter(from: LoginState, ticks: nat -> Tick, n: nat)
    requires Steady(ticks) && Going(from, ticks, n)
    ensures StateAfter(from, ticks, n).Some? && n + Rank(StateAfter(from, ticks, n).value, Last(ticks, n)) <= 6
  {
    if n > 0 {
      RankAfter(from, ticks, n - 1);
      assert n > 1 ==> ticks(n - 2 + 1).now <= ticks(n - 2).now + DAY;
      RankDecreases(StateAfter(from, ticks, n - 1).value, ticks(n - 1), Last(ticks, n - 1));
    }
  }

  lemma SixStepsAtMost(from: LoginState, ticks: nat -> Tick, n: nat)
    requires Going(from, ticks, n)
    ensures Steady(ticks) ==> n < 6
  {
    if Steady(ticks) {
      RankAfter(from, ticks, n);
    }
  }

  /** A married state was fresh at `now`. */
  ghost predicate Fresh(s: LoginState, now: int) {
    s.Married? ==> now <= s.pair.keyPairExpiresAt && now <= s.certificateExpiresAt
  }

  /** One step of a call, and whether it kept the kind of state. */
  method TakeStep(from: LoginState, ticks: nat -> Tick, n: nat, s: LoginState) returns (next: Result<LoginState, LoginError>, same: bool)
    requires StateAfter(from, ticks, n) == Some(s) && Keeps(from, s)
    ensures Returns(from, ticks, n) <==> next.Err? || same
    ensures next.Ok? ==> StateAfter(from, ticks, n + 1) == Some(next.value) && Keeps(from, next.value)
    ensures next.Ok? && same ==> Fresh(next.value, ticks(n).now)
    ensures next.Err? <==> IsEngaged(s) && ticks(n).keys.Unusable?
  {
    StepKeeps(s, ticks(n));
    next := AdvancedOne(s, ticks(n));
    same := next.Ok? && SameKind(s, next.value);
  }

  /** Where what the result holds comes from: it was there at the start, or one of
      the steps received it, at the time from which its expiry counts. */
  ghost predicate MadeOf(from: LoginState, ticks: nat -> Tick, n: nat, s: LoginState) {
    && (KeysOf(s).Some? && KeysOf(s) != KeysOf(from) ==>
          exists i: nat | i < n :: ticks(i).keys == Usable(KeysOf(s).value.syncKey, KeysOf(s).value.xcs))
    && (PairOf(s).Some? && PairOf(s) != PairOf(from) ==>
          exists i: nat | i < n :: ticks(i).keyPair == Some(PairOf(s).value.keyPair) && PairOf(s).value.keyPairExpiresAt == ticks(i).now + 2592000000)
    && (s.Married? && s != from ==>
          exists i: nat | i < n :: ticks(i).sign == Signed(s.certificate) && s.certificateExpiresAt == ticks(i).now + 86400000)
  }

  lemma {:induction false} MadeOfNext(from: LoginState, ticks: nat -> Tick, n: nat, s: LoginState)
    requires MadeOf(from, ticks, n, s) && AdvancedOne(s, ticks(n)).Ok?
    ensures MadeOf(from, ticks, n + 1, AdvancedOne(s, ticks(n)).value)
  {
    StepMoves(s, ticks(n));
    var s' := AdvancedOne(s, ticks(n)).value;
    if KeysOf(s').Some? && KeysOf(s') != KeysOf(from) && KeysOf(s') != KeysOf(s) {
      assert ticks(n).keys == Usable(KeysOf(s').value.syncKey, KeysOf(s').value.xcs);
    }
    if PairOf(s').Some? && PairOf(s') != PairOf(from) && PairOf(s') != PairOf(s) {
      assert ticks(n).keyPair == Some(PairOf(s').value.keyPair) && PairOf(s').value.keyPairExpiresAt == ticks(n).now + 2592000000;
    }
    if s'.Married? && s' != from && s' != s {
      assert ticks(n).sign == Signed(s'.certificate) && s'.certificateExpiresAt == ticks(n).now + 86400000;
    }
  }

  /** Every step of a call moves as told, and what it then holds was received. */
  lemma {:induction false} StepOfCall(from: LoginState, ticks: nat -> Tick, n: nat)
    requires StateAfter(from, ticks, n).Some?
    ensures MadeOf(from, ticks, n, StateAfter(from, ticks, n).value)
    ensures n > 0 ==>
      && StateAfter(from, ticks, n - 1).Some?
      && Moves(StateAfter(from, ticks, n - 1).value, ticks(n - 1), StateAfter(from, ticks, n).value)
  {
    if n > 0 {
      StepOfCall(from, ticks, n - 1);
      StepMoves(StateAfter(from, ticks, n - 1).value, ticks(n - 1));
      MadeOfNext(from, ticks, n - 1, StateAfter(from, ticks, n - 1).value);
    }
  }

  /** A call that ends separated was separated from the start, or the step before
      its last was rejected; and the other way round. */
  lemma {:induction false} SeparatedIff(from: LoginState, ticks: nat -> Tick, steps: nat)
    requires steps > 0 && Going(from, ticks, steps - 1) && Returns(from, ticks, steps - 1) && StateAfter(from, ticks, steps).Some?
    ensures StateAfter(from, ticks, steps).value.Separated? <==>
      from.Separated? || (steps > 1 && StateAfter(from, ticks, steps - 2).Some?
                          && IsRejected(StateAfter(from, ticks, steps - 2).value, ticks(steps - 2)))
  {
    LastStepKeepsKind(from, ticks, steps);
    if steps > 1 {
      GoingIsDefined(from, ticks, steps - 2);
      SeparatedReturns(from, ticks, steps - 2);
      SeparatedNext(from, ticks, steps - 1);
    }
  }

  lemma {:induction false} LastStepKeepsKind(from: LoginState, ticks: nat -> Tick, steps: nat)
    requires steps > 0 && Returns(from, ticks, steps - 1) && StateAfter(from, ticks, steps).Some?
    ensures StateAfter(from, ticks, steps - 1).Some?
    ensures StateAfter(from, ticks, steps).value.Separated? <==> StateAfter(from, ticks, steps - 1).value.Separated?
  {
  }

  lemma {:induction false} SeparatedNext(from: LoginState, ticks: nat -> Tick, n: nat)
    requires n > 0 && StateAfter(from, ticks, n).Some? && StateAfter(from, ticks, n - 1).Some?
    ensures StateAfter(from, ticks, n).value.Separated? <==>
      StateAfter(from, ticks, n - 1).value.Separated? || IsRejected(StateAfter(from, ticks, n - 1).value, ticks(n - 1))
  {
    StepMoves(StateAfter(from, ticks, n - 1).value, ticks(n - 1));
  }

  /** A separated account returns at once. */
  lemma {:induction false} SeparatedReturns(from: LoginState, ticks: nat -> Tick, n: nat)
    requires Going(from, ticks, n + 1) && StateAfter(from, ticks, n).Some?
    ensures !StateAfter(from, ticks, n).value.Separated? && !from.Separated?
  {
    assert !Returns(from, ticks, n);
    if n > 0 {
      GoingIsDefined(from, ticks, n - 1);
      SeparatedReturns(from, ticks, n - 1);
    }
  }

  /** If looks are at most 24 hours apart, some step does not go on, so the call returns. */
  lemma SteadyReturns(from: LoginState, ticks: nat -> Tick)
    requires Steady(ticks)
    ensures exists n: nat :: !GoesOn(from, ticks, n)
  {
    NeverReturnsIff(from, ticks);
    if forall n: nat :: !Returns(from, ticks, n) {
      NeverMeansGoing(from, ticks, 6);
      SixStepsAtMost(from, ticks, 6);
      assert false;
    }
  }

  lemma ReturnsSomewhere(from: LoginState, ticks: nat -> Tick) returns (n: nat)
    requires exists n: nat :: !GoesOn(from, ticks, n)
    ensures Returns(from, ticks, n)
  {
    NeverReturnsIff(from, ticks);
    n :| Returns(from, ticks, n);
  }

  /** Advances until a step does not change the kind of state. Exactly if some
      step does not go on this ends, at the first step that returns; at most six
      steps are taken if looks are at most 24 hours apart. The result belongs to
      the same account, and a married result was fresh when last looked at. */
  method Advance(from: LoginState, ticks: nat -> Tick) returns (r: Result<LoginState, LoginError>, steps: nat)
    requires exists n: nat :: !GoesOn(from, ticks, n)
    ensures steps > 0 && Going(from, ticks, steps - 1) && Returns(from, ticks, steps - 1)
    ensures Steady(ticks) ==> steps <= 6
    ensures r.Ok? ==> StateAfter(from, ticks, steps) == Some(r.value) && Keeps(from, r.value) && Fresh(r.value, ticks(steps - 1).now)
    ensures r.Err? ==> StateAfter(from, ticks, steps - 1).Some? && IsEngaged(StateAfter(from, ticks, steps - 1).value) && ticks(steps - 1).keys.Unusable?
    ensures r.Ok? ==> MadeOf(from, ticks, steps, r.value)
    ensures r.Ok? ==> (r.value.Separated? <==>
      from.Separated? || (steps > 1 && StateAfter(from, ticks, steps - 2).Some?
                          && IsRejected(StateAfter(from, ticks, steps - 2).value, ticks(steps - 2))))
  {
    r, steps := AdvanceUntilSame(from, ticks);
    if r.Ok? {
      StepOfCall(from, ticks, steps);
      SeparatedIff(from, ticks, steps);
    }
  }

  method AdvanceUntilSame(from: LoginState, ticks: nat -> Tick) returns (r: Result<LoginState, LoginError>, steps: nat)
    requires exists n: nat :: !GoesOn(from, ticks, n)
    ensures steps > 0 && Going(from, ticks, steps - 1) && Returns(from, ticks, steps - 1)
    ensures Steady(ticks) ==> steps <= 6
    ensures r.Ok? ==> StateAfter(from, ticks, steps) == Some(r.value) && Keeps(from, r.value) && Fresh(r.value, ticks(steps - 1).now)
    ensures r.Err? ==> StateAfter(from, ticks, steps - 1).Some? && IsEngaged(StateAfter(from, ticks, steps - 1).value) && ticks(steps - 1).keys.Unusable?
  {
    ghost var end := ReturnsSomewhere(from, ticks);
    var current := from;
    steps := 0;
    while true
      invariant steps <= end && StateAfter(from, ticks, steps) == Some(current) && Keeps(from, current)
      invariant Going(from, ticks, steps)
      decreases end - steps
    {
      SixStepsAtMost(from, ticks, steps);
      var next, same := TakeStep(from, ticks, steps, current);
      steps := steps + 1;
      if next.Err? || same {
        return next, steps;
      }
      current := next.value;
    }
  }

  // ----- clocks that jump

  /** The clock moves more than 24 hours from each look to the next; a key pair
      and a signed certificate are always to be had. */
  ghost predicate Jumps(ticks: nat -> Tick) {
    forall i: nat :: ticks(i + 1).now > ticks(i).now + DAY && ticks(i).keyPair.Some? && ticks(i).sign.Signed?
  }

  /** A state with keys that the next look, at `now`, does not find settled. */
  ghost predicate Unsettled(s: LoginState, now: int) {
    s.CohabitingBeforeKeyPair? || s.CohabitingAfterKeyPair? || (s.Married? && now > s.certificateExpiresAt)
  }

  lemma {:induction false} JumpGoesOn(from: LoginState, ticks: nat -> Tick, n: nat)
    requires Jumps(ticks) && Unsettled(from, ticks(0).now)
    ensures StateAfter(from, ticks, n).Some? && Unsettled(StateAfter(from, ticks, n).value, ticks(n).now)
    ensures GoesOn(from, ticks, n)
  {
    assert ticks(n + 1).now > ticks(n).now + DAY && ticks(n).keyPair.Some? && ticks(n).sign.Signed?;
    if n > 0 {
      JumpGoesOn(from, ticks, n - 1);
      assert ticks(n - 1 + 1).now > ticks(n - 1).now + DAY && ticks(n - 1).keyPair.Some? && ticks(n - 1).sign.Signed?;
    }
  }

  /** Under a clock that always moves more than 24 hours, with key pairs and
      certificates always to be had, a call that starts from keys without a
      certificate, or with an expired one, never returns. */
  lemma JumpingClockNeverSettles(from: LoginState, ticks: nat -> Tick)
    requires Jumps(ticks) && Unsettled(from, ticks(0).now)
    ensures forall n: nat :: !Returns(from, ticks, n)
  {
    forall n: nat ensures GoesOn(from, ticks, n) {
      JumpGoesOn(from, ticks, n);
    }
    NeverReturnsIff(from, ticks);
  }

  /** Looks one day and a millisecond apart. */
  function SlowClock(i: nat): Tick {
    Tick(i * (DAY + 1), Some("pair"), Signed("certificate"), KeysUnanswered)
  }

  lemma SlowClockNeverReturns(keys: TokenAndKeys)
    ensures forall n: nat :: !Returns(CohabitingBeforeKeyPair(keys), SlowClock, n)
  {
    forall i: nat ensures SlowClock(i + 1).now > SlowClock(i).now + DAY {
      assert (i + 1) * (DAY + 1) == i * (DAY + 1) + DAY + 1;
    }
    JumpingClockNeverSettles(CohabitingBeforeKeyPair(keys), SlowClock);
  }

  /** A refusal to sign ends the call, whatever the clock does. */
  lemma RefusalReturns(pair: WithKeyPair, ticks: nat -> Tick)
    requires ticks(0).sign.SignRefused?
    ensures Returns(CohabitingAfterKeyPair(pair), ticks, 1)
  {
    assert StateAfter(CohabitingAfterKeyPair(pair), ticks, 1) == Some(Separated(pair.tokenAndKeys.base));
  }
}
