/**
 The provider of storage tokens: it fetches a token when it has none that is
 valid, backs off when told to, and gives up when the server's node changes.
 Clock and token server are arbitrary.
 */
module TokenProvider {
  import opened Wrappers

  datatype Token = Token(endpoint: string, validUntil: int)

  datatype TokenError = FetchError(code: int) | BackoffError(until: int) | StorageReset

  /** What a fetch comes back with. */
  datatype Fetched = Received(token: Token) | ToldToBackOff(until: int) | Broken(code: int)

  datatype TokenState =
    | NoToken
    | HasToken(token: Token)
    | FetchFailed(error: Option<TokenError>, endpoint: Option<string>)
    | Backoff(until: int, endpoint: Option<string>)
    | NodeReassigned

  /** One use of the provider: the time, and what a fetch would come back with. */
  datatype Call = Call(now: int, fetch: Fetched)

  /** The state after a fetch, given the endpoint seen before. */
  function AfterFetch(previous: Option<string>, f: Fetched): TokenState {
    match f
    case Received(t) => if previous.Some? && previous.value != t.endpoint then NodeReassigned else HasToken(t)
    case ToldToBackOff(until) => Backoff(until, previous)
    case Broken(code) => FetchFailed(Some(FetchError(code)), previous)
  }

  /** The new state, or None if the current one is to be used. */
  function Advanced(s: TokenState, c: Call): Option<TokenState> {
    match s
    case NoToken => Some(AfterFetch(None, c.fetch))
    case FetchFailed(_, endpoint) => Some(AfterFetch(endpoint, c.fetch))
    case HasToken(t) => if c.now < t.validUntil then None else Some(AfterFetch(Some(t.endpoint), c.fetch))
    case Backoff(until, endpoint) => if c.now <= until then None else Some(AfterFetch(endpoint, c.fetch))
    case NodeReassigned => None
  }

  /** A call: the state it leaves and the token it uses, if any. */
  function Used(s: TokenState, c: Call): (TokenState, Outcome<Token, TokenError>) {
    var s' := if Advanced(s, c).Some? then Advanced(s, c).value else s;
    match s'
    case NoToken => (s', Panicked)
    case HasToken(t) => (s', Done(t))
    case FetchFailed(None, _) => (s', Panicked)
    case FetchFailed(Some(e), endpoint) => (FetchFailed(None, endpoint), Failed(e))
    case NodeReassigned => (s', Failed(StorageReset))
    case Backoff(until, _) => (s', Failed(BackoffError(until)))
  }

  // ----- runs

  function After(calls: seq<Call>): TokenState {
    if calls == [] then NoToken else Used(After(calls[..|calls| - 1]), calls[|calls| - 1]).0
  }

  /** What the i-th call of a run gives. */
  function Answer(calls: seq<Call>, i: nat): Outcome<Token, TokenError>
    requires i < |calls|
  {
    Used(After(calls[..i]), calls[i]).1
  }

  /** Whether the i-th call asks the token server. */
  predicate Fetches(calls: seq<Call>, i: nat)
    requires i < |calls|
  {
    Advanced(After(calls[..i]), calls[i]).Some?
  }

  /** The endpoint a state remembers. */
  function Endpoint(s: TokenState): Option<string> {
    match s
    case NoToken => None
    case HasToken(t) => Some(t.endpoint)
    case FetchFailed(_, e) => e
    case Backoff(_, e) => e
    case NodeReassigned => None
  }

  /** An endpoint once seen is remembered until the node is reassigned. */
  lemma {:induction false} EndpointIsKept(calls: seq<Call>, i: nat)
    requires i < |calls| && Answer(calls, i).Done?
    ensures After(calls).NodeReassigned? || Endpoint(After(calls)) == Some(Answer(calls, i).value.endpoint)
  {
    var n := |calls| - 1;
    if i < n {
      assert calls[..n][..i] == calls[..i];
      EndpointIsKept(calls[..n], i);
    } else {
      assert calls[..n] == calls[..i];
    }
  }

  /** All tokens ever used come from one endpoint. */
  lemma {:induction false} TokensShareOneEndpoint(calls: seq<Call>, i: nat, j: nat)
    requires i <= j < |calls| && Answer(calls, i).Done? && Answer(calls, j).Done?
    ensures Answer(calls, i).value.endpoint == Answer(calls, j).value.endpoint
  {
    if i < j {
      assert calls[..j][..i] == calls[..i];
      EndpointIsKept(calls[..j], i);
    }
  }

  /** Once the node is reassigned it stays so: no call fetches or uses a token. */
  lemma {:induction false} ReassignedForever(calls: seq<Call>, i: nat, j: nat)
    requires i <= j < |calls| && After(calls[..i]).NodeReassigned?
    ensures !Fetches(calls, j) && Answer(calls, j) == Failed(StorageReset) && After(calls[..j + 1]).NodeReassigned?
  {
    assert calls[..j + 1][..j] == calls[..j];
    if i < j {
      ReassignedForever(calls, i, j - 1);
    }
  }

  /** Told to back off, the provider asks nobody until the clock has passed that
      time, and reports the same time to every caller. */
  lemma {:induction false} BackoffIsObeyed(calls: seq<Call>, i: nat, j: nat)
    requires i < j < |calls| && Fetches(calls, i) && calls[i].fetch.ToldToBackOff?
    requires forall k | i < k <= j :: calls[k].now <= calls[i].fetch.until
    ensures !Fetches(calls, j) && Answer(calls, j) == Failed(BackoffError(calls[i].fetch.until))
    ensures After(calls[..j]).Backoff? && After(calls[..j]).until == calls[i].fetch.until
  {
    assert calls[..j][..j - 1] == calls[..j - 1];
    if i < j - 1 {
      BackoffIsObeyed(calls, i, j - 1);
    }
  }

  /** Neither the panic on a missing token nor the one on a missing error can be
      reached; a token used without a fetch is still valid. */
  lemma NeverPanics(calls: seq<Call>, i: nat)
    requires i < |calls|
    ensures !Answer(calls, i).Panicked?
    ensures Answer(calls, i).Done? && !Fetches(calls, i) ==> calls[i].now < Answer(calls, i).value.validUntil
  {
  }

  /** What a call that asks the token server answers. */
  lemma FetchIsAnswered(calls: seq<Call>, i: nat)
    requires i < |calls| && Fetches(calls, i)
    ensures var previous, c := Endpoint(After(calls[..i])), calls[i];
      match c.fetch
      case Received(t) => Answer(calls, i) == (if previous.Some? && previous.value != t.endpoint then Failed(StorageReset) else Done(t))
      case ToldToBackOff(until) => Answer(calls, i) == Failed(BackoffError(until))
      case Broken(code) => Answer(calls, i) == Failed(FetchError(code))
  {
  }

  /** A call that does not ask answers from what is known: the token, the time to
      wait for, or that the node was reassigned. */
  lemma {:induction false} OldAnswerIsGiven(calls: seq<Call>, i: nat)
    requires i < |calls| && !Fetches(calls, i)
    ensures match After(calls[..i])
      case HasToken(t) => Answer(calls, i) == Done(t) && calls[i].now < t.validUntil
      case Backoff(until, _) => Answer(calls, i) == Failed(BackoffError(until)) && calls[i].now <= until
      case NodeReassigned => Answer(calls, i) == Failed(StorageReset)
      case _ => false
  {
  }

  class TokenProvider {
    var currentState: TokenState

    constructor ()
      ensures currentState == NoToken
    {
      currentState := NoToken;
    }

    /** Asks for a token. What the new state tells: a token is never from another
        endpoint than before, an endpoint once known is remembered until the node
        is reassigned, and a failure comes with its error. */
    method FetchToken(previousEndpoint: Option<string>, fetch: Fetched) returns (s: TokenState)
      ensures !s.NoToken?
      ensures s.HasToken? ==> fetch == Received(s.token) && (previousEndpoint.Some? ==> s.token.endpoint == previousEndpoint.value)
      ensures s.NodeReassigned? ==> fetch.Received? && previousEndpoint.Some? && fetch.token.endpoint != previousEndpoint.value
      ensures s.Backoff? ==> fetch == ToldToBackOff(s.until) && s.endpoint == previousEndpoint
      ensures s.FetchFailed? ==> fetch.Broken? && s.error == Some(FetchError(fetch.code)) && s.endpoint == previousEndpoint
      ensures previousEndpoint.Some? && !s.NodeReassigned? ==> Endpoint(s) == previousEndpoint
    {
      match fetch {
        case Received(t) =>
          match previousEndpoint {
            case Some(previous) =>
              return if previous == t.endpoint then HasToken(t) else NodeReassigned;
            case None =>
              return HasToken(t);
          }
        case ToldToBackOff(until) => return Backoff(until, previousEndpoint);
        case Broken(code) => return FetchFailed(Some(FetchError(code)), previousEndpoint);
      }
    }

    /** The new state, if there is one. Nothing is fetched exactly while the token
        is valid, the backoff lasts or the node is reassigned; a fetch compares
        with the endpoint that is remembered and never forgets it. */
    method AdvanceState(state: TokenState, c: Call) returns (s: Option<TokenState>)
      ensures s.None? <==>
        || state.NodeReassigned?
        || (state.HasToken? && c.now < state.token.validUntil)
        || (state.Backoff? && c.now <= state.until)
      ensures s.Some? ==> s.value == AfterFetch(Endpoint(state), c.fetch)
      ensures s.Some? && Endpoint(state).Some? && !s.value.NodeReassigned? ==> Endpoint(s.value) == Endpoint(state)
    {
      s := None;
      match state {
        case NoToken =>
          var s' := FetchToken(None, c.fetch);
          s := Some(s');
        case FetchFailed(_, endpoint) =>
          var s' := FetchToken(endpoint, c.fetch);
          s := Some(s');
        case HasToken(t) =>
          if !(c.now < t.validUntil) {
            var s' := FetchToken(Some(t.endpoint), c.fetch);
            s := Some(s');
          }
        case Backoff(until, endpoint) =>
          if until < c.now {
            var s' := FetchToken(endpoint, c.fetch);
            s := Some(s');
          }
        case NodeReassigned =>
      }
    }

    /** Gives the token to use now. Called after `calls`, it never panics. */
    method WithToken(c: Call, ghost calls: seq<Call>) returns (r: Outcome<Token, TokenError>)
      requires currentState == After(calls)
      modifies this
      ensures currentState == After(calls + [c])
      ensures r == Answer(calls + [c], |calls|) && !r.Panicked?
    {
      assert (calls + [c])[..|calls|] == calls;
      NeverPanics(calls + [c], |calls|);
      var next := AdvanceState(currentState, c);
      if next.Some? {
        currentState := next.value;
      }
      match currentState {
        case NoToken => return Panicked;
        case HasToken(t) => return Done(t);
        case FetchFailed(e, endpoint) =>
          currentState := FetchFailed(None, endpoint);
          return if e.Some? then Failed(e.value) else Panicked;
        case NodeReassigned => return Failed(StorageReset);
        case Backoff(until, _) => return Failed(BackoffError(until));
      }
    }
  }
}
