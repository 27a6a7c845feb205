/** A login, the difference between two logins, and the three-way merge. */
module LoginRecord {
  import opened Wrappers

  type Guid = string

  datatype Login = Login(
    id: Guid, hostname: string, formSubmitUrl: Option<string>, httpRealm: Option<string>,
    username: string, password: string, usernameField: string, passwordField: string,
    timeCreated: int, timePasswordChanged: int, timeLastUsed: int, timesUsed: int)

  /** The changes that lead from one login to another. A target that changes to
      nothing is written Some(""). */
  datatype LoginDelta = LoginDelta(
    hostname: Option<string>, password: Option<string>, username: Option<string>,
    httpRealm: Option<string>, formSubmitUrl: Option<string>,
    timeCreated: Option<int>, timeLastUsed: Option<int>, timePasswordChanged: Option<int>,
    passwordField: Option<string>, usernameField: Option<string>, timesUsed: int)

  const NO_CHANGE: LoginDelta := LoginDelta(None, None, None, None, None, None, None, None, None, None, 0)

  datatype InvalidLogin = EmptyHostname | EmptyPassword | BothTargets | NoTarget

  function CheckValid(l: Login): Option<InvalidLogin> {
    if l.hostname == "" then Some(EmptyHostname)
    else if l.password == "" then Some(EmptyPassword)
    else if l.formSubmitUrl.Some? && l.httpRealm.Some? then Some(BothTargets)
    else if l.formSubmitUrl.None? && l.httpRealm.None? then Some(NoTarget)
    else None
  }

  /** A login that may be stored: a host, a password, and exactly one target. */
  predicate IsStorable(l: Login) {
    l.hostname != "" && l.password != "" && (l.formSubmitUrl.None? || l.httpRealm.None?) && !(l.formSubmitUrl.None? && l.httpRealm.None?)
  }

  /** The check finds nothing exactly for storable logins, and otherwise what is wrong first. */
  lemma CheckFinds(l: Login)
    ensures CheckValid(l).None? <==> IsStorable(l)
    ensures CheckValid(l) == Some(EmptyHostname) <==> l.hostname == ""
    ensures CheckValid(l) == Some(EmptyPassword) <==> l.hostname != "" && l.password == ""
    ensures CheckValid(l) == Some(BothTargets) ==> l.formSubmitUrl.Some? && l.httpRealm.Some?
    ensures CheckValid(l) == Some(NoTarget) ==> l.formSubmitUrl.None? && l.httpRealm.None?
  {
  }

  // ----- what the three operations compute

  function Change<T(==)>(now: T, older: T): Option<T> {
    if now != older then Some(now) else None
  }

  function TargetChange(now: Option<string>, older: Option<string>): Option<string> {
    if now != older then Some(if now.Some? then now.value else "") else None
  }

  function TimeChange(now: int, older: int): Option<int> {
    if now > 0 && now != older then Some(now) else None
  }

  function DeltaOf(now: Login, older: Login): LoginDelta {
    LoginDelta(
      Change(now.hostname, older.hostname), Change(now.password, older.password), Change(now.username, older.username),
      TargetChange(now.httpRealm, older.httpRealm), TargetChange(now.formSubmitUrl, older.formSubmitUrl),
      TimeChange(now.timeCreated, older.timeCreated), TimeChange(now.timeLastUsed, older.timeLastUsed),
      TimeChange(now.timePasswordChanged, older.timePasswordChanged),
      Change(now.passwordField, older.passwordField), Change(now.usernameField, older.usernameField),
      if now.timesUsed > 0 then now.timesUsed - older.timesUsed else 0)
  }

  function MergeField<T>(a: Option<T>, b: Option<T>, preferB: bool): Option<T> {
    if b.None? then a else if a.None? || preferB then b else a
  }

  function Merged(a: LoginDelta, b: LoginDelta, bIsNewer: bool): LoginDelta {
    LoginDelta(
      MergeField(a.hostname, b.hostname, bIsNewer), MergeField(a.password, b.password, bIsNewer),
      MergeField(a.username, b.username, bIsNewer), MergeField(a.httpRealm, b.httpRealm, bIsNewer),
      MergeField(a.formSubmitUrl, b.formSubmitUrl, bIsNewer), MergeField(a.timeCreated, b.timeCreated, bIsNewer),
      MergeField(a.timeLastUsed, b.timeLastUsed, bIsNewer),
      MergeField(a.timePasswordChanged, b.timePasswordChanged, bIsNewer),
      MergeField(a.passwordField, b.passwordField, bIsNewer), MergeField(a.usernameField, b.usernameField, bIsNewer),
      a.timesUsed + b.timesUsed)
  }

  function Or<T>(change: Option<T>, before: T): T {
    if change.Some? then change.value else before
  }

  function TargetOr(change: Option<string>, before: Option<string>): Option<string> {
    if change.None? then before else if change.value == "" then None else change
  }

  function Applied(l: Login, d: LoginDelta): Login {
    Login(l.id, Or(d.hostname, l.hostname), TargetOr(d.formSubmitUrl, l.formSubmitUrl), TargetOr(d.httpRealm, l.httpRealm),
          Or(d.username, l.username), Or(d.password, l.password),
          Or(d.usernameField, l.usernameField), Or(d.passwordField, l.passwordField),
          Or(d.timeCreated, l.timeCreated), Or(d.timePasswordChanged, l.timePasswordChanged),
          Or(d.timeLastUsed, l.timeLastUsed), l.timesUsed + d.timesUsed)
  }

  // ----- the operations, step by step

  /** The change of one field, if it changed. */
  method NoteField<T(==)>(now: T, older: T) returns (r: Option<T>)
    ensures r == Change(now, older)
  {
    r := None;
    if now != older {
      r := Some(now);
    }
  }

  method NoteTarget(now: Option<string>, older: Option<string>) returns (r: Option<string>)
    ensures r == TargetChange(now, older)
  {
    r := None;
    if now != older {
      r := Some(if now.Some? then now.value else "");
    }
  }

  method NoteTime(now: int, older: int) returns (r: Option<int>)
    ensures r == TimeChange(now, older)
  {
    r := None;
    if now > 0 && now != older {
      r := Some(now);
    }
  }

  method Delta(now: Login, older: Login) returns (delta: LoginDelta)
    ensures delta == DeltaOf(now, older)
  {
    delta := NO_CHANGE;
    var text := NoteTarget(now.formSubmitUrl, older.formSubmitUrl);
    delta := delta.(formSubmitUrl := text);
    text := NoteTarget(now.httpRealm, older.httpRealm);
    delta := delta.(httpRealm := text);
    text := NoteField(now.hostname, older.hostname);
    delta := delta.(hostname := text);
    text := NoteField(now.username, older.username);
    delta := delta.(username := text);
    text := NoteField(now.password, older.password);
    delta := delta.(password := text);
    text := NoteField(now.passwordField, older.passwordField);
    delta := delta.(passwordField := text);
    text := NoteField(now.usernameField, older.usernameField);
    delta := delta.(usernameField := text);
    var time := NoteTime(now.timeCreated, older.timeCreated);
    delta := delta.(timeCreated := time);
    time := NoteTime(now.timeLastUsed, older.timeLastUsed);
    delta := delta.(timeLastUsed := time);
    time := NoteTime(now.timePasswordChanged, older.timePasswordChanged);
    delta := delta.(timePasswordChanged := time);
    if now.timesUsed > 0 && now.timesUsed != older.timesUsed {
      delta := delta.(timesUsed := now.timesUsed - older.timesUsed);
    }
  }

  /** Takes over `b`'s change of one field unless `merged` has one that is preferred. */
  method TakeField<T>(merged: Option<T>, b: Option<T>, preferB: bool) returns (r: Option<T>)
    ensures r == MergeField(merged, b, preferB)
  {
    r := merged;
    if b.Some? {
      if r.Some? {
        if preferB { r := b; }
      } else {
        r := b;
      }
    }
  }

  method Merge(a: LoginDelta, b: LoginDelta, bIsNewer: bool) returns (merged: LoginDelta)
    ensures merged == Merged(a, b, bIsNewer)
  {
    merged := a;
    var text := TakeField(merged.hostname, b.hostname, bIsNewer);
    merged := merged.(hostname := text);
    text := TakeField(merged.password, b.password, bIsNewer);
    merged := merged.(password := text);
    text := TakeField(merged.username, b.username, bIsNewer);
    merged := merged.(username := text);
    text := TakeField(merged.httpRealm, b.httpRealm, bIsNewer);
    merged := merged.(httpRealm := text);
    text := TakeField(merged.formSubmitUrl, b.formSubmitUrl, bIsNewer);
    merged := merged.(formSubmitUrl := text);
    var time := TakeField(merged.timeCreated, b.timeCreated, bIsNewer);
    merged := merged.(timeCreated := time);
    time := TakeField(merged.timeLastUsed, b.timeLastUsed, bIsNewer);
    merged := merged.(timeLastUsed := time);
    time := TakeField(merged.timePasswordChanged, b.timePasswordChanged, bIsNewer);
    merged := merged.(timePasswordChanged := time);
    text := TakeField(merged.passwordField, b.passwordField, bIsNewer);
    merged := merged.(passwordField := text);
    text := TakeField(merged.usernameField, b.usernameField, bIsNewer);
    merged := merged.(usernameField := text);
    merged := merged.(timesUsed := merged.timesUsed + b.timesUsed);
  }

  /** One field after its change, if there is one. */
  method ApplyField<T>(field: T, change: Option<T>) returns (r: T)
    ensures r == Or(change, field)
  {
    r := field;
    if change.Some? {
      r := change.value;
    }
  }

  /** Some("") stands for a change to no target. */
  method ApplyTarget(target: Option<string>, change: Option<string>) returns (r: Option<string>)
    ensures r == TargetOr(change, target)
  {
    r := target;
    if change.Some? {
      r := if change.value == "" then None else change;
    }
  }

  method ApplyDelta(login: Login, delta: LoginDelta) returns (r: Login)
    ensures r == Applied(login, delta)
  {
    r := login;
    var text := ApplyField(r.hostname, delta.hostname);
    r := r.(hostname := text);
    text := ApplyField(r.password, delta.password);
    r := r.(password := text);
    text := ApplyField(r.username, delta.username);
    r := r.(username := text);
    var time := ApplyField(r.timeCreated, delta.timeCreated);
    r := r.(timeCreated := time);
    time := ApplyField(r.timeLastUsed, delta.timeLastUsed);
    r := r.(timeLastUsed := time);
    time := ApplyField(r.timePasswordChanged, delta.timePasswordChanged);
    r := r.(timePasswordChanged := time);
    text := ApplyField(r.passwordField, delta.passwordField);
    r := r.(passwordField := text);
    text := ApplyField(r.usernameField, delta.usernameField);
    r := r.(usernameField := text);
    var target := ApplyTarget(r.httpRealm, delta.httpRealm);
    r := r.(httpRealm := target);
    target := ApplyTarget(r.formSubmitUrl, delta.formSubmitUrl);
    r := r.(formSubmitUrl := target);
    r := r.(timesUsed := r.timesUsed + delta.timesUsed);
  }

  // ----- what they mean together

  /** Preferring the newer side does not depend on which side is called `b`. */
  lemma MergeIsSymmetric(a: LoginDelta, b: LoginDelta)
    ensures Merged(a, b, true) == Merged(b, a, false)
  {
  }

  /** A target that can be told apart from "no target" in a delta. */
  predicate TargetSurvives(now: Option<string>, older: Option<string>) {
    now == older || now != Some("")
  }

  /** A number that a delta does not mistake for missing. */
  predicate NumberSurvives(now: int, older: int) {
    now == older || now > 0
  }

  /** Applying a delta to the older login gives the newer one back, apart from
      the id, exactly when no changed target is the empty string and no changed
      time or count is zero or negative. */
  lemma DeltaRoundTrip(now: Login, older: Login)
    ensures Applied(older, DeltaOf(now, older)) == now.(id := older.id) <==>
      && TargetSurvives(now.formSubmitUrl, older.formSubmitUrl) && TargetSurvives(now.httpRealm, older.httpRealm)
      && NumberSurvives(now.timeCreated, older.timeCreated) && NumberSurvives(now.timeLastUsed, older.timeLastUsed)
      && NumberSurvives(now.timePasswordChanged, older.timePasswordChanged)
      && NumberSurvives(now.timesUsed, older.timesUsed)
  {
    var r := Applied(older, DeltaOf(now, older));
    assert r.formSubmitUrl == now.formSubmitUrl <==> TargetSurvives(now.formSubmitUrl, older.formSubmitUrl);
    assert r.httpRealm == now.httpRealm <==> TargetSurvives(now.httpRealm, older.httpRealm);
    assert r.timesUsed == now.timesUsed <==> NumberSurvives(now.timesUsed, older.timesUsed);
  }

  /** A target changed to the empty string comes back as no target. */
  lemma EmptyTargetIsLost(l: Login)
    requires l.formSubmitUrl == Some("target")
    ensures Applied(l, DeltaOf(l.(formSubmitUrl := Some("")), l)).formSubmitUrl == None
  {
  }

  /** A field changed on one side takes that side; changed on both, the newer side. */
  function Pick<T(==)>(local: T, shared: T, upstream: T, upstreamIsNewer: bool): T {
    if upstream == shared then local
    else if local == shared || upstreamIsNewer then upstream
    else local
  }

  /** The empty-string target cannot be stored by a merge. */
  function Stored(target: Option<string>, shared: Option<string>): Option<string> {
    if target != shared && target == Some("") then None else target
  }

  /** A time or count that is not positive counts as unchanged. */
  function Known(n: int, shared: int): int {
    if n > 0 then n else shared
  }

  function ThreeWay(local: Login, shared: Login, upstream: Login, upstreamIsNewer: bool): Login {
    Applied(shared, Merged(DeltaOf(local, shared), DeltaOf(upstream, shared), upstreamIsNewer))
  }

  /** The three-way merge, field by field and for all inputs: one-sided changes
      survive, two-sided ones take the newer side, and the use counts of both
      sides add up. */
  lemma ThreeWayMergesFields(local: Login, shared: Login, upstream: Login, newer: bool)
    ensures var m := ThreeWay(local, shared, upstream, newer);
      && m.id == shared.id
      && m.hostname == Pick(local.hostname, shared.hostname, upstream.hostname, newer)
      && m.username == Pick(local.username, shared.username, upstream.username, newer)
      && m.password == Pick(local.password, shared.password, upstream.password, newer)
      && m.usernameField == Pick(local.usernameField, shared.usernameField, upstream.usernameField, newer)
      && m.passwordField == Pick(local.passwordField, shared.passwordField, upstream.passwordField, newer)
      && m.formSubmitUrl == Stored(Pick(local.formSubmitUrl, shared.formSubmitUrl, upstream.formSubmitUrl, newer), shared.formSubmitUrl)
      && m.httpRealm == Stored(Pick(local.httpRealm, shared.httpRealm, upstream.httpRealm, newer), shared.httpRealm)
      && m.timeCreated == Pick(Known(local.timeCreated, shared.timeCreated), shared.timeCreated,
                               Known(upstream.timeCreated, shared.timeCreated), newer)
      && m.timeLastUsed == Pick(Known(local.timeLastUsed, shared.timeLastUsed), shared.timeLastUsed,
                                Known(upstream.timeLastUsed, shared.timeLastUsed), newer)
      && m.timePasswordChanged == Pick(Known(local.timePasswordChanged, shared.timePasswordChanged), shared.timePasswordChanged,
                                       Known(upstream.timePasswordChanged, shared.timePasswordChanged), newer)
      && m.timesUsed == Known(local.timesUsed, shared.timesUsed) + Known(upstream.timesUsed, shared.timesUsed) - shared.timesUsed
  {
    TargetMerges(local.formSubmitUrl, shared.formSubmitUrl, upstream.formSubmitUrl, newer);
    TargetMerges(local.httpRealm, shared.httpRealm, upstream.httpRealm, newer);
    FieldMerges(local.hostname, shared.hostname, upstream.hostname, newer);
    FieldMerges(local.username, shared.username, upstream.username, newer);
    FieldMerges(local.password, shared.password, upstream.password, newer);
    FieldMerges(local.usernameField, shared.usernameField, upstream.usernameField, newer);
    FieldMerges(local.passwordField, shared.passwordField, upstream.passwordField, newer);
    TimeMerges(local.timeCreated, shared.timeCreated, upstream.timeCreated, newer);
    TimeMerges(local.timeLastUsed, shared.timeLastUsed, upstream.timeLastUsed, newer);
    TimeMerges(local.timePasswordChanged, shared.timePasswordChanged, upstream.timePasswordChanged, newer);
  }

  lemma FieldMerges(local: string, shared: string, upstream: string, newer: bool)
    ensures Or(MergeField(Change(local, shared), Change(upstream, shared), newer), shared) == Pick(local, shared, upstream, newer)
  {
  }

  lemma TimeMerges(local: int, shared: int, upstream: int, newer: bool)
    ensures Or(MergeField(TimeChange(local, shared), TimeChange(upstream, shared), newer), shared)
         == Pick(Known(local, shared), shared, Known(upstream, shared), newer)
  {
  }

  lemma TargetMerges(local: Option<string>, shared: Option<string>, upstream: Option<string>, newer: bool)
    ensures TargetOr(MergeField(TargetChange(local, shared), TargetChange(upstream, shared), newer), shared)
         == Stored(Pick(local, shared, upstream, newer), shared)
  {
  }

  /** Both clients of a conflict compute the same merge, whichever side each calls local. */
  lemma ThreeWayIsSymmetric(a: Login, shared: Login, b: Login)
    ensures ThreeWay(a, shared, b, true) == ThreeWay(b, shared, a, false)
  {
    MergeIsSymmetric(DeltaOf(a, shared), DeltaOf(b, shared));
  }
}
