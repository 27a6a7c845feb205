/**
 What every run of store operations keeps, for one guid: consistency of the two
 tables, deletions that win, and the confirmation of uploads in chunks.
 */
module LoginRuns {
  import opened Wrappers
  import opened LoginRecord
  import opened LoginCells
  import opened LoginPlan

  // ----- incoming changesets

  lemma ReconciledIsConsistent(ds: seq<SyncData>, g: Guid, c: Cell, dupe: DupeFinder, clocks: Clocks, now: int)
    requires Tidy(c)
    ensures Tidy(Reconciled(ds, g, c, dupe, clocks, now))
    ensures Consistent(c) ==> Consistent(Reconciled(ds, g, c, dupe, clocks, now))
  {
  }

  /** After any changeset, a guid with an inbound tombstone is in neither table. */
  lemma InboundDeletionWins(ds: seq<SyncData>, g: Guid, c: Cell, dupe: DupeFinder, clocks: Clocks, now: int)
    requires Find(ds, g).Some? && Find(ds, g).value.inbound.None?
    ensures Reconciled(ds, g, c, dupe, clocks, now) == EMPTY
  {
  }

  /** A local tombstone with a mirror row never becomes visible; it is still sent
      exactly unless the inbound record deletes the login too or an incoming
      duplicate takes the row away. */
  lemma LocalDeletionWins(ds: seq<SyncData>, g: Guid, c: Cell, dupe: DupeFinder, clocks: Clocks, now: int)
    requires Tidy(c) && c.local.Some? && c.local.value.isDeleted && c.mirror.Some?
    ensures var r := Reconciled(ds, g, c, dupe, clocks, now);
      && Visible(r) == None
      && (Outgoing(r) == Some(Tombstone(c.local.value.login.id)) <==>
            !(Find(ds, g).Some? && Find(ds, g).value.inbound.None?) && !IsReplaced(ds, dupe, g))
  {
  }

  /** Without a mirror row a local tombstone stays hidden exactly when it is newer
      than the password of the incoming login. */
  lemma UnknownDeletionMayLose(ds: seq<SyncData>, g: Guid, c: Cell, dupe: DupeFinder, clocks: Clocks, now: int)
    requires c.local.Some? && c.local.value.isDeleted && c.mirror.None?
    requires Find(ds, g).Some? && Find(ds, g).value.inbound.Some?
    ensures var up := Find(ds, g).value.inbound.value;
      Visible(Reconciled(ds, g, c, dupe, clocks, now)) == (if c.local.value.login.timePasswordChanged > up.timePasswordChanged then None else Some(up))
  {
  }

  // ----- what an incoming login makes of the rows of its guid

  /** The incoming version of a login is younger than the local one; a time ahead of its clock counts as now. */
  predicate TheirsIsYounger(modified: int, time: int, clocks: Clocks) {
    if modified >= clocks.local then false
    else if time >= clocks.server then true
    else clocks.server - time < clocks.local - modified
  }

  /** `merged` is the three-way merge of both versions over what they share;
      the creation time is the local one. */
  ghost predicate IsMerge(mine: Login, shared: Login, theirs: Login, younger: bool, merged: Login) {
    && merged.id == mine.id && merged.timeCreated == mine.timeCreated
    && merged.hostname == Pick(mine.hostname, shared.hostname, theirs.hostname, younger)
    && merged.username == Pick(mine.username, shared.username, theirs.username, younger)
    && merged.password == Pick(mine.password, shared.password, theirs.password, younger)
    && merged.usernameField == Pick(mine.usernameField, shared.usernameField, theirs.usernameField, younger)
    && merged.passwordField == Pick(mine.passwordField, shared.passwordField, theirs.passwordField, younger)
    && merged.formSubmitUrl == Stored(Pick(mine.formSubmitUrl, shared.formSubmitUrl, theirs.formSubmitUrl, younger), shared.formSubmitUrl)
    && merged.httpRealm == Stored(Pick(mine.httpRealm, shared.httpRealm, theirs.httpRealm, younger), shared.httpRealm)
    && merged.timeLastUsed == Pick(Known(mine.timeLastUsed, shared.timeLastUsed), shared.timeLastUsed,
                                   Known(theirs.timeLastUsed, shared.timeLastUsed), younger)
    && merged.timePasswordChanged == Pick(Known(mine.timePasswordChanged, shared.timePasswordChanged), shared.timePasswordChanged,
                                          Known(theirs.timePasswordChanged, shared.timePasswordChanged), younger)
    && merged.timesUsed == Known(mine.timesUsed, shared.timesUsed) + Known(theirs.timesUsed, shared.timesUsed) - shared.timesUsed
  }

  /** `after` is the incoming login in the place of `before`; a time or count of zero is not taken over. */
  predicate IsTakenOver(before: Login, theirs: Login, after: Login) {
    && SameEntry(after, theirs) && after.id == before.id
    && after.timeCreated == (if theirs.timeCreated != 0 then theirs.timeCreated else before.timeCreated)
    && after.timeLastUsed == (if theirs.timeLastUsed != 0 then theirs.timeLastUsed else before.timeLastUsed)
    && after.timePasswordChanged == (if theirs.timePasswordChanged != 0 then theirs.timePasswordChanged else before.timePasswordChanged)
    && after.timesUsed == (if theirs.timesUsed != 0 then theirs.timesUsed else before.timesUsed)
  }

  /** The rows of a guid before and after a login arrives for it at `time`. */
  ghost predicate Receives(c: Cell, up: Login, time: int, dupe: DupeFinder, clocks: Clocks, now: int, c': Cell) {
    && c'.mirror.Some? && c'.mirror.value.serverModified == time
    && (c.mirror.Some? ==>
          && IsTakenOver(c.mirror.value.login, up, c'.mirror.value.login)
          && c'.mirror.value.isOverridden == c.mirror.value.isOverridden)
    && (c.mirror.None? ==> c'.mirror.value.login == up)
    && (c.local.None? ==> c'.local.None?)
    && (c.local.Some? && c.mirror.Some? ==>
          && c'.local.Some? && c'.local.value.isDeleted == c.local.value.isDeleted
          && c'.local.value.status == Changed && c'.local.value.localModified == now
          && IsMerge(c.local.value.login, c.mirror.value.login, up,
                     TheirsIsYounger(c.local.value.localModified, time, clocks), c'.local.value.login))
    && (c.local.Some? && c.mirror.None? ==>
          var newer := c.local.value.login.timePasswordChanged > up.timePasswordChanged;
          c'.local == (if newer then c.local else None) && c'.mirror.value.isOverridden == newer)
    && (c == EMPTY ==>
          c'.mirror.value.isOverridden == (dupe(up).Some? && dupe(up).value.timePasswordChanged > up.timePasswordChanged))
  }

  /** What a changeset makes of a guid it has a login for, unless another record
      replaces the local row as its duplicate. */
  lemma LoginArrives(ds: seq<SyncData>, g: Guid, c: Cell, dupe: DupeFinder, clocks: Clocks, now: int)
    requires Find(ds, g).Some? && Find(ds, g).value.inbound.Some? && !IsReplaced(ds, dupe, g)
    ensures Receives(c, Find(ds, g).value.inbound.value, Find(ds, g).value.time, dupe, clocks, now, Reconciled(ds, g, c, dupe, clocks, now))
  {
    var d := Find(ds, g).value;
    if c.local.Some? && c.mirror.Some? {
      var local := c.local.value;
      assert UpstreamIsNewer(local, d.time, clocks) == TheirsIsYounger(local.localModified, d.time, clocks);
      ThreeWayMergesFields(local.login, c.mirror.value.login, d.inbound.value, UpstreamIsNewer(local, d.time, clocks));
    }
  }

  /** A login that is new here and no duplicate is shown as it came. */
  lemma NewLoginShows(ds: seq<SyncData>, g: Guid, dupe: DupeFinder, clocks: Clocks, now: int)
    requires Find(ds, g).Some? && Find(ds, g).value.inbound.Some? && dupe(Find(ds, g).value.inbound.value).None?
    ensures Visible(Reconciled(ds, g, EMPTY, dupe, clocks, now)) == Find(ds, g).value.inbound
  {
  }

  /** A changeset leaves a mirror row hidden without a local row exactly when it
      does not delete the login and either its local row is replaced as a
      duplicate or it came as a duplicate of a login with a newer password. */
  lemma OrphanedIff(ds: seq<SyncData>, g: Guid, c: Cell, dupe: DupeFinder, clocks: Clocks, now: int)
    requires Consistent(c) && !IsOrphan(c)
    ensures IsOrphan(Reconciled(ds, g, c, dupe, clocks, now)) <==>
      var up := if Find(ds, g).Some? then Find(ds, g).value.inbound else None;
      && (Find(ds, g).Some? ==> up.Some?)
      && (if c == EMPTY then up.Some? && dupe(up.value).Some? && dupe(up.value).value.timePasswordChanged > up.value.timePasswordChanged
          else IsReplaced(ds, dupe, g) && c.local.Some?
               && (c.mirror.Some? || (up.Some? && c.local.value.login.timePasswordChanged > up.value.timePasswordChanged)))
  {
  }

  // ----- confirming uploads

  function Min(a: nat, b: nat): nat {
    if a <= b then a else b
  }

  /** The cell after the confirmation went over the guids in chunks of `n`. */
  function Marked(guids: seq<Guid>, n: nat, g: Guid, c: Cell, ts: int): Cell
    requires n > 0
  {
    if guids == [] then c
    else
      var k := Min(n, |guids|);
      Marked(guids[k..], n, g, if g in guids[..k] then SyncedCell(c, ts) else c, ts)
  }

  /** How many of the chunks name a guid. */
  ghost function ChunksNaming(guids: seq<Guid>, n: nat, g: Guid): nat
    requires n > 0
  {
    if guids == [] then 0
    else
      var k := Min(n, |guids|);
      (if g in guids[..k] then 1 else 0) + ChunksNaming(guids[k..], n, g)
  }

  lemma {:induction false} MarkedByChunks(guids: seq<Guid>, n: nat, g: Guid, c: Cell, ts: int)
    requires n > 0
    ensures Marked(guids, n, g, c, ts) ==
      match ChunksNaming(guids, n, g) case 0 => c case 1 => SyncedCell(c, ts) case _ => EMPTY
  {
    if guids != [] {
      var k := Min(n, |guids|);
      MarkedByChunks(guids[k..], n, g, if g in guids[..k] then SyncedCell(c, ts) else c, ts);
    }
  }

  lemma {:induction false} NamedIffListed(guids: seq<Guid>, n: nat, g: Guid)
    requires n > 0
    ensures ChunksNaming(guids, n, g) > 0 <==> g in guids
  {
    if guids != [] {
      var k := Min(n, |guids|);
      NamedIffListed(guids[k..], n, g);
      assert guids == guids[..k] + guids[k..];
    }
  }

  /** Going chunk by chunk does the same as confirming the whole list at once,
      exactly unless two chunks name a guid whose local row is live. */
  lemma ChunkingIsHarmless(guids: seq<Guid>, n: nat, g: Guid, c: Cell, ts: int)
    requires n > 0
    ensures Marked(guids, n, g, c, ts) == (if g in guids then SyncedCell(c, ts) else c)
      <==> ChunksNaming(guids, n, g) <= 1 || !IsLive(c)
  {
    MarkedByChunks(guids, n, g, c, ts);
    NamedIffListed(guids, n, g);
  }

  ghost predicate Distinct(guids: seq<Guid>) {
    forall i, j | 0 <= i < j < |guids| :: guids[i] != guids[j]
  }

  lemma {:induction false} DistinctNamedOnce(guids: seq<Guid>, n: nat, g: Guid)
    requires n > 0 && Distinct(guids)
    ensures ChunksNaming(guids, n, g) <= 1
  {
    if guids != [] {
      var k := Min(n, |guids|);
      DistinctNamedOnce(guids[k..], n, g);
      NamedIffListed(guids[k..], n, g);
    }
  }

  /** Confirming takes exactly the named guids from what is to be sent. It changes
      what the user sees exactly for a visible login that has no local row or is
      named by two chunks. */
  lemma ConfirmedUpload(guids: seq<Guid>, n: nat, g: Guid, c: Cell, ts: int)
    requires n > 0 && Tidy(c)
    ensures var r := Marked(guids, n, g, c, ts);
      && Outgoing(r) == (if g in guids then None else Outgoing(c))
      && (Visible(r) == Visible(c) <==> !(g in guids && Visible(c).Some? && (c.local.None? || ChunksNaming(guids, n, g) > 1)))
      && (ChunksNaming(guids, n, g) == 1 && IsLive(c) ==> r == Cell(None, Some(MirrorRow(c.local.value.login, false, ts))))
  {
    MarkedByChunks(guids, n, g, c, ts);
    NamedIffListed(guids, n, g);
  }

  /** For distinct guids that all have a local row nothing the user sees changes. */
  lemma DistinctUpload(guids: seq<Guid>, n: nat, g: Guid, c: Cell, ts: int)
    requires n > 0 && Tidy(c) && Distinct(guids) && (g in guids ==> c.local.Some?)
    ensures var r := Marked(guids, n, g, c, ts);
      Visible(r) == Visible(c) && Outgoing(r) == if g in guids then None else Outgoing(c)
  {
    ConfirmedUpload(guids, n, g, c, ts);
    DistinctNamedOnce(guids, n, g);
  }

  /** Whatever the size of a chunk, a guid repeated once more than fits in one is
      lost, although the user saw it. */
  lemma RepeatedGuidIsLost(n: nat, g: Guid, c: Cell, ts: int)
    requires n > 0 && IsLive(c)
    ensures Visible(c).Some? && Marked(seq(n + 1, _ => g), n, g, c, ts) == EMPTY
  {
    var guids := seq(n + 1, _ => g);
    assert guids[n..] == [g] && guids[..n][0] == g && [g][Min(n, 1)..] == [] && [g][..Min(n, 1)] == [g];
    assert ChunksNaming([g], n, g) == 1;
    assert Min(n, |guids|) == n && g in guids[..n];
    assert ChunksNaming(guids, n, g) == 1 + ChunksNaming(guids[n..], n, g);
    MarkedByChunks(guids, n, g, c, ts);
  }

  // ----- runs

  datatype Op =
    | Add(login: Login, now: int)
    | Update(login: Login, now: int)
    | Touch(guid: Guid, now: int)
    | Delete(guid: Guid, now: int)
    | Wipe(now: int)
    | WipeLocal
    | Reset
    | ApplyIncoming(data: seq<SyncData>, dupe: DupeFinder, clocks: Clocks, now: int)
    | Finish(guids: seq<Guid>, chunk: nat, ts: int)

  /** One operation, seen from one guid. */
  ghost function Step(op: Op, g: Guid, c: Cell): Cell {
    match op
    case Add(l, now) => if l.id == g && CheckValid(l).None? then AddedCell(c, l, now) else c
    case Update(l, now) => if l.id == g && CheckValid(l).None? then UpdatedCell(c, l, now) else c
    case Touch(id, now) => if id == g then TouchedCell(c, now) else c
    case Delete(id, now) => if id == g then DeletedCell(c, now) else c
    case Wipe(now) => WipedCell(c, now)
    case WipeLocal => EMPTY
    case Reset => ResetCell(c)
    case ApplyIncoming(ds, dupe, clocks, now) => Reconciled(ds, g, c, dupe, clocks, now)
    case Finish(guids, n, ts) => if n == 0 then c else Marked(guids, n, g, c, ts)
  }

  ghost function Run(ops: seq<Op>, g: Guid, c: Cell): Cell {
    if ops == [] then c else Step(ops[|ops| - 1], g, Run(ops[..|ops| - 1], g, c))
  }

  /** The operation does not add a login under a guid that the mirror already shows. */
  ghost predicate AddsNothingShown(op: Op, g: Guid, c: Cell) {
    op.Add? && op.login.id == g && CheckValid(op.login).None? ==> c.local.Some? || !MirrorShows(c)
  }

  ghost predicate CleanRun(ops: seq<Op>, g: Guid, c: Cell) {
    ops == [] || (
      && CleanRun(ops[..|ops| - 1], g, c)
      && AddsNothingShown(ops[|ops| - 1], g, Run(ops[..|ops| - 1], g, c)))
  }

  lemma StepKeepsTidy(op: Op, g: Guid, c: Cell)
    requires Tidy(c)
    ensures Tidy(Step(op, g, c))
  {
    match op {
      case ApplyIncoming(ds, dupe, clocks, now) => ReconciledIsConsistent(ds, g, c, dupe, clocks, now);
      case Finish(guids, n, ts) =>
        if n > 0 {
          MarkedByChunks(guids, n, g, c, ts);
        }
      case _ =>
    }
  }

  /** A consistent cell stays consistent in one step exactly when the step does
      not add a login under a guid that the mirror already shows. */
  lemma StepKeepsConsistent(op: Op, g: Guid, c: Cell)
    requires Consistent(c)
    ensures Consistent(Step(op, g, c)) <==> AddsNothingShown(op, g, c)
  {
    StepKeepsTidy(op, g, c);
    match op {
      case ApplyIncoming(ds, dupe, clocks, now) => ReconciledIsConsistent(ds, g, c, dupe, clocks, now);
      case Finish(guids, n, ts) =>
        if n > 0 {
          MarkedByChunks(guids, n, g, c, ts);
        }
      case _ =>
    }
  }

  /** Over every run, starting from the empty tables, no guid is ever listed twice. */
  lemma {:induction false} NeverListedTwice(ops: seq<Op>, g: Guid)
    requires CleanRun(ops, g, EMPTY)
    ensures Consistent(Run(ops, g, EMPTY))
    ensures |Listed(Run(ops, g, EMPTY))| <= 1
  {
    if ops != [] {
      NeverListedTwice(ops[..|ops| - 1], g);
      StepKeepsConsistent(ops[|ops| - 1], g, Run(ops[..|ops| - 1], g, EMPTY));
    }
    ListedIsVisible(Run(ops, g, EMPTY));
  }

  /** The exception is real: adding under a guid that came from the server lists it twice. */
  lemma AddOverMirrorListsTwice(l: Login, up: Login, now: int)
    requires CheckValid(l).None? && up.id == l.id
    ensures var incoming := SyncData(l.id, EMPTY, Some(up), now);
      |Listed(Run([ApplyIncoming([incoming], _ => None, Clocks(now, now), now), Add(l, now)], l.id, EMPTY))| == 2
  {
    var incoming := SyncData(l.id, EMPTY, Some(up), now);
    var ops := [ApplyIncoming([incoming], _ => None, Clocks(now, now), now), Add(l, now)];
    assert ops[..1] == [ops[0]] && ops[..1][..0] == [];
    var c := Step(ops[0], l.id, EMPTY);
    assert Find([incoming], l.id) == Some(incoming);
    assert c.local == None && MirrorShows(c);
    assert Run(ops[..1], l.id, EMPTY) == c;
  }

  /** A login that came from the server, deleted here before a reset, comes back
      with the next record that has the same or a newer password. */
  lemma DeletionUndoneAfterReset(up: Login, now: int)
    requires up.timePasswordChanged >= now
    ensures var incoming := ApplyIncoming([SyncData(up.id, EMPTY, Some(up), now)], _ => None, Clocks(now, now), now);
      var deleted := Run([incoming, Delete(up.id, now), Reset], up.id, EMPTY);
      var again := ApplyIncoming([SyncData(up.id, deleted, Some(up), now)], _ => None, Clocks(now, now), now);
      && deleted.local.Some? && deleted.local.value.isDeleted && deleted.mirror.None?
      && Visible(Step(again, up.id, deleted)) == Some(up)
  {
    var d := SyncData(up.id, EMPTY, Some(up), now);
    var ops := [ApplyIncoming([d], _ => None, Clocks(now, now), now), Delete(up.id, now), Reset];
    var c := Cell(None, Some(MirrorRow(up, false, now)));
    assert ops[..2] == [ops[0], ops[1]] && ops[..2][..1] == [ops[0]] && [ops[0]][..0] == [];
    assert Find([d], up.id) == Some(d);
    assert Run([ops[0]], up.id, EMPTY) == c;
    assert Run(ops[..2], up.id, EMPTY) == DeletedCell(c, now);
    var deleted := Run(ops, up.id, EMPTY);
    assert deleted == ResetCell(DeletedCell(c, now));
    UnknownDeletionMayLose([SyncData(up.id, deleted, Some(up), now)], up.id, deleted, _ => None, Clocks(now, now), now);
  }

  /** A record that duplicates a local login with a newer password is stored
      hidden; a reset then shows it. */
  lemma DuplicateLeavesOrphan(up: Login, mine: Login, now: int)
    requires mine.timePasswordChanged > up.timePasswordChanged
    ensures var incoming := ApplyIncoming([SyncData(up.id, EMPTY, Some(up), now)], _ => Some(mine), Clocks(now, now), now);
      var c := Step(incoming, up.id, EMPTY);
      IsOrphan(c) && Visible(c) == None && Visible(Step(Reset, up.id, c)) == Some(up)
  {
    var d := SyncData(up.id, EMPTY, Some(up), now);
    assert Find([d], up.id) == Some(d);
  }
}
