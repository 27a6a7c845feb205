/**
 The two login tables seen from one guid.

 Every statement of the store touches each guid on its own, so the store is
 described by what happens to a cell: the local row and the mirror row of one
 guid, either of which may be missing.
 */
module LoginCells {
  import opened Wrappers
  import opened LoginRecord

  datatype SyncStatus = Synced | Changed | New

  datatype LocalRow = LocalRow(login: Login, status: SyncStatus, isDeleted: bool, localModified: int)

  datatype MirrorRow = MirrorRow(login: Login, isOverridden: bool, serverModified: int)

  datatype Cell = Cell(local: Option<LocalRow>, mirror: Option<MirrorRow>)

  const EMPTY: Cell := Cell(None, None)

  /** A record as it travels: a login or the tombstone of one. */
  datatype Payload = Tombstone(guid: Guid) | Record(login: Login)

  // ----- what a cell shows

  predicate IsLive(c: Cell) {
    c.local.Some? && !c.local.value.isDeleted
  }

  predicate MirrorShows(c: Cell) {
    c.mirror.Some? && !c.mirror.value.isOverridden
  }

  /** The rows a listing of all logins has for this guid. */
  function Listed(c: Cell): seq<Login> {
    (if IsLive(c) then [c.local.value.login] else []) + (if MirrorShows(c) then [c.mirror.value.login] else [])
  }

  /** The login the user sees. */
  function Visible(c: Cell): Option<Login> {
    if IsLive(c) then Some(c.local.value.login)
    else if MirrorShows(c) then Some(c.mirror.value.login)
    else None
  }

  /** What the next upload sends. */
  function Outgoing(c: Cell): Option<Payload> {
    if c.local.None? || c.local.value.status == Synced then None
    else if c.local.value.isDeleted then Some(Tombstone(c.local.value.login.id))
    else Some(Record(c.local.value.login))
  }

  /** A local tombstone waits to be sent and hides the mirror row. */
  ghost predicate Tidy(c: Cell) {
    c.local.Some? && c.local.value.isDeleted ==> c.local.value.status != Synced && !MirrorShows(c)
  }

  /** A tidy cell whose local row, if any, hides the mirror row. */
  ghost predicate Consistent(c: Cell) {
    Tidy(c) && (c.local.Some? ==> !MirrorShows(c))
  }

  /** A mirror row that is hidden although no local row replaces it. */
  predicate IsOrphan(c: Cell) {
    c.local.None? && c.mirror.Some? && c.mirror.value.isOverridden
  }

  /** A consistent cell is listed at most once, and the listing is what the user sees. */
  lemma ListedIsVisible(c: Cell)
    requires Consistent(c)
    ensures Listed(c) == if Visible(c).Some? then [Visible(c).value] else []
  {
  }

  // ----- local changes

  function Overridden(m: Option<MirrorRow>): Option<MirrorRow> {
    match m
    case None => None
    case Some(row) => Some(row.(isOverridden := true))
  }

  /** The local row that takes over from a mirror row. */
  function Cloned(m: MirrorRow): LocalRow {
    LocalRow(m.login, Synced, false, 0)
  }

  /** The local row, or a clone of the mirror row. */
  function Overlay(c: Cell): Option<LocalRow> {
    if c.local.Some? then c.local
    else if c.mirror.Some? then Some(Cloned(c.mirror.value))
    else None
  }

  function AddedRow(login: Login, now: int): LocalRow {
    LocalRow(login.(timeCreated := now, timePasswordChanged := now, timeLastUsed := now, timesUsed := 1), New, false, now)
  }

  function AddedCell(c: Cell, login: Login, now: int): Cell {
    if c.local.Some? then c else Cell(Some(AddedRow(login, now)), c.mirror)
  }

  function TouchedLogin(l: Login, now: int): Login {
    l.(timeLastUsed := now, timesUsed := l.timesUsed + 1)
  }

  function TouchedRow(row: LocalRow, now: int): LocalRow {
    if row.isDeleted then row else row.(login := TouchedLogin(row.login, now), localModified := now)
  }

  function TouchedCell(c: Cell, now: int): Cell {
    match Overlay(c)
    case None => c
    case Some(row) => Cell(Some(TouchedRow(row, now)), Overridden(c.mirror))
  }

  /** The login `l` in the place of the stored login `w`. */
  function UpdatedLogin(w: Login, l: Login, now: int): Login {
    l.(id := w.id, timeCreated := w.timeCreated, timeLastUsed := now, timesUsed := w.timesUsed + 1,
       timePasswordChanged := if w.password == l.password then w.timePasswordChanged else now)
  }

  function UpdatedRow(row: LocalRow, l: Login, now: int): LocalRow {
    row.(localModified := now, status := if row.status == New then New else Changed, login := UpdatedLogin(row.login, l, now))
  }

  function UpdatedCell(c: Cell, l: Login, now: int): Cell {
    match Overlay(c)
    case None => c
    case Some(row) => Cell(Some(UpdatedRow(row, l, now)), Overridden(c.mirror))
  }

  /** A row turned into a tombstone, its sensitive fields cleared. */
  function Buried(row: LocalRow, now: int): LocalRow {
    row.(localModified := now, status := Changed, isDeleted := true,
         login := row.login.(password := "", hostname := "", username := ""))
  }

  /** The tombstone of a login that only the mirror has. */
  function FreshTombstone(m: MirrorRow, now: int): LocalRow {
    LocalRow(Login(m.login.id, "", None, None, "", "", "", "", m.login.timeCreated, now, 0, 0), Changed, true, now)
  }

  function OrFreshTombstone(local: Option<LocalRow>, m: Option<MirrorRow>, now: int): Option<LocalRow> {
    if local.None? && m.Some? then Some(FreshTombstone(m.value, now)) else local
  }

  /** The local row unless it never left this device. */
  function UnlessNew(local: Option<LocalRow>): Option<LocalRow> {
    if local.Some? && local.value.status == New then None else local
  }

  function DeletedCell(c: Cell, now: int): Cell {
    var kept := UnlessNew(c.local);
    var buried := if kept.Some? then Some(Buried(kept.value, now)) else None;
    Cell(OrFreshTombstone(buried, c.mirror, now), Overridden(c.mirror))
  }

  function WipedCell(c: Cell, now: int): Cell {
    var kept := UnlessNew(c.local);
    var buried := if kept.Some? && !kept.value.isDeleted then Some(Buried(kept.value, now)) else kept;
    Cell(OrFreshTombstone(buried, c.mirror, now), Overridden(c.mirror))
  }

  function ResetCell(c: Cell): Cell {
    match Overlay(c)
    case None => EMPTY
    case Some(row) => Cell(Some(row.(status := New)), None)
  }

  /** The cell once its upload is confirmed. */
  function SyncedCell(c: Cell, ts: int): Cell {
    Cell(None, if IsLive(c) then Some(MirrorRow(c.local.value.login, false, ts)) else None)
  }

  // ----- what the local changes do to what the user sees

  /** The login a change of the guid starts from: the visible one, or that of a hidden orphan. */
  function Changeable(c: Cell): Option<Login> {
    if IsOrphan(c) then Some(c.mirror.value.login) else Visible(c)
  }

  /** The same login as far as the user enters it. */
  predicate SameEntry(a: Login, b: Login) {
    && a.hostname == b.hostname && a.username == b.username && a.password == b.password
    && a.formSubmitUrl == b.formSubmitUrl && a.httpRealm == b.httpRealm
    && a.usernameField == b.usernameField && a.passwordField == b.passwordField
  }

  /** `after` is the stored login `before` once the user entered `l`. */
  predicate IsUpdate(before: Login, l: Login, now: int, after: Login) {
    && SameEntry(after, l) && after.id == before.id && after.timeCreated == before.timeCreated
    && after.timesUsed == before.timesUsed + 1 && after.timeLastUsed == now
    && (before.password != l.password ==> after.timePasswordChanged == now)
    && (before.password == l.password ==> after.timePasswordChanged == before.timePasswordChanged)
  }

  /** `after` is `before` after one more use. */
  predicate IsUse(before: Login, now: int, after: Login) {
    && SameEntry(after, before) && after.id == before.id && after.timeCreated == before.timeCreated
    && after.timesUsed == before.timesUsed + 1 && after.timeLastUsed == now && after.timePasswordChanged == before.timePasswordChanged
  }

  /** `after` is the new login `l`, stored at `now`. */
  predicate IsAddition(l: Login, now: int, after: Login) {
    && SameEntry(after, l) && after.id == l.id && after.timeCreated == now
    && after.timesUsed == 1 && after.timeLastUsed == now && after.timePasswordChanged == now
  }

  /** Adding keeps the tables consistent exactly when the mirror does not
      already show a login under that guid or the local table has one. */
  lemma AddEffect(c: Cell, login: Login, now: int)
    ensures c.local.None? ==>
      && Visible(AddedCell(c, login, now)) == Some(AddedRow(login, now).login)
      && Outgoing(AddedCell(c, login, now)) == Some(Record(AddedRow(login, now).login))
      && IsAddition(login, now, AddedRow(login, now).login)
    ensures Tidy(c) ==> Tidy(AddedCell(c, login, now))
    ensures Consistent(c) ==> (Consistent(AddedCell(c, login, now)) <==> c.local.Some? || !MirrorShows(c))
  {
  }

  /** A visible login is replaced by the update; a deleted one stays deleted. */
  lemma UpdateEffect(c: Cell, l: Login, now: int)
    requires Tidy(c)
    ensures Consistent(UpdatedCell(c, l, now))
    ensures Visible(UpdatedCell(c, l, now)) == match Changeable(c) case None => None case Some(w) => Some(UpdatedLogin(w, l, now))
    ensures Changeable(c).Some? ==> IsUpdate(Changeable(c).value, l, now, UpdatedLogin(Changeable(c).value, l, now))
    ensures c != EMPTY ==> Outgoing(UpdatedCell(c, l, now)).Some?
  {
  }

  /** Touching counts one more use of a visible login, and is not a change to upload. */
  lemma TouchEffect(c: Cell, now: int)
    requires Tidy(c)
    ensures Consistent(TouchedCell(c, now))
    ensures Visible(TouchedCell(c, now)) == match Changeable(c) case None => None case Some(w) => Some(TouchedLogin(w, now))
    ensures Changeable(c).Some? ==> IsUse(Changeable(c).value, now, TouchedLogin(Changeable(c).value, now))
    ensures Outgoing(c).None? ==> Outgoing(TouchedCell(c, now)).None?
  {
  }

  /** What the user entered is gone from the row. */
  predicate IsCleared(row: LocalRow) {
    row.isDeleted && row.login.password == "" && row.login.hostname == "" && row.login.username == ""
  }

  /** `after` is the local row `before` turned into a tombstone. */
  predicate IsBurial(before: LocalRow, now: int, after: LocalRow) {
    && IsCleared(after) && after.status == Changed && after.localModified == now
    && after.login.id == before.login.id && after.login.timeCreated == before.login.timeCreated
    && after.login.timePasswordChanged == before.login.timePasswordChanged && after.login.timesUsed == before.login.timesUsed
  }

  /** `row` is a new tombstone for a login only the mirror has; its times are those of the deletion. */
  predicate IsNewTombstone(mirror: MirrorRow, now: int, row: LocalRow) {
    && IsCleared(row) && row.status == Changed && row.localModified == now
    && row.login.id == mirror.login.id && row.login.timeCreated == mirror.login.timeCreated && row.login.timePasswordChanged == now
  }

  /** The local row after a delete or a wipe; a row the server never saw does not count. */
  predicate IsGrave(c: Cell, now: int, row: Option<LocalRow>) {
    var known := c.local.Some? && c.local.value.status != New;
    && (known ==> row.Some? && IsBurial(c.local.value, now, row.value))
    && (!known && c.mirror.Some? ==> row.Some? && IsNewTombstone(c.mirror.value, now, row.value))
    && (!known && c.mirror.None? ==> row.None?)
  }

  /** Deleting hides the login and, if the server knows it, queues a tombstone. */
  lemma DeleteEffect(c: Cell, now: int)
    ensures Consistent(DeletedCell(c, now)) && Visible(DeletedCell(c, now)) == None
    ensures IsGrave(c, now, DeletedCell(c, now).local)
    ensures c.mirror.Some? ==> Outgoing(DeletedCell(c, now)).Some? && Outgoing(DeletedCell(c, now)).value.Tombstone?
    ensures c.mirror.None? && (c.local.None? || c.local.value.status == New) ==> DeletedCell(c, now) == EMPTY
  {
  }

  lemma WipeEffect(c: Cell, now: int)
    ensures Visible(WipedCell(c, now)) == None
    ensures Tidy(c) ==> Consistent(WipedCell(c, now))
    ensures c.local.Some? && c.local.value.isDeleted && c.local.value.status != New ==> WipedCell(c, now).local == c.local
    ensures !(c.local.Some? && c.local.value.isDeleted && c.local.value.status != New) ==> IsGrave(c, now, WipedCell(c, now).local)
    ensures Tidy(c) && c.mirror.Some? ==> Outgoing(WipedCell(c, now)).Some? && Outgoing(WipedCell(c, now)).value.Tombstone?
  {
  }

  /** A reset loses no visible login; it shows a login that was hidden exactly
      for a mirror row that is overridden without a local row. */
  lemma ResetEffect(c: Cell)
    requires Tidy(c)
    ensures Consistent(ResetCell(c))
    ensures Visible(ResetCell(c)) == Changeable(c)
    ensures ResetCell(c).mirror.None? && (c != EMPTY ==>
      ResetCell(c).local == Some(if c.local.Some? then c.local.value.(status := New) else LocalRow(c.mirror.value.login, New, false, 0)))
    ensures Visible(ResetCell(c)) == Visible(c) <==> !IsOrphan(c)
    ensures c != EMPTY ==> Outgoing(ResetCell(c)).Some?
  {
  }
}
