/**
 The login store: the local and the mirror table, changed statement by statement.

 Each operation is proved to act on every guid as module LoginRuns says; on the
 map of visible logins it does what its name promises.
 */
module LoginDb {
  import opened Wrappers
  import opened TextOrder
  import opened LoginRecord
  import opened LoginCells
  import opened LoginPlan
  import opened UpdatePlan
  import LoginRuns

  datatype StoreError = Rejected(why: InvalidLogin) | NoSuchRecord(guid: Guid) | DuplicateGuid(guid: Guid) | BadRecord

  /** An incoming record; its content may be unreadable. */
  datatype Incoming = Incoming(payload: Payload, time: int) | Unreadable(guid: Guid)

  function GuidOf(i: Incoming): Guid {
    match i
    case Incoming(Tombstone(g), _) => g
    case Incoming(Record(l), _) => l.id
    case Unreadable(g) => g
  }

  function LookUp<T>(m: map<Guid, T>, g: Guid): Option<T> {
    if g in m then Some(m[g]) else None
  }

  /** The contents of the two tables. */
  datatype Tables = Tables(local: map<Guid, LocalRow>, mirror: map<Guid, MirrorRow>)

  function CellOf(t: Tables, g: Guid): Cell {
    Cell(LookUp(t.local, g), LookUp(t.mirror, g))
  }

  /** Rows are stored under their own guid. */
  ghost predicate Keyed(t: Tables) {
    forall g :: KeyedBy(CellOf(t, g), g)
  }

  /** What every operation keeps. */
  ghost predicate TidyTables(t: Tables) {
    Keyed(t) && forall g :: Tidy(CellOf(t, g))
  }

  /** What every operation keeps that does not add under a guid the mirror shows. */
  ghost predicate ValidTables(t: Tables) {
    TidyTables(t) && forall g :: Consistent(CellOf(t, g))
  }

  /** The logins the user sees. */
  ghost function VisibleLogins(t: Tables): (m: map<Guid, Login>)
    ensures forall g :: g in m <==> Visible(CellOf(t, g)).Some?
    ensures forall g | g in m :: Visible(CellOf(t, g)) == Some(m[g])
  {
    map g | g in t.local.Keys + t.mirror.Keys && Visible(CellOf(t, g)).Some? :: Visible(CellOf(t, g)).value
  }

  /** The tables after one operation, guid by guid. */
  ghost predicate Stepped(op: LoginRuns.Op, t: Tables, t': Tables) {
    forall g :: CellOf(t', g) == LoginRuns.Step(op, g, CellOf(t, g))
  }

  /** A step that adds nothing under a guid the mirror shows, and whose incoming data are proper. */
  ghost predicate IsClean(op: LoginRuns.Op, t: Tables) {
    && (op.ApplyIncoming? ==> Proper(op.data))
    && (op.Add? ==> LoginRuns.AddsNothingShown(op, op.login.id, CellOf(t, op.login.id)))
  }

  lemma {:induction false} StepStaysKeyed(op: LoginRuns.Op, g: Guid, c: Cell)
    requires KeyedBy(c, g) && (op.ApplyIncoming? ==> Proper(op.data))
    ensures KeyedBy(LoginRuns.Step(op, g, c), g)
  {
    match op {
      case ApplyIncoming(ds, dupe, clocks, now) => ReconciledIsKeyed(ds, g, c, dupe, clocks, now);
      case Finish(guids, n, ts) =>
        if n > 0 {
          LoginRuns.MarkedByChunks(guids, n, g, c, ts);
        }
      case _ =>
    }
  }

  lemma StepKeepsTidy(op: LoginRuns.Op, t: Tables, t': Tables)
    requires TidyTables(t) && Stepped(op, t, t') && (op.ApplyIncoming? ==> Proper(op.data))
    ensures TidyTables(t')
  {
    forall g
      ensures KeyedBy(CellOf(t', g), g) && Tidy(CellOf(t', g))
    {
      assert KeyedBy(CellOf(t, g), g) && Tidy(CellOf(t, g));
      StepStaysKeyed(op, g, CellOf(t, g));
      LoginRuns.StepKeepsTidy(op, g, CellOf(t, g));
    }
  }

  lemma StepKeepsValid(op: LoginRuns.Op, t: Tables, t': Tables)
    requires ValidTables(t) && Stepped(op, t, t') && IsClean(op, t)
    ensures ValidTables(t')
  {
    StepKeepsTidy(op, t, t');
    forall g
      ensures Consistent(CellOf(t', g))
    {
      assert Consistent(CellOf(t, g));
      LoginRuns.StepKeepsConsistent(op, g, CellOf(t, g));
    }
  }

  /** Both for one step of an operation other than an add. */
  lemma Kept(op: LoginRuns.Op, t: Tables, t': Tables)
    requires Stepped(op, t, t') && !op.Add? && (op.ApplyIncoming? ==> Proper(op.data))
    ensures TidyTables(t) ==> TidyTables(t')
    ensures ValidTables(t) ==> ValidTables(t')
  {
    if TidyTables(t) {
      StepKeepsTidy(op, t, t');
    }
    if ValidTables(t) {
      StepKeepsValid(op, t, t');
    }
  }

  /** A successful add keeps the tables valid exactly if the mirror did not show the guid. */
  lemma AddStaysValidIff(t: Tables, t': Tables, l: Login, now: int)
    requires ValidTables(t) && Stepped(LoginRuns.Add(l, now), t, t')
    requires CheckValid(l).None? && CellOf(t, l.id).local.None?
    ensures ValidTables(t') <==> !MirrorShows(CellOf(t, l.id))
  {
    if MirrorShows(CellOf(t, l.id)) {
      assert CellOf(t', l.id) == AddedCell(CellOf(t, l.id), l, now);
      assert !Consistent(CellOf(t', l.id));
    } else {
      StepKeepsValid(LoginRuns.Add(l, now), t, t');
    }
  }

  lemma ListedInMap(t: Tables, g: Guid)
    requires ValidTables(t)
    ensures Listed(CellOf(t, g)) == match LookUp(VisibleLogins(t), g) case None => [] case Some(l) => [l]
  {
    assert Consistent(CellOf(t, g));
    ListedIsVisible(CellOf(t, g));
  }

  /** A run of the store: the tables before and after each of its operations. */
  ghost predicate IsRun(ops: seq<LoginRuns.Op>, ts: seq<Tables>) {
    && |ts| == |ops| + 1 && ts[0] == Tables(map[], map[])
    && forall i | 0 <= i < |ops| :: Stepped(ops[i], ts[i], ts[i + 1]) && IsClean(ops[i], ts[i])
  }

  /** At every point of every run each guid is listed exactly as one map from
      guids to logins says: once if it is there, else not at all. */
  lemma {:induction false} ListingIsOneMap(ops: seq<LoginRuns.Op>, ts: seq<Tables>, i: nat, g: Guid)
    requires IsRun(ops, ts) && i < |ts|
    ensures ValidTables(ts[i])
    ensures Listed(CellOf(ts[i], g)) == match LookUp(VisibleLogins(ts[i]), g) case None => [] case Some(l) => [l]
  {
    if i > 0 {
      ListingIsOneMap(ops, ts, i - 1, g);
      StepKeepsValid(ops[i - 1], ts[i - 1], ts[i]);
    }
    ListedInMap(ts[i], g);
  }

  // ----- what the operations do to the map

  /** The map with one guid set or removed. */
  ghost function With(m: map<Guid, Login>, id: Guid, l: Option<Login>): map<Guid, Login> {
    if l.Some? then m[id := l.value] else m - {id}
  }

  lemma OneSet(t: Tables, t': Tables, id: Guid)
    requires forall g | g != id :: CellOf(t', g) == CellOf(t, g)
    ensures VisibleLogins(t') == With(VisibleLogins(t), id, Visible(CellOf(t', id)))
  {
    var m, m' := With(VisibleLogins(t), id, Visible(CellOf(t', id))), VisibleLogins(t');
    forall g
      ensures g in m' <==> g in m
      ensures g in m' ==> m'[g] == m[g]
    {
      assert g != id ==> CellOf(t', g) == CellOf(t, g);
    }
  }

  lemma OneChanged(t: Tables, t': Tables, id: Guid)
    requires forall g | g != id :: CellOf(t', g) == CellOf(t, g)
    requires Visible(CellOf(t', id)).None? ==> Visible(CellOf(t, id)).None?
    ensures var l := Visible(CellOf(t', id));
      VisibleLogins(t') == if l.Some? then VisibleLogins(t)[id := l.value] else VisibleLogins(t)
  {
    OneSet(t, t', id);
  }

  lemma AddSetsOne(t: Tables, t': Tables, l: Login, now: int)
    requires Stepped(LoginRuns.Add(l, now), t, t') && CheckValid(l).None? && CellOf(t, l.id).local.None?
    ensures VisibleLogins(t') == VisibleLogins(t)[l.id := AddedRow(l, now).login]
    ensures IsAddition(l, now, AddedRow(l, now).login) && Outgoing(CellOf(t', l.id)) == Some(Record(AddedRow(l, now).login))
  {
    AddEffect(CellOf(t, l.id), l, now);
    OneSet(t, t', l.id);
  }

  lemma UpdateSetsOne(t: Tables, t': Tables, l: Login, now: int)
    requires TidyTables(t) && Stepped(LoginRuns.Update(l, now), t, t') && CheckValid(l).None?
    ensures var w := Changeable(CellOf(t, l.id));
      && VisibleLogins(t') == (if w.Some? then VisibleLogins(t)[l.id := UpdatedLogin(w.value, l, now)] else VisibleLogins(t))
      && (w.Some? ==> IsUpdate(w.value, l, now, UpdatedLogin(w.value, l, now)))
      && (CellOf(t, l.id) != EMPTY ==> Outgoing(CellOf(t', l.id)).Some?)
  {
    assert Tidy(CellOf(t, l.id));
    UpdateEffect(CellOf(t, l.id), l, now);
    assert CellOf(t', l.id) == UpdatedCell(CellOf(t, l.id), l, now);
    OneChanged(t, t', l.id);
  }

  lemma TouchSetsOne(t: Tables, t': Tables, id: Guid, now: int)
    requires TidyTables(t) && Stepped(LoginRuns.Touch(id, now), t, t')
    ensures var w := Changeable(CellOf(t, id));
      && VisibleLogins(t') == (if w.Some? then VisibleLogins(t)[id := TouchedLogin(w.value, now)] else VisibleLogins(t))
      && (w.Some? ==> IsUse(w.value, now, TouchedLogin(w.value, now)))
  {
    assert Tidy(CellOf(t, id));
    TouchEffect(CellOf(t, id), now);
    assert CellOf(t', id) == TouchedCell(CellOf(t, id), now);
    OneChanged(t, t', id);
  }

  lemma DeleteRemovesOne(t: Tables, t': Tables, id: Guid, now: int)
    requires Stepped(LoginRuns.Delete(id, now), t, t')
    ensures VisibleLogins(t') == VisibleLogins(t) - {id}
    ensures IsGrave(CellOf(t, id), now, CellOf(t', id).local)
  {
    DeleteEffect(CellOf(t, id), now);
    assert CellOf(t', id) == DeletedCell(CellOf(t, id), now);
    OneSet(t, t', id);
  }

  lemma WipeRemovesAll(t: Tables, t': Tables, now: int)
    requires Stepped(LoginRuns.Wipe(now), t, t')
    ensures VisibleLogins(t') == map[]
    ensures TidyTables(t) ==> forall g | g in t.mirror :: Outgoing(CellOf(t', g)) == Some(Tombstone(g))
  {
    forall g
      ensures Visible(CellOf(t', g)) == None
      ensures TidyTables(t) && g in t.mirror ==> Outgoing(CellOf(t', g)) == Some(Tombstone(g))
    {
      WipeEffect(CellOf(t, g), now);
      assert TidyTables(t) ==> KeyedBy(CellOf(t, g), g) && Tidy(CellOf(t, g));
    }
  }

  /** The confirmation of a guid takes a login from the user's sight. */
  ghost predicate Loses(t: Tables, guids: seq<Guid>, limit: nat, g: Guid)
    requires limit > 0
  {
    g in guids && g in VisibleLogins(t) && (g !in t.local || LoginRuns.ChunksNaming(guids, limit, g) > 1)
  }

  /** Confirming takes exactly the named guids from what is to be sent; what the
      user sees stays, exactly unless one of them is visible without a local row
      or is named by two chunks. */
  lemma ConfirmKeepsMap(t: Tables, t': Tables, guids: seq<Guid>, limit: nat, ts: int)
    requires TidyTables(t) && limit > 0
    requires Stepped(LoginRuns.Finish(guids, limit, ts), t, t')
    ensures forall g :: Outgoing(CellOf(t', g)) == if g in guids then None else Outgoing(CellOf(t, g))
    ensures VisibleLogins(t') == VisibleLogins(t) <==> forall g :: !Loses(t, guids, limit, g)
  {
    forall g
      ensures Outgoing(CellOf(t', g)) == if g in guids then None else Outgoing(CellOf(t, g))
      ensures Visible(CellOf(t', g)) == Visible(CellOf(t, g)) <==> !Loses(t, guids, limit, g)
    {
      assert Tidy(CellOf(t, g));
      LoginRuns.ConfirmedUpload(guids, limit, g, CellOf(t, g), ts);
    }
    SameMapIff(t, t');
  }

  lemma SameMapIff(t: Tables, t': Tables)
    ensures VisibleLogins(t') == VisibleLogins(t) <==> forall g :: Visible(CellOf(t', g)) == Visible(CellOf(t, g))
  {
    var m, m' := VisibleLogins(t), VisibleLogins(t');
    if m == m' {
      forall g ensures Visible(CellOf(t', g)) == Visible(CellOf(t, g)) {
        assert g in m <==> Visible(CellOf(t, g)).Some?;
        assert g in m' <==> Visible(CellOf(t', g)).Some?;
      }
    }
  }

  // The four statements of a wipe.

  function NotNew(rows: map<Guid, LocalRow>): map<Guid, LocalRow> {
    map g | g in rows && rows[g].status != New :: rows[g]
  }

  function AllBuried(rows: map<Guid, LocalRow>, now: int): map<Guid, LocalRow> {
    map g | g in rows :: if rows[g].isDeleted then rows[g] else Buried(rows[g], now)
  }

  function AllOverridden(rows: map<Guid, MirrorRow>): map<Guid, MirrorRow> {
    map g | g in rows :: rows[g].(isOverridden := true)
  }

  function WithTombstones(rows: map<Guid, LocalRow>, mirror: map<Guid, MirrorRow>, now: int): map<Guid, LocalRow> {
    (map g | g in mirror :: FreshTombstone(mirror[g], now)) + rows
  }

  lemma WipeIsStep(t: Tables, now: int)
    ensures var mirror := AllOverridden(t.mirror);
      Stepped(LoginRuns.Wipe(now), t, Tables(WithTombstones(AllBuried(NotNew(t.local), now), mirror, now), mirror))
  {
    var mirror := AllOverridden(t.mirror);
    var t' := Tables(WithTombstones(AllBuried(NotNew(t.local), now), mirror, now), mirror);
    forall g
      ensures CellOf(t', g) == LoginRuns.Step(LoginRuns.Wipe(now), g, CellOf(t, g))
    {
      assert CellOf(t', g) == WipedCell(CellOf(t, g), now);
    }
  }

  lemma ResetLosesNothing(t: Tables, t': Tables)
    requires TidyTables(t) && Stepped(LoginRuns.Reset, t, t')
    ensures forall g | g in VisibleLogins(t) :: g in VisibleLogins(t') && VisibleLogins(t')[g] == VisibleLogins(t)[g]
    ensures VisibleLogins(t') == VisibleLogins(t) <==> forall g :: !IsOrphan(CellOf(t, g))
  {
    forall g
      ensures Visible(CellOf(t', g)) == Visible(CellOf(t, g)) <==> !IsOrphan(CellOf(t, g))
      ensures Visible(CellOf(t, g)).Some? ==> Visible(CellOf(t', g)) == Visible(CellOf(t, g))
    {
      assert Tidy(CellOf(t, g));
      ResetEffect(CellOf(t, g));
    }
    SameMapIff(t, t');
  }

  function IdOf(l: Login): Guid {
    l.id
  }

  function PayloadGuid(p: Payload): Guid {
    match p
    case Tombstone(g) => g
    case Record(l) => l.id
  }

  /** The rows of one guid. */
  ghost function OfGuid<T>(rows: seq<T>, key: T -> Guid, g: Guid): seq<T> {
    if rows == [] then []
    else OfGuid(rows[..|rows| - 1], key, g) + if key(rows[|rows| - 1]) == g then [rows[|rows| - 1]] else []
  }

  lemma OfGuidAppend<T>(rows: seq<T>, row: T, key: T -> Guid, g: Guid)
    ensures OfGuid(rows + [row], key, g) == OfGuid(rows, key, g) + if key(row) == g then [row] else []
  {
    assert (rows + [row])[..|rows|] == rows;
  }

  lemma {:induction false} OfGuidConcat<T>(a: seq<T>, b: seq<T>, key: T -> Guid, g: Guid)
    ensures OfGuid(a + b, key, g) == OfGuid(a, key, g) + OfGuid(b, key, g)
  {
    if b == [] {
      assert a + b == a;
    } else {
      assert (a + b)[..|a + b| - 1] == a + b[..|b| - 1];
      OfGuidConcat(a, b[..|b| - 1], key, g);
    }
  }

  /** The selected rows, in some order. */
  method Select<T>(selected: map<Guid, T>, key: T -> Guid) returns (rows: seq<T>)
    requires forall g | g in selected :: key(selected[g]) == g
    ensures forall g :: OfGuid(rows, key, g) == if g in selected then [selected[g]] else []
  {
    rows := [];
    var todo := selected.Keys;
    while todo != {}
      invariant todo <= selected.Keys
      invariant forall g :: OfGuid(rows, key, g) == if g in selected && g !in todo then [selected[g]] else []
      decreases |todo|
    {
      var k :| k in todo;
      SelectOne(selected, key, rows, todo, k);
      rows := rows + [selected[k]];
      todo := todo - {k};
    }
  }

  lemma SelectOne<T>(selected: map<Guid, T>, key: T -> Guid, rows: seq<T>, todo: set<Guid>, k: Guid)
    requires k in todo && k in selected && key(selected[k]) == k
    requires forall g :: OfGuid(rows, key, g) == if g in selected && g !in todo then [selected[g]] else []
    ensures forall g :: OfGuid(rows + [selected[k]], key, g) == if g in selected && g !in todo - {k} then [selected[g]] else []
  {
    forall g
      ensures OfGuid(rows + [selected[k]], key, g) == if g in selected && g !in todo - {k} then [selected[g]] else []
    {
      OfGuidAppend(rows, selected[k], key, g);
    }
  }

  /** The incoming records with the rows stored under their guids. */
  ghost function DataOf(t: Tables, changes: seq<Incoming>): seq<SyncData> {
    if changes == [] then []
    else DataOf(t, changes[..|changes| - 1]) + [DatumOf(t, changes[|changes| - 1])]
  }

  function DatumOf(t: Tables, i: Incoming): SyncData {
    match i
    case Incoming(Tombstone(g), time) => SyncData(g, CellOf(t, g), None, time)
    case Incoming(Record(l), time) => SyncData(l.id, CellOf(t, l.id), Some(l), time)
    case Unreadable(g) => SyncData(g, CellOf(t, g), None, 0)
  }

  /** All records are readable and no guid comes twice. */
  ghost predicate Acceptable(changes: seq<Incoming>) {
    changes == [] || (
      && Acceptable(changes[..|changes| - 1])
      && changes[|changes| - 1].Incoming?
      && GuidOf(changes[|changes| - 1]) !in GuidsOf(changes[..|changes| - 1]))
  }

  ghost function GuidsOf(changes: seq<Incoming>): set<Guid> {
    if changes == [] then {} else GuidsOf(changes[..|changes| - 1]) + {GuidOf(changes[|changes| - 1])}
  }

  lemma {:induction false} FindInData(t: Tables, changes: seq<Incoming>, g: Guid)
    ensures var d := Find(DataOf(t, changes), g);
      (d.Some? <==> g in GuidsOf(changes)) && (d.Some? ==> d.value.cell == CellOf(t, g))
  {
    if changes != [] {
      var init, last := changes[..|changes| - 1], changes[|changes| - 1];
      FindInData(t, init, g);
      FindAppend(DataOf(t, init), DatumOf(t, last), g);
    }
  }

  lemma {:induction false} DataIsProper(t: Tables, changes: seq<Incoming>)
    requires Keyed(t) && Acceptable(changes)
    ensures Proper(DataOf(t, changes))
  {
    if changes != [] {
      var init, last := changes[..|changes| - 1], changes[|changes| - 1];
      DataIsProper(t, init);
      FindInData(t, init, GuidOf(last));
      assert KeyedBy(CellOf(t, GuidOf(last)), GuidOf(last));
      ProperAppend(DataOf(t, init), DatumOf(t, last));
    }
  }

  lemma {:induction false} StaysUnacceptable(changes: seq<Incoming>, i: nat)
    requires i <= |changes| && !Acceptable(changes[..i])
    ensures !Acceptable(changes)
  {
    if i == |changes| {
      assert changes[..i] == changes;
    } else {
      assert changes[..|changes| - 1][..i] == changes[..i];
      StaysUnacceptable(changes[..|changes| - 1], i);
    }
  }

  class LoginDb {
    var localRows: map<Guid, LocalRow>
    var mirrorRows: map<Guid, MirrorRow>
    var lastSync: Option<int>

    constructor ()
      ensures State() == Tables(map[], map[]) && Valid()
    {
      localRows, mirrorRows, lastSync := map[], map[], None;
    }

    function State(): Tables
      reads `localRows, `mirrorRows
    {
      Tables(localRows, mirrorRows)
    }

    ghost predicate IsTidy()
      reads `localRows, `mirrorRows
    {
      TidyTables(State())
    }

    ghost predicate Valid()
      reads `localRows, `mirrorRows
    {
      ValidTables(State())
    }

    // ----- reading

    method Exists(id: Guid) returns (r: bool)
      ensures r <==> id in VisibleLogins(State())
    {
      r := (id in localRows && !localRows[id].isDeleted) || (id in mirrorRows && !mirrorRows[id].isOverridden);
    }

    /** The first by hostname of the rows listed for the guid. */
    method GetById(id: Guid) returns (r: Option<Login>)
      ensures r.Some? <==> Listed(CellOf(State(), id)) != []
      ensures r.Some? ==> r.value in Listed(CellOf(State(), id))
      ensures r.Some? ==> forall l | l in Listed(CellOf(State(), id)) :: AtMost(r.value.hostname, l.hostname)
      ensures Valid() ==> r == LookUp(VisibleLogins(State()), id)
    {
      r := None;
      if id in localRows && !localRows[id].isDeleted {
        r := Some(localRows[id].login);
      }
      if id in mirrorRows && !mirrorRows[id].isOverridden {
        var m := mirrorRows[id].login;
        if r.Some? {
          AtMostIsTotal(r.value.hostname, m.hostname);
        }
        if r.None? || !AtMost(r.value.hostname, m.hostname) {
          r := Some(m);
        }
      }
      if r.Some? {
        AtMostIsTotal(r.value.hostname, r.value.hostname);
      }
    }

    /** Live local rows, then mirror rows that show. */
    method GetAll() returns (rows: seq<Login>)
      requires Keyed(State())
      ensures forall g :: OfGuid(rows, IdOf, g) == Listed(CellOf(State(), g))
      ensures Valid() ==> forall g :: OfGuid(rows, IdOf, g) == match LookUp(VisibleLogins(State()), g) case None => [] case Some(l) => [l]
    {
      var live := map g | g in localRows && !localRows[g].isDeleted :: localRows[g].login;
      var shown := map g | g in mirrorRows && !mirrorRows[g].isOverridden :: mirrorRows[g].login;
      forall g
        ensures g in live ==> live[g].id == g
        ensures g in shown ==> shown[g].id == g
      {
        assert KeyedBy(CellOf(State(), g), g);
      }
      var first := Select(live, IdOf);
      var second := Select(shown, IdOf);
      rows := first + second;
      forall g ensures OfGuid(rows, IdOf, g) == Listed(CellOf(State(), g)) {
        OfGuidConcat(first, second, IdOf, g);
      }
      if Valid() {
        forall g { ListedInMap(State(), g); }
      }
    }

    // ----- local changes

    method MarkMirrorOverridden(guid: Guid)
      modifies `mirrorRows
      ensures forall g :: LookUp(mirrorRows, g) == if g == guid then Overridden(old(LookUp(mirrorRows, g))) else old(LookUp(mirrorRows, g))
    {
      if guid in mirrorRows {
        mirrorRows := mirrorRows[guid := mirrorRows[guid].(isOverridden := true)];
      }
    }

    method EnsureLocalOverlayExists(guid: Guid) returns (ok: bool)
      modifies `localRows
      ensures ok <==> CellOf(old(State()), guid) != EMPTY
      ensures ok ==> forall g :: LookUp(localRows, g) == if g == guid then Overlay(CellOf(old(State()), g)) else old(LookUp(localRows, g))
      ensures ok && guid !in old(localRows) ==> guid in localRows && guid in mirrorRows && localRows[guid] == LocalRow(mirrorRows[guid].login, Synced, false, 0)
      ensures !ok ==> localRows == old(localRows)
    {
      if guid in localRows {
        return true;
      }
      if guid !in mirrorRows {
        return false;
      }
      localRows := localRows[guid := Cloned(mirrorRows[guid])];
      return true;
    }

    method Touch(id: Guid, now: int) returns (r: Result<(), StoreError>)
      modifies `localRows, `mirrorRows
      ensures r.Ok? <==> CellOf(old(State()), id) != EMPTY
      ensures Stepped(LoginRuns.Touch(id, now), old(State()), State())
      ensures old(IsTidy()) ==> IsTidy()
      ensures old(Valid()) ==> Valid()
      ensures old(IsTidy()) ==>
        var w := Changeable(CellOf(old(State()), id));
        && VisibleLogins(State()) == (if w.Some? then VisibleLogins(old(State()))[id := TouchedLogin(w.value, now)] else VisibleLogins(old(State())))
        && (w.Some? ==> IsUse(w.value, now, TouchedLogin(w.value, now)))
    {
      r := TouchRows(id, now);
      Kept(LoginRuns.Touch(id, now), old(State()), State());
      if old(IsTidy()) {
        TouchSetsOne(old(State()), State(), id, now);
      }
    }

    method TouchRows(id: Guid, now: int) returns (r: Result<(), StoreError>)
      modifies `localRows, `mirrorRows
      ensures r.Ok? <==> CellOf(old(State()), id) != EMPTY
      ensures Stepped(LoginRuns.Touch(id, now), old(State()), State())
    {
      var ok := EnsureLocalOverlayExists(id);
      if !ok {
        return Err(NoSuchRecord(id));
      }
      MarkMirrorOverridden(id);
      assert id in localRows by { assert LookUp(localRows, id).Some?; }
      var row := localRows[id];
      if !row.isDeleted {
        localRows := localRows[id := row.(login := row.login.(timeLastUsed := now, timesUsed := row.login.timesUsed + 1), localModified := now)];
      }
      return Ok(());
    }

    /** `freshGuid` is the random guid that a login without one gets. */
    method Add(login: Login, now: int, freshGuid: Guid) returns (r: Result<Login, StoreError>)
      modifies `localRows
      ensures var l := if login.id == "" then login.(id := freshGuid) else login;
        && (r.Ok? <==> IsStorable(login) && CellOf(old(State()), l.id).local.None?)
        && (r.Err? && IsStorable(login) ==> r.error == DuplicateGuid(l.id))
        && (r.Ok? ==> IsAddition(l, now, r.value) && Outgoing(CellOf(State(), l.id)) == Some(Record(r.value)))
        && Stepped(LoginRuns.Add(l, now), old(State()), State())
        && (r.Ok? ==> VisibleLogins(State()) == VisibleLogins(old(State()))[l.id := r.value])
        && (old(Valid()) && r.Ok? ==> (Valid() <==> !MirrorShows(CellOf(old(State()), l.id))))
      ensures old(IsTidy()) ==> IsTidy()
    {
      CheckFinds(login);
      r := AddRow(login, now, freshGuid);
      ghost var l := if login.id == "" then login.(id := freshGuid) else login;
      if old(IsTidy()) {
        StepKeepsTidy(LoginRuns.Add(l, now), old(State()), State());
      }
      if r.Ok? {
        AddSetsOne(old(State()), State(), l, now);
        if old(Valid()) {
          AddStaysValidIff(old(State()), State(), l, now);
        }
      }
    }

    method AddRow(login: Login, now: int, freshGuid: Guid) returns (r: Result<Login, StoreError>)
      modifies `localRows
      ensures var l := if login.id == "" then login.(id := freshGuid) else login;
        && (r.Ok? <==> CheckValid(login).None? && CellOf(old(State()), l.id).local.None?)
        && (r.Err? && CheckValid(login).None? ==> r.error == DuplicateGuid(l.id))
        && (r.Ok? ==> r.value == AddedRow(l, now).login)
        && Stepped(LoginRuns.Add(l, now), old(State()), State())
    {
      var invalid := CheckValid(login);
      if invalid.Some? {
        return Err(Rejected(invalid.value));
      }
      var l := login;
      if l.id == "" {
        l := l.(id := freshGuid);
      }
      l := l.(timeCreated := now, timePasswordChanged := now, timeLastUsed := now, timesUsed := 1);
      if l.id in localRows {
        return Err(DuplicateGuid(l.id));
      }
      localRows := localRows[l.id := LocalRow(l, New, false, now)];
      return Ok(l);
    }

    method Update(login: Login, now: int) returns (r: Result<(), StoreError>)
      modifies `localRows, `mirrorRows
      ensures r.Ok? <==> IsStorable(login) && CellOf(old(State()), login.id) != EMPTY
      ensures r.Err? && IsStorable(login) ==> r.error == NoSuchRecord(login.id)
      ensures Stepped(LoginRuns.Update(login, now), old(State()), State())
      ensures old(IsTidy()) ==> IsTidy()
      ensures old(Valid()) ==> Valid()
      ensures old(IsTidy()) && r.Ok? ==>
        var w := Changeable(CellOf(old(State()), login.id));
        && VisibleLogins(State()) == (if w.Some? then VisibleLogins(old(State()))[login.id := UpdatedLogin(w.value, login, now)] else VisibleLogins(old(State())))
        && (w.Some? ==> IsUpdate(w.value, login, now, UpdatedLogin(w.value, login, now)))
        && Outgoing(CellOf(State(), login.id)).Some?
    {
      CheckFinds(login);
      r := UpdateRows(login, now);
      Kept(LoginRuns.Update(login, now), old(State()), State());
      if old(IsTidy()) && r.Ok? {
        UpdateSetsOne(old(State()), State(), login, now);
      }
    }

    method UpdateRows(login: Login, now: int) returns (r: Result<(), StoreError>)
      modifies `localRows, `mirrorRows
      ensures r.Ok? <==> CheckValid(login).None? && CellOf(old(State()), login.id) != EMPTY
      ensures r.Err? && CheckValid(login).None? ==> r.error == NoSuchRecord(login.id)
      ensures Stepped(LoginRuns.Update(login, now), old(State()), State())
    {
      var invalid := CheckValid(login);
      if invalid.Some? {
        return Err(Rejected(invalid.value));
      }
      var ok := EnsureLocalOverlayExists(login.id);
      if !ok {
        return Err(NoSuchRecord(login.id));
      }
      MarkMirrorOverridden(login.id);
      assert login.id in localRows by { assert LookUp(localRows, login.id).Some?; }
      var row := localRows[login.id];
      var changed := if row.login.password == login.password then row.login.timePasswordChanged else now;
      localRows := localRows[login.id := row.(
        localModified := now,
        status := if row.status == New then New else Changed,
        login := login.(id := row.login.id, timeCreated := row.login.timeCreated, timeLastUsed := now,
                        timesUsed := row.login.timesUsed + 1, timePasswordChanged := changed))];
      return Ok(());
    }

    /** Deletes a login and tells whether it was there. */
    method Delete(id: Guid, now: int) returns (existed: bool)
      modifies `localRows, `mirrorRows
      ensures Stepped(LoginRuns.Delete(id, now), old(State()), State())
      ensures old(IsTidy()) ==> IsTidy()
      ensures old(Valid()) ==> Valid()
      ensures existed <==> id in VisibleLogins(old(State()))
      ensures IsGrave(CellOf(old(State()), id), now, LookUp(localRows, id))
      ensures VisibleLogins(State()) == VisibleLogins(old(State())) - {id}
    {
      existed := Exists(id);
      DeleteRows(id, now);
      DeleteRemovesOne(old(State()), State(), id, now);
      Kept(LoginRuns.Delete(id, now), old(State()), State());
    }

    method DeleteRows(id: Guid, now: int)
      modifies `localRows, `mirrorRows
      ensures Stepped(LoginRuns.Delete(id, now), old(State()), State())
    {
      if id in localRows && localRows[id].status == New {
        localRows := localRows - {id};
      }
      if id in localRows {
        localRows := localRows[id := Buried(localRows[id], now)];
      }
      MarkMirrorOverridden(id);
      if id !in localRows && id in mirrorRows {
        localRows := localRows[id := FreshTombstone(mirrorRows[id], now)];
      }
      assert CellOf(State(), id) == DeletedCell(CellOf(old(State()), id), now);
      assert forall g | g != id :: CellOf(State(), g) == CellOf(old(State()), g);
    }

    /** Deletes every login, leaving a tombstone to send for each one the server knows. */
    method Wipe(now: int)
      modifies `localRows, `mirrorRows
      ensures Stepped(LoginRuns.Wipe(now), old(State()), State())
      ensures old(IsTidy()) ==> IsTidy()
      ensures old(Valid()) ==> Valid()
      ensures VisibleLogins(State()) == map[]
      ensures old(IsTidy()) ==> forall g | g in old(mirrorRows) :: Outgoing(CellOf(State(), g)) == Some(Tombstone(g))
    {
      localRows := NotNew(localRows);
      localRows := AllBuried(localRows, now);
      mirrorRows := AllOverridden(mirrorRows);
      localRows := WithTombstones(localRows, mirrorRows, now);
      WipeIsStep(old(State()), now);
      WipeRemovesAll(old(State()), State(), now);
      Kept(LoginRuns.Wipe(now), old(State()), State());
    }

    method WipeLocal()
      modifies this
      ensures Stepped(LoginRuns.WipeLocal, old(State()), State())
      ensures Valid() && VisibleLogins(State()) == map[] && lastSync == None
    {
      localRows, mirrorRows, lastSync := map[], map[], None;
    }

    /** Forgets what the server knows: every login becomes new again. */
    method Reset()
      modifies this
      ensures Stepped(LoginRuns.Reset, old(State()), State())
      ensures old(IsTidy()) ==> IsTidy()
      ensures old(Valid()) ==> Valid()
      ensures lastSync == Some(0)
      ensures old(IsTidy()) ==>
        forall g | g in VisibleLogins(old(State())) :: g in VisibleLogins(State()) && VisibleLogins(State())[g] == VisibleLogins(old(State()))[g]
      ensures old(IsTidy()) ==>
        (VisibleLogins(State()) == VisibleLogins(old(State())) <==> forall g :: !IsOrphan(CellOf(old(State()), g)))
    {
      ResetRows();
      if old(IsTidy()) {
        ResetLosesNothing(old(State()), State());
      }
      Kept(LoginRuns.Reset, old(State()), State());
    }

    method ResetRows()
      modifies this
      ensures Stepped(LoginRuns.Reset, old(State()), State()) && lastSync == Some(0)
    {
      localRows := (map g | g in mirrorRows :: Cloned(mirrorRows[g])) + localRows;
      mirrorRows := map[];
      localRows := map g | g in localRows :: localRows[g].(status := New);
      lastSync := Some(0);
    }

    // ----- syncing

    /** What the next upload sends, in some order. */
    method FetchOutgoing() returns (out: seq<Payload>)
      requires Keyed(State())
      ensures forall g :: OfGuid(out, PayloadGuid, g) == match Outgoing(CellOf(State(), g)) case None => [] case Some(p) => [p]
    {
      var changed := map g | g in localRows && localRows[g].status != Synced ::
        if localRows[g].isDeleted then Tombstone(g) else Record(localRows[g].login);
      forall g
        ensures g in changed ==> PayloadGuid(changed[g]) == g
        ensures Outgoing(CellOf(State(), g)) == LookUp(changed, g)
      {
        assert KeyedBy(CellOf(State(), g), g);
      }
      out := Select(changed, PayloadGuid);
    }

    /** Confirms an upload: the guids leave the local table, live rows become mirror rows.
        The statements take at most `limit` parameters at a time. */
    method MarkAsSynchronized(guids: seq<Guid>, ts: int, limit: nat)
      requires limit > 0
      modifies this
      ensures Stepped(LoginRuns.Finish(guids, limit, ts), old(State()), State())
      ensures old(IsTidy()) ==> IsTidy()
      ensures old(Valid()) ==> Valid()
      ensures lastSync == Some(ts)
      ensures old(IsTidy()) ==>
        && (forall g :: Outgoing(CellOf(State(), g)) == if g in guids then None else Outgoing(CellOf(old(State()), g)))
        && (VisibleLogins(State()) == VisibleLogins(old(State())) <==> forall g :: !Loses(old(State()), guids, limit, g))
    {
      MarkChunks(guids, ts, limit);
      Kept(LoginRuns.Finish(guids, limit, ts), old(State()), State());
      if old(IsTidy()) {
        ConfirmKeepsMap(old(State()), State(), guids, limit, ts);
      }
    }

    method MarkChunks(guids: seq<Guid>, ts: int, limit: nat)
      requires limit > 0
      modifies this
      ensures Stepped(LoginRuns.Finish(guids, limit, ts), old(State()), State())
      ensures lastSync == Some(ts)
    {
      var offset := 0;
      assert guids[0..] == guids;
      while offset < |guids|
        invariant offset <= |guids|
        invariant forall g :: LoginRuns.Marked(guids, limit, g, CellOf(old(State()), g), ts)
                           == LoginRuns.Marked(guids[offset..], limit, g, CellOf(State(), g), ts)
      {
        var k := LoginRuns.Min(limit, |guids| - offset);
        MarkChunk(guids[offset..][..k], ts);
        assert guids[offset..][k..] == guids[offset + k..];
        offset := offset + k;
      }
      lastSync := Some(ts);
    }

    method MarkChunk(chunk: seq<Guid>, ts: int)
      modifies `localRows, `mirrorRows
      ensures forall g :: CellOf(State(), g) == if g in chunk then SyncedCell(CellOf(old(State()), g), ts) else CellOf(old(State()), g)
    {
      var guids := set g | g in chunk;
      mirrorRows := mirrorRows - guids;
      mirrorRows := (map g | g in localRows && g in guids && !localRows[g].isDeleted :: MirrorRow(localRows[g].login, false, ts)) + mirrorRows;
      localRows := localRows - guids;
    }

    /** Pairs each incoming record with the stored rows of its guid. */
    method FetchLoginData(changes: seq<Incoming>) returns (r: Result<seq<SyncData>, StoreError>)
      ensures r.Ok? <==> Acceptable(changes)
      ensures r.Ok? ==> r.value == DataOf(State(), changes)
    {
      var data: seq<SyncData> := [];
      var seen: set<Guid> := {};
      for i := 0 to |changes|
        invariant Acceptable(changes[..i]) && seen == GuidsOf(changes[..i])
        invariant data == DataOf(State(), changes[..i])
      {
        assert changes[..i + 1][..i] == changes[..i];
        if GuidOf(changes[i]) in seen {
          StaysUnacceptable(changes, i + 1);
          return Err(DuplicateGuid(GuidOf(changes[i])));
        }
        seen := seen + {GuidOf(changes[i])};
        if changes[i].Unreadable? {
          StaysUnacceptable(changes, i + 1);
          return Err(BadRecord);
        }
        data := data + [DatumOf(State(), changes[i])];
      }
      assert changes[..|changes|] == changes;
      return Ok(data);
    }

    method PerformDeletes(plan: UpdatePlan)
      modifies `localRows, `mirrorRows
      ensures forall g :: CellOf(State(), g).local == if g in plan.deleteLocal then None else CellOf(old(State()), g).local
      ensures forall g :: CellOf(State(), g).mirror == if g in plan.deleteMirror then None else CellOf(old(State()), g).mirror
    {
      localRows := localRows - set g | g in plan.deleteLocal;
      mirrorRows := mirrorRows - set g | g in plan.deleteMirror;
    }

    method PerformMirrorUpdates(plan: UpdatePlan)
      modifies `mirrorRows
      ensures forall g :: LookUp(mirrorRows, g) == AfterUpdates(old(LookUp(mirrorRows, g)), plan.mirrorUpdates, g)
    {
      for i := 0 to |plan.mirrorUpdates|
        invariant forall g :: LookUp(mirrorRows, g) == AfterUpdates(old(LookUp(mirrorRows, g)), plan.mirrorUpdates[..i], g)
      {
        assert plan.mirrorUpdates[..i + 1][..i] == plan.mirrorUpdates[..i];
        var u := plan.mirrorUpdates[i];
        if u.login.id in mirrorRows {
          mirrorRows := mirrorRows[u.login.id := UpdatedMirror(mirrorRows[u.login.id], u)];
        }
      }
      assert plan.mirrorUpdates[..|plan.mirrorUpdates|] == plan.mirrorUpdates;
    }

    method PerformMirrorInserts(plan: UpdatePlan)
      modifies `mirrorRows
      ensures forall g :: LookUp(mirrorRows, g) == AfterInserts(old(LookUp(mirrorRows, g)), plan.mirrorInserts, g)
    {
      for i := 0 to |plan.mirrorInserts|
        invariant forall g :: LookUp(mirrorRows, g) == AfterInserts(old(LookUp(mirrorRows, g)), plan.mirrorInserts[..i], g)
      {
        assert plan.mirrorInserts[..i + 1][..i] == plan.mirrorInserts[..i];
        var n := plan.mirrorInserts[i];
        if n.login.id !in mirrorRows {
          mirrorRows := mirrorRows[n.login.id := MirrorRow(n.login, n.isOverride, n.time)];
        }
      }
      assert plan.mirrorInserts[..|plan.mirrorInserts|] == plan.mirrorInserts;
    }

    method PerformLocalUpdates(plan: UpdatePlan, now: int)
      modifies `localRows
      ensures forall g :: LookUp(localRows, g) == AfterMerges(old(LookUp(localRows, g)), plan.localUpdates, g, now)
    {
      for i := 0 to |plan.localUpdates|
        invariant forall g :: LookUp(localRows, g) == AfterMerges(old(LookUp(localRows, g)), plan.localUpdates[..i], g, now)
      {
        assert plan.localUpdates[..i + 1][..i] == plan.localUpdates[..i];
        var l := plan.localUpdates[i];
        if l.id in localRows {
          localRows := localRows[l.id := MergedLocal(localRows[l.id], l, now)];
        }
      }
      assert plan.localUpdates[..|plan.localUpdates|] == plan.localUpdates;
    }

    method Execute(plan: UpdatePlan, now: int)
      modifies `localRows, `mirrorRows
      ensures forall g :: CellOf(State(), g) == Executed(plan.Contents(), g, CellOf(old(State()), g), now)
    {
      PerformDeletes(plan);
      label deleted:
      PerformMirrorUpdates(plan);
      PerformMirrorInserts(plan);
      PerformLocalUpdates(plan, now);
      assert forall g :: CellOf(old@deleted(State()), g).mirror == LookUp(old@deleted(mirrorRows), g);
    }

    /** Reconciles an incoming changeset with the tables and gives what to upload. */
    method ApplyIncoming(changes: seq<Incoming>, dupe: DupeFinder, clocks: Clocks, now: int) returns (r: Result<seq<Payload>, StoreError>)
      requires Keyed(State())
      modifies `localRows, `mirrorRows
      ensures r.Ok? <==> Acceptable(changes)
      ensures r.Err? ==> State() == old(State())
      ensures r.Ok? ==>
        && Stepped(LoginRuns.ApplyIncoming(DataOf(old(State()), changes), dupe, clocks, now), old(State()), State())
        && forall g :: OfGuid(r.value, PayloadGuid, g) == match Outgoing(CellOf(State(), g)) case None => [] case Some(p) => [p]
      ensures Keyed(State()) && (old(IsTidy()) ==> IsTidy()) && (old(Valid()) ==> Valid())
      ensures r.Ok? ==> DeletionsWin(old(State()), State(), changes, dupe)
      ensures r.Ok? ==> LoginsArrive(old(State()), State(), changes, dupe, clocks, now)
    {
      var data := FetchLoginData(changes);
      if data.Err? {
        return Err(data.error);
      }
      ghost var t := State();
      DataIsProper(t, changes);
      forall g { FindInData(t, changes, g); }
      var plan := Reconcile(data.value, dupe, clocks);
      Execute(plan, now);
      ExecutedIsStep(t, State(), data.value, dupe, clocks, now);
      Kept(LoginRuns.ApplyIncoming(data.value, dupe, clocks, now), t, State());
      ReconcilingDeletes(t, State(), changes, dupe, clocks, now);
      ReconcilingReceives(t, State(), changes, dupe, clocks, now);
      var out := FetchOutgoing();
      return Ok(out);
    }
  }

  /** Executing the plan of a changeset is the reconciliation of the changeset. */
  lemma ExecutedIsStep(t: Tables, t': Tables, ds: seq<SyncData>, dupe: DupeFinder, clocks: Clocks, now: int)
    requires Keyed(t) && Proper(ds)
    requires forall g :: Find(ds, g).Some? ==> Find(ds, g).value.cell == CellOf(t, g)
    requires forall g :: CellOf(t', g) == Executed(PlanOf(ds, dupe, clocks), g, CellOf(t, g), now)
    ensures Stepped(LoginRuns.ApplyIncoming(ds, dupe, clocks, now), t, t') && Keyed(t')
  {
    forall g
      ensures CellOf(t', g) == LoginRuns.Step(LoginRuns.ApplyIncoming(ds, dupe, clocks, now), g, CellOf(t, g))
      ensures KeyedBy(CellOf(t', g), g)
    {
      assert KeyedBy(CellOf(t, g), g);
      PlanCarriesOutReconciliation(ds, g, CellOf(t, g), dupe, clocks, now);
      ReconciledIsKeyed(ds, g, CellOf(t, g), dupe, clocks, now);
    }
  }

  /** The changeset holds a tombstone for the guid. */
  ghost predicate Deletes(changes: seq<Incoming>, g: Guid) {
    changes != [] && (
      || Deletes(changes[..|changes| - 1], g)
      || (changes[|changes| - 1].Incoming? && changes[|changes| - 1].payload == Tombstone(g)))
  }

  lemma {:induction false} FoundDeletion(t: Tables, changes: seq<Incoming>, g: Guid)
    requires Acceptable(changes)
    ensures Deletes(changes, g) ==> g in GuidsOf(changes)
    ensures Deletes(changes, g) <==> var d := Find(DataOf(t, changes), g); d.Some? && d.value.inbound.None?
  {
    if changes != [] {
      var init, last := changes[..|changes| - 1], changes[|changes| - 1];
      FoundDeletion(t, init, g);
      FindAppend(DataOf(t, init), DatumOf(t, last), g);
    }
  }

  ghost predicate IsBuried(c: Cell) {
    c.local.Some? && c.local.value.isDeleted && c.mirror.Some?
  }

  /** After a changeset: a guid it deletes is in neither table; a login deleted
      here that the mirror knows stays hidden, and its tombstone is still to be
      sent exactly unless the changeset deletes it too or replaces it as a
      duplicate; a guid it neither holds nor replaces is as before. */
  ghost predicate DeletionsWin(t: Tables, t': Tables, changes: seq<Incoming>, dupe: DupeFinder) {
    && (forall g | Deletes(changes, g) :: CellOf(t', g) == EMPTY)
    && (TidyTables(t) ==> forall g | IsBuried(CellOf(t, g)) ::
          && g !in VisibleLogins(t')
          && (Outgoing(CellOf(t', g)) == Some(Tombstone(g)) <==> !Deletes(changes, g) && !IsReplaced(DataOf(t, changes), dupe, g)))
    && (forall g | g !in GuidsOf(changes) && !IsReplaced(DataOf(t, changes), dupe, g) :: CellOf(t', g) == CellOf(t, g))
  }

  lemma ReconcilingDeletes(t: Tables, t': Tables, changes: seq<Incoming>, dupe: DupeFinder, clocks: Clocks, now: int)
    requires Acceptable(changes) && Stepped(LoginRuns.ApplyIncoming(DataOf(t, changes), dupe, clocks, now), t, t')
    ensures DeletionsWin(t, t', changes, dupe)
  {
    forall g
      ensures Deletes(changes, g) ==> CellOf(t', g) == EMPTY
      ensures TidyTables(t) && IsBuried(CellOf(t, g)) ==>
        && Visible(CellOf(t', g)) == None
        && (Outgoing(CellOf(t', g)) == Some(Tombstone(g)) <==> !Deletes(changes, g) && !IsReplaced(DataOf(t, changes), dupe, g))
      ensures g !in GuidsOf(changes) && !IsReplaced(DataOf(t, changes), dupe, g) ==> CellOf(t', g) == CellOf(t, g)
    {
      FoundDeletion(t, changes, g);
      FindInData(t, changes, g);
      if Deletes(changes, g) {
        LoginRuns.InboundDeletionWins(DataOf(t, changes), g, CellOf(t, g), dupe, clocks, now);
      }
      if TidyTables(t) && IsBuried(CellOf(t, g)) {
        assert KeyedBy(CellOf(t, g), g) && Tidy(CellOf(t, g));
        LoginRuns.LocalDeletionWins(DataOf(t, changes), g, CellOf(t, g), dupe, clocks, now);
      }
    }
  }

  /** Every login of a changeset has met the rows of its guid, except where
      another record replaces the local row as its duplicate. */
  ghost predicate LoginsArrive(t: Tables, t': Tables, changes: seq<Incoming>, dupe: DupeFinder, clocks: Clocks, now: int) {
    && (forall g | IsReplaced(DataOf(t, changes), dupe, g) :: g !in t'.local)
    && forall i | 0 <= i < |changes| && changes[i].Incoming? && changes[i].payload.Record?
               && !IsReplaced(DataOf(t, changes), dupe, changes[i].payload.login.id) ::
      var up := changes[i].payload.login;
      LoginRuns.Receives(CellOf(t, up.id), up, changes[i].time, dupe, clocks, now, CellOf(t', up.id))
  }

  lemma {:induction false} NotFoundYet(changes: seq<Incoming>, i: nat)
    requires i < |changes|
    ensures GuidOf(changes[i]) in GuidsOf(changes)
  {
    if i < |changes| - 1 {
      NotFoundYet(changes[..|changes| - 1], i);
    }
  }

  lemma {:induction false} FoundAt(t: Tables, changes: seq<Incoming>, i: nat)
    requires Acceptable(changes) && i < |changes|
    ensures Find(DataOf(t, changes), GuidOf(changes[i])) == Some(DatumOf(t, changes[i]))
  {
    var init, last := changes[..|changes| - 1], changes[|changes| - 1];
    FindAppend(DataOf(t, init), DatumOf(t, last), GuidOf(changes[i]));
    if i < |init| {
      FoundAt(t, init, i);
      NotFoundYet(init, i);
    }
  }

  lemma ReconcilingReceives(t: Tables, t': Tables, changes: seq<Incoming>, dupe: DupeFinder, clocks: Clocks, now: int)
    requires Acceptable(changes) && Stepped(LoginRuns.ApplyIncoming(DataOf(t, changes), dupe, clocks, now), t, t')
    ensures LoginsArrive(t, t', changes, dupe, clocks, now)
  {
    forall g | IsReplaced(DataOf(t, changes), dupe, g) ensures g !in t'.local {
      assert CellOf(t', g) == LoginRuns.Step(LoginRuns.ApplyIncoming(DataOf(t, changes), dupe, clocks, now), g, CellOf(t, g));
    }
    forall i | 0 <= i < |changes| && changes[i].Incoming? && changes[i].payload.Record?
               && !IsReplaced(DataOf(t, changes), dupe, changes[i].payload.login.id)
      ensures var up := changes[i].payload.login;
        LoginRuns.Receives(CellOf(t, up.id), up, changes[i].time, dupe, clocks, now, CellOf(t', up.id))
    {
      FoundAt(t, changes, i);
      var up := changes[i].payload.login;
      LoginRuns.LoginArrives(DataOf(t, changes), up.id, CellOf(t, up.id), dupe, clocks, now);
      assert CellOf(t', up.id) == LoginRuns.Step(LoginRuns.ApplyIncoming(DataOf(t, changes), dupe, clocks, now), up.id, CellOf(t, up.id));
    }
  }
}
