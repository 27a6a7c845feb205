/**
 Two clients that have both edited a login and synced: do they show the same?
 A sync is seen from the login's guid; what the rest of the incoming changeset
 can do to it is to replace its local row as a duplicate.
 */
module Convergence {
  import opened Wrappers
  import opened LoginRecord
  import opened LoginCells
  import opened LoginPlan
  import opened LoginRuns

  datatype Client = Client(cell: Cell, lastSync: int)

  /** The server's record for the guid and when it was last changed. */
  datatype Remote = Remote(record: Payload, modified: int)

  /** The circumstances of one sync: the clocks of the reconciliation, the
      server time of what is uploaded, and the time the client keeps at the end. */
  datatype Visit = Visit(clocks: Clocks, now: int, dupe: DupeFinder, uploaded: int, finished: int)

  function Inbound(p: Payload): Option<Login> {
    match p
    case Tombstone(_) => None
    case Record(l) => Some(l)
  }

  /** The part of the collection newer than the last sync, as it concerns the guid. */
  function Download(g: Guid, c: Client, r: Option<Remote>): seq<SyncData> {
    if r.Some? && r.value.modified > c.lastSync then [SyncData(g, c.cell, Inbound(r.value.record), r.value.modified)] else []
  }

  /** One sync against a server that takes every upload: download, reconcile,
      upload what is outgoing, confirm it. If `replaced`, another incoming
      record takes away the local row as its duplicate. */
  function Visited(g: Guid, c: Client, r: Option<Remote>, v: Visit, replaced: bool): (Client, Option<Remote>) {
    var met := Reconciled(Download(g, c, r), g, c.cell, v.dupe, v.clocks, v.now);
    var cell := if replaced then met.(local := None) else met;
    match Outgoing(cell)
    case None => (Client(cell, v.finished), r)
    case Some(p) => (Client(SyncedCell(cell, v.finished), v.finished), Some(Remote(p, v.uploaded)))
  }

  // ----- edits

  ghost predicate IsEdit(op: Op) {
    (op.Update? || op.Touch? || op.Delete? || op.Wipe?) && op.now > 0
  }

  ghost predicate Positive(l: Login) {
    l.timeCreated > 0 && l.timePasswordChanged > 0 && l.timeLastUsed > 0 && l.timesUsed > 0
  }

  function Base(base: Login, t: int): Cell {
    Cell(None, Some(MirrorRow(base, false, t)))
  }

  /** The local row after edits of a shared base. */
  ghost predicate EditedRow(base: Login, row: LocalRow) {
    && row.login.id == base.id && row.status != New
    && (row.isDeleted ==> row.status == Changed)
    && (!row.isDeleted ==> Positive(row.login) && row.login.timeCreated == base.timeCreated && row.login.timesUsed > base.timesUsed)
  }

  /** A cell that edits of a shared base lead to. */
  ghost predicate Edited(base: Login, t: int, c: Cell) {
    c == Base(base, t) || (
      && c.mirror == Some(MirrorRow(base, true, t))
      && c.local.Some? && EditedRow(base, c.local.value))
  }

  lemma {:induction false} EditsLeadToEdited(base: Login, t: int, ops: seq<Op>)
    requires Positive(base) && forall op | op in ops :: IsEdit(op)
    ensures Edited(base, t, Run(ops, base.id, Base(base, t)))
  {
    if ops != [] {
      assert ops[|ops| - 1] in ops;
      EditsLeadToEdited(base, t, ops[..|ops| - 1]);
    }
  }

  predicate Deleted(c: Cell) {
    c.local.Some? && c.local.value.isDeleted
  }

  /** The login was used but not changed: nothing is uploaded for it. */
  predicate OnlyTouched(c: Cell) {
    IsLive(c) && c.local.value.status == Synced
  }

  // ----- single syncs

  lemma {:induction false} FirstSync(base: Login, t: int, a: Client, v: Visit, replaced: bool)
    requires Edited(base, t, a.cell) && t <= a.lastSync
    ensures var cell := if replaced then a.cell.(local := None) else a.cell;
      Visited(base.id, a, Some(Remote(Record(base), t)), v, replaced) ==
      match Outgoing(cell)
      case None => (Client(cell, v.finished), Some(Remote(Record(base), t)))
      case Some(p) => (Client(SyncedCell(cell, v.finished), v.finished), Some(Remote(p, v.uploaded)))
  {
  }

  lemma {:induction false} MergeOfEdits(base: Login, local: LocalRow, up: Login, newer: bool, now: int)
    requires Positive(base) && EditedRow(base, local) && !local.isDeleted
    requires Positive(up) && up.id == base.id && up.timesUsed > base.timesUsed
    ensures var m := MergedLocal(local, ThreeWay(local.login, base, up, newer), now);
      && Positive(m.login) && m.login.id == base.id
      && m.login.timesUsed == local.login.timesUsed + up.timesUsed - base.timesUsed
  {
    ThreeWayMergesFields(local.login, base, up, newer);
  }

  lemma OneRecord(d: SyncData, dupe: DupeFinder)
    ensures Find([d], d.guid) == Some(d)
    ensures d.cell != EMPTY ==> !IsReplaced([d], dupe, d.guid)
  {
    assert [d][..0] == [];
  }

  /** A client that has nothing local takes over what the server has. */
  lemma {:induction false} TakesOver(g: Guid, c: Client, r: Remote, v: Visit)
    requires c.cell.local.None? && MirrorShows(c.cell) && c.cell.mirror.value.login.id == g
    requires r.modified > c.lastSync && (r.record.Record? ==> Positive(r.record.login) && r.record.login.id == g)
    ensures var (c', r') := Visited(g, c, Some(r), v, false);
      Visible(c'.cell) == Inbound(r.record) && c'.cell.local.None? && r' == Some(r)
  {
    OneRecord(SyncData(g, c.cell, Inbound(r.record), r.modified), v.dupe);
  }

  /** The second client meets what the first one uploaded: what it then shows is
      what the server then has. */
  lemma {:induction false} SecondSync(base: Login, t: int, b: Client, r: Remote, v: Visit)
    requires Positive(base) && Edited(base, t, b.cell) && r.modified > b.lastSync
    requires r.record.Record? ==> Positive(r.record.login) && r.record.login.id == base.id && r.record.login.timesUsed > base.timesUsed
    ensures var (b', r') := Visited(base.id, b, Some(r), v, false);
      && r'.Some? && b'.cell.local.None?
      && Visible(b'.cell) == Inbound(r'.value.record)
      && (r'.value.record.Record? ==> Positive(r'.value.record.login) && r'.value.record.login.id == base.id)
      && (r'.value == r || (r'.value.modified == v.uploaded && r.record.Record?))
  {
    if b.cell.local.None? {
      TakesOver(base.id, b, r, v);
    } else {
      OneRecord(SyncData(base.id, b.cell, Inbound(r.record), r.modified), v.dupe);
      if r.record.Record? && !Deleted(b.cell) {
        MergeOfEdits(base, b.cell.local.value, r.record.login, UpstreamIsNewer(b.cell.local.value, r.modified, v.clocks), v.now);
      }
    }
  }

  /** An edited login whose row is replaced, or that is hidden already, is hidden
      afterwards, and nothing is uploaded for it. */
  lemma {:induction false} HiddenSync(g: Guid, c: Client, r: Remote, v: Visit, replaced: bool)
    requires c.cell.mirror.Some? && c.cell.mirror.value.isOverridden && (replaced || c.cell.local.None?)
    ensures var (c', r') := Visited(g, c, Some(r), v, replaced);
      c'.cell.local.None? && Visible(c'.cell) == None && r' == Some(r)
  {
    OneRecord(SyncData(g, c.cell, Inbound(r.record), r.modified), v.dupe);
  }

  /** Without a local row there is nothing to replace. */
  lemma {:induction false} NothingReplaced(g: Guid, c: Client, r: Option<Remote>, v: Visit)
    requires c.cell.local.None?
    ensures Visited(g, c, r, v, true) == Visited(g, c, r, v, false)
  {
    if Download(g, c, r) != [] {
      OneRecord(Download(g, c, r)[0], v.dupe);
    }
  }

  // ----- three syncs

  /** First `a`, then `b`, then `a` again; each time the row may be replaced. */
  function ThreeSyncs(g: Guid, a: Client, b: Client, r: Remote, v1: Visit, v2: Visit, v3: Visit,
                      p1: bool, p2: bool, p3: bool): (Client, Client) {
    var (a1, r1) := Visited(g, a, Some(r), v1, p1);
    var (b1, r2) := Visited(g, b, r1, v2, p2);
    (Visited(g, a1, r2, v3, p3).0, b1)
  }

  /** Both clients had the base, server times grow, a client keeps a time no
      older than its own upload, and `b` had not yet seen what `a` uploads,
      unless `a` has its row replaced. */
  ghost predicate InOrder(t: int, a: Client, b: Client, v1: Visit, v2: Visit, p1: bool) {
    && t <= a.lastSync <= v1.finished < v2.uploaded
    && t <= b.lastSync < v1.uploaded < v2.uploaded
    && (Outgoing(a.cell).Some? && !p1 ==> v1.uploaded <= v1.finished)
  }

  /** Edits that three syncs bring together. An edit that only counts a use is
      not uploaded, so it can stay on its own device. */
  predicate WillAgree(a: Cell, b: Cell) {
    if OnlyTouched(a) then Deleted(b) || (OnlyTouched(b) && a.local.value.login == b.local.value.login)
    else a.local.Some? || !OnlyTouched(b)
  }

  /** The same when rows may be replaced. A replaced row hides the login on that
      client and takes its edit along; then the other client has to have deleted
      it, or to have had its own row replaced. */
  predicate WillAgreeDespite(a: Cell, b: Cell, p1: bool, p2: bool, p3: bool) {
    var losesB := p2 && b.local.Some?;
    if a.local.Some? && (p1 || (p3 && OnlyTouched(a))) then Deleted(b) || losesB
    else if losesB then Deleted(a)
    else WillAgree(a, b)
  }

  lemma {:induction false} SyncsConverge(base: Login, t: int, a: Client, b: Client, v1: Visit, v2: Visit, v3: Visit)
    requires Positive(base) && Edited(base, t, a.cell) && Edited(base, t, b.cell)
    requires InOrder(t, a, b, v1, v2, false)
    ensures var (a', b') := ThreeSyncs(base.id, a, b, Remote(Record(base), t), v1, v2, v3, false, false, false);
      Visible(a'.cell) == Visible(b'.cell) <==> WillAgree(a.cell, b.cell)
  {
    var g, r := base.id, Remote(Record(base), t);
    FirstSync(base, t, a, v1, false);
    var (a1, r1) := Visited(g, a, Some(r), v1, false);
    var (b1, r2) := Visited(g, b, r1, v2, false);
    if Outgoing(a.cell).None? {
      FirstSync(base, t, b, v2, false);
    } else {
      SecondSync(base, t, b, r1.value, v2);
      if r2 != r1 {
        TakesOver(g, a1, r2.value, v3);
      }
    }
  }

  /** The first client loses its row, in its first sync or in its second. */
  lemma {:induction false} FirstLoses(base: Login, t: int, a: Client, b: Client, v1: Visit, v2: Visit, v3: Visit, p1: bool, p2: bool, p3: bool)
    requires Positive(base) && Edited(base, t, a.cell) && Edited(base, t, b.cell)
    requires InOrder(t, a, b, v1, v2, p1) && a.cell.local.Some? && (p1 || (p3 && OnlyTouched(a.cell)))
    ensures var (a', b') := ThreeSyncs(base.id, a, b, Remote(Record(base), t), v1, v2, v3, p1, p2, p3);
      Visible(a'.cell) == None && (Visible(b'.cell) == None <==> Deleted(b.cell) || (p2 && b.cell.local.Some?))
  {
    var g, r := base.id, Remote(Record(base), t);
    FirstSync(base, t, a, v1, p1);
    FirstSync(base, t, b, v2, p2);
    var (a1, r1) := Visited(g, a, Some(r), v1, p1);
    var (b1, r2) := Visited(g, b, r1, v2, p2);
    HiddenSync(g, a1, r2.value, v3, p3);
  }

  /** Only the second client loses its row. */
  lemma {:induction false} SecondLoses(base: Login, t: int, a: Client, b: Client, v1: Visit, v2: Visit, v3: Visit)
    requires Positive(base) && Edited(base, t, a.cell) && Edited(base, t, b.cell)
    requires InOrder(t, a, b, v1, v2, false) && b.cell.local.Some?
    ensures var (a', b') := ThreeSyncs(base.id, a, b, Remote(Record(base), t), v1, v2, v3, false, true, false);
      Visible(b'.cell) == None && (Visible(a'.cell) == None <==> Deleted(a.cell))
  {
    var g, r := base.id, Remote(Record(base), t);
    FirstSync(base, t, a, v1, false);
    var (a1, r1) := Visited(g, a, Some(r), v1, false);
    HiddenSync(g, b, r1.value, v2, true);
  }

  /** Whatever the edits of the two clients are and whatever else comes in: after
      the three syncs both show the same login, or both none, exactly when the
      edits will agree despite the rows that are replaced. */
  lemma {:induction false} SyncsConvergeDespite(base: Login, t: int, a: Client, b: Client, v1: Visit, v2: Visit, v3: Visit,
                                                p1: bool, p2: bool, p3: bool)
    requires Positive(base) && Edited(base, t, a.cell) && Edited(base, t, b.cell)
    requires InOrder(t, a, b, v1, v2, p1)
    ensures var (a', b') := ThreeSyncs(base.id, a, b, Remote(Record(base), t), v1, v2, v3, p1, p2, p3);
      Visible(a'.cell) == Visible(b'.cell) <==> WillAgreeDespite(a.cell, b.cell, p1, p2, p3)
  {
    if a.cell.local.Some? && (p1 || (p3 && OnlyTouched(a.cell))) {
      FirstLoses(base, t, a, b, v1, v2, v3, p1, p2, p3);
    } else {
      HarmlessReplacement(base, t, a, b, v1, v2, v3, p1, p2, p3);
      if p2 && b.cell.local.Some? {
        SecondLoses(base, t, a, b, v1, v2, v3);
      } else {
        SyncsConverge(base, t, a, b, v1, v2, v3);
      }
    }
  }

  /** A replacement makes a difference only where there is a local row. */
  lemma {:induction false} HarmlessReplacement(base: Login, t: int, a: Client, b: Client, v1: Visit, v2: Visit, v3: Visit,
                                               p1: bool, p2: bool, p3: bool)
    requires Edited(base, t, a.cell) && t <= a.lastSync
    requires a.cell.local.None? || (!p1 && !(p3 && OnlyTouched(a.cell)))
    ensures var r := Remote(Record(base), t);
      ThreeSyncs(base.id, a, b, r, v1, v2, v3, p1, p2, p3) ==
      ThreeSyncs(base.id, a, b, r, v1, v2, v3, false, p2 && b.cell.local.Some?, false)
  {
    var g, r := base.id, Remote(Record(base), t);
    FirstSync(base, t, a, v1, p1);
    var (a1, r1) := Visited(g, a, Some(r), v1, p1);
    if a.cell.local.None? {
      NothingReplaced(g, a, Some(r), v1);
    }
    if b.cell.local.None? {
      NothingReplaced(g, b, r1, v2);
    }
    if a1.cell.local.None? {
      NothingReplaced(g, a1, Visited(g, b, r1, v2, p2).1, v3);
    }
  }

  /** From a shared base with positive times and counts: whatever each client
      edits, if each has changed or deleted the login or left it alone, and no
      other record replaces it, then after `a`, `b` and `a` have synced both
      show the same. */
  lemma {:induction false} ConcurrentEditsConverge(base: Login, t: int, opsA: seq<Op>, opsB: seq<Op>, a: Client, b: Client,
                                                   v1: Visit, v2: Visit, v3: Visit, p1: bool, p2: bool, p3: bool)
    requires Positive(base)
    requires forall op | op in opsA :: IsEdit(op)
    requires forall op | op in opsB :: IsEdit(op)
    requires a.cell == Run(opsA, base.id, Base(base, t)) && b.cell == Run(opsB, base.id, Base(base, t))
    requires InOrder(t, a, b, v1, v2, p1)
    ensures var (a', b') := ThreeSyncs(base.id, a, b, Remote(Record(base), t), v1, v2, v3, p1, p2, p3);
      && (Visible(a'.cell) == Visible(b'.cell) <==> WillAgreeDespite(a.cell, b.cell, p1, p2, p3))
      && (!OnlyTouched(a.cell) && !OnlyTouched(b.cell) && !p1 && !p2 && !p3 ==> Visible(a'.cell) == Visible(b'.cell))
  {
    EditsLeadToEdited(base, t, opsA);
    EditsLeadToEdited(base, t, opsB);
    SyncsConvergeDespite(base, t, a, b, v1, v2, v3, p1, p2, p3);
  }

  /** The replaced case is real: `a` has updated the login and receives a new
      record that duplicates it with a password as new as its own. The update
      is gone, `a` shows nothing, and `b` still shows the base. */
  lemma ReplacedEditIsLost(base: Login, t: int, l: Login, now: int, x: Login, a: Client, b: Client, v1: Visit, v2: Visit, v3: Visit)
    requires Positive(base) && l.id == base.id && CheckValid(l).None? && now > 0
    requires a.cell == Run([Update(l, now)], base.id, Base(base, t)) && b.cell == Base(base, t) && InOrder(t, a, b, v1, v2, true)
    requires x.id != base.id && x.timePasswordChanged >= now && x.timePasswordChanged >= base.timePasswordChanged
    ensures WillAgree(a.cell, b.cell)
    ensures var mine := UpdatedLogin(base, l, now);
      var ds := [SyncData(x.id, EMPTY, Some(x), v1.uploaded)];
      IsReplaced(ds, _ => Some(mine), base.id) && Reconciled(ds, base.id, a.cell, _ => Some(mine), v1.clocks, v1.now) == a.cell.(local := None)
    ensures var (a', b') := ThreeSyncs(base.id, a, b, Remote(Record(base), t), v1, v2, v3, true, false, false);
      Visible(a'.cell) == None && Outgoing(a'.cell) == None && Visible(b'.cell) == Some(base)
  {
    assert [Update(l, now)][..0] == [];
    assert a.cell == UpdatedCell(Base(base, t), l, now);
    EditsLeadToEdited(base, t, [Update(l, now)]);
    FirstLoses(base, t, a, b, v1, v2, v3, true, false, false);
    FirstSync(base, t, a, v1, true);
    FirstSync(base, t, b, v2, false);
    var mine := UpdatedLogin(base, l, now);
    var d := SyncData(x.id, EMPTY, Some(x), v1.uploaded);
    assert [d][..0] == [];
    assert Replaced(d, _ => Some(mine)) == Some(base.id);
  }

  // ----- any number of syncs, while no other record replaces the login

  /** One sync of one of the two clients. */
  datatype Turn = Turn(isFirst: bool, visit: Visit)

  datatype World = World(a: Client, b: Client, remote: Option<Remote>)

  function TurnTaken(g: Guid, w: World, turn: Turn): World {
    if turn.isFirst then
      var (a', r') := Visited(g, w.a, w.remote, turn.visit, false);
      World(a', w.b, r')
    else
      var (b', r') := Visited(g, w.b, w.remote, turn.visit, false);
      World(w.a, b', r')
  }

  function TurnsTaken(g: Guid, w: World, turns: seq<Turn>): World {
    if turns == [] then w else TurnTaken(g, TurnsTaken(g, w, turns[..|turns| - 1]), turns[|turns| - 1])
  }

  /** No sync is finished at a time before the base was stored. */
  ghost predicate AllSince(turns: seq<Turn>, t: int) {
    forall turn | turn in turns :: turn.visit.finished >= t
  }

  /** Edits of which neither is uploaded stay as they are, however often the
      clients sync. */
  lemma {:induction false} QuietForever(base: Login, t: int, a: Client, b: Client, turns: seq<Turn>)
    requires Edited(base, t, a.cell) && Edited(base, t, b.cell) && t <= a.lastSync && t <= b.lastSync
    requires Outgoing(a.cell).None? && Outgoing(b.cell).None?
    requires AllSince(turns, t)
    ensures var r := Some(Remote(Record(base), t));
      var w := TurnsTaken(base.id, World(a, b, r), turns);
      && w.a.cell == a.cell && w.b.cell == b.cell && w.remote == r
      && t <= w.a.lastSync && t <= w.b.lastSync
  {
    if turns != [] {
      var init, turn := turns[..|turns| - 1], turns[|turns| - 1];
      assert turn in turns;
      QuietForever(base, t, a, b, init);
      var w := TurnsTaken(base.id, World(a, b, Some(Remote(Record(base), t))), init);
      FirstSync(base, t, if turn.isFirst then w.a else w.b, turn.visit, false);
    }
  }

  /** The times of four syncs in turn: those of the first two, and `b` keeps a
      time between what it has seen and what `a` uploads next. */
  ghost predicate FourInOrder(t: int, a: Client, b: Client, v1: Visit, v2: Visit, v3: Visit) {
    InOrder(t, a, b, v1, v2, false) && v2.uploaded <= v2.finished < v3.uploaded
  }

  function FourTurns(v1: Visit, v2: Visit, v3: Visit, v4: Visit): seq<Turn> {
    [Turn(true, v1), Turn(false, v2), Turn(true, v3), Turn(false, v4)]
  }

  lemma FourTaken(g: Guid, w: World, v1: Visit, v2: Visit, v3: Visit, v4: Visit)
    ensures TurnsTaken(g, w, FourTurns(v1, v2, v3, v4)) ==
      TurnTaken(g, TurnTaken(g, TurnTaken(g, TurnTaken(g, w, Turn(true, v1)), Turn(false, v2)), Turn(true, v3)), Turn(false, v4))
  {
    var ts := FourTurns(v1, v2, v3, v4);
    assert ts[..3][..2] == ts[..2] && ts[..2][..1] == ts[..1] && ts[..1][..0] == [];
    assert TurnsTaken(g, w, ts[..1]) == TurnTaken(g, w, ts[0]);
    assert TurnsTaken(g, w, ts[..2]) == TurnTaken(g, TurnsTaken(g, w, ts[..1]), ts[1]);
    assert TurnsTaken(g, w, ts[..3]) == TurnTaken(g, TurnsTaken(g, w, ts[..2]), ts[2]);
  }

  /** If either edit is uploaded, four syncs in turn bring both clients together. */
  lemma {:induction false} FourSyncsConverge(base: Login, t: int, a: Client, b: Client, v1: Visit, v2: Visit, v3: Visit, v4: Visit)
    requires Positive(base) && Edited(base, t, a.cell) && Edited(base, t, b.cell)
    requires FourInOrder(t, a, b, v1, v2, v3) && (Outgoing(a.cell).Some? || Outgoing(b.cell).Some?)
    ensures var w := TurnsTaken(base.id, World(a, b, Some(Remote(Record(base), t))), FourTurns(v1, v2, v3, v4));
      Visible(w.a.cell) == Visible(w.b.cell)
  {
    var g, r := base.id, Remote(Record(base), t);
    FourTaken(g, World(a, b, Some(r)), v1, v2, v3, v4);
    FirstSync(base, t, a, v1, false);
    var (a1, r1) := Visited(g, a, Some(r), v1, false);
    var (b1, r2) := Visited(g, b, r1, v2, false);
    if Outgoing(a.cell).Some? {
      SecondSync(base, t, b, r1.value, v2);
      if r2 != r1 {
        TakesOver(g, a1, r2.value, v3);
      }
    } else {
      FirstSync(base, t, b, v2, false);
      SecondSync(base, t, a1, r2.value, v3);
      var (a2, r3) := Visited(g, a1, r2, v3, false);
      if r3 != r2 {
        TakesOver(g, b1, r3.value, v4);
      }
    }
  }

  ghost predicate ApartAfter(g: Guid, w: World, turns: seq<Turn>) {
    Visible(TurnsTaken(g, w, turns).a.cell) != Visible(TurnsTaken(g, w, turns).b.cell)
  }

  /** Two clients disagree for good exactly when neither edit is uploaded and
      they show different logins: then no number of syncs changes what they
      show, and otherwise four syncs in turn are enough. */
  lemma {:induction false} DisagreeForGoodIff(base: Login, t: int, a: Client, b: Client, v1: Visit, v2: Visit, v3: Visit, v4: Visit)
    requires Positive(base) && Edited(base, t, a.cell) && Edited(base, t, b.cell)
    requires FourInOrder(t, a, b, v1, v2, v3) && v3.finished >= t && v4.finished >= t
    ensures var w := World(a, b, Some(Remote(Record(base), t)));
      (forall turns: seq<Turn> :: AllSince(turns, t) ==> ApartAfter(base.id, w, turns))
      <==> Outgoing(a.cell).None? && Outgoing(b.cell).None? && Visible(a.cell) != Visible(b.cell)
  {
    var w := World(a, b, Some(Remote(Record(base), t)));
    if Outgoing(a.cell).None? && Outgoing(b.cell).None? {
      forall turns: seq<Turn> | AllSince(turns, t)
        ensures ApartAfter(base.id, w, turns) <==> Visible(a.cell) != Visible(b.cell)
      {
        QuietForever(base, t, a, b, turns);
      }
      assert AllSince([], t);
    } else {
      var turns := FourTurns(v1, v2, v3, v4);
      FourSyncsConverge(base, t, a, b, v1, v2, v3, v4);
      assert AllSince(turns, t) && !ApartAfter(base.id, w, turns);
    }
  }

  /** One use of a login that only `a` makes is never seen by `b`. */
  lemma TouchStaysApart(base: Login, t: int, now: int, a: Client, b: Client, turns: seq<Turn>)
    requires Positive(base) && now > 0 && t <= a.lastSync && t <= b.lastSync
    requires a.cell == Run([Touch(base.id, now)], base.id, Base(base, t)) && b.cell == Run([], base.id, Base(base, t))
    requires AllSince(turns, t)
    ensures var w := TurnsTaken(base.id, World(a, b, Some(Remote(Record(base), t))), turns);
      Visible(w.a.cell) == Some(TouchedLogin(base, now)) && Visible(w.b.cell) == Some(base)
    ensures TouchedLogin(base, now) != base
  {
    assert [Touch(base.id, now)][..0] == [];
    assert a.cell == TouchedCell(Base(base, t), now);
    EditsLeadToEdited(base, t, [Touch(base.id, now)]);
    QuietForever(base, t, a, b, turns);
    assert TouchedLogin(base, now).timesUsed != base.timesUsed;
  }
}
