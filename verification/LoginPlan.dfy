/**
 Reconciling incoming logins: what a changeset is planned to do to the tables,
 how the plan is carried out, and what that amounts to for each guid.
 */
module LoginPlan {
  import opened Wrappers
  import opened LoginRecord
  import opened LoginCells

  /** An incoming record with the rows stored under its guid. Without a login it is a deletion. */
  datatype SyncData = SyncData(guid: Guid, cell: Cell, inbound: Option<Login>, time: int)

  /** The clocks a reconciliation reads: the server's and the device's. */
  datatype Clocks = Clocks(server: int, local: int)

  /** The local login, if any, that the store's query gives as a duplicate. */
  type DupeFinder = Login -> Option<Login>

  datatype MirrorInsert = MirrorInsert(login: Login, time: int, isOverride: bool)
  datatype MirrorUpdate = MirrorUpdate(login: Login, time: int)

  datatype Plan = Plan(deleteMirror: seq<Guid>, deleteLocal: seq<Guid>, localUpdates: seq<Login>,
                       mirrorInserts: seq<MirrorInsert>, mirrorUpdates: seq<MirrorUpdate>)

  const NO_PLAN: Plan := Plan([], [], [], [], [])

  // ----- planning

  function Age(now: int, then_: int): nat {
    if now < then_ then 0 else now - then_
  }

  predicate UpstreamIsNewer(local: LocalRow, time: int, clocks: Clocks) {
    Age(clocks.server, time) < Age(clocks.local, local.localModified)
  }

  function TwoWay(local: Login, upstream: Login, time: int): Plan {
    var isOverride := local.timePasswordChanged > upstream.timePasswordChanged;
    NO_PLAN.(mirrorInserts := [MirrorInsert(upstream, time, isOverride)],
             deleteLocal := if isOverride then [] else [local.id])
  }

  /** The plan for one incoming record. */
  function PlanOne(d: SyncData, dupe: DupeFinder, clocks: Clocks): Plan {
    match d.inbound
    case None => NO_PLAN.(deleteLocal := [d.guid], deleteMirror := [d.guid])
    case Some(upstream) =>
      if d.cell.mirror.Some? then
        NO_PLAN.(mirrorUpdates := [MirrorUpdate(upstream, d.time)],
                 localUpdates :=
                   if d.cell.local.None? then []
                   else [ThreeWay(d.cell.local.value.login, d.cell.mirror.value.login, upstream,
                                  UpstreamIsNewer(d.cell.local.value, d.time, clocks))])
      else if d.cell.local.Some? then TwoWay(d.cell.local.value.login, upstream, d.time)
      else match dupe(upstream)
        case Some(local) => TwoWay(local, upstream, d.time)
        case None => NO_PLAN.(mirrorInserts := [MirrorInsert(upstream, d.time, false)])
  }

  function Joined(p: Plan, q: Plan): Plan {
    Plan(p.deleteMirror + q.deleteMirror, p.deleteLocal + q.deleteLocal, p.localUpdates + q.localUpdates,
         p.mirrorInserts + q.mirrorInserts, p.mirrorUpdates + q.mirrorUpdates)
  }

  function PlanOf(ds: seq<SyncData>, dupe: DupeFinder, clocks: Clocks): Plan {
    if ds == [] then NO_PLAN
    else Joined(PlanOf(ds[..|ds| - 1], dupe, clocks), PlanOne(ds[|ds| - 1], dupe, clocks))
  }

  // ----- carrying out a plan, for one guid

  function NonZero(n: int, before: int): int {
    if n == 0 then before else n
  }

  function UpdatedMirror(m: MirrorRow, u: MirrorUpdate): MirrorRow {
    var w := m.login;
    m.(serverModified := u.time,
       login := u.login.(id := w.id,
                         timesUsed := NonZero(u.login.timesUsed, w.timesUsed),
                         timeLastUsed := NonZero(u.login.timeLastUsed, w.timeLastUsed),
                         timePasswordChanged := NonZero(u.login.timePasswordChanged, w.timePasswordChanged),
                         timeCreated := NonZero(u.login.timeCreated, w.timeCreated)))
  }

  /** A merged local row; the creation time is not written. */
  function MergedLocal(row: LocalRow, merged: Login, now: int): LocalRow {
    row.(login := merged.(id := row.login.id, timeCreated := row.login.timeCreated), status := Changed, localModified := now)
  }

  function AfterUpdates(m: Option<MirrorRow>, us: seq<MirrorUpdate>, g: Guid): Option<MirrorRow> {
    if us == [] then m
    else
      var m' := AfterUpdates(m, us[..|us| - 1], g);
      var u := us[|us| - 1];
      if u.login.id == g && m'.Some? then Some(UpdatedMirror(m'.value, u)) else m'
  }

  function AfterInserts(m: Option<MirrorRow>, is_: seq<MirrorInsert>, g: Guid): Option<MirrorRow> {
    if is_ == [] then m
    else
      var m' := AfterInserts(m, is_[..|is_| - 1], g);
      var i := is_[|is_| - 1];
      if i.login.id == g && m'.None? then Some(MirrorRow(i.login, i.isOverride, i.time)) else m'
  }

  function AfterMerges(l: Option<LocalRow>, ms: seq<Login>, g: Guid, now: int): Option<LocalRow> {
    if ms == [] then l
    else
      var l' := AfterMerges(l, ms[..|ms| - 1], g, now);
      if ms[|ms| - 1].id == g && l'.Some? then Some(MergedLocal(l'.value, ms[|ms| - 1], now)) else l'
  }

  function Executed(p: Plan, g: Guid, c: Cell, now: int): Cell {
    var mirror := if g in p.deleteMirror then None else c.mirror;
    var local := if g in p.deleteLocal then None else c.local;
    Cell(AfterMerges(local, p.localUpdates, g, now),
         AfterInserts(AfterUpdates(mirror, p.mirrorUpdates, g), p.mirrorInserts, g))
  }

  // ----- what it amounts to

  /** The duplicate an incoming record replaces: a local login, no older password upstream. */
  function Replaced(d: SyncData, dupe: DupeFinder): Option<Guid> {
    if d.cell != EMPTY || d.inbound.None? then None
    else match dupe(d.inbound.value)
      case None => None
      case Some(local) =>
        if local.timePasswordChanged > d.inbound.value.timePasswordChanged then None else Some(local.id)
  }

  /** Some record of the changeset replaces the local login under `g`. */
  predicate IsReplaced(ds: seq<SyncData>, dupe: DupeFinder, g: Guid) {
    ds != [] && (IsReplaced(ds[..|ds| - 1], dupe, g) || Replaced(ds[|ds| - 1], dupe) == Some(g))
  }

  /** The changeset's record for a guid. */
  function Find(ds: seq<SyncData>, g: Guid): Option<SyncData> {
    if ds == [] then None
    else if ds[|ds| - 1].guid == g then Some(ds[|ds| - 1])
    else Find(ds[..|ds| - 1], g)
  }

  /** An incoming login meets the rows stored under its guid. */
  function Met(c: Cell, upstream: Login, time: int, dupe: DupeFinder, clocks: Clocks, now: int): Cell {
    match (c.local, c.mirror)
    case (Some(local), Some(mirror)) =>
      var merged := ThreeWay(local.login, mirror.login, upstream, UpstreamIsNewer(local, time, clocks));
      Cell(Some(MergedLocal(local, merged, now)), Some(UpdatedMirror(mirror, MirrorUpdate(upstream, time))))
    case (None, Some(mirror)) =>
      Cell(None, Some(UpdatedMirror(mirror, MirrorUpdate(upstream, time))))
    case (Some(local), None) =>
      var isOverride := local.login.timePasswordChanged > upstream.timePasswordChanged;
      Cell(if isOverride then Some(local) else None, Some(MirrorRow(upstream, isOverride, time)))
    case (None, None) =>
      var hidden := dupe(upstream).Some? && dupe(upstream).value.timePasswordChanged > upstream.timePasswordChanged;
      Cell(None, Some(MirrorRow(upstream, hidden, time)))
  }

  /** What a changeset makes of one cell: deletions always win, a login meets
      its rows, and a local row that is replaced as a duplicate goes. */
  function Reconciled(ds: seq<SyncData>, g: Guid, c: Cell, dupe: DupeFinder, clocks: Clocks, now: int): Cell {
    var met := match Find(ds, g)
      case None => c
      case Some(d) => if d.inbound.None? then EMPTY else Met(c, d.inbound.value, d.time, dupe, clocks, now);
    if IsReplaced(ds, dupe, g) then met.(local := None) else met
  }

  // ----- the plan carries out the reconciliation

  /** The data of a changeset: distinct guids, and every login under its own guid. */
  ghost predicate Proper(ds: seq<SyncData>) {
    ds == [] || (
      && Proper(ds[..|ds| - 1])
      && Find(ds[..|ds| - 1], ds[|ds| - 1].guid) == None
      && (ds[|ds| - 1].inbound.Some? ==> ds[|ds| - 1].inbound.value.id == ds[|ds| - 1].guid)
      && KeyedBy(ds[|ds| - 1].cell, ds[|ds| - 1].guid))
  }

  ghost predicate KeyedBy(c: Cell, g: Guid) {
    (c.local.Some? ==> c.local.value.login.id == g) && (c.mirror.Some? ==> c.mirror.value.login.id == g)
  }

  lemma {:induction false} UpdatesConcat(m: Option<MirrorRow>, a: seq<MirrorUpdate>, b: seq<MirrorUpdate>, g: Guid)
    ensures AfterUpdates(m, a + b, g) == AfterUpdates(AfterUpdates(m, a, g), b, g)
  {
    if b == [] {
      assert a + b == a;
    } else {
      assert (a + b)[..|a + b| - 1] == a + b[..|b| - 1];
      UpdatesConcat(m, a, b[..|b| - 1], g);
    }
  }

  lemma {:induction false} InsertsConcat(m: Option<MirrorRow>, a: seq<MirrorInsert>, b: seq<MirrorInsert>, g: Guid)
    ensures AfterInserts(m, a + b, g) == AfterInserts(AfterInserts(m, a, g), b, g)
  {
    if b == [] {
      assert a + b == a;
    } else {
      assert (a + b)[..|a + b| - 1] == a + b[..|b| - 1];
      InsertsConcat(m, a, b[..|b| - 1], g);
    }
  }

  lemma {:induction false} MergesConcat(l: Option<LocalRow>, a: seq<Login>, b: seq<Login>, g: Guid, now: int)
    ensures AfterMerges(l, a + b, g, now) == AfterMerges(AfterMerges(l, a, g, now), b, g, now)
  {
    if b == [] {
      assert a + b == a;
    } else {
      assert (a + b)[..|a + b| - 1] == a + b[..|b| - 1];
      MergesConcat(l, a, b[..|b| - 1], g, now);
    }
  }

  /** What a plan for one record does to a guid of another record: at most it
      takes away the local row of a duplicate. */
  lemma {:induction false} PlanOneElsewhere(d: SyncData, dupe: DupeFinder, clocks: Clocks, g: Guid,
                                            l: Option<LocalRow>, m: Option<MirrorRow>, now: int)
    requires Proper([d]) && d.guid != g
    ensures var p := PlanOne(d, dupe, clocks);
      && g !in p.deleteMirror && (g in p.deleteLocal <==> Replaced(d, dupe) == Some(g))
      && AfterUpdates(m, p.mirrorUpdates, g) == m && AfterInserts(m, p.mirrorInserts, g) == m
      && AfterMerges(l, p.localUpdates, g, now) == l
  {
  }

  lemma FindAppend(ds: seq<SyncData>, d: SyncData, g: Guid)
    ensures Find(ds + [d], g) == if d.guid == g then Some(d) else Find(ds, g)
  {
    assert (ds + [d])[..|ds|] == ds;
  }

  lemma ProperAppend(ds: seq<SyncData>, d: SyncData)
    requires Proper(ds) && Find(ds, d.guid) == None
    requires (d.inbound.Some? ==> d.inbound.value.id == d.guid) && KeyedBy(d.cell, d.guid)
    ensures Proper(ds + [d])
  {
    assert (ds + [d])[..|ds|] == ds;
  }

  lemma LastIsProper(ds: seq<SyncData>)
    requires Proper(ds) && ds != []
    ensures Proper([ds[|ds| - 1]])
  {
    assert [ds[|ds| - 1]][..0] == [];
  }

  /** A plan acts on a guid as the plan for that guid's own record does, except
      that the local row may also go as a duplicate. */
  lemma {:induction false} PlanAboutGuid(ds: seq<SyncData>, dupe: DupeFinder, clocks: Clocks, g: Guid,
                                         l: Option<LocalRow>, m: Option<MirrorRow>, now: int)
    requires Proper(ds)
    ensures var p := PlanOf(ds, dupe, clocks);
      var own := if Find(ds, g).Some? then PlanOne(Find(ds, g).value, dupe, clocks) else NO_PLAN;
      && (g in p.deleteMirror <==> g in own.deleteMirror)
      && (g in p.deleteLocal <==> g in own.deleteLocal || IsReplaced(ds, dupe, g))
      && AfterUpdates(m, p.mirrorUpdates, g) == AfterUpdates(m, own.mirrorUpdates, g)
      && AfterInserts(m, p.mirrorInserts, g) == AfterInserts(m, own.mirrorInserts, g)
      && AfterMerges(l, p.localUpdates, g, now) == AfterMerges(l, own.localUpdates, g, now)
  {
    if ds != [] {
      var init, d := ds[..|ds| - 1], ds[|ds| - 1];
      var p, q := PlanOf(init, dupe, clocks), PlanOne(d, dupe, clocks);
      PlanAboutGuid(init, dupe, clocks, g, l, m, now);
      UpdatesConcat(m, p.mirrorUpdates, q.mirrorUpdates, g);
      InsertsConcat(m, p.mirrorInserts, q.mirrorInserts, g);
      MergesConcat(l, p.localUpdates, q.localUpdates, g, now);
      if d.guid != g {
        LastIsProper(ds);
        PlanOneElsewhere(d, dupe, clocks, g, AfterMerges(l, p.localUpdates, g, now), AfterUpdates(m, p.mirrorUpdates, g), now);
        PlanOneElsewhere(d, dupe, clocks, g, l, AfterInserts(m, p.mirrorInserts, g), now);
      }
    }
  }

  lemma {:induction false} FoundIsProper(ds: seq<SyncData>, g: Guid)
    requires Proper(ds) && Find(ds, g).Some?
    ensures Find(ds, g).value.guid == g && Proper([Find(ds, g).value])
  {
    if ds[|ds| - 1].guid != g {
      FoundIsProper(ds[..|ds| - 1], g);
    } else {
      LastIsProper(ds);
    }
  }

  lemma {:induction false} ReconciledIsKeyed(ds: seq<SyncData>, g: Guid, c: Cell, dupe: DupeFinder, clocks: Clocks, now: int)
    requires Proper(ds) && KeyedBy(c, g)
    ensures KeyedBy(Reconciled(ds, g, c, dupe, clocks, now), g)
  {
    if Find(ds, g).Some? {
      FoundIsProper(ds, g);
    }
  }

  /** Deleting, updating and inserting in the plan's order does to every guid
      exactly what the reconciliation of the changeset says. */
  lemma {:induction false} PlanCarriesOutReconciliation(ds: seq<SyncData>, g: Guid, c: Cell, dupe: DupeFinder, clocks: Clocks, now: int)
    requires Proper(ds) && KeyedBy(c, g)
    requires Find(ds, g).Some? ==> Find(ds, g).value.cell == c
    ensures Executed(PlanOf(ds, dupe, clocks), g, c, now) == Reconciled(ds, g, c, dupe, clocks, now)
  {
    var p := PlanOf(ds, dupe, clocks);
    var mirror := if g in p.deleteMirror then None else c.mirror;
    var local := if g in p.deleteLocal then None else c.local;
    PlanAboutGuid(ds, dupe, clocks, g, local, mirror, now);
    PlanAboutGuid(ds, dupe, clocks, g, local, AfterUpdates(mirror, p.mirrorUpdates, g), now);
    if Find(ds, g).Some? {
      FoundIsProper(ds, g);
      var d := Find(ds, g).value;
      PlanOneHere(d, dupe, clocks, now);
    }
  }

  /** The plan for one record, acting on the record's own guid. */
  lemma {:induction false} PlanOneHere(d: SyncData, dupe: DupeFinder, clocks: Clocks, now: int)
    requires Proper([d])
    ensures Executed(PlanOne(d, dupe, clocks), d.guid, d.cell, now) ==
      var met := if d.inbound.None? then EMPTY else Met(d.cell, d.inbound.value, d.time, dupe, clocks, now);
      if Replaced(d, dupe) == Some(d.guid) then met.(local := None) else met
  {
    var p := PlanOne(d, dupe, clocks);
    var g, m, l := d.guid, d.cell.mirror, d.cell.local;
    if d.inbound.Some? {
      if m.Some? {
        OneUpdate(m, p.mirrorUpdates[0], g);
        assert p.mirrorUpdates == [p.mirrorUpdates[0]];
        if l.Some? {
          OneMerge(l, p.localUpdates[0], g, now);
          assert p.localUpdates == [p.localUpdates[0]];
        }
      } else {
        OneInsert(m, p.mirrorInserts[0], g);
        assert p.mirrorInserts == [p.mirrorInserts[0]];
      }
    }
  }

  lemma OneUpdate(m: Option<MirrorRow>, u: MirrorUpdate, g: Guid)
    ensures AfterUpdates(m, [u], g) == if u.login.id == g && m.Some? then Some(UpdatedMirror(m.value, u)) else m
  {
    assert [u][..0] == [];
  }

  lemma OneInsert(m: Option<MirrorRow>, i: MirrorInsert, g: Guid)
    ensures AfterInserts(m, [i], g) == if i.login.id == g && m.None? then Some(MirrorRow(i.login, i.isOverride, i.time)) else m
  {
    assert [i][..0] == [];
  }

  lemma OneMerge(l: Option<LocalRow>, merged: Login, g: Guid, now: int)
    ensures AfterMerges(l, [merged], g, now) == if merged.id == g && l.Some? then Some(MergedLocal(l.value, merged, now)) else l
  {
    assert [merged][..0] == [];
  }

  /** A local login is replaced exactly if it is the duplicate of an incoming login
      that is new here and has a password no older. */
  lemma {:induction false} ReplacedIff(ds: seq<SyncData>, dupe: DupeFinder, g: Guid)
    ensures IsReplaced(ds, dupe, g) <==> exists i | 0 <= i < |ds| :: IsDuplicate(ds[i], dupe, g)
  {
    if ds != [] {
      var init := ds[..|ds| - 1];
      ReplacedIff(init, dupe, g);
      assert forall i | 0 <= i < |init| :: init[i] == ds[i];
      assert Replaced(ds[|ds| - 1], dupe) == Some(g) <==> IsDuplicate(ds[|ds| - 1], dupe, g);
    }
  }

  predicate IsDuplicate(d: SyncData, dupe: DupeFinder, g: Guid) {
    && d.cell.local.None? && d.cell.mirror.None? && d.inbound.Some? && dupe(d.inbound.value).Some?
    && dupe(d.inbound.value).value.id == g
    && dupe(d.inbound.value).value.timePasswordChanged <= d.inbound.value.timePasswordChanged
  }
}
