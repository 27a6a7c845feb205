/**
 One sync of the login store: download what is new, reconcile, upload what is
 outgoing, confirm it. Against a server that takes every upload it acts on each
 guid as module Convergence says.
 */
module LoginSync {
  import opened Wrappers
  import opened LoginRecord
  import opened LoginCells
  import opened LoginPlan
  import opened LoginDb
  import opened Convergence
  import LoginRuns

  /** The server's collection. */
  type Collection = map<Guid, Remote>

  lemma {:induction false} FoundInData(t: Tables, changes: seq<Incoming>, g: Guid)
    ensures OfGuid(changes, GuidOf, g) == [] ==> Find(DataOf(t, changes), g) == None
    ensures |OfGuid(changes, GuidOf, g)| == 1 ==> Find(DataOf(t, changes), g) == Some(DatumOf(t, OfGuid(changes, GuidOf, g)[0]))
  {
    if changes != [] {
      FoundInData(t, changes[..|changes| - 1], g);
      FindAppend(DataOf(t, changes[..|changes| - 1]), DatumOf(t, changes[|changes| - 1]), g);
    }
  }

  lemma {:induction false} KnownGuid(changes: seq<Incoming>, g: Guid)
    ensures g in GuidsOf(changes) <==> OfGuid(changes, GuidOf, g) != []
  {
    if changes != [] {
      KnownGuid(changes[..|changes| - 1], g);
    }
  }

  /** Readable records under guids that come at most once are acceptable. */
  lemma {:induction false} OnceEach(changes: seq<Incoming>)
    requires forall g :: |OfGuid(changes, GuidOf, g)| <= 1
    requires forall i | i in changes :: i.Incoming?
    ensures Acceptable(changes)
  {
    if changes != [] {
      var init, last := changes[..|changes| - 1], changes[|changes| - 1];
      assert changes == init + [last];
      forall g ensures |OfGuid(init, GuidOf, g)| <= 1 {
        assert |OfGuid(changes, GuidOf, g)| <= 1;
      }
      OnceEach(init);
      KnownGuid(init, GuidOf(last));
      assert |OfGuid(changes, GuidOf, GuidOf(last))| <= 1;
    }
  }

  /** The records changed after `since`, in some order. */
  method Fetch(remote: Collection, since: int) returns (changes: seq<Incoming>)
    requires KeyedCollection(remote)
    ensures forall g ::
      OfGuid(changes, GuidOf, g) == if g in remote && remote[g].modified > since then [Incoming(remote[g].record, remote[g].modified)] else []
    ensures Acceptable(changes)
  {
    var newer := map g | g in remote && remote[g].modified > since :: Incoming(remote[g].record, remote[g].modified);
    changes := Select(newer, GuidOf);
    AllIncoming(changes);
    OnceEach(changes);
  }

  lemma {:induction false} AllIncoming(changes: seq<Incoming>)
    requires forall g :: forall i | i in OfGuid(changes, GuidOf, g) :: i.Incoming?
    ensures forall i | i in changes :: i.Incoming?
  {
    forall i | i in changes ensures i.Incoming? {
      InOwnGuid(changes, i);
    }
  }

  lemma {:induction false} InOwnGuid(changes: seq<Incoming>, i: Incoming)
    requires i in changes
    ensures i in OfGuid(changes, GuidOf, GuidOf(i))
  {
    if changes[|changes| - 1] != i {
      assert i in changes[..|changes| - 1];
      InOwnGuid(changes[..|changes| - 1], i);
    }
  }

  ghost function StoredIn(remote: Collection, out: seq<Payload>, time: int): Collection {
    if out == [] then remote
    else StoredIn(remote, out[..|out| - 1], time)[PayloadGuid(out[|out| - 1]) := Remote(out[|out| - 1], time)]
  }

  ghost function GuidsIn(out: seq<Payload>): seq<Guid> {
    if out == [] then [] else GuidsIn(out[..|out| - 1]) + [PayloadGuid(out[|out| - 1])]
  }

  lemma {:induction false} StoredAt(remote: Collection, out: seq<Payload>, time: int, g: Guid)
    ensures g in GuidsIn(out) <==> OfGuid(out, PayloadGuid, g) != []
    ensures var mine := OfGuid(out, PayloadGuid, g);
      LookUp(StoredIn(remote, out, time), g) == if mine == [] then LookUp(remote, g) else Some(Remote(mine[|mine| - 1], time))
  {
    if out != [] {
      StoredAt(remote, out[..|out| - 1], time, g);
    }
  }

  lemma {:induction false} GuidsAreDistinct(out: seq<Payload>)
    requires forall g :: |OfGuid(out, PayloadGuid, g)| <= 1
    ensures LoginRuns.Distinct(GuidsIn(out))
  {
    if out != [] {
      var init, last := out[..|out| - 1], out[|out| - 1];
      forall g ensures |OfGuid(init, PayloadGuid, g)| <= 1 {
        assert |OfGuid(out, PayloadGuid, g)| <= 1;
      }
      GuidsAreDistinct(init);
      assert |OfGuid(out, PayloadGuid, PayloadGuid(last))| <= 1;
      StoredAt(map[], init, 0, PayloadGuid(last));
    }
  }

  /** Uploads all payloads; the server stores each and answers for its guid. */
  method Store(remote: Collection, out: seq<Payload>, time: int) returns (remote': Collection, ids: seq<Guid>)
    ensures remote' == StoredIn(remote, out, time) && ids == GuidsIn(out)
  {
    remote', ids := remote, [];
    for i := 0 to |out|
      invariant remote' == StoredIn(remote, out[..i], time) && ids == GuidsIn(out[..i])
    {
      assert out[..i + 1][..i] == out[..i];
      remote' := remote'[PayloadGuid(out[i]) := Remote(out[i], time)];
      ids := ids + [PayloadGuid(out[i])];
    }
    assert out[..|out|] == out;
  }

  /** The circumstances of one sync; `fetched` and `uploaded` are the server times
      of the download and of the upload, if anything is sent. */
  datatype Session = Session(dupe: DupeFinder, clocks: Clocks, now: int, fetched: int, uploaded: int)

  /** The sync as one guid sees it, given the time that is kept at the end. */
  function AsVisit(s: Session, lastSync: Option<int>): Visit {
    Visit(s.clocks, s.now, s.dupe, s.uploaded, Since(lastSync))
  }

  /** Records are stored under their own guid. */
  ghost predicate KeyedCollection(remote: Collection) {
    forall g | g in remote :: PayloadGuid(remote[g].record) == g
  }

  /** A whole sync. */
  method Synchronize(db: LoginDb, remote: Collection, s: Session, limit: nat) returns (remote': Collection, ghost data: seq<SyncData>)
    requires Keyed(db.State()) && KeyedCollection(remote) && limit > 0
    modifies db
    ensures Keyed(db.State()) && (old(db.IsTidy()) ==> db.IsTidy()) && (old(db.Valid()) ==> db.Valid())
    ensures db.lastSync == Some(s.uploaded) || (db.lastSync == Some(s.fetched) && remote' == remote)
    ensures KeyedCollection(remote')
    ensures EachVisited(old(db.State()), Since(old(db.lastSync)), remote, db.State(), remote', data, AsVisit(s, db.lastSync))
  {
    ghost var t0 := db.State();
    var since := Since(db.lastSync);
    var changes := Fetch(remote, since);
    data := DataOf(t0, changes);
    var r := db.ApplyIncoming(changes, s.dupe, s.clocks, s.now);
    var out := r.value;
    ghost var t1 := db.State();
    var ids: seq<Guid>;
    remote', ids := Store(remote, out, s.uploaded);
    StoredIsKeyed(remote, out, s.uploaded);
    db.MarkAsSynchronized(ids, if out == [] then s.fetched else s.uploaded, limit);
    StaysKeyed(t1, db.State(), ids, limit, db.lastSync.value);
    SyncOfAll(t0, t1, db.State(), changes, out, remote, since, limit, AsVisit(s, db.lastSync));
  }

  lemma StaysKeyed(t: Tables, t': Tables, guids: seq<Guid>, limit: nat, ts: int)
    requires Keyed(t) && Stepped(LoginRuns.Finish(guids, limit, ts), t, t')
    ensures Keyed(t')
  {
    forall g ensures KeyedBy(CellOf(t', g), g) {
      assert KeyedBy(CellOf(t, g), g);
      StepStaysKeyed(LoginRuns.Finish(guids, limit, ts), g, CellOf(t, g));
    }
  }

  lemma {:induction false} StoredIsKeyed(remote: Collection, out: seq<Payload>, time: int)
    requires KeyedCollection(remote)
    ensures KeyedCollection(StoredIn(remote, out, time))
  {
    if out != [] {
      StoredIsKeyed(remote, out[..|out| - 1], time);
    }
  }

  /** Every guid went through the sync as it would alone, except that another
      record of the changeset may have replaced its local row as a duplicate. */
  ghost predicate EachVisited(t: Tables, since: int, remote: Collection, t': Tables, remote': Collection, data: seq<SyncData>, v: Visit) {
    forall g ::
      (Client(CellOf(t', g), v.finished), LookUp(remote', g))
      == Visited(g, Client(CellOf(t, g), since), LookUp(remote, g), v, IsReplaced(data, v.dupe, g))
  }

  lemma {:induction false} SyncOfAll(t0: Tables, t1: Tables, t2: Tables, changes: seq<Incoming>, out: seq<Payload>,
                                     remote: Collection, since: int, limit: nat, v: Visit)
    requires limit > 0
    requires forall g ::
      OfGuid(changes, GuidOf, g) == if g in remote && remote[g].modified > since then [Incoming(remote[g].record, remote[g].modified)] else []
    requires KeyedCollection(remote)
    requires Stepped(LoginRuns.ApplyIncoming(DataOf(t0, changes), v.dupe, v.clocks, v.now), t0, t1)
    requires forall g :: OfGuid(out, PayloadGuid, g) == match Outgoing(CellOf(t1, g)) case None => [] case Some(p) => [p]
    requires Stepped(LoginRuns.Finish(GuidsIn(out), limit, v.finished), t1, t2)
    ensures EachVisited(t0, since, remote, t2, StoredIn(remote, out, v.uploaded), DataOf(t0, changes), v)
  {
    GuidsAreDistinct(out);
    forall g
      ensures (Client(CellOf(t2, g), v.finished), LookUp(StoredIn(remote, out, v.uploaded), g))
        == Visited(g, Client(CellOf(t0, g), since), LookUp(remote, g), v, IsReplaced(DataOf(t0, changes), v.dupe, g))
    {
      SyncOfGuid(g, t0, t1, changes, out, remote, since, limit, v);
    }
  }

  lemma {:induction false} SyncOfGuid(g: Guid, t0: Tables, t1: Tables, changes: seq<Incoming>, out: seq<Payload>,
                                      remote: Collection, since: int, limit: nat, v: Visit)
    requires limit > 0 && LoginRuns.Distinct(GuidsIn(out))
    requires OfGuid(changes, GuidOf, g) ==
      if g in remote && remote[g].modified > since then [Incoming(remote[g].record, remote[g].modified)] else []
    requires g in remote ==> PayloadGuid(remote[g].record) == g
    requires CellOf(t1, g) == Reconciled(DataOf(t0, changes), g, CellOf(t0, g), v.dupe, v.clocks, v.now)
    requires OfGuid(out, PayloadGuid, g) == match Outgoing(CellOf(t1, g)) case None => [] case Some(p) => [p]
    ensures var c := LoginRuns.Marked(GuidsIn(out), limit, g, CellOf(t1, g), v.finished);
      (Client(c, v.finished), LookUp(StoredIn(remote, out, v.uploaded), g))
      == Visited(g, Client(CellOf(t0, g), since), LookUp(remote, g), v, IsReplaced(DataOf(t0, changes), v.dupe, g))
  {
    FoundInData(t0, changes, g);
    StoredAt(remote, out, v.uploaded, g);
    LoginRuns.DistinctNamedOnce(GuidsIn(out), limit, g);
    LoginRuns.ChunkingIsHarmless(GuidsIn(out), limit, g, CellOf(t1, g), v.finished);
    GuidAsVisited(DataOf(t0, changes), g, Client(CellOf(t0, g), since), LookUp(remote, g), v);
  }

  function Since(lastSync: Option<int>): int {
    if lastSync.Some? then lastSync.value else 0
  }

  /** A whole changeset acts on a guid as its own record does, and then takes
      the local row away if another record replaces it. */
  lemma {:induction false} GuidAsVisited(ds: seq<SyncData>, g: Guid, c: Client, r: Option<Remote>, v: Visit)
    requires Find(ds, g) == (if Download(g, c, r) == [] then None else Some(Download(g, c, r)[0]))
    ensures var own := Reconciled(Download(g, c, r), g, c.cell, v.dupe, v.clocks, v.now);
      Reconciled(ds, g, c.cell, v.dupe, v.clocks, v.now) == if IsReplaced(ds, v.dupe, g) then own.(local := None) else own
  {
    if Download(g, c, r) != [] {
      OneRecord(Download(g, c, r)[0], v.dupe);
    }
  }

  // ----- convergence of stores

  lemma VisitedAt(t: Tables, since: int, remote: Collection, t': Tables, remote': Collection, data: seq<SyncData>, v: Visit, g: Guid)
    requires EachVisited(t, since, remote, t', remote', data, v)
    ensures (Client(CellOf(t', g), v.finished), LookUp(remote', g))
      == Visited(g, Client(CellOf(t, g), since), LookUp(remote, g), v, IsReplaced(data, v.dupe, g))
  {
  }

  lemma VisibleAt(t: Tables, g: Guid)
    ensures LookUp(VisibleLogins(t), g) == Visible(CellOf(t, g))
  {
  }

  /** One sync of a store: what it was, what it met, what it is now. */
  datatype StoreSync = StoreSync(before: Tables, since: int, met: Collection, after: Tables, left: Collection, data: seq<SyncData>, visit: Visit)

  ghost predicate IsSync(s: StoreSync) {
    EachVisited(s.before, s.since, s.met, s.after, s.left, s.data, s.visit)
  }

  ghost predicate LosesRow(s: StoreSync, g: Guid) {
    IsReplaced(s.data, s.visit.dupe, g)
  }

  /** Two stores that share a base login and have edited it: after `a`, `b` and
      `a` have synced, each time with any other records, both show the same
      under its guid exactly when the edits will agree despite the rows that
      are replaced as duplicates. */
  lemma {:induction false} StoresConverge(base: Login, t: int, a1: StoreSync, b1: StoreSync, a2: StoreSync)
    requires IsSync(a1) && IsSync(b1) && IsSync(a2)
    requires b1.met == a1.left && a2.met == b1.left && a2.before == a1.after && a2.since == a1.visit.finished
    requires Positive(base) && LookUp(a1.met, base.id) == Some(Remote(Record(base), t))
    requires Edited(base, t, CellOf(a1.before, base.id)) && Edited(base, t, CellOf(b1.before, base.id))
    requires InOrder(t, Client(CellOf(a1.before, base.id), a1.since), Client(CellOf(b1.before, base.id), b1.since),
                     a1.visit, b1.visit, LosesRow(a1, base.id))
    ensures LookUp(VisibleLogins(a2.after), base.id) == LookUp(VisibleLogins(b1.after), base.id) <==>
      WillAgreeDespite(CellOf(a1.before, base.id), CellOf(b1.before, base.id), LosesRow(a1, base.id), LosesRow(b1, base.id), LosesRow(a2, base.id))
  {
    var g := base.id;
    VisitedAt(a1.before, a1.since, a1.met, a1.after, a1.left, a1.data, a1.visit, g);
    VisitedAt(b1.before, b1.since, b1.met, b1.after, b1.left, b1.data, b1.visit, g);
    VisitedAt(a2.before, a2.since, a2.met, a2.after, a2.left, a2.data, a2.visit, g);
    VisibleAt(a2.after, g);
    VisibleAt(b1.after, g);
    SyncsConvergeDespite(base, t, Client(CellOf(a1.before, g), a1.since), Client(CellOf(b1.before, g), b1.since),
                         a1.visit, b1.visit, a2.visit, LosesRow(a1, g), LosesRow(b1, g), LosesRow(a2, g));
  }

  /** What `a` uploads in its first sync is newer than the base, so it keeps the time of the upload. */
  lemma {:induction false} UploadIsNoticed(base: Login, t: int, a1: StoreSync)
    requires IsSync(a1) && LookUp(a1.met, base.id) == Some(Remote(Record(base), t)) && t <= a1.since
    requires Edited(base, t, CellOf(a1.before, base.id)) && t < a1.visit.uploaded
    requires Outgoing(CellOf(a1.before, base.id)).Some? && !LosesRow(a1, base.id)
    ensures a1.left != a1.met
  {
    var g := base.id;
    VisitedAt(a1.before, a1.since, a1.met, a1.after, a1.left, a1.data, a1.visit, g);
    FirstSync(base, t, Client(CellOf(a1.before, g), a1.since), a1.visit, false);
  }

  /** Two stores sync in turn against one server. `base` is a login they shared,
      changed last at `t`, which both may have edited since. */
  method SyncInTurn(a: LoginDb, b: LoginDb, remote: Collection, s1: Session, s2: Session, s3: Session, limit: nat,
                    ghost base: Login, ghost t: int) returns (ghost a1: StoreSync, ghost b1: StoreSync, ghost a2: StoreSync)
    requires a != b && Keyed(a.State()) && Keyed(b.State()) && KeyedCollection(remote) && limit > 0
    requires Positive(base) && LookUp(remote, base.id) == Some(Remote(Record(base), t))
    requires Edited(base, t, CellOf(a.State(), base.id)) && Edited(base, t, CellOf(b.State(), base.id))
    requires t <= Since(a.lastSync) <= s1.fetched <= s1.uploaded && t <= Since(b.lastSync) < s1.uploaded < s2.uploaded
    modifies a, b
    ensures a1.before == old(a.State()) && b1.before == old(b.State()) && a2.after == a.State() && b1.after == b.State()
    ensures IsSync(a1) && IsSync(b1) && IsSync(a2)
    ensures LookUp(VisibleLogins(a.State()), base.id) == LookUp(VisibleLogins(b.State()), base.id) <==>
      WillAgreeDespite(CellOf(old(a.State()), base.id), CellOf(old(b.State()), base.id),
                       LosesRow(a1, base.id), LosesRow(b1, base.id), LosesRow(a2, base.id))
  {
    ghost var ta, tb, sinceA, sinceB := a.State(), b.State(), Since(a.lastSync), Since(b.lastSync);
    var remote1, data1 := Synchronize(a, remote, s1, limit);
    a1 := StoreSync(ta, sinceA, remote, a.State(), remote1, data1, AsVisit(s1, a.lastSync));
    if Outgoing(CellOf(ta, base.id)).Some? && !LosesRow(a1, base.id) {
      UploadIsNoticed(base, t, a1);
    }
    var remote2, data2 := Synchronize(b, remote1, s2, limit);
    b1 := StoreSync(tb, sinceB, remote1, b.State(), remote2, data2, AsVisit(s2, b.lastSync));
    ghost var middle := a.State();
    var remote3, data3 := Synchronize(a, remote2, s3, limit);
    a2 := StoreSync(middle, a1.visit.finished, remote2, a.State(), remote3, data3, AsVisit(s3, a.lastSync));
    StoresConverge(base, t, a1, b1, a2);
  }
}
