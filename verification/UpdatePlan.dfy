/** The plan of a reconciliation as an object that collects the changes to make. */
module UpdatePlan {
  import opened Wrappers
  import opened LoginRecord
  import opened LoginCells
  import opened LoginPlan

  class UpdatePlan {
    var deleteMirror: seq<Guid>
    var deleteLocal: seq<Guid>
    var localUpdates: seq<Login>
    var mirrorInserts: seq<MirrorInsert>
    var mirrorUpdates: seq<MirrorUpdate>

    constructor ()
      ensures Contents() == NO_PLAN
    {
      deleteMirror, deleteLocal, localUpdates, mirrorInserts, mirrorUpdates := [], [], [], [], [];
    }

    ghost function Contents(): Plan
      reads this
    {
      Plan(deleteMirror, deleteLocal, localUpdates, mirrorInserts, mirrorUpdates)
    }

    method PlanTwoWayMerge(local: Login, upstream: Login, time: int)
      modifies this
      ensures Contents() == Joined(old(Contents()), TwoWay(local, upstream, time))
    {
      var isOverride := local.timePasswordChanged > upstream.timePasswordChanged;
      mirrorInserts := mirrorInserts + [MirrorInsert(upstream, time, isOverride)];
      if !isOverride {
        deleteLocal := deleteLocal + [local.id];
      }
    }

    method PlanThreeWayMerge(local: LocalRow, shared: MirrorRow, upstream: Login, time: int, clocks: Clocks)
      modifies this
      ensures Contents() == Joined(old(Contents()), NO_PLAN.(
        mirrorUpdates := [MirrorUpdate(upstream, time)],
        localUpdates := [ThreeWay(local.login, shared.login, upstream, UpstreamIsNewer(local, time, clocks))]))
    {
      var localAge := Age(clocks.local, local.localModified);
      var remoteAge := Age(clocks.server, time);
      var localDelta := Delta(local.login, shared.login);
      var upstreamDelta := Delta(upstream, shared.login);
      var mergedDelta := Merge(localDelta, upstreamDelta, remoteAge < localAge);
      mirrorUpdates := mirrorUpdates + [MirrorUpdate(upstream, time)];
      var merged := ApplyDelta(shared.login, mergedDelta);
      localUpdates := localUpdates + [merged];
    }

    method PlanDelete(id: Guid)
      modifies this
      ensures Contents() == Joined(old(Contents()), NO_PLAN.(deleteLocal := [id], deleteMirror := [id]))
    {
      deleteLocal := deleteLocal + [id];
      deleteMirror := deleteMirror + [id];
    }

    method PlanMirrorUpdate(login: Login, time: int)
      modifies this
      ensures Contents() == Joined(old(Contents()), NO_PLAN.(mirrorUpdates := [MirrorUpdate(login, time)]))
    {
      mirrorUpdates := mirrorUpdates + [MirrorUpdate(login, time)];
    }

    method PlanMirrorInsert(login: Login, time: int, isOverride: bool)
      modifies this
      ensures Contents() == Joined(old(Contents()), NO_PLAN.(mirrorInserts := [MirrorInsert(login, time, isOverride)]))
    {
      mirrorInserts := mirrorInserts + [MirrorInsert(login, time, isOverride)];
    }
  }

  /** Plans a whole changeset, record by record. */
  method Reconcile(records: seq<SyncData>, dupe: DupeFinder, clocks: Clocks) returns (plan: UpdatePlan)
    ensures fresh(plan) && plan.Contents() == PlanOf(records, dupe, clocks)
  {
    plan := new UpdatePlan();
    for i := 0 to |records|
      invariant fresh(plan) && plan.Contents() == PlanOf(records[..i], dupe, clocks)
    {
      assert records[..i + 1][..i] == records[..i];
      ReconcileOne(plan, records[i], dupe, clocks);
    }
    assert records[..|records|] == records;
  }

  method ReconcileOne(plan: UpdatePlan, record: SyncData, dupe: DupeFinder, clocks: Clocks)
    modifies plan
    ensures plan.Contents() == Joined(old(plan.Contents()), PlanOne(record, dupe, clocks))
  {
    if record.inbound.None? {
      plan.PlanDelete(record.guid);
      return;
    }
    var upstream := record.inbound.value;
    match (record.cell.mirror, record.cell.local) {
      case (Some(mirror), Some(local)) =>
        plan.PlanThreeWayMerge(local, mirror, upstream, record.time, clocks);
      case (Some(_), None) =>
        plan.PlanMirrorUpdate(upstream, record.time);
      case (None, Some(local)) =>
        plan.PlanTwoWayMerge(local.login, upstream, record.time);
      case (None, None) =>
        match dupe(upstream) {
          case Some(local) => plan.PlanTwoWayMerge(local, upstream, record.time);
          case None => plan.PlanMirrorInsert(upstream, record.time, false);
        }
    }
  }
}
