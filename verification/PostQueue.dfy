/**
 The queue that turns records into batched POST requests, with its two limit
 trackers and its response handler, and the upload that drives it.

 Each method is proved equal to a function of module UploadQueue; `Upload`
 states what follows for whole uploads.
 */
module PostQueue {
  import opened Wrappers
  import opened UploadProtocol
  import opened UploadLedger
  import opened UploadQueue
  import opened UploadOutcome

  /** A (bytes, records) pair of limits and what has been used of them. */
  class LimitTracker {
    const maxBytes: nat
    const maxRecords: nat
    var curBytes: nat
    var curRecords: nat

    constructor (maxBytes: nat, maxRecords: nat)
      ensures this.maxBytes == maxBytes && this.maxRecords == maxRecords
      ensures Used() == NOTHING
    {
      this.maxBytes, this.maxRecords := maxBytes, maxRecords;
      curBytes, curRecords := 0, 0;
    }

    ghost function Used(): Used
      reads this
    {
      UploadLedger.Used(curBytes, curRecords)
    }

    method Clear()
      modifies this
      ensures Used() == NOTHING
    {
      curRecords := 0;
      curBytes := 0;
    }

    predicate CanAddRecord(payloadSize: nat)
      reads this
    {
      curRecords < maxRecords && curBytes + payloadSize <= maxBytes
    }

    predicate CanNeverAdd(recordSize: nat) {
      recordSize >= maxBytes
    }

    /** Counts one more record; `ok` is false where the source's assertion fires. */
    method RecordAdded(recordSize: nat) returns (ok: bool)
      modifies this
      ensures ok == CanAdd(old(Used()), maxBytes, maxRecords, recordSize)
      ensures Used() == if ok then Add(old(Used()), recordSize) else old(Used())
    {
      if !CanAddRecord(recordSize) {
        return false;
      }
      curRecords := curRecords + 1;
      curBytes := curBytes + recordSize;
      return true;
    }
  }

  class NormalResponseHandler {
    const allowFailed: bool
    var failedIds: seq<string>
    var successfulIds: seq<string>
    var pendingFailed: seq<string>
    var pendingSuccess: seq<string>

    constructor (allowFailed: bool)
      ensures this.allowFailed == allowFailed
      ensures Ids() == UploadQueue.Ids([], [], [], [])
    {
      this.allowFailed := allowFailed;
      failedIds, successfulIds, pendingFailed, pendingSuccess := [], [], [], [];
    }

    ghost function Ids(): Ids
      reads this
    {
      UploadQueue.Ids(successfulIds, failedIds, pendingSuccess, pendingFailed)
    }

    method HandleResponse(r: PostResponse, midBatch: bool) returns (error: Option<Error>)
      modifies this
      ensures error == match Handle(old(Ids()), allowFailed, r, midBatch) case Ok(_) => None case Err(e) => Some(e)
      ensures Ids() == match Handle(old(Ids()), allowFailed, r, midBatch) case Ok(ids) => ids case Err(_) => old(Ids())
    {
      if !IsSuccess(r) {
        return Some(if r.status == PRECONDITION_FAILED then BatchInterrupted else StorageHttpError(r.status));
      }
      if r.failed != [] && !allowFailed {
        return Some(RecordUploadFailed);
      }
      for i := 0 to |r.success|
        invariant Ids() == old(Ids()).(pendingSuccess := old(pendingSuccess) + r.success[..i])
      {
        pendingSuccess := pendingSuccess + [r.success[i]];
      }
      for i := 0 to |r.failed|
        invariant Ids() == old(Ids()).(pendingSuccess := old(pendingSuccess) + r.success,
                                       pendingFailed := old(pendingFailed) + r.failed[..i])
      {
        pendingFailed := pendingFailed + [r.failed[i]];
      }
      if !midBatch {
        successfulIds, pendingSuccess := successfulIds + pendingSuccess, [];
        failedIds, pendingFailed := failedIds + pendingFailed, [];
      }
      return None;
    }
  }

  class PostQueue {
    const cfg: InfoConfiguration
    const server: Server
    const onResponse: NormalResponseHandler
    const postLimits: LimitTracker
    const batchLimits: LimitTracker
    var queued: seq<Byte>
    var batch: BatchState
    var lastModified: int
    /** Everything posted so far, as the server saw it. */
    var wire: seq<Post>

    constructor (cfg: InfoConfiguration, ts: int, server: Server, onResponse: NormalResponseHandler)
      requires onResponse.Ids() == Ids([], [], [], [])
      ensures Valid() && this.onResponse == onResponse && fresh(postLimits) && fresh(batchLimits)
      ensures Env() == UploadQueue.Env(cfg, server, onResponse.allowFailed)
      ensures State() == Fresh(ts)
    {
      this.cfg, this.server, this.onResponse := cfg, server, onResponse;
      postLimits := new LimitTracker(cfg.maxPostBytes, cfg.maxPostRecords);
      batchLimits := new LimitTracker(cfg.maxTotalBytes, cfg.maxTotalRecords);
      queued, batch, lastModified, wire := [], NoBatch, ts, [];
    }

    ghost predicate Valid() {
      && postLimits != batchLimits
      && postLimits.maxBytes == cfg.maxPostBytes && postLimits.maxRecords == cfg.maxPostRecords
      && batchLimits.maxBytes == cfg.maxTotalBytes && batchLimits.maxRecords == cfg.maxTotalRecords
    }

    ghost function Env(): Env {
      UploadQueue.Env(cfg, server, onResponse.allowFailed)
    }

    ghost function State(): Queue
      reads this, postLimits, batchLimits, onResponse
    {
      Queue(queued, batch, lastModified, postLimits.Used(), batchLimits.Used(), onResponse.Ids(), wire)
    }

    predicate IsInBatch()
      reads this
    {
      match batch
      case Unsupported => false
      case NoBatch => false
      case InBatch(_) => true
    }

    method Enqueue(record: Bso) returns (r: Outcome<bool, Error>)
      requires Valid()
      modifies this, postLimits, batchLimits, onResponse
      ensures r == Enqueued(Env(), old(State()), record).1
      ensures !r.Panicked? ==> State() == Enqueued(Env(), old(State()), record).0
    {
      var payloadLength := record.payloadLength;
      if postLimits.CanNeverAdd(payloadLength) || batchLimits.CanNeverAdd(payloadLength)
         || payloadLength >= cfg.maxRecordPayloadBytes {
        return Done(false);
      }
      var itemStart := |queued|;
      queued := queued + [if queued == [] then OPEN else COMMA] + record.json;
      var itemLen := |queued| - itemStart + 1;
      if itemLen >= cfg.maxRequestBytes {
        queued := queued[..itemStart];
        assert queued == old(queued);
        return Done(false);
      }
      var canPost := postLimits.CanAddRecord(payloadLength);
      var canBatch := batchLimits.CanAddRecord(payloadLength);
      var canSend := |queued| < cfg.maxRequestBytes;
      if !canPost || !canSend || !canBatch {
        queued := queued[..itemStart];
        assert queued == old(queued);
        var flushed := Flush(!canBatch);
        if flushed.Failed? {
          return Failed(flushed.error);
        } else if flushed.Panicked? {
          return Panicked;
        }
        queued := queued + [if queued == [] then OPEN else COMMA] + record.json;
      }
      var ok := postLimits.RecordAdded(payloadLength);
      if !ok {
        return Panicked;
      }
      ok := batchLimits.RecordAdded(payloadLength);
      return if ok then Done(true) else Panicked;
    }

    method Flush(wantCommit: bool) returns (r: Outcome<(), Error>)
      requires Valid()
      modifies this, postLimits, batchLimits, onResponse
      ensures r == Flushed(Env(), old(State()), wantCommit).1
      ensures State() == Flushed(Env(), old(State()), wantCommit).0
    {
      if queued == [] {
        return if IsInBatch() then Panicked else Done(());
      }
      queued := queued + [CLOSE];
      var batchId := BatchParam(batch);
      var isCommit := wantCommit && batchId.Some?;
      wire := wire + [Post(queued, lastModified, batchId, isCommit)];
      var answer := server(wire);
      queued := [];
      if wantCommit || batch == Unsupported {
        batchLimits.Clear();
      }
      postLimits.Clear();
      if answer.Err? {
        return Failed(answer.error);
      }
      r := Receive(answer.value, wantCommit);
    }

    /** The rest of a flush, once there is an answer. */
    method Receive(resp: PostResponse, wantCommit: bool) returns (r: Outcome<(), Error>)
      requires Valid()
      modifies this, batchLimits, onResponse
      ensures !IsSuccess(resp) ==> State() == old(State()) && r == Failed(Handle(old(State()).ids, onResponse.allowFailed, resp, !wantCommit).error)
      ensures IsSuccess(resp) ==>
        var (q, e) := Received(Env(), old(State()), wantCommit, resp);
        State() == q && r == if e.Some? then Failed(e.value) else Done(())
    {
      if !IsSuccess(resp) {
        var refused := onResponse.HandleResponse(resp, !wantCommit);
        return Failed(if refused.Some? then refused.value else StorageHttpError(resp.status));
      }
      if wantCommit || batch == Unsupported {
        lastModified := resp.lastModified;
      }
      var error: Option<Error>;
      if wantCommit {
        batch := NoBatch;
        error := onResponse.HandleResponse(resp, false);
      } else if resp.status != ACCEPTED {
        if IsInBatch() {
          return Failed(ServerBatchProblem);
        }
        lastModified := resp.lastModified;
        batch := Unsupported;
        batchLimits.Clear();
        error := onResponse.HandleResponse(resp, false);
      } else {
        if resp.batch.None? || (batch.InBatch? && batch.id != resp.batch.value) {
          return Failed(ServerBatchProblem);
        }
        batch := InBatch(resp.batch.value);
        lastModified := resp.lastModified;
        error := onResponse.HandleResponse(resp, true);
      }
      return if error.Some? then Failed(error.value) else Done(());
    }

    /** The ids of the upload; whatever is still pending counts as failed. */
    method CompletedUploadInfo() returns (info: UploadInfo)
      modifies onResponse
      ensures var ids := old(onResponse.Ids());
        info == UploadInfo(ids.success, ids.failed + ids.pendingFailed + ids.pendingSuccess, lastModified)
      ensures onResponse.Ids() == Ids([], [], [], [])
    {
      info := UploadInfo(onResponse.successfulIds,
                         onResponse.failedIds + onResponse.pendingFailed + onResponse.pendingSuccess, lastModified);
      onResponse.successfulIds, onResponse.failedIds := [], [];
      onResponse.pendingFailed, onResponse.pendingSuccess := [], [];
    }
  }

  /** Enqueues record after record, stopping at the first failure. */
  method EnqueueAll(q: PostQueue, records: seq<Bso>, fullyAtomic: bool) returns (r: Outcome<(), Error>)
    requires q.Valid() && q.Env().allowFailed == !fullyAtomic
    modifies q, q.postLimits, q.batchLimits, q.onResponse
    ensures r == EnqueuedAll(q.Env(), old(q.State()), records).1
    ensures !r.Panicked? ==> q.State() == EnqueuedAll(q.Env(), old(q.State()), records).0
  {
    for i := 0 to |records|
      invariant EnqueuedAll(q.Env(), old(q.State()), records[..i]) == (q.State(), Done(()))
    {
      assert records[..i + 1][..i] == records[..i];
      var enqueued := q.Enqueue(records[i]);
      if enqueued != Done(true) && (enqueued != Done(false) || fullyAtomic) {
        StopsHere(q.Env(), old(q.State()), records, i + 1);
        return match enqueued
          case Failed(e) => Failed(e)
          case Panicked => Panicked
          case Done(_) => Failed(RecordTooLarge);
      }
    }
    assert records[..|records|] == records;
    return Done(());
  }

  /** Uploads records against any server. */
  method Upload(cfg: InfoConfiguration, ts: int, server: Server, records: seq<Bso>, fullyAtomic: bool)
    returns (r: Outcome<UploadInfo, Error>, wire: seq<Post>)
    ensures !r.Panicked? ==> IsExplained(cfg, ts, records, server, !fullyAtomic, wire, r)
    ensures !r.Panicked? ==> LawfulWire(cfg, records, wire, r.Done?)
    ensures r.Done? ==> LawfulAnswers(server, ts, wire, r.value)
    ensures r.Done? && fullyAtomic ==> r.value.failedIds == [] && Kept(cfg, records) == records
    ensures r.Panicked? <==> AdmitsNothing(cfg) && SomeRecordTried(Env(cfg, server, !fullyAtomic), records)
  {
    r, wire := UploadAll(cfg, ts, server, records, fullyAtomic);
    UploadIsLawful(Env(cfg, server, !fullyAtomic), ts, records);
    UploadIsExplained(Env(cfg, server, !fullyAtomic), ts, records);
  }

  method UploadAll(cfg: InfoConfiguration, ts: int, server: Server, records: seq<Bso>, fullyAtomic: bool)
    returns (r: Outcome<UploadInfo, Error>, wire: seq<Post>)
    ensures r == Uploaded(Env(cfg, server, !fullyAtomic), ts, records).1
    ensures !r.Panicked? ==> wire == Uploaded(Env(cfg, server, !fullyAtomic), ts, records).0.wire
  {
    var handler := new NormalResponseHandler(!fullyAtomic);
    var q := new PostQueue(cfg, ts, server, handler);
    var enqueued := EnqueueAll(q, records, fullyAtomic);
    if !enqueued.Done? {
      return if enqueued.Failed? then Failed(enqueued.error) else Panicked, q.wire;
    }
    var flushed := q.Flush(true);
    if !flushed.Done? {
      return if flushed.Failed? then Failed(flushed.error) else Panicked, q.wire;
    }
    var info := q.CompletedUploadInfo();
    if fullyAtomic && info.failedIds != [] {
      return Panicked, q.wire;
    }
    return Done(info), q.wire;
  }

  /** Once an enqueue has stopped an upload, the later records change nothing. */
  lemma {:induction false} StopsHere(env: Env, q: Queue, rs: seq<Bso>, i: nat)
    requires i <= |rs| && !EnqueuedAll(env, q, rs[..i]).1.Done?
    ensures EnqueuedAll(env, q, rs) == EnqueuedAll(env, q, rs[..i])
  {
    if i == |rs| {
      assert rs[..i] == rs;
    } else {
      assert rs[..|rs| - 1][..i] == rs[..i];
      StopsHere(env, q, rs[..|rs| - 1], i);
    }
  }
}
