/**
 The upload queue as functions on values, and what every run of it keeps.

 The imperative queue (module PostQueue) is proved equal to these functions;
 the theorems about whole uploads are proved here.
 */
module UploadQueue {
  import opened Wrappers
  import opened UploadProtocol
  import opened UploadLedger

  /** What a queue is created with. */
  datatype Env = Env(cfg: InfoConfiguration, server: Server, allowFailed: bool)

  /** The id lists of the response handler. */
  datatype Ids = Ids(success: seq<string>, failed: seq<string>, pendingSuccess: seq<string>, pendingFailed: seq<string>)

  datatype Queue = Queue(queued: seq<Byte>, batch: BatchState, lastModified: int, post: Used, total: Used, ids: Ids, wire: seq<Post>)

  function Fresh(ts: int): Queue {
    Queue([], NoBatch, ts, NOTHING, NOTHING, Ids([], [], [], []), [])
  }

  // ----- the steps

  function Handle(ids: Ids, allowFailed: bool, r: PostResponse, midBatch: bool): Result<Ids, Error> {
    if !IsSuccess(r) then
      Err(if r.status == PRECONDITION_FAILED then BatchInterrupted else StorageHttpError(r.status))
    else if r.failed != [] && !allowFailed then
      Err(RecordUploadFailed)
    else
      var ps, pf := ids.pendingSuccess + r.success, ids.pendingFailed + r.failed;
      Ok(if midBatch then ids.(pendingSuccess := ps, pendingFailed := pf)
         else Ids(ids.success + ps, ids.failed + pf, [], []))
  }

  /** The post that a flush would send. */
  function NextPost(q: Queue, wantCommit: bool): Post {
    Post(q.queued + [CLOSE], q.lastModified, BatchParam(q.batch), wantCommit && BatchParam(q.batch).Some?)
  }

  /** The queue once the buffer is posted, before the answer is looked at. */
  function Posted(q: Queue, wantCommit: bool): Queue {
    q.(queued := [], post := NOTHING, wire := q.wire + [NextPost(q, wantCommit)],
       total := if wantCommit || q.batch == Unsupported then NOTHING else q.total)
  }

  /** The queue after a success answer, or the error and the queue it leaves. */
  function Received(env: Env, q: Queue, wantCommit: bool, r: PostResponse): (Queue, Option<Error>) {
    var q0 := if wantCommit || q.batch == Unsupported then q.(lastModified := r.lastModified) else q;
    match NextMode(q.batch, wantCommit, r)
    case None => (q0, Some(ServerBatchProblem))
    case Some(mode) =>
      var q1 := q.(batch := mode, lastModified := r.lastModified, total := if mode == Unsupported then NOTHING else q.total);
      match Handle(q.ids, env.allowFailed, r, !wantCommit && r.status == ACCEPTED)
      case Err(e) => (q1, Some(e))
      case Ok(ids) => (q1.(ids := ids), None)
  }

  function Flushed(env: Env, q: Queue, wantCommit: bool): (Queue, Outcome<(), Error>) {
    if q.queued == [] then
      (q, if q.batch.InBatch? then Panicked else Done(()))
    else
      var q' := Posted(q, wantCommit);
      match env.server(q'.wire)
      case Err(e) => (q', Failed(e))
      case Ok(r) =>
        if !IsSuccess(r) then (q', Failed(Handle(q.ids, env.allowFailed, r, !wantCommit).error))
        else
          var (q'', e) := Received(env, q', wantCommit, r);
          (q'', if e.Some? then Failed(e.value) else Done(()))
  }

  predicate CanAdd(used: Used, maxBytes: nat, maxRecords: nat, size: nat) {
    used.records < maxRecords && used.bytes + size <= maxBytes
  }

  function Add(used: Used, size: nat): Used {
    Used(used.bytes + size, used.records + 1)
  }

  function Written(queued: seq<Byte>, r: Bso): seq<Byte> {
    queued + [if queued == [] then OPEN else COMMA] + r.json
  }

  /** The last part of an enqueue: write the record and count it. */
  function Counted(env: Env, q: Queue, r: Bso): (Queue, Outcome<bool, Error>) {
    var n := r.payloadLength;
    if CanAdd(q.post, env.cfg.maxPostBytes, env.cfg.maxPostRecords, n)
       && CanAdd(q.total, env.cfg.maxTotalBytes, env.cfg.maxTotalRecords, n) then
      (q.(queued := Written(q.queued, r), post := Add(q.post, n), total := Add(q.total, n)), Done(true))
    else
      (q, Panicked)
  }

  predicate Fits(env: Env, q: Queue, r: Bso) {
    && CanAdd(q.post, env.cfg.maxPostBytes, env.cfg.maxPostRecords, r.payloadLength)
    && CanAdd(q.total, env.cfg.maxTotalBytes, env.cfg.maxTotalRecords, r.payloadLength)
    && |Written(q.queued, r)| < env.cfg.maxRequestBytes
  }

  function Enqueued(env: Env, q: Queue, r: Bso): (Queue, Outcome<bool, Error>) {
    if TooLarge(env.cfg, r) then (q, Done(false))
    else if Fits(env, q, r) then Counted(env, q, r)
    else
      var canBatch := CanAdd(q.total, env.cfg.maxTotalBytes, env.cfg.maxTotalRecords, r.payloadLength);
      var (q', f) := Flushed(env, q, !canBatch);
      match f
      case Failed(e) => (q', Failed(e))
      case Panicked => (q', Panicked)
      case Done(_) => Counted(env, q', r)
  }

  /** Enqueues record after record until one fails. */
  function EnqueuedAll(env: Env, q: Queue, rs: seq<Bso>): (Queue, Outcome<(), Error>) {
    if rs == [] then (q, Done(()))
    else
      var (q', done) := EnqueuedAll(env, q, rs[..|rs| - 1]);
      if !done.Done? then (q', done)
      else
        var (q'', e) := Enqueued(env, q', rs[|rs| - 1]);
        match e
        case Failed(error) => (q'', Failed(error))
        case Panicked => (q'', Panicked)
        case Done(ok) => (q'', if ok || env.allowFailed then Done(()) else Failed(RecordTooLarge))
  }

  /** A whole upload. */
  function Uploaded(env: Env, ts: int, rs: seq<Bso>): (Queue, Outcome<UploadInfo, Error>) {
    var (q, e) := EnqueuedAll(env, Fresh(ts), rs);
    match e
    case Failed(error) => (q, Failed(error))
    case Panicked => (q, Panicked)
    case Done(_) =>
      var (q', f) := Flushed(env, q, true);
      match f
      case Failed(error) => (q', Failed(error))
      case Panicked => (q', Panicked)
      case Done(_) =>
        var info := UploadInfo(q'.ids.success, q'.ids.failed + q'.ids.pendingFailed + q'.ids.pendingSuccess, q'.lastModified);
        (q', if !env.allowFailed && info.failedIds != [] then Panicked else Done(info))
  }

  // ----- what every run keeps

  ghost predicate SoundQueue(env: Env, q: Queue, l: Ledger) {
    && Sound(env.cfg, q.batch, q.queued, q.post, q.total, l)
    && PostsOf(l.history) == q.wire
  }

  lemma {:induction false} PostedSound(env: Env, q: Queue, l: Ledger, wantCommit: bool)
    requires SoundQueue(env, q, l) && q.queued != []
    ensures SoundQueue(env, Posted(q, wantCommit), AfterSend(l, NextPost(q, wantCommit)))
    ensures q.batch == Unsupported || wantCommit ==> OpenRun(AfterSend(l, NextPost(q, wantCommit)).history) == []
  {
    SendKeepsSound(env.cfg, q.batch, q.queued, q.post, q.total, l, NextPost(q, wantCommit));
  }

  lemma {:induction false} ReceivedSound(env: Env, q: Queue, l: Ledger, wantCommit: bool, r: PostResponse)
    requires SoundQueue(env, q, l) && l.pending == [] && q.queued == [] && IsSuccess(r)
    requires q.batch == Unsupported || wantCommit ==> q.total == NOTHING && OpenRun(l.history) == []
    ensures SoundQueue(env, Received(env, q, wantCommit, r).0, l)
  {
    var m := NextMode(q.batch, wantCommit, r);
    if m.Some? {
      ModeKeepsSound(env.cfg, q.batch, q.total, l, m.value);
    }
  }

  /** A flush keeps the ledger sound whatever the server answers; it empties the
      buffer and loses nothing that was accepted. */
  lemma {:induction false} FlushedSound(env: Env, q: Queue, l: Ledger, wantCommit: bool) returns (l': Ledger)
    requires SoundQueue(env, q, l)
    ensures var q' := Flushed(env, q, wantCommit).0;
      && SoundQueue(env, q', l')
      && l'.accepted == l.accepted && l'.pending == []
      && (q'.total == NOTHING || q'.total == q.total)
      && (wantCommit && l.pending != [] ==> q'.total == NOTHING)
      && l' == (if q.queued == [] then l else AfterSend(l, NextPost(q, wantCommit)))
  {
    if q.queued == [] {
      l' := l;
    } else {
      l' := AfterSend(l, NextPost(q, wantCommit));
      PostedSound(env, q, l, wantCommit);
      var q' := Posted(q, wantCommit);
      var answer := env.server(q'.wire);
      if answer.Ok? && IsSuccess(answer.value) {
        ReceivedSound(env, q', l', wantCommit, answer.value);
      }
    }
  }

  /** Between two calls of an upload a batch is open only if records wait in the buffer. */
  ghost predicate Rested(q: Queue, l: Ledger) {
    l.pending == [] ==> !q.batch.InBatch? && q.total == NOTHING
  }

  /** The server's configuration admits no record at all. */
  predicate AdmitsNothing(cfg: InfoConfiguration) {
    cfg.maxPostRecords == 0 || cfg.maxTotalRecords == 0
  }

  lemma {:induction false} CountedSound(env: Env, q: Queue, l: Ledger, r: Bso) returns (l': Ledger)
    requires SoundQueue(env, q, l) && |Written(q.queued, r)| < env.cfg.maxRequestBytes
    ensures SoundQueue(env, Counted(env, q, r).0, l')
    ensures Counted(env, q, r).1.Done? ==> l'.accepted == l.accepted + [r] && l'.pending != []
    ensures !Counted(env, q, r).1.Done? ==> l' == l
  {
    l' := l;
    if Counted(env, q, r).1.Done? {
      AddKeepsSound(env.cfg, q.batch, q.queued, q.post, q.total, l, r, Written(q.queued, r));
      l' := Ledger(l.accepted + [r], l.pending + [r], l.history);
    }
  }

  /** An enqueue keeps the ledger sound; it accepts a record exactly when it
      answers true, and it refuses exactly the records that are too large. */
  lemma {:induction false} EnqueuedSound(env: Env, q: Queue, l: Ledger, r: Bso) returns (l': Ledger)
    requires SoundQueue(env, q, l)
    ensures var (q', e) := Enqueued(env, q, r);
      && SoundQueue(env, q', l')
      && (e == Done(false) <==> TooLarge(env.cfg, r))
      && (e == Done(false) ==> q' == q && l' == l)
      && (e == Done(true) ==> l'.accepted == l.accepted + [r] && l'.pending != [])
      && (e != Done(true) ==> l'.accepted == l.accepted)
  {
    if TooLarge(env.cfg, r) {
      l' := l;
    } else if Fits(env, q, r) {
      l' := CountedSound(env, q, l, r);
    } else {
      var canBatch := CanAdd(q.total, env.cfg.maxTotalBytes, env.cfg.maxTotalRecords, r.payloadLength);
      var flushed := Flushed(env, q, !canBatch);
      l' := FlushedSound(env, q, l, !canBatch);
      assert q.queued == [] <==> l.pending == [];
      if flushed.1.Done? {
        assert flushed.0.queued == [];
        l' := CountedSound(env, flushed.0, l', r);
      }
    }
  }

  /** Between the calls of an upload an enqueue panics exactly when nothing is
      admitted, and then it does not fail in any other way. */
  lemma {:induction false} EnqueuedStops(env: Env, q: Queue, l: Ledger, r: Bso)
    requires SoundQueue(env, q, l) && Rested(q, l)
    ensures var e := Enqueued(env, q, r).1;
      && (e.Panicked? <==> !TooLarge(env.cfg, r) && AdmitsNothing(env.cfg))
      && (AdmitsNothing(env.cfg) ==> !e.Failed?)
  {
    if !TooLarge(env.cfg, r) && !Fits(env, q, r) {
      var canBatch := CanAdd(q.total, env.cfg.maxTotalBytes, env.cfg.maxTotalRecords, r.payloadLength);
      var l' := FlushedSound(env, q, l, !canBatch);
      assert AdmitsNothing(env.cfg) ==> l.pending == [];
      assert Flushed(env, q, !canBatch).0.post == NOTHING;
    }
  }

  // ----- what every run without a failure keeps

  /** Ids are committed for the settled exchanges and pending for the others. */
  ghost predicate Tracks(ids: Ids, es: seq<Exchange>) {
    var n := Settled(es);
    && ids.success == SuccessIds(es[..n]) && ids.pendingSuccess == SuccessIds(es[n..])
    && ids.failed == FailedIds(es[..n]) && ids.pendingFailed == FailedIds(es[n..])
  }

  lemma {:induction false} TracksMid(ids: Ids, es: seq<Exchange>, e: Exchange)
    requires Tracks(ids, es) && Mid(e)
    ensures Tracks(ids.(pendingSuccess := ids.pendingSuccess + e.response.success,
                        pendingFailed := ids.pendingFailed + e.response.failed), es + [e])
  {
    var n := Settled(es);
    SplitAppend(es, e, n);
    IdsAppend(es[n..], e);
    assert (es + [e])[..|es|] == es;
  }

  lemma SplitAppend(es: seq<Exchange>, e: Exchange, n: nat)
    requires n <= |es|
    ensures (es + [e])[..n] == es[..n] && (es + [e])[n..] == es[n..] + [e]
  {
  }

  lemma Regroup(a: seq<string>, b: seq<string>, c: seq<string>)
    ensures a + (b + c) == (a + b) + c
  {
  }

  lemma {:induction false} TracksClosing(ids: Ids, es: seq<Exchange>, e: Exchange)
    requires Tracks(ids, es) && !Mid(e)
    ensures Tracks(Ids(ids.success + (ids.pendingSuccess + e.response.success),
                       ids.failed + (ids.pendingFailed + e.response.failed), [], []), es + [e])
  {
    var n, es' := Settled(es), es + [e];
    assert SuccessIds(es) == ids.success + ids.pendingSuccess && FailedIds(es) == ids.failed + ids.pendingFailed by {
      assert es[..n] + es[n..] == es;
      IdsConcat(es[..n], es[n..]);
    }
    IdsAppend(es, e);
    Regroup(ids.success, ids.pendingSuccess, e.response.success);
    Regroup(ids.failed, ids.pendingFailed, e.response.failed);
    assert es'[..|es'|] == es' && es'[|es'|..] == [];
  }

  /** Every post was answered, the answers obey the protocol, the queue's mode
      and timestamp follow them, and every id is in the right list. */
  ghost predicate Good(env: Env, start: int, q: Queue, es: seq<Exchange>) {
    && Answered(env.server, start, q.wire, q.batch, q.lastModified, es)
    && Tracks(q.ids, es)
    && (!env.allowFailed ==> FailedIds(es) == [])
  }

  /** What a success answer does to the ids: it leaves them pending or settles all. */
  function Settle(ids: Ids, e: Exchange): Ids {
    if Mid(e) then
      ids.(pendingSuccess := ids.pendingSuccess + e.response.success, pendingFailed := ids.pendingFailed + e.response.failed)
    else
      Ids(ids.success + (ids.pendingSuccess + e.response.success), ids.failed + (ids.pendingFailed + e.response.failed), [], [])
  }

  /** The exchange of a flush that succeeds, and the queue it leaves. */
  lemma {:induction false} FlushExchanges(env: Env, q: Queue, wantCommit: bool) returns (e: Exchange)
    requires q.queued != [] && Flushed(env, q, wantCommit).1.Done?
    ensures e.post == NextPost(q, wantCommit) && e.wantCommit == wantCommit
    ensures env.server(q.wire + [e.post]) == Ok(e.response) && IsSuccess(e.response) && (env.allowFailed || e.response.failed == [])
    ensures var q', mode := Flushed(env, q, wantCommit).0, NextMode(q.batch, wantCommit, e.response);
      && mode == Some(q'.batch) && q'.lastModified == e.response.lastModified
      && q'.wire == q.wire + [e.post] && q'.ids == Settle(q.ids, e)
  {
    var post := NextPost(q, wantCommit);
    e := Exchange(post, wantCommit, env.server(q.wire + [post]).value);
  }

  lemma {:induction false} ExchangeKeepsGood(env: Env, start: int, q: Queue, es: seq<Exchange>, q': Queue, e: Exchange)
    requires Good(env, start, q, es) && e.post == NextPost(q, e.wantCommit)
    requires env.server(q.wire + [e.post]) == Ok(e.response) && IsSuccess(e.response) && (env.allowFailed || e.response.failed == [])
    requires NextMode(q.batch, e.wantCommit, e.response) == Some(q'.batch) && q'.lastModified == e.response.lastModified
    requires q'.wire == q.wire + [e.post] && q'.ids == Settle(q.ids, e)
    ensures Good(env, start, q', es + [e])
  {
    AnswerKeepsAnswered(env.server, start, q.wire, q.batch, q.lastModified, es, e);
    if Mid(e) {
      TracksMid(q.ids, es, e);
    } else {
      TracksClosing(q.ids, es, e);
    }
    IdsAppend(es, e);
  }

  lemma {:induction false} FlushedGood(env: Env, start: int, q: Queue, es: seq<Exchange>, wantCommit: bool) returns (es': seq<Exchange>)
    requires Good(env, start, q, es)
    requires Flushed(env, q, wantCommit).1.Done?
    ensures Good(env, start, Flushed(env, q, wantCommit).0, es')
    ensures wantCommit ==> !Flushed(env, q, wantCommit).0.batch.InBatch?
  {
    if q.queued == [] {
      es' := es;
    } else {
      var e := FlushExchanges(env, q, wantCommit);
      ExchangeKeepsGood(env, start, q, es, Flushed(env, q, wantCommit).0, e);
      es' := es + [e];
    }
  }

  lemma {:induction false} EnqueuedGood(env: Env, start: int, q: Queue, es: seq<Exchange>, r: Bso) returns (es': seq<Exchange>)
    requires Good(env, start, q, es)
    requires Enqueued(env, q, r).1.Done?
    ensures Good(env, start, Enqueued(env, q, r).0, es')
  {
    es' := es;
    if !TooLarge(env.cfg, r) && !Fits(env, q, r) {
      var canBatch := CanAdd(q.total, env.cfg.maxTotalBytes, env.cfg.maxTotalRecords, r.payloadLength);
      es' := FlushedGood(env, start, q, es, !canBatch);
    }
  }

  // ----- whole uploads

  /** Some record reaches the counters: it is not refused, and no refusal before it stopped the upload. */
  ghost predicate SomeRecordTried(env: Env, rs: seq<Bso>) {
    rs != [] && (SomeRecordTried(env, rs[..|rs| - 1])
                 || (!TooLarge(env.cfg, rs[|rs| - 1]) && (env.allowFailed || |rs| == 1)))
  }

  lemma {:induction false} EnqueuedAllSound(env: Env, ts: int, rs: seq<Bso>) returns (l: Ledger)
    ensures var (q, e) := EnqueuedAll(env, Fresh(ts), rs);
      && SoundQueue(env, q, l)
      && l.accepted <= Kept(env.cfg, rs)
      && (e.Done? ==> Rested(q, l) && l.accepted == Kept(env.cfg, rs))
  {
    if rs == [] {
      l := Ledger([], [], []);
    } else {
      l := EnqueuedAllSound(env, ts, rs[..|rs| - 1]);
      var (q, e) := EnqueuedAll(env, Fresh(ts), rs[..|rs| - 1]);
      if e.Done? {
        l := NextSound(env, q, l, rs[|rs| - 1]);
      }
    }
  }

  lemma {:induction false} NextSound(env: Env, q: Queue, l: Ledger, r: Bso) returns (l': Ledger)
    requires SoundQueue(env, q, l) && Rested(q, l)
    ensures var (q', e) := Enqueued(env, q, r);
      && SoundQueue(env, q', l')
      && (e.Done? ==> Rested(q', l') && l'.accepted == l.accepted + if TooLarge(env.cfg, r) then [] else [r])
      && (!e.Done? ==> l'.accepted == l.accepted && !TooLarge(env.cfg, r))
  {
    l' := EnqueuedSound(env, q, l, r);
  }

  /** How the next enqueue of an upload ends. */
  lemma {:induction false} NextEnqueue(env: Env, ts: int, rs: seq<Bso>, r: Bso)
    requires EnqueuedAll(env, Fresh(ts), rs).1.Done?
    ensures var e := Enqueued(env, EnqueuedAll(env, Fresh(ts), rs).0, r).1;
      && (e == Done(false) <==> TooLarge(env.cfg, r))
      && (AdmitsNothing(env.cfg) ==> !e.Failed?)
      && (e.Panicked? <==> !TooLarge(env.cfg, r) && AdmitsNothing(env.cfg))
  {
    var l := EnqueuedAllSound(env, ts, rs);
    EnqueuedStops(env, EnqueuedAll(env, Fresh(ts), rs).0, l, r);
    l := EnqueuedSound(env, EnqueuedAll(env, Fresh(ts), rs).0, l, r);
  }

  lemma {:induction false} EnqueuedAllStops(env: Env, ts: int, rs: seq<Bso>)
    ensures var e := EnqueuedAll(env, Fresh(ts), rs).1;
      && (e.Panicked? <==> AdmitsNothing(env.cfg) && SomeRecordTried(env, rs))
      && (e.Done? && !env.allowFailed ==> Kept(env.cfg, rs) == rs)
      && (e.Failed? && AdmitsNothing(env.cfg) ==> !env.allowFailed && rs != [])
  {
    if rs != [] {
      var init, last := rs[..|rs| - 1], rs[|rs| - 1];
      EnqueuedAllStops(env, ts, init);
      var (q, e) := EnqueuedAll(env, Fresh(ts), init);
      assert rs == init + [last];
      if e.Done? {
        NextEnqueue(env, ts, init, last);
        if init != [] && !env.allowFailed {
          KeptRecordsAreTried(env, init);
        }
      }
    }
  }

  lemma {:induction false} KeptRecordsAreTried(env: Env, rs: seq<Bso>)
    requires rs != [] && Kept(env.cfg, rs) == rs
    ensures SomeRecordTried(env, rs)
  {
    var init, last := rs[..|rs| - 1], rs[|rs| - 1];
    KeptIsNoLonger(env.cfg, init);
    assert !TooLarge(env.cfg, last);
    if |rs| > 1 {
      assert Kept(env.cfg, init) == rs[..|rs| - 1];
      KeptRecordsAreTried(env, init);
    }
  }

  lemma {:induction false} EnqueuedAllGood(env: Env, ts: int, rs: seq<Bso>) returns (es: seq<Exchange>)
    requires EnqueuedAll(env, Fresh(ts), rs).1.Done?
    ensures Good(env, ts, EnqueuedAll(env, Fresh(ts), rs).0, es)
  {
    if rs == [] {
      es := [];
    } else {
      es := EnqueuedAllGood(env, ts, rs[..|rs| - 1]);
      es := EnqueuedGood(env, ts, EnqueuedAll(env, Fresh(ts), rs[..|rs| - 1]).0, es, rs[|rs| - 1]);
    }
  }

  /** Whatever the server answers, everything an upload sent kept the limits and
      is made of records that fit, in order; when it succeeds it sent all of
      them, once each. */
  lemma {:induction false} UploadSendsEveryRecord(env: Env, ts: int, rs: seq<Bso>) returns (l: Ledger)
    ensures var (q, e) := Uploaded(env, ts, rs);
      && PostsOf(l.history) == q.wire && HistoryWithinLimits(env.cfg, l.history)
      && AllRecords(l.history) <= Kept(env.cfg, rs)
      && (e.Done? ==> AllRecords(l.history) == Kept(env.cfg, rs))
  {
    l := EnqueuedAllSound(env, ts, rs);
    var (q, e) := EnqueuedAll(env, Fresh(ts), rs);
    if e.Done? {
      l := FlushedSound(env, q, l, true);
    }
    assert l.accepted == AllRecords(l.history) + l.pending;
  }

  /** An upload panics exactly when the server admits no record and some record
      is tried. */
  lemma {:induction false} UploadStops(env: Env, ts: int, rs: seq<Bso>)
    ensures var e := Uploaded(env, ts, rs).1;
      && (e.Done? && !env.allowFailed ==> Kept(env.cfg, rs) == rs)
      && (e.Panicked? <==> AdmitsNothing(env.cfg) && SomeRecordTried(env, rs))
  {
    EnqueuedAllStops(env, ts, rs);
    if EnqueuedAll(env, Fresh(ts), rs).1.Done? {
      FinalFlushStops(env, ts, rs);
      if Flushed(env, EnqueuedAll(env, Fresh(ts), rs).0, true).1.Done? {
        var es := UploadSettlesEveryId(env, ts, rs);
      }
    }
  }

  lemma {:induction false} FinalFlushStops(env: Env, ts: int, rs: seq<Bso>)
    requires EnqueuedAll(env, Fresh(ts), rs).1.Done?
    ensures !Flushed(env, EnqueuedAll(env, Fresh(ts), rs).0, true).1.Panicked?
  {
    var l := EnqueuedAllSound(env, ts, rs);
  }

  /** The panic is real: against any server, when no record may be posted, a small
      record panics. */
  lemma ZeroLimitPanics(server: Server, allowFailed: bool, ts: int)
    ensures var cfg := InfoConfiguration(100, 0, 100, 100, 100, 100);
      Uploaded(Env(cfg, server, allowFailed), ts, [Bso("a", 1, [])]).1.Panicked?
  {
    var cfg := InfoConfiguration(100, 0, 100, 100, 100, 100);
    var r := Bso("a", 1, []);
    assert !TooLarge(cfg, r) && [r][..0] == [];
    assert SomeRecordTried(Env(cfg, server, allowFailed), [r]);
    UploadStops(Env(cfg, server, allowFailed), ts, [r]);
  }

  /** A successful upload obeyed the protocol at every post, left no batch open,
      and reports every id the server answered for, nothing as still pending. */
  lemma {:induction false} UploadSettlesEveryId(env: Env, ts: int, rs: seq<Bso>) returns (es: seq<Exchange>)
    requires EnqueuedAll(env, Fresh(ts), rs).1.Done?
    requires Flushed(env, EnqueuedAll(env, Fresh(ts), rs).0, true).1.Done?
    ensures var (q, e) := Uploaded(env, ts, rs);
      && e.Done?
      && AnsweredBy(env.server, q.wire, es) && Conforms(ts, es) && !ModeAfter(es).InBatch?
      && e.value == UploadInfo(SuccessIds(es), FailedIds(es), Timestamp(ts, es))
      && (!env.allowFailed ==> e.value.failedIds == [])
  {
    es := EnqueuedAllGood(env, ts, rs);
    es := FlushedGood(env, ts, EnqueuedAll(env, Fresh(ts), rs).0, es, true);
    PendingOnlyInBatch(ts, es);
    assert es[..|es|] == es && es[|es|..] == [];
  }

  // ----- ids at every point of an upload, failed calls included

  predicate HasPending(ids: Ids) {
    ids.pendingSuccess != [] || ids.pendingFailed != []
  }

  /** The last post was a commit that the server took, but with a failed record
      although none may fail. */
  predicate RefusedCommit(env: Env, wire: seq<Post>) {
    && wire != [] && wire[|wire| - 1].commit && !env.allowFailed
    && env.server(wire).Ok? && IsSuccess(env.server(wire).value) && env.server(wire).value.failed != []
  }

  /** `es` are the exchanges of the posts whose calls succeeded, and the ids follow
      them; ids are pending outside a batch exactly after a refused commit. */
  ghost predicate Accounted(env: Env, start: int, q: Queue, es: seq<Exchange>) {
    && |es| <= |q.wire| && AnsweredBy(env.server, q.wire[..|es|], es) && Conforms(start, es)
    && Tracks(q.ids, es)
    && (HasPending(q.ids) ==> (!q.batch.InBatch? <==> RefusedCommit(env, q.wire)))
  }

  /** A flush that does not succeed settles nothing and adds nothing. */
  lemma FailedFlushKeepsIds(env: Env, q: Queue, wantCommit: bool)
    requires !Flushed(env, q, wantCommit).1.Done?
    ensures Flushed(env, q, wantCommit).0.ids == q.ids
  {
  }

  lemma {:induction false} GoodIsAccounted(env: Env, start: int, q: Queue, es: seq<Exchange>)
    requires Good(env, start, q, es)
    ensures Accounted(env, start, q, es)
  {
    PendingOnlyInBatch(start, es);
    assert q.wire[..|es|] == q.wire;
    if es != [] && RefusedCommit(env, q.wire) {
      FailedIn(es);
    }
  }

  lemma FailedIn(es: seq<Exchange>)
    requires es != [] && es[|es| - 1].response.failed != []
    ensures FailedIds(es) != []
  {
  }

  /** A flush that fails leaves ids pending outside a batch exactly if it was the
      commit of a batch with pending ids and the answer had a failed record. */
  lemma {:induction false} FailedFlushAccounted(env: Env, start: int, q: Queue, es: seq<Exchange>, wantCommit: bool)
    requires Good(env, start, q, es) && !Flushed(env, q, wantCommit).1.Done?
    ensures Accounted(env, start, Flushed(env, q, wantCommit).0, es)
  {
    GoodIsAccounted(env, start, q, es);
    PendingOnlyInBatch(start, es);
    FailedFlushKeepsIds(env, q, wantCommit);
    var q' := Flushed(env, q, wantCommit).0;
    assert q'.wire[..|es|] == q.wire;
    if HasPending(q.ids) && q.queued != [] {
      FailedFlushInBatch(env, q, wantCommit);
    }
  }

  lemma {:induction false} FailedFlushInBatch(env: Env, q: Queue, wantCommit: bool)
    requires q.batch.InBatch? && q.queued != [] && !Flushed(env, q, wantCommit).1.Done?
    ensures var q' := Flushed(env, q, wantCommit).0;
      !q'.batch.InBatch? <==> RefusedCommit(env, q'.wire)
  {
    var wire := q.wire + [NextPost(q, wantCommit)];
    assert wire[|wire| - 1] == NextPost(q, wantCommit);
  }

  lemma {:induction false} FlushAccounted(env: Env, start: int, q: Queue, es: seq<Exchange>, wantCommit: bool) returns (es': seq<Exchange>)
    requires Good(env, start, q, es)
    ensures Accounted(env, start, Flushed(env, q, wantCommit).0, es')
  {
    if Flushed(env, q, wantCommit).1.Done? {
      es' := FlushedGood(env, start, q, es, wantCommit);
      GoodIsAccounted(env, start, Flushed(env, q, wantCommit).0, es');
    } else {
      es' := es;
      FailedFlushAccounted(env, start, q, es, wantCommit);
    }
  }

  lemma {:induction false} CountAccounted(env: Env, start: int, q: Queue, es: seq<Exchange>, r: Bso)
    requires Good(env, start, q, es)
    ensures Good(env, start, Counted(env, q, r).0, es)
  {
  }

  lemma {:induction false} EnqueueAccounted(env: Env, start: int, q: Queue, es: seq<Exchange>, r: Bso) returns (es': seq<Exchange>)
    requires Good(env, start, q, es)
    ensures Accounted(env, start, Enqueued(env, q, r).0, es')
  {
    es' := es;
    if TooLarge(env.cfg, r) {
      GoodIsAccounted(env, start, q, es);
    } else if Fits(env, q, r) {
      CountAccounted(env, start, q, es, r);
      GoodIsAccounted(env, start, Counted(env, q, r).0, es);
    } else {
      var canBatch := CanAdd(q.total, env.cfg.maxTotalBytes, env.cfg.maxTotalRecords, r.payloadLength);
      var q' := Flushed(env, q, !canBatch).0;
      if Flushed(env, q, !canBatch).1.Done? {
        es' := FlushedGood(env, start, q, es, !canBatch);
        CountAccounted(env, start, q', es', r);
        GoodIsAccounted(env, start, Counted(env, q', r).0, es');
      } else {
        FailedFlushAccounted(env, start, q, es, !canBatch);
      }
    }
  }

  lemma {:induction false} EnqueuedAllAccounted(env: Env, ts: int, rs: seq<Bso>) returns (es: seq<Exchange>)
    ensures Accounted(env, ts, EnqueuedAll(env, Fresh(ts), rs).0, es)
  {
    if rs == [] {
      es := [];
    } else if EnqueuedAll(env, Fresh(ts), rs[..|rs| - 1]).1.Done? {
      es := EnqueuedAllGood(env, ts, rs[..|rs| - 1]);
      es := EnqueueAccounted(env, ts, EnqueuedAll(env, Fresh(ts), rs[..|rs| - 1]).0, es, rs[|rs| - 1]);
    } else {
      es := EnqueuedAllAccounted(env, ts, rs[..|rs| - 1]);
    }
  }

  /** The queue after a number of enqueues, failed or not, or after the whole upload. */
  ghost function QueueAt(env: Env, ts: int, rs: seq<Bso>, flushed: bool): Queue {
    if flushed then Uploaded(env, ts, rs).0 else EnqueuedAll(env, Fresh(ts), rs).0
  }

  lemma {:induction false} UploadAccounted(env: Env, ts: int, rs: seq<Bso>, flushed: bool) returns (es: seq<Exchange>)
    ensures Accounted(env, ts, QueueAt(env, ts, rs, flushed), es)
  {
    if flushed && EnqueuedAll(env, Fresh(ts), rs).1.Done? {
      es := EnqueuedAllGood(env, ts, rs);
      es := FlushAccounted(env, ts, EnqueuedAll(env, Fresh(ts), rs).0, es, true);
    } else {
      es := EnqueuedAllAccounted(env, ts, rs);
    }
  }

  /** At every point of an upload, failed calls and the final flush included: an
      id is reported as successful only if some answer named it and that answer's
      post was outside a batch, or a later post of the same batch closed it. Ids
      are pending outside a batch exactly after a commit whose answer had a
      failed record although none may fail. */
  lemma {:induction false} IdsWaitForTheirBatch(env: Env, ts: int, rs: seq<Bso>, flushed: bool, id: string)
    returns (es: seq<Exchange>, i: nat, j: nat)
    ensures var q := QueueAt(env, ts, rs, flushed);
      && |es| <= |q.wire| && AnsweredBy(env.server, q.wire[..|es|], es)
      && (HasPending(q.ids) ==> (!q.batch.InBatch? <==> RefusedCommit(env, q.wire)))
      && (id in q.ids.success ==>
            && i <= j < |es| && id in es[i].response.success
            && (es[j].post.commit || es[j].response.status != ACCEPTED || es[j].post.batch.None?)
            && forall k | i <= k < j :: Mid(es[k]) && es[k + 1].post.batch == es[k].response.batch)
  {
    es := UploadAccounted(env, ts, rs, flushed);
    i, j := 0, 0;
    if id in QueueAt(env, ts, rs, flushed).ids.success {
      i := AnswerNames(es[..Settled(es)], id);
      j := SettledOnlyByClosing(ts, es, i);
    }
  }

  const ONE_PER_POST: InfoConfiguration := InfoConfiguration(100, 1, 100, 100, 100, 100)

  /** A server that takes the first post into a batch and fails record b at the commit. */
  function FailsAtCommit(wire: seq<Post>): Result<PostResponse, Error> {
    if |wire| == 1 then Ok(PostResponse(ACCEPTED, Some("batch"), [], ["a"], 1)) else Ok(PostResponse(200, None, ["b"], [], 2))
  }

  /** The exception is real: an upload of two records in which none may fail ends
      outside a batch with the id of the first still pending. */
  lemma PendingOutsideBatch()
    ensures var (q, e) := Uploaded(Env(ONE_PER_POST, FailsAtCommit, false), 0, [Bso("a", 1, []), Bso("b", 1, [])]);
      e == Failed(RecordUploadFailed) && q.batch == NoBatch && q.ids.pendingSuccess == ["a"] && RefusedCommit(Env(ONE_PER_POST, FailsAtCommit, false), q.wire)
  {
    var env, a, b := Env(ONE_PER_POST, FailsAtCommit, false), Bso("a", 1, []), Bso("b", 1, []);
    assert [a, b][..1] == [a] && [a][..0] == [];
    var q1 := Enqueued(env, Fresh(0), a).0;
    assert EnqueuedAll(env, Fresh(0), [a]) == (q1, Done(()));
    assert q1.queued == [OPEN] && q1.post == Used(1, 1) && q1.total == Used(1, 1);
    var q2 := Flushed(env, q1, false).0;
    assert Flushed(env, q1, false).1 == Done(()) && q2.batch == InBatch("batch") && q2.ids == Ids([], [], ["a"], []);
    var q3 := Counted(env, q2, b).0;
    assert Enqueued(env, q1, b) == (q3, Done(true));
    assert EnqueuedAll(env, Fresh(0), [a, b]) == (q3, Done(()));
    assert |q3.wire| == 1 && |q3.wire + [NextPost(q3, true)]| == 2;
  }

  lemma {:induction false} AnswerNames(es: seq<Exchange>, id: string) returns (i: nat)
    requires id in SuccessIds(es)
    ensures i < |es| && id in es[i].response.success
  {
    if id in es[|es| - 1].response.success {
      i := |es| - 1;
    } else {
      i := AnswerNames(es[..|es| - 1], id);
    }
  }

  /** What was posted can be read as bodies of records such that every limit was
      kept and the records are the ones that fit, in order; all of them if `complete`. */
  ghost predicate LawfulWire(cfg: InfoConfiguration, rs: seq<Bso>, wire: seq<Post>, complete: bool) {
    exists h: seq<SentPost> ::
      && PostsOf(h) == wire && HistoryWithinLimits(cfg, h)
      && AllRecords(h) <= Kept(cfg, rs)
      && (complete ==> AllRecords(h) == Kept(cfg, rs))
  }

  /** The protocol was obeyed at every post, no batch is left open, and the
      upload reports exactly the ids the server answered for. */
  ghost predicate LawfulAnswers(server: Server, ts: int, wire: seq<Post>, info: UploadInfo) {
    exists es: seq<Exchange> ::
      && AnsweredBy(server, wire, es) && Conforms(ts, es) && !ModeAfter(es).InBatch?
      && info == UploadInfo(SuccessIds(es), FailedIds(es), Timestamp(ts, es))
  }

  lemma {:induction false} UploadIsLawful(env: Env, ts: int, rs: seq<Bso>)
    ensures var (q, e) := Uploaded(env, ts, rs);
      && LawfulWire(env.cfg, rs, q.wire, e.Done?)
      && (e.Done? ==> LawfulAnswers(env.server, ts, q.wire, e.value))
      && (e.Done? && !env.allowFailed ==> e.value.failedIds == [] && Kept(env.cfg, rs) == rs)
      && (e.Panicked? <==> AdmitsNothing(env.cfg) && SomeRecordTried(env, rs))
  {
    var l := UploadSendsEveryRecord(env, ts, rs);
    UploadStops(env, ts, rs);
    if Uploaded(env, ts, rs).1.Done? {
      var es := UploadSettlesEveryId(env, ts, rs);
    }
  }
}
