/**
 What becomes of an upload, told from the outside: which records each post
 carries and when it commits, and which answer makes the upload fail with which
 error. None of it mentions how the queue works.
 */
module UploadOutcome {
  import opened Wrappers
  import opened UploadProtocol
  import opened UploadLedger
  import opened UploadQueue

  // ----- how records are packed into posts

  /** One more record fits in a request with these records. */
  ghost predicate FitsPost(cfg: InfoConfiguration, records: seq<Bso>, next: Bso) {
    && |records| < cfg.maxPostRecords
    && PayloadSum(records) + next.payloadLength <= cfg.maxPostBytes
    && |Buffered(records + [next])| < cfg.maxRequestBytes
  }

  /** One more record fits in a batch with these records. */
  ghost predicate FitsBatch(cfg: InfoConfiguration, run: seq<Bso>, next: Bso) {
    |run| < cfg.maxTotalRecords && PayloadSum(run) + next.payloadLength <= cfg.maxTotalBytes
  }

  /** The records that count against the batch limits once the last post is out. */
  ghost function RunOf(h: seq<SentPost>): seq<Bso>
    requires h != []
  {
    if h[|h| - 1].post.batch.None? then h[|h| - 1].records else BatchRun(h)
  }

  /** The last post is to be the last of its batch: nothing is left of `all`, or
      the next record does not fit in the batch. */
  ghost predicate EndsBatch(cfg: InfoConfiguration, all: seq<Bso>, h: seq<SentPost>)
    requires h != []
  {
    var n := |AllRecords(h)|;
    n >= |all| || !FitsBatch(cfg, RunOf(h), all[n])
  }

  /** Posts carry the records of `all` in order, each as many as fit, and commit
      exactly where a batch has to end. */
  ghost predicate Packed(cfg: InfoConfiguration, all: seq<Bso>, h: seq<SentPost>) {
    h == [] || (
      var s, n := h[|h| - 1], |AllRecords(h)|;
      && Packed(cfg, all, h[..|h| - 1])
      && AllRecords(h) <= all
      && (n < |all| ==> !FitsPost(cfg, s.records, all[n]) || !FitsBatch(cfg, RunOf(h), all[n]))
      && s.post.commit == (s.post.batch.Some? && EndsBatch(cfg, all, h)))
  }

  // ----- which answers are failures

  /** The error an answer means, if any, to a post sent in a batch mode; `ends`
      tells whether the post was to end its batch. */
  function Failure(mode: BatchState, ends: bool, answer: Result<PostResponse, Error>, allowFailed: bool): Option<Error> {
    match answer
    case Err(e) => Some(e)
    case Ok(r) =>
      if r.status == 412 then Some(BatchInterrupted)
      else if r.status < 200 || r.status >= 300 then Some(StorageHttpError(r.status))
      else if !ends && mode.InBatch? && (r.status != 202 || r.batch != Some(mode.id)) then Some(ServerBatchProblem)
      else if !ends && r.status == 202 && r.batch.None? then Some(ServerBatchProblem)
      else if !allowFailed && r.failed != [] then Some(RecordUploadFailed)
      else None
  }

  /** No answer was a failure. */
  ghost predicate Unfailed(allowFailed: bool, es: seq<Exchange>) {
    es == [] || (
      var e := es[|es| - 1];
      && Unfailed(allowFailed, es[..|es| - 1])
      && Failure(ModeAfter(es[..|es| - 1]), e.wantCommit, Ok(e.response), allowFailed) == None)
  }

  /** Every exchange was to end its batch exactly where the packing says. */
  ghost predicate EndsWhere(cfg: InfoConfiguration, all: seq<Bso>, h: seq<SentPost>, es: seq<Exchange>) {
    es == [] || (
      && |es| <= |h|
      && EndsWhere(cfg, all, h, es[..|es| - 1])
      && es[|es| - 1].wantCommit == EndsBatch(cfg, all, h[..|es|]))
  }

  /** The posts of an upload and the exchanges of those whose answer was no failure. */
  ghost predicate Session(cfg: InfoConfiguration, ts: int, all: seq<Bso>, server: Server, allowFailed: bool,
                          wire: seq<Post>, h: seq<SentPost>, es: seq<Exchange>) {
    && PostsOf(h) == wire && HistoryWithinLimits(cfg, h) && Packed(cfg, all, h)
    && |es| <= |wire| && AnsweredBy(server, wire[..|es|], es) && Conforms(ts, es)
    && EndsWhere(cfg, all, h, es) && Unfailed(allowFailed, es)
  }

  /** The last post got an answer that means the error. */
  ghost predicate FailedWith(cfg: InfoConfiguration, ts: int, all: seq<Bso>, server: Server, allowFailed: bool,
                             wire: seq<Post>, h: seq<SentPost>, es: seq<Exchange>, error: Error) {
    && |h| == |wire| == |es| + 1
    && wire[|es|].xius == Timestamp(ts, es) && wire[|es|].batch == BatchParam(ModeAfter(es))
    && Failure(ModeAfter(es), EndsBatch(cfg, all, h), server(wire), allowFailed) == Some(error)
  }

  /** The first record that is too large. */
  ghost predicate FirstTooLarge(cfg: InfoConfiguration, rs: seq<Bso>, k: nat) {
    k < |rs| && TooLarge(cfg, rs[k]) && Kept(cfg, rs[..k]) == rs[..k]
  }

  // ----- the queue does that

  ghost predicate Traced(env: Env, ts: int, all: seq<Bso>, q: Queue, l: Ledger, es: seq<Exchange>) {
    && SoundQueue(env, q, l) && Good(env, ts, q, es)
    && Packed(env.cfg, all, l.history) && EndsWhere(env.cfg, all, l.history, es) && Unfailed(env.allowFailed, es)
  }

  /** The last post of a session got an answer that means the error. */
  ghost predicate Stopped(env: Env, ts: int, all: seq<Bso>, wire: seq<Post>, h: seq<SentPost>, es: seq<Exchange>, error: Error) {
    && Session(env.cfg, ts, all, env.server, env.allowFailed, wire, h, es)
    && FailedWith(env.cfg, ts, all, env.server, env.allowFailed, wire, h, es, error)
  }

  lemma {:induction false} PostsAreAsMany(h: seq<SentPost>)
    ensures |PostsOf(h)| == |h|
  {
    if h != [] {
      PostsAreAsMany(h[..|h| - 1]);
    }
  }

  lemma {:induction false} EndsWhereLonger(cfg: InfoConfiguration, all: seq<Bso>, h: seq<SentPost>, s: SentPost, es: seq<Exchange>)
    requires EndsWhere(cfg, all, h, es)
    ensures EndsWhere(cfg, all, h + [s], es)
  {
    if es != [] {
      EndsWhereLonger(cfg, all, h, s, es[..|es| - 1]);
      assert (h + [s])[..|es|] == h[..|es|];
    }
  }

  /** A flush fails exactly with the error that the answer means. */
  lemma {:induction false} FlushFails(env: Env, q: Queue, ends: bool)
    requires q.queued != []
    ensures var e := Flushed(env, q, ends).1;
      match Failure(q.batch, ends, env.server(q.wire + [NextPost(q, ends)]), env.allowFailed)
      case None => e == Done(())
      case Some(error) => e == Failed(error)
  {
  }

  /** The record after the accepted ones does not join the buffer, and the flush is to end the batch as it should. */
  ghost predicate DueFlush(env: Env, all: seq<Bso>, q: Queue, l: Ledger, ends: bool) {
    var n, run := |l.accepted|, OpenBatch(q.batch, l.history) + l.pending;
    && l.pending != [] && l.accepted <= all
    && (n < |all| ==> !FitsPost(env.cfg, l.pending, all[n]) || !FitsBatch(env.cfg, run, all[n]))
    && ends == (n >= |all| || !FitsBatch(env.cfg, run, all[n]))
  }

  /** A flush that is due continues the packing. */
  lemma {:induction false} SendPacked(env: Env, all: seq<Bso>, q: Queue, l: Ledger, ends: bool)
    requires SoundQueue(env, q, l) && Packed(env.cfg, all, l.history) && DueFlush(env, all, q, l, ends)
    ensures var h := AfterSend(l, NextPost(q, ends)).history;
      Packed(env.cfg, all, h) && EndsBatch(env.cfg, all, h) == ends
  {
    var post := NextPost(q, ends);
    var h := l.history + [SentPost(post, l.pending)];
    assert h[..|h| - 1] == l.history && h[|h| - 1] == SentPost(post, l.pending);
    assert AllRecords(h) == l.accepted;
    assert RunOf(h) == OpenBatch(q.batch, l.history) + l.pending;
  }

  lemma {:induction false} OneMoreExchange(cfg: InfoConfiguration, all: seq<Bso>, h: seq<SentPost>, es: seq<Exchange>, e: Exchange, allowFailed: bool)
    requires EndsWhere(cfg, all, h, es) && Unfailed(allowFailed, es) && |h| == |es| + 1
    requires e.wantCommit == EndsBatch(cfg, all, h)
    requires Failure(ModeAfter(es), e.wantCommit, Ok(e.response), allowFailed) == None
    ensures EndsWhere(cfg, all, h, es + [e]) && Unfailed(allowFailed, es + [e])
  {
    assert (es + [e])[..|es|] == es && h[..|es + [e]|] == h;
  }

  lemma {:induction false} FlushSucceeds(env: Env, ts: int, all: seq<Bso>, q: Queue, l: Ledger, es: seq<Exchange>, ends: bool)
    returns (es': seq<Exchange>)
    requires Traced(env, ts, all, q, l, es) && DueFlush(env, all, q, l, ends) && Flushed(env, q, ends).1.Done?
    ensures Good(env, ts, Flushed(env, q, ends).0, es')
    ensures var h := AfterSend(l, NextPost(q, ends)).history;
      EndsWhere(env.cfg, all, h, es') && Unfailed(env.allowFailed, es')
  {
    var h := AfterSend(l, NextPost(q, ends)).history;
    SendPacked(env, all, q, l, ends);
    FlushFails(env, q, ends);
    var e := FlushExchanges(env, q, ends);
    ExchangeKeepsGood(env, ts, q, es, Flushed(env, q, ends).0, e);
    es' := es + [e];
    PostsAreAsMany(l.history);
    EndsWhereLonger(env.cfg, all, l.history, SentPost(NextPost(q, ends), l.pending), es);
    OneMoreExchange(env.cfg, all, h, es, e, env.allowFailed);
  }

  lemma {:induction false} FlushDoesNot(env: Env, ts: int, all: seq<Bso>, q: Queue, l: Ledger, es: seq<Exchange>, ends: bool)
    requires Traced(env, ts, all, q, l, es) && DueFlush(env, all, q, l, ends) && Flushed(env, q, ends).1.Failed?
    ensures var wire, h := Flushed(env, q, ends).0.wire, AfterSend(l, NextPost(q, ends)).history;
      && |es| <= |wire| && AnsweredBy(env.server, wire[..|es|], es) && Conforms(ts, es)
      && EndsWhere(env.cfg, all, h, es)
      && FailedWith(env.cfg, ts, all, env.server, env.allowFailed, wire, h, es, Flushed(env, q, ends).1.error)
  {
    SendPacked(env, all, q, l, ends);
    FlushFails(env, q, ends);
    PostsAreAsMany(l.history);
    EndsWhereLonger(env.cfg, all, l.history, SentPost(NextPost(q, ends), l.pending), es);
    FailedPostFacts(env, ts, q, es, ends);
  }

  lemma {:induction false} FlushTraced(env: Env, ts: int, all: seq<Bso>, q: Queue, l: Ledger, es: seq<Exchange>, ends: bool)
    returns (l': Ledger, es': seq<Exchange>)
    requires Traced(env, ts, all, q, l, es) && DueFlush(env, all, q, l, ends)
    ensures var (q', e) := Flushed(env, q, ends);
      && !e.Panicked? && l'.accepted == l.accepted && l'.pending == []
      && (e.Done? ==> Traced(env, ts, all, q', l', es'))
      && (e.Failed? ==> Stopped(env, ts, all, q'.wire, l'.history, es', e.error))
  {
    assert q.queued != [];
    es' := es;
    FlushFails(env, q, ends);
    if Flushed(env, q, ends).1.Done? {
      es' := FlushSucceeds(env, ts, all, q, l, es, ends);
    } else {
      FlushDoesNot(env, ts, all, q, l, es, ends);
    }
    SendPacked(env, all, q, l, ends);
    l' := FlushedSound(env, q, l, ends);
  }

  lemma {:induction false} FailedPostFacts(env: Env, ts: int, q: Queue, es: seq<Exchange>, ends: bool)
    requires Good(env, ts, q, es) && q.queued != []
    ensures var wire := Flushed(env, q, ends).0.wire;
      && wire == q.wire + [NextPost(q, ends)] && |wire| == |es| + 1
      && wire[..|es|] == q.wire && wire[|es|].xius == Timestamp(ts, es) && wire[|es|].batch == BatchParam(ModeAfter(es))
      && AnsweredBy(env.server, wire[..|es|], es) && Conforms(ts, es) && q.batch == ModeAfter(es)
  {
    assert (q.wire + [NextPost(q, ends)])[..|es|] == q.wire;
  }

  lemma {:induction false} AddTraced(env: Env, q: Queue, l: Ledger, r: Bso) returns (l': Ledger)
    requires SoundQueue(env, q, l) && |Written(q.queued, r)| < env.cfg.maxRequestBytes && Counted(env, q, r).1.Done?
    ensures SoundQueue(env, Counted(env, q, r).0, l')
    ensures l'.accepted == l.accepted + [r] && l'.pending != [] && l'.history == l.history
  {
    AddKeepsSound(env.cfg, q.batch, q.queued, q.post, q.total, l, r, Written(q.queued, r));
    l' := Ledger(l.accepted + [r], l.pending + [r], l.history);
  }

  lemma {:induction false} CountTraced(env: Env, ts: int, all: seq<Bso>, q: Queue, l: Ledger, es: seq<Exchange>, r: Bso) returns (l': Ledger)
    requires Traced(env, ts, all, q, l, es) && |Written(q.queued, r)| < env.cfg.maxRequestBytes && Counted(env, q, r).1.Done?
    ensures Traced(env, ts, all, Counted(env, q, r).0, l', es)
    ensures l'.accepted == l.accepted + [r] && l'.pending != []
  {
    l' := AddTraced(env, q, l, r);
    CountAccounted(env, ts, q, es, r);
  }

  /** A record that does not fit makes a flush due, if anything waits. */
  lemma {:induction false} FlushIsDue(env: Env, all: seq<Bso>, q: Queue, l: Ledger, r: Bso)
    requires SoundQueue(env, q, l) && l.pending != [] && l.accepted + [r] <= all && !Fits(env, q, r)
    ensures DueFlush(env, all, q, l, !CanAdd(q.total, env.cfg.maxTotalBytes, env.cfg.maxTotalRecords, r.payloadLength))
  {
    assert all[|l.accepted|] == r;
    AddToBuffer(l.pending, q.queued, r, Written(q.queued, r));
  }

  lemma {:induction false} EnqueueFlushes(env: Env, ts: int, all: seq<Bso>, q: Queue, l: Ledger, es: seq<Exchange>, r: Bso)
    returns (l': Ledger, es': seq<Exchange>)
    requires Traced(env, ts, all, q, l, es) && !TooLarge(env.cfg, r) && l.accepted + [r] <= all
    requires !Fits(env, q, r) && l.pending != []
    ensures var (q', e) := Enqueued(env, q, r);
      && (e.Done? ==> Traced(env, ts, all, q', l', es') && l'.pending != [] && l'.accepted == l.accepted + [r])
      && (e.Failed? ==> Stopped(env, ts, all, q'.wire, l'.history, es', e.error))
  {
    var ends := !CanAdd(q.total, env.cfg.maxTotalBytes, env.cfg.maxTotalRecords, r.payloadLength);
    FlushIsDue(env, all, q, l, r);
    l', es' := FlushTraced(env, ts, all, q, l, es, ends);
    var (q1, f) := Flushed(env, q, ends);
    if f.Done? && Counted(env, q1, r).1.Done? {
      BufferIsEmpty(q1.queued, l'.pending);
      l' := CountTraced(env, ts, all, q1, l', es', r);
    }
  }

  lemma BufferIsEmpty(queued: seq<Byte>, pending: seq<Bso>)
    requires queued == Buffered(pending)
    ensures queued == [] <==> pending == []
  {
  }

  lemma {:induction false} EnqueueTraced(env: Env, ts: int, all: seq<Bso>, q: Queue, l: Ledger, es: seq<Exchange>, r: Bso)
    returns (l': Ledger, es': seq<Exchange>)
    requires Traced(env, ts, all, q, l, es) && Rested(q, l) && !TooLarge(env.cfg, r) && l.accepted + [r] <= all
    ensures var (q', e) := Enqueued(env, q, r);
      && (e.Done? ==> Traced(env, ts, all, q', l', es') && l'.pending != [] && l'.accepted == l.accepted + [r])
      && (e.Failed? ==> Stopped(env, ts, all, q'.wire, l'.history, es', e.error))
  {
    BufferIsEmpty(q.queued, l.pending);
    if !Fits(env, q, r) && l.pending != [] {
      l', es' := EnqueueFlushes(env, ts, all, q, l, es, r);
    } else {
      l', es' := l, es;
      if Counted(env, q, r).1.Done? {
        l' := CountTraced(env, ts, all, q, l, es, r);
      }
    }
  }

  lemma {:induction false} KeptOfPrefix(cfg: InfoConfiguration, rs: seq<Bso>, k: nat)
    requires k <= |rs|
    ensures Kept(cfg, rs[..k]) <= Kept(cfg, rs)
  {
    if k == |rs| {
      assert rs[..k] == rs;
    } else {
      assert rs[..|rs| - 1][..k] == rs[..k];
      KeptOfPrefix(cfg, rs[..|rs| - 1], k);
    }
  }

  /** A fully atomic upload met a record that is too large, and no post had failed. */
  ghost predicate Refused(env: Env, ts: int, rs: seq<Bso>, all: seq<Bso>, wire: seq<Post>, h: seq<SentPost>, es: seq<Exchange>, k: nat) {
    && Session(env.cfg, ts, all, env.server, env.allowFailed, wire, h, es)
    && !env.allowFailed && |es| == |wire| && FirstTooLarge(env.cfg, rs, k) && AllRecords(h) <= rs[..k]
  }

  lemma {:induction false} TracedIsSession(env: Env, ts: int, all: seq<Bso>, q: Queue, l: Ledger, es: seq<Exchange>)
    requires Traced(env, ts, all, q, l, es)
    ensures Session(env.cfg, ts, all, env.server, env.allowFailed, q.wire, l.history, es)
    ensures |es| == |q.wire| && AllRecords(l.history) <= l.accepted
  {
    assert q.wire[..|es|] == q.wire;
    assert l.accepted == AllRecords(l.history) + l.pending;
  }

  lemma {:induction false} RefusedStaysRefused(env: Env, ts: int, rs: seq<Bso>, all: seq<Bso>, wire: seq<Post>, h: seq<SentPost>, es: seq<Exchange>, k: nat, r: Bso)
    requires Refused(env, ts, rs, all, wire, h, es, k)
    ensures Refused(env, ts, rs + [r], all, wire, h, es, k)
  {
    assert (rs + [r])[..k] == rs[..k];
  }

  /** What the enqueues of `rs` have led to. */
  ghost predicate Walked(env: Env, ts: int, rs: seq<Bso>, all: seq<Bso>, q: Queue, e: Outcome<(), Error>, l: Ledger, es: seq<Exchange>, k: nat) {
    match e
    case Done(_) =>
      && Traced(env, ts, all, q, l, es) && Rested(q, l) && l.accepted == Kept(env.cfg, rs)
      && (!env.allowFailed ==> Kept(env.cfg, rs) == rs)
    case Failed(error) =>
      Stopped(env, ts, all, q.wire, l.history, es, error) || (error == RecordTooLarge && Refused(env, ts, rs, all, q.wire, l.history, es, k))
    case Panicked => true
  }

  lemma {:induction false} KeptNext(cfg: InfoConfiguration, rs: seq<Bso>, r: Bso)
    ensures Kept(cfg, rs + [r]) == if TooLarge(cfg, r) then Kept(cfg, rs) else Kept(cfg, rs) + [r]
  {
    assert (rs + [r])[..|rs|] == rs;
  }

  lemma {:induction false} WalkPastLarge(env: Env, ts: int, rs: seq<Bso>, all: seq<Bso>, q: Queue, l: Ledger, es: seq<Exchange>, k: nat, r: Bso)
    requires Walked(env, ts, rs, all, q, Done(()), l, es, k) && TooLarge(env.cfg, r)
    ensures Walked(env, ts, rs + [r], all, q, if env.allowFailed then Done(()) else Failed(RecordTooLarge), l, es, |rs|)
  {
    KeptNext(env.cfg, rs, r);
    TracedIsSession(env, ts, all, q, l, es);
    assert (rs + [r])[..|rs|] == rs;
  }

  lemma {:induction false} WalkOn(env: Env, ts: int, rs: seq<Bso>, all: seq<Bso>, q: Queue, l: Ledger, es: seq<Exchange>, k: nat, r: Bso)
    returns (l': Ledger, es': seq<Exchange>)
    requires Walked(env, ts, rs, all, q, Done(()), l, es, k) && !TooLarge(env.cfg, r) && Kept(env.cfg, rs) + [r] <= all
    ensures var (q', e) := Enqueued(env, q, r);
      Walked(env, ts, rs + [r], all, q', match e case Done(_) => Done(()) case Failed(error) => Failed(error) case Panicked => Panicked, l', es', k)
  {
    KeptNext(env.cfg, rs, r);
    l', es' := EnqueueTraced(env, ts, all, q, l, es, r);
  }

  lemma {:induction false} WalkStays(env: Env, ts: int, rs: seq<Bso>, all: seq<Bso>, q: Queue, e: Outcome<(), Error>, l: Ledger, es: seq<Exchange>, k: nat, r: Bso)
    requires Walked(env, ts, rs, all, q, e, l, es, k) && !e.Done?
    ensures Walked(env, ts, rs + [r], all, q, e, l, es, k)
  {
    if e.Failed? && !Stopped(env, ts, all, q.wire, l.history, es, e.error) {
      RefusedStaysRefused(env, ts, rs, all, q.wire, l.history, es, k, r);
    }
  }

  lemma {:induction false} EnqueuedNext(env: Env, ts: int, rs: seq<Bso>, r: Bso)
    ensures var (q, e) := EnqueuedAll(env, Fresh(ts), rs);
      EnqueuedAll(env, Fresh(ts), rs + [r]) ==
        if !e.Done? then (q, e)
        else if TooLarge(env.cfg, r) then (q, if env.allowFailed then Done(()) else Failed(RecordTooLarge))
        else
          var (q', f) := Enqueued(env, q, r);
          (q', match f case Done(_) => Done(()) case Failed(error) => Failed(error) case Panicked => Panicked)
  {
    assert (rs + [r])[..|rs|] == rs;
  }

  lemma {:induction false} EnqueuedAllTraced(env: Env, ts: int, rs: seq<Bso>, all: seq<Bso>) returns (l: Ledger, es: seq<Exchange>, k: nat)
    requires Kept(env.cfg, rs) <= all
    ensures Walked(env, ts, rs, all, EnqueuedAll(env, Fresh(ts), rs).0, EnqueuedAll(env, Fresh(ts), rs).1, l, es, k)
  {
    if rs == [] {
      l, es, k := Ledger([], [], []), [], 0;
    } else {
      var init, r := rs[..|rs| - 1], rs[|rs| - 1];
      assert rs == init + [r];
      KeptNext(env.cfg, init, r);
      l, es, k := EnqueuedAllTraced(env, ts, init, all);
      var (q, e) := EnqueuedAll(env, Fresh(ts), init);
      EnqueuedNext(env, ts, init, r);
      if !e.Done? {
        WalkStays(env, ts, init, all, q, e, l, es, k, r);
      } else if TooLarge(env.cfg, r) {
        WalkPastLarge(env, ts, init, all, q, l, es, k, r);
        k := |init|;
      } else {
        l, es := WalkOn(env, ts, init, all, q, l, es, k, r);
      }
    }
  }

  /** What was posted, what was answered, and what became of the upload. */
  ghost predicate Explains(cfg: InfoConfiguration, ts: int, rs: seq<Bso>, server: Server, allowFailed: bool, wire: seq<Post>,
                           outcome: Outcome<UploadInfo, Error>, h: seq<SentPost>, es: seq<Exchange>) {
    && Session(cfg, ts, Kept(cfg, rs), server, allowFailed, wire, h, es)
    && match outcome
       case Done(info) =>
         && |es| == |wire| && AllRecords(h) == Kept(cfg, rs) && (!allowFailed ==> Kept(cfg, rs) == rs)
         && info == UploadInfo(SuccessIds(es), FailedIds(es), Timestamp(ts, es))
       case Failed(error) =>
         || FailedWith(cfg, ts, Kept(cfg, rs), server, allowFailed, wire, h, es, error)
         || (error == RecordTooLarge && !allowFailed && |es| == |wire| && exists k: nat :: FirstTooLarge(cfg, rs, k) && AllRecords(h) <= rs[..k])
       case Panicked => false
  }

  ghost predicate IsExplained(cfg: InfoConfiguration, ts: int, rs: seq<Bso>, server: Server, allowFailed: bool, wire: seq<Post>,
                              outcome: Outcome<UploadInfo, Error>) {
    exists h: seq<SentPost>, es: seq<Exchange> :: Explains(cfg, ts, rs, server, allowFailed, wire, outcome, h, es)
  }

  function InfoOf(q: Queue): UploadInfo {
    UploadInfo(q.ids.success, q.ids.failed + q.ids.pendingFailed + q.ids.pendingSuccess, q.lastModified)
  }

  /** The final flush, when records wait. */
  lemma {:induction false} FinalFlush(env: Env, ts: int, all: seq<Bso>, q: Queue, l: Ledger, es: seq<Exchange>)
    returns (l': Ledger, es': seq<Exchange>)
    requires Traced(env, ts, all, q, l, es) && l.accepted == all && l.pending != []
    ensures var (q', f) := Flushed(env, q, true);
      && !f.Panicked?
      && (f.Done? ==> Traced(env, ts, all, q', l', es') && l'.pending == [] && l'.accepted == all && !q'.batch.InBatch?)
      && (f.Failed? ==> Stopped(env, ts, all, q'.wire, l'.history, es', f.error))
  {
    l', es' := FlushTraced(env, ts, all, q, l, es, true);
  }

  lemma {:induction false} EndIsExplained(env: Env, ts: int, rs: seq<Bso>, q: Queue, l: Ledger, es: seq<Exchange>, k: nat)
    returns (h: seq<SentPost>, es': seq<Exchange>)
    requires Walked(env, ts, rs, Kept(env.cfg, rs), q, Done(()), l, es, k)
    ensures var (q', f) := Flushed(env, q, true);
      match f
      case Done(_) => Explains(env.cfg, ts, rs, env.server, env.allowFailed, q'.wire, Done(InfoOf(q')), h, es')
      case Failed(error) => Explains(env.cfg, ts, rs, env.server, env.allowFailed, q'.wire, Failed(error), h, es')
      case Panicked => true
  {
    var all := Kept(env.cfg, rs);
    BufferIsEmpty(q.queued, l.pending);
    if l.pending != [] {
      var l';
      l', es' := FinalFlush(env, ts, all, q, l, es);
      h := l'.history;
      if Flushed(env, q, true).1.Done? {
        DoneIsExplained(env, ts, all, Flushed(env, q, true).0, l', es');
      }
    } else {
      h, es' := l.history, es;
      DoneIsExplained(env, ts, all, q, l, es);
    }
  }

  lemma {:induction false} FailureIsExplained(env: Env, ts: int, rs: seq<Bso>, q: Queue, error: Error, l: Ledger, es: seq<Exchange>, k: nat)
    requires Walked(env, ts, rs, Kept(env.cfg, rs), q, Failed(error), l, es, k)
    ensures Explains(env.cfg, ts, rs, env.server, env.allowFailed, q.wire, Failed(error), l.history, es)
  {
  }

  /** Every upload that does not panic is explained. In particular it fails exactly
      when a fully atomic upload meets a record that is too large, or the answer
      to its last post means a failure, and then with the error that answer means. */
  lemma {:induction false} UploadIsExplained(env: Env, ts: int, rs: seq<Bso>)
    ensures var (q, e) := Uploaded(env, ts, rs);
      e.Panicked? || IsExplained(env.cfg, ts, rs, env.server, env.allowFailed, q.wire, e)
  {
    var l, es, k := EnqueuedAllTraced(env, ts, rs, Kept(env.cfg, rs));
    var (q, e) := EnqueuedAll(env, Fresh(ts), rs);
    if e.Done? {
      var h, es' := EndIsExplained(env, ts, rs, q, l, es, k);
    } else if e.Failed? {
      FailureIsExplained(env, ts, rs, q, e.error, l, es, k);
    }
  }

  lemma {:induction false} DoneIsExplained(env: Env, ts: int, all: seq<Bso>, q: Queue, l: Ledger, es: seq<Exchange>)
    requires Traced(env, ts, all, q, l, es) && l.pending == [] && l.accepted == all && !q.batch.InBatch?
    ensures Session(env.cfg, ts, all, env.server, env.allowFailed, q.wire, l.history, es)
    ensures |es| == |q.wire| && AllRecords(l.history) == all
    ensures InfoOf(q) == UploadInfo(SuccessIds(es), FailedIds(es), Timestamp(ts, es))
  {
    TracedIsSession(env, ts, all, q, l, es);
    PendingOnlyInBatch(ts, es);
    assert es[..|es|] == es && es[|es|..] == [];
  }
}
