/**
 The bookkeeping of an upload queue on plain values: what its buffer, its two
 counters and its history have to agree on, and how each step keeps that.
 */
module UploadLedger {
  import opened Wrappers
  import opened UploadProtocol

  /** The used part of a pair of limits. */
  datatype Used = Used(bytes: nat, records: nat)

  const NOTHING: Used := Used(0, 0)

  ghost function Total(rs: seq<Bso>): Used {
    Used(PayloadSum(rs), |rs|)
  }

  lemma TotalAppend(open: seq<Bso>, pending: seq<Bso>, r: Bso)
    ensures Total(open + (pending + [r])) == Used(Total(open + pending).bytes + r.payloadLength, |open + pending| + 1)
  {
    assert (open + (pending + [r]))[..|open + pending|] == open + pending;
  }

  /** The posted records that count against the current batch. */
  ghost function OpenBatch(batch: BatchState, h: seq<SentPost>): seq<Bso> {
    if batch.Unsupported? then [] else OpenRun(h)
  }

  /** The records of a queue: accepted ones, those in the buffer, those posted. */
  datatype Ledger = Ledger(accepted: seq<Bso>, pending: seq<Bso>, history: seq<SentPost>)

  /** What holds of a queue after every call, failed calls included: the buffer
      is the open array of the pending records, the counters count what they
      should, every request kept the limits, and no accepted record is lost,
      repeated or reordered. */
  ghost predicate Sound(cfg: InfoConfiguration, batch: BatchState, queued: seq<Byte>, post: Used, total: Used, l: Ledger)
  {
    && queued == Buffered(l.pending)
    && (l.pending != [] ==> |queued| < cfg.maxRequestBytes)
    && post == Total(l.pending)
    && |l.pending| <= cfg.maxPostRecords && PayloadSum(l.pending) <= cfg.maxPostBytes
    && total == Total(OpenBatch(batch, l.history) + l.pending)
    && RunWithinLimits(cfg, OpenBatch(batch, l.history) + l.pending)
    && HistoryWithinLimits(cfg, l.history)
    && l.accepted == AllRecords(l.history) + l.pending
  }

  /** The ledger after the buffer went out as the body of `post`. */
  ghost function AfterSend(l: Ledger, post: Post): Ledger {
    Ledger(l.accepted, [], l.history + [SentPost(post, l.pending)])
  }

  lemma {:induction false} SendKeepsSound(cfg: InfoConfiguration, batch: BatchState, queued: seq<Byte>,
                                          post: Used, total: Used, l: Ledger, p: Post)
    requires Sound(cfg, batch, queued, post, total, l) && l.pending != []
    requires p.body == queued + [CLOSE] && p.batch == BatchParam(batch)
    ensures batch != Unsupported && !p.commit ==> Sound(cfg, batch, [], NOTHING, total, AfterSend(l, p))
    ensures batch == Unsupported || p.commit ==> Sound(cfg, batch, [], NOTHING, NOTHING, AfterSend(l, p))
    ensures batch == Unsupported || p.commit ==> OpenRun(AfterSend(l, p).history) == []
    ensures PostsOf(AfterSend(l, p).history) == PostsOf(l.history) + [p]
  {
    var s := SentPost(p, l.pending);
    var h := l.history + [s];
    assert h[..|l.history|] == l.history;
    assert OpenRun(h) == if batch == Unsupported || p.commit then [] else OpenRun(l.history) + l.pending;
    assert OpenBatch(batch, h) + [] == OpenBatch(batch, h);
    assert AllRecords(h) + [] == AllRecords(h) == AllRecords(l.history) + l.pending;
  }

  /** A change of batch mode, once the buffer is empty. */
  lemma {:induction false} ModeKeepsSound(cfg: InfoConfiguration, batch: BatchState, total: Used, l: Ledger, batch': BatchState)
    requires Sound(cfg, batch, [], NOTHING, total, l) && l.pending == []
    requires batch == Unsupported ==> OpenRun(l.history) == []
    ensures batch' != Unsupported ==> Sound(cfg, batch', [], NOTHING, total, l)
    ensures batch' == Unsupported ==> Sound(cfg, batch', [], NOTHING, NOTHING, l)
  {
    assert OpenRun(l.history) + [] == OpenRun(l.history);
  }

  /** Writing one more record that fits. */
  lemma {:induction false} AddKeepsSound(cfg: InfoConfiguration, batch: BatchState, queued: seq<Byte>,
                                         post: Used, total: Used, l: Ledger, r: Bso, queued': seq<Byte>)
    requires Sound(cfg, batch, queued, post, total, l)
    requires post.records < cfg.maxPostRecords && post.bytes + r.payloadLength <= cfg.maxPostBytes
    requires total.records < cfg.maxTotalRecords && total.bytes + r.payloadLength <= cfg.maxTotalBytes
    requires queued' == queued + [if queued == [] then OPEN else COMMA] + r.json
    requires |queued'| < cfg.maxRequestBytes
    ensures Sound(cfg, batch, queued', Used(post.bytes + r.payloadLength, post.records + 1),
                  Used(total.bytes + r.payloadLength, total.records + 1),
                  Ledger(l.accepted + [r], l.pending + [r], l.history))
  {
    AddToBuffer(l.pending, queued, r, queued');
    PayloadSumAppend(l.pending, r);
    TotalAppend(OpenBatch(batch, l.history), l.pending, r);
    AppendLast(AllRecords(l.history), l.pending, r);
  }

  lemma AppendLast(a: seq<Bso>, b: seq<Bso>, r: Bso)
    ensures a + (b + [r]) == (a + b) + [r]
  {
  }

  lemma {:induction false} AddToBuffer(pending: seq<Bso>, queued: seq<Byte>, r: Bso, queued': seq<Byte>)
    requires queued == Buffered(pending)
    requires queued' == queued + [if queued == [] then OPEN else COMMA] + r.json
    ensures queued' == Buffered(pending + [r])
  {
    assert queued == [] <==> pending == [];
    BufferedAppend(pending, r);
  }

  // ----- the answers

  /** Every post was answered by the server, with success. */
  ghost predicate AnsweredBy(server: Server, wire: seq<Post>, es: seq<Exchange>) {
    |es| == |wire| && (es == [] || (
      && AnsweredBy(server, wire[..|wire| - 1], es[..|es| - 1])
      && es[|es| - 1].post == wire[|wire| - 1] && server(wire) == Ok(es[|es| - 1].response)))
  }

  /** As long as no call has failed: every post was answered with success, the
      exchanges obey the protocol, and the queue's mode and timestamp follow them. */
  ghost predicate Answered(server: Server, start: int, wire: seq<Post>, batch: BatchState, lastModified: int, es: seq<Exchange>)
  {
    && AnsweredBy(server, wire, es)
    && Conforms(start, es)
    && batch == ModeAfter(es)
    && lastModified == Timestamp(start, es)
  }

  /** The mode a success answer leads to, unless it breaks the batch in progress. */
  function NextMode(batch: BatchState, wantCommit: bool, r: PostResponse): Option<BatchState> {
    if wantCommit then Some(NoBatch)
    else if r.status != ACCEPTED then (if batch.InBatch? then None else Some(Unsupported))
    else if r.batch.None? || (batch.InBatch? && batch.id != r.batch.value) then None
    else Some(InBatch(r.batch.value))
  }

  lemma {:induction false} AnswerKeepsAnswered(server: Server, start: int, wire: seq<Post>, batch: BatchState, lastModified: int,
                                               es: seq<Exchange>, e: Exchange)
    requires Answered(server, start, wire, batch, lastModified, es)
    requires e.post.xius == lastModified && e.post.batch == BatchParam(batch)
    requires e.post.commit == (e.wantCommit && batch != Unsupported)
    requires IsSuccess(e.response) && server(wire + [e.post]) == Ok(e.response)
    requires NextMode(batch, e.wantCommit, e.response).Some?
    ensures Answered(server, start, wire + [e.post], NextMode(batch, e.wantCommit, e.response).value, e.response.lastModified, es + [e])
  {
    assert (es + [e])[..|es|] == es;
    assert (wire + [e.post])[..|wire|] == wire;
  }
}
