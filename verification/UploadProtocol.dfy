/**
 Vocabulary of the batched upload protocol: records, request bodies, what was
 put on the wire, and what the history of a queue has to look like.

 Everything that is appended one element at a time is defined by recursion on
 the last element.
 */
module UploadProtocol {
  import opened Wrappers

  newtype Byte = x: int | 0 <= x < 256

  const OPEN: Byte := 0x5B
  const COMMA: Byte := 0x2C
  const CLOSE: Byte := 0x5D

  const ACCEPTED: nat := 202
  const PRECONDITION_FAILED: nat := 412

  /** An encrypted record: the length of its payload and its serialised form. */
  datatype Bso = Bso(id: string, payloadLength: nat, json: seq<Byte>)

  datatype InfoConfiguration = InfoConfiguration(
    maxRequestBytes: nat, maxPostRecords: nat, maxPostBytes: nat,
    maxTotalRecords: nat, maxTotalBytes: nat, maxRecordPayloadBytes: nat)

  datatype PostResponse = PostResponse(
    status: nat, batch: Option<string>, failed: seq<string>, success: seq<string>, lastModified: int)

  predicate IsSuccess(r: PostResponse) {
    200 <= r.status < 300
  }

  datatype Post = Post(body: seq<Byte>, xius: int, batch: Option<string>, commit: bool)

  datatype Error =
    | Network
    | BatchInterrupted
    | StorageHttpError(code: nat)
    | RecordUploadFailed
    | ServerBatchProblem
    | RecordTooLarge

  /** Any server: its answer may depend on everything posted so far. */
  type Server = seq<Post> -> Result<PostResponse, Error>

  datatype BatchState = Unsupported | NoBatch | InBatch(id: string)

  datatype UploadInfo = UploadInfo(successfulIds: seq<string>, failedIds: seq<string>, modifiedTimestamp: int)

  // ----- request bodies

  /** The records separated by commas. */
  ghost function Join(rs: seq<Bso>): seq<Byte> {
    if rs == [] then [] else if |rs| == 1 then rs[0].json else rs[0].json + [COMMA] + Join(rs[1..])
  }

  /** A request body: a JSON array of the records. */
  ghost function Body(rs: seq<Bso>): seq<Byte> {
    [OPEN] + Join(rs) + [CLOSE]
  }

  /** What the buffer holds while the array is still open. */
  ghost function Buffered(rs: seq<Bso>): seq<Byte> {
    if rs == [] then [] else [OPEN] + Join(rs)
  }

  lemma {:induction false} JoinAppend(rs: seq<Bso>, r: Bso)
    ensures Join(rs + [r]) == if rs == [] then r.json else Join(rs) + [COMMA] + r.json
  {
    if rs == [] {
      assert rs + [r] == [r];
    } else {
      assert (rs + [r])[1..] == rs[1..] + [r];
      JoinAppend(rs[1..], r);
    }
  }

  lemma BufferedAppend(rs: seq<Bso>, r: Bso)
    ensures Buffered(rs + [r]) == Buffered(rs) + [if rs == [] then OPEN else COMMA] + r.json
  {
    JoinAppend(rs, r);
  }

  // ----- sizes

  ghost function PayloadSum(rs: seq<Bso>): nat {
    if rs == [] then 0 else PayloadSum(rs[..|rs| - 1]) + rs[|rs| - 1].payloadLength
  }

  lemma PayloadSumAppend(rs: seq<Bso>, r: Bso)
    ensures PayloadSum(rs + [r]) == PayloadSum(rs) + r.payloadLength
  {
    assert (rs + [r])[..|rs|] == rs;
  }

  /** A record the queue refuses: its payload reaches a byte limit, or it does not
      leave room in a request. A payload equal to a limit is refused although
      the counters would admit it. */
  predicate TooLarge(cfg: InfoConfiguration, r: Bso) {
    || r.payloadLength >= cfg.maxPostBytes
    || r.payloadLength >= cfg.maxTotalBytes
    || r.payloadLength >= cfg.maxRecordPayloadBytes
    || |r.json| + 2 >= cfg.maxRequestBytes
  }

  /** The records that an upload keeps, in order. */
  ghost function Kept(cfg: InfoConfiguration, rs: seq<Bso>): seq<Bso> {
    if rs == [] then []
    else
      var init := Kept(cfg, rs[..|rs| - 1]);
      if TooLarge(cfg, rs[|rs| - 1]) then init else init + [rs[|rs| - 1]]
  }

  lemma KeptIsNoLonger(cfg: InfoConfiguration, rs: seq<Bso>)
    ensures |Kept(cfg, rs)| <= |rs|
  {
  }

  // ----- what was sent

  /** A post together with the records its body carries. */
  datatype SentPost = SentPost(post: Post, records: seq<Bso>)

  ghost function PostsOf(h: seq<SentPost>): seq<Post> {
    if h == [] then [] else PostsOf(h[..|h| - 1]) + [h[|h| - 1].post]
  }

  ghost function AllRecords(h: seq<SentPost>): seq<Bso> {
    if h == [] then [] else AllRecords(h[..|h| - 1]) + h[|h| - 1].records
  }

  /** The records of the consecutive posts that carry a batch parameter, ending
      with the last post and starting after the previous commit. */
  ghost function BatchRun(h: seq<SentPost>): seq<Bso>
    decreases |h|, 0
  {
    if h == [] || h[|h| - 1].post.batch.None? then []
    else OpenRun(h[..|h| - 1]) + h[|h| - 1].records
  }

  /** The part of the current run a further batch post would join. */
  ghost function OpenRun(h: seq<SentPost>): seq<Bso>
    decreases |h|, 1
  {
    if h == [] || h[|h| - 1].post.commit then [] else BatchRun(h)
  }

  ghost predicate PostWithinLimits(cfg: InfoConfiguration, s: SentPost) {
    && s.post.body == Body(s.records)
    && s.records != []
    && |s.post.body| <= cfg.maxRequestBytes
    && |s.records| <= cfg.maxPostRecords
    && PayloadSum(s.records) <= cfg.maxPostBytes
  }

  ghost predicate RunWithinLimits(cfg: InfoConfiguration, rs: seq<Bso>) {
    |rs| <= cfg.maxTotalRecords && PayloadSum(rs) <= cfg.maxTotalBytes
  }

  /** Every post fits in one request, and every run of batch posts fits in one batch. */
  ghost predicate HistoryWithinLimits(cfg: InfoConfiguration, h: seq<SentPost>) {
    h == [] || (
      && HistoryWithinLimits(cfg, h[..|h| - 1])
      && PostWithinLimits(cfg, h[|h| - 1])
      && RunWithinLimits(cfg, BatchRun(h)))
  }

  lemma {:induction false} EveryPostWithinLimits(cfg: InfoConfiguration, h: seq<SentPost>, i: nat)
    requires HistoryWithinLimits(cfg, h) && i < |h|
    ensures PostWithinLimits(cfg, h[i]) && RunWithinLimits(cfg, BatchRun(h[..i + 1]))
  {
    if i == |h| - 1 {
      assert h[..i + 1] == h;
    } else {
      EveryPostWithinLimits(cfg, h[..|h| - 1], i);
      assert h[..|h| - 1][..i + 1] == h[..i + 1];
    }
  }

  // ----- what was answered

  /** A post that was answered with success, and whether the caller wanted it to commit. */
  datatype Exchange = Exchange(post: Post, wantCommit: bool, response: PostResponse)

  /** The answer leaves the records pending inside a batch. */
  predicate Mid(e: Exchange) {
    !e.wantCommit && e.response.status == ACCEPTED
  }

  /** The batch mode after a sequence of exchanges. */
  ghost function ModeAfter(es: seq<Exchange>): BatchState {
    if es == [] || es[|es| - 1].wantCommit then NoBatch
    else if !Mid(es[|es| - 1]) || es[|es| - 1].response.batch.None? then Unsupported
    else InBatch(es[|es| - 1].response.batch.value)
  }

  function BatchParam(b: BatchState): Option<string> {
    match b
    case Unsupported => None
    case NoBatch => Some("true")
    case InBatch(id) => Some(id)
  }

  ghost function Timestamp(start: int, es: seq<Exchange>): int {
    if es == [] then start else es[|es| - 1].response.lastModified
  }

  /** One exchange is a legal continuation of the ones before it: it quotes the
      last timestamp the server gave, names the batch the server named, commits
      exactly when it can, and inside a batch a success stays in that batch. */
  ghost predicate Follows(start: int, before: seq<Exchange>, e: Exchange) {
    var mode := ModeAfter(before);
    && e.post.xius == Timestamp(start, before)
    && e.post.batch == (match mode case Unsupported => None case NoBatch => Some("true") case InBatch(id) => Some(id))
    && e.post.commit == (e.wantCommit && mode != Unsupported)
    && IsSuccess(e.response)
    && (Mid(e) ==> e.response.batch.Some?)
    && (mode.InBatch? && !e.wantCommit ==> Mid(e) && e.response.batch == Some(mode.id))
  }

  ghost predicate Conforms(start: int, es: seq<Exchange>) {
    es == [] || (Conforms(start, es[..|es| - 1]) && Follows(start, es[..|es| - 1], es[|es| - 1]))
  }

  lemma {:induction false} ConformsAt(start: int, es: seq<Exchange>, i: nat)
    requires Conforms(start, es) && i < |es|
    ensures Follows(start, es[..i], es[i])
  {
    if i < |es| - 1 {
      ConformsAt(start, es[..|es| - 1], i);
      assert es[..|es| - 1][..i] == es[..i];
    }
  }

  /** How many leading exchanges are settled: those up to the last one that is not mid-batch. */
  ghost function Settled(es: seq<Exchange>): (n: nat)
    ensures n <= |es|
  {
    if es == [] || !Mid(es[|es| - 1]) then |es| else Settled(es[..|es| - 1])
  }

  ghost function SuccessIds(es: seq<Exchange>): seq<string> {
    if es == [] then [] else SuccessIds(es[..|es| - 1]) + es[|es| - 1].response.success
  }

  ghost function FailedIds(es: seq<Exchange>): seq<string> {
    if es == [] then [] else FailedIds(es[..|es| - 1]) + es[|es| - 1].response.failed
  }

  lemma IdsAppend(es: seq<Exchange>, e: Exchange)
    ensures SuccessIds(es + [e]) == SuccessIds(es) + e.response.success
    ensures FailedIds(es + [e]) == FailedIds(es) + e.response.failed
  {
    assert (es + [e])[..|es|] == es;
  }

  lemma {:induction false} IdsConcat(a: seq<Exchange>, b: seq<Exchange>)
    ensures SuccessIds(a + b) == SuccessIds(a) + SuccessIds(b)
    ensures FailedIds(a + b) == FailedIds(a) + FailedIds(b)
  {
    if b == [] {
      assert a + b == a;
    } else {
      assert (a + b)[..|a + b| - 1] == a + b[..|b| - 1];
      IdsConcat(a, b[..|b| - 1]);
    }
  }

  lemma {:induction false} SettledIsLastClosing(es: seq<Exchange>)
    ensures Settled(es) > 0 ==> !Mid(es[Settled(es) - 1])
    ensures forall k | Settled(es) <= k < |es| :: Mid(es[k])
  {
    if es != [] && Mid(es[|es| - 1]) {
      SettledIsLastClosing(es[..|es| - 1]);
    }
  }

  /** After a mid-batch answer the next post names the batch of that answer. */
  lemma NextPostNamesBatch(start: int, es: seq<Exchange>, k: nat)
    requires Conforms(start, es)
    requires k + 1 < |es| && Mid(es[k])
    ensures es[k].response.batch.Some? && es[k + 1].post.batch == es[k].response.batch
  {
    ConformsAt(start, es, k);
    ConformsAt(start, es, k + 1);
  }

  /** No exchange counts as settled before it is outside a batch or its batch is
      committed: every settled exchange is followed, in the same batch, by one
      that either committed or was answered outside a batch. */
  lemma SettledOnlyByClosing(start: int, es: seq<Exchange>, i: nat) returns (j: nat)
    requires Conforms(start, es)
    requires i < Settled(es)
    ensures i <= j < Settled(es)
    ensures es[j].post.commit || es[j].response.status != ACCEPTED || es[j].post.batch.None?
    ensures forall k | i <= k < j :: Mid(es[k]) && es[k + 1].post.batch == es[k].response.batch
  {
    SettledIsLastClosing(es);
    j := i;
    while Mid(es[j])
      invariant i <= j < Settled(es)
      invariant forall k | i <= k < j :: Mid(es[k]) && es[k + 1].post.batch == es[k].response.batch
      decreases |es| - j
    {
      NextPostNamesBatch(start, es, j);
      j := j + 1;
    }
    ConformsAt(start, es, j);
  }

  /** Ids are pending only while a batch is open. */
  lemma PendingOnlyInBatch(start: int, es: seq<Exchange>)
    requires Conforms(start, es)
    ensures Settled(es) < |es| <==> ModeAfter(es).InBatch?
  {
    if es != [] {
      if Mid(es[|es| - 1]) {
        assert Settled(es) == Settled(es[..|es| - 1]);
      }
    }
  }
}
