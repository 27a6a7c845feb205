/**
 One sync of the login store against any server: the incoming changeset is
 whatever was downloaded, the upload goes through the batching queue, and only
 the ids that the server is reported to have taken are confirmed.
 */
module LoginUpload {
  import opened Wrappers
  import opened LoginRecord
  import opened LoginCells
  import opened LoginPlan
  import opened LoginDb
  import opened UploadProtocol
  import opened UploadQueue
  import opened UploadOutcome
  import LoginRuns
  import PostQueue

  /** How a payload is encrypted and serialised. */
  type Encoder = Payload -> Bso

  datatype SyncError = StoreFailed(inStore: StoreError) | UploadFailed(inUpload: Error)

  ghost function EncodedAll(encode: Encoder, out: seq<Payload>): seq<Bso> {
    if out == [] then [] else EncodedAll(encode, out[..|out| - 1]) + [encode(out[|out| - 1])]
  }

  method EncodeAll(encode: Encoder, out: seq<Payload>) returns (records: seq<Bso>)
    ensures records == EncodedAll(encode, out)
  {
    records := [];
    for i := 0 to |out|
      invariant records == EncodedAll(encode, out[..i])
    {
      assert out[..i + 1][..i] == out[..i];
      records := records + [encode(out[i])];
    }
    assert out[..|out|] == out;
  }

  /** What is known of an upload of the outgoing payloads. */
  ghost predicate IsUploaded(cfg: InfoConfiguration, fetched: int, server: Server, records: seq<Bso>, fullyAtomic: bool,
                             r: Outcome<UploadInfo, Error>, wire: seq<Post>) {
    && (!r.Panicked? ==> IsExplained(cfg, fetched, records, server, !fullyAtomic, wire, r))
    && (!r.Panicked? ==> LawfulWire(cfg, records, wire, r.Done?))
    && (r.Done? ==> LawfulAnswers(server, fetched, wire, r.value))
    && (r.Panicked? <==> AdmitsNothing(cfg) && SomeRecordTried(Env(cfg, server, !fullyAtomic), records))
  }

  method SendAll(encode: Encoder, out: seq<Payload>, cfg: InfoConfiguration, fetched: int, server: Server, fullyAtomic: bool)
    returns (r: Outcome<UploadInfo, Error>, wire: seq<Post>)
    ensures IsUploaded(cfg, fetched, server, EncodedAll(encode, out), fullyAtomic, r, wire)
  {
    var records := EncodeAll(encode, out);
    r, wire := PostQueue.Upload(cfg, fetched, server, records, fullyAtomic);
  }

  /** What a finished sync has made of the tables between reconciling and the
      end: exactly the reported guids are no longer to be sent, every other
      change still is; the user sees the same, exactly unless a reported guid
      is visible without a local row or is reported in two chunks. */
  ghost predicate ConfirmedExactly(t: Tables, t': Tables, ids: seq<Guid>, limit: nat)
    requires limit > 0
  {
    && (forall g :: Outgoing(CellOf(t', g)) == if g in ids then None else Outgoing(CellOf(t, g)))
    && (VisibleLogins(t') == VisibleLogins(t) <==> forall g :: !Loses(t, ids, limit, g))
  }

  /** What a sync that got as far as the upload says of it. */
  function UploadOf(r: Outcome<UploadInfo, SyncError>): Outcome<UploadInfo, Error> {
    match r
    case Done(info) => Done(info)
    case Failed(UploadFailed(e)) => Failed(e)
    case Failed(_) => Panicked
    case Panicked => Panicked
  }

  ghost predicate IsOutgoing(t: Tables, out: seq<Payload>) {
    forall g :: OfGuid(out, PayloadGuid, g) == match Outgoing(CellOf(t, g)) case None => [] case Some(p) => [p]
  }

  method Receive(db: LoginDb, changes: seq<Incoming>, dupe: DupeFinder, clocks: Clocks, now: int) returns (r: Result<seq<Payload>, StoreError>)
    requires db.IsTidy()
    modifies db
    ensures db.IsTidy() && (old(db.Valid()) ==> db.Valid()) && db.lastSync == old(db.lastSync)
    ensures r.Ok? <==> Acceptable(changes)
    ensures r.Err? ==> db.State() == old(db.State())
    ensures r.Ok? ==>
      && Stepped(LoginRuns.ApplyIncoming(DataOf(old(db.State()), changes), dupe, clocks, now), old(db.State()), db.State())
      && IsOutgoing(db.State(), r.value)
  {
    r := db.ApplyIncoming(changes, dupe, clocks, now);
  }

  /** Confirms what a successful upload reports; nothing changes after another one. */
  method Conclude(db: LoginDb, uploaded: Outcome<UploadInfo, Error>, limit: nat) returns (r: Outcome<UploadInfo, SyncError>)
    requires db.IsTidy() && limit > 0
    modifies db
    ensures db.IsTidy() && (old(db.Valid()) ==> db.Valid())
    ensures UploadOf(r) == uploaded && (r.Failed? ==> r.error.UploadFailed?)
    ensures !r.Done? ==> db.State() == old(db.State()) && db.lastSync == old(db.lastSync)
    ensures r.Done? ==>
      ConfirmedExactly(old(db.State()), db.State(), r.value.successfulIds, limit) && db.lastSync == Some(r.value.modifiedTimestamp)
  {
    match uploaded {
      case Failed(e) => r := Failed(UploadFailed(e));
      case Panicked => r := Panicked;
      case Done(info) =>
        db.MarkAsSynchronized(info.successfulIds, info.modifiedTimestamp, limit);
        r := Done(info);
    }
  }

  /** `reconciled` is the state of the tables once the changeset is applied. */
  method SynchronizeAgainst(db: LoginDb, changes: seq<Incoming>, dupe: DupeFinder, clocks: Clocks, now: int,
                            encode: Encoder, cfg: InfoConfiguration, fetched: int, server: Server, fullyAtomic: bool, limit: nat)
    returns (r: Outcome<UploadInfo, SyncError>, wire: seq<Post>, ghost reconciled: Tables, ghost out: seq<Payload>)
    requires db.IsTidy() && limit > 0
    modifies db
    ensures db.IsTidy() && (old(db.Valid()) ==> db.Valid())
    ensures !Acceptable(changes) ==> r.Failed? && r.error.StoreFailed? && db.State() == old(db.State()) && wire == []
    ensures Acceptable(changes) ==>
      && Stepped(LoginRuns.ApplyIncoming(DataOf(old(db.State()), changes), dupe, clocks, now), old(db.State()), reconciled)
      && IsOutgoing(reconciled, out)
      && (r.Failed? ==> r.error.UploadFailed?)
      && IsUploaded(cfg, fetched, server, EncodedAll(encode, out), fullyAtomic, UploadOf(r), wire)
    ensures Acceptable(changes) && !r.Done? ==> db.State() == reconciled && db.lastSync == old(db.lastSync)
    ensures r.Done? ==>
      && Acceptable(changes)
      && ConfirmedExactly(reconciled, db.State(), r.value.successfulIds, limit)
      && db.lastSync == Some(r.value.modifiedTimestamp)
  {
    wire, reconciled, out := [], db.State(), [];
    var applied := Receive(db, changes, dupe, clocks, now);
    if applied.Err? {
      r := Failed(StoreFailed(applied.error));
      return;
    }
    reconciled, out := db.State(), applied.value;
    var uploaded: Outcome<UploadInfo, Error>;
    uploaded, wire := SendAll(encode, applied.value, cfg, fetched, server, fullyAtomic);
    r := Conclude(db, uploaded, limit);
  }

  /** The exception is real: a login that the server answers for although it was
      not sent goes from the user's sight if only the mirror has it. */
  lemma UnsentAnswerHides(t: Tables, t': Tables, id: Guid, limit: nat, ts: int)
    requires TidyTables(t) && limit > 0 && Stepped(LoginRuns.Finish([id], limit, ts), t, t')
    requires id !in t.local && MirrorShows(CellOf(t, id))
    ensures VisibleLogins(t') == VisibleLogins(t) - {id} && VisibleLogins(t') != VisibleLogins(t)
  {
    assert LoginRuns.Min(limit, 1) == 1 && [id][1..] == [] && [id][..1] == [id];
    forall g | g != id ensures CellOf(t', g) == CellOf(t, g) {
      assert g !in [id];
      assert LoginRuns.Marked([id], limit, g, CellOf(t, g), ts) == LoginRuns.Marked([], limit, g, CellOf(t, g), ts);
    }
    assert CellOf(t', id) == LoginRuns.Marked([id], limit, id, CellOf(t, id), ts);
    assert id in [id];
    assert CellOf(t', id) == LoginRuns.Marked([], limit, id, SyncedCell(CellOf(t, id), ts), ts) == EMPTY;
    OneSet(t, t', id);
    assert id in VisibleLogins(t);
  }
}
