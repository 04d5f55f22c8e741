/** What every step of every run keeps: who knows which record, and which objects are gone. */
module LifecycleInvariants {
  import opened Metadata
  import opened FilesTable
  import opened Lifecycle

  // Two different files never share an object key.
  ghost predicate DistinctKeys(minted: Table) {
    && (forall id | id in minted :: minted[id].id == id)
    && (forall a, b | a in minted && b in minted && a != b :: minted[a].objectKey != minted[b].objectKey)
  }

  ghost predicate Known(s: State, rec: FileRecord) {
    rec.id in s.minted && s.minted[rec.id] == rec
  }

  // A row was minted by an upload and has been inserted at a known step.
  ghost predicate RowsKnown(s: State) {
    && (forall id | id in s.files :: id in s.windows && s.files[id].id == id && Known(s, s.files[id]))
    && (forall id | id in s.windows :: id in s.minted)
  }

  // An object belongs to a minted record and holds the bytes that record describes.
  ghost predicate ObjectsIntact(cfg: Config, s: State) {
    && (forall key | key in s.objects :: exists id :: id in s.minted && s.minted[id].objectKey == key)
    && (forall id | id in s.minted && s.minted[id].objectKey in s.objects ::
         var body := s.objects[s.minted[id].objectKey];
         cfg.hash(body) == s.minted[id].checksum && |body| == s.minted[id].sizeBytes)
  }

  ghost predicate OpKnown(s: State, o: Op) {
    match o
    case Hashed(_, at) => at <= s.now
    case Missed(_, at, lookedUp) => at <= s.now && lookedUp <= s.step
    case Stored(rec, lookedUp) =>
      && Known(s, rec) && rec.id !in s.windows && rec.objectKey in s.objects
      && rec.createdAt <= s.now && lookedUp <= s.step
    case Compensating(rec, applied) => Known(s, rec) && (applied <==> rec.id in s.windows)
    case Found(rec) => Known(s, rec) && rec.id in s.windows
    case Checked(rec) => Known(s, rec) && rec.id in s.windows
    case RowPending(rec, left) =>
      Known(s, rec) && rec.id in s.windows && (!left ==> rec.objectKey !in s.objects)
    case Cutoff(at) => at <= s.now
    case Sweeping(at, rest, removed) =>
      && at <= s.now
      && (forall i | 0 <= i < |rest| :: Known(s, rest[i]) && rest[i].id in s.windows && rest[i].expiresAt <= at)
      && (removed ==> rest != [] && rest[0].objectKey !in s.objects)
  }

  // The record an upload alone is responsible for, between its put and the end of its insert.
  predicate Holds(o: Op, id: string) {
    (o.Stored? || o.Compensating?) && o.rec.id == id
  }

  ghost predicate OneHolder(s: State) {
    forall a, b, id | a in s.ops && b in s.ops && Holds(s.ops[a], id) && Holds(s.ops[b], id) :: a == b
  }

  ghost predicate Inv(cfg: Config, s: State) {
    && DistinctKeys(s.minted)
    && RowsKnown(s)
    && ObjectsIntact(cfg, s)
    && (forall o | o in s.ops :: OpKnown(s, s.ops[o]))
    && OneHolder(s)
  }

  lemma InitInv(cfg: Config, now: Time)
    ensures Inv(cfg, Init(now))
  {
  }

  // An operation at rest is not disturbed by the steps of others.
  lemma Undisturbed(s: State, s': State, o: Op)
    requires OpKnown(s, o)
    requires forall id | id in s.minted :: id in s'.minted && s'.minted[id] == s.minted[id]
    requires forall key | key in s'.objects :: key in s.objects || (forall id | id in s.minted ::
             s.minted[id].objectKey != key)
    requires s.windows.Keys <= s'.windows.Keys && s.now <= s'.now && s.step <= s'.step
    requires o.Stored? || o.Compensating? ==> (o.rec.id in s.windows <==> o.rec.id in s'.windows)
    requires o.Stored? ==> o.rec.objectKey in s'.objects
    ensures OpKnown(s', o)
  {
  }

  // What a put does to everything but the ledger.
  ghost predicate PutEffect(s: State, e: Event, s': State)
    requires e.UploadPut? && e.op in s.ops && s.ops[e.op].Missed?
  {
    && s'.minted == s.minted[e.rec.id := e.rec] && s'.windows == s.windows && s'.files == s.files
    && s'.now == s.now && s'.step == s.step + 1
    && (s'.objects == s.objects || s'.objects == s.objects[e.rec.objectKey := s.ops[e.op].body])
    && (forall o | o in s'.ops && o != e.op :: o in s.ops && s'.ops[o] == s.ops[o])
    && (e.op in s'.ops ==> s'.ops[e.op] == Stored(e.rec, s.ops[e.op].lookedUp) && e.rec.objectKey in s'.objects)
  }

  lemma PutInv(cfg: Config, s: State, e: Event)
    requires Inv(cfg, s) && Enabled(cfg, s, e) && e.UploadPut?
    ensures Inv(cfg, Next(cfg, s, e))
  {
    PutShape(cfg, s, e);
    PutEffectInv(cfg, s, Next(cfg, s, e), e);
  }

  lemma PutShape(cfg: Config, s: State, e: Event)
    requires Enabled(cfg, s, e) && e.UploadPut?
    ensures PutEffect(s, e, Next(cfg, s, e))
  {
  }

  lemma PutEffectInv(cfg: Config, s: State, s': State, e: Event)
    requires Inv(cfg, s) && Enabled(cfg, s, e) && e.UploadPut? && PutEffect(s, e, s')
    ensures Inv(cfg, s')
  {
    NewObjectIntact(cfg, s, s', e.rec, s.ops[e.op].body);
    PutOps(cfg, s, s', e);
  }

  lemma PutOps(cfg: Config, s: State, s': State, e: Event)
    requires Inv(cfg, s) && Enabled(cfg, s, e) && e.UploadPut? && PutEffect(s, e, s')
    ensures forall o | o in s'.ops :: OpKnown(s', s'.ops[o])
    ensures OneHolder(s')
  {
    assert OpKnown(s, s.ops[e.op]);
    forall o | o in s'.ops && o != e.op
      ensures OpKnown(s', s'.ops[o]) && !Holds(s'.ops[o], e.rec.id)
    {
      assert OpKnown(s, s.ops[o]);
      Undisturbed(s, s', s.ops[o]);
    }
  }

  lemma NewKeyUnused(cfg: Config, s: State, rec: FileRecord)
    requires ObjectsIntact(cfg, s)
    requires forall id | id in s.minted :: s.minted[id].objectKey != rec.objectKey
    ensures rec.objectKey !in s.objects
  {
  }

  lemma NewObjectIntact(cfg: Config, s: State, s': State, rec: FileRecord, body: Bytes)
    requires ObjectsIntact(cfg, s) && rec.id !in s.minted
    requires forall id | id in s.minted :: s.minted[id].objectKey != rec.objectKey
    requires s'.minted == s.minted[rec.id := rec]
    requires s'.objects == s.objects || s'.objects == s.objects[rec.objectKey := body]
    requires cfg.hash(body) == rec.checksum && |body| == rec.sizeBytes
    ensures ObjectsIntact(cfg, s')
  {
    NewKeyUnused(cfg, s, rec);
    forall key | key in s'.objects
      ensures exists id :: id in s'.minted && s'.minted[id].objectKey == key
    {
      if key == rec.objectKey {
        assert s'.minted[rec.id].objectKey == key;
      } else {
        var id :| id in s.minted && s.minted[id].objectKey == key;
        assert s'.minted[id].objectKey == key;
      }
    }
  }

  // What an insert does to everything but the ledger and the step numbers.
  ghost predicate InsertEffect(s: State, e: Event, s': State)
    requires e.UploadInsert? && e.op in s.ops && s.ops[e.op].Stored?
  {
    var rec := s.ops[e.op].rec;
    && s'.minted == s.minted && s'.objects == s.objects && s'.now == s.now && s'.step == s.step + 1
    && (forall o | o in s'.ops && o != e.op :: o in s.ops && s'.ops[o] == s.ops[o])
    && (e.op in s'.ops ==> s'.ops[e.op] == Compensating(rec, e.insert.Applied()))
    && s'.windows.Keys == (if e.insert.Applied() then s.windows.Keys + {rec.id} else s.windows.Keys)
    && s'.files == (if e.insert.Applied() then s.files[rec.id := rec] else s.files)
  }

  lemma InsertInv(cfg: Config, s: State, e: Event)
    requires Inv(cfg, s) && Enabled(cfg, s, e) && e.UploadInsert?
    ensures Inv(cfg, Next(cfg, s, e))
  {
    InsertShape(cfg, s, e);
    InsertEffectInv(cfg, s, Next(cfg, s, e), e);
  }

  lemma InsertShape(cfg: Config, s: State, e: Event)
    requires Enabled(cfg, s, e) && e.UploadInsert?
    ensures InsertEffect(s, e, Next(cfg, s, e))
  {
  }

  lemma InsertEffectInv(cfg: Config, s: State, s': State, e: Event)
    requires Inv(cfg, s) && Enabled(cfg, s, e) && e.UploadInsert? && InsertEffect(s, e, s')
    ensures Inv(cfg, s')
  {
    assert OpKnown(s, s.ops[e.op]);
    InsertOps(s, s', e.op, s.ops[e.op].rec);
    InsertRows(cfg, s, s', s.ops[e.op].rec);
  }

  lemma InsertRows(cfg: Config, s: State, s': State, rec: FileRecord)
    requires RowsKnown(s) && ObjectsIntact(cfg, s) && Known(s, rec) && s.minted[rec.id].id == rec.id
    requires s'.minted == s.minted && s'.objects == s.objects
    requires (s'.files == s.files && s'.windows.Keys == s.windows.Keys)
             || (s'.files == s.files[rec.id := rec] && s'.windows.Keys == s.windows.Keys + {rec.id})
    ensures RowsKnown(s') && ObjectsIntact(cfg, s')
  {
  }

  lemma InsertOps(s: State, s': State, op: nat, rec: FileRecord)
    requires op in s.ops && s.ops[op].Stored? && s.ops[op].rec == rec && OneHolder(s)
    requires forall o | o in s.ops :: OpKnown(s, s.ops[o])
    requires s'.minted == s.minted && s'.objects == s.objects && s'.now == s.now && s'.step == s.step + 1
    requires forall o | o in s'.ops && o != op :: o in s.ops && s'.ops[o] == s.ops[o]
    requires s'.windows.Keys == s.windows.Keys || s'.windows.Keys == s.windows.Keys + {rec.id}
    requires op in s'.ops ==> s'.ops[op] == Compensating(rec, rec.id in s'.windows)
    ensures forall o | o in s'.ops :: OpKnown(s', s'.ops[o])
    ensures OneHolder(s')
  {
    assert Holds(s.ops[op], rec.id);
    forall o | o in s'.ops && o != op
      ensures OpKnown(s', s'.ops[o]) && !Holds(s'.ops[o], rec.id)
    {
      assert OpKnown(s, s.ops[o]);
      Undisturbed(s, s', s.ops[o]);
    }
  }

  // Every other step leaves the minted records and the windows as they are.
  lemma OtherStepInv(cfg: Config, s: State, e: Event)
    requires Inv(cfg, s) && Enabled(cfg, s, e) && !e.UploadPut? && !e.UploadInsert?
    ensures Inv(cfg, Next(cfg, s, e))
  {
    var s' := Next(cfg, s, e);
    OtherStepShape(cfg, s, e);
    forall o | o in s'.ops
      ensures OpKnown(s', s'.ops[o])
    {
      OtherOpKnown(cfg, s, e, o);
    }
    OtherEffectInv(cfg, s, e, s');
  }

  lemma OtherOpKnown(cfg: Config, s: State, e: Event, o: nat)
    requires Inv(cfg, s) && Enabled(cfg, s, e) && !e.UploadPut? && !e.UploadInsert? && o in Next(cfg, s, e).ops
    ensures OpKnown(Next(cfg, s, e), Next(cfg, s, e).ops[o])
  {
    OtherStepShape(cfg, s, e);
    if e.Tick? || o != e.op {
      if s.ops[o].Stored? { StoredObjectStays(cfg, s, e, o); }
      Undisturbed(s, Next(cfg, s, e), s.ops[o]);
    } else {
      MovedOpKnown(cfg, s, e);
    }
  }

  lemma OtherEffectInv(cfg: Config, s: State, e: Event, s': State)
    requires Inv(cfg, s) && OtherEffect(s, e, s') && forall o | o in s'.ops :: OpKnown(s', s'.ops[o])
    ensures Inv(cfg, s')
  {
    forall a, b, id | a in s'.ops && b in s'.ops && Holds(s'.ops[a], id) && Holds(s'.ops[b], id)
      ensures a == b
    {
      assert Holds(s.ops[a], id) && Holds(s.ops[b], id);
    }
  }

  // What such a step does: objects and rows may go, and one operation moves, but into no state
  // that answers for a record.
  ghost predicate OtherEffect(s: State, e: Event, s': State) {
    && s'.minted == s.minted && s'.windows == s.windows && s.now <= s'.now && s.step < s'.step
    && s'.objects.Keys <= s.objects.Keys && (forall key | key in s'.objects :: s'.objects[key] == s.objects[key])
    && s'.files.Keys <= s.files.Keys && (forall id | id in s'.files :: s'.files[id] == s.files[id])
    && (forall o | o in s'.ops && (e.Tick? || o != e.op) :: o in s.ops && s'.ops[o] == s.ops[o])
    && (!e.Tick? && e.op in s'.ops ==> !s'.ops[e.op].Stored? && !s'.ops[e.op].Compensating?)
  }

  lemma OtherStepShape(cfg: Config, s: State, e: Event)
    requires Enabled(cfg, s, e) && !e.UploadPut? && !e.UploadInsert?
    ensures OtherEffect(s, e, Next(cfg, s, e))
  {
    if e.SweepBegin? || e.SweepFind? || e.SweepObject? || e.SweepRow? {
      SweepShape(cfg, s, e);
    } else if e.DeleteFind? || e.DeleteCheck? || e.DeleteObject? || e.DeleteRow? {
      DeleteShape(cfg, s, e);
    }
  }

  lemma SweepShape(cfg: Config, s: State, e: Event)
    requires e.SweepBegin? || e.SweepFind? || e.SweepObject? || e.SweepRow?
    requires Enabled(cfg, s, e)
    ensures OtherEffect(s, e, Next(cfg, s, e))
  {
  }

  lemma DeleteShape(cfg: Config, s: State, e: Event)
    requires e.DeleteFind? || e.DeleteCheck? || e.DeleteObject? || e.DeleteRow?
    requires Enabled(cfg, s, e)
    ensures OtherEffect(s, e, Next(cfg, s, e))
  {
  }

  // No step but its own upload's removes an object whose row is yet to be inserted.
  lemma StoredObjectStays(cfg: Config, s: State, e: Event, o: nat)
    requires Inv(cfg, s) && Enabled(cfg, s, e) && !e.UploadPut? && !e.UploadInsert?
    requires o in s.ops && s.ops[o].Stored? && (e.Tick? || e.op != o)
    ensures s.ops[o].rec.objectKey in Next(cfg, s, e).objects
  {
    ObjectsShape(cfg, s, e);
    NotItsObject(cfg, s, e, o);
  }

  lemma NotItsObject(cfg: Config, s: State, e: Event, o: nat)
    requires Inv(cfg, s) && Enabled(cfg, s, e) && !e.UploadPut? && !e.UploadInsert?
    requires o in s.ops && s.ops[o].Stored? && (e.Tick? || e.op != o)
    ensures s.ops[o].rec.objectKey in s.objects
    ensures e.DeleteObject? || e.SweepObject? || e.UploadCompensate? ==>
      Subject(s, e).Some? && Subject(s, e).value.objectKey != s.ops[o].rec.objectKey
  {
    assert OpKnown(s, s.ops[o]);
    if e.DeleteObject? || e.SweepObject? || e.UploadCompensate? {
      assert OpKnown(s, s.ops[e.op]);
      assert Holds(s.ops[o], s.ops[o].rec.id);
      if e.UploadCompensate? { assert Holds(s.ops[e.op], s.ops[e.op].rec.id); }
    }
  }

  lemma MovedOpKnown(cfg: Config, s: State, e: Event)
    requires Inv(cfg, s) && Enabled(cfg, s, e) && !e.Tick? && !e.UploadPut? && !e.UploadInsert?
    requires e.op in Next(cfg, s, e).ops
    ensures OpKnown(Next(cfg, s, e), Next(cfg, s, e).ops[e.op])
  {
    if e.SweepObject? || e.SweepRow? {
      MovedSweepKnown(cfg, s, e);
    } else if e.SweepFind? {
      NewSweepKnown(cfg, s, e);
    } else if e.DeleteFind? || e.DeleteCheck? || e.DeleteObject? || e.DeleteRow? {
      MovedDeleteKnown(cfg, s, e);
    } else {
      MovedUploadKnown(cfg, s, e);
    }
  }

  lemma MovedUploadKnown(cfg: Config, s: State, e: Event)
    requires e.UploadHash? || e.UploadLookup? || e.UploadCompensate? || e.SweepBegin? || e.Stop?
    requires Inv(cfg, s) && Enabled(cfg, s, e) && e.op in Next(cfg, s, e).ops
    ensures OpKnown(Next(cfg, s, e), Next(cfg, s, e).ops[e.op])
  {
    if e.op in s.ops { assert OpKnown(s, s.ops[e.op]); }
  }

  lemma MovedDeleteKnown(cfg: Config, s: State, e: Event)
    requires e.DeleteFind? || e.DeleteCheck? || e.DeleteObject? || e.DeleteRow?
    requires Inv(cfg, s) && Enabled(cfg, s, e) && e.op in Next(cfg, s, e).ops
    ensures OpKnown(Next(cfg, s, e), Next(cfg, s, e).ops[e.op])
  {
    if e.op in s.ops { assert OpKnown(s, s.ops[e.op]); }
  }

  lemma NewSweepKnown(cfg: Config, s: State, e: Event)
    requires e.SweepFind?
    requires Inv(cfg, s) && Enabled(cfg, s, e) && e.op in Next(cfg, s, e).ops
    ensures OpKnown(Next(cfg, s, e), Next(cfg, s, e).ops[e.op])
  {
    assert OpKnown(s, s.ops[e.op]);
    forall i | 0 <= i < |e.batch|
      ensures Known(s, e.batch[i]) && e.batch[i].id in s.windows
    {
      assert Known(s, s.files[e.batch[i].id]);
    }
  }

  lemma MovedSweepKnown(cfg: Config, s: State, e: Event)
    requires e.SweepObject? || e.SweepRow?
    requires Inv(cfg, s) && Enabled(cfg, s, e) && e.op in Next(cfg, s, e).ops
    ensures OpKnown(Next(cfg, s, e), Next(cfg, s, e).ops[e.op])
  {
    assert OpKnown(s, s.ops[e.op]);
  }

  lemma StepInv(cfg: Config, s: State, e: Event)
    requires Inv(cfg, s) && Enabled(cfg, s, e)
    ensures Inv(cfg, Next(cfg, s, e))
  {
    if e.UploadPut? { PutInv(cfg, s, e); }
    else if e.UploadInsert? { InsertInv(cfg, s, e); }
    else { OtherStepInv(cfg, s, e); }
  }

  lemma {:induction false} RunInv(cfg: Config, start: State, run: seq<Event>)
    requires Inv(cfg, start) && Legal(cfg, start, run)
    ensures Inv(cfg, After(cfg, start, run))
    decreases |run|
  {
    if run != [] {
      RunInv(cfg, start, Front(run));
      StepInv(cfg, After(cfg, start, Front(run)), Last(run));
    }
  }

  // The record a step is about.
  function Subject(s: State, e: Event): Option<FileRecord> {
    match e
    case UploadPut(_, rec, _) => Some(rec)
    case Tick(_) => None
    case _ =>
      if e.op !in s.ops then None
      else match s.ops[e.op]
        case Stored(rec, _) => Some(rec)
        case Compensating(rec, _) => Some(rec)
        case Found(rec) => Some(rec)
        case Checked(rec) => Some(rec)
        case RowPending(rec, _) => Some(rec)
        case Sweeping(_, rest, _) => if rest == [] then None else Some(rest[0])
        case _ => None
  }

  predicate About(s: State, e: Event, key: string) {
    Subject(s, e).Some? && Subject(s, e).value.objectKey == key
  }

  predicate AboutId(s: State, e: Event, id: string) {
    Subject(s, e).Some? && Subject(s, e).value.id == id
  }

  // A step changes at most the row of the record it is about.
  ghost predicate FilesEffect(s: State, e: Event, files': Table) {
    || files' == s.files
    || (Subject(s, e).Some? && var r := Subject(s, e).value;
        || ((e.DeleteRow? || e.SweepRow?) && files' == Without(s.files, r.id))
        || (e.UploadInsert? && files' == s.files[r.id := r]))
  }

  lemma FilesShape(cfg: Config, s: State, e: Event)
    requires Enabled(cfg, s, e)
    ensures FilesEffect(s, e, Next(cfg, s, e).files)
  {
  }

  lemma SubjectKnown(cfg: Config, s: State, e: Event)
    requires Inv(cfg, s) && Enabled(cfg, s, e) && Subject(s, e).Some?
    ensures var r := Subject(s, e).value;
      Known(s, r) || (r.id !in s.minted && forall id | id in s.minted :: s.minted[id].objectKey != r.objectKey)
  {
    if !e.UploadPut? { assert OpKnown(s, s.ops[e.op]); }
  }

  // A step removes at most the object of that record, and only a delete call does.
  ghost predicate ObjectsEffect(s: State, e: Event, objects': map<string, Bytes>) {
    || objects' == s.objects
    || ((e.DeleteObject? || e.SweepObject? || e.UploadCompensate?)
        && Subject(s, e).Some? && objects' == Without(s.objects, Subject(s, e).value.objectKey))
  }

  lemma ObjectsShape(cfg: Config, s: State, e: Event)
    requires Enabled(cfg, s, e) && !e.UploadPut?
    ensures ObjectsEffect(s, e, Next(cfg, s, e).objects)
  {
  }
}
