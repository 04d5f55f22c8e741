/** What a client may rely on: bytes match the record, and a live file stays until its time. */
module Durability {
  import opened Metadata
  import opened FilesTable
  import opened Lifecycle
  import opened LifecycleInvariants

  /** In every reachable state an object is, in hash and length, the one its row describes. */
  lemma StoredBytesMatchTheRecord(cfg: Config, now: Time, run: seq<Event>, id: string)
    requires Legal(cfg, Init(now), run)
    requires id in After(cfg, Init(now), run).files
    requires After(cfg, Init(now), run).files[id].objectKey in After(cfg, Init(now), run).objects
    ensures var s := After(cfg, Init(now), run);
            var row := s.files[id];
            row.checksum == cfg.hash(s.objects[row.objectKey]) && row.sizeBytes == |s.objects[row.objectKey]|
  {
    InitInv(cfg, now);
    RunInv(cfg, Init(now), run);
    assert Known(After(cfg, Init(now), run), After(cfg, Init(now), run).files[id]);
  }

  /**
   A row loses its object only to an early delete that passed the token check, to a sweep
   after its expiry, or to the clean-up of an insert that took effect although it failed.
   */
  lemma WhoRemovesAnObject(cfg: Config, s: State, e: Event, id: string)
    requires Inv(cfg, s) && Enabled(cfg, s, e) && id in s.files
    requires s.files[id].objectKey in s.objects && s.files[id].objectKey !in Next(cfg, s, e).objects
    ensures var row := s.files[id];
      || (e.DeleteObject? && s.ops[e.op] == Checked(row))
      || (e.SweepObject? && s.ops[e.op].rest[0] == row && row.expiresAt <= s.ops[e.op].at <= s.now)
      || (e.UploadCompensate? && s.ops[e.op] == Compensating(row, true))
  {
    if e.UploadPut? {
      PutShape(cfg, s, e);
    } else {
      ObjectsShape(cfg, s, e);
      RemovedObject(cfg, s, e, id, Next(cfg, s, e).objects);
    }
  }

  // The record a delete call is about, and what its operation knows of it.
  lemma DeleteSubject(cfg: Config, s: State, e: Event)
    requires e.DeleteObject? || e.DeleteRow? || e.SweepObject? || e.SweepRow? || e.UploadCompensate?
    requires Inv(cfg, s) && Enabled(cfg, s, e)
    ensures Subject(s, e).Some? && Known(s, Subject(s, e).value)
    ensures var r := Subject(s, e).value;
      && (e.DeleteObject? ==> s.ops[e.op] == Checked(r)) && (e.DeleteRow? ==> s.ops[e.op].rec == r)
      && (e.SweepObject? || e.SweepRow? ==> s.ops[e.op].rest[0] == r && r.expiresAt <= s.ops[e.op].at <= s.now)
      && (e.UploadCompensate? ==> s.ops[e.op] == Compensating(r, r.id in s.windows))
  {
    assert OpKnown(s, s.ops[e.op]);
  }

  lemma OneRecordPerKey(s: State, a: FileRecord, b: FileRecord)
    requires DistinctKeys(s.minted) && Known(s, a) && Known(s, b) && (a.id == b.id || a.objectKey == b.objectKey)
    ensures a == b
  {
  }

  lemma RemovedObject(cfg: Config, s: State, e: Event, id: string, objects': map<string, Bytes>)
    requires Inv(cfg, s) && Enabled(cfg, s, e) && !e.UploadPut? && ObjectsEffect(s, e, objects')
    requires id in s.files && s.files[id].objectKey in s.objects && s.files[id].objectKey !in objects'
    ensures var row := s.files[id];
      || (e.DeleteObject? && s.ops[e.op] == Checked(row))
      || (e.SweepObject? && s.ops[e.op].rest[0] == row && row.expiresAt <= s.ops[e.op].at <= s.now)
      || (e.UploadCompensate? && s.ops[e.op] == Compensating(row, true))
  {
    DeleteSubject(cfg, s, e);
    assert Known(s, s.files[id]);
    OneRecordPerKey(s, Subject(s, e).value, s.files[id]);
  }

  // Early delete `op` was let through on a token whose hash is the one `row` stores.
  ghost predicate TokenShown(run: seq<Event>, op: nat, row: FileRecord) {
    exists i :: 0 <= i < |run| && run[i].DeleteCheck? && run[i].op == op
        && row.deleteTokenHash != "" && run[i].token == Some(row.deleteTokenHash)
  }

  lemma CheckStep(cfg: Config, s: State, e: Event, op: nat)
    requires Enabled(cfg, s, e) && op in Next(cfg, s, e).ops && Next(cfg, s, e).ops[op].Checked?
    ensures var rec := Next(cfg, s, e).ops[op].rec;
      || (op in s.ops && s.ops[op] == Checked(rec))
      || (e.DeleteCheck? && e.op == op && rec.deleteTokenHash != "" && e.token == Some(rec.deleteTokenHash))
  {
  }

  lemma {:induction false} CheckedByItsToken(cfg: Config, begin: Time, run: seq<Event>, op: nat)
    requires Legal(cfg, Init(begin), run)
    requires op in After(cfg, Init(begin), run).ops && After(cfg, Init(begin), run).ops[op].Checked?
    ensures TokenShown(run, op, After(cfg, Init(begin), run).ops[op].rec)
    decreases |run|
  {
    assert run != [];
    var s, e, rec := After(cfg, Init(begin), Front(run)), Last(run), After(cfg, Init(begin), run).ops[op].rec;
    CheckStep(cfg, s, e, op);
    if op in s.ops && s.ops[op] == Checked(rec) {
      CheckedByItsToken(cfg, begin, Front(run), op);
      var i :| 0 <= i < |Front(run)| && run[i].DeleteCheck? && run[i].op == op
          && rec.deleteTokenHash != "" && run[i].token == Some(rec.deleteTokenHash);
      assert run[i].DeleteCheck?;
    } else {
      assert run[|run| - 1] == e;
    }
  }

  /** Over whole runs: before its expiry a row's object falls only to a delete that showed the
      row's token, or to the clean-up of its own insert. */
  lemma LiveObjectFallsToItsToken(cfg: Config, begin: Time, run: seq<Event>, e: Event, id: string)
    requires Legal(cfg, Init(begin), run) && Enabled(cfg, After(cfg, Init(begin), run), e)
    requires var s := After(cfg, Init(begin), run);
      && id in s.files && s.now < s.files[id].expiresAt
      && s.files[id].objectKey in s.objects && s.files[id].objectKey !in Next(cfg, s, e).objects
    ensures var s := After(cfg, Init(begin), run);
      || (e.DeleteObject? && TokenShown(run, e.op, s.files[id]))
      || (e.UploadCompensate? && s.ops[e.op] == Compensating(s.files[id], true))
  {
    InitInv(cfg, begin);
    RunInv(cfg, Init(begin), run);
    WhoRemovesAnObject(cfg, After(cfg, Init(begin), run), e, id);
    if e.DeleteObject? { CheckedByItsToken(cfg, begin, run, e.op); }
  }

  /**
   The second case does occur: an insert that took effect although it reported an error is
   cleaned up after, and its row stays behind without its object, live if it was to be.
   */
  lemma CleanUpCanTakeALiveObject(cfg: Config, s: State, op: nat)
    requires op in s.ops && s.ops[op].Stored?
    ensures var run := [] + [UploadInsert(op, FailedApplied)] + [UploadCompensate(op, Succeeded)];
      Legal(cfg, s, run) &&
      var s', rec := After(cfg, s, run), s.ops[op].rec;
      && rec.id in s'.files && s'.files[rec.id] == rec && rec.objectKey !in s'.objects
      && (s.now < rec.expiresAt ==> s'.now < s'.files[rec.id].expiresAt)
  {
    Extend(cfg, s, [], UploadInsert(op, FailedApplied));
    Extend(cfg, s, [] + [UploadInsert(op, FailedApplied)], UploadCompensate(op, Succeeded));
  }

  // A step other than an early delete takes the object of this row.
  ghost predicate CanLoseItsObject(cfg: Config, s: State, row: FileRecord) {
    exists e :: Enabled(cfg, s, e) && !e.DeleteObject? && row.objectKey !in Next(cfg, s, e).objects
  }

  /** Exactly when it can occur: while a clean-up after an insert of this very row is pending. */
  lemma CleanUpIsPendingIff(cfg: Config, s: State, row: FileRecord)
    requires Inv(cfg, s) && row.id in s.files && s.files[row.id] == row
    requires row.objectKey in s.objects && s.now < row.expiresAt
    ensures CanLoseItsObject(cfg, s, row) <==> exists o :: o in s.ops && s.ops[o] == Compensating(row, true)
  {
    if CanLoseItsObject(cfg, s, row) {
      var e :| Enabled(cfg, s, e) && !e.DeleteObject? && row.objectKey !in Next(cfg, s, e).objects;
      WhoRemovesAnObject(cfg, s, e, row.id);
      assert e.op in s.ops && s.ops[e.op] == Compensating(row, true);
    }
    if o :| o in s.ops && s.ops[o] == Compensating(row, true) {
      assert row.objectKey !in Next(cfg, s, UploadCompensate(o, Succeeded)).objects;
    }
  }

  lemma CompensationStep(cfg: Config, s: State, e: Event, op: nat)
    requires Enabled(cfg, s, e) && op in Next(cfg, s, e).ops && Next(cfg, s, e).ops[op].Compensating?
    requires Next(cfg, s, e).ops[op].applied
    ensures (op in s.ops && s.ops[op] == Next(cfg, s, e).ops[op]) || e == UploadInsert(op, FailedApplied)
  {
  }

  lemma {:induction false} LyingInsertShown(cfg: Config, begin: Time, run: seq<Event>, op: nat)
    requires Legal(cfg, Init(begin), run)
    requires var s := After(cfg, Init(begin), run); op in s.ops && s.ops[op].Compensating? && s.ops[op].applied
    ensures UploadInsert(op, FailedApplied) in run
    decreases |run|
  {
    assert run != [];
    var s, e := After(cfg, Init(begin), Front(run)), Last(run);
    assert run == Front(run) + [e];
    CompensationStep(cfg, s, e, op);
    if op in s.ops && s.ops[op] == After(cfg, Init(begin), run).ops[op] {
      LyingInsertShown(cfg, begin, Front(run), op);
    }
  }

  /** Where no insert reports an error after taking effect, a shown token is the only way. */
  lemma OnlyATokenTakesALiveObject(cfg: Config, begin: Time, run: seq<Event>, e: Event, id: string)
    requires Legal(cfg, Init(begin), run) && Enabled(cfg, After(cfg, Init(begin), run), e)
    requires forall op :: UploadInsert(op, FailedApplied) !in run
    requires var s := After(cfg, Init(begin), run);
      && id in s.files && s.now < s.files[id].expiresAt
      && s.files[id].objectKey in s.objects && s.files[id].objectKey !in Next(cfg, s, e).objects
    ensures e.DeleteObject? && TokenShown(run, e.op, After(cfg, Init(begin), run).files[id])
  {
    LiveObjectFallsToItsToken(cfg, begin, run, e, id);
    if e.UploadCompensate? && After(cfg, Init(begin), run).ops[e.op].applied {
      LyingInsertShown(cfg, begin, run, e.op);
    }
  }

  // A row goes only with an early delete that passed the token check or a sweep after expiry.
  lemma WhoRemovesARow(cfg: Config, s: State, e: Event, id: string)
    requires Inv(cfg, s) && Enabled(cfg, s, e) && id in s.files && id !in Next(cfg, s, e).files
    ensures var row := s.files[id];
      || (e.DeleteRow? && s.ops[e.op].rec == row)
      || (e.SweepRow? && s.ops[e.op].rest[0] == row && row.expiresAt <= s.ops[e.op].at <= s.now)
  {
    FilesShape(cfg, s, e);
    RemovedRow(cfg, s, e, id, Next(cfg, s, e).files);
  }

  lemma RemovedRow(cfg: Config, s: State, e: Event, id: string, files': Table)
    requires Inv(cfg, s) && Enabled(cfg, s, e) && FilesEffect(s, e, files') && id in s.files && id !in files'
    ensures var row := s.files[id];
      || (e.DeleteRow? && s.ops[e.op].rec == row)
      || (e.SweepRow? && s.ops[e.op].rest[0] == row && row.expiresAt <= s.ops[e.op].at <= s.now)
  {
    DeleteSubject(cfg, s, e);
    assert Known(s, s.files[id]);
    OneRecordPerKey(s, Subject(s, e).value, s.files[id]);
  }

  // The row and its object are there and no operation is set to remove either.
  ghost predicate Settled(s: State, row: FileRecord) {
    && row.id in s.files && s.files[row.id] == row && row.objectKey in s.objects
    && forall o | o in s.ops :: !Removing(s.ops[o], row.id)
  }

  predicate Removing(o: Op, id: string) {
    (o.Checked? || o.RowPending? || o.Compensating?) && o.rec.id == id
  }

  // Nobody presents the delete token of `row`.
  ghost predicate TokenUnused(run: seq<Event>, row: FileRecord) {
    forall i | 0 <= i < |run| && run[i].DeleteCheck? ::
      row.deleteTokenHash == "" || run[i].token != Some(row.deleteTokenHash)
  }

  lemma InsertSettles(cfg: Config, s: State, e: Event)
    requires Inv(cfg, s) && Enabled(cfg, s, e) && e.UploadInsert? && e.insert == Succeeded
    ensures Settled(Next(cfg, s, e), s.ops[e.op].rec)
  {
    var s', rec := Next(cfg, s, e), s.ops[e.op].rec;
    InsertShape(cfg, s, e);
    assert OpKnown(s, s.ops[e.op]);
    assert Holds(s.ops[e.op], rec.id);
    forall o | o in s'.ops
      ensures !Removing(s'.ops[o], rec.id)
    {
      assert OpKnown(s, s.ops[o]) && (s.ops[o].Compensating? ==> Holds(s.ops[o], s.ops[o].rec.id));
    }
  }

  lemma StepKeepsSettled(cfg: Config, s: State, e: Event, row: FileRecord)
    requires Inv(cfg, s) && Enabled(cfg, s, e) && Settled(s, row) && s.now < row.expiresAt
    requires e.DeleteCheck? ==> row.deleteTokenHash == "" || e.token != Some(row.deleteTokenHash)
    ensures Settled(Next(cfg, s, e), row)
  {
    var s' := Next(cfg, s, e);
    assert Known(s, row);
    if row.objectKey !in s'.objects { WhoRemovesAnObject(cfg, s, e, row.id); }
    RowStays(cfg, s, e, row);
    NothingStartsRemoving(cfg, s, e, row);
  }

  lemma RowStays(cfg: Config, s: State, e: Event, row: FileRecord)
    requires Inv(cfg, s) && Enabled(cfg, s, e) && Settled(s, row) && s.now < row.expiresAt
    ensures row.id in Next(cfg, s, e).files && Next(cfg, s, e).files[row.id] == row
  {
    if row.id !in Next(cfg, s, e).files { WhoRemovesARow(cfg, s, e, row.id); }
    if e.UploadInsert? {
      InsertShape(cfg, s, e);
      assert OpKnown(s, s.ops[e.op]);
    }
  }

  // The operation was set to remove the row before, or has just passed the token check for it,
  // or is the upload of that row after a failed insert.
  predicate MayStartRemoving(s: State, e: Event, o: nat, id: string) {
    o in s.ops && (
      || Removing(s.ops[o], id)
      || (e.DeleteCheck? && e.op == o && s.ops[o].Found? && s.ops[o].rec.id == id)
      || (e.UploadInsert? && e.op == o && s.ops[o].Stored? && s.ops[o].rec.id == id))
  }

  lemma StartsRemoving(cfg: Config, s: State, e: Event, o: nat, id: string)
    requires Enabled(cfg, s, e) && o in Next(cfg, s, e).ops && Removing(Next(cfg, s, e).ops[o], id)
    ensures MayStartRemoving(s, e, o, id)
  {
    if e.UploadInsert? {
      InsertShape(cfg, s, e);
    } else if e.UploadPut? {
      PutShape(cfg, s, e);
    } else {
      OtherStepShape(cfg, s, e);
      if !e.Tick? && e.op == o { MovesTowardsRemoval(cfg, s, e, id); }
    }
  }

  lemma MovesTowardsRemoval(cfg: Config, s: State, e: Event, id: string)
    requires Enabled(cfg, s, e) && !e.Tick? && !e.UploadPut? && !e.UploadInsert?
    requires e.op in Next(cfg, s, e).ops && Removing(Next(cfg, s, e).ops[e.op], id)
    ensures MayStartRemoving(s, e, e.op, id)
  {
  }

  lemma MayNotStart(cfg: Config, s: State, e: Event, o: nat, row: FileRecord)
    requires Inv(cfg, s) && Enabled(cfg, s, e) && Settled(s, row)
    requires e.DeleteCheck? ==> row.deleteTokenHash == "" || e.token != Some(row.deleteTokenHash)
    ensures !MayStartRemoving(s, e, o, row.id)
  {
    assert Known(s, row);
    if o in s.ops { assert OpKnown(s, s.ops[o]); }
  }

  lemma NothingStartsRemoving(cfg: Config, s: State, e: Event, row: FileRecord)
    requires Inv(cfg, s) && Enabled(cfg, s, e) && Settled(s, row)
    requires e.DeleteCheck? ==> row.deleteTokenHash == "" || e.token != Some(row.deleteTokenHash)
    ensures forall o | o in Next(cfg, s, e).ops :: !Removing(Next(cfg, s, e).ops[o], row.id)
  {
    forall o | o in Next(cfg, s, e).ops
      ensures !Removing(Next(cfg, s, e).ops[o], row.id)
    {
      MayNotStart(cfg, s, e, o, row);
      if Removing(Next(cfg, s, e).ops[o], row.id) { StartsRemoving(cfg, s, e, o, row.id); }
    }
  }

  lemma {:induction false} LiveFileStays(cfg: Config, start: State, run: seq<Event>, row: FileRecord)
    requires Inv(cfg, start) && Legal(cfg, start, run) && Settled(start, row) && TokenUnused(run, row)
    requires After(cfg, start, run).now < row.expiresAt
    ensures Settled(After(cfg, start, run), row)
    decreases |run|
  {
    if run != [] {
      var s := After(cfg, start, Front(run));
      StepClock(cfg, s, Last(run));
      LiveFileStays(cfg, start, Front(run), row);
      RunInv(cfg, start, Front(run));
      StepKeepsSettled(cfg, s, Last(run), row);
    }
  }

  /**
   An uploaded file stays available: after a successful Insert, however other uploads,
   deletes and sweeps interleave, fail or crash, the row and its object are both still there
   at every instant before the expiry, provided nobody presents the file's delete token.
   */
  lemma UploadedFileStaysUntilExpiry(cfg: Config, now: Time, past: seq<Event>, op: nat, future: seq<Event>)
    requires Legal(cfg, Init(now), past)
    requires Enabled(cfg, After(cfg, Init(now), past), UploadInsert(op, Succeeded))
    requires var s := Next(cfg, After(cfg, Init(now), past), UploadInsert(op, Succeeded));
             var row := After(cfg, Init(now), past).ops[op].rec;
             Legal(cfg, s, future) && TokenUnused(future, row) && After(cfg, s, future).now < row.expiresAt
    ensures var s := Next(cfg, After(cfg, Init(now), past), UploadInsert(op, Succeeded));
            var row := After(cfg, Init(now), past).ops[op].rec;
            var end := After(cfg, s, future);
            row.id in end.files && end.files[row.id] == row && row.objectKey in end.objects
  {
    var before := After(cfg, Init(now), past);
    InitInv(cfg, now);
    RunInv(cfg, Init(now), past);
    StepInv(cfg, before, UploadInsert(op, Succeeded));
    InsertSettles(cfg, before, UploadInsert(op, Succeeded));
    LiveFileStays(cfg, Next(cfg, before, UploadInsert(op, Succeeded)), future, before.ops[op].rec);
  }

  // Whatever happens from here on without the row's token, row and object are there until expiry.
  ghost predicate StaysToTheEnd(cfg: Config, s: State, row: FileRecord) {
    forall future | Legal(cfg, s, future) && TokenUnused(future, row) && After(cfg, s, future).now < row.expiresAt ::
      IsThere(After(cfg, s, future), row)
  }

  predicate IsThere(s: State, row: FileRecord) {
    row.id in s.files && s.files[row.id] == row && row.objectKey in s.objects
  }

  // The next step of an operation that is set to remove the row.
  function NextRemoval(o: nat, op: Op): Event
    requires op.Checked? || op.RowPending? || op.Compensating?
  {
    if op.Checked? then DeleteObject(o, Succeeded)
    else if op.RowPending? then DeleteRow(o, Succeeded)
    else UploadCompensate(o, Succeeded)
  }

  lemma RemovalRemoves(cfg: Config, s: State, o: nat, row: FileRecord)
    requires Inv(cfg, s) && IsThere(s, row) && o in s.ops && Removing(s.ops[o], row.id)
    ensures var e := NextRemoval(o, s.ops[o]);
      Enabled(cfg, s, e) && !IsThere(Next(cfg, s, e), row) && Next(cfg, s, e).now == s.now && !e.DeleteCheck?
  {
    assert OpKnown(s, s.ops[o]) && Known(s, s.files[row.id]);
    OneRecordPerKey(s, s.ops[o].rec, row);
  }

  /**
   The exact condition for a row to be safe. Every run without its token keeps row and object
   until expiry, if and only if now both are there and no operation is set to remove them: no
   early delete has passed the token check for the row or deleted the object, and no clean-up
   after its insert is pending.
   */
  lemma StaysIffSettled(cfg: Config, s: State, row: FileRecord)
    requires Inv(cfg, s) && row.id in s.files && s.files[row.id] == row && s.now < row.expiresAt
    ensures StaysToTheEnd(cfg, s, row) <==> Settled(s, row)
  {
    if Settled(s, row) {
      forall future | Legal(cfg, s, future) && TokenUnused(future, row) && After(cfg, s, future).now < row.expiresAt
        ensures IsThere(After(cfg, s, future), row)
      {
        LiveFileStays(cfg, s, future, row);
      }
    } else {
      var future := UnsettledCanGo(cfg, s, row);
    }
  }

  // One step away from being lost.
  lemma RemovalCanCome(cfg: Config, s: State, o: nat, row: FileRecord)
    requires Inv(cfg, s) && IsThere(s, row) && o in s.ops && Removing(s.ops[o], row.id)
    ensures var run := [] + [NextRemoval(o, s.ops[o])];
      && Legal(cfg, s, run) && TokenUnused(run, row)
      && After(cfg, s, run).now == s.now && !IsThere(After(cfg, s, run), row)
  {
    RemovalRemoves(cfg, s, o, row);
    Extend(cfg, s, [], NextRemoval(o, s.ops[o]));
  }

  lemma UnsettledCanGo(cfg: Config, s: State, row: FileRecord) returns (future: seq<Event>)
    requires Inv(cfg, s) && !Settled(s, row)
    ensures Legal(cfg, s, future) && TokenUnused(future, row) && After(cfg, s, future).now == s.now
    ensures !IsThere(After(cfg, s, future), row)
  {
    future := [];
    if IsThere(s, row) {
      var o :| o in s.ops && Removing(s.ops[o], row.id);
      RemovalCanCome(cfg, s, o, row);
      future := [] + [NextRemoval(o, s.ops[o])];
    }
  }

  /**
   What a Duplicate answer is worth: the file it names stays until its expiry unless its token is
   shown, if and only if the row is settled at the lookup. The lookup itself does not see to it.
   */
  lemma DuplicateStaysIffSettled(cfg: Config, now: Time, past: seq<Event>, op: nat, row: FileRecord)
    requires Legal(cfg, Init(now), past) && Enabled(cfg, After(cfg, Init(now), past), UploadLookup(op, Some(row)))
    requires After(cfg, Init(now), past).now < row.expiresAt
    ensures var s := After(cfg, Init(now), past);
      StaysToTheEnd(cfg, Next(cfg, s, UploadLookup(op, Some(row))), row) <==> Settled(s, row)
  {
    var s := After(cfg, Init(now), past);
    InitInv(cfg, now);
    RunInv(cfg, Init(now), past);
    StepInv(cfg, s, UploadLookup(op, Some(row)));
    LookupKeepsSettled(cfg, s, op, row);
    StaysIffSettled(cfg, Next(cfg, s, UploadLookup(op, Some(row))), row);
  }

  // In particular:
  lemma DuplicateStaysIfSettled(cfg: Config, now: Time, past: seq<Event>, op: nat, row: FileRecord, future: seq<Event>)
    requires Legal(cfg, Init(now), past) && Enabled(cfg, After(cfg, Init(now), past), UploadLookup(op, Some(row)))
    requires Settled(After(cfg, Init(now), past), row)
    requires var s := Next(cfg, After(cfg, Init(now), past), UploadLookup(op, Some(row)));
      Legal(cfg, s, future) && TokenUnused(future, row) && After(cfg, s, future).now < row.expiresAt
    ensures IsThere(After(cfg, Next(cfg, After(cfg, Init(now), past), UploadLookup(op, Some(row))), future), row)
  {
    var s := After(cfg, Init(now), past);
    InitInv(cfg, now);
    RunInv(cfg, Init(now), past);
    StepInv(cfg, s, UploadLookup(op, Some(row)));
    LookupKeepsSettled(cfg, s, op, row);
    LiveFileStays(cfg, Next(cfg, s, UploadLookup(op, Some(row))), future, row);
  }

  lemma LookupKeepsSettled(cfg: Config, s: State, op: nat, row: FileRecord)
    requires Enabled(cfg, s, UploadLookup(op, Some(row)))
    ensures var s' := Next(cfg, s, UploadLookup(op, Some(row)));
      s'.files == s.files && s'.objects == s.objects && s'.now == s.now && (Settled(s', row) <==> Settled(s, row))
  {
    var s' := Next(cfg, s, UploadLookup(op, Some(row)));
    assert forall o | o in s.ops && o != op :: o in s'.ops && s'.ops[o] == s.ops[o];
  }

  /** And unsettled rows are found: between the two steps of an early delete the lookup answers
      with a row whose object is gone already. */
  lemma DuplicateCanNameALostFile(cfg: Config, s: State, d: nat, u: nat, row: FileRecord, token: string, body: Bytes)
    requires d !in s.ops && u !in s.ops && d != u && row.deleteTokenHash == token != ""
    requires LatestActive(s.files, cfg.hash(body), s.now, row)
    ensures var run := [] + [DeleteFind(d, row.id)] + [DeleteCheck(d, Some(token))] + [DeleteObject(d, Succeeded)]
            + [UploadHash(u, body)];
      && Legal(cfg, s, run) && Enabled(cfg, After(cfg, s, run), UploadLookup(u, Some(row)))
      && row.objectKey !in After(cfg, s, run).objects
  {
    var r1 := [] + [DeleteFind(d, row.id)];
    var r2 := r1 + [DeleteCheck(d, Some(token))];
    var r3 := r2 + [DeleteObject(d, Succeeded)];
    Extend(cfg, s, [], DeleteFind(d, row.id));
    Extend(cfg, s, r1, DeleteCheck(d, Some(token)));
    Extend(cfg, s, r2, DeleteObject(d, Succeeded));
    Extend(cfg, s, r3, UploadHash(u, body));
    assert After(cfg, s, r3).files == s.files && After(cfg, s, r3).now == s.now;
  }
}
