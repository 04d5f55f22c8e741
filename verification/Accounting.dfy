/**
 Orphans and dangling rows. Over every run, whatever interleaves and fails, an object no row and
 no upload accounts for, and a row whose object is gone while no delete is at work on it, can
 be traced to a fault in a step about that very object or row; so there are no more of them
 than such faults.
 */
module Accounting {
  import opened Metadata
  import opened Sets
  import opened FilesTable
  import opened Lifecycle
  import opened LifecycleInvariants

  ghost predicate Referenced(s: State, key: string) {
    exists id :: id in s.files && s.files[id].objectKey == key
  }

  // Some upload is between its put and the end of its insert or clean-up.
  ghost predicate Held(s: State, key: string) {
    exists o :: o in s.ops && HoldsKey(s.ops[o], key)
  }

  predicate HoldsKey(o: Op, key: string) {
    (o.Stored? || o.Compensating?) && o.rec.objectKey == key
  }

  // An early delete whose object step did nothing is about to delete the row all the same.
  ghost predicate AtRisk(s: State, key: string) {
    exists o :: o in s.ops && LeavesBehind(s.ops[o], key)
  }

  predicate LeavesBehind(o: Op, key: string) {
    o.RowPending? && o.left && o.rec.objectKey == key
  }

  ghost function Orphans(s: State): set<string> {
    set key | key in s.objects && !Referenced(s, key) && !Held(s, key)
  }

  // Orphans and the objects that are about to become orphans.
  ghost function Exposed(s: State): set<string> {
    set key | key in s.objects && ((!Referenced(s, key) && !Held(s, key)) || AtRisk(s, key))
  }

  function LeakBudget(l: Ledger): nat {
    l.ignoredDeletes + l.appliedPuts + l.crashesHolding
  }

  // The steps that can cost an object its row: an object delete that did nothing and whose
  // caller carries on, a put that took effect although it reported an error, and the stop of an
  // upload that held its object.
  predicate Leaks(s: State, e: Event) {
    || ((e.DeleteObject? || e.UploadCompensate?) && !e.delete.Applied())
    || (e.UploadPut? && e.put == FailedApplied)
    || (e.Stop? && e.op in s.ops && (s.ops[e.op].Stored? || s.ops[e.op].Compensating?))
  }

  lemma LeaksAreCounted(cfg: Config, s: State, e: Event)
    requires Enabled(cfg, s, e)
    ensures LeakBudget(Next(cfg, s, e).ledger) == LeakBudget(s.ledger) + if Leaks(s, e) then 1 else 0
  {
  }

  // Some step of the run about this key was such a fault.
  ghost predicate LeakedBy(cfg: Config, start: State, run: seq<Event>, key: string)
    requires Legal(cfg, start, run)
    decreases |run|
  {
    run != [] &&
    var s, e := After(cfg, start, Front(run)), Last(run);
    (About(s, e, key) && Leaks(s, e)) || LeakedBy(cfg, start, Front(run), key)
  }

  // What matters for one key: its object, the rows and the operations that name it.
  lemma KeyFrame(s: State, s': State, key: string)
    requires key in s'.objects ==> key in s.objects
    requires forall id | id in s.files && s.files[id].objectKey == key ::
             id in s'.files && s'.files[id].objectKey == key
    requires forall o | o in s.ops && HoldsKey(s.ops[o], key) :: o in s'.ops && HoldsKey(s'.ops[o], key)
    requires forall o | o in s'.ops && LeavesBehind(s'.ops[o], key) :: o in s.ops && LeavesBehind(s.ops[o], key)
    ensures key in Exposed(s') ==> key in Exposed(s)
  {
  }

  // A step leaves every key it is not about as exposed as it was.
  lemma OtherKeys(cfg: Config, s: State, e: Event, key: string)
    requires Inv(cfg, s) && Enabled(cfg, s, e) && !About(s, e, key)
    ensures key in Exposed(Next(cfg, s, e)) ==> key in Exposed(s)
  {
    OtherObjects(cfg, s, e, key);
    OtherOps(cfg, s, e, key);
    OtherRows(cfg, s, e, key);
    KeyFrame(s, Next(cfg, s, e), key);
  }

  lemma OtherObjects(cfg: Config, s: State, e: Event, key: string)
    requires Enabled(cfg, s, e) && !About(s, e, key)
    ensures key in Next(cfg, s, e).objects <==> key in s.objects
  {
  }

  lemma OtherOps(cfg: Config, s: State, e: Event, key: string)
    requires Enabled(cfg, s, e) && !About(s, e, key)
    ensures forall o | o in s.ops && HoldsKey(s.ops[o], key) ::
              o in Next(cfg, s, e).ops && HoldsKey(Next(cfg, s, e).ops[o], key)
    ensures forall o | o in Next(cfg, s, e).ops && LeavesBehind(Next(cfg, s, e).ops[o], key) ::
              o in s.ops && LeavesBehind(s.ops[o], key)
  {
  }

  lemma OtherRows(cfg: Config, s: State, e: Event, key: string)
    requires Inv(cfg, s) && Enabled(cfg, s, e) && !About(s, e, key)
    ensures forall id | id in s.files && s.files[id].objectKey == key ::
              id in Next(cfg, s, e).files && Next(cfg, s, e).files[id].objectKey == key
  {
    FilesShape(cfg, s, e);
    if Subject(s, e).Some? { SubjectKnown(cfg, s, e); }
    OtherRowsStay(s, e, key, Next(cfg, s, e).files);
  }

  ghost predicate SubjectIsKnown(s: State, e: Event) {
    Subject(s, e).Some? ==> Known(s, Subject(s, e).value) || Subject(s, e).value.id !in s.minted
  }

  lemma OtherRowsStay(s: State, e: Event, key: string, files': Table)
    requires RowsKnown(s) && SubjectIsKnown(s, e) && FilesEffect(s, e, files') && !About(s, e, key)
    ensures forall id | id in s.files && s.files[id].objectKey == key :: id in files' && files'[id].objectKey == key
  {
    forall id | id in s.files && s.files[id].objectKey == key
      ensures id in files' && files'[id].objectKey == key
    {
      assert Known(s, s.files[id]);
    }
  }

  // The key a step is about becomes exposed only when the step is a fault on the ledger.
  lemma OwnKey(cfg: Config, s: State, e: Event, key: string)
    requires Inv(cfg, s) && Enabled(cfg, s, e) && About(s, e, key)
    requires !Leaks(s, e)
    ensures key in Exposed(Next(cfg, s, e)) ==> key in Exposed(s)
  {
    if e.UploadPut? {
      PutExposes(cfg, s, e);
    } else if e.UploadInsert? {
      InsertExposes(cfg, s, e);
    } else {
      OwnKeyDelete(cfg, s, e, key);
    }
  }

  lemma PutExposes(cfg: Config, s: State, e: Event)
    requires Inv(cfg, s) && Enabled(cfg, s, e) && e.UploadPut? && e.put != FailedApplied
    ensures e.rec.objectKey !in Exposed(Next(cfg, s, e))
  {
    var s', key := Next(cfg, s, e), e.rec.objectKey;
    PutShape(cfg, s, e);
    NewKeyUnused(cfg, s, e.rec);
    forall o | o in s'.ops
      ensures !LeavesBehind(s'.ops[o], key)
    {
      if o != e.op { assert OpKnown(s, s.ops[o]); }
    }
    if e.put == Succeeded {
      assert HoldsKey(s'.ops[e.op], key);
    }
  }

  lemma InsertExposes(cfg: Config, s: State, e: Event)
    requires Inv(cfg, s) && Enabled(cfg, s, e) && e.UploadInsert?
    ensures s.ops[e.op].rec.objectKey !in Exposed(Next(cfg, s, e))
  {
    var s', rec := Next(cfg, s, e), s.ops[e.op].rec;
    InsertShape(cfg, s, e);
    assert OpKnown(s, s.ops[e.op]);
    forall o | o in s'.ops
      ensures !LeavesBehind(s'.ops[o], rec.objectKey)
    {
      if o != e.op { assert OpKnown(s, s.ops[o]); }
    }
    if e.insert.Applied() {
      assert s'.files[rec.id].objectKey == rec.objectKey;
    } else {
      assert HoldsKey(s'.ops[e.op], rec.objectKey);
    }
  }

  lemma OwnKeyDelete(cfg: Config, s: State, e: Event, key: string)
    requires Inv(cfg, s) && Enabled(cfg, s, e) && About(s, e, key)
    requires !e.UploadPut? && !e.UploadInsert? && !Leaks(s, e)
    ensures key in Exposed(Next(cfg, s, e)) ==> key in Exposed(s)
  {
    if e.DeleteRow? || e.SweepRow? {
      OwnKeyRow(cfg, s, e, key);
    } else if e.UploadCompensate? || e.DeleteObject? {
      OwnKeyRemoved(cfg, s, e, key);
    } else {
      OwnKeyFrame(cfg, s, e, key);
    }
  }

  // A row goes: its object is gone before, or it was at risk before.
  lemma OwnKeyRow(cfg: Config, s: State, e: Event, key: string)
    requires e.DeleteRow? || e.SweepRow?
    requires Inv(cfg, s) && Enabled(cfg, s, e) && About(s, e, key)
    ensures key in Exposed(Next(cfg, s, e)) ==> key in Exposed(s)
  {
    assert OpKnown(s, s.ops[e.op]);
    if e.DeleteRow? && s.ops[e.op].left {
      assert LeavesBehind(s.ops[e.op], key);
    }
  }

  // The object goes.
  lemma OwnKeyRemoved(cfg: Config, s: State, e: Event, key: string)
    requires e.UploadCompensate? || e.DeleteObject?
    requires Enabled(cfg, s, e) && About(s, e, key) && !Leaks(s, e)
    ensures key !in Exposed(Next(cfg, s, e))
  {
  }

  lemma OwnKeyFrame(cfg: Config, s: State, e: Event, key: string)
    requires e.DeleteFind? || e.DeleteCheck? || e.SweepFind? || e.SweepObject? || e.Stop? || e.UploadHash?
             || e.UploadLookup? || e.SweepBegin?
    requires Enabled(cfg, s, e) && About(s, e, key) && !Leaks(s, e)
    ensures key in Exposed(Next(cfg, s, e)) ==> key in Exposed(s)
  {
    KeyFrame(s, Next(cfg, s, e), key);
  }

  lemma StepOrphans(cfg: Config, s: State, e: Event)
    requires Inv(cfg, s) && Enabled(cfg, s, e)
    ensures |Exposed(Next(cfg, s, e))| <= |Exposed(s)| + if Leaks(s, e) then 1 else 0
  {
    var s' := Next(cfg, s, e);
    forall key | key in Exposed(s') && !(About(s, e, key) && Leaks(s, e))
      ensures key in Exposed(s)
    {
      StepKey(cfg, s, e, key);
    }
    if Leaks(s, e) && Subject(s, e).Some? {
      AtMostOneMore(Exposed(s'), Exposed(s), Subject(s, e).value.objectKey);
    } else {
      SubsetSize(Exposed(s'), Exposed(s));
    }
  }

  // A step that is not a fault about the key exposes nothing.
  lemma StepKey(cfg: Config, s: State, e: Event, key: string)
    requires Inv(cfg, s) && Enabled(cfg, s, e) && !(About(s, e, key) && Leaks(s, e))
    ensures key in Exposed(Next(cfg, s, e)) ==> key in Exposed(s)
  {
    if About(s, e, key) { OwnKey(cfg, s, e, key); } else { OtherKeys(cfg, s, e, key); }
  }

  lemma {:induction false} ExposedWasLeaked(cfg: Config, now: Time, run: seq<Event>, key: string)
    requires Legal(cfg, Init(now), run)
    ensures key in Exposed(After(cfg, Init(now), run)) ==> LeakedBy(cfg, Init(now), run, key)
    decreases |run|
  {
    if run != [] {
      InitInv(cfg, now);
      RunInv(cfg, Init(now), Front(run));
      ExposedWasLeaked(cfg, now, Front(run), key);
      var s, e := After(cfg, Init(now), Front(run)), Last(run);
      if !(About(s, e, key) && Leaks(s, e)) { StepKey(cfg, s, e, key); }
    }
  }

  lemma {:induction false} RunOrphans(cfg: Config, now: Time, run: seq<Event>)
    requires Legal(cfg, Init(now), run)
    ensures |Exposed(After(cfg, Init(now), run))| <= LeakBudget(After(cfg, Init(now), run).ledger)
    decreases |run|
  {
    if run == [] {
      assert Exposed(Init(now)) == {};
    } else {
      InitInv(cfg, now);
      RunInv(cfg, Init(now), Front(run));
      RunOrphans(cfg, now, Front(run));
      StepOrphans(cfg, After(cfg, Init(now), Front(run)), Last(run));
      LeaksAreCounted(cfg, After(cfg, Init(now), Front(run)), Last(run));
    }
  }

  /**
   Orphan accounting. In every reachable state an object is named by a row, or is in the hands
   of an upload between its put and the end of its insert, or some step about this very object
   leaked it: a delete of it that did nothing and was ignored, a put of it that took effect
   although it reported an error, or the stop of the upload that held it. Those of the last
   kind are no more than there were such steps.
   */
  lemma OrphansAreAccountedFor(cfg: Config, now: Time, run: seq<Event>)
    requires Legal(cfg, Init(now), run)
    ensures var s := After(cfg, Init(now), run);
      && (forall key | key in s.objects :: Referenced(s, key) || Held(s, key) || LeakedBy(cfg, Init(now), run, key))
      && |Orphans(s)| <= s.ledger.ignoredDeletes + s.ledger.appliedPuts + s.ledger.crashesHolding
  {
    RunOrphans(cfg, now, run);
    var s := After(cfg, Init(now), run);
    SubsetSize(Orphans(s), Exposed(s));
    forall key | key in s.objects
      ensures Referenced(s, key) || Held(s, key) || LeakedBy(cfg, Init(now), run, key)
    {
      ExposedWasLeaked(cfg, now, run, key);
      assert key in Exposed(s) || Referenced(s, key) || Held(s, key);
    }
  }

  /** Whatever fails in it, no step of a sweeper makes an orphan. */
  lemma SweepsMakeNoOrphans(cfg: Config, s: State, e: Event)
    requires Inv(cfg, s) && Enabled(cfg, s, e)
    requires SweepStep(s, e)
    ensures Orphans(Next(cfg, s, e)) <= Orphans(s)
  {
    var s' := Next(cfg, s, e);
    SweepOps(cfg, s, e);
    forall key | key in Orphans(s')
      ensures key in Orphans(s)
    {
      SweepRows(cfg, s, e, key);
      OrphanFrame(s, s', key);
    }
  }

  lemma OrphanFrame(s: State, s': State, key: string)
    requires key in s'.objects ==> key in s.objects
    requires forall id | id in s.files && s.files[id].objectKey == key ::
             id in s'.files && s'.files[id].objectKey == key
    requires forall o | o in s.ops && HoldsKey(s.ops[o], key) :: o in s'.ops && HoldsKey(s'.ops[o], key)
    ensures key in Orphans(s') ==> key in Orphans(s)
  {
  }

  ghost predicate SweepStep(s: State, e: Event) {
    e.SweepBegin? || e.SweepFind? || e.SweepObject? || e.SweepRow?
        || (e.Stop? && e.op in s.ops && !HasUpload(s.ops[e.op]))
  }

  lemma SweepOps(cfg: Config, s: State, e: Event)
    requires Enabled(cfg, s, e) && SweepStep(s, e)
    ensures forall o | o in s.ops && HasUpload(s.ops[o]) ::
              o in Next(cfg, s, e).ops && Next(cfg, s, e).ops[o] == s.ops[o]
  {
  }

  lemma SweepRows(cfg: Config, s: State, e: Event, key: string)
    requires Inv(cfg, s) && Enabled(cfg, s, e) && SweepStep(s, e) && key in Next(cfg, s, e).objects
    ensures key in s.objects
    ensures forall id | id in s.files && s.files[id].objectKey == key ::
              id in Next(cfg, s, e).files && Next(cfg, s, e).files[id].objectKey == key
  {
    if e.SweepRow? {
      SweptRow(cfg, s, e, key);
    } else {
      RowsRest(cfg, s, e);
    }
    OtherStepShape(cfg, s, e);
  }

  lemma RowsRest(cfg: Config, s: State, e: Event)
    requires e.SweepBegin? || e.SweepFind? || e.SweepObject? || e.Stop?
    requires Enabled(cfg, s, e)
    ensures Next(cfg, s, e).files == s.files
  {
  }

  lemma SweptRow(cfg: Config, s: State, e: Event, key: string)
    requires Inv(cfg, s) && Enabled(cfg, s, e) && e.SweepRow? && key in s.objects
    ensures forall id | id in s.files && s.files[id].objectKey == key :: id in Next(cfg, s, e).files
  {
    assert OpKnown(s, s.ops[e.op]);
    var rec := s.ops[e.op].rest[0];
    assert Known(s, rec);
    FilesShape(cfg, s, e);
  }

  predicate HasUpload(o: Op) {
    o.Hashed? || o.Missed? || o.Stored? || o.Compensating?
  }

  // Some delete has removed the object of row `id` and is about to remove the row.
  ghost predicate InWork(s: State, id: string) {
    exists o :: o in s.ops && WorksOn(s.ops[o], id)
  }

  predicate WorksOn(o: Op, id: string) {
    || (o.RowPending? && !o.left && o.rec.id == id)
    || (o.Sweeping? && o.removed && o.rest != [] && o.rest[0].id == id)
  }

  // Rows whose object is gone.
  ghost function Dangling(s: State): set<string> {
    set id | id in s.files && s.files[id].objectKey !in s.objects
  }

  ghost function Unfinished(s: State): set<string> {
    set id | id in Dangling(s) && !InWork(s, id)
  }

  // The steps that leave a row without its object and without a delete at work on it: a delete
  // has taken the object and its DeleteByID fails or it stops; the object call of a sweep takes
  // the object but reports an error; an insert that took effect is cleaned up after.
  predicate GivesUp(s: State, e: Event) {
    !e.Tick? && e.op in s.ops &&
    match s.ops[e.op]
    case Compensating(_, applied) => e.UploadCompensate? && e.delete.Applied() && applied
    case RowPending(_, left) => !left && ((e.DeleteRow? && !e.row.Applied()) || e.Stop?)
    case Sweeping(_, _, removed) =>
      (e.SweepObject? && e.delete == FailedApplied) || (e.SweepRow? && !e.row.Applied()) || (e.Stop? && removed)
    case _ => false
  }

  lemma GivingUpIsCounted(cfg: Config, s: State, e: Event)
    requires Enabled(cfg, s, e)
    ensures Next(cfg, s, e).ledger.unfinishedDeletes == s.ledger.unfinishedDeletes + if GivesUp(s, e) then 1 else 0
  {
  }

  // Some step of the run about this row was such.
  ghost predicate GaveUpOn(cfg: Config, start: State, run: seq<Event>, id: string)
    requires Legal(cfg, start, run)
    decreases |run|
  {
    run != [] &&
    var s, e := After(cfg, start, Front(run)), Last(run);
    (AboutId(s, e, id) && GivesUp(s, e)) || GaveUpOn(cfg, start, Front(run), id)
  }

  lemma IdFrame(s: State, s': State, id: string)
    requires id in Dangling(s') ==> id in Dangling(s)
    requires forall o | o in s.ops && WorksOn(s.ops[o], id) :: o in s'.ops && WorksOn(s'.ops[o], id)
    ensures id in Unfinished(s') ==> id in Unfinished(s)
  {
  }

  lemma OtherIds(cfg: Config, s: State, e: Event, id: string)
    requires Inv(cfg, s) && Enabled(cfg, s, e) && !AboutId(s, e, id)
    ensures id in Unfinished(Next(cfg, s, e)) ==> id in Unfinished(s)
  {
    OtherDangling(cfg, s, e, id);
    OtherWork(cfg, s, e, id);
    IdFrame(s, Next(cfg, s, e), id);
  }

  lemma OtherDangling(cfg: Config, s: State, e: Event, id: string)
    requires Inv(cfg, s) && Enabled(cfg, s, e) && !AboutId(s, e, id)
    ensures id in Dangling(Next(cfg, s, e)) ==> id in Dangling(s)
  {
    OtherRow(cfg, s, e, id);
    if id in s.files && s.files[id].objectKey in s.objects {
      OtherObjects(cfg, s, e, s.files[id].objectKey);
    }
  }

  lemma OtherRow(cfg: Config, s: State, e: Event, id: string)
    requires Inv(cfg, s) && Enabled(cfg, s, e) && !AboutId(s, e, id)
    ensures id in Next(cfg, s, e).files ==> id in s.files && Next(cfg, s, e).files[id] == s.files[id]
    ensures id in s.files ==> !About(s, e, s.files[id].objectKey)
  {
    FilesShape(cfg, s, e);
    if Subject(s, e).Some? && id in s.files {
      assert Known(s, s.files[id]);
      SubjectKnown(cfg, s, e);
    }
    OtherRowStays(s, e, id, Next(cfg, s, e).files);
  }

  lemma OtherRowStays(s: State, e: Event, id: string, files': Table)
    requires FilesEffect(s, e, files') && !AboutId(s, e, id)
    ensures id in files' ==> id in s.files && files'[id] == s.files[id]
  {
  }

  lemma OtherWork(cfg: Config, s: State, e: Event, id: string)
    requires Enabled(cfg, s, e) && !AboutId(s, e, id)
    ensures forall o | o in s.ops && WorksOn(s.ops[o], id) ::
              o in Next(cfg, s, e).ops && WorksOn(Next(cfg, s, e).ops[o], id)
  {
  }

  // A row is left without object and without a delete at work on it only by a listed fault.
  lemma OwnId(cfg: Config, s: State, e: Event, id: string)
    requires Inv(cfg, s) && Enabled(cfg, s, e) && AboutId(s, e, id)
    requires !GivesUp(s, e)
    ensures id in Unfinished(Next(cfg, s, e)) ==> id in Unfinished(s)
  {
    if e.UploadPut? || e.UploadInsert? || e.UploadCompensate? {
      OwnIdUpload(cfg, s, e, id);
    } else {
      OwnIdDelete(cfg, s, e, id);
    }
  }

  lemma OwnIdUpload(cfg: Config, s: State, e: Event, id: string)
    requires Inv(cfg, s) && Enabled(cfg, s, e) && AboutId(s, e, id)
    requires e.UploadPut? || e.UploadInsert? || e.UploadCompensate?
    requires !GivesUp(s, e)
    ensures id in Unfinished(Next(cfg, s, e)) ==> id in Unfinished(s)
  {
    assert OpKnown(s, s.ops[e.op]);
    if e.UploadPut? {
      PutShape(cfg, s, e);
    } else if e.UploadInsert? {
      InsertShape(cfg, s, e);
    } else {
      OtherWorkStays(cfg, s, e, id);
      if e.delete == FailedClean { IdFrame(s, Next(cfg, s, e), id); }
    }
  }

  lemma OtherWorkStays(cfg: Config, s: State, e: Event, id: string)
    requires Enabled(cfg, s, e) && !e.Tick? && (e.op in s.ops ==> !WorksOn(s.ops[e.op], id))
    ensures forall o | o in s.ops && WorksOn(s.ops[o], id) ::
              o in Next(cfg, s, e).ops && WorksOn(Next(cfg, s, e).ops[o], id)
  {
  }

  lemma OwnIdDelete(cfg: Config, s: State, e: Event, id: string)
    requires Inv(cfg, s) && Enabled(cfg, s, e) && AboutId(s, e, id)
    requires !e.UploadPut? && !e.UploadInsert? && !e.UploadCompensate?
    requires !GivesUp(s, e)
    ensures id in Unfinished(Next(cfg, s, e)) ==> id in Unfinished(s)
  {
    var s' := Next(cfg, s, e);
    if (e.DeleteObject? && e.delete.Applied()) || (e.SweepObject? && e.delete.Reported()) {
      assert WorksOn(s'.ops[e.op], id);
    } else if id in s'.files {
      OtherStepShape(cfg, s, e);
      OtherWorkStays(cfg, s, e, id);
      SameObjects(cfg, s, e, id);
      DanglesAsBefore(s, s', id);
      IdFrame(s, s', id);
    }
  }

  lemma DanglesAsBefore(s: State, s': State, id: string)
    requires s'.objects == s.objects && (id in s'.files ==> id in s.files && s'.files[id] == s.files[id])
    ensures id in Dangling(s') ==> id in Dangling(s)
  {
  }

  lemma SameObjects(cfg: Config, s: State, e: Event, id: string)
    requires Inv(cfg, s) && Enabled(cfg, s, e) && AboutId(s, e, id)
    requires !e.UploadPut? && !e.UploadInsert? && !e.UploadCompensate?
    requires !(e.DeleteObject? && e.delete.Applied()) && !(e.SweepObject? && e.delete.Applied())
    ensures Next(cfg, s, e).objects == s.objects
  {
  }

  // A step that does not give up the row leaves it no more unfinished than it was.
  lemma StepId(cfg: Config, s: State, e: Event, id: string)
    requires Inv(cfg, s) && Enabled(cfg, s, e) && !(AboutId(s, e, id) && GivesUp(s, e))
    ensures id in Unfinished(Next(cfg, s, e)) ==> id in Unfinished(s)
  {
    if AboutId(s, e, id) { OwnId(cfg, s, e, id); } else { OtherIds(cfg, s, e, id); }
  }

  lemma StepDangling(cfg: Config, s: State, e: Event)
    requires Inv(cfg, s) && Enabled(cfg, s, e)
    ensures |Unfinished(Next(cfg, s, e))| <= |Unfinished(s)| + if GivesUp(s, e) then 1 else 0
  {
    var s' := Next(cfg, s, e);
    forall id | id in Unfinished(s') && !(AboutId(s, e, id) && GivesUp(s, e))
      ensures id in Unfinished(s)
    {
      StepId(cfg, s, e, id);
    }
    if GivesUp(s, e) && Subject(s, e).Some? {
      AtMostOneMore(Unfinished(s'), Unfinished(s), Subject(s, e).value.id);
    } else {
      SubsetSize(Unfinished(s'), Unfinished(s));
    }
  }

  lemma {:induction false} UnfinishedWasGivenUp(cfg: Config, now: Time, run: seq<Event>, id: string)
    requires Legal(cfg, Init(now), run)
    ensures id in Unfinished(After(cfg, Init(now), run)) ==> GaveUpOn(cfg, Init(now), run, id)
    decreases |run|
  {
    if run != [] {
      InitInv(cfg, now);
      RunInv(cfg, Init(now), Front(run));
      UnfinishedWasGivenUp(cfg, now, Front(run), id);
      var s, e := After(cfg, Init(now), Front(run)), Last(run);
      if !(AboutId(s, e, id) && GivesUp(s, e)) { StepId(cfg, s, e, id); }
    }
  }

  /**
   Dangling accounting. In every reachable state a row whose object is gone is being worked on
   by a delete of this very row that is between its object step and its row step, or such a
   delete of it gave up there: by a failed DeleteByID, by a crash, or because its object call
   took effect although it reported an error; or the row is left over from an insert that took
   effect although it reported an error and was cleaned up after.
   */
  lemma DanglingRowHasItsDelete(cfg: Config, now: Time, run: seq<Event>, id: string)
    requires Legal(cfg, Init(now), run)
    requires var s := After(cfg, Init(now), run); id in s.files && s.files[id].objectKey !in s.objects
    ensures InWork(After(cfg, Init(now), run), id) || GaveUpOn(cfg, Init(now), run, id)
  {
    UnfinishedWasGivenUp(cfg, now, run, id);
    var s := After(cfg, Init(now), run);
    assert id in Unfinished(s) || InWork(s, id);
  }

  /** And the rows of the second kind are no more than the deletes that gave up. */
  lemma {:induction false} DanglingRowsAreAccountedFor(cfg: Config, now: Time, run: seq<Event>)
    requires Legal(cfg, Init(now), run)
    ensures var s := After(cfg, Init(now), run);
      |set id | id in Dangling(s) && !InWork(s, id)| <= s.ledger.unfinishedDeletes
    decreases |run|
  {
    if run == [] {
      assert Unfinished(Init(now)) == {};
    } else {
      InitInv(cfg, now);
      RunInv(cfg, Init(now), Front(run));
      DanglingRowsAreAccountedFor(cfg, now, Front(run));
      StepDangling(cfg, After(cfg, Init(now), Front(run)), Last(run));
      GivingUpIsCounted(cfg, After(cfg, Init(now), Front(run)), Last(run));
    }
  }
}
