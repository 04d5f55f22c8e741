/**
 Overlapping sweepers. Instances sweep without coordination: two of them can hold the same
 row, since FindExpired commits before returning. Without failures the outcome is nevertheless
 that of one sweep of everything any of them found.
 */
module Confluence {
  import opened Metadata
  import opened FilesTable
  import opened Lifecycle
  import opened LifecycleInvariants

  // Steps of sweeps in which no storage call fails and no sweep stops half-way.
  ghost predicate CleanSweepStep(s: State, e: Event) {
    match e
    case Tick(_) => true
    case SweepBegin(_) => true
    case SweepFind(_, _) => true
    case SweepObject(_, delete) => delete == Succeeded
    case SweepRow(_, row) => row == Succeeded
    case Stop(op) => op in s.ops && s.ops[op].Sweeping? && s.ops[op].rest == []
    case _ => false
  }

  ghost predicate CleanSweeps(cfg: Config, start: State, run: seq<Event>)
    requires Legal(cfg, start, run)
    decreases |run|
  {
    run == [] || (CleanSweeps(cfg, start, Front(run)) && CleanSweepStep(After(cfg, start, Front(run)), Last(run)))
  }

  // Everything the sweeps of a run selected.
  function FoundBy(run: seq<Event>): set<FileRecord>
    decreases |run|
  {
    if run == [] then {}
    else if Last(run).SweepFind? then FoundBy(Front(run)) + (set r | r in Last(run).batch)
    else FoundBy(Front(run))
  }

  // Some sweep has yet to process the record.
  ghost predicate Queued(s: State, r: FileRecord) {
    exists o :: o in s.ops && InQueue(s.ops[o], r)
  }

  predicate InQueue(o: Op, r: FileRecord) {
    o.Sweeping? && r in o.rest
  }

  ghost predicate NothingQueued(s: State) {
    forall o | o in s.ops && s.ops[o].Sweeping? :: s.ops[o].rest == []
  }

  // One sweep of `batch`: its rows and their objects are gone, nothing else is touched.
  function RowsSwept(files: Table, batch: set<FileRecord>): Table {
    files - (set r | r in batch :: r.id)
  }

  function ObjectsSwept(objects: map<string, Bytes>, batch: set<FileRecord>): map<string, Bytes> {
    objects - (set r | r in batch :: r.objectKey)
  }

  // Part-way through: what was not found is untouched, what is no longer queued is gone.
  ghost predicate PartlySwept(start: State, s: State, found: set<FileRecord>) {
    && (forall r | r in found :: Known(s, r))
    && s.files.Keys <= start.files.Keys && (forall id | id in s.files :: s.files[id] == start.files[id])
    && (forall id | id in start.files && id !in s.files :: start.files[id] in found)
    && s.objects.Keys <= start.objects.Keys && (forall key | key in s.objects :: s.objects[key] == start.objects[key])
    && (forall key | key in start.objects && key !in s.objects :: exists r :: r in found && r.objectKey == key)
    && (forall r | r in found && !Queued(s, r) :: r.id !in s.files && r.objectKey !in s.objects)
    && (forall o, r | o in s.ops && InQueue(s.ops[o], r) :: r in found)
  }

  lemma QueueShape(cfg: Config, s: State, e: Event)
    requires Enabled(cfg, s, e) && CleanSweepStep(s, e)
    ensures e.SweepObject? ==> Next(cfg, s, e).ops == s.ops[e.op := Sweeping(s.ops[e.op].at, s.ops[e.op].rest, true)]
    ensures e.SweepRow? ==> Next(cfg, s, e).ops == s.ops[e.op := Sweeping(s.ops[e.op].at, s.ops[e.op].rest[1..], false)]
    ensures !e.SweepObject? && !e.SweepRow? ==> forall o | o in s.ops && s.ops[o].Sweeping? && s.ops[o].rest != [] ::
              o in Next(cfg, s, e).ops && Next(cfg, s, e).ops[o] == s.ops[o]
  {
  }

  lemma QueueOnlyShrinksAtHead(cfg: Config, s: State, e: Event, r: FileRecord)
    requires Enabled(cfg, s, e) && CleanSweepStep(s, e) && Queued(s, r)
    ensures Queued(Next(cfg, s, e), r) || (e.SweepRow? && s.ops[e.op].rest[0] == r)
  {
    QueueShape(cfg, s, e);
    var o :| o in s.ops && InQueue(s.ops[o], r);
    StillQueued(s, Next(cfg, s, e), e, o, r);
  }

  lemma StillQueued(s: State, s': State, e: Event, o: nat, r: FileRecord)
    requires o in s.ops && InQueue(s.ops[o], r)
    requires e.SweepObject? || e.SweepRow? ==> e.op in s.ops && s.ops[e.op].Sweeping? && s.ops[e.op].rest != []
    requires e.SweepObject? ==> s'.ops == s.ops[e.op := Sweeping(s.ops[e.op].at, s.ops[e.op].rest, true)]
    requires e.SweepRow? ==> s'.ops == s.ops[e.op := Sweeping(s.ops[e.op].at, s.ops[e.op].rest[1..], false)]
    requires !e.SweepObject? && !e.SweepRow? ==> o in s'.ops && s'.ops[o] == s.ops[o]
    ensures Queued(s', r) || (e.SweepRow? && s.ops[e.op].rest[0] == r)
  {
    if e.SweepRow? && e.op == o {
      var rest := s.ops[o].rest;
      assert rest == [rest[0]] + rest[1..];
      if rest[0] != r { assert InQueue(s'.ops[o], r); }
    } else {
      assert InQueue(s'.ops[o], r);
    }
  }

  lemma StepPartlySwept(cfg: Config, start: State, s: State, e: Event, found: set<FileRecord>)
    requires Inv(cfg, s) && Enabled(cfg, s, e) && CleanSweepStep(s, e) && PartlySwept(start, s, found)
    ensures PartlySwept(start, Next(cfg, s, e), if e.SweepFind? then found + (set r | r in e.batch) else found)
  {
    if e.SweepFind? {
      BatchJoins(cfg, start, s, e, found);
    } else {
      OtherStepShape(cfg, s, e);
      StepRows(cfg, start, s, e, found);
      StepDone(cfg, start, s, e, found);
      Assemble(start, s, Next(cfg, s, e), found, found);
    }
  }

  lemma BatchJoins(cfg: Config, start: State, s: State, e: Event, found: set<FileRecord>)
    requires Inv(cfg, s) && Enabled(cfg, s, e) && e.SweepFind? && PartlySwept(start, s, found)
    ensures PartlySwept(start, Next(cfg, s, e), found + (set r | r in e.batch))
  {
    OtherStepShape(cfg, s, e);
    StepRows(cfg, start, s, e, found);
    StepDone(cfg, start, s, e, found);
    FindQueues(cfg, s, e);
    Assemble(start, s, Next(cfg, s, e), found, found + (set r | r in e.batch));
  }

  lemma Assemble(start: State, s: State, s': State, found: set<FileRecord>, found': set<FileRecord>)
    requires PartlySwept(start, s, found) && found <= found' && s'.minted == s.minted
    requires s'.objects.Keys <= s.objects.Keys && forall key | key in s'.objects :: s'.objects[key] == s.objects[key]
    requires s'.files.Keys <= s.files.Keys && forall id | id in s'.files :: s'.files[id] == s.files[id]
    requires forall id | id in s.files && id !in s'.files :: s.files[id] in found
    requires forall key | key in s.objects && key !in s'.objects :: exists r :: r in found && r.objectKey == key
    requires forall o, r | o in s'.ops && InQueue(s'.ops[o], r) :: r in found'
    requires forall r | r in found && !Queued(s', r) :: r.id !in s'.files && r.objectKey !in s'.objects
    requires forall r | r in found' && r !in found :: Known(s, r) && Queued(s', r)
    ensures PartlySwept(start, s', found')
  {
  }

  // A found record that is no longer queued has lost its row and its object.
  lemma StepDone(cfg: Config, start: State, s: State, e: Event, found: set<FileRecord>)
    requires Inv(cfg, s) && Enabled(cfg, s, e) && CleanSweepStep(s, e) && PartlySwept(start, s, found)
    ensures forall r | r in found && !Queued(Next(cfg, s, e), r) ::
              r.id !in Next(cfg, s, e).files && r.objectKey !in Next(cfg, s, e).objects
  {
    OtherStepShape(cfg, s, e);
    forall r | r in found && !Queued(Next(cfg, s, e), r)
      ensures r.id !in Next(cfg, s, e).files && r.objectKey !in Next(cfg, s, e).objects
    {
      if Queued(s, r) {
        QueueOnlyShrinksAtHead(cfg, s, e, r);
        HeadIsGone(cfg, s, e);
      }
    }
  }

  lemma HeadIsGone(cfg: Config, s: State, e: Event)
    requires Inv(cfg, s) && Enabled(cfg, s, e) && e.SweepRow? && e.row == Succeeded
    ensures var r := s.ops[e.op].rest[0]; r.id !in Next(cfg, s, e).files && r.objectKey !in Next(cfg, s, e).objects
  {
    assert OpKnown(s, s.ops[e.op]);
  }

  // The step's own changes to rows and objects concern a queued record.
  lemma StepRows(cfg: Config, start: State, s: State, e: Event, found: set<FileRecord>)
    requires Inv(cfg, s) && Enabled(cfg, s, e) && CleanSweepStep(s, e) && PartlySwept(start, s, found)
    ensures var s' := Next(cfg, s, e);
      && (forall id | id in s.files && id !in s'.files :: s.files[id] in found)
      && (forall key | key in s.objects && key !in s'.objects :: exists r :: r in found && r.objectKey == key)
      && (forall o, r | o in s'.ops && InQueue(s'.ops[o], r) :: r in found || (e.SweepFind? && r in e.batch))
  {
    if e.SweepObject? || e.SweepRow? {
      var head := s.ops[e.op].rest[0];
      assert InQueue(s.ops[e.op], head);
      assert OpKnown(s, s.ops[e.op]);
    }
    FilesShape(cfg, s, e);
    ObjectsShape(cfg, s, e);
    RowsGoneAreFound(s, e, Next(cfg, s, e), found);
    QueuesOnlyGrowByBatch(cfg, s, e);
  }

  lemma RowsGoneAreFound(s: State, e: Event, s': State, found: set<FileRecord>)
    requires CleanSweepStep(s, e) && RowsKnown(s)
    requires FilesEffect(s, e, s'.files) && ObjectsEffect(s, e, s'.objects)
    requires e.SweepObject? || e.SweepRow? ==>
      Subject(s, e).Some? && Subject(s, e).value in found && Known(s, Subject(s, e).value)
    ensures forall id | id in s.files && id !in s'.files :: s.files[id] in found
    ensures forall key | key in s.objects && key !in s'.objects :: exists r :: r in found && r.objectKey == key
  {
    forall id | id in s.files && id !in s'.files
      ensures s.files[id] in found
    {
      assert Known(s, s.files[id]);
    }
  }

  predicate WasQueued(s: State, e: Event, o: nat, r: FileRecord) {
    (o in s.ops && InQueue(s.ops[o], r)) || (e.SweepFind? && r in e.batch)
  }

  lemma QueuesOnlyGrowByBatch(cfg: Config, s: State, e: Event)
    requires Enabled(cfg, s, e) && CleanSweepStep(s, e)
    ensures forall o, r | o in Next(cfg, s, e).ops && InQueue(Next(cfg, s, e).ops[o], r) :: WasQueued(s, e, o, r)
  {
    var s' := Next(cfg, s, e);
    forall o, r | o in s'.ops && InQueue(s'.ops[o], r)
      ensures WasQueued(s, e, o, r)
    {
      if e.SweepRow? && o == e.op {
        var rest := s.ops[o].rest;
        assert rest == [rest[0]] + rest[1..];
        assert r in rest[1..];
      }
    }
  }

  lemma FindQueues(cfg: Config, s: State, e: Event)
    requires Inv(cfg, s) && Enabled(cfg, s, e) && e.SweepFind?
    ensures forall r | r in e.batch :: Known(s, r) && Queued(Next(cfg, s, e), r)
  {
    var s' := Next(cfg, s, e);
    forall r | r in e.batch
      ensures Known(s, r) && Queued(s', r)
    {
      assert InQueue(s'.ops[e.op], r);
      assert Known(s, s.files[r.id]);
    }
  }

  lemma {:induction false} RunPartlySwept(cfg: Config, start: State, run: seq<Event>)
    requires Inv(cfg, start) && Legal(cfg, start, run) && CleanSweeps(cfg, start, run)
    requires forall o | o in start.ops :: !start.ops[o].Sweeping?
    ensures PartlySwept(start, After(cfg, start, run), FoundBy(run))
    decreases |run|
  {
    if run != [] {
      RunPartlySwept(cfg, start, Front(run));
      RunInv(cfg, start, Front(run));
      StepPartlySwept(cfg, start, After(cfg, start, Front(run)), Last(run), FoundBy(Front(run)));
    }
  }

  /**
   Confluence. Any number of sweeps with overlapping batches, interleaved step by step in any
   order without failures, leave exactly the rows and the objects that one sweep of everything
   they found would leave, once none has anything left to process.
   */
  lemma OverlappingSweepsActAsOne(cfg: Config, start: State, run: seq<Event>)
    requires Inv(cfg, start) && Legal(cfg, start, run) && CleanSweeps(cfg, start, run)
    requires forall o | o in start.ops :: !start.ops[o].Sweeping?
    requires NothingQueued(After(cfg, start, run))
    ensures After(cfg, start, run).files == RowsSwept(start.files, FoundBy(run))
    ensures After(cfg, start, run).objects == ObjectsSwept(start.objects, FoundBy(run))
  {
    RunPartlySwept(cfg, start, run);
    var s, found := After(cfg, start, run), FoundBy(run);
    forall r | r in found
      ensures r.id !in s.files && r.objectKey !in s.objects
    {
      assert !Queued(s, r);
    }
    AllRowsSwept(start.files, s.files, found);
    AllObjectsSwept(start.objects, s.objects, found);
  }

  lemma AllRowsSwept(files: Table, files': Table, found: set<FileRecord>)
    requires Keyed(files) && files'.Keys <= files.Keys && forall id | id in files' :: files'[id] == files[id]
    requires forall id | id in files && id !in files' :: files[id] in found
    requires forall r | r in found :: r.id !in files'
    ensures files' == RowsSwept(files, found)
  {
    var ids := set r | r in found :: r.id;
    forall id | id in files
      ensures id in files' <==> id !in ids
    {
      if id !in files' { assert files[id] in found && files[id].id == id; }
    }
  }

  lemma AllObjectsSwept(objects: map<string, Bytes>, objects': map<string, Bytes>, found: set<FileRecord>)
    requires objects'.Keys <= objects.Keys && forall key | key in objects' :: objects'[key] == objects[key]
    requires forall key | key in objects && key !in objects' :: exists r :: r in found && r.objectKey == key
    requires forall r | r in found :: r.objectKey !in objects'
    ensures objects' == ObjectsSwept(objects, found)
  {
    var keys := set r | r in found :: r.objectKey;
    assert forall key | key in objects :: key in objects' <==> key !in keys;
  }

  /** So two schedules that find the same rows end in the same table and the same store. */
  lemma SchedulesAgree(cfg: Config, start: State, run1: seq<Event>, run2: seq<Event>)
    requires Inv(cfg, start) && forall o | o in start.ops :: !start.ops[o].Sweeping?
    requires Legal(cfg, start, run1) && CleanSweeps(cfg, start, run1) && NothingQueued(After(cfg, start, run1))
    requires Legal(cfg, start, run2) && CleanSweeps(cfg, start, run2) && NothingQueued(After(cfg, start, run2))
    requires FoundBy(run1) == FoundBy(run2)
    ensures After(cfg, start, run1).files == After(cfg, start, run2).files
    ensures After(cfg, start, run1).objects == After(cfg, start, run2).objects
  {
    OverlappingSweepsActAsOne(cfg, start, run1);
    OverlappingSweepsActAsOne(cfg, start, run2);
  }

  /**
   Sweeps are not kept apart: SKIP LOCKED ends with the transaction of the query, so wherever a
   row has expired two sweeps can both draw it, one after the other, and then both process it.
   */
  lemma TwoSweepsCanDrawOneRow(cfg: Config, s: State, a: nat, b: nat, r: FileRecord)
    requires a != b && a !in s.ops && b !in s.ops
    requires r.id in s.files && s.files[r.id] == r && r.expiresAt <= s.now
    ensures var run := [] + [SweepBegin(a)] + [SweepBegin(b)] + [SweepFind(a, [r])] + [SweepFind(b, [r])];
      Legal(cfg, s, run) && var s' := After(cfg, s, run);
      a in s'.ops && InQueue(s'.ops[a], r) && b in s'.ops && InQueue(s'.ops[b], r)
  {
    var r1 := [] + [SweepBegin(a)];
    var r2 := r1 + [SweepBegin(b)];
    var r3 := r2 + [SweepFind(a, [r])];
    Extend(cfg, s, [], SweepBegin(a));
    Extend(cfg, s, r1, SweepBegin(b));
    Extend(cfg, s, r2, SweepFind(a, [r]));
    Extend(cfg, s, r3, SweepFind(b, [r]));
  }
}
