/** Neither deduplication nor the statistics can see the sweeper at work. */
module SweepVisibility {
  import opened Metadata
  import opened FilesTable
  import opened Lifecycle
  import opened LifecycleInvariants
  import opened Durability
  import opened FileStats

  // The table had no sweep ever deleted a row, but every upload and early delete done the same.
  ghost function Unswept(cfg: Config, start: State, run: seq<Event>): Table
    requires Legal(cfg, start, run)
    decreases |run|
  {
    if run == [] then start.files
    else NextUnswept(After(cfg, start, Front(run)), Last(run), Unswept(cfg, start, Front(run)))
  }

  function NextUnswept(s: State, e: Event, t: Table): Table {
    match e
    case UploadInsert(op, insert) =>
      if op in s.ops && s.ops[op].Stored? && insert.Applied() then t[s.ops[op].rec.id := s.ops[op].rec] else t
    case DeleteRow(op, row) =>
      if op in s.ops && s.ops[op].RowPending? && row.Applied() then Without(t, s.ops[op].rec.id) else t
    case _ => t
  }

  // The row a sweep deletes was expired.
  lemma SweptRowIsExpired(cfg: Config, s: State, e: Event)
    requires Inv(cfg, s) && Enabled(cfg, s, e) && e.SweepRow?
    ensures forall id | id in s.files && id !in Next(cfg, s, e).files :: s.files[id].expiresAt <= s.now
    ensures forall id | id in Next(cfg, s, e).files :: id in s.files && Next(cfg, s, e).files[id] == s.files[id]
  {
    OtherStepShape(cfg, s, e);
    forall id | id in s.files && id !in Next(cfg, s, e).files
      ensures s.files[id].expiresAt <= s.now
    {
      WhoRemovesARow(cfg, s, e, id);
    }
  }

  lemma FewerExpired(t: Table, t': Table, now: Time)
    requires forall id | id in t && id !in t' :: t[id].expiresAt <= now
    requires forall id | id in t' :: id in t && t'[id] == t[id]
    ensures Active(t', now) == Active(t, now)
  {
  }

  lemma InsertActive(t: Table, rec: FileRecord, now: Time)
    ensures Active(t[rec.id := rec], now) ==
            if rec.expiresAt > now then Active(t, now)[rec.id := rec] else Active(t, now) - {rec.id}
  {
  }

  lemma RemoveActive(t: Table, id: string, now: Time)
    ensures Active(Without(t, id), now) == Without(Active(t, now), id)
  {
  }

  // What the steps other than a sweep's do to the table.
  lemma OtherFiles(cfg: Config, s: State, e: Event)
    requires Enabled(cfg, s, e) && !e.SweepRow?
    ensures Next(cfg, s, e).files == NextUnswept(s, e, s.files)
  {
  }

  lemma StepActive(cfg: Config, s: State, e: Event, t: Table, now: Time)
    requires Inv(cfg, s) && Enabled(cfg, s, e) && s.now <= now && Active(s.files, now) == Active(t, now)
    ensures Active(Next(cfg, s, e).files, now) == Active(NextUnswept(s, e, t), now)
  {
    if e.SweepRow? {
      SweptRowIsExpired(cfg, s, e);
      FewerExpired(s.files, Next(cfg, s, e).files, now);
    } else {
      OtherFiles(cfg, s, e);
      if e.UploadInsert? {
        InsertActive(s.files, s.ops[e.op].rec, now);
        InsertActive(t, s.ops[e.op].rec, now);
      } else if e.DeleteRow? {
        RemoveActive(s.files, s.ops[e.op].rec.id, now);
        RemoveActive(t, s.ops[e.op].rec.id, now);
      }
    }
  }

  lemma {:induction false} RunActive(cfg: Config, begin: Time, run: seq<Event>, now: Time)
    requires Legal(cfg, Init(begin), run) && After(cfg, Init(begin), run).now <= now
    ensures Active(After(cfg, Init(begin), run).files, now) == Active(Unswept(cfg, Init(begin), run), now)
    decreases |run|
  {
    if run != [] {
      var s := After(cfg, Init(begin), Front(run));
      StepClock(cfg, s, Last(run));
      RunActive(cfg, begin, Front(run), now);
      InitInv(cfg, begin);
      RunInv(cfg, Init(begin), Front(run));
      StepActive(cfg, s, Last(run), Unswept(cfg, Init(begin), Front(run)), now);
    }
  }

  /**
   The sweeper is invisible. In every run of the protocol a dedup lookup or a statistics query
   whose clock reading is not older than the state it finds answers as on the table that
   uploads and early deletes alone would have left, had no sweep ever deleted a row.
   */
  lemma SweeperIsInvisible(cfg: Config, begin: Time, run: seq<Event>, now: Time, checksum: string,
                           found: Option<FileRecord>, st: Stats)
    requires Legal(cfg, Init(begin), run) && After(cfg, Init(begin), run).now <= now
    ensures var swept, unswept := After(cfg, Init(begin), run).files, Unswept(cfg, Init(begin), run);
      && (LookupAnswer(swept, checksum, now, found) <==> LookupAnswer(unswept, checksum, now, found))
      && (Describes(st, Active(swept, now)) <==> Describes(st, Active(unswept, now)))
  {
    var swept, unswept := After(cfg, Init(begin), run).files, Unswept(cfg, Init(begin), run);
    RunActive(cfg, begin, run, now);
    AnswersDependOnActiveRows(swept, unswept, checksum, now, found);
    AnswersDependOnActiveRows(unswept, swept, checksum, now, found);
  }
}
