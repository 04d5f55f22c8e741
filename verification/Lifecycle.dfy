/**
 The life of temporary files as a protocol. Any number of uploads, early deletes and sweeps,
 on any number of instances, share one `files` table and one object store. Every call to
 either is one atomic step; steps of different operations interleave freely; every call may
 fail, with or without having taken effect; an operation may stop between any two steps.
 */
module Lifecycle {
  import opened Metadata
  import opened FilesTable

  datatype Config = Config(ttl: int, hash: Bytes -> string)

  // What a storage call did, and what its caller saw. The two failures look the same to it.
  datatype Outcome = Succeeded | FailedClean | FailedApplied {
    predicate Applied() { this != FailedClean }
    predicate Reported() { this == Succeeded }
  }

  // Where an operation stands between two of its storage calls.
  datatype Op =
    // Upload: spooled and hashed, clock read
    | Hashed(body: Bytes, at: Time)
    // Upload: the dedup lookup, made at step `lookedUp`, found nothing
    | Missed(body: Bytes, at: Time, lookedUp: nat)
    // Upload: object written, row not yet
    | Stored(rec: FileRecord, lookedUp: nat)
    // Upload: Insert reported an error, the object is about to be removed again
    | Compensating(rec: FileRecord, applied: bool)
    // Early delete: row read
    | Found(rec: FileRecord)
    // Early delete: token and expiry checked
    | Checked(rec: FileRecord)
    // Early delete: object step done, row step not; `left` when the object step did nothing
    | RowPending(rec: FileRecord, left: bool)
    // Sweep: clock read
    | Cutoff(at: Time)
    // Sweep: rows still to process; `removed` when the object of the first is already deleted
    | Sweeping(at: Time, rest: seq<FileRecord>, removed: bool)

  datatype Event =
    | Tick(elapsed: nat)
    | UploadHash(op: nat, body: Bytes)
    | UploadLookup(op: nat, found: Option<FileRecord>)
    | UploadPut(op: nat, rec: FileRecord, put: Outcome)
    | UploadInsert(op: nat, insert: Outcome)
    | UploadCompensate(op: nat, delete: Outcome)
    | DeleteFind(op: nat, id: string)
    | DeleteCheck(op: nat, token: Option<string>)
    | DeleteObject(op: nat, delete: Outcome)
    | DeleteRow(op: nat, row: Outcome)
    | SweepBegin(op: nat)
    | SweepFind(op: nat, batch: seq<FileRecord>)
    | SweepObject(op: nat, delete: Outcome)
    | SweepRow(op: nat, row: Outcome)
    // A crash, or a return that makes no further storage call
    | Stop(op: nat)

  // Between which steps of the run an upload looked for a duplicate and inserted its row.
  datatype Window = Window(lookedUp: nat, inserted: nat)

  // The faults that can cost an object its row, or a row its object.
  datatype Ledger = Ledger(
    ignoredDeletes: nat,     // DeleteObject did nothing and the caller carried on
    appliedPuts: nat,        // PutObject stored the object but reported an error
    crashesHolding: nat,     // an upload stopped while it alone knew its object
    unfinishedDeletes: nat)  // an object was deleted and the deletion of its row gave up

  datatype State = State(
    now: Time,
    step: nat,
    files: Table,
    objects: map<string, Bytes>,
    ops: map<nat, Op>,
    minted: Table,           // every record an upload ever made up
    windows: map<string, Window>,
    ledger: Ledger)

  const NO_FAULTS := Ledger(0, 0, 0, 0)

  function Init(now: Time): State {
    State(now, 0, map[], map[], map[], map[], map[], NO_FAULTS)
  }

  const BATCH_SIZE := 100

  // What FindExpired may return to one of several overlapping sweeps: SKIP LOCKED can hide
  // any of the expired rows.
  predicate ExpiredBatch(t: Table, before: Time, batch: seq<FileRecord>) {
    && |batch| <= BATCH_SIZE
    && (forall i | 0 <= i < |batch| :: batch[i].id in t && t[batch[i].id] == batch[i] && batch[i].expiresAt <= before)
    && (forall i, j | 0 <= i < j < |batch| :: batch[i].id != batch[j].id)
  }

  // DeleteTokenMatches: `presented` is the hash of the token, None when no token was given.
  predicate TokenMatches(presented: Option<string>, stored: string) {
    presented.Some? && stored != "" && presented.value == stored
  }

  // The record Upload builds once the lookup has missed. Its id is a fresh UUID; that a fresh
  // id gives a fresh key is a property of the keys (see ObjectKeys).
  predicate FreshRecord(cfg: Config, s: State, body: Bytes, at: Time, rec: FileRecord) {
    && rec.id !in s.minted
    && (forall id | id in s.minted :: s.minted[id].objectKey != rec.objectKey)
    && rec.sizeBytes == |body| && rec.checksum == cfg.hash(body)
    && rec.createdAt == at && rec.expiresAt == at + cfg.ttl
  }

  predicate Enabled(cfg: Config, s: State, e: Event) {
    match e
    case Tick(_) => true
    case UploadHash(op, _) => op !in s.ops
    case UploadLookup(op, found) =>
      op in s.ops && s.ops[op].Hashed? && LookupAnswer(s.files, cfg.hash(s.ops[op].body), s.ops[op].at, found)
    case UploadPut(op, rec, _) =>
      op in s.ops && s.ops[op].Missed? && FreshRecord(cfg, s, s.ops[op].body, s.ops[op].at, rec)
    case UploadInsert(op, _) => op in s.ops && s.ops[op].Stored?
    case UploadCompensate(op, _) => op in s.ops && s.ops[op].Compensating?
    case DeleteFind(op, id) => op !in s.ops && id in s.files
    case DeleteCheck(op, token) =>
      op in s.ops && s.ops[op].Found? && TokenMatches(token, s.ops[op].rec.deleteTokenHash)
          && !s.ops[op].rec.IsExpired(s.now)
    case DeleteObject(op, _) => op in s.ops && s.ops[op].Checked?
    case DeleteRow(op, _) => op in s.ops && s.ops[op].RowPending?
    case SweepBegin(op) => op !in s.ops
    case SweepFind(op, batch) => op in s.ops && s.ops[op].Cutoff? && ExpiredBatch(s.files, s.ops[op].at, batch)
    case SweepObject(op, _) => op in s.ops && s.ops[op].Sweeping? && s.ops[op].rest != [] && !s.ops[op].removed
    case SweepRow(op, _) => op in s.ops && s.ops[op].Sweeping? && s.ops[op].rest != [] && s.ops[op].removed
    case Stop(op) => op in s.ops
  }

  function Without<K, V>(m: map<K, V>, k: K): map<K, V> {
    m - {k}
  }

  function Next(cfg: Config, s: State, e: Event): State
    requires Enabled(cfg, s, e)
  {
    var s := s.(step := s.step + 1);
    match e
    case Tick(elapsed) => s.(now := s.now + elapsed)
    case UploadHash(op, body) => s.(ops := s.ops[op := Hashed(body, s.now)])
    case UploadLookup(op, found) =>
      if found.Some? then s.(ops := Without(s.ops, op))
      else s.(ops := s.ops[op := Missed(s.ops[op].body, s.ops[op].at, s.step)])
    case UploadPut(op, rec, put) =>
      var s' := s.(minted := s.minted[rec.id := rec],
                   objects := if put.Applied() then s.objects[rec.objectKey := s.ops[op].body] else s.objects,
                   ops := if put.Reported() then s.ops[op := Stored(rec, s.ops[op].lookedUp)] else Without(s.ops, op));
      if put == FailedApplied then s'.(ledger := s.ledger.(appliedPuts := s.ledger.appliedPuts + 1)) else s'
    case UploadInsert(op, insert) =>
      var rec := s.ops[op].rec;
      s.(files := if insert.Applied() then s.files[rec.id := rec] else s.files,
         windows := if insert.Applied() then s.windows[rec.id := Window(s.ops[op].lookedUp, s.step)] else s.windows,
         ops := if insert.Reported() then Without(s.ops, op) else s.ops[op := Compensating(rec, insert.Applied())])
    case UploadCompensate(op, delete) =>
      var Compensating(rec, applied) := s.ops[op];
      s.(objects := if delete.Applied() then Without(s.objects, rec.objectKey) else s.objects,
         ops := Without(s.ops, op),
         ledger := s.ledger.(
           ignoredDeletes := s.ledger.ignoredDeletes + (if delete.Applied() then 0 else 1),
           unfinishedDeletes := s.ledger.unfinishedDeletes + (if delete.Applied() && applied then 1 else 0)))
    case DeleteFind(op, id) => s.(ops := s.ops[op := Found(s.files[id])])
    case DeleteCheck(op, _) => s.(ops := s.ops[op := Checked(s.ops[op].rec)])
    case DeleteObject(op, delete) =>
      var rec := s.ops[op].rec;
      s.(objects := if delete.Applied() then Without(s.objects, rec.objectKey) else s.objects,
         ops := s.ops[op := RowPending(rec, !delete.Applied())],
         ledger := s.ledger.(ignoredDeletes := s.ledger.ignoredDeletes + (if delete.Applied() then 0 else 1)))
    case DeleteRow(op, row) =>
      var RowPending(rec, left) := s.ops[op];
      s.(files := if row.Applied() then Without(s.files, rec.id) else s.files,
         ops := Without(s.ops, op),
         ledger := s.ledger.(
           unfinishedDeletes := s.ledger.unfinishedDeletes + (if row.Applied() || left then 0 else 1)))
    case SweepBegin(op) => s.(ops := s.ops[op := Cutoff(s.now)])
    case SweepFind(op, batch) => s.(ops := s.ops[op := Sweeping(s.ops[op].at, batch, false)])
    case SweepObject(op, delete) =>
      var Sweeping(at, rest, _) := s.ops[op];
      s.(objects := if delete.Applied() then Without(s.objects, rest[0].objectKey) else s.objects,
         ops := s.ops[op := if delete.Reported() then Sweeping(at, rest, true) else Sweeping(at, rest[1..], false)],
         ledger := s.ledger.(
           unfinishedDeletes := s.ledger.unfinishedDeletes + (if delete == FailedApplied then 1 else 0)))
    case SweepRow(op, row) =>
      var Sweeping(at, rest, _) := s.ops[op];
      s.(files := if row.Applied() then Without(s.files, rest[0].id) else s.files,
         ops := s.ops[op := Sweeping(at, rest[1..], false)],
         ledger := s.ledger.(unfinishedDeletes := s.ledger.unfinishedDeletes + (if row.Applied() then 0 else 1)))
    case Stop(op) =>
      var o := s.ops[op];
      s.(ops := Without(s.ops, op),
         ledger := s.ledger.(
           crashesHolding := s.ledger.crashesHolding + (if o.Stored? || o.Compensating? then 1 else 0),
           unfinishedDeletes := s.ledger.unfinishedDeletes
             + (if (o.RowPending? && !o.left) || (o.Sweeping? && o.removed) then 1 else 0)))
  }

  // A run, oldest event first.
  ghost predicate Legal(cfg: Config, start: State, run: seq<Event>)
    decreases |run|, 0
  {
    run == [] || (Legal(cfg, start, Front(run)) && Enabled(cfg, After(cfg, start, Front(run)), Last(run)))
  }

  ghost function After(cfg: Config, start: State, run: seq<Event>): State
    requires Legal(cfg, start, run)
    decreases |run|, 1
  {
    if run == [] then start else Next(cfg, After(cfg, start, Front(run)), Last(run))
  }

  function Front(run: seq<Event>): seq<Event>
    requires run != []
  {
    run[..|run| - 1]
  }

  function Last(run: seq<Event>): Event
    requires run != []
  {
    run[|run| - 1]
  }

  // Runs are built one event at a time.
  lemma Extend(cfg: Config, start: State, run: seq<Event>, e: Event)
    requires Legal(cfg, start, run) && Enabled(cfg, After(cfg, start, run), e)
    ensures Legal(cfg, start, run + [e])
    ensures After(cfg, start, run + [e]) == Next(cfg, After(cfg, start, run), e)
  {
    assert Front(run + [e]) == run && Last(run + [e]) == e;
  }

  lemma {:induction false} Compose(cfg: Config, start: State, first: seq<Event>, rest: seq<Event>)
    requires Legal(cfg, start, first) && Legal(cfg, After(cfg, start, first), rest)
    ensures Legal(cfg, start, first + rest)
    ensures After(cfg, start, first + rest) == After(cfg, After(cfg, start, first), rest)
    decreases |rest|
  {
    if rest == [] {
      assert first + rest == first;
    } else {
      Compose(cfg, start, first, Front(rest));
      assert Front(first + rest) == first + Front(rest) && Last(first + rest) == Last(rest);
    }
  }

  lemma StepClock(cfg: Config, s: State, e: Event)
    requires Enabled(cfg, s, e)
    ensures s.now <= Next(cfg, s, e).now && Next(cfg, s, e).step == s.step + 1
  {
  }
}
