/**
 Deduplication is check-then-insert. Two live rows with one checksum can exist, but only when
 the uploads that made them ran, between lookup and insert, at the same time.
 */
module Dedup {
  import opened Metadata
  import opened FilesTable
  import opened Lifecycle
  import opened LifecycleInvariants

  // Each looked up before the other inserted.
  predicate Overlap(a: Window, b: Window) {
    a.lookedUp < b.inserted && b.lookedUp < a.inserted
  }

  ghost predicate LiveTwins(s: State, a: string, b: string) {
    && a in s.files && b in s.files && a != b
    && s.files[a].checksum == s.files[b].checksum
    && s.files[a].expiresAt > s.now && s.files[b].expiresAt > s.now
  }

  ghost predicate WindowsOrdered(s: State) {
    forall id | id in s.windows :: s.windows[id].lookedUp < s.windows[id].inserted <= s.step
  }

  // Every row an upload's lookup would have returned was inserted after that lookup.
  ghost predicate MissExplained(s: State, checksum: string, at: Time, lookedUp: nat) {
    && lookedUp <= s.step
    && forall id | id in s.files && id in s.windows && Matches(s.files[id], checksum, at) ::
         lookedUp < s.windows[id].inserted
  }

  ghost predicate OpExplained(cfg: Config, s: State, o: Op) {
    match o
    case Missed(body, at, lookedUp) => MissExplained(s, cfg.hash(body), at, lookedUp)
    case Stored(rec, lookedUp) => MissExplained(s, rec.checksum, rec.createdAt, lookedUp)
    case _ => true
  }

  ghost predicate TwinsOverlap(s: State) {
    forall a, b | LiveTwins(s, a, b) && a in s.windows && b in s.windows :: Overlap(s.windows[a], s.windows[b])
  }

  ghost predicate DedupInv(cfg: Config, s: State) {
    && WindowsOrdered(s)
    && (forall o | o in s.ops :: OpExplained(cfg, s, s.ops[o]))
    && TwinsOverlap(s)
  }

  // Rows may go and the clock may run; neither unsettles what a miss explained.
  lemma ExplainedStays(cfg: Config, s: State, s': State, o: Op)
    requires OpExplained(cfg, s, o) && s'.windows == s.windows && s.step <= s'.step
    requires s'.files.Keys <= s.files.Keys && forall id | id in s'.files :: s'.files[id] == s.files[id]
    ensures OpExplained(cfg, s', o)
  {
  }

  lemma FewerRowsExplained(cfg: Config, s: State, s': State)
    requires DedupInv(cfg, s) && s'.windows == s.windows && s.step <= s'.step && s.now <= s'.now
    requires s'.files.Keys <= s.files.Keys && forall id | id in s'.files :: s'.files[id] == s.files[id]
    requires forall o | o in s'.ops :: OpExplained(cfg, s', s'.ops[o])
    ensures DedupInv(cfg, s')
  {
    assert forall a, b :: LiveTwins(s', a, b) ==> LiveTwins(s, a, b);
  }

  lemma InsertExplained(cfg: Config, s: State, e: Event)
    requires Inv(cfg, s) && DedupInv(cfg, s) && Enabled(cfg, s, e) && e.UploadInsert?
    ensures DedupInv(cfg, Next(cfg, s, e))
  {
    InsertShape(cfg, s, e);
    InsertWindow(cfg, s, e);
    if e.insert.Applied() {
      assert OpKnown(s, s.ops[e.op]) && OpExplained(cfg, s, s.ops[e.op]);
      NewRowExplained(cfg, s, Next(cfg, s, e), e.op);
    } else {
      NoRowExplained(cfg, s, e, Next(cfg, s, e));
    }
  }

  lemma NoRowExplained(cfg: Config, s: State, e: Event, s': State)
    requires DedupInv(cfg, s) && Enabled(cfg, s, e) && e.UploadInsert? && !e.insert.Applied()
    requires InsertEffect(s, e, s') && s'.windows == s.windows
    ensures DedupInv(cfg, s')
  {
    forall o | o in s'.ops && o != e.op
      ensures OpExplained(cfg, s', s'.ops[o])
    {
      ExplainedStays(cfg, s, s', s.ops[o]);
    }
    FewerRowsExplained(cfg, s, s');
  }

  // The new row is later than every lookup made so far, and twins of it were missed.
  lemma NewRowExplained(cfg: Config, s: State, s': State, op: nat)
    requires RowsKnown(s) && DedupInv(cfg, s) && op in s.ops && s.ops[op].Stored?
    requires OpKnown(s, s.ops[op]) && OpExplained(cfg, s, s.ops[op])
    requires var rec := s.ops[op].rec;
      && s'.files == s.files[rec.id := rec] && s'.now == s.now && s'.step == s.step + 1
      && s'.windows == s.windows[rec.id := Window(s.ops[op].lookedUp, s.step + 1)]
    requires forall o | o in s'.ops && o != op :: o in s.ops && s'.ops[o] == s.ops[o]
    requires op in s'.ops ==> s'.ops[op].Compensating?
    ensures DedupInv(cfg, s')
  {
    var rec := s.ops[op].rec;
    forall o | o in s'.ops && o != op
      ensures OpExplained(cfg, s', s'.ops[o])
    {
      assert OpExplained(cfg, s, s.ops[o]);
    }
    forall a, b | LiveTwins(s', a, b)
      ensures Overlap(s'.windows[a], s'.windows[b])
    {
      if a != rec.id && b != rec.id {
        assert LiveTwins(s, a, b);
      } else {
        var other := if a == rec.id then b else a;
        assert Matches(s.files[other], rec.checksum, rec.createdAt);
      }
    }
  }

  lemma InsertWindow(cfg: Config, s: State, e: Event)
    requires Enabled(cfg, s, e) && e.UploadInsert?
    ensures var s', rec := Next(cfg, s, e), s.ops[e.op].rec;
      s'.windows == (if e.insert.Applied() then s.windows[rec.id := Window(s.ops[e.op].lookedUp, s.step + 1)]
          else s.windows)
  {
  }

  lemma PutExplained(cfg: Config, s: State, e: Event)
    requires Inv(cfg, s) && DedupInv(cfg, s) && Enabled(cfg, s, e) && e.UploadPut?
    ensures DedupInv(cfg, Next(cfg, s, e))
  {
    var s' := Next(cfg, s, e);
    PutShape(cfg, s, e);
    assert OpExplained(cfg, s, s.ops[e.op]);
    forall o | o in s'.ops
      ensures OpExplained(cfg, s', s'.ops[o])
    {
      if o != e.op { ExplainedStays(cfg, s, s', s.ops[o]); }
    }
    FewerRowsExplained(cfg, s, s');
  }

  lemma OtherExplained(cfg: Config, s: State, e: Event)
    requires Inv(cfg, s) && DedupInv(cfg, s) && Enabled(cfg, s, e) && !e.UploadPut? && !e.UploadInsert?
    ensures DedupInv(cfg, Next(cfg, s, e))
  {
    var s' := Next(cfg, s, e);
    OtherStepShape(cfg, s, e);
    forall o | o in s'.ops
      ensures OpExplained(cfg, s', s'.ops[o])
    {
      if o in s.ops && s'.ops[o] == s.ops[o] { ExplainedStays(cfg, s, s', s.ops[o]); }
          else { LookupExplained(cfg, s, e); }
    }
    FewerRowsExplained(cfg, s, s');
  }

  lemma LookupExplained(cfg: Config, s: State, e: Event)
    requires Enabled(cfg, s, e) && !e.Tick? && !e.UploadPut? && !e.UploadInsert? && e.op in Next(cfg, s, e).ops
    ensures OpExplained(cfg, Next(cfg, s, e), Next(cfg, s, e).ops[e.op])
  {
  }

  lemma {:induction false} RunDedup(cfg: Config, now: Time, run: seq<Event>)
    requires Legal(cfg, Init(now), run)
    ensures Inv(cfg, After(cfg, Init(now), run)) && DedupInv(cfg, After(cfg, Init(now), run))
    decreases |run|
  {
    InitInv(cfg, now);
    RunInv(cfg, Init(now), run);
    if run != [] {
      var s, e := After(cfg, Init(now), Front(run)), Last(run);
      RunDedup(cfg, now, Front(run));
      if e.UploadPut? { PutExplained(cfg, s, e); }
      else if e.UploadInsert? { InsertExplained(cfg, s, e); }
      else { OtherExplained(cfg, s, e); }
    }
  }

  /**
   Deduplication under concurrency. In every reachable state, two live rows with the same
   checksum come from uploads each of which looked for a duplicate before the other inserted.
   */
  lemma TwinsCameFromOverlappingUploads(cfg: Config, now: Time, run: seq<Event>, a: string, b: string)
    requires Legal(cfg, Init(now), run) && LiveTwins(After(cfg, Init(now), run), a, b)
    ensures var s := After(cfg, Init(now), run);
      a in s.windows && b in s.windows && Overlap(s.windows[a], s.windows[b])
  {
    RunDedup(cfg, now, run);
  }

  ghost predicate NoTwins(s: State) {
    forall a, b :: !LiveTwins(s, a, b)
  }

  predicate BetweenLookupAndInsert(o: Op) {
    o.Missed? || o.Stored?
  }

  // The checksum and the expiry of the row such an upload is about to insert.
  function ChecksumOf(cfg: Config, o: Op): string
    requires BetweenLookupAndInsert(o)
  {
    if o.Missed? then cfg.hash(o.body) else o.rec.checksum
  }

  function ExpiryOf(cfg: Config, o: Op): Time
    requires BetweenLookupAndInsert(o)
  {
    if o.Missed? then o.at + cfg.ttl else o.rec.expiresAt
  }

  // Upload o is about to insert a row of this checksum that is still live.
  predicate Pending(cfg: Config, s: State, o: nat, checksum: string) {
    o in s.ops && BetweenLookupAndInsert(s.ops[o]) && ChecksumOf(cfg, s.ops[o]) == checksum
        && ExpiryOf(cfg, s.ops[o]) > s.now
  }

  ghost predicate OnePerChecksum(cfg: Config, s: State) {
    forall a, b, c | Pending(cfg, s, a, c) && Pending(cfg, s, b, c) :: a == b
  }

  // No row in the table is a live duplicate of what an upload is about to insert.
  ghost predicate PendingIsAlone(cfg: Config, s: State) {
    forall o, id | id in s.files && Pending(cfg, s, o, s.files[id].checksum) :: s.files[id].expiresAt <= s.now
  }

  lemma FewerRowsNoTwins(s: State, s': State)
    requires NoTwins(s) && s.now <= s'.now
    requires s'.files.Keys <= s.files.Keys && forall id | id in s'.files :: s'.files[id] == s.files[id]
    ensures NoTwins(s')
  {
    assert forall a, b :: LiveTwins(s', a, b) ==> LiveTwins(s, a, b);
  }

  // What is pending after a step that inserts nothing was so before, or has just missed.
  lemma StillPending(cfg: Config, s: State, e: Event, o: nat, checksum: string)
    requires Enabled(cfg, s, e) && !e.UploadInsert? && Pending(cfg, Next(cfg, s, e), o, checksum)
    ensures Pending(cfg, s, o, checksum) || (e.UploadLookup? && e.op == o && NoneActive(s.files, checksum, s.ops[o].at))
  {
    StepClock(cfg, s, e);
    if e.UploadPut? {
      PutShape(cfg, s, e);
    } else {
      OtherStepShape(cfg, s, e);
      if !e.Tick? && e.op == o { JustMissed(cfg, s, e); }
    }
  }

  lemma JustMissed(cfg: Config, s: State, e: Event)
    requires Enabled(cfg, s, e) && !e.Tick? && !e.UploadPut? && !e.UploadInsert?
    requires e.op in Next(cfg, s, e).ops && BetweenLookupAndInsert(Next(cfg, s, e).ops[e.op])
    ensures e.UploadLookup? && NoneActive(s.files, ChecksumOf(cfg, Next(cfg, s, e).ops[e.op]), s.ops[e.op].at)
  {
  }

  lemma StepAlone(cfg: Config, s: State, e: Event)
    requires Inv(cfg, s) && Enabled(cfg, s, e) && OnePerChecksum(cfg, s) && NoTwins(s) && PendingIsAlone(cfg, s)
    ensures NoTwins(Next(cfg, s, e)) && PendingIsAlone(cfg, Next(cfg, s, e))
  {
    if e.UploadInsert? {
      InsertShape(cfg, s, e);
      InsertAlone(cfg, s, e, Next(cfg, s, e));
    } else {
      QuietAlone(cfg, s, e);
    }
  }

  // A row enters: nothing live of its checksum is there, and nobody else is about to insert one.
  lemma InsertAlone(cfg: Config, s: State, e: Event, s': State)
    requires e.UploadInsert? && Enabled(cfg, s, e) && InsertEffect(s, e, s')
    requires OnePerChecksum(cfg, s) && NoTwins(s) && PendingIsAlone(cfg, s)
    ensures NoTwins(s') && PendingIsAlone(cfg, s')
  {
    var rec := s.ops[e.op].rec;
    assert rec.expiresAt > s.now ==> Pending(cfg, s, e.op, rec.checksum);
    forall a, b
      ensures !LiveTwins(s', a, b)
    {
      assert !LiveTwins(s, a, b);
    }
    forall o, id | id in s'.files && Pending(cfg, s', o, s'.files[id].checksum)
      ensures s'.files[id].expiresAt <= s'.now
    {
      assert o != e.op && Pending(cfg, s, o, s'.files[id].checksum);
    }
  }

  lemma QuietAlone(cfg: Config, s: State, e: Event)
    requires Inv(cfg, s) && Enabled(cfg, s, e) && !e.UploadInsert? && NoTwins(s) && PendingIsAlone(cfg, s)
    ensures NoTwins(Next(cfg, s, e)) && PendingIsAlone(cfg, Next(cfg, s, e))
  {
    var s' := Next(cfg, s, e);
    StepClock(cfg, s, e);
    if e.UploadPut? { PutShape(cfg, s, e); } else { OtherStepShape(cfg, s, e); }
    FewerRowsNoTwins(s, s');
    forall o, id | id in s'.files && Pending(cfg, s', o, s'.files[id].checksum)
      ensures s'.files[id].expiresAt <= s'.now
    {
      StillPending(cfg, s, e, o, s'.files[id].checksum);
      if !Pending(cfg, s, o, s.files[id].checksum) {
        assert OpKnown(s, s.ops[o]) && !Matches(s.files[id], s.files[id].checksum, s.ops[o].at);
      }
    }
  }

  // At no point of the run are two uploads of one checksum pending.
  ghost predicate AlwaysApart(cfg: Config, start: State, run: seq<Event>)
    requires Legal(cfg, start, run)
    decreases |run|
  {
    OnePerChecksum(cfg, After(cfg, start, run)) && (run != [] ==> AlwaysApart(cfg, start, Front(run)))
  }

  /** Uploads of which no two of one checksum are under way at once leave at most one live row
      per checksum, whatever else they and others do. */
  lemma {:induction false} ApartUploadsNeverDuplicate(cfg: Config, now: Time, run: seq<Event>)
    requires Legal(cfg, Init(now), run) && AlwaysApart(cfg, Init(now), run)
    ensures NoTwins(After(cfg, Init(now), run)) && PendingIsAlone(cfg, After(cfg, Init(now), run))
    decreases |run|
  {
    if run != [] {
      ApartUploadsNeverDuplicate(cfg, now, Front(run));
      InitInv(cfg, now);
      RunInv(cfg, Init(now), Front(run));
      StepAlone(cfg, After(cfg, Init(now), Front(run)), Last(run));
    }
  }

  // Nobody does anything but finish an upload.
  predicate OnlyFinishes(run: seq<Event>) {
    forall i | 0 <= i < |run| :: run[i].UploadPut? || run[i].UploadInsert?
  }

  lemma FinishingStaysApart(cfg: Config, s: State, e: Event)
    requires Enabled(cfg, s, e) && (e.UploadPut? || e.UploadInsert?) && OnePerChecksum(cfg, s)
    ensures OnePerChecksum(cfg, Next(cfg, s, e))
  {
    var s' := Next(cfg, s, e);
    forall o, c | Pending(cfg, s', o, c)
      ensures Pending(cfg, s, o, c)
    {
      if e.UploadPut? { StillPending(cfg, s, e, o, c); } else { InsertShape(cfg, s, e); }
    }
  }

  lemma {:induction false} FinishingNeverDuplicates(cfg: Config, s: State, tail: seq<Event>)
    requires Inv(cfg, s) && OnePerChecksum(cfg, s) && NoTwins(s) && PendingIsAlone(cfg, s)
    requires Legal(cfg, s, tail) && OnlyFinishes(tail)
    ensures var s' := After(cfg, s, tail); OnePerChecksum(cfg, s') && NoTwins(s') && PendingIsAlone(cfg, s')
    decreases |tail|
  {
    if tail != [] {
      FinishingNeverDuplicates(cfg, s, Front(tail));
      RunInv(cfg, s, Front(tail));
      StepAlone(cfg, After(cfg, s, Front(tail)), Last(tail));
      FinishingStaysApart(cfg, After(cfg, s, Front(tail)), Last(tail));
    }
  }

  lemma FreshName(names: set<string>) returns (name: string)
    ensures name !in names
  {
    var longest: nat, rest := 0, names;
    while rest != {}
      invariant rest <= names && forall n | n in names - rest :: |n| <= longest
    {
      var n :| n in rest;
      rest := rest - {n};
      if |n| > longest { longest := |n|; }
    }
    assert forall n | n in names :: n in names - rest && |n| <= longest;
    name := seq(longest + 1, i => 'x');
  }

  function Draft(cfg: Config, id: string, body: Bytes, at: Time): FileRecord {
    FileRecord(id, "f", "text/plain", |body|, cfg.hash(body), id, "", "", "h", at, at + cfg.ttl)
  }

  // An upload that has missed can put its object; others go on undisturbed.
  lemma PutNow(cfg: Config, s: State, o: nat, other: nat, c: string) returns (tail: seq<Event>)
    requires Inv(cfg, s) && Pending(cfg, s, o, c) && Pending(cfg, s, other, c) && o != other
    ensures Legal(cfg, s, tail) && OnlyFinishes(tail)
    ensures var s' := After(cfg, s, tail);
      && Inv(cfg, s') && Pending(cfg, s', o, c) && s'.ops[o].Stored?
      && Pending(cfg, s', other, c) && s'.ops[other] == s.ops[other]
  {
    if s.ops[o].Stored? {
      tail := [];
    } else {
      var id := FreshName(s.minted.Keys + set x | x in s.minted :: s.minted[x].objectKey);
      var rec := Draft(cfg, id, s.ops[o].body, s.ops[o].at);
      assert forall x | x in s.minted :: s.minted[x].objectKey != id;
      tail := [] + [UploadPut(o, rec, Succeeded)];
      Extend(cfg, s, [], UploadPut(o, rec, Succeeded));
      StepInv(cfg, s, UploadPut(o, rec, Succeeded));
      PutIsPending(cfg, s, o, other, c, rec);
    }
  }

  lemma PutIsPending(cfg: Config, s: State, o: nat, other: nat, c: string, rec: FileRecord)
    requires Pending(cfg, s, o, c) && Pending(cfg, s, other, c) && o != other
    requires Enabled(cfg, s, UploadPut(o, rec, Succeeded))
    ensures var s' := Next(cfg, s, UploadPut(o, rec, Succeeded));
      Pending(cfg, s', o, c) && s'.ops[o].Stored? && Pending(cfg, s', other, c) && s'.ops[other] == s.ops[other]
  {
  }

  lemma BothInsert(cfg: Config, s: State, a: nat, b: nat, c: string)
    requires Inv(cfg, s) && a != b && Pending(cfg, s, a, c) && Pending(cfg, s, b, c) && s.ops[a].Stored?
    requires s.ops[b].Stored?
    ensures Enabled(cfg, s, UploadInsert(a, Succeeded))
    ensures var s1 := Next(cfg, s, UploadInsert(a, Succeeded));
      Enabled(cfg, s1, UploadInsert(b, Succeeded)) && !NoTwins(Next(cfg, s1, UploadInsert(b, Succeeded)))
  {
    assert Holds(s.ops[a], s.ops[a].rec.id) && Holds(s.ops[b], s.ops[b].rec.id);
    var s1 := Next(cfg, s, UploadInsert(a, Succeeded));
    assert LiveTwins(Next(cfg, s1, UploadInsert(b, Succeeded)), s.ops[a].rec.id, s.ops[b].rec.id);
  }

  /** Two pending uploads of one checksum, wherever they come from, can always both insert: that
      they merely finish leaves two live rows. */
  lemma OverlapCanDuplicate(cfg: Config, s: State, a: nat, b: nat, c: string) returns (tail: seq<Event>)
    requires Inv(cfg, s) && a != b && Pending(cfg, s, a, c) && Pending(cfg, s, b, c)
    ensures Legal(cfg, s, tail) && OnlyFinishes(tail) && !NoTwins(After(cfg, s, tail))
  {
    var putA := PutNow(cfg, s, a, b, c);
    var s1 := After(cfg, s, putA);
    var putB := PutNow(cfg, s1, b, a, c);
    Compose(cfg, s, putA, putB);
    tail := InsertBoth(cfg, s, putA + putB, a, b, c);
  }

  lemma InsertBoth(cfg: Config, s: State, puts: seq<Event>, a: nat, b: nat, c: string) returns (tail: seq<Event>)
    requires Legal(cfg, s, puts) && OnlyFinishes(puts) && a != b
    requires var s2 := After(cfg, s, puts);
      Inv(cfg, s2) && Pending(cfg, s2, a, c) && Pending(cfg, s2, b, c) && s2.ops[a].Stored? && s2.ops[b].Stored?
    ensures Legal(cfg, s, tail) && OnlyFinishes(tail) && !NoTwins(After(cfg, s, tail))
  {
    var e1, e2 := UploadInsert(a, Succeeded), UploadInsert(b, Succeeded);
    var s2 := After(cfg, s, puts);
    BothInsert(cfg, s2, a, b, c);
    Extend(cfg, s, puts, e1);
    assert After(cfg, s, puts + [e1]) == Next(cfg, s2, e1);
    Extend(cfg, s, puts + [e1], e2);
    tail := puts + [e1] + [e2];
  }

  // Wherever the run is cut, the uploads under way can finish without leaving a duplicate.
  ghost predicate CannotDuplicate(cfg: Config, start: State, run: seq<Event>)
    requires Legal(cfg, start, run)
    decreases |run|
  {
    && (forall tail | Legal(cfg, After(cfg, start, run), tail) && OnlyFinishes(tail) ::
        NoTwins(After(cfg, After(cfg, start, run), tail)))
    && (run != [] ==> CannotDuplicate(cfg, start, Front(run)))
  }

  /**
   The exact condition. A run is safe from duplicates, in itself and however the uploads under
   way at any of its moments finish, if and only if at none of its moments two uploads of one
   checksum are between lookup and insert with rows that would still be live.
   */
  lemma {:induction false} DuplicatesComeFromOverlapOnly(cfg: Config, now: Time, run: seq<Event>)
    requires Legal(cfg, Init(now), run)
    ensures AlwaysApart(cfg, Init(now), run) <==> CannotDuplicate(cfg, Init(now), run)
    decreases |run|
  {
    if run != [] { DuplicatesComeFromOverlapOnly(cfg, now, Front(run)); }
    InitInv(cfg, now);
    RunInv(cfg, Init(now), run);
    var s := After(cfg, Init(now), run);
    if AlwaysApart(cfg, Init(now), run) {
      ApartUploadsNeverDuplicate(cfg, now, run);
      forall tail | Legal(cfg, s, tail) && OnlyFinishes(tail)
        ensures NoTwins(After(cfg, s, tail))
      {
        FinishingNeverDuplicates(cfg, s, tail);
      }
    } else if !OnePerChecksum(cfg, s) {
      var a, b, c :| Pending(cfg, s, a, c) && Pending(cfg, s, b, c) && a != b;
      var tail := OverlapCanDuplicate(cfg, s, a, b, c);
    }
  }

  ghost predicate OneUploadAtATime(s: State) {
    forall a, b | a in s.ops && b in s.ops && BetweenLookupAndInsert(s.ops[a]) && BetweenLookupAndInsert(s.ops[b]) ::
        a == b
  }

  // No two uploads are between lookup and insert at once, at any point of the run.
  ghost predicate Sequential(cfg: Config, start: State, run: seq<Event>)
    requires Legal(cfg, start, run)
    decreases |run|
  {
    && OneUploadAtATime(After(cfg, start, run))
    && (run != [] ==> Sequential(cfg, start, Front(run)))
  }

  lemma {:induction false} SequentialIsApart(cfg: Config, start: State, run: seq<Event>)
    requires Legal(cfg, start, run) && Sequential(cfg, start, run)
    ensures AlwaysApart(cfg, start, run)
    decreases |run|
  {
    if run != [] { SequentialIsApart(cfg, start, Front(run)); }
  }

  /** In particular uploads that run one at a time leave at most one live row per checksum. */
  lemma SequentialUploadsNeverDuplicate(cfg: Config, now: Time, run: seq<Event>)
    requires Legal(cfg, Init(now), run) && Sequential(cfg, Init(now), run)
    ensures NoTwins(After(cfg, Init(now), run))
  {
    SequentialIsApart(cfg, Init(now), run);
    ApartUploadsNeverDuplicate(cfg, now, run);
  }

  /** And duplicates do happen: two uploads of one body that both look up before either inserts. */
  lemma ConcurrentUploadsCanDuplicate(cfg: Config, now: Time, body: Bytes)
    requires cfg.ttl > 0
    ensures exists run :: Legal(cfg, Init(now), run) && !NoTwins(After(cfg, Init(now), run))
  {
    var start := Init(now);
    var r1 := [] + [UploadHash(0, body)];
    var r2 := r1 + [UploadHash(1, body)];
    var r3 := r2 + [UploadLookup(0, None)];
    var r4 := r3 + [UploadLookup(1, None)];
    Extend(cfg, start, [], UploadHash(0, body));
    Extend(cfg, start, r1, UploadHash(1, body));
    Extend(cfg, start, r2, UploadLookup(0, None));
    Extend(cfg, start, r3, UploadLookup(1, None));
    InitInv(cfg, now);
    RunInv(cfg, start, r4);
    var tail := OverlapCanDuplicate(cfg, After(cfg, start, r4), 0, 1, cfg.hash(body));
    Compose(cfg, start, r4, tail);
  }
}
