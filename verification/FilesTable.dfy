/** The `files` table: what its queries select, and the selections themselves. */
module FilesTable {
  import opened Metadata

  type Table = map<string, FileRecord>

  // Rows are stored under their primary key.
  ghost predicate Keyed(t: Table) {
    forall id | id in t :: t[id].id == id
  }

  // WHERE expires_at > now
  function Active(t: Table, now: Time): Table {
    map id | id in t && t[id].expiresAt > now :: t[id]
  }

  // WHERE expires_at <= before
  function ExpiredIds(t: Table, before: Time): set<string> {
    set id | id in t && t[id].expiresAt <= before
  }

  // The rows FindActiveByChecksum chooses from.
  predicate Matches(r: FileRecord, checksum: string, now: Time) {
    r.checksum == checksum && r.expiresAt > now
  }

  predicate NoneActive(t: Table, checksum: string, now: Time) {
    forall id | id in t :: !Matches(t[id], checksum, now)
  }

  // ORDER BY created_at DESC LIMIT 1 leaves ties open.
  predicate LatestActive(t: Table, checksum: string, now: Time, r: FileRecord) {
    && r.id in t && t[r.id] == r && Matches(r, checksum, now)
    && forall id | id in t && Matches(t[id], checksum, now) :: t[id].createdAt <= r.createdAt
  }

  predicate LookupAnswer(t: Table, checksum: string, now: Time, found: Option<FileRecord>) {
    match found
    case None => NoneActive(t, checksum, now)
    case Some(r) => LatestActive(t, checksum, now, r)
  }

  function Min(a: nat, b: nat): nat {
    if a < b then a else b
  }

  // WHERE expires_at <= before ORDER BY expires_at ASC LIMIT limit, as a set of ids: ties
  // at the cut may fall either way.
  ghost predicate OldestBatch(t: Table, before: Time, limit: nat, batch: set<string>) {
    var expired := ExpiredIds(t, before);
    && batch <= expired
    && |batch| == Min(limit, |expired|)
    && forall b, x | b in batch && x in expired - batch :: t[b].expiresAt <= t[x].expiresAt
  }

  // The query behind FindActiveByChecksum.
  method SelectLatestActive(t: Table, checksum: string, now: Time) returns (found: Option<FileRecord>)
    requires Keyed(t)
    ensures LookupAnswer(t, checksum, now, found)
    ensures found.None? ==> forall id | id in t :: t[id].checksum != checksum || t[id].expiresAt <= now
    ensures found.Some? ==>
      var r := found.value;
      && r.id in t && t[r.id] == r && r.checksum == checksum && r.expiresAt > now
      && forall id | id in t && t[id].checksum == checksum && t[id].expiresAt > now :: t[id].createdAt <= r.createdAt
  {
    found := None;
    var rest := t.Keys;
    while rest != {}
      invariant rest <= t.Keys
      invariant LookupAnswer(map id | id in t && id !in rest :: t[id], checksum, now, found)
    {
      var id :| id in rest;
      rest := rest - {id};
      if Matches(t[id], checksum, now) && (found.None? || found.value.createdAt < t[id].createdAt) {
        found := Some(t[id]);
      }
    }
    assert (map id | id in t && id !in rest :: t[id]) == t;
  }

  function Ids(batch: seq<FileRecord>): set<string> {
    set r | r in batch :: r.id
  }

  // Rows of the table, oldest first, no row twice.
  ghost predicate InOrder(t: Table, batch: seq<FileRecord>) {
    && (forall i | 0 <= i < |batch| :: batch[i].id in t && t[batch[i].id] == batch[i])
    && (forall i, j | 0 <= i < j < |batch| :: batch[i].id != batch[j].id && batch[i].expiresAt <= batch[j].expiresAt)
  }

  // Expired rows nobody holds, oldest first, each once; one is left out only by a full batch of
  // rows no later than it.
  ghost predicate OldestFirst(t: Table, before: Time, limit: nat, locked: set<string>, batch: seq<FileRecord>) {
    && |batch| <= limit
    && (forall i | 0 <= i < |batch| ::
          batch[i].id in t && t[batch[i].id] == batch[i] && batch[i].id !in locked && batch[i].expiresAt <= before)
    && (forall i, j | 0 <= i < j < |batch| :: batch[i].id != batch[j].id && batch[i].expiresAt <= batch[j].expiresAt)
    && (forall id | id in t && id !in locked && t[id].expiresAt <= before && t[id] !in batch ::
          |batch| == limit && forall r | r in batch :: r.expiresAt <= t[id].expiresAt)
  }

  // The query behind FindExpired; rows in `locked` are held by another transaction and skipped.
  method SelectExpired(t: Table, before: Time, limit: nat, locked: set<string>) returns (batch: seq<FileRecord>)
    requires Keyed(t)
    ensures OldestFirst(t, before, limit, locked, batch)
    ensures InOrder(t, batch) && OldestBatch(t - locked, before, limit, Ids(batch))
    ensures |batch| <= limit && forall r | r in batch :: r.expiresAt <= before
  {
    batch := [];
    var visible := t - locked;
    var rest := ExpiredIds(visible, before);
    ghost var expired := rest;
    while rest != {} && |batch| < limit
      invariant rest <= expired && Ids(batch) == expired - rest
      invariant |Ids(batch)| == |batch| <= limit
      invariant InOrder(visible, batch)
      invariant forall r, x | r in batch && x in rest :: r.expiresAt <= visible[x].expiresAt
      decreases rest
    {
      var oldest := EarliestOf(visible, rest);
      TakeOldest(visible, expired, rest, batch, oldest);
      batch := batch + [visible[oldest]];
      rest := rest - {oldest};
    }
    OldestTaken(t, visible, before, limit, rest, batch);
    NothingElseTaken(t, before, limit, locked, rest, batch);
  }

  lemma NothingElseTaken(t: Table, before: Time, limit: nat, locked: set<string>, rest: set<string>,
                         batch: seq<FileRecord>)
    requires Keyed(t) && InOrder(t - locked, batch) && Ids(batch) == ExpiredIds(t - locked, before) - rest
    requires rest <= ExpiredIds(t - locked, before) && |batch| <= limit && (rest == {} || |batch| == limit)
    requires forall r | r in batch :: r.expiresAt <= before
    requires forall r, x | r in batch && x in rest :: r.expiresAt <= (t - locked)[x].expiresAt
    ensures OldestFirst(t, before, limit, locked, batch)
  {
    var visible := t - locked;
    forall i | 0 <= i < |batch|
      ensures batch[i].id in visible && visible[batch[i].id] == batch[i] && batch[i].expiresAt <= before
    {
      assert batch[i] in batch;
    }
    forall id | id in t && id !in locked && t[id].expiresAt <= before && t[id] !in batch
      ensures |batch| == limit && forall r | r in batch :: r.expiresAt <= t[id].expiresAt
    {
      LeftOut(visible, ExpiredIds(visible, before), rest, batch, id);
    }
  }

  lemma LeftOut(visible: Table, expired: set<string>, rest: set<string>, batch: seq<FileRecord>, id: string)
    requires Keyed(visible) && expired <= visible.Keys && id in expired && Ids(batch) == expired - rest
    requires InOrder(visible, batch)
    ensures id in rest || visible[id] in batch
  {
    if id in Ids(batch) {
      var r :| r in batch && r.id == id;
      assert visible[r.id] == r;
    }
  }

  lemma OldestTaken(t: Table, visible: Table, before: Time, limit: nat, rest: set<string>, batch: seq<FileRecord>)
    requires visible.Keys <= t.Keys && (forall id | id in visible :: visible[id] == t[id]) && Keyed(t)
    requires InOrder(visible, batch) && Ids(batch) == ExpiredIds(visible, before) - rest
    requires rest <= ExpiredIds(visible, before)
    requires |Ids(batch)| == |batch| <= limit && (rest == {} || |batch| == limit)
    requires forall r, x | r in batch && x in rest :: r.expiresAt <= visible[x].expiresAt
    ensures InOrder(t, batch) && OldestBatch(visible, before, limit, Ids(batch))
    ensures forall r | r in batch :: r.expiresAt <= before
  {
    var expired := ExpiredIds(visible, before);
    Counted(expired, Ids(batch), rest);
    forall r | r in batch
      ensures r.id in expired && visible[r.id] == r
    {
      assert r.id in Ids(batch);
    }
    forall b, x | b in Ids(batch) && x in expired - Ids(batch)
      ensures visible[b].expiresAt <= visible[x].expiresAt
    {
      var r :| r in batch && r.id == b;
      assert x in rest;
    }
  }

  lemma TakeOldest(t: Table, expired: set<string>, rest: set<string>, batch: seq<FileRecord>, oldest: string)
    requires Keyed(t) && rest <= expired <= t.Keys && oldest in rest && Ids(batch) == expired - rest
    requires |Ids(batch)| == |batch|
    requires InOrder(t, batch) && forall r, x | r in batch && x in rest :: r.expiresAt <= t[x].expiresAt
    ensures var more := batch + [t[oldest]];
      InOrder(t, more) && Ids(more) == expired - (rest - {oldest}) && |Ids(more)| == |more|
    ensures forall x | x in rest :: t[oldest].expiresAt <= t[x].expiresAt ==>
      forall r | r in batch + [t[oldest]] :: r.expiresAt <= t[x].expiresAt
  {
    IdsOfMore(batch, t[oldest]);
    assert oldest !in Ids(batch);
    OneMoreInOrder(t, batch, oldest);
  }

  lemma OneMoreInOrder(t: Table, batch: seq<FileRecord>, oldest: string)
    requires Keyed(t) && InOrder(t, batch) && oldest in t && oldest !in Ids(batch)
    requires forall r | r in batch :: r.expiresAt <= t[oldest].expiresAt
    ensures InOrder(t, batch + [t[oldest]])
  {
    forall i | 0 <= i < |batch|
      ensures batch[i].id != oldest && batch[i].expiresAt <= t[oldest].expiresAt
    {
      assert batch[i] in batch && batch[i].id in Ids(batch);
    }
  }

  lemma IdsOfMore(batch: seq<FileRecord>, r: FileRecord)
    ensures Ids(batch + [r]) == Ids(batch) + {r.id}
  {
    assert forall x :: x in batch + [r] <==> x in batch || x == r;
  }

  lemma Counted(all: set<string>, taken: set<string>, rest: set<string>)
    requires rest <= all && taken == all - rest
    ensures |all| == |taken| + |rest|
  {
    assert all == taken + rest;
  }

  method EarliestOf(t: Table, ids: set<string>) returns (oldest: string)
    requires ids != {} && ids <= t.Keys
    ensures oldest in ids && forall x | x in ids :: t[oldest].expiresAt <= t[x].expiresAt
  {
    oldest :| oldest in ids;
    var rest := ids - {oldest};
    while rest != {}
      invariant rest <= ids && oldest in ids
      invariant forall x | x in ids - rest :: t[oldest].expiresAt <= t[x].expiresAt
    {
      var id :| id in rest;
      rest := rest - {id};
      if t[id].expiresAt < t[oldest].expiresAt { oldest := id; }
    }
  }
}
