/**
 The storage that all instances share, as one operation sees it: before each of its calls the
 other operations of the deployment take any number of steps, and each call may fail. The
 cluster keeps the history of all steps; that it is a run of the protocol is its invariant.
 */
module SharedStorage {
  import opened Metadata
  import opened FilesTable
  import opened ObjectKeys
  import opened Lifecycle
  import opened LifecycleInvariants

  function OpOf(e: Event): Option<nat> {
    if e.Tick? then None else Some(e.op)
  }

  // The steps of one operation within a run.
  function Mine(run: seq<Event>, me: nat): seq<Event>
    decreases |run|
  {
    if run == [] then []
    else Mine(Front(run), me) + (if OpOf(Last(run)) == Some(me) then [Last(run)] else [])
  }

  /** Operation `me` took exactly the events that are its own, in their order. */
  lemma MineIsItsOwnSteps(run: seq<Event>, me: nat, e: Event)
    ensures Mine([], me) == []
    ensures Mine(run + [e], me) == if e.Tick? || e.op != me then Mine(run, me) else Mine(run, me) + [e]
  {
    assert Front(run + [e]) == run && Last(run + [e]) == e;
  }

  // From `before` to `after` operation `me` took exactly the steps `steps`.
  ghost predicate Took(before: seq<Event>, after: seq<Event>, me: nat, steps: seq<Event>) {
    before <= after && Mine(after, me) == Mine(before, me) + steps
  }

  lemma TookThen(run0: seq<Event>, run1: seq<Event>, run2: seq<Event>, me: nat, first: seq<Event>, rest: seq<Event>)
    requires Took(run0, run1, me, first) && Took(run1, run2, me, rest)
    ensures Took(run0, run2, me, first + rest)
  {
    assert Mine(run0, me) + (first + rest) == (Mine(run0, me) + first) + rest;
  }

  // Every key names the id of its file, so keys of different files differ.
  predicate WellKeyed(rec: FileRecord) {
    KeyId(rec.objectKey) == rec.id
  }

  ghost predicate KeysNameIds(minted: Table) {
    forall id | id in minted :: minted[id].id == id && WellKeyed(minted[id])
  }

  predicate PutsWellKeyed(events: seq<Event>) {
    forall i | 0 <= i < |events| && events[i].UploadPut? :: WellKeyed(events[i].rec)
  }

  // A step of another operation leaves ours where it is.
  lemma OthersLeaveUs(cfg: Config, s: State, e: Event, me: nat)
    requires Enabled(cfg, s, e) && OpOf(e) != Some(me)
    ensures me in Next(cfg, s, e).ops <==> me in s.ops
    ensures me in s.ops ==> Next(cfg, s, e).ops[me] == s.ops[me]
  {
  }

  lemma MintedGrows(cfg: Config, s: State, e: Event)
    requires Enabled(cfg, s, e)
    ensures Next(cfg, s, e).minted == if e.UploadPut? then s.minted[e.rec.id := e.rec] else s.minted
    ensures s.now <= Next(cfg, s, e).now
  {
  }

  lemma DrawnIsPossible(t: Table, before: Time, batch: seq<FileRecord>)
    requires InOrder(t, batch) && |batch| <= BATCH_SIZE && forall r | r in batch :: r.expiresAt <= before
    ensures ExpiredBatch(t, before, batch)
  {
    assert forall i | 0 <= i < |batch| :: batch[i] in batch;
  }

  lemma PutEnds(cfg: Config, s: State, me: nat, rec: FileRecord, put: Outcome)
    requires Enabled(cfg, s, UploadPut(me, rec, put))
    ensures var s' := Next(cfg, s, UploadPut(me, rec, put));
      && s'.now == s.now && (me in s'.ops <==> put == Succeeded)
      && (me in s'.ops ==> s'.ops[me].Stored? && s'.ops[me].rec == rec)
  {
  }

  lemma SweepBegins(cfg: Config, s: State, me: nat)
    requires me !in s.ops
    ensures var s' := Next(cfg, s, SweepBegin(me));
      s'.files == s.files && me in s'.ops && s'.ops[me] == Cutoff(s.now)
  {
  }

  lemma FindEffect(cfg: Config, s: State, me: nat, batch: seq<FileRecord>)
    requires me in s.ops && s.ops[me].Cutoff? && ExpiredBatch(s.files, s.ops[me].at, batch)
    ensures var s' := Next(cfg, s, SweepFind(me, batch));
      s'.files == s.files && me in s'.ops && s'.ops[me] == Sweeping(s.ops[me].at, batch, false)
  {
  }

  // The step a sweep takes when its query has answered, or failed.
  function FindStep(me: nat, ok: bool, batch: seq<FileRecord>): Event {
    if ok then SweepFind(me, batch) else Stop(me)
  }

  class Cluster {
    const cfg: Config
    const start: Time
    // No call of the operation at hand fails; others' calls may.
    const reliable: bool
    var state: State
    // What the other operations will try to do, in this order; steps that are not possible
    // when their turn comes do not happen.
    var others: seq<Event>
    ghost var run: seq<Event>

    ghost predicate Valid()
      reads this
    {
      && Legal(cfg, Init(start), run) && state == After(cfg, Init(start), run)
      && KeysNameIds(state.minted) && PutsWellKeyed(others)
    }

    // A UUID nobody else has or will come up with.
    ghost predicate Reserved(id: string)
      reads this
    {
      id !in state.minted && forall i | 0 <= i < |others| && others[i].UploadPut? :: others[i].rec.id != id
    }

    constructor (cfg: Config, start: Time, others: seq<Event>, reliable: bool)
      requires PutsWellKeyed(others)
      ensures Valid() && run == [] && this.others == others && this.cfg == cfg && this.reliable == reliable
    {
      this.cfg, this.start, this.others, this.reliable := cfg, start, others, reliable;
      state := Init(start);
      run := [];
    }

    method Step(e: Event)
      requires Valid() && Enabled(cfg, state, e) && (e.UploadPut? ==> WellKeyed(e.rec))
      modifies this`state, this`run
      ensures Valid() && run == old(run) + [e] && state == Next(cfg, old(state), e)
    {
      Extend(cfg, Init(start), run, e);
      MintedGrows(cfg, state, e);
      state := Next(cfg, state, e);
      run := run + [e];
    }

    // A step of another operation.
    method StepOther(me: nat, e: Event)
      requires Valid() && OpOf(e) != Some(me) && Enabled(cfg, state, e) && (e.UploadPut? ==> WellKeyed(e.rec))
      modifies this`state, this`run
      ensures Valid() && run == old(run) + [e] && Mine(run, me) == Mine(old(run), me)
      ensures me in state.ops <==> me in old(state.ops)
      ensures me in state.ops ==> state.ops[me] == old(state.ops[me])
      ensures state.minted == if e.UploadPut? then old(state.minted)[e.rec.id := e.rec] else old(state.minted)
      ensures old(state.now) <= state.now
    {
      OthersLeaveUs(cfg, state, e, me);
      MintedGrows(cfg, state, e);
      Step(e);
      assert Front(run) == run[..|run| - 1] && Last(run) == e;
    }

    // Time passes and others act.
    method Others(me: nat, ghost id: string)
      requires Valid()
      modifies this
      ensures Valid() && Took(old(run), run, me, [])
      ensures me in state.ops <==> me in old(state.ops)
      ensures me in state.ops ==> state.ops[me] == old(state.ops[me])
      ensures old(state.now) <= state.now
      ensures old(Reserved(id)) ==> Reserved(id)
      ensures old(others) == [] ==> run == old(run) && others == []
    {
      var more := true;
      while others != [] && more
        invariant Valid() && old(run) <= run && Mine(run, me) == Mine(old(run), me)
        invariant me in state.ops <==> me in old(state.ops)
        invariant me in state.ops ==> state.ops[me] == old(state.ops[me])
        invariant old(state.now) <= state.now
        invariant old(Reserved(id)) ==> Reserved(id)
        invariant old(others) == [] ==> run == old(run) && others == []
        decreases |others|
      {
        var e := others[0];
        if OpOf(e) != Some(me) && Enabled(cfg, state, e) {
          StepOther(me, e);
        }
        others := others[1..];
        more := *;
      }
    }

    lemma MineExtends(before: seq<Event>, me: nat, e: Event)
      requires OpOf(e) == Some(me)
      ensures Mine(before + [e], me) == Mine(before, me) + [e]
    {
      assert Front(before + [e]) == before;
    }

    // One storage call of operation `me`.
    method Call(me: nat, e: Event)
      requires Valid() && OpOf(e) == Some(me) && Enabled(cfg, state, e) && (e.UploadPut? ==> WellKeyed(e.rec))
      modifies this`state, this`run
      ensures Valid() && run == old(run) + [e] && state == Next(cfg, old(state), e)
      ensures Mine(run, me) == Mine(old(run), me) + [e]
    {
      MineExtends(run, me, e);
      Step(e);
    }

    // Whatever holds in every reachable state holds here.
    lemma Reachable()
      requires Valid()
      ensures Inv(cfg, state)
    {
      InitInv(cfg, start);
      RunInv(cfg, Init(start), run);
    }

    lemma RowsAreKeyed()
      requires Valid()
      ensures Keyed(state.files)
    {
      Reachable();
    }

    method Outcomes() returns (o: Outcome)
      ensures reliable ==> o == Succeeded
    {
      o := *;
      if reliable { o := Succeeded; }
    }

    method Fails() returns (fails: bool)
      ensures reliable ==> !fails
    {
      fails := *;
      fails := fails && !reliable;
    }

    // time.Now() in an upload whose body has been spooled and hashed.
    method StartUpload(me: nat, body: Bytes, ghost id: string) returns (at: Time)
      requires Valid() && me !in state.ops && Reserved(id)
      modifies this
      ensures Valid() && Reserved(id) && Took(old(run), run, me, [UploadHash(me, body)])
      ensures old(state.now) <= at == state.now && me in state.ops && state.ops[me] == Hashed(body, at)
    {
      Others(me, id);
      at := state.now;
      Call(me, UploadHash(me, body));
    }

    // FindActiveByChecksum; on an error the operation ends.
    method FindActiveByChecksum(me: nat, checksum: string, now: Time, ghost id: string)
      returns (found: Option<FileRecord>, ok: bool)
      requires Valid() && me in state.ops && state.ops[me].Hashed? && Reserved(id)
      requires checksum == cfg.hash(state.ops[me].body) && now == state.ops[me].at
      modifies this
      ensures Valid() && Reserved(id) && old(state.now) <= state.now
      ensures Took(old(run), run, me, [if ok then UploadLookup(me, found) else Stop(me)])
      ensures !ok || found.Some? ==> me !in state.ops
      ensures reliable ==> ok
      // the table is that of the lookup
      ensures ok && found.None? ==>
        forall id | id in state.files :: state.files[id].checksum != checksum || state.files[id].expiresAt <= now
      ensures ok && found.Some? ==>
        var r, t := found.value, state.files;
        && r.id in t && t[r.id] == r && r.checksum == checksum && r.expiresAt > now
        && forall id | id in t && t[id].checksum == checksum && t[id].expiresAt > now :: t[id].createdAt <= r.createdAt
      ensures ok && found.None? ==>
        me in state.ops && state.ops[me].Missed? && state.ops[me].body == old(state.ops[me].body)
            && state.ops[me].at == now
    {
      Others(me, id);
      RowsAreKeyed();
      found := None;
      var fails := Fails();
      if fails {
        Call(me, Stop(me));
        return None, false;
      }
      found := SelectLatestActive(state.files, checksum, now);
      Call(me, UploadLookup(me, found));
      ok := true;
    }

    // PutObject under the key of a new record.
    method PutObject(me: nat, rec: FileRecord) returns (ok: bool, ghost put: Outcome)
      requires Valid() && me in state.ops && state.ops[me].Missed? && Reserved(rec.id) && WellKeyed(rec)
      requires rec.sizeBytes == |state.ops[me].body| && rec.checksum == cfg.hash(state.ops[me].body)
      requires rec.createdAt == state.ops[me].at && rec.expiresAt == rec.createdAt + cfg.ttl
      modifies this
      ensures Valid() && old(state.now) <= state.now
      ensures Took(old(run), run, me, [UploadPut(me, rec, put)]) && (ok <==> put == Succeeded) && (reliable ==> ok)
      ensures ok ==> me in state.ops && state.ops[me].Stored? && state.ops[me].rec == rec
      ensures !ok ==> me !in state.ops
    {
      Others(me, rec.id);
      var outcome := Outcomes();
      PutEnds(cfg, state, me, rec, outcome);
      Call(me, UploadPut(me, rec, outcome));
      ok, put := outcome == Succeeded, outcome;
    }

    method Insert(me: nat) returns (ok: bool, ghost insert: Outcome)
      requires Valid() && me in state.ops && state.ops[me].Stored?
      modifies this
      ensures Valid() && old(state.now) <= state.now
      ensures Took(old(run), run, me, [UploadInsert(me, insert)]) && (ok <==> insert == Succeeded) && (reliable ==> ok)
      ensures ok ==> me !in state.ops
      ensures !ok ==> me in state.ops && state.ops[me].Compensating? && state.ops[me].rec == old(state.ops[me].rec)
    {
      Others(me, "");
      var outcome := Outcomes();
      Call(me, UploadInsert(me, outcome));
      ok, insert := outcome == Succeeded, outcome;
    }

    // DeleteObject after a failed insert; its result is ignored.
    method RemoveAgain(me: nat) returns (ghost delete: Outcome)
      requires Valid() && me in state.ops && state.ops[me].Compensating?
      modifies this
      ensures Valid() && old(state.now) <= state.now
      ensures Took(old(run), run, me, [UploadCompensate(me, delete)]) && me !in state.ops
    {
      Others(me, "");
      var outcome := Outcomes();
      Call(me, UploadCompensate(me, outcome));
      delete := outcome;
    }

    // FindByID: not found, found, or (also None) an error.
    method FindById(me: nat, id: string) returns (found: Option<FileRecord>, ok: bool)
      requires Valid() && me !in state.ops
      modifies this
      ensures Valid() && old(state.now) <= state.now
      ensures found.Some? ==> ok && found.value.id == id && Took(old(run), run, me, [DeleteFind(me, id)])
      ensures found.Some? ==> me in state.ops && state.ops[me] == Found(found.value)
      ensures found.Some? ==> id in state.files && state.files[id] == found.value
      ensures found.None? ==> Took(old(run), run, me, []) && me !in state.ops
      ensures found.None? && ok ==> id !in state.files
      ensures reliable ==> ok
    {
      Others(me, "");
      RowsAreKeyed();
      var fails := Fails();
      if fails { return None, false; }
      if id !in state.files { return None, true; }
      found, ok := Some(state.files[id]), true;
      Call(me, DeleteFind(me, id));
    }

    // FindByID of a request that changes nothing.
    method ReadById(me: nat, id: string) returns (found: Option<FileRecord>, ok: bool)
      requires Valid() && me !in state.ops
      modifies this
      ensures Valid() && Took(old(run), run, me, []) && me !in state.ops
      ensures found.Some? ==> ok && found.value.id == id && id in state.files && state.files[id] == found.value
      ensures found.None? && ok ==> id !in state.files
      ensures old(state.now) <= state.now && (reliable ==> ok)
    {
      Others(me, "");
      RowsAreKeyed();
      var fails := Fails();
      if fails { return None, false; }
      found := if id in state.files then Some(state.files[id]) else None;
      ok := true;
    }

    // time.Now(); the check that follows happens at this instant.
    method Now(me: nat) returns (now: Time)
      requires Valid()
      modifies this
      ensures Valid() && old(state.now) <= now == state.now && Took(old(run), run, me, [])
      ensures me in state.ops <==> me in old(state.ops)
      ensures me in state.ops ==> state.ops[me] == old(state.ops[me])
    {
      Others(me, "");
      now := state.now;
    }

    // The operation goes on without, or ends without, a storage call.
    method Mark(me: nat, e: Event)
      requires Valid() && (e.DeleteCheck? || e.Stop?) && e.op == me && Enabled(cfg, state, e)
      modifies this
      ensures others == old(others) && run == old(run) + [e]
      ensures Valid() && state == Next(cfg, old(state), e) && Took(old(run), run, me, [e])
    {
      Call(me, e);
    }

    method DeleteObject(me: nat) returns (ok: bool, ghost delete: Outcome)
      requires Valid() && me in state.ops && state.ops[me].Checked?
      modifies this
      ensures Valid() && old(state.now) <= state.now
      ensures Took(old(run), run, me, [Lifecycle.DeleteObject(me, delete)]) && (ok <==> delete == Succeeded)
      ensures me in state.ops && state.ops[me] == RowPending(old(state.ops[me].rec), delete == FailedClean)
    {
      Others(me, "");
      var outcome := Outcomes();
      Call(me, Lifecycle.DeleteObject(me, outcome));
      ok, delete := outcome == Succeeded, outcome;
    }

    // DeleteByID of an early delete; a missing row is not an error to its caller.
    method DeleteById(me: nat) returns (ok: bool, ghost row: Outcome)
      requires Valid() && me in state.ops && state.ops[me].RowPending?
      modifies this
      ensures Valid() && old(state.now) <= state.now
      ensures Took(old(run), run, me, [DeleteRow(me, row)]) && (ok <==> row == Succeeded) && (reliable ==> ok)
      ensures me !in state.ops && (ok ==> old(state.ops[me].rec.id) !in state.files)
    {
      Others(me, "");
      var outcome := Outcomes();
      Call(me, DeleteRow(me, outcome));
      ok, row := outcome == Succeeded, outcome;
    }

    method BeginSweep(me: nat)
      requires Valid() && me !in state.ops
      modifies this`state, this`run
      ensures Valid() && run == old(run) + [SweepBegin(me)] && state.files == old(state.files)
      ensures Mine(run, me) == Mine(old(run), me) + [SweepBegin(me)]
      ensures me in state.ops && state.ops[me] == Cutoff(old(state.now))
    {
      SweepBegins(cfg, state, me);
      Call(me, SweepBegin(me));
    }

    // time.Now() of a sweep.
    method StartSweep(me: nat) returns (at: Time)
      requires Valid() && me !in state.ops
      modifies this
      ensures Valid() && Took(old(run), run, me, [SweepBegin(me)]) && old(state.now) <= at
      ensures me in state.ops && state.ops[me] == Cutoff(at)
      ensures old(others) == [] ==> others == [] && run == old(run) + [SweepBegin(me)] && at == old(state.now)
      ensures old(others) == [] ==> state.files == old(state.files)
    {
      Others(me, "");
      at := state.now;
      BeginSweep(me);
    }

    method QueryExpired(before: Time, locked: set<string>) returns (batch: seq<FileRecord>)
      requires Valid()
      ensures ExpiredBatch(state.files, before, batch)
      ensures OldestBatch(state.files - locked, before, BATCH_SIZE, Ids(batch))
      ensures OldestFirst(state.files, before, 100, locked, batch)
    {
      RowsAreKeyed();
      batch := SelectExpired(state.files, before, BATCH_SIZE, locked);
      DrawnIsPossible(state.files, before, batch);
    }

    method TakeBatch(me: nat, batch: seq<FileRecord>)
      requires Valid() && me in state.ops && state.ops[me].Cutoff? && ExpiredBatch(state.files, state.ops[me].at, batch)
      modifies this`state, this`run
      ensures Valid() && run == old(run) + [SweepFind(me, batch)]
      ensures Mine(run, me) == Mine(old(run), me) + [SweepFind(me, batch)]
      ensures state.files == old(state.files)
      ensures me in state.ops && state.ops[me] == Sweeping(old(state.ops[me].at), batch, false)
    {
      FindEffect(cfg, state, me, batch);
      Call(me, SweepFind(me, batch));
    }

    // The answer of the query, or its failure.
    method AnswerExpired(me: nat, before: Time, locked: set<string>) returns (batch: seq<FileRecord>, ok: bool)
      requires Valid() && me in state.ops && state.ops[me] == Cutoff(before)
      modifies this`state, this`run
      ensures Valid() && state.files == old(state.files)
      ensures run == old(run) + [FindStep(me, ok, batch)]
      ensures Mine(run, me) == Mine(old(run), me) + [FindStep(me, ok, batch)]
      ensures if ok then me in state.ops && state.ops[me] == Sweeping(before, batch, false)
              else me !in state.ops && batch == []
      ensures ok ==> |batch| <= BATCH_SIZE && OldestBatch(old(state.files) - locked, before, BATCH_SIZE, Ids(batch))
      ensures ok ==> OldestFirst(old(state.files), before, 100, locked, batch)
      ensures reliable ==> ok
    {
      var fails := Fails();
      ok := !fails;
      if !ok {
        Call(me, Stop(me));
        return [], false;
      }
      batch := QueryExpired(before, locked);
      TakeBatch(me, batch);
    }

    // FindExpired; `locked` are the rows another transaction holds at that moment, and `seen` is
    // the table then.
    method FindExpired(me: nat, before: Time, locked: set<string>) returns (batch: seq<FileRecord>, ok: bool,
                       ghost seen: Table)
      requires Valid() && me in state.ops && state.ops[me] == Cutoff(before)
      modifies this
      ensures Valid() && (!ok ==> batch == []) && |batch| <= BATCH_SIZE && (reliable ==> ok)
      ensures Took(old(run), run, me, [FindStep(me, ok, batch)])
      ensures if ok then me in state.ops && state.ops[me] == Sweeping(before, batch, false) else me !in state.ops
      ensures ok ==> OldestBatch(seen - locked, before, BATCH_SIZE, Ids(batch))
      ensures ok ==> OldestFirst(seen, before, 100, locked, batch)
      ensures seen == state.files
      ensures old(others) == [] ==>
        seen == old(state.files) && others == [] && run == old(run) + [FindStep(me, ok, batch)]
    {
      Others(me, "");
      seen := state.files;
      batch, ok := AnswerExpired(me, before, locked);
    }

    method SweepDeleteObject(me: nat) returns (ok: bool, ghost delete: Outcome)
      requires Valid() && me in state.ops && state.ops[me].Sweeping? && state.ops[me].rest != []
      requires !state.ops[me].removed
      modifies this
      ensures Valid() && Took(old(run), run, me, [SweepObject(me, delete)]) && (ok <==> delete == Succeeded)
      ensures reliable ==> ok
      ensures var was := old(state.ops[me]);
        me in state.ops && state.ops[me] == (if ok then Sweeping(was.at, was.rest, true)
            else Sweeping(was.at, was.rest[1..], false))
      ensures old(others) == [] ==> others == [] && run == old(run) + [SweepObject(me, delete)]
    {
      Others(me, "");
      var outcome := Outcomes();
      Call(me, SweepObject(me, outcome));
      ok, delete := outcome == Succeeded, outcome;
    }

    // DeleteByID of a sweep; a missing row is not an error to its caller.
    method SweepDeleteById(me: nat) returns (ok: bool, ghost row: Outcome)
      requires Valid() && me in state.ops && state.ops[me].Sweeping? && state.ops[me].rest != []
      requires state.ops[me].removed
      modifies this
      ensures Valid() && Took(old(run), run, me, [SweepRow(me, row)]) && (ok <==> row == Succeeded)
      ensures reliable ==> ok
      ensures var was := old(state.ops[me]); me in state.ops && state.ops[me] == Sweeping(was.at, was.rest[1..], false)
      ensures old(others) == [] ==> others == [] && run == old(run) + [SweepRow(me, row)]
    {
      Others(me, "");
      var outcome := Outcomes();
      Call(me, SweepRow(me, outcome));
      ok, row := outcome == Succeeded, outcome;
    }
  }

  // The Cloudflare client: the batches of URLs it was asked to purge. Purging may fail.
  class Purger {
    var requests: seq<seq<string>>

    method PurgeUrls(urls: seq<string>) returns (ok: bool)
      modifies this
      ensures requests == old(requests) + [urls]
    {
      requests := requests + [urls];
      ok := *;
    }
  }
}
