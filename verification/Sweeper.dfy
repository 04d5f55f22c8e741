/** sweeper.sweepOnce: one pass over a batch of expired rows. */
module Sweeper {
  import opened Metadata
  import opened FilesTable
  import opened Lifecycle
  import opened SharedStorage

  // How a sweep fared with one record: the object could not be deleted and the row was left
  // alone, or the object went and the deletion of the row was tried.
  datatype Try = ObjectFailed(delete: Outcome) | RowTried(row: Outcome) {
    predicate Possible() {
      ObjectFailed? ==> delete != Succeeded
    }
  }

  function StepsOf(me: nat, t: Try): seq<Event> {
    match t
    case ObjectFailed(delete) => [SweepObject(me, delete)]
    case RowTried(row) => [SweepObject(me, Succeeded), SweepRow(me, row)]
  }

  // The storage calls of the loop over a batch that fared so.
  function LoopSteps(me: nat, tries: seq<Try>): seq<Event> {
    if tries == [] then [] else LoopSteps(me, tries[..|tries| - 1]) + StepsOf(me, tries[|tries| - 1])
  }

  // Rows that are gone after those calls, if nothing else happened meanwhile.
  function Removed(batch: seq<FileRecord>, tries: seq<Try>): set<string>
    requires |tries| <= |batch|
  {
    set i | 0 <= i < |tries| && tries[i].RowTried? && tries[i].row.Applied() :: batch[i].id
  }

  // Keys of the objects that are gone.
  function RemovedKeys(batch: seq<FileRecord>, tries: seq<Try>): set<string>
    requires |tries| <= |batch|
  {
    set i | 0 <= i < |tries| && tries[i] != ObjectFailed(FailedClean) :: batch[i].objectKey
  }

  // The state `s'` after a loop over `batch` that began in `s` and fared so.
  ghost predicate Swept(s: State, s': State, me: nat, at: Time, batch: seq<FileRecord>, tries: seq<Try>)
    requires |tries| <= |batch|
  {
    && s'.files == s.files - Removed(batch, tries) && s'.objects == s.objects - RemovedKeys(batch, tries)
    && s'.now == s.now && me in s'.ops && s'.ops[me] == Sweeping(at, batch[|tries|..], false)
  }

  lemma {:induction false} LoopRemoves(cfg: Config, s: State, me: nat, batch: seq<FileRecord>, tries: seq<Try>)
    requires me in s.ops && s.ops[me].Sweeping? && s.ops[me].rest == batch && !s.ops[me].removed
    requires |tries| <= |batch| && forall t | t in tries :: t.Possible()
    ensures Legal(cfg, s, LoopSteps(me, tries))
    ensures Swept(s, After(cfg, s, LoopSteps(me, tries)), me, s.ops[me].at, batch, tries)
    decreases |tries|
  {
    if tries == [] {
      assert s.files - {} == s.files && s.objects - {} == s.objects;
    } else {
      var last := |tries| - 1;
      var front := LoopSteps(me, tries[..last]);
      LoopRemoves(cfg, s, me, batch, tries[..last]);
      assert tries[last] in tries;
      LoopGoesOn(cfg, s, me, s.ops[me].at, batch, tries, After(cfg, s, front));
      Compose(cfg, s, front, StepsOf(me, tries[last]));
    }
  }

  lemma LoopGoesOn(cfg: Config, s: State, me: nat, at: Time, batch: seq<FileRecord>, tries: seq<Try>, s1: State)
    requires 0 < |tries| <= |batch| && tries[|tries| - 1].Possible()
    requires Swept(s, s1, me, at, batch, tries[..|tries| - 1])
    ensures Legal(cfg, s1, StepsOf(me, tries[|tries| - 1]))
    ensures Swept(s, After(cfg, s1, StepsOf(me, tries[|tries| - 1])), me, at, batch, tries)
  {
    var last := |tries| - 1;
    TryEffect(cfg, s1, me, tries[last]);
    var s2 := After(cfg, s1, StepsOf(me, tries[last]));
    OneMoreRow(s.files, batch, tries, s1.files, s2.files);
    OneMoreObject(s.objects, batch, tries, s1.objects, s2.objects);
    assert batch[last..][1..] == batch[|tries|..];
  }

  /** The loop is a run of the protocol, and running alone it removes exactly the rows and the
      objects of the records whose deletes took effect. */
  lemma LoopEffect(cfg: Config, s: State, me: nat, batch: seq<FileRecord>, tries: seq<Try>)
    requires me in s.ops && s.ops[me].Sweeping? && s.ops[me].rest == batch && !s.ops[me].removed
    requires |tries| <= |batch| && forall t | t in tries :: t.Possible()
    ensures Legal(cfg, s, LoopSteps(me, tries))
    ensures var s' := After(cfg, s, LoopSteps(me, tries));
      && s'.files == s.files - (set i | 0 <= i < |tries| && tries[i].RowTried? && tries[i].row != FailedClean ::
                                batch[i].id)
      && s'.objects == s.objects - (set i | 0 <= i < |tries| && tries[i] != ObjectFailed(FailedClean) ::
                                    batch[i].objectKey)
      && s'.now == s.now && me in s'.ops && s'.ops[me] == Sweeping(s.ops[me].at, batch[|tries|..], false)
  {
    LoopRemoves(cfg, s, me, batch, tries);
    assert Removed(batch, tries)
        == set i | 0 <= i < |tries| && tries[i].RowTried? && tries[i].row != FailedClean :: batch[i].id;
    assert RemovedKeys(batch, tries)
        == set i | 0 <= i < |tries| && tries[i] != ObjectFailed(FailedClean) :: batch[i].objectKey;
  }

  lemma OneMoreRow(files: Table, batch: seq<FileRecord>, tries: seq<Try>, f1: Table, f2: Table)
    requires 0 < |tries| <= |batch|
    requires f1 == files - Removed(batch, tries[..|tries| - 1])
    requires var last := |tries| - 1;
      f2 == if tries[last].RowTried? && tries[last].row.Applied() then Without(f1, batch[last].id) else f1
    ensures f2 == files - Removed(batch, tries)
  {
    var last := |tries| - 1;
    var more := if tries[last].RowTried? && tries[last].row.Applied() then {batch[last].id} else {};
    assert Removed(batch, tries) == Removed(batch, tries[..last]) + more;
  }

  lemma OneMoreObject(objects: map<string, Bytes>, batch: seq<FileRecord>, tries: seq<Try>, o1: map<string, Bytes>,
                      o2: map<string, Bytes>)
    requires 0 < |tries| <= |batch|
    requires o1 == objects - RemovedKeys(batch, tries[..|tries| - 1])
    requires var last := |tries| - 1;
      o2 == if tries[last] == ObjectFailed(FailedClean) then o1 else Without(o1, batch[last].objectKey)
    ensures o2 == objects - RemovedKeys(batch, tries)
  {
    var last := |tries| - 1;
    var more := if tries[last] == ObjectFailed(FailedClean) then {} else {batch[last].objectKey};
    assert RemovedKeys(batch, tries) == RemovedKeys(batch, tries[..last]) + more;
  }

  lemma TryEffect(cfg: Config, s: State, me: nat, t: Try)
    requires me in s.ops && s.ops[me].Sweeping? && s.ops[me].rest != [] && !s.ops[me].removed && t.Possible()
    ensures Legal(cfg, s, StepsOf(me, t))
    ensures var s', head := After(cfg, s, StepsOf(me, t)), s.ops[me].rest[0];
      && s'.files == (if t.RowTried? && t.row.Applied() then Without(s.files, head.id) else s.files)
      && s'.objects == (if t == ObjectFailed(FailedClean) then s.objects else Without(s.objects, head.objectKey))
      && s'.now == s.now
      && me in s'.ops && s'.ops[me] == Sweeping(s.ops[me].at, s.ops[me].rest[1..], false)
  {
    match t
    case ObjectFailed(delete) =>
      Extend(cfg, s, [], SweepObject(me, delete));
      assert [] + [SweepObject(me, delete)] == StepsOf(me, t);
    case RowTried(row) =>
      Extend(cfg, s, [], SweepObject(me, Succeeded));
      Extend(cfg, s, [] + [SweepObject(me, Succeeded)], SweepRow(me, row));
      assert [] + [SweepObject(me, Succeeded)] + [SweepRow(me, row)] == StepsOf(me, t);
  }

  // The positions of the records deleted.
  function DeletedAt(tries: seq<Try>): set<int> {
    set i | 0 <= i < |tries| && tries[i] == RowTried(Succeeded)
  }

  lemma OneMoreDeleted(tries: seq<Try>, t: Try)
    ensures |DeletedAt(tries + [t])| == |DeletedAt(tries)| + if t == RowTried(Succeeded) then 1 else 0
  {
    assert DeletedAt(tries + [t]) == DeletedAt(tries) + if t == RowTried(Succeeded) then {|tries|} else {};
  }

  // `urls` are the URLs of the records at `purged`: those deleted so far that have one, in order.
  ghost predicate Collected(batch: seq<FileRecord>, tries: seq<Try>, purged: seq<int>, urls: seq<string>) {
    && |tries| <= |batch| && |urls| == |purged|
    && (forall j, k | 0 <= j < k < |purged| :: purged[j] < purged[k])
    && (forall k | 0 <= k < |purged| ::
          && 0 <= purged[k] < |tries| && tries[purged[k]] == RowTried(Succeeded)
          && batch[purged[k]].cdnUrl != "" && urls[k] == batch[purged[k]].cdnUrl)
    && (forall i | 0 <= i < |tries| && tries[i] == RowTried(Succeeded) && batch[i].cdnUrl != "" :: i in purged)
  }

  lemma OneMoreTry(me: nat, tries: seq<Try>, t: Try)
    ensures LoopSteps(me, tries + [t]) == LoopSteps(me, tries) + StepsOf(me, t)
  {
    assert (tries + [t])[..|tries|] == tries;
  }

  lemma OneMoreCollected(batch: seq<FileRecord>, tries: seq<Try>, purged: seq<int>, urls: seq<string>, t: Try)
    requires Collected(batch, tries, purged, urls) && |tries| < |batch|
    ensures var i := |tries|;
      if t == RowTried(Succeeded) && batch[i].cdnUrl != ""
      then Collected(batch, tries + [t], purged + [i], urls + [batch[i].cdnUrl])
      else Collected(batch, tries + [t], purged, urls)
  {
    if t == RowTried(Succeeded) && batch[|tries|].cdnUrl != "" {
      var more := purged + [|tries|];
      assert forall i | i in purged :: i in more;
      assert more[|purged|] == |tries|;
    }
  }

  lemma Concatenated(run: seq<Event>, first: seq<Event>, rest: seq<Event>)
    ensures (run + first) + rest == run + (first + rest)
  {
  }

  lemma TwoSteps(run0: seq<Event>, run1: seq<Event>, run2: seq<Event>, me: nat, first: Event, second: Event)
    requires Took(run0, run1, me, [first]) && Took(run1, run2, me, [second])
    ensures Took(run0, run2, me, [first, second])
  {
    TookThen(run0, run1, run2, me, [first], [second]);
    assert [first] + [second] == [first, second];
  }

  class Service {
    const cluster: Cluster
    const cachePurger: Purger
    const cachePurgeOn: bool

    constructor (cluster: Cluster, cachePurger: Purger, cachePurgeOn: bool)
      ensures this.cluster == cluster && this.cachePurger == cachePurger && this.cachePurgeOn == cachePurgeOn
    {
      this.cluster, this.cachePurger, this.cachePurgeOn := cluster, cachePurger, cachePurgeOn;
    }

    // One tick. `found` says whether the query succeeded, `batch` what it returned, `tries` how each
    // record fared; `purged` are the positions, in order, of the records deleted that have a URL.
    method SweepOnce(me: nat, locked: set<string>)
      returns (found: bool, batch: seq<FileRecord>, deletedCount: nat, ghost tries: seq<Try>, ghost purged: seq<int>)
      requires cluster.Valid() && me !in cluster.state.ops
      modifies cluster, cachePurger
      ensures cluster.Valid() && me !in cluster.state.ops
      ensures |tries| == |batch| <= 100 && forall t | t in tries :: t.Possible()
      ensures !found ==> batch == [] && Took(old(cluster.run), cluster.run, me, [SweepBegin(me), Stop(me)])
      ensures found ==>
        Took(old(cluster.run), cluster.run, me, [SweepBegin(me), SweepFind(me, batch)] + LoopSteps(me, tries)
            + [Stop(me)])
      ensures cluster.reliable ==> found && forall i | 0 <= i < |tries| :: tries[i] == RowTried(Succeeded)
      ensures deletedCount == |set i | 0 <= i < |tries| && tries[i] == RowTried(Succeeded)|
      ensures forall j, k | 0 <= j < k < |purged| :: purged[j] < purged[k]
      ensures forall k | 0 <= k < |purged| ::
        0 <= purged[k] < |batch| && tries[purged[k]] == RowTried(Succeeded) && batch[purged[k]].cdnUrl != ""
      ensures forall i | 0 <= i < |batch| && tries[i] == RowTried(Succeeded) && batch[i].cdnUrl != "" :: i in purged
      ensures if cachePurgeOn && purged != [] then
                var n := |old(cachePurger.requests)|;
                && |cachePurger.requests| == n + 1 && cachePurger.requests[..n] == old(cachePurger.requests)
                && |cachePurger.requests[n]| == |purged|
                && forall k | 0 <= k < |purged| :: cachePurger.requests[n][k] == batch[purged[k]].cdnUrl
              else cachePurger.requests == old(cachePurger.requests)
      // left alone, it takes the hundred oldest expired rows and removes those it could
      ensures old(cluster.others) == [] && found ==>
        && OldestFirst(old(cluster.state.files), old(cluster.state.now), 100, locked, batch)
        && cluster.state.files
           == old(cluster.state.files)
             - (set i | 0 <= i < |tries| && tries[i].RowTried? && tries[i].row != FailedClean :: batch[i].id)
    {
      deletedCount, tries, purged := 0, [], [];
      var now;
      ghost var seen;
      now, batch, found, seen := Draw(me, locked);
      assert DeletedAt([]) == {};
      if !found { return; }

      ghost var run1, head := cluster.run, [SweepBegin(me), SweepFind(me, batch)];
      var purgeUrls;
      deletedCount, purgeUrls, tries, purged := SweepBatch(me, batch, now);
      TookThen(old(cluster.run), run1, cluster.run, me, head, LoopSteps(me, tries) + [Stop(me)]);
      Concatenated(head, LoopSteps(me, tries), [Stop(me)]);
      if cachePurgeOn && |purgeUrls| > 0 {
        var accepted := cachePurger.PurgeUrls(purgeUrls);
      }
    }

    // The clock and the query.
    method Draw(me: nat, locked: set<string>) returns (now: Time, batch: seq<FileRecord>, found: bool,
                ghost seen: Table)
      requires cluster.Valid() && me !in cluster.state.ops
      modifies cluster
      ensures cluster.Valid() && |batch| <= BATCH_SIZE && (cluster.reliable ==> found)
      ensures Took(old(cluster.run), cluster.run, me, [SweepBegin(me), FindStep(me, found, batch)])
      ensures if found then me in cluster.state.ops && cluster.state.ops[me] == Sweeping(now, batch, false)
              else batch == [] && me !in cluster.state.ops
      ensures old(cluster.others) == [] ==> cluster.others == [] && cluster.state.files == old(cluster.state.files)
      ensures found ==> OldestFirst(seen, now, 100, locked, batch)
      ensures old(cluster.others) == [] ==> seen == old(cluster.state.files) && now == old(cluster.state.now)
    {
      now := cluster.StartSweep(me);
      ghost var run1 := cluster.run;
      batch, found, seen := cluster.FindExpired(me, now, locked);
      TwoSteps(old(cluster.run), run1, cluster.run, me, SweepBegin(me), FindStep(me, found, batch));
    }

    // The loop over the batch, to the end of the sweep.
    method SweepBatch(me: nat, batch: seq<FileRecord>, now: Time)
      returns (deletedCount: nat, purgeUrls: seq<string>, ghost tries: seq<Try>, ghost purged: seq<int>)
      requires cluster.Valid() && me in cluster.state.ops && cluster.state.ops[me] == Sweeping(now, batch, false)
      modifies cluster
      ensures cluster.Valid() && |tries| == |batch| && forall t | t in tries :: t.Possible()
      ensures Took(old(cluster.run), cluster.run, me, LoopSteps(me, tries) + [Stop(me)]) && me !in cluster.state.ops
      ensures cluster.reliable ==> forall i | 0 <= i < |tries| :: tries[i] == RowTried(Succeeded)
      ensures deletedCount == |set i | 0 <= i < |tries| && tries[i] == RowTried(Succeeded)|
      ensures forall j, k | 0 <= j < k < |purged| :: purged[j] < purged[k]
      ensures forall k | 0 <= k < |purged| ::
        0 <= purged[k] < |batch| && tries[purged[k]] == RowTried(Succeeded) && batch[purged[k]].cdnUrl != ""
      ensures forall i | 0 <= i < |batch| && tries[i] == RowTried(Succeeded) && batch[i].cdnUrl != "" :: i in purged
      ensures |purgeUrls| == |purged| && forall k | 0 <= k < |purged| :: purgeUrls[k] == batch[purged[k]].cdnUrl
      ensures old(cluster.others) == [] ==>
        && cluster.state.files
           == old(cluster.state.files)
             - (set i | 0 <= i < |tries| && tries[i].RowTried? && tries[i].row != FailedClean :: batch[i].id)
        && cluster.state.objects
           == old(cluster.state.objects)
             - (set i | 0 <= i < |tries| && tries[i] != ObjectFailed(FailedClean) :: batch[i].objectKey)
    {
      deletedCount, purgeUrls, tries, purged := SweepAll(me, batch, now);
      if old(cluster.others) == [] {
        LoopEffect(cluster.cfg, old(cluster.state), me, batch, tries);
        Compose(cluster.cfg, Init(cluster.start), old(cluster.run), LoopSteps(me, tries));
      }
      ghost var run1 := cluster.run;
      cluster.Mark(me, Stop(me));
      TookThen(old(cluster.run), run1, cluster.run, me, LoopSteps(me, tries), [Stop(me)]);
    }

    // The loop itself.
    method SweepAll(me: nat, batch: seq<FileRecord>, now: Time)
      returns (deletedCount: nat, purgeUrls: seq<string>, ghost tries: seq<Try>, ghost purged: seq<int>)
      requires cluster.Valid() && me in cluster.state.ops && cluster.state.ops[me] == Sweeping(now, batch, false)
      modifies cluster
      ensures cluster.Valid() && |tries| == |batch| && forall t | t in tries :: t.Possible()
      ensures Took(old(cluster.run), cluster.run, me, LoopSteps(me, tries))
      ensures me in cluster.state.ops && cluster.state.ops[me] == Sweeping(now, [], false)
      ensures cluster.reliable ==> forall i | 0 <= i < |tries| :: tries[i] == RowTried(Succeeded)
      ensures deletedCount == |DeletedAt(tries)| && Collected(batch, tries, purged, purgeUrls)
      ensures old(cluster.others) == [] ==> cluster.run == old(cluster.run) + LoopSteps(me, tries)
    {
      deletedCount, purgeUrls, tries, purged := 0, [], [], [];
      assert batch[0..] == batch;
      for i := 0 to |batch|
        invariant cluster.Valid() && |tries| == i && forall t | t in tries :: t.Possible()
        invariant Took(old(cluster.run), cluster.run, me, LoopSteps(me, tries))
        invariant me in cluster.state.ops && cluster.state.ops[me] == Sweeping(now, batch[i..], false)
        invariant cluster.reliable ==> forall j | 0 <= j < i :: tries[j] == RowTried(Succeeded)
        invariant deletedCount == |DeletedAt(tries)| && Collected(batch, tries, purged, purgeUrls)
        invariant old(cluster.others) == [] ==>
          cluster.others == [] && cluster.run == old(cluster.run) + LoopSteps(me, tries)
      {
        ghost var run1, tries1 := cluster.run, tries;
        var done, result := SweepRecord(me);
        OneMoreTry(me, tries, result);
        OneMoreDeleted(tries, result);
        OneMoreCollected(batch, tries, purged, purgeUrls, result);
        tries := tries + [result];
        assert batch[i..][1..] == batch[i + 1..];
        TookThen(old(cluster.run), run1, cluster.run, me, LoopSteps(me, tries1), StepsOf(me, result));
        Concatenated(old(cluster.run), LoopSteps(me, tries1), StepsOf(me, result));
        if done {
          deletedCount := deletedCount + 1;
          if batch[i].cdnUrl != "" {
            purgeUrls := purgeUrls + [batch[i].cdnUrl];
            purged := purged + [i];
          }
        }
      }
    }

    // One turn of the loop.
    method SweepRecord(me: nat) returns (done: bool, ghost result: Try)
      requires cluster.Valid() && me in cluster.state.ops && cluster.state.ops[me].Sweeping?
      requires cluster.state.ops[me].rest != [] && !cluster.state.ops[me].removed
      modifies cluster
      ensures cluster.Valid() && result.Possible() && (done <==> result == RowTried(Succeeded))
      ensures cluster.reliable ==> done
      ensures Took(old(cluster.run), cluster.run, me, StepsOf(me, result))
      ensures var was := old(cluster.state.ops[me]);
        me in cluster.state.ops && cluster.state.ops[me] == Sweeping(was.at, was.rest[1..], false)
      ensures old(cluster.others) == [] ==>
        cluster.others == [] && cluster.run == old(cluster.run) + StepsOf(me, result)
    {
      ghost var delete, row;
      done, delete := cluster.SweepDeleteObject(me);
      if !done { return false, ObjectFailed(delete); }
      ghost var run1 := cluster.run;
      done, row := cluster.SweepDeleteById(me);
      TookThen(old(cluster.run), run1, cluster.run, me, [SweepObject(me, Succeeded)], [SweepRow(me, row)]);
      return done, RowTried(row);
    }
  }
}
