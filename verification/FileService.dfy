/** service.GetInfo and service.DeleteBeforeTTL. */
module FileService {
  import opened Metadata
  import opened Lifecycle
  import opened SharedStorage

  datatype DeleteResult = NotFound | LookupFailed | InvalidDeleteToken | AlreadyExpired | RowDeleteFailed | Deleted

  class Service {
    const cluster: Cluster
    const cachePurger: Purger
    const cachePurgeOn: bool
    const hashToken: string -> string

    constructor (cluster: Cluster, cachePurger: Purger, cachePurgeOn: bool, hashToken: string -> string)
      ensures this.cluster == cluster && this.cachePurger == cachePurger && this.cachePurgeOn == cachePurgeOn
      ensures this.hashToken == hashToken
    {
      this.cluster, this.cachePurger := cluster, cachePurger;
      this.cachePurgeOn, this.hashToken := cachePurgeOn, hashToken;
    }

    // The hash of the token that was given, if one was.
    function Presented(deleteToken: string): Option<string> {
      if deleteToken == "" then None else Some(hashToken(deleteToken))
    }

    // The steps an early delete with this result has taken on the shared storage.
    ghost predicate Follows(me: nat, id: string, token: Option<string>, r: DeleteResult, steps: seq<Event>) {
      match r
      case NotFound => steps == []
      case LookupFailed => steps == []
      case InvalidDeleteToken => steps == [DeleteFind(me, id), Stop(me)]
      case AlreadyExpired => steps == [DeleteFind(me, id), Stop(me)]
      case RowDeleteFailed =>
        && |steps| == 4 && steps[..2] == [DeleteFind(me, id), DeleteCheck(me, token)]
        && steps[2].DeleteObject? && steps[3].DeleteRow? && steps[3].row != Succeeded
      // whatever the object step reported
      case Deleted =>
        && |steps| == 4 && steps[..2] == [DeleteFind(me, id), DeleteCheck(me, token)]
        && steps[2].DeleteObject? && steps[3] == DeleteRow(me, Succeeded)
    }

    // `row` is what the lookup found, `at` the moment of it, as a position in the run, and
    // `checkedAt` the time the expiry was checked against.
    method DeleteBeforeTtl(me: nat, id: string, deleteToken: string)
      returns (r: DeleteResult, ghost row: Option<FileRecord>, ghost steps: seq<Event>, ghost at: nat,
               ghost checkedAt: Time)
      requires cluster.Valid() && me !in cluster.state.ops
      modifies cluster, cachePurger
      ensures cluster.Valid() && me !in cluster.state.ops
      ensures Took(old(cluster.run), cluster.run, me, steps) && Follows(me, id, Presented(deleteToken), r, steps)
      ensures |old(cluster.run)| <= at <= |cluster.run| && Legal(cluster.cfg, Init(cluster.start), cluster.run[..at])
      ensures var files := After(cluster.cfg, Init(cluster.start), cluster.run[..at]).files;
        && (row.Some? ==> row.value.id == id && id in files && files[id] == row.value)
        && (r.NotFound? ==> id !in files)
      ensures row.None? <==> r.NotFound? || r.LookupFailed?
      ensures r.InvalidDeleteToken? <==>
              row.Some? && (deleteToken == "" || row.value.deleteTokenHash == ""
                            || hashToken(deleteToken) != row.value.deleteTokenHash)
      ensures r.Deleted? || r.RowDeleteFailed? ==>
        && deleteToken != "" && row.value.deleteTokenHash != ""
        && hashToken(deleteToken) == row.value.deleteTokenHash
      ensures old(cluster.state.now) <= checkedAt <= cluster.state.now
      ensures r.AlreadyExpired? ==> row.value.expiresAt < checkedAt
      ensures r.Deleted? || r.RowDeleteFailed? ==> checkedAt <= row.value.expiresAt
      ensures r.Deleted? ==> id !in cluster.state.files
      ensures cluster.reliable ==> !r.LookupFailed? && !r.RowDeleteFailed?
      ensures cachePurger.requests == old(cachePurger.requests) +
        if r.Deleted? && cachePurgeOn && row.value.cdnUrl != "" then [[row.value.cdnUrl]] else []
    {
      var found, ok := cluster.FindById(me, id);
      row, steps, at, checkedAt := found, [], |cluster.run|, cluster.state.now;
      ghost var run1 := cluster.run;
      assert cluster.run[..at] == run1;
      if found.None? { return if ok then NotFound else LookupFailed, None, [], at, checkedAt; }
      var record := found.value;
      ghost var tail;
      r, tail, checkedAt := DeleteFound(me, record, Presented(deleteToken));
      assert cluster.run[..at] == run1;
      steps := [DeleteFind(me, id)] + tail;
      TookThen(old(cluster.run), run1, cluster.run, me, [DeleteFind(me, id)], tail);
      TailFollows(me, id, Presented(deleteToken), r, tail);
      if r.Deleted? && cachePurgeOn && record.cdnUrl != "" {
        var purged := cachePurger.PurgeUrls([record.cdnUrl]);
      }
    }

    // The steps after the row was found.
    ghost predicate TailOf(me: nat, token: Option<string>, r: DeleteResult, tail: seq<Event>) {
      match r
      case InvalidDeleteToken => tail == [Stop(me)]
      case AlreadyExpired => tail == [Stop(me)]
      case RowDeleteFailed =>
        |tail| == 3 && tail[0] == DeleteCheck(me, token) && tail[1].DeleteObject? && tail[2].DeleteRow?
            && tail[2].row != Succeeded
      case Deleted =>
        |tail| == 3 && tail[0] == DeleteCheck(me, token) && tail[1].DeleteObject? && tail[2] == DeleteRow(me, Succeeded)
      case _ => false
    }

    lemma TailFollows(me: nat, id: string, token: Option<string>, r: DeleteResult, tail: seq<Event>)
      requires TailOf(me, token, r, tail)
      ensures Follows(me, id, token, r, [DeleteFind(me, id)] + tail)
    {
      var steps := [DeleteFind(me, id)] + tail;
      if |tail| == 3 {
        assert steps[..2] == [DeleteFind(me, id), tail[0]];
      }
    }

    // Check the token and the expiry of the row just read, then delete object and row.
    method DeleteFound(me: nat, record: FileRecord, presented: Option<string>) returns (r: DeleteResult,
                       ghost tail: seq<Event>, ghost checkedAt: Time)
      requires cluster.Valid() && me in cluster.state.ops && cluster.state.ops[me] == Found(record)
      modifies cluster
      ensures cluster.Valid() && me !in cluster.state.ops
      ensures Took(old(cluster.run), cluster.run, me, tail) && TailOf(me, presented, r, tail)
      ensures r.InvalidDeleteToken? <==>
              presented.None? || record.deleteTokenHash == "" || presented.value != record.deleteTokenHash
      ensures old(cluster.state.now) <= checkedAt <= cluster.state.now
      ensures r.AlreadyExpired? ==> record.expiresAt < checkedAt
      ensures r.Deleted? || r.RowDeleteFailed? ==> checkedAt <= record.expiresAt
      ensures r.Deleted? ==> record.id !in cluster.state.files
      ensures cluster.reliable ==> !r.RowDeleteFailed?
    {
      checkedAt := cluster.state.now;
      if !TokenMatches(presented, record.deleteTokenHash) {
        cluster.Mark(me, Stop(me));
        return InvalidDeleteToken, [Stop(me)], checkedAt;
      }
      var now := cluster.Now(me);
      checkedAt := now;
      ghost var run1 := cluster.run;
      if record.IsExpired(now) {
        cluster.Mark(me, Stop(me));
        TookThen(old(cluster.run), run1, cluster.run, me, [], [Stop(me)]);
        return AlreadyExpired, [] + [Stop(me)], checkedAt;
      }
      cluster.Mark(me, DeleteCheck(me, presented));
      TookThen(old(cluster.run), run1, cluster.run, me, [], [DeleteCheck(me, presented)]);
      ghost var run2 := cluster.run;
      var ok;
      ok, tail := RemoveBoth(me);
      TookThen(old(cluster.run), run2, cluster.run, me, [] + [DeleteCheck(me, presented)], tail);
      tail := [] + [DeleteCheck(me, presented)] + tail;
      r := if ok then Deleted else RowDeleteFailed;
    }

    // Delete the object, whatever that reports, then the row.
    method RemoveBoth(me: nat) returns (ok: bool, ghost steps: seq<Event>)
      requires cluster.Valid() && me in cluster.state.ops && cluster.state.ops[me].Checked?
      modifies cluster
      ensures cluster.Valid() && me !in cluster.state.ops && old(cluster.state.now) <= cluster.state.now
      ensures Took(old(cluster.run), cluster.run, me, steps)
      ensures |steps| == 2 && steps[0].DeleteObject? && steps[1].DeleteRow? && (ok <==> steps[1].row == Succeeded)
      ensures steps[1].op == me && (ok ==> old(cluster.state.ops[me].rec.id) !in cluster.state.files)
      ensures cluster.reliable ==> ok
    {
      ghost var delete, row;
      ok, delete := cluster.DeleteObject(me);
      ghost var run1 := cluster.run;
      ok, row := cluster.DeleteById(me);
      steps := [Lifecycle.DeleteObject(me, delete), DeleteRow(me, row)];
      TookThen(old(cluster.run), run1, cluster.run, me, [Lifecycle.DeleteObject(me, delete)], [DeleteRow(me, row)]);
    }

    // GetInfo: the row as it was at moment `at`, and whether it is past its expiry.
    method GetInfo(me: nat, id: string) returns (found: Option<FileRecord>, expired: bool, ok: bool, ghost at: nat)
      requires cluster.Valid() && me !in cluster.state.ops
      modifies cluster
      ensures cluster.Valid() && Took(old(cluster.run), cluster.run, me, [])
      ensures |old(cluster.run)| <= at <= |cluster.run| && Legal(cluster.cfg, Init(cluster.start), cluster.run[..at])
      ensures var files := After(cluster.cfg, Init(cluster.start), cluster.run[..at]).files;
        && (found.Some? ==> ok && found.value.id == id && id in files && files[id] == found.value)
        && (found.None? && ok ==> id !in files)
      ensures found.Some? ==> (expired <==> cluster.state.now > found.value.expiresAt)
      ensures cluster.reliable ==> ok
    {
      found, ok := cluster.ReadById(me, id);
      expired, at := false, |cluster.run|;
      ghost var run1 := cluster.run;
      assert cluster.run[..at] == run1;
      if found.Some? {
        var now := cluster.Now(me);
        TookThen(old(cluster.run), run1, cluster.run, me, [], []);
        assert cluster.run[..at] == run1;
        expired := found.value.IsExpired(now);
      }
    }
  }
}
