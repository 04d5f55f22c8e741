/** Repository.Stats, and on which rows its answer and that of the dedup lookup depend. */
module FileStats {
  import opened Metadata
  import opened FilesTable
  import opened Validation

  datatype Stats = Stats(activeFileCount: nat, activeBytes: int, contentTypeBreakdown: map<string, nat>)

  // SUM(size_bytes): adding up in any order gives the same.
  ghost function TotalBytes(t: Table): int
    decreases |t|
  {
    if t == map[] then 0
    else
      var id :| id in t;
      t[id].sizeBytes + TotalBytes(t - {id})
  }

  lemma {:induction false} TotalBytesOf(t: Table, id: string)
    requires id in t
    ensures TotalBytes(map[]) == 0 && TotalBytes(t) == t[id].sizeBytes + TotalBytes(t - {id})
    decreases |t|
  {
    var first :| id in t && first in t && TotalBytes(t) == t[first].sizeBytes + TotalBytes(t - {first});
    if first != id {
      TotalBytesOf(t - {first}, id);
      TotalBytesOf(t - {id}, first);
      assert t - {first} - {id} == t - {id} - {first};
    }
  }

  function OfType(t: Table, contentType: string): set<string> {
    set id | id in t && t[id].contentType == contentType
  }

  function OfTopLevelType(t: Table, major: string): set<string> {
    set id | id in t && TopLevelMimeType(t[id].contentType) == major
  }

  function TypesIn(t: Table): set<string> {
    set id | id in t :: t[id].contentType
  }

  ghost function SumOf(counts: map<string, nat>): nat
    decreases |counts|
  {
    if counts == map[] then 0
    else
      var k :| k in counts;
      counts[k] + SumOf(counts - {k})
  }

  lemma {:induction false} SumOfEntry(counts: map<string, nat>, k: string)
    requires k in counts
    ensures SumOf(map[]) == 0 && SumOf(counts) == counts[k] + SumOf(counts - {k})
    decreases |counts|
  {
    var first :| k in counts && first in counts && SumOf(counts) == counts[first] + SumOf(counts - {first});
    if first != k {
      SumOfEntry(counts - {first}, k);
      SumOfEntry(counts - {k}, first);
      assert counts - {first} - {k} == counts - {k} - {first};
    }
  }

  // stats.ContentTypeBreakdown[major] += n
  function Plus(counts: map<string, nat>, major: string, n: nat): map<string, nat> {
    counts[major := (if major in counts then counts[major] else 0) + n]
  }

  lemma SumOfPlus(counts: map<string, nat>, major: string, n: nat)
    ensures SumOf(Plus(counts, major, n)) == SumOf(counts) + n
  {
    var more := Plus(counts, major, n);
    SumOfEntry(more, major);
    assert more - {major} == counts - {major};
    if major in counts {
      SumOfEntry(counts, major);
    } else {
      assert counts - {major} == counts;
    }
  }

  // The statistics of a table all of whose rows are active.
  ghost predicate Describes(st: Stats, active: Table) {
    && st.activeFileCount == |active| && st.activeBytes == TotalBytes(active)
    && Buckets(st.contentTypeBreakdown, active)
  }

  // Rows of the groups already folded in.
  function Folded(active: Table, rest: set<string>): Table {
    map id | id in active && active[id].contentType !in rest :: active[id]
  }

  lemma FoldedKeys(active: Table, rest: set<string>, contentType: string)
    requires contentType in rest
    ensures |Folded(active, rest - {contentType})| == |Folded(active, rest)| + |OfType(active, contentType)|
  {
    var before, after := Folded(active, rest), Folded(active, rest - {contentType});
    assert after.Keys == before.Keys + OfType(active, contentType);
    assert |after| == |after.Keys| && |before| == |before.Keys|;
  }

  lemma FoldedRow(active: Table, rest: set<string>, contentType: string, id: string)
    requires contentType in rest
    ensures id in Folded(active, rest - {contentType}) <==>
      id in Folded(active, rest) || id in OfType(active, contentType)
    ensures id in OfType(active, contentType) ==> id !in Folded(active, rest)
  {
  }

  lemma FoldedBucket(active: Table, rest: set<string>, contentType: string, major: string)
    requires contentType in rest
    ensures var more := if major == TopLevelMimeType(contentType) then OfType(active, contentType) else {};
      && OfTopLevelType(Folded(active, rest - {contentType}), major)
          == OfTopLevelType(Folded(active, rest), major) + more
      && |OfTopLevelType(Folded(active, rest - {contentType}), major)|
          == |OfTopLevelType(Folded(active, rest), major)| + |more|
  {
    var before := OfTopLevelType(Folded(active, rest), major);
    var after := OfTopLevelType(Folded(active, rest - {contentType}), major);
    var more := if major == TopLevelMimeType(contentType) then OfType(active, contentType) else {};
    forall id
      ensures id in after <==> id in before || id in more
      ensures !(id in before && id in more)
    {
      FoldedRow(active, rest, contentType, id);
    }
    assert after == before + more && before !! more;
  }

  // The breakdown counts a table's rows by top-level type.
  ghost predicate Buckets(counts: map<string, nat>, t: Table) {
    && (forall major :: major in counts <==> OfTopLevelType(t, major) != {})
    && (forall major | major in counts :: counts[major] == |OfTopLevelType(t, major)|)
    && SumOf(counts) == |t|
  }

  lemma FoldOneGroup(active: Table, rest: set<string>, contentType: string, counts: map<string, nat>)
    requires contentType in rest && OfType(active, contentType) != {} && Buckets(counts, Folded(active, rest))
    ensures Buckets(Plus(counts, TopLevelMimeType(contentType), |OfType(active, contentType)|),
                    Folded(active, rest - {contentType}))
  {
    var major := TopLevelMimeType(contentType);
    FoldedKeys(active, rest, contentType);
    SumOfPlus(counts, major, |OfType(active, contentType)|);
    forall m
      ensures var after := Plus(counts, major, |OfType(active, contentType)|);
        && (m in after <==> OfTopLevelType(Folded(active, rest - {contentType}), m) != {})
        && (m in after ==> after[m] == |OfTopLevelType(Folded(active, rest - {contentType}), m)|)
    {
      FoldedBucket(active, rest, contentType, m);
    }
  }

  // SELECT content_type, COUNT(*) ... GROUP BY content_type
  function Groups(active: Table): map<string, nat> {
    map contentType | contentType in TypesIn(active) :: |OfType(active, contentType)|
  }

  lemma GroupsHaveRows(active: Table, contentType: string)
    requires contentType in Groups(active)
    ensures OfType(active, contentType) != {}
  {
    var id :| id in active && active[id].contentType == contentType;
    assert id in OfType(active, contentType);
  }

  lemma NothingFolded(active: Table)
    ensures Folded(active, Groups(active).Keys) == map[] && Folded(active, {}) == active
    ensures Buckets(map[], map[])
  {
    assert forall id | id in active :: active[id].contentType in TypesIn(active);
  }

  method FoldGroups(ghost active: Table, groups: map<string, nat>) returns (breakdown: map<string, nat>)
    requires groups == Groups(active)
    ensures Buckets(breakdown, active)
  {
    NothingFolded(active);
    breakdown := map[];
    var rest := groups.Keys;
    while rest != {}
      invariant rest <= groups.Keys
      invariant Buckets(breakdown, Folded(active, rest))
    {
      var contentType :| contentType in rest;
      GroupsHaveRows(active, contentType);
      FoldOneGroup(active, rest, contentType, breakdown);
      breakdown := Plus(breakdown, TopLevelMimeType(contentType), groups[contentType]);
      rest := rest - {contentType};
    }
  }

  /**
   The two queries of Stats run one after the other: the totals are those of the table the first
   finds, the breakdown that of the table the second finds. Each counts its table right; the
   second in two stages, as SQL counts by full content type and the loop folds the groups, in
   whatever order they come, into top-level types. The buckets add up to the file count if and
   only if both tables have equally many active rows, so always if these did not change.
   */
  method ComputeStats(t: Table, later: Table, now: Time) returns (st: Stats)
    ensures st.activeFileCount == |Active(t, now)| && st.activeBytes == TotalBytes(Active(t, now))
    ensures st.activeFileCount == |set id | id in t && t[id].expiresAt > now|
    ensures forall major :: major in st.contentTypeBreakdown <==>
      exists id :: id in later && later[id].expiresAt > now && TopLevelMimeType(later[id].contentType) == major
    ensures forall major | major in st.contentTypeBreakdown ::
      st.contentTypeBreakdown[major]
      == |set id | id in later && later[id].expiresAt > now && TopLevelMimeType(later[id].contentType) == major|
    ensures Buckets(st.contentTypeBreakdown, Active(later, now))
    ensures SumOf(st.contentTypeBreakdown) == st.activeFileCount <==> |Active(later, now)| == |Active(t, now)|
    ensures Active(later, now) == Active(t, now) ==> Describes(st, Active(t, now))
  {
    var active := Active(t, now);
    var bytes := SumBytes(active);
    var activeLater := Active(later, now);
    var breakdown := FoldGroups(activeLater, Groups(activeLater));
    st := Stats(|active|, bytes, breakdown);
    assert active.Keys == set id | id in t && t[id].expiresAt > now;
    forall major {
      BucketOfActive(later, now, major);
    }
  }

  lemma BucketOfActive(t: Table, now: Time, major: string)
    ensures OfTopLevelType(Active(t, now), major)
         == set id | id in t && t[id].expiresAt > now && TopLevelMimeType(t[id].contentType) == major
    ensures OfTopLevelType(Active(t, now), major) != {} <==>
            exists id :: id in t && t[id].expiresAt > now && TopLevelMimeType(t[id].contentType) == major
  {
    var bucket := OfTopLevelType(Active(t, now), major);
    if id :| id in t && t[id].expiresAt > now && TopLevelMimeType(t[id].contentType) == major {
      assert id in bucket;
    }
  }

  method SumBytes(t: Table) returns (total: int)
    ensures total == TotalBytes(t)
  {
    total := 0;
    var rest := t.Keys;
    assert t - rest == map[];
    while rest != {}
      invariant rest <= t.Keys && total == TotalBytes(t - rest)
    {
      var id :| id in rest;
      TotalBytesOf(t - (rest - {id}), id);
      assert t - (rest - {id}) - {id} == t - rest;
      total := total + t[id].sizeBytes;
      rest := rest - {id};
    }
    assert t - {} == t;
  }

  /** Every row is either active or sweepable; the file service's "expired" is the latter
      except at the very instant of expiry. */
  lemma ActiveOrSweepable(t: Table, now: Time)
    ensures Active(t, now).Keys !! ExpiredIds(t, now) && Active(t, now).Keys + ExpiredIds(t, now) == t.Keys
    ensures forall id | id in t ::
      && (id in Active(t, now) <==> now < t[id].expiresAt) && (id in ExpiredIds(t, now) <==> t[id].expiresAt <= now)
      && (t[id].IsExpired(now) <==> t[id].expiresAt < now)
  {
  }

  lemma AnswersDependOnActiveRows(a: Table, b: Table, checksum: string, now: Time, found: Option<FileRecord>)
    requires Active(a, now) == Active(b, now)
    ensures LookupAnswer(a, checksum, now, found) ==> LookupAnswer(b, checksum, now, found)
  {
    assert forall id :: id in Active(a, now) <==> id in Active(b, now);
    assert forall id | id in Active(a, now) :: Active(a, now)[id] == a[id] == b[id];
    if found.Some? && LatestActive(a, checksum, now, found.value) {
      assert found.value.id in Active(a, now);
    }
    forall id | id in b && Matches(b[id], checksum, now)
      ensures id in a && a[id] == b[id]
    {
      assert id in Active(b, now);
    }
  }

  // A sweep removes some of the rows that had expired at its cutoff.
  function SweptOf(t: Table, cutoff: Time, ids: set<string>): Table {
    t - (ids * ExpiredIds(t, cutoff))
  }

  /** A query that read its clock earlier sees a sweep exactly if a row it still counts went. */
  lemma LateQuerySeesTheSweep(t: Table, cutoff: Time, ids: set<string>, now: Time)
    ensures Active(SweptOf(t, cutoff, ids), now) == Active(t, now) <==>
            forall id | id in ids && id in t && t[id].expiresAt <= cutoff :: t[id].expiresAt <= now
  {
    var after := SweptOf(t, cutoff, ids);
    forall id | id in ids && id in t && t[id].expiresAt <= cutoff
      ensures id in ExpiredIds(t, cutoff) && id !in Active(after, now)
    {
    }
    assert forall id | id in t && id !in after :: id in ids && t[id].expiresAt <= cutoff;
    if Active(after, now) == Active(t, now) {
      forall id | id in ids && id in t && t[id].expiresAt <= cutoff
        ensures t[id].expiresAt <= now
      {
        assert id !in Active(t, now);
      }
    }
  }
}
