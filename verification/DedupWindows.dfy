/** What the windows of `Dedup` are: the steps of the run at which a row's upload looked up and inserted. */
module DedupWindows {
  import opened Metadata
  import opened Lifecycle
  import opened LifecycleInvariants
  import opened Dedup

  // The n-th step of the run is a lookup of this upload that found nothing,
  ghost predicate LookedUpAt(run: seq<Event>, op: nat, n: nat) {
    0 < n <= |run| && run[n - 1] == UploadLookup(op, None)
  }

  // a later one, the k-th, its put of record `id`,
  ghost predicate PutAt(run: seq<Event>, op: nat, id: string, n: nat, k: nat) {
    && LookedUpAt(run, op, n) && n < k <= |run|
    && run[k - 1].UploadPut? && run[k - 1].op == op && run[k - 1].rec.id == id && run[k - 1].put == Succeeded
  }

  // and one after that, the m-th, its insert, which took effect.
  ghost predicate InsertedAt(run: seq<Event>, op: nat, id: string, n: nat, k: nat, m: nat) {
    && PutAt(run, op, id, n, k) && k < m <= |run|
    && run[m - 1].UploadInsert? && run[m - 1].op == op && run[m - 1].insert != FailedClean
  }

  ghost predicate OpDated(run: seq<Event>, op: nat, o: Op) {
    && (o.Missed? ==> LookedUpAt(run, op, o.lookedUp))
    && (o.Stored? ==> exists k :: PutAt(run, op, o.rec.id, o.lookedUp, k))
  }

  ghost predicate WindowDated(run: seq<Event>, id: string, w: Window) {
    exists op, k :: InsertedAt(run, op, id, w.lookedUp, k, w.inserted)
  }

  ghost predicate Dated(run: seq<Event>, s: State) {
    && s.step == |run|
    && (forall op | op in s.ops :: OpDated(run, op, s.ops[op]))
    && (forall id | id in s.windows :: WindowDated(run, id, s.windows[id]))
  }

  lemma OpStaysDated(run: seq<Event>, e: Event, op: nat, o: Op)
    requires OpDated(run, op, o)
    ensures OpDated(run + [e], op, o)
  {
    if o.Stored? {
      var k :| PutAt(run, op, o.rec.id, o.lookedUp, k);
      assert PutAt(run + [e], op, o.rec.id, o.lookedUp, k);
    }
  }

  lemma WindowStaysDated(run: seq<Event>, e: Event, id: string, w: Window)
    requires WindowDated(run, id, w)
    ensures WindowDated(run + [e], id, w)
  {
    var op, k :| InsertedAt(run, op, id, w.lookedUp, k, w.inserted);
    assert InsertedAt(run + [e], op, id, w.lookedUp, k, w.inserted);
  }

  // An operation that a step moves.
  lemma MovedOpDated(cfg: Config, run: seq<Event>, s: State, e: Event, op: nat)
    requires Enabled(cfg, s, e) && Dated(run, s) && op in Next(cfg, s, e).ops
    requires op in s.ops ==> Next(cfg, s, e).ops[op] != s.ops[op]
    ensures OpDated(run + [e], op, Next(cfg, s, e).ops[op])
  {
    if e.UploadPut? {
      PutShape(cfg, s, e);
      PutDated(run, e, op, s.ops[e.op], Next(cfg, s, e).ops[op]);
    } else if e.UploadInsert? {
      InsertShape(cfg, s, e);
    } else {
      OtherStepShape(cfg, s, e);
      if Next(cfg, s, e).ops[op].Missed? { JustMissed(cfg, s, e); }
    }
  }

  lemma PutDated(run: seq<Event>, e: Event, op: nat, o: Op, o': Op)
    requires e.UploadPut? && e.op == op && o.Missed? && OpDated(run, op, o)
    requires o' == Stored(e.rec, o.lookedUp) && e.put == Succeeded
    ensures OpDated(run + [e], op, o')
  {
    assert PutAt(run + [e], op, e.rec.id, o.lookedUp, |run| + 1);
  }

  lemma JustMissed(cfg: Config, s: State, e: Event)
    requires Enabled(cfg, s, e) && !e.Tick? && !e.UploadPut? && !e.UploadInsert?
    requires e.op in Next(cfg, s, e).ops && Next(cfg, s, e).ops[e.op].Missed?
    requires e.op in s.ops ==> Next(cfg, s, e).ops[e.op] != s.ops[e.op]
    ensures e == UploadLookup(e.op, None) && Next(cfg, s, e).ops[e.op].lookedUp == s.step + 1
  {
  }

  lemma StepWindows(cfg: Config, run: seq<Event>, s: State, e: Event, id: string)
    requires Enabled(cfg, s, e) && Dated(run, s) && id in Next(cfg, s, e).windows
    ensures WindowDated(run + [e], id, Next(cfg, s, e).windows[id])
  {
    if e.UploadInsert? {
      InsertWindow(cfg, s, e);
      if e.insert.Applied() && s.ops[e.op].rec.id == id {
        NewWindowDated(run, e, s.ops[e.op]);
      } else {
        WindowStaysDated(run, e, id, s.windows[id]);
      }
    } else {
      WindowsRest(cfg, s, e);
      WindowStaysDated(run, e, id, s.windows[id]);
    }
  }

  lemma NewWindowDated(run: seq<Event>, e: Event, o: Op)
    requires e.UploadInsert? && e.insert != FailedClean && o.Stored? && OpDated(run, e.op, o)
    ensures WindowDated(run + [e], o.rec.id, Window(o.lookedUp, |run| + 1))
  {
    var k :| PutAt(run, e.op, o.rec.id, o.lookedUp, k);
    assert PutAt(run + [e], e.op, o.rec.id, o.lookedUp, k);
    assert InsertedAt(run + [e], e.op, o.rec.id, o.lookedUp, k, |run| + 1);
  }

  lemma WindowsRest(cfg: Config, s: State, e: Event)
    requires Enabled(cfg, s, e) && !e.UploadInsert?
    ensures Next(cfg, s, e).windows == s.windows
  {
    if e.UploadPut? { PutShape(cfg, s, e); } else { OtherStepShape(cfg, s, e); }
  }

  lemma {:induction false} RunDated(cfg: Config, now: Time, run: seq<Event>)
    requires Legal(cfg, Init(now), run)
    ensures Dated(run, After(cfg, Init(now), run))
    decreases |run|
  {
    if run != [] {
      var s, s', e := After(cfg, Init(now), Front(run)), After(cfg, Init(now), run), Last(run);
      RunDated(cfg, now, Front(run));
      assert run == Front(run) + [e];
      StepClock(cfg, s, e);
      forall op | op in s'.ops
        ensures OpDated(run, op, s'.ops[op])
      {
        if op in s.ops && s'.ops[op] == s.ops[op] {
          OpStaysDated(Front(run), e, op, s.ops[op]);
        } else {
          MovedOpDated(cfg, Front(run), s, e, op);
        }
      }
      forall id | id in s'.windows
        ensures WindowDated(run, id, s'.windows[id])
      {
        StepWindows(cfg, Front(run), s, e, id);
      }
    }
  }

  /** The window of a row is the time between two steps of its upload: the lookup that found
      nothing and, after the put of this record, the insert. */
  lemma WindowsAreTheSteps(cfg: Config, now: Time, run: seq<Event>, id: string)
    returns (op: nat, i: nat, k: nat, j: nat)
    requires Legal(cfg, Init(now), run) && id in After(cfg, Init(now), run).windows
    ensures i < k < j < |run| && After(cfg, Init(now), run).windows[id] == Window(i + 1, j + 1)
    ensures run[i] == UploadLookup(op, None)
    ensures run[k].UploadPut? && run[k].op == op && run[k].rec.id == id && run[k].put == Succeeded
    ensures run[j].UploadInsert? && run[j].op == op && run[j].insert != FailedClean
  {
    RunDated(cfg, now, run);
    var w := After(cfg, Init(now), run).windows[id];
    assert WindowDated(run, id, w);
    var o: nat, p: nat :| InsertedAt(run, o, id, w.lookedUp, p, w.inserted);
    assert PutAt(run, o, id, w.lookedUp, p) && LookedUpAt(run, o, w.lookedUp);
    op, i, k, j := o, w.lookedUp - 1, p - 1, w.inserted - 1;
  }
}
