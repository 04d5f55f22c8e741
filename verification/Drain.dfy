/**
 How fast one sweeper empties the backlog of expired rows when it takes the 100 oldest at
 each tick and the objects of some rows cannot be deleted.
 */
module Drain {
  import opened Metadata
  import opened Sets
  import opened FilesTable
  import opened Lifecycle
  import opened Sweeper

  // The sweeper's view at one tick: the table, its clock, the batch it drew.
  datatype Pass = Pass(table: Table, now: Time, batch: set<string>)

  // `stuck` are the ids of rows whose object can never be deleted; they keep their rows.
  function Swept(p: Pass, stuck: set<string>): Table {
    p.table - (p.batch - stuck)
  }

  ghost predicate Drawn(p: Pass) {
    OldestBatch(p.table, p.now, BATCH_SIZE, p.batch)
  }

  // Expired rows the sweeper could delete, and those it cannot.
  function Backlog(p: Pass, stuck: set<string>): set<string> {
    ExpiredIds(p.table, p.now) - stuck
  }

  function Blocked(p: Pass, stuck: set<string>): set<string> {
    ExpiredIds(p.table, p.now) * stuck
  }

  function Less(a: nat, b: int): nat {
    if a < b then 0 else a - b
  }

  lemma SweptExpired(p: Pass, stuck: set<string>)
    ensures ExpiredIds(Swept(p, stuck), p.now) == ExpiredIds(p.table, p.now) - (p.batch - stuck)
  {
  }

  lemma TickCount(expired: set<string>, batch: set<string>, stuck: set<string>, f: nat, limit: nat)
    requires batch <= expired && |batch| == Min(limit, |expired|) && |expired * stuck| <= f < limit
    ensures |expired - (batch - stuck) - stuck| <= Less(|expired - stuck|, limit - f)
    ensures |batch - stuck| >= Min(limit - f, |expired - stuck|)
  {
    Parts(expired, stuck);
    Parts(batch, stuck);
    SubsetSize(batch * stuck, expired * stuck);
    assert expired - (batch - stuck) - stuck == (expired - stuck) - batch;
    assert (expired - stuck) * batch == batch - stuck;
    Parts(expired - stuck, batch);
  }

  // One tick removes at least min(100 - f, g) of the g deletable expired rows.
  lemma OneTick(p: Pass, stuck: set<string>, f: nat)
    requires Drawn(p) && |Blocked(p, stuck)| <= f < 100
    ensures var left, g := |ExpiredIds(Swept(p, stuck), p.now) - stuck|, |Backlog(p, stuck)|;
      left == 0 || left + (100 - f) <= g
    ensures |p.batch - stuck| >= 100 - f || |p.batch - stuck| >= |Backlog(p, stuck)|
  {
    SweptExpired(p, stuck);
    TickCount(ExpiredIds(p.table, p.now), p.batch, stuck, f, BATCH_SIZE);
  }

  // Between ticks no further row becomes deletable; rows may vanish by other means.
  ghost predicate NothingNew(h: seq<Pass>, stuck: set<string>) {
    forall i | 0 <= i < |h| - 1 :: Backlog(h[i + 1], stuck) <= ExpiredIds(Swept(h[i], stuck), h[i].now) - stuck
  }

  ghost predicate FewBlocked(h: seq<Pass>, stuck: set<string>, f: nat) {
    forall i | 0 <= i < |h| :: Drawn(h[i]) && |Blocked(h[i], stuck)| <= f
  }

  /**
   Bounded drain despite failures: with at most f < 100 undeletable rows in the way, what is
   left of the backlog at tick n is at most n * (100 - f) less than at the first.
   */
  lemma {:induction false} BacklogDrains(h: seq<Pass>, stuck: set<string>, f: nat, n: nat)
    requires FewBlocked(h, stuck, f) && NothingNew(h, stuck) && f < 100 && n < |h|
    ensures |Backlog(h[n], stuck)| == 0 || |Backlog(h[n], stuck)| + n * (100 - f) <= |Backlog(h[0], stuck)|
  {
    if n > 0 {
      BacklogDrains(h, stuck, f, n - 1);
      OneTick(h[n - 1], stuck, f);
      SubsetSize(Backlog(h[n], stuck), ExpiredIds(Swept(h[n - 1], stuck), h[n - 1].now) - stuck);
      assert n * (100 - f) == (n - 1) * (100 - f) + (100 - f);
    }
  }

  // So it is empty once as many ticks have passed as the backlog holds portions of 100 - f.
  lemma BacklogIsEmptied(h: seq<Pass>, stuck: set<string>, f: nat, n: nat)
    requires FewBlocked(h, stuck, f) && NothingNew(h, stuck) && f < 100 && n < |h|
    requires |Backlog(h[0], stuck)| <= n * (100 - f)
    ensures Backlog(h[n], stuck) == {}
  {
    BacklogDrains(h, stuck, f, n);
  }

  // Nothing but the sweeper deletes rows, and rows do not change.
  ghost predicate OnlySweptRowsGo(p: Pass, next: Pass, stuck: set<string>) {
    forall id | id in Swept(p, stuck) :: id in next.table && next.table[id] == p.table[id]
  }

  // Every row of `head` expires before row `id` does.
  ghost predicate Behind(t: Table, head: set<string>, id: string) {
    id in t && forall b | b in head :: b in t && t[b].expiresAt < t[id].expiresAt
  }

  /**
   The bound f < 100 is needed: behind a hundred undeletable rows that expired earlier a row
   is never drawn, however many ticks pass and whatever else is inserted.
   */
  lemma {:induction false} StarvedBehindAFullBatch(h: seq<Pass>, stuck: set<string>, head: set<string>, id: string,
                                                   n: nat)
    requires n < |h| && (forall i | 0 <= i < |h| :: Drawn(h[i]))
    requires forall i | 0 <= i < |h| - 1 :: OnlySweptRowsGo(h[i], h[i + 1], stuck)
    requires |head| >= 100 && head <= stuck && id !in stuck && Behind(h[0].table, head, id)
    ensures Behind(h[n].table, head, id) && id !in h[n].batch
  {
    if n > 0 {
      StarvedBehindAFullBatch(h, stuck, head, id, n - 1);
      StillBehind(h[n - 1], h[n], stuck, head, id);
    }
    NotDrawn(h[n], head, id);
  }

  lemma StillBehind(p: Pass, next: Pass, stuck: set<string>, head: set<string>, id: string)
    requires OnlySweptRowsGo(p, next, stuck) && head <= stuck && Behind(p.table, head, id) && id !in p.batch
    ensures Behind(next.table, head, id)
  {
    assert id in Swept(p, stuck);
    assert forall b | b in head :: b in Swept(p, stuck);
  }

  // A full batch's worth of older rows keeps a row out of the batch.
  lemma NotDrawn(p: Pass, head: set<string>, id: string)
    requires Drawn(p) && |head| >= 100 && Behind(p.table, head, id)
    ensures id !in p.batch
  {
    var expired := ExpiredIds(p.table, p.now);
    forall b | b in head && id in p.batch
      ensures b in p.batch
    {
      assert b in expired;
    }
    if id in p.batch {
      SubsetSize(head + {id}, p.batch);
    }
  }

  /** Without failures the backlog follows max(0, b - 100) plus whatever expires meanwhile. */
  lemma BacklogRecurrence(p: Pass, next: Pass)
    requires Drawn(p) && ExpiredIds(Swept(p, {}), p.now) <= ExpiredIds(next.table, next.now)
    ensures var arrived := ExpiredIds(next.table, next.now) - ExpiredIds(Swept(p, {}), p.now);
      var b := |ExpiredIds(p.table, p.now)|;
      |ExpiredIds(next.table, next.now)| == (if b < 100 then 0 else b - 100) + |arrived|
  {
    SweptExpired(p, {});
    BacklogCount(ExpiredIds(p.table, p.now), p.batch, ExpiredIds(next.table, next.now), BATCH_SIZE);
    assert ExpiredIds(Swept(p, {}), p.now) == ExpiredIds(p.table, p.now) - p.batch;
  }

  lemma BacklogCount(expired: set<string>, batch: set<string>, later: set<string>, limit: nat)
    requires batch <= expired && |batch| == Min(limit, |expired|) && expired - batch <= later
    ensures |later| == Less(|expired|, limit) + |later - (expired - batch)|
  {
    assert expired * batch == batch && later * (expired - batch) == expired - batch;
    Parts(expired, batch);
    Parts(later, expired - batch);
  }

  // The rows that expire no later than row `id`: its rank is their number.
  function Ahead(t: Table, id: string): set<string>
    requires id in t
  {
    set x | x in t && x != id && t[x].expiresAt <= t[id].expiresAt
  }

  // Whatever is inserted between ticks expires after row `id`; rows may also vanish.
  ghost predicate LaterArrivals(p: Pass, next: Pass, id: string) {
    id in p.table && id in next.table ==>
      forall x | x in next.table ::
        || (x in Swept(p, {}) && next.table[x] == p.table[x])
        || (x != id && next.table[x].expiresAt > p.table[id].expiresAt)
  }

  // A tick that does not take an expired row takes a hundred of those ahead of it.
  lemma TickAdvancesRank(p: Pass, id: string)
    requires Drawn(p) && id in ExpiredIds(p.table, p.now) && id !in p.batch
    ensures |Ahead(p.table, id) - p.batch| + BATCH_SIZE == |Ahead(p.table, id)|
  {
    var expired := ExpiredIds(p.table, p.now);
    assert id in expired - p.batch;
    if |p.batch| == |expired| { SubsetSize(p.batch, expired); }
    assert Ahead(p.table, id) * p.batch == p.batch;
    Parts(Ahead(p.table, id), p.batch);
  }

  lemma RankStep(p: Pass, next: Pass, id: string)
    requires Drawn(p) && id in ExpiredIds(p.table, p.now) && id in next.table && LaterArrivals(p, next, id)
    ensures next.table[id] == p.table[id]
    ensures |Ahead(next.table, id)| + BATCH_SIZE <= |Ahead(p.table, id)|
  {
    assert id in Swept(p, {});
    TickAdvancesRank(p, id);
    SubsetSize(Ahead(next.table, id), Ahead(p.table, id) - p.batch);
  }

  /**
   Lateness. A row that is behind r others when it is first found expired is still there at
   tick n only if 100 * n of them were ahead of it; so it is gone after floor(r / 100) + 1
   ticks, whatever expires later.
   */
  lemma {:induction false} RankBoundsLateness(h: seq<Pass>, id: string, n: nat)
    requires n < |h| && (forall i | 0 <= i < |h| :: Drawn(h[i]))
    requires forall i | 0 <= i < |h| - 1 :: LaterArrivals(h[i], h[i + 1], id)
    requires forall i | 0 <= i <= n :: id in h[i].table && h[i].table[id].expiresAt <= h[i].now
    ensures |Ahead(h[n].table, id)| + 100 * n <= |Ahead(h[0].table, id)|
    ensures n == |Ahead(h[0].table, id)| / 100 ==> id !in Swept(h[n], {})
  {
    if n > 0 {
      RankBoundsLateness(h, id, n - 1);
      RankStep(h[n - 1], h[n], id);
    }
    if id !in h[n].batch { TickAdvancesRank(h[n], id); }
  }

  // How a sweep fares that cannot delete the objects of the stuck rows and nothing else fails.
  function LoneTries(batch: seq<FileRecord>, stuck: set<string>): seq<Try> {
    seq(|batch|, i requires 0 <= i < |batch| => if batch[i].id in stuck then ObjectFailed(FailedClean)
        else RowTried(Succeeded))
  }

  /** A pass as considered here is what the sweeper's loop does to table and store when it runs
      alone: the rows it can delete go with their objects, and nothing else. */
  lemma LoneSweepIsOnePass(cfg: Config, s: State, me: nat, batch: seq<FileRecord>, stuck: set<string>)
    requires me in s.ops && s.ops[me].Sweeping? && s.ops[me].rest == batch && !s.ops[me].removed
    ensures Legal(cfg, s, LoopSteps(me, LoneTries(batch, stuck)))
    ensures var s' := After(cfg, s, LoopSteps(me, LoneTries(batch, stuck)));
      && s'.files == Swept(Pass(s.files, s.now, Ids(batch)), stuck) && s'.now == s.now
      && s'.objects == s.objects - (set r | r in batch && r.id !in stuck :: r.objectKey)
      && me in s'.ops
  {
    var tries := LoneTries(batch, stuck);
    LoopRemoves(cfg, s, me, batch, tries);
    LoneRemoved(batch, stuck);
  }

  lemma LoneRemoved(batch: seq<FileRecord>, stuck: set<string>)
    ensures var tries := LoneTries(batch, stuck);
      && Removed(batch, tries) == Ids(batch) - stuck
      && RemovedKeys(batch, tries) == set r | r in batch && r.id !in stuck :: r.objectKey
  {
    var tries := LoneTries(batch, stuck);
    forall r | r in batch && r.id !in stuck
      ensures r.id in Removed(batch, tries) && r.objectKey in RemovedKeys(batch, tries)
    {
      var i :| 0 <= i < |batch| && batch[i] == r;
      assert tries[i] == RowTried(Succeeded);
    }
  }

  // A tick of the protocol: at this time one sweep of what it draws runs to its end.
  datatype Turn = Turn(at: Time, batch: seq<FileRecord>)

  function TurnSteps(me: nat, from: Time, t: Turn, stuck: set<string>): seq<Event>
    requires from <= t.at
  {
    [] + [Tick(t.at - from)] + [SweepBegin(me)] + [SweepFind(me, t.batch)] + LoopSteps(me, LoneTries(t.batch, stuck))
        + [Stop(me)]
  }

  // When the last turn took place.
  function End(now: Time, turns: seq<Turn>): Time {
    if turns == [] then now else turns[|turns| - 1].at
  }

  predicate Timely(now: Time, turns: seq<Turn>) {
    turns != [] ==> Timely(now, turns[..|turns| - 1]) && End(now, turns[..|turns| - 1]) <= turns[|turns| - 1].at
  }

  function Turns(me: nat, now: Time, turns: seq<Turn>, stuck: set<string>): seq<Event>
    requires Timely(now, turns)
  {
    if turns == [] then []
    else
      var front, t := turns[..|turns| - 1], turns[|turns| - 1];
      Turns(me, now, front, stuck) + TurnSteps(me, End(now, front), t, stuck)
  }

  function PassOf(t: Table, turn: Turn): Pass {
    Pass(t, turn.at, Ids(turn.batch))
  }

  // The batch is what FindExpired returns when no other transaction holds a row.
  ghost predicate Draws(t: Table, turn: Turn) {
    InOrder(t, turn.batch) && |turn.batch| <= BATCH_SIZE && Drawn(PassOf(t, turn))
  }

  lemma DrawnIsPossible(t: Table, turn: Turn)
    requires Draws(t, turn)
    ensures ExpiredBatch(t, turn.at, turn.batch)
  {
    assert forall i | 0 <= i < |turn.batch| :: turn.batch[i].id in Ids(turn.batch);
  }

  lemma TurnBegins(cfg: Config, s: State, me: nat, t: Turn)
    requires me !in s.ops && s.now <= t.at && ExpiredBatch(s.files, t.at, t.batch)
    ensures var run := [] + [Tick(t.at - s.now)] + [SweepBegin(me)] + [SweepFind(me, t.batch)];
      && Legal(cfg, s, run)
      && var s' := After(cfg, s, run);
         s'.files == s.files && s'.now == t.at && me in s'.ops && s'.ops[me] == Sweeping(t.at, t.batch, false)
  {
    Extend(cfg, s, [], Tick(t.at - s.now));
    Extend(cfg, s, [] + [Tick(t.at - s.now)], SweepBegin(me));
    Extend(cfg, s, [] + [Tick(t.at - s.now)] + [SweepBegin(me)], SweepFind(me, t.batch));
  }

  lemma TurnEffect(cfg: Config, s: State, me: nat, t: Turn, stuck: set<string>)
    requires me !in s.ops && s.now <= t.at && ExpiredBatch(s.files, t.at, t.batch)
    ensures Legal(cfg, s, TurnSteps(me, s.now, t, stuck))
    ensures var s' := After(cfg, s, TurnSteps(me, s.now, t, stuck));
      s'.files == Swept(PassOf(s.files, t), stuck) && s'.now == t.at && me !in s'.ops
  {
    TurnBegins(cfg, s, me, t);
    var begin := [] + [Tick(t.at - s.now)] + [SweepBegin(me)] + [SweepFind(me, t.batch)];
    TurnGoesOn(cfg, s, begin, TurnSteps(me, s.now, t, stuck), me, t, stuck);
  }

  lemma TurnGoesOn(cfg: Config, s: State, begin: seq<Event>, run: seq<Event>, me: nat, t: Turn, stuck: set<string>)
    requires Legal(cfg, s, begin) && run == begin + LoopSteps(me, LoneTries(t.batch, stuck)) + [Stop(me)]
    requires var s1 := After(cfg, s, begin);
      s1.files == s.files && s1.now == t.at && me in s1.ops && s1.ops[me] == Sweeping(t.at, t.batch, false)
    ensures Legal(cfg, s, run)
    ensures var s' := After(cfg, s, run);
      s'.files == Swept(PassOf(s.files, t), stuck) && s'.now == t.at && me !in s'.ops
  {
    var loop := LoopSteps(me, LoneTries(t.batch, stuck));
    LoneSweepIsOnePass(cfg, After(cfg, s, begin), me, t.batch, stuck);
    Compose(cfg, s, begin, loop);
    StopAfter(cfg, s, begin + loop, me);
  }

  lemma StopAfter(cfg: Config, s: State, run: seq<Event>, me: nat)
    requires Legal(cfg, s, run) && me in After(cfg, s, run).ops
    ensures Legal(cfg, s, run + [Stop(me)])
    ensures var before, end := After(cfg, s, run), After(cfg, s, run + [Stop(me)]);
      end.files == before.files && end.now == before.now && me !in end.ops
  {
    Extend(cfg, s, run, Stop(me));
  }

  // What the turns make of a table.
  function TableAfter(t: Table, turns: seq<Turn>, stuck: set<string>): Table {
    if turns == [] then t
    else Swept(PassOf(TableAfter(t, turns[..|turns| - 1], stuck), turns[|turns| - 1]), stuck)
  }

  // Turn k draws from what those before it left.
  ghost predicate DrawsAfter(t: Table, done: seq<Turn>, turn: Turn, stuck: set<string>) {
    Draws(TableAfter(t, done, stuck), turn)
  }

  ghost predicate AllDraw(t: Table, turns: seq<Turn>, stuck: set<string>) {
    forall k {:trigger DrawsAfter(t, turns[..k], turns[k], stuck)} | 0 <= k < |turns| ::
        DrawsAfter(t, turns[..k], turns[k], stuck)
  }

  lemma FirstTurnsDraw(t: Table, turns: seq<Turn>, stuck: set<string>)
    requires turns != [] && AllDraw(t, turns, stuck)
    ensures AllDraw(t, turns[..|turns| - 1], stuck)
  {
    var front := turns[..|turns| - 1];
    forall k | 0 <= k < |front|
      ensures DrawsAfter(t, front[..k], front[k], stuck)
    {
      assert front[..k] == turns[..k] && front[k] == turns[k];
      assert DrawsAfter(t, turns[..k], turns[k], stuck);
    }
  }

  // The last turn, given what those before it did.
  lemma LastTurn(cfg: Config, s: State, me: nat, turns: seq<Turn>, stuck: set<string>, s1: State)
    requires turns != [] && Timely(s.now, turns) && AllDraw(s.files, turns, stuck)
    requires var front := turns[..|turns| - 1];
      && Legal(cfg, s, Turns(me, s.now, front, stuck)) && s1 == After(cfg, s, Turns(me, s.now, front, stuck))
      && s1.files == TableAfter(s.files, front, stuck) && s1.now == End(s.now, front) && me !in s1.ops
    ensures Legal(cfg, s, Turns(me, s.now, turns, stuck))
    ensures Legal(cfg, s1, TurnSteps(me, s1.now, turns[|turns| - 1], stuck))
    ensures After(cfg, s, Turns(me, s.now, turns, stuck))
            == After(cfg, s1, TurnSteps(me, s1.now, turns[|turns| - 1], stuck))
    ensures ExpiredBatch(s1.files, turns[|turns| - 1].at, turns[|turns| - 1].batch)
  {
    var front, t := turns[..|turns| - 1], turns[|turns| - 1];
    assert DrawsAfter(s.files, turns[..|turns| - 1], t, stuck);
    DrawnIsPossible(s1.files, t);
    TurnEffect(cfg, s1, me, t, stuck);
    Compose(cfg, s, Turns(me, s.now, front, stuck), TurnSteps(me, s1.now, t, stuck));
  }

  lemma {:induction false} TurnsAreLegal(cfg: Config, s: State, me: nat, turns: seq<Turn>,
                                         stuck: set<string>) returns (s': State)
    requires me !in s.ops && Timely(s.now, turns) && AllDraw(s.files, turns, stuck)
    ensures Legal(cfg, s, Turns(me, s.now, turns, stuck)) && s' == After(cfg, s, Turns(me, s.now, turns, stuck))
    ensures s'.files == TableAfter(s.files, turns, stuck) && s'.now == End(s.now, turns) && me !in s'.ops
    decreases |turns|
  {
    if turns == [] {
      s' := s;
    } else {
      FirstTurnsDraw(s.files, turns, stuck);
      var s1 := TurnsAreLegal(cfg, s, me, turns[..|turns| - 1], stuck);
      var t := turns[|turns| - 1];
      LastTurn(cfg, s, me, turns, stuck, s1);
      TurnEffect(cfg, s1, me, t, stuck);
      s' := After(cfg, s1, TurnSteps(me, s1.now, t, stuck));
    }
  }

  // Rows of t, and of them only.
  ghost predicate SubTable(t': Table, t: Table) {
    forall id | id in t' :: id in t && t'[id] == t[id]
  }

  // No row expires between the two instants.
  ghost predicate NoneExpires(t: Table, from: Time, to: Time) {
    forall id | id in t && t[id].expiresAt <= to :: t[id].expiresAt <= from
  }

  // And few of the stuck rows are in the way.
  ghost predicate Calm(t: Table, from: Time, to: Time, stuck: set<string>, f: nat) {
    NoneExpires(t, from, to) && |ExpiredIds(t, to) * stuck| <= f
  }

  lemma {:induction false} TurnsOnlyDelete(t: Table, turns: seq<Turn>, stuck: set<string>)
    ensures SubTable(TableAfter(t, turns, stuck), t)
  {
    if turns != [] { TurnsOnlyDelete(t, turns[..|turns| - 1], stuck); }
  }

  lemma {:induction false} TimesGrow(now: Time, turns: seq<Turn>, i: nat)
    requires Timely(now, turns) && i < |turns|
    ensures now <= turns[i].at <= End(now, turns)
    decreases |turns|
  {
    if i < |turns| - 1 {
      TimesGrow(now, turns[..|turns| - 1], i);
    } else if i > 0 {
      TimesGrow(now, turns[..|turns| - 1], i - 1);
    }
  }

  lemma {:induction false} NextTimeIsLater(now: Time, turns: seq<Turn>, i: nat)
    requires Timely(now, turns) && i + 1 < |turns|
    ensures turns[i].at <= turns[i + 1].at
    decreases |turns|
  {
    if i + 2 < |turns| { NextTimeIsLater(now, turns[..|turns| - 1], i); }
  }

  // What the sweeper sees at turn k.
  function PassAt(t: Table, turns: seq<Turn>, stuck: set<string>, k: nat): Pass
    requires k < |turns|
  {
    PassOf(TableAfter(t, turns[..k], stuck), turns[k])
  }

  function History(t: Table, turns: seq<Turn>, stuck: set<string>): seq<Pass> {
    seq(|turns|, k requires 0 <= k < |turns| => PassAt(t, turns, stuck, k))
  }

  lemma NextTable(t: Table, turns: seq<Turn>, stuck: set<string>, k: nat)
    requires k < |turns|
    ensures TableAfter(t, turns[..k + 1], stuck) == Swept(PassAt(t, turns, stuck, k), stuck)
  {
    assert turns[..k + 1][..k] == turns[..k];
  }

  lemma PassIsDrawn(t: Table, now: Time, turns: seq<Turn>, stuck: set<string>, f: nat, k: nat)
    requires Timely(now, turns) && AllDraw(t, turns, stuck) && Calm(t, now, End(now, turns), stuck, f) && k < |turns|
    ensures Drawn(PassAt(t, turns, stuck, k)) && |Blocked(PassAt(t, turns, stuck, k), stuck)| <= f
  {
    assert DrawsAfter(t, turns[..k], turns[k], stuck);
    TurnsOnlyDelete(t, turns[..k], stuck);
    TimesGrow(now, turns, k);
    SubsetSize(Blocked(PassAt(t, turns, stuck, k), stuck), ExpiredIds(t, End(now, turns)) * stuck);
  }

  lemma NothingNewAt(t: Table, now: Time, turns: seq<Turn>, stuck: set<string>, f: nat, k: nat)
    requires Timely(now, turns) && Calm(t, now, End(now, turns), stuck, f) && k + 1 < |turns|
    ensures var p := PassAt(t, turns, stuck, k);
      Backlog(PassAt(t, turns, stuck, k + 1), stuck) <= ExpiredIds(Swept(p, stuck), p.now) - stuck
  {
    NextTable(t, turns, stuck, k);
    TurnsOnlyDelete(t, turns[..k + 1], stuck);
    TimesGrow(now, turns, k);
    TimesGrow(now, turns, k + 1);
    NextTimeIsLater(now, turns, k);
  }

  // The turns are a history of passes as above.
  lemma TurnsAreAHistory(t: Table, now: Time, turns: seq<Turn>, stuck: set<string>, f: nat)
    requires Timely(now, turns) && AllDraw(t, turns, stuck) && Calm(t, now, End(now, turns), stuck, f)
    ensures FewBlocked(History(t, turns, stuck), stuck, f) && NothingNew(History(t, turns, stuck), stuck)
  {
    var h := History(t, turns, stuck);
    forall k | 0 <= k < |h|
      ensures Drawn(h[k]) && |Blocked(h[k], stuck)| <= f
    {
      PassIsDrawn(t, now, turns, stuck, f, k);
    }
    forall k | 0 <= k < |h| - 1
      ensures Backlog(h[k + 1], stuck) <= ExpiredIds(Swept(h[k], stuck), h[k].now) - stuck
    {
      NothingNewAt(t, now, turns, stuck, f, k);
    }
  }

  // What n turns leave of g deletable rows.
  lemma LeftShrinks(g: nat, first: nat, before: nat, after: nat, n: nat, f: nat)
    requires f < 100 && n > 0 && first <= g
    requires (before == 0 || before + (n - 1) * (100 - f) <= first) && (after == 0 || after + (100 - f) <= before)
    ensures after == 0 || after + n * (100 - f) <= g
  {
    assert n * (100 - f) == (n - 1) * (100 - f) + (100 - f);
  }

  lemma TablesDrain(t: Table, now: Time, turns: seq<Turn>, stuck: set<string>, f: nat)
    requires turns != [] && f < 100 && Timely(now, turns) && AllDraw(t, turns, stuck)
    requires Calm(t, now, End(now, turns), stuck, f)
    ensures var left := |ExpiredIds(TableAfter(t, turns, stuck), End(now, turns)) - stuck|;
      left == 0 || left + |turns| * (100 - f) <= |ExpiredIds(t, now) - stuck|
  {
    var h, n := History(t, turns, stuck), |turns|;
    TurnsAreAHistory(t, now, turns, stuck, f);
    BacklogDrains(h, stuck, f, n - 1);
    OneTick(h[n - 1], stuck, f);
    NextTable(t, turns, stuck, n - 1);
    assert turns[..n] == turns && TableAfter(t, turns, stuck) == Swept(h[n - 1], stuck);
    FirstBacklog(t, now, turns, stuck, f);
    LeftShrinks(|ExpiredIds(t, now) - stuck|, |Backlog(h[0], stuck)|, |Backlog(h[n - 1], stuck)|,
                |ExpiredIds(Swept(h[n - 1], stuck), h[n - 1].now) - stuck|, n, f);
  }

  lemma FirstBacklog(t: Table, now: Time, turns: seq<Turn>, stuck: set<string>, f: nat)
    requires turns != [] && Timely(now, turns) && Calm(t, now, End(now, turns), stuck, f)
    ensures |Backlog(PassAt(t, turns, stuck, 0), stuck)| <= |ExpiredIds(t, now) - stuck|
  {
    TimesGrow(now, turns, 0);
    assert turns[..0] == [];
    SubsetSize(Backlog(PassAt(t, turns, stuck, 0), stuck), ExpiredIds(t, now) - stuck);
  }

  /**
   Bounded drain, on runs of the protocol: n > 0 turns of one sweeper whose object deletes fail
   exactly for the stuck rows, at most f < 100 of which have expired, are a legal run, and if no
   further row expires they leave at most max(0, g - n * (100 - f)) of the g rows that had
   expired and can be deleted.
   */
  lemma TurnsDrainTheBacklog(cfg: Config, s: State, me: nat, turns: seq<Turn>, stuck: set<string>, f: nat)
    requires me !in s.ops && turns != [] && f < 100 && Timely(s.now, turns) && AllDraw(s.files, turns, stuck)
    requires Calm(s.files, s.now, End(s.now, turns), stuck, f)
    ensures Legal(cfg, s, Turns(me, s.now, turns, stuck))
    ensures var s' := After(cfg, s, Turns(me, s.now, turns, stuck));
      && s'.now == End(s.now, turns) && SubTable(s'.files, s.files)
      && var left := |ExpiredIds(s'.files, s'.now) - stuck|;
         left == 0 || left + |turns| * (100 - f) <= |ExpiredIds(s.files, s.now) - stuck|
  {
    var s' := TurnsAreLegal(cfg, s, me, turns, stuck);
    TurnsOnlyDelete(s.files, turns, stuck);
    TablesDrain(s.files, s.now, turns, stuck, f);
  }

  // With g <= n * (100 - f) only stuck rows are left.
  lemma TurnsEmptyTheBacklog(cfg: Config, s: State, me: nat, turns: seq<Turn>, stuck: set<string>, f: nat)
    requires me !in s.ops && turns != [] && f < 100 && Timely(s.now, turns) && AllDraw(s.files, turns, stuck)
    requires Calm(s.files, s.now, End(s.now, turns), stuck, f)
    requires |ExpiredIds(s.files, s.now) - stuck| <= |turns| * (100 - f)
    ensures Legal(cfg, s, Turns(me, s.now, turns, stuck))
    ensures var s' := After(cfg, s, Turns(me, s.now, turns, stuck)); ExpiredIds(s'.files, s'.now) <= stuck
  {
    TurnsDrainTheBacklog(cfg, s, me, turns, stuck, f);
    var s' := After(cfg, s, Turns(me, s.now, turns, stuck));
    NoneLeft(ExpiredIds(s'.files, s'.now), stuck);
  }

  // The other results on runs of the protocol: no row is drawn behind a full batch of stuck ones,
  lemma TurnsStarveTheRest(cfg: Config, s: State, me: nat, turns: seq<Turn>, stuck: set<string>, head: set<string>,
                           id: string)
    requires me !in s.ops && turns != [] && Timely(s.now, turns) && AllDraw(s.files, turns, stuck)
    requires |head| >= 100 && head <= stuck && id !in stuck && Behind(s.files, head, id)
    ensures Legal(cfg, s, Turns(me, s.now, turns, stuck))
    ensures Behind(After(cfg, s, Turns(me, s.now, turns, stuck)).files, head, id)
  {
    var s' := TurnsAreLegal(cfg, s, me, turns, stuck);
    var h, n := History(s.files, turns, stuck), |turns|;
    HistoryIsOneSweepers(s.files, turns, stuck);
    assert turns[..0] == [] && turns[..n] == turns;
    StarvedBehindAFullBatch(h, stuck, head, id, n - 1);
    NextTable(s.files, turns, stuck, n - 1);
    StillBehind(h[n - 1], Pass(s'.files, 0, {}), stuck, head, id);
  }

  lemma HistoryIsOneSweepers(t: Table, turns: seq<Turn>, stuck: set<string>)
    requires AllDraw(t, turns, stuck)
    ensures var h := History(t, turns, stuck);
      && (forall k | 0 <= k < |h| :: Drawn(h[k]))
      && (forall k | 0 <= k < |h| - 1 :: h[k + 1].table == Swept(h[k], stuck))
  {
    forall k | 0 <= k < |turns|
      ensures Drawn(PassAt(t, turns, stuck, k))
    {
      assert DrawsAfter(t, turns[..k], turns[k], stuck);
    }
    forall k | 0 <= k < |turns| - 1
      ensures PassAt(t, turns, stuck, k + 1).table == Swept(PassAt(t, turns, stuck, k), stuck)
    {
      NextTable(t, turns, stuck, k);
    }
  }

  // a row behind r others is gone after floor(r / 100) + 1 turns from when it is first found expired,
  lemma TurnsReachEveryRank(cfg: Config, s: State, me: nat, turns: seq<Turn>, id: string)
    requires me !in s.ops && Timely(s.now, turns) && AllDraw(s.files, turns, {})
    requires id in s.files && |turns| == |Ahead(s.files, id)| / 100 + 1 && s.files[id].expiresAt <= turns[0].at
    ensures Legal(cfg, s, Turns(me, s.now, turns, {}))
    ensures id !in After(cfg, s, Turns(me, s.now, turns, {})).files
  {
    var s' := TurnsAreLegal(cfg, s, me, turns, {});
    if id in s'.files { RankIsReached(s.files, s.now, turns, id); }
  }

  lemma RankIsReached(t: Table, now: Time, turns: seq<Turn>, id: string)
    requires Timely(now, turns) && AllDraw(t, turns, {})
    requires id in t && |turns| == |Ahead(t, id)| / 100 + 1 && t[id].expiresAt <= turns[0].at
    ensures id !in TableAfter(t, turns, {})
  {
    var n := |turns| - 1;
    NextTable(t, turns, {}, n);
    assert turns[..n + 1] == turns;
    if k :| 0 <= k <= n && id !in PassAt(t, turns, {}, k).table {
      GoneStaysGone(t, turns, {}, k, n + 1, id);
    } else {
      RankCountsDown(t, now, turns, id, n);
    }
  }

  lemma RankCountsDown(t: Table, now: Time, turns: seq<Turn>, id: string, n: nat)
    requires Timely(now, turns) && AllDraw(t, turns, {})
    requires id in t && n == |Ahead(t, id)| / 100 && |turns| == n + 1 && t[id].expiresAt <= turns[0].at
    requires forall k | 0 <= k <= n :: id in PassAt(t, turns, {}, k).table
    ensures id !in Swept(PassAt(t, turns, {}, n), {})
  {
    ExpiredThroughout(t, now, turns, id);
    NothingArrives(t, turns, id);
    HistoryIsOneSweepers(t, turns, {});
    assert turns[..0] == [] && History(t, turns, {})[0].table == t;
    RankBoundsLateness(History(t, turns, {}), id, n);
  }

  lemma ExpiredThroughout(t: Table, now: Time, turns: seq<Turn>, id: string)
    requires Timely(now, turns) && turns != [] && id in t && t[id].expiresAt <= turns[0].at
    ensures var h := History(t, turns, {});
      forall k | 0 <= k < |h| && id in h[k].table :: h[k].table[id].expiresAt <= h[k].now
  {
    forall k | 0 <= k < |turns| && id in PassAt(t, turns, {}, k).table
      ensures PassAt(t, turns, {}, k).table[id].expiresAt <= PassAt(t, turns, {}, k).now
    {
      TurnsOnlyDelete(t, turns[..k], {});
      FirstIsEarliest(now, turns, k);
    }
  }

  lemma NothingArrives(t: Table, turns: seq<Turn>, id: string)
    ensures var h := History(t, turns, {});
      forall k | 0 <= k < |h| - 1 :: LaterArrivals(h[k], h[k + 1], id)
  {
    var h := History(t, turns, {});
    forall k | 0 <= k < |h| - 1
      ensures LaterArrivals(h[k], h[k + 1], id)
    {
      NextTable(t, turns, {}, k);
    }
  }

  lemma {:induction false} FirstIsEarliest(now: Time, turns: seq<Turn>, k: nat)
    requires Timely(now, turns) && k < |turns|
    ensures turns[0].at <= turns[k].at
    decreases k
  {
    if k > 0 {
      FirstIsEarliest(now, turns, k - 1);
      NextTimeIsLater(now, turns, k - 1);
    }
  }

  lemma {:induction false} GoneStaysGone(t: Table, turns: seq<Turn>, stuck: set<string>, k: nat, m: nat, id: string)
    requires k <= m <= |turns| && id !in TableAfter(t, turns[..k], stuck)
    ensures id !in TableAfter(t, turns[..m], stuck)
    decreases m
  {
    if k < m {
      GoneStaysGone(t, turns, stuck, k, m - 1, id);
      NextTable(t, turns, stuck, m - 1);
    }
  }

  // and the backlog at the next tick is max(0, b - 100) plus what expired since.
  lemma TurnFollowsTheRecurrence(cfg: Config, s: State, me: nat, turn: Turn, later: nat)
    requires me !in s.ops && s.now <= turn.at && Draws(s.files, turn)
    ensures Legal(cfg, s, TurnSteps(me, s.now, turn, {}) + [Tick(later)])
    ensures var s' := After(cfg, s, TurnSteps(me, s.now, turn, {}) + [Tick(later)]);
      var b := |ExpiredIds(s.files, turn.at)|;
      |ExpiredIds(s'.files, s'.now)|
        == (if b < 100 then 0 else b - 100) + |ExpiredIds(s'.files, s'.now) - ExpiredIds(s'.files, turn.at)|
  {
    DrawnIsPossible(s.files, turn);
    TurnEffect(cfg, s, me, turn, {});
    Extend(cfg, s, TurnSteps(me, s.now, turn, {}), Tick(later));
    var p := PassOf(s.files, turn);
    BacklogRecurrence(p, Pass(Swept(p, {}), turn.at + later, {}));
  }

  lemma NoneLeft(ids: set<string>, stuck: set<string>)
    requires |ids - stuck| <= 0
    ensures ids <= stuck
  {
    assert ids - stuck == {};
    assert forall x | x in ids :: x in stuck || x in ids - stuck;
  }
}
