/**
 Nodes and janitors in time. A reporter is a loop around a ticker whose channel holds one tick: a
 heartbeat that takes long makes it drop ticks. A janitor reads the clock and then issues the
 update; anything may happen in between.
 */
module NodeLiveness {
  import opened Metadata
  import opened Nodes

  // The settings, and what is assumed of the deployment: a heartbeat takes effect within `delay`
  // of its stamp; the janitor wakes up every `janitorInterval` and its update takes effect
  // within `janitorDelay`.
  datatype Timing = Timing(interval: nat, delay: nat, staleAfter: int, janitorInterval: nat, janitorDelay: nat)

  // `stamp` is the time the last heartbeat read; `calling` that it has not returned yet;
  // `tick` that the channel holds a tick.
  datatype Reporting = Reporting(hostname: string, startedAt: Time, nextTick: Time, tick: bool,
                                 stamp: Time, calling: bool)

  datatype Report = Report(at: Time, nodes: set<string>, delivered: bool)

  datatype State = State(
    now: Time,
    nodes: NodeTable,
    reporters: map<string, Reporting>,
    sweeps: map<nat, Time>,         // janitors between clock and update, with the time they read
    lastSweep: map<nat, Time>,      // the time each janitor read last
    reports: seq<Report>)

  datatype Event =
    | Tick(elapsed: nat)
    | Start(node: string, hostname: string)
    | Stop(node: string)
    | Stamp(node: string)           // the loop takes a tick and reads the clock
    | Apply(node: string)
    | Lose(node: string)            // the heartbeat fails
    | Read(janitor: nat)
    | Mark(janitor: nat)
    | MarkUnheard(janitor: nat)     // the update takes effect, its answer is lost
    | MarkFails(janitor: nat)

  function Init(start: Time): State {
    State(start, map[], map[], map[], map[], [])
  }

  // The first time after `now` at which a ticker due at `due` fires.
  function NextDue(due: Time, interval: nat, now: Time): (r: Time)
    requires interval > 0
    ensures now < r && (r == due || r <= now + interval)
    decreases now - due
  {
    if now < due then due else NextDue(due + interval, interval, now)
  }

  lemma DueNow(interval: nat, now: Time)
    requires interval > 0
    ensures NextDue(now, interval, now) == now + interval
  {
    assert NextDue(now + interval, interval, now) == now + interval;
  }

  function Ticked(cfg: Timing, r: Reporting, now: Time): Reporting
    requires cfg.interval > 0
  {
    if r.nextTick <= now then r.(tick := true, nextTick := NextDue(r.nextTick, cfg.interval, now)) else r
  }

  function Swept(cfg: Timing, s: State, j: nat, delivered: bool): State
    requires j in s.sweeps
  {
    var at := s.sweeps[j];
    s.(nodes := Marked(s.nodes, at - cfg.staleAfter, at),
       reports := s.reports + [Report(at, StaleNodes(s.nodes, at - cfg.staleAfter), delivered)],
       sweeps := s.sweeps - {j})
  }

  // A step whose turn it is not changes nothing.
  function Next(cfg: Timing, s: State, e: Event): State
    requires cfg.interval > 0
  {
    match e
    case Tick(elapsed) =>
      s.(now := s.now + elapsed, reporters := map n | n in s.reporters :: Ticked(cfg, s.reporters[n], s.now + elapsed))
    case Start(n, hostname) =>
      if n in s.reporters then s
      else s.(reporters := s.reporters[n := Reporting(hostname, s.now, s.now + cfg.interval, false, s.now, true)])
    case Stop(n) => s.(reporters := s.reporters - {n})
    case Stamp(n) =>
      if n in s.reporters && s.reporters[n].tick && !s.reporters[n].calling
      then s.(reporters := s.reporters[n := s.reporters[n].(tick := false, stamp := s.now, calling := true)]) else s
    case Apply(n) =>
      if n in s.reporters && s.reporters[n].calling then
        var r := s.reporters[n];
        s.(nodes := Stamped(s.nodes, n, r.hostname, r.startedAt, r.stamp),
           reporters := s.reporters[n := r.(calling := false)])
      else s
    case Lose(n) => if n in s.reporters then s.(reporters := s.reporters[n := s.reporters[n].(calling := false)]) else s
    case Read(j) =>
      if j in s.sweeps then s else s.(sweeps := s.sweeps[j := s.now], lastSweep := s.lastSweep[j := s.now])
    case Mark(j) => if j in s.sweeps then Swept(cfg, s, j, true) else s
    case MarkUnheard(j) => if j in s.sweeps then Swept(cfg, s, j, false) else s
    case MarkFails(j) => s.(sweeps := s.sweeps - {j})
  }

  function After(cfg: Timing, s: State, run: seq<Event>): State
    requires cfg.interval > 0
    decreases |run|
  {
    if run == [] then s else Next(cfg, After(cfg, s, run[..|run| - 1]), run[|run| - 1])
  }

  lemma AfterOneMore(cfg: Timing, s: State, run: seq<Event>, e: Event)
    requires cfg.interval > 0
    ensures After(cfg, s, run + [e]) == Next(cfg, After(cfg, s, run), e)
  {
    assert (run + [e])[..|run + [e]| - 1] == run;
  }

  /** The steps that change the table do what the calls they stand for do: a heartbeat records the
      time its loop read, an update flags by the time its janitor read. */
  lemma StepsAreTheCalls(cfg: Timing, s: State, n: string, j: nat)
    requires cfg.interval > 0
    ensures n in s.reporters && s.reporters[n].calling ==>
      var r := s.reporters[n];
      BeatRecorded(s.nodes, Next(cfg, s, Apply(n)).nodes, n, r.hostname, r.startedAt, r.stamp)
    ensures j in s.sweeps ==>
      var at, t := s.sweeps[j], Next(cfg, s, Mark(j)).nodes;
      && t.Keys == s.nodes.Keys && t == Next(cfg, s, MarkUnheard(j)).nodes
      && forall m | m in t ::
           var was := s.nodes[m];
           t[m] == if was.online && was.lastHeartbeatAt + cfg.staleAfter <= at
                   then NodeRow(was.hostname, false, was.startedAt, was.lastHeartbeatAt, Some(at)) else was
  {
    if n in s.reporters {
      var r := s.reporters[n];
      UpsertRecordsTheBeat(s.nodes, Stamped(s.nodes, n, r.hostname, r.startedAt, r.stamp), n, r.hostname, r.startedAt,
                           r.stamp);
    }
  }

  // ----- the state of a row -----

  // A row is offline exactly when it carries a mark, and the mark is at least `staleAfter` past
  // its last heartbeat.
  ghost predicate RowInv(cfg: Timing, row: NodeRow) {
    && (row.online <==> row.markedOfflineAt.None?)
    && (!row.online ==> row.lastHeartbeatAt + cfg.staleAfter <= row.markedOfflineAt.value)
  }

  ghost predicate RowsInv(cfg: Timing, s: State) {
    forall n | n in s.nodes :: RowInv(cfg, s.nodes[n])
  }

  lemma StepKeepsRows(cfg: Timing, s: State, e: Event)
    requires cfg.interval > 0 && RowsInv(cfg, s)
    ensures RowsInv(cfg, Next(cfg, s, e))
  {
  }

  /** In every reachable state, with any number of janitors and any failures. */
  lemma {:induction false} MarksMatchStatus(cfg: Timing, start: Time, run: seq<Event>)
    requires cfg.interval > 0
    ensures RowsInv(cfg, After(cfg, Init(start), run))
  {
    if run != [] {
      var front := run[..|run| - 1];
      MarksMatchStatus(cfg, start, front);
      StepKeepsRows(cfg, After(cfg, Init(start), front), run[|run| - 1]);
    }
  }

  predicate Offline(s: State, n: string) {
    n in s.nodes && !s.nodes[n].online
  }

  // How often a node went from online to offline.
  function Transitions(cfg: Timing, start: Time, run: seq<Event>, n: string): nat
    requires cfg.interval > 0
  {
    if run == [] then 0
    else
      var front := run[..|run| - 1];
      Transitions(cfg, start, front, n)
      + if !Offline(After(cfg, Init(start), front), n) && Offline(After(cfg, Init(start), run), n) then 1 else 0
  }

  // How many updates returned it.
  function Reported(reports: seq<Report>, n: string): nat {
    if reports == [] then 0
    else Reported(reports[..|reports| - 1], n) + if n in reports[|reports| - 1].nodes then 1 else 0
  }

  lemma ReportedOneMore(reports: seq<Report>, r: Report, n: string)
    ensures Reported(reports + [r], n) == Reported(reports, n) + if n in r.nodes then 1 else 0
  {
    assert (reports + [r])[..|reports|] == reports;
  }

  lemma StepReports(cfg: Timing, s: State, e: Event, n: string)
    requires cfg.interval > 0
    ensures Reported(Next(cfg, s, e).reports, n)
         == Reported(s.reports, n) + if !Offline(s, n) && Offline(Next(cfg, s, e), n) then 1 else 0
  {
    if (e.Mark? || e.MarkUnheard?) && e.janitor in s.sweeps {
      var at := s.sweeps[e.janitor];
      ReportedOneMore(s.reports, Report(at, StaleNodes(s.nodes, at - cfg.staleAfter), e.Mark?), n);
    }
  }

  /** Every transition is returned by exactly one update, however many janitors overlap. */
  lemma {:induction false} EachTransitionIsReportedOnce(cfg: Timing, start: Time, run: seq<Event>, n: string)
    requires cfg.interval > 0
    ensures Reported(After(cfg, Init(start), run).reports, n) == Transitions(cfg, start, run, n)
  {
    if run != [] {
      var front := run[..|run| - 1];
      EachTransitionIsReportedOnce(cfg, start, front, n);
      StepReports(cfg, After(cfg, Init(start), front), run[|run| - 1], n);
    }
  }

  lemma StepKeepsMark(cfg: Timing, s: State, e: Event, n: string)
    requires cfg.interval > 0 && Offline(s, n) && e != Apply(n)
    ensures n in Next(cfg, s, e).nodes && Next(cfg, s, e).nodes[n] == s.nodes[n]
  {
  }

  /** A flagged row keeps its mark until the node's next heartbeat. */
  lemma {:induction false} MarkStaysUntilHeartbeat(cfg: Timing, s: State, run: seq<Event>, n: string)
    requires cfg.interval > 0 && Offline(s, n) && Apply(n) !in run
    ensures n in After(cfg, s, run).nodes && After(cfg, s, run).nodes[n] == s.nodes[n]
    decreases |run|
  {
    if run != [] {
      var front, e := run[..|run| - 1], run[|run| - 1];
      MarkStaysUntilHeartbeat(cfg, s, front, n);
      assert e in run;
      StepKeepsMark(cfg, After(cfg, s, front), e, n);
    }
  }

  // ----- live nodes -----

  // Node n runs: it is not stopped, a heartbeat returns within `delay`, with or without having
  // taken effect, and its loop takes a tick when there is one.
  predicate Punctual(cfg: Timing, s: State, e: Event, n: string) {
    && e != Stop(n)
    && (e.Tick? && n in s.reporters ==>
        var r, later := s.reporters[n], s.now + e.elapsed;
        if r.calling then later <= r.stamp + cfg.delay
        else if r.tick then e.elapsed == 0
        else later <= r.nextTick)
  }

  // How many heartbeats were lost since the last that took effect, once one has.
  function NextLost(s: State, e: Event, n: string, lost: Option<nat>): Option<nat> {
    if n !in s.reporters || !s.reporters[n].calling then lost
    else if e == Apply(n) then Some(0)
    else if e == Lose(n) && lost.Some? then Some(lost.value + 1)
    else lost
  }

  function Lost(cfg: Timing, s: State, life: seq<Event>, n: string): Option<nat>
    requires cfg.interval > 0
  {
    if life == [] then None
    else
      var front := life[..|life| - 1];
      NextLost(After(cfg, s, front), life[|life| - 1], n, Lost(cfg, s, front, n))
  }

  // Node n runs all the time, and never loses more than k heartbeats in a row.
  predicate Alive(cfg: Timing, s: State, life: seq<Event>, n: string, k: nat)
    requires cfg.interval > 0
  {
    life == [] || (
      var front := life[..|life| - 1];
      && Alive(cfg, s, front, n, k)
      && Punctual(cfg, After(cfg, s, front), life[|life| - 1], n)
      && (Lost(cfg, s, life, n).Some? ==> Lost(cfg, s, life, n).value <= k))
  }

  // The longest time between two stamps of a live node.
  function Gap(cfg: Timing): nat {
    if cfg.interval < cfg.delay then cfg.delay else cfg.interval
  }

  // n times that.
  function Gaps(cfg: Timing, n: nat): nat {
    if n == 0 then 0 else Gaps(cfg, n - 1) + Gap(cfg)
  }

  lemma {:induction false} GapsIsTheProduct(cfg: Timing, n: nat)
    ensures Gaps(cfg, n) == n * Gap(cfg)
  {
    if n > 0 {
      GapsIsTheProduct(cfg, n - 1);
      assert n * Gap(cfg) == (n - 1) * Gap(cfg) + Gap(cfg);
    }
  }

  lemma {:induction false} MoreGaps(cfg: Timing, n: nat, m: nat)
    requires n <= m
    ensures Gaps(cfg, n) <= Gaps(cfg, m)
  {
    if n < m { MoreGaps(cfg, n, m - 1); }
  }

  ghost predicate BeatInv(cfg: Timing, now: Time, r: Reporting) {
    && r.stamp <= now < r.nextTick <= now + cfg.interval
    && (!r.tick ==> r.nextTick <= r.stamp + cfg.interval)
    && now <= r.stamp + if r.calling then cfg.delay else Gap(cfg)
  }

  ghost predicate SweepsRead(s: State) {
    forall j | j in s.sweeps :: s.sweeps[j] <= s.now
  }

  // The row of a node of which so many heartbeats are lost.
  ghost predicate RowIsRecent(cfg: Timing, row: NodeRow, r: Reporting, lost: nat) {
    row.online && r.stamp <= row.lastHeartbeatAt + Gaps(cfg, if r.calling then lost + 1 else lost)
  }

  // A running node, and what the table knows of it once it has had a heartbeat; `known` says
  // whether it had a row before it started.
  ghost predicate LiveInv(cfg: Timing, s: State, n: string, known: bool, lost: Option<nat>) {
    && n in s.reporters && BeatInv(cfg, s.now, s.reporters[n]) && SweepsRead(s)
    && (lost.Some? ==> n in s.nodes && RowIsRecent(cfg, s.nodes[n], s.reporters[n], lost.value))
    && (lost.None? && !known ==> n !in s.nodes)
  }

  lemma StepSweeps(cfg: Timing, s: State, e: Event)
    requires cfg.interval > 0 && SweepsRead(s)
    ensures SweepsRead(Next(cfg, s, e)) && s.now <= Next(cfg, s, e).now
  {
  }

  lemma {:induction false} SweepsAreRead(cfg: Timing, start: Time, run: seq<Event>)
    requires cfg.interval > 0
    ensures SweepsRead(After(cfg, Init(start), run))
  {
    if run != [] {
      SweepsAreRead(cfg, start, run[..|run| - 1]);
      StepSweeps(cfg, After(cfg, Init(start), run[..|run| - 1]), run[|run| - 1]);
    }
  }

  lemma StartIsLive(cfg: Timing, s: State, n: string, hostname: string)
    requires cfg.interval > 0 && SweepsRead(s) && n !in s.reporters
    ensures LiveInv(cfg, Next(cfg, s, Start(n, hostname)), n, n in s.nodes, None)
  {
  }

  // A heartbeat that takes effect settles everything, whatever the row said before.
  lemma BeatSettles(cfg: Timing, s: State, n: string)
    requires cfg.interval > 0 && n in s.reporters && s.reporters[n].calling && BeatInv(cfg, s.now, s.reporters[n])
    requires SweepsRead(s)
    ensures LiveInv(cfg, Next(cfg, s, Apply(n)), n, true, Some(0))
  {
  }

  lemma RowIsNotStale(cfg: Timing, s: State, n: string, known: bool, lost: nat, k: nat)
    requires LiveInv(cfg, s, n, known, Some(lost)) && lost <= k && Gaps(cfg, k + 1) + cfg.delay < cfg.staleAfter
    ensures s.now - cfg.staleAfter < s.nodes[n].lastHeartbeatAt
  {
    MoreGaps(cfg, lost + 1, k + 1);
  }

  // The loop of a punctual node keeps its rhythm.
  lemma StepBeat(cfg: Timing, s: State, e: Event, n: string)
    requires cfg.interval > 0 && n in s.reporters && BeatInv(cfg, s.now, s.reporters[n]) && Punctual(cfg, s, e, n)
    ensures n in Next(cfg, s, e).reporters && BeatInv(cfg, Next(cfg, s, e).now, Next(cfg, s, e).reporters[n])
  {
  }

  // Its row changes with its own heartbeats only, as long as it is not stale for any janitor.
  lemma StepRow(cfg: Timing, s: State, e: Event, n: string, known: bool, lost: Option<nat>)
    requires cfg.interval > 0 && LiveInv(cfg, s, n, known, lost) && Punctual(cfg, s, e, n)
    requires lost.Some? ==> s.now - cfg.staleAfter < s.nodes[n].lastHeartbeatAt
    ensures var s', lost' := Next(cfg, s, e), NextLost(s, e, n, lost);
      && n in s'.reporters
      && (lost'.Some? ==> n in s'.nodes && RowIsRecent(cfg, s'.nodes[n], s'.reporters[n], lost'.value))
      && (lost'.None? && !known ==> n !in s'.nodes)
  {
  }

  lemma StepLive(cfg: Timing, s: State, e: Event, n: string, known: bool, lost: Option<nat>, k: nat)
    requires cfg.interval > 0 && Gaps(cfg, k + 1) + cfg.delay < cfg.staleAfter
    requires LiveInv(cfg, s, n, known, lost) && (lost.Some? ==> lost.value <= k) && Punctual(cfg, s, e, n)
    ensures LiveInv(cfg, Next(cfg, s, e), n, known, NextLost(s, e, n, lost))
  {
    if lost.Some? { RowIsNotStale(cfg, s, n, known, lost.value, k); }
    StepBeat(cfg, s, e, n);
    StepSweeps(cfg, s, e);
    StepRow(cfg, s, e, n, known, lost);
  }

  /** From any state in which node n has started, running with at most k heartbeats lost in a row
      keeps its row, from the first heartbeat that takes effect, online and recent. */
  lemma {:induction false} LiveNodeIsNeverFlagged(cfg: Timing, s: State, life: seq<Event>, n: string, known: bool,
                                                  k: nat)
    requires cfg.interval > 0 && Gaps(cfg, k + 1) + cfg.delay < cfg.staleAfter
    requires LiveInv(cfg, s, n, known, None) && Alive(cfg, s, life, n, k)
    ensures LiveInv(cfg, After(cfg, s, life), n, known, Lost(cfg, s, life, n))
    decreases |life|
  {
    if life != [] {
      var front := life[..|life| - 1];
      LiveNodeIsNeverFlagged(cfg, s, front, n, known, k);
      LostIsFew(cfg, s, front, n, k);
      StepLive(cfg, After(cfg, s, front), life[|life| - 1], n, known, Lost(cfg, s, front, n), k);
    }
  }

  lemma LostIsFew(cfg: Timing, s: State, life: seq<Event>, n: string, k: nat)
    requires cfg.interval > 0 && Alive(cfg, s, life, n, k)
    ensures Lost(cfg, s, life, n).Some? ==> Lost(cfg, s, life, n).value <= k
  {
  }

  // Whatever happened before, restarts and marks of this very node included: from its start on, a
  // node that lives on and loses no more than k heartbeats in a row is not flagged, unless its
  // row of old is and no heartbeat has taken effect yet.
  ghost predicate NeverFlagged(cfg: Timing, k: nat)
    requires cfg.interval > 0
  {
    forall begin, past, hostname, n, life |
      n !in After(cfg, Init(begin), past).reporters
      && Alive(cfg, Next(cfg, After(cfg, Init(begin), past), Start(n, hostname)), life, n, k) ::
      NotFlagged(cfg, After(cfg, Init(begin), past), hostname, n, life)
  }

  ghost predicate NotFlagged(cfg: Timing, before: State, hostname: string, n: string, life: seq<Event>)
    requires cfg.interval > 0
  {
    var s := Next(cfg, before, Start(n, hostname));
    Offline(After(cfg, s, life), n) ==> Lost(cfg, s, life, n).None? && n in before.nodes
  }

  // How a state came about from s, and how many heartbeats were lost last.
  ghost predicate Reaches(cfg: Timing, s: State, life: seq<Event>, n: string, k: nat, s': State, lost: Option<nat>)
    requires cfg.interval > 0
  {
    Alive(cfg, s, life, n, k) && After(cfg, s, life) == s' && Lost(cfg, s, life, n) == lost
  }

  lemma ReachesNext(cfg: Timing, s: State, life: seq<Event>, n: string, k: nat, s': State, lost: Option<nat>, e: Event)
    requires cfg.interval > 0 && Reaches(cfg, s, life, n, k, s', lost) && Punctual(cfg, s', e, n)
    requires NextLost(s', e, n, lost).Some? ==> NextLost(s', e, n, lost).value <= k
    ensures Reaches(cfg, s, life + [e], n, k, Next(cfg, s', e), NextLost(s', e, n, lost))
  {
    assert (life + [e])[..|life + [e]| - 1] == life;
  }

  // A stamp has just been taken, as late as the loop allows; the row is that of time 0.
  ghost predicate JustStamped(cfg: Timing, s: State, n: string) {
    && n in s.reporters && n in s.nodes && s.sweeps == map[]
    && s.nodes[n].online && s.nodes[n].lastHeartbeatAt == 0
    && var r := s.reporters[n];
       && r.calling && !r.tick && r.stamp == s.now < r.nextTick <= s.now + cfg.interval
       && (cfg.delay <= cfg.interval ==> r.nextTick == s.now + cfg.interval)
  }

  // Three steps of a life.
  lemma ReachesThird(cfg: Timing, s: State, life: seq<Event>, n: string, k: nat, s0: State, lost: Option<nat>,
                     e1: Event, e2: Event, e3: Event)
    requires cfg.interval > 0 && Reaches(cfg, s, life, n, k, s0, lost)
    requires var s1 := Next(cfg, s0, e1); var s2 := Next(cfg, s1, e2);
      Punctual(cfg, s0, e1, n) && Punctual(cfg, s1, e2, n) && Punctual(cfg, s2, e3, n)
    requires var s1 := Next(cfg, s0, e1); var s2 := Next(cfg, s1, e2);
      var l1 := NextLost(s0, e1, n, lost); var l2 := NextLost(s1, e2, n, l1); var l3 := NextLost(s2, e3, n, l2);
      (l1.Some? ==> l1.value <= k) && (l2.Some? ==> l2.value <= k) && (l3.Some? ==> l3.value <= k)
    ensures var s1 := Next(cfg, s0, e1); var s2 := Next(cfg, s1, e2);
      Reaches(cfg, s, life + [e1] + [e2] + [e3], n, k, Next(cfg, s2, e3),
              NextLost(s2, e3, n, NextLost(s1, e2, n, NextLost(s0, e1, n, lost))))
  {
    var s1 := Next(cfg, s0, e1);
    var s2 := Next(cfg, s1, e2);
    var l1 := NextLost(s0, e1, n, lost);
    var l2 := NextLost(s1, e2, n, l1);
    ReachesNext(cfg, s, life, n, k, s0, lost, e1);
    ReachesNext(cfg, s, life + [e1], n, k, s1, l1, e2);
    ReachesNext(cfg, s, life + [e1] + [e2], n, k, s2, l2, e3);
  }

  // A heartbeat that takes its whole delay; meanwhile the next tick has come.
  lemma SlowBeat(cfg: Timing, s: State, n: string)
    requires cfg.interval > 0 && cfg.interval < cfg.delay && n in s.reporters
    requires var r := s.reporters[n]; r.calling && !r.tick && r.stamp == s.now < r.nextTick <= s.now + cfg.interval
    ensures Punctual(cfg, s, Tick(cfg.delay), n)
    ensures var s1 := Next(cfg, s, Tick(cfg.delay));
      && s1 == s.(now := s1.now, reporters := s1.reporters) && s1.now == s.now + cfg.delay && n in s1.reporters
      && var r := s1.reporters[n];
         r == s.reporters[n].(tick := true, nextTick := r.nextTick) && s1.now < r.nextTick <= s1.now + cfg.interval
  {
  }

  // A heartbeat that returned at once; the next tick comes after the interval.
  lemma FastBeat(cfg: Timing, s: State, n: string)
    requires cfg.interval > 0 && n in s.reporters
    requires var r := s.reporters[n]; !r.calling && !r.tick && r.stamp == s.now && r.nextTick == s.now + cfg.interval
    ensures Punctual(cfg, s, Tick(cfg.interval), n)
    ensures var s1 := Next(cfg, s, Tick(cfg.interval));
      && s1 == s.(now := s1.now, reporters := s1.reporters) && s1.now == s.now + cfg.interval && n in s1.reporters
      && s1.reporters[n] == s.reporters[n].(tick := true, nextTick := s1.now + cfg.interval)
  {
    DueNow(cfg.interval, s.now + cfg.interval);
  }

  // The first heartbeat takes effect; the second stamp comes as late as possible.
  lemma SecondStamp(cfg: Timing, n: string, k: nat) returns (life: seq<Event>, s: State)
    requires cfg.interval > 0
    ensures Reaches(cfg, Next(cfg, Init(0), Start(n, "")), life, n, k, s, Some(0))
    ensures JustStamped(cfg, s, n) && s.now == Gap(cfg)
  {
    var s0 := Next(cfg, Init(0), Start(n, ""));
    var e1, e2 := Tick(cfg.delay), Apply(n);
    if cfg.interval < cfg.delay {
      SlowBeat(cfg, s0, n);
    } else {
      e1, e2 := Apply(n), Tick(cfg.interval);
      FastBeat(cfg, Next(cfg, s0, e1), n);
    }
    ReachesThird(cfg, s0, [], n, k, s0, None, e1, e2, Stamp(n));
    life, s := [] + [e1] + [e2] + [Stamp(n)], Next(cfg, Next(cfg, Next(cfg, s0, e1), e2), Stamp(n));
  }

  // The three steps that lose a heartbeat, and what they do to the node.
  ghost predicate LosesOne(cfg: Timing, s: State, n: string, lost: nat, e1: Event, e2: Event)
    requires cfg.interval > 0
  {
    var s1 := Next(cfg, s, e1);
    var s2 := Next(cfg, s1, e2);
    var s3 := Next(cfg, s2, Stamp(n));
    var l1 := NextLost(s, e1, n, Some(lost));
    var l2 := NextLost(s1, e2, n, l1);
    && Punctual(cfg, s, e1, n) && Punctual(cfg, s1, e2, n)
    && l1.Some? && l1.value <= lost + 1 && l2 == Some(lost + 1) && NextLost(s2, Stamp(n), n, l2) == l2
    && JustStamped(cfg, s3, n) && s3.now == s.now + Gap(cfg)
  }

  lemma SlowLoss(cfg: Timing, s: State, n: string, lost: nat)
    requires cfg.interval > 0 && cfg.interval < cfg.delay && JustStamped(cfg, s, n)
    ensures LosesOne(cfg, s, n, lost, Tick(cfg.delay), Lose(n))
  {
    SlowBeat(cfg, s, n);
  }

  lemma FastLoss(cfg: Timing, s: State, n: string, lost: nat)
    requires cfg.interval > 0 && cfg.interval >= cfg.delay && JustStamped(cfg, s, n)
    ensures LosesOne(cfg, s, n, lost, Lose(n), Tick(cfg.interval))
  {
    FastBeat(cfg, Next(cfg, s, Lose(n)), n);
  }

  // Another heartbeat is lost; the next stamp comes as late as possible.
  lemma OneLoss(cfg: Timing, s0: State, life: seq<Event>, n: string, k: nat, s: State,
                lost: nat) returns (life': seq<Event>, s': State)
    requires cfg.interval > 0 && Reaches(cfg, s0, life, n, k, s, Some(lost)) && lost < k && JustStamped(cfg, s, n)
    ensures Reaches(cfg, s0, life', n, k, s', Some(lost + 1)) && JustStamped(cfg, s', n) && s'.now == s.now + Gap(cfg)
  {
    var e1, e2 := Tick(cfg.delay), Lose(n);
    if cfg.interval < cfg.delay {
      SlowLoss(cfg, s, n, lost);
    } else {
      e1, e2 := Lose(n), Tick(cfg.interval);
      FastLoss(cfg, s, n, lost);
    }
    assert LosesOne(cfg, s, n, lost, e1, e2);
    ReachesThird(cfg, s0, life, n, k, s, Some(lost), e1, e2, Stamp(n));
    life', s' := life + [e1] + [e2] + [Stamp(n)], Next(cfg, Next(cfg, Next(cfg, s, e1), e2), Stamp(n));
  }

  // After k losses the next heartbeat takes the whole delay, and a janitor comes by.
  lemma SlowestNodeIsFlagged(cfg: Timing, n: string, k: nat) returns (life: seq<Event>)
    requires cfg.interval > 0 && Gaps(cfg, k + 1) + cfg.delay >= cfg.staleAfter
    ensures Alive(cfg, Next(cfg, Init(0), Start(n, "")), life, n, k) && !NotFlagged(cfg, Init(0), "", n, life)
  {
    var s0 := Next(cfg, Init(0), Start(n, ""));
    var s;
    life, s := SecondStamp(cfg, n, k);
    for lost := 0 to k
      invariant Reaches(cfg, s0, life, n, k, s, Some(lost)) && JustStamped(cfg, s, n) && s.now == Gaps(cfg, lost + 1)
    {
      life, s := OneLoss(cfg, s0, life, n, k, s, lost);
    }
    ReachesThird(cfg, s0, life, n, k, s, Some(k), Tick(cfg.delay), Read(0), Mark(0));
    life := life + [Tick(cfg.delay)] + [Read(0)] + [Mark(0)];
    StaleIsFlagged(cfg, s, n);
  }

  lemma StaleIsFlagged(cfg: Timing, s: State, n: string)
    requires cfg.interval > 0 && JustStamped(cfg, s, n) && s.now + cfg.delay >= cfg.staleAfter
    ensures Offline(Next(cfg, Next(cfg, Next(cfg, s, Tick(cfg.delay)), Read(0)), Mark(0)), n)
  {
  }

  lemma LivesUnflagged(cfg: Timing, begin: Time, past: seq<Event>, hostname: string, n: string, life: seq<Event>,
                       k: nat)
    requires cfg.interval > 0 && Gaps(cfg, k + 1) + cfg.delay < cfg.staleAfter
    requires n !in After(cfg, Init(begin), past).reporters
    requires Alive(cfg, Next(cfg, After(cfg, Init(begin), past), Start(n, hostname)), life, n, k)
    ensures NotFlagged(cfg, After(cfg, Init(begin), past), hostname, n, life)
  {
    var before := After(cfg, Init(begin), past);
    SweepsAreRead(cfg, begin, past);
    StartIsLive(cfg, before, n, hostname);
    LiveNodeIsNeverFlagged(cfg, Next(cfg, before, Start(n, hostname)), life, n, n in before.nodes, k);
  }

  /**
   Node liveness. However often it was restarted, lost or flagged before, and however heartbeats
   and janitors interleave, a running node of which no more than k heartbeats in a row are lost
   is never flagged once a heartbeat has taken effect, if and only if `staleAfter` is longer
   than k + 1 gaps between stamps and the delay of a heartbeat together.
   */
  lemma NeverFlaggedIff(cfg: Timing, k: nat)
    requires cfg.interval > 0
    ensures NeverFlagged(cfg, k) <==> (k + 1) * Gap(cfg) + cfg.delay < cfg.staleAfter
  {
    GapsIsTheProduct(cfg, k + 1);
    if Gaps(cfg, k + 1) + cfg.delay < cfg.staleAfter {
      forall begin, past, hostname, n, life |
        n !in After(cfg, Init(begin), past).reporters
        && Alive(cfg, Next(cfg, After(cfg, Init(begin), past), Start(n, hostname)), life, n, k)
        ensures NotFlagged(cfg, After(cfg, Init(begin), past), hostname, n, life)
      {
        LivesUnflagged(cfg, begin, past, hostname, n, life, k);
      }
    } else {
      var life := SlowestNodeIsFlagged(cfg, "n", k);
      assert After(cfg, Init(0), []) == Init(0);
    }
  }

  // What the configuration is checked for at startup.
  predicate Validated(cfg: Timing) {
    cfg.interval > 0 && cfg.staleAfter > cfg.interval && cfg.janitorInterval > 0
  }

  /**
   The check at startup is this condition for heartbeats that take no time and are never lost, and
   no more: a heartbeat that takes as long as `staleAfter - interval` gets its node flagged, and
   so does a single lost one, however fast, unless `staleAfter` is more than twice the interval.
   */
  lemma ConfigCheckIsTheInstantCase(cfg: Timing)
    requires cfg.interval > 0 && cfg.janitorInterval > 0
    ensures cfg.delay == 0 ==> (Validated(cfg) <==> NeverFlagged(cfg, 0))
    ensures cfg.delay >= cfg.staleAfter - cfg.interval ==> !NeverFlagged(cfg, 0)
    ensures cfg.delay == 0 ==> (NeverFlagged(cfg, 1) <==> 2 * cfg.interval < cfg.staleAfter)
    ensures cfg.staleAfter <= 2 * cfg.interval ==> !NeverFlagged(cfg, 1)
  {
    NeverFlaggedIff(cfg, 0);
    NeverFlaggedIff(cfg, 1);
  }

  /** The defaults, a heartbeat every 15 s and 45 s of patience, bear one lost heartbeat, if those
      that take effect do so in less than 15 s, and never two in a row. */
  lemma DefaultsBearOneLoss(cfg: Timing)
    requires cfg.interval == 15 && cfg.staleAfter == 45
    ensures NeverFlagged(cfg, 1) <==> cfg.delay < 15
    ensures !NeverFlagged(cfg, 2)
  {
    NeverFlaggedIff(cfg, 1);
    NeverFlaggedIff(cfg, 2);
  }

  // ----- silent nodes -----

  function SweepGap(cfg: Timing): nat {
    if cfg.janitorInterval < cfg.janitorDelay then cfg.janitorDelay else cfg.janitorInterval
  }

  // Janitor j runs: it wakes up every `janitorInterval`, or later if its last update took
  // longer, and its updates take effect in time.
  predicate Prompt(cfg: Timing, s: State, e: Event, j: nat) {
    && e != MarkFails(j)
    && (e.Tick? && j in s.lastSweep ==>
        s.now + e.elapsed <= if j in s.sweeps then s.sweeps[j] + cfg.janitorDelay else s.lastSweep[j] + SweepGap(cfg))
    && (e == Read(j) && j in s.lastSweep ==> s.now <= s.lastSweep[j] + SweepGap(cfg))
  }

  predicate PromptRun(cfg: Timing, s: State, run: seq<Event>, j: nat)
    requires cfg.interval > 0
    decreases |run|
  {
    run == [] || (PromptRun(cfg, s, run[..|run| - 1], j)
                  && Prompt(cfg, After(cfg, s, run[..|run| - 1]), run[|run| - 1], j))
  }

  // Until the node is flagged, the janitor has not looked after `due`, or is about to flag it.
  ghost predicate SilentInv(cfg: Timing, s: State, n: string, j: nat, stamp: Time, due: Time) {
    && j in s.lastSweep && n in s.nodes && s.nodes[n].lastHeartbeatAt == stamp
    && (j in s.sweeps ==> s.sweeps[j] == s.lastSweep[j])
    && (s.nodes[n].online ==>
        s.now <= due + SweepGap(cfg) + cfg.janitorDelay
        && s.lastSweep[j] <= due + if j in s.sweeps then SweepGap(cfg) else 0)
  }

  lemma StepSilent(cfg: Timing, s: State, e: Event, n: string, j: nat, stamp: Time, due: Time)
    requires cfg.interval > 0 && stamp + cfg.staleAfter <= due && e != Apply(n)
    requires SilentInv(cfg, s, n, j, stamp, due) && Prompt(cfg, s, e, j)
    ensures SilentInv(cfg, Next(cfg, s, e), n, j, stamp, due)
  {
  }

  /**
   A node whose last heartbeat took effect in s is flagged, if one janitor is prompt from then on,
   at the latest one janitor interval and one update after its row became stale, whatever the other
   janitors and nodes do.
   */
  lemma {:induction false} SilentNodeIsFlagged(cfg: Timing, s: State, run: seq<Event>, n: string, j: nat)
    requires cfg.interval > 0 && n in s.nodes && Apply(n) !in run
    requires j in s.lastSweep && s.lastSweep[j] <= s.now && (j in s.sweeps ==> s.sweeps[j] == s.lastSweep[j])
    requires PromptRun(cfg, s, run, j)
    ensures var due := Due(cfg, s, n);
      SilentInv(cfg, After(cfg, s, run), n, j, s.nodes[n].lastHeartbeatAt, due)
      && (After(cfg, s, run).now > due + SweepGap(cfg) + cfg.janitorDelay ==> Offline(After(cfg, s, run), n))
    decreases |run|
  {
    if run != [] {
      var front := run[..|run| - 1];
      SilentNodeIsFlagged(cfg, s, front, n, j);
      assert run[|run| - 1] in run;
      StepSilent(cfg, After(cfg, s, front), run[|run| - 1], n, j, s.nodes[n].lastHeartbeatAt, Due(cfg, s, n));
    }
  }

  // When the row of s becomes stale, or now if it is.
  function Due(cfg: Timing, s: State, n: string): Time
    requires n in s.nodes
  {
    var stale := s.nodes[n].lastHeartbeatAt + cfg.staleAfter;
    if stale < s.now then s.now else stale
  }
}
