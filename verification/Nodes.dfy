/**
 Node liveness: every node stamps its row in `node_status`, and janitors on all nodes flag the
 rows whose last stamp is too old.
 */
module Nodes {
  import opened Metadata

  datatype NodeRow = NodeRow(hostname: string, online: bool, startedAt: Time, lastHeartbeatAt: Time,
                             markedOfflineAt: Option<Time>)

  // `node_status`, by node id.
  type NodeTable = map<string, NodeRow>

  // The upsert: a row that exists keeps its `started_at`.
  function Stamped(t: NodeTable, node: string, hostname: string, startedAt: Time, now: Time): NodeTable {
    t[node := NodeRow(hostname, true, if node in t then t[node].startedAt else startedAt, now, None)]
  }

  // What a heartbeat is for.
  ghost predicate BeatRecorded(t: NodeTable, t': NodeTable, node: string, hostname: string, startedAt: Time,
                               now: Time) {
    && t'.Keys == t.Keys + {node} && (forall n | n in t && n != node :: t'[n] == t[n])
    && t'[node].hostname == hostname && t'[node].lastHeartbeatAt == now
    && (forall before | before < now :: !IsStale(t'[node], before)) && t'[node].online && t'[node].markedOfflineAt.None?
    && t'[node].startedAt == (if node in t then t[node].startedAt else startedAt)
  }

  /** The upsert is the one table that meets this. */
  lemma UpsertRecordsTheBeat(t: NodeTable, t': NodeTable, node: string, hostname: string, startedAt: Time, now: Time)
    ensures BeatRecorded(t, t', node, hostname, startedAt, now) <==> t' == Stamped(t, node, hostname, startedAt, now)
  {
    if BeatRecorded(t, t', node, hostname, startedAt, now) {
      var s := Stamped(t, node, hostname, startedAt, now);
      assert t'[node] == s[node];
      assert forall n | n in t' :: t'[n] == s[n];
    }
  }

  // status = 'online' AND last_heartbeat_at <= before
  predicate IsStale(row: NodeRow, before: Time) {
    row.online && row.lastHeartbeatAt <= before
  }

  function StaleNodes(t: NodeTable, before: Time): set<string> {
    set n | n in t && IsStale(t[n], before)
  }

  function Flagged(row: NodeRow, now: Time): NodeRow {
    row.(online := false, markedOfflineAt := Some(now))
  }

  function Marked(t: NodeTable, before: Time, now: Time): NodeTable {
    map n | n in t :: if IsStale(t[n], before) then Flagged(t[n], now) else t[n]
  }

  class NodeRepository {
    var nodes: NodeTable

    method Fails(callsSucceed: bool) returns (fails: bool)
      ensures callsSucceed ==> !fails
    {
      fails := *;
      fails := fails && !callsSucceed;
    }

    // Only this node's row changes. It is online, as of now, without a mark, whatever a janitor
    // made of it before; the start time is that of the first heartbeat.
    method Heartbeat(node: string, hostname: string, startedAt: Time, now: Time, callsSucceed: bool) returns (ok: bool)
      modifies this
      ensures callsSucceed ==> ok
      ensures BeatRecorded(old(nodes), nodes, node, hostname, startedAt, now) || (!ok && nodes == old(nodes))
    {
      var fails := Fails(callsSucceed);
      if fails { return false; }
      UpsertRecordsTheBeat(nodes, Stamped(nodes, node, hostname, startedAt, now), node, hostname, startedAt, now);
      var first := if node in nodes then nodes[node].startedAt else startedAt;
      nodes := nodes[node := NodeRow(hostname, true, first, now, None)];
      fails := Fails(callsSucceed);
      return !fails;
    }

    // Every stale row is flagged and returned, once. If reading the answer fails the rows may be
    // flagged all the same, and nobody learns which.
    method MarkStaleOffline(before: Time, now: Time, callsSucceed: bool) returns (ids: seq<string>, ok: bool)
      modifies this
      ensures callsSucceed ==> ok
      ensures nodes.Keys == old(nodes).Keys
      ensures nodes == old(nodes) || forall n | n in nodes ::
                var was := old(nodes)[n];
                nodes[n] == if was.online && was.lastHeartbeatAt <= before
                            then NodeRow(was.hostname, false, was.startedAt, was.lastHeartbeatAt, Some(now)) else was
      ensures ok ==> nodes == Marked(old(nodes), before, now)
      ensures ok ==> forall n :: n in ids <==>
                n in old(nodes) && old(nodes)[n].online && old(nodes)[n].lastHeartbeatAt <= before
      ensures forall i, j | 0 <= i < j < |ids| :: ids[i] != ids[j]
      ensures !ok ==> ids == [] && (nodes == old(nodes) || nodes == Marked(old(nodes), before, now))
    {
      var fails := Fails(callsSucceed);
      if fails { return [], false; }
      var was, rest := nodes, nodes.Keys;
      ids := [];
      while rest != {}
        invariant rest <= was.Keys == nodes.Keys
        invariant forall n | n in was :: nodes[n] == if n !in rest && IsStale(was[n], before) then Flagged(was[n], now)
                  else was[n]
        invariant forall n :: n in ids <==> n in was && n !in rest && IsStale(was[n], before)
        invariant forall i, j | 0 <= i < j < |ids| :: ids[i] != ids[j]
      {
        var n :| n in rest;
        rest := rest - {n};
        if IsStale(nodes[n], before) {
          nodes := nodes[n := Flagged(nodes[n], now)];
          ids := ids + [n];
        }
      }
      fails := Fails(callsSucceed);
      return if fails then [] else ids, !fails;
    }
  }

  class Reporter {
    const repository: NodeRepository
    const node: string
    const hostname: string
    const startedAt: Time

    constructor (repository: NodeRepository, node: string, hostname: string, startedAt: Time)
      ensures this.repository == repository && this.node == node && this.hostname == hostname
      ensures this.startedAt == startedAt
    {
      this.repository, this.node, this.hostname, this.startedAt := repository, node, hostname, startedAt;
    }

    // A failed heartbeat is only logged.
    method Beat(now: Time, callsSucceed: bool)
      modifies repository
      ensures callsSucceed ==>
        && node in repository.nodes && repository.nodes[node].online && repository.nodes[node].lastHeartbeatAt == now
      ensures BeatRecorded(old(repository.nodes), repository.nodes, node, hostname, startedAt, now)
              || repository.nodes == old(repository.nodes)
    {
      var _ := repository.Heartbeat(node, hostname, startedAt, now, callsSucceed);
    }

    // The loop, for as long as it runs: a heartbeat at once and one per tick. Other nodes' rows are
    // left alone; this node's row, once a heartbeat took effect, is online as of one of these
    // times, with the start time it had before or this reporter's.
    method Run(times: seq<Time>, callsSucceed: bool)
      modifies repository
      ensures callsSucceed && times != [] ==>
        && node in repository.nodes && repository.nodes[node].online
        && repository.nodes[node].lastHeartbeatAt == times[|times| - 1]
      ensures forall n | n != node :: n in repository.nodes <==> n in old(repository.nodes)
      ensures forall n | n in old(repository.nodes) && n != node :: repository.nodes[n] == old(repository.nodes)[n]
      ensures repository.nodes == old(repository.nodes) || (
                && node in repository.nodes && repository.nodes[node].online
                && repository.nodes[node].markedOfflineAt.None? && repository.nodes[node].lastHeartbeatAt in times
                && repository.nodes[node].startedAt
                   == if node in old(repository.nodes) then old(repository.nodes)[node].startedAt else startedAt)
    {
      for i := 0 to |times|
        invariant callsSucceed && i > 0 ==>
          && node in repository.nodes && repository.nodes[node].online
          && repository.nodes[node].lastHeartbeatAt == times[i - 1]
        invariant forall n | n != node :: n in repository.nodes <==> n in old(repository.nodes)
        invariant forall n | n in old(repository.nodes) && n != node :: repository.nodes[n] == old(repository.nodes)[n]
        invariant repository.nodes == old(repository.nodes) || (
                    && node in repository.nodes && repository.nodes[node].online
                    && repository.nodes[node].markedOfflineAt.None? && repository.nodes[node].lastHeartbeatAt in times
                    && repository.nodes[node].startedAt
                       == if node in old(repository.nodes) then old(repository.nodes)[node].startedAt else startedAt)
      {
        Beat(times[i], callsSucceed);
      }
    }
  }

  class Janitor {
    const repository: NodeRepository
    const staleAfter: int
    var log: seq<seq<string>>      // the nodes each sweep reported, if any

    constructor (repository: NodeRepository, staleAfter: int)
      ensures this.repository == repository && this.staleAfter == staleAfter && log == []
    {
      this.repository, this.staleAfter, log := repository, staleAfter, [];
    }

    method SweepOnce(now: Time, callsSucceed: bool)
      modifies this, repository
      ensures repository.nodes.Keys == old(repository.nodes).Keys
      // nothing happens, or all nodes without a heartbeat in the last `staleAfter` are flagged
      ensures (!callsSucceed && repository.nodes == old(repository.nodes) && log == old(log)) ||
              forall n | n in repository.nodes ::
                var was := old(repository.nodes)[n];
                repository.nodes[n]
                == if was.online && was.lastHeartbeatAt + staleAfter <= now
                   then NodeRow(was.hostname, false, was.startedAt, was.lastHeartbeatAt, Some(now)) else was
      // and if there are any, they are reported, each once; only a lost answer hides them
      ensures log == old(log) || (
                && |log| == |old(log)| + 1 && log[..|old(log)|] == old(log) && log[|old(log)|] != []
                && (forall n :: n in log[|old(log)|] <==>
                      && n in old(repository.nodes) && old(repository.nodes)[n].online
                      && old(repository.nodes)[n].lastHeartbeatAt + staleAfter <= now)
                && forall i, j | 0 <= i < j < |log[|old(log)|]| :: log[|old(log)|][i] != log[|old(log)|][j])
      ensures log == old(log) && callsSucceed ==>
        forall n | n in old(repository.nodes) && old(repository.nodes)[n].online ::
          old(repository.nodes)[n].lastHeartbeatAt + staleAfter > now
    {
      var staleBefore := now - staleAfter;
      var ids, ok := repository.MarkStaleOffline(staleBefore, now, callsSucceed);
      if ok && |ids| != 0 {
        log := log + [ids];
      }
    }
  }
}
