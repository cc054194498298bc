/**
 The server's web-hosting code over its store, step by step, each method proved to compute exactly
 the state function of ServeQueue.dfy.
*/
module ServeStore {
  import opened Sequences
  import opened ServeQueue
  import TaskQueue

  lemma AliveStep(s: State, all: seq<NodeId>, i: nat, ids: seq<NodeId>)
    requires i < |all|
    ensures ids + AliveIn(s, all[i..]) == (if Alive(s, all[i]) then ids + [all[i]] else ids) + AliveIn(s, all[i + 1..])
  {
    assert all[i..][1..] == all[i + 1..];
    var rest := AliveIn(s, all[i + 1..]);
    assert ids + ([] + rest) == ids + rest && ids + ([all[i]] + rest) == ids + [all[i]] + rest;
  }

  class Store {
    var deploys: map<Pid, Deployment>
    var listed: set<Pid>
    var marks: map<Pid, map<NodeId, real>>
    var queues: map<NodeId, seq<Pid>>
    var pending: map<Pid, seq<ReqId>>
    var nodes: map<NodeId, TaskQueue.Node>
    var registered: set<NodeId>
    var now: real
    ghost var created: set<Pid>

    ghost function View(): State
      reads this
    {
      State(deploys, listed, marks, queues, pending, nodes, registered, created, now)
    }

    constructor (start: real)
      ensures Init(View()) && now == start
    {
      deploys, listed, marks, queues, pending := map[], {}, map[], map[], map[];
      nodes, registered, created, now := map[], {}, {}, start;
    }

    method CurrentMarks(pid: Pid) returns (m: map<NodeId, real>)
      ensures m == MarksOf(View(), pid)
    {
      m := if pid in marks then marks[pid] else map[];
    }

    method IsAlive(n: NodeId) returns (alive: bool)
      ensures alive == Alive(View(), n)
    {
      alive := n in nodes && TaskQueue.HealthyNode(nodes[n], now);
    }

    method GetHealthyNodeIds() returns (ids: seq<NodeId>)
      ensures ids == HealthyNodes(View())
    {
      var all := Sorted(registered);
      ids := [];
      var i := 0;
      while i < |all|
        invariant i <= |all|
        invariant ids + AliveIn(View(), all[i..]) == AliveIn(View(), all)
      {
        var alive := IsAlive(all[i]);
        AliveStep(View(), all, i, ids);
        if alive { ids := ids + [all[i]]; }
        i := i + 1;
      }
    }

    method AssignNodes(pid: Pid)
      modifies this`queues
      ensures View() == Assign(old(View()), pid)
    {
      if pid in deploys && deploys[pid].running {
        var m := CurrentMarks(pid);
        var ids := GetHealthyNodeIds();
        PushToNodes(pid, ids, m.Keys, deploys[pid].replicas);
      }
    }

    method PushToNodes(pid: Pid, ids: seq<NodeId>, serving: set<NodeId>, replicas: int)
      modifies this`queues
      ensures queues == AssignLoop(old(queues), pid, ids, serving, replicas)
    {
      var already := serving;
      var i := 0;
      while i < |ids| && |already| < replicas
        invariant i <= |ids|
        invariant AssignLoop(queues, pid, ids[i..], already, replicas) == AssignLoop(old(queues), pid, ids, serving, replicas)
      {
        assert ids[i..][1..] == ids[i + 1..];
        if ids[i] !in already {
          queues := queues[ids[i] := (if ids[i] in queues then queues[ids[i]] else []) + [pid]];
          already := already + {ids[i]};
        }
        i := i + 1;
      }
    }

    method CreateServeDeployment(pid: Pid, replicas: int)
      modifies this`deploys, this`listed, this`queues, this`created
      ensures View() == Deploy(old(View()), pid, replicas)
    {
      deploys := deploys[pid := Deployment(replicas, true)];
      listed := listed + {pid};
      created := created + {pid};
      AssignNodes(pid);
    }

    method MarkFailedStatus(pid: Pid)
      modifies this`deploys
      ensures View() == MarkFailed(old(View()), pid)
    {
      if pid in deploys {
        deploys := deploys[pid := deploys[pid].(running := false)];
      }
    }

    method RemoveDeployment(pid: Pid)
      modifies this`deploys, this`listed, this`marks, this`pending
      ensures View() == Remove(old(View()), pid)
    {
      listed := listed - {pid};
      deploys := deploys - {pid};
      marks := marks - {pid};
      pending := pending - {pid};
    }

    method ClaimAssignment(n: NodeId) returns (r: Option<Pid>)
      modifies this`queues
      ensures (View(), r) == Claim(old(View()), n)
    {
      if n !in queues || queues[n] == [] { return None; }
      var pid := queues[n][0];
      queues := queues[n := queues[n][1..]];
      r := if pid in deploys then Some(pid) else None;
    }

    method HealthyServingNodeIds(pid: Pid) returns (result: set<NodeId>)
      ensures result == HealthyServing(View(), pid)
    {
      var zset := CurrentMarks(pid);
      var recent := set n | n in zset && zset[n] >= now - SERVE_NODE_STALE_SECONDS;
      result := {};
      var rest := recent;
      while rest != {}
        invariant rest <= recent
        invariant result == set n | n in recent - rest && Alive(View(), n)
        decreases |rest|
      {
        var n :| n in rest;
        var alive := IsAlive(n);
        if alive { result := result + {n}; }
        rest := rest - {n};
      }
    }

    /** The marks of a poll: its request is waited for afterwards, by ClaimRequest. */
    method NodesNext(n: NodeId, pids: seq<Pid>) returns (active: seq<Pid>, stop: seq<Pid>)
      modifies this`marks
      ensures (View(), active, stop) == Poll(old(View()), n, pids)
    {
      active, stop := [], [];
      for i := 0 to |pids|
        invariant (View(), active, stop) == Poll(old(View()), n, pids[..i])
      {
        assert pids[..i + 1][..i] == pids[..i];
        if pids[i] in deploys && deploys[pids[i]].running {
          active := active + [pids[i]];
          var m := CurrentMarks(pids[i]);
          marks := marks[pids[i] := m[n := now]];
        } else {
          stop := stop + [pids[i]];
        }
      }
      assert pids[..|pids|] == pids;
    }

    method ClaimRequest(active: seq<Pid>) returns (r: Option<ReqId>)
      modifies this`pending
      ensures (View(), r) == Take(old(View()), active)
    {
      r := None;
      for i := 0 to |active|
        invariant View() == old(View()) && r == None
        invariant Take(View(), active[i..]) == Take(View(), active)
      {
        assert active[i..][1..] == active[i + 1..];
        var pid := active[i];
        if pid in pending && pending[pid] != [] {
          r := Some(pending[pid][0]);
          pending := pending[pid := pending[pid][1..]];
          return;
        }
      }
    }

    method LoadBalance(pid: Pid, req: ReqId) returns (accepted: bool)
      modifies this`pending
      ensures View() == Balance(old(View()), pid, req)
      ensures accepted <==> HealthyServing(old(View()), pid) != {}
    {
      var healthy := HealthyServingNodeIds(pid);
      accepted := healthy != {};
      if accepted {
        pending := pending[pid := (if pid in pending then pending[pid] else []) + [req]];
      }
    }

    /** The marks that survive: the cut by score, then the loop over the nodes left. */
    method PruneMarks(pid: Pid) returns (zset: map<NodeId, real>)
      ensures zset == ReapedMarks(View(), pid)
    {
      zset := CurrentMarks(pid);
      zset := map n | n in zset && zset[n] > now - SERVE_NODE_STALE_SECONDS :: zset[n];
      var rest := zset.Keys;
      ghost var young := zset;
      while rest != {}
        invariant rest <= young.Keys
        invariant zset == map n | n in young && (n in rest || Alive(View(), n)) :: young[n]
        decreases |rest|
      {
        var n :| n in rest;
        var alive := IsAlive(n);
        if !alive { zset := zset - {n}; }
        rest := rest - {n};
      }
    }

    method ReapStaleServeNodes(order: seq<Pid>)
      modifies this`marks, this`queues
      ensures View() == Reap(old(View()), order)
    {
      for i := 0 to |order|
        invariant View() == Reap(old(View()), order[..i])
      {
        var zset := PruneMarks(order[i]);
        marks := marks[order[i] := zset];
        AssignNodes(order[i]);
        assert order[..i + 1][..i] == order[..i];
      }
      assert order[..|order|] == order;
    }
  }
}
