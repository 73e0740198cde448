/** What overlapping requests, and repeated replica ids, do to the failover router. */
module ReplicaOverlap {
  import opened Sequences
  import opened Shared
  import opened ReplicaRouter
  import opened ReplicaServing
  import opened ReplicaRuns
  import opened ReplicaDriving

  /** A network on which everything answers. */
  ghost function Healthy(): Net {
    Net(r => true, r => true, r => true, r => Accepted)
  }

  lemma {:induction false} LiveIsAll(rs: seq<Replica>)
    requires forall i :: 0 <= i < |rs| ==> rs[i].active
    ensures Live(rs, []) == rs
    decreases |rs|
  {
    if rs != [] {
      LiveIsAll(rs[1..]);
    }
  }

  /** Over a healthy network, with every listed replica live, a request posts in list order from the cursor. */
  lemma HealthyRequestPosts(start: Router, sofar: seq<Action>, s: Router, tasks: seq<Task>, key: string,
      requestId: string)
    returns (acts: seq<Action>)
    requires Run(start, sofar) == Sys(s, tasks) && s.Admits(s.tenant, key) && s.fenced == []
    requires s.replicas != [] && s.minReady <= |s.replicas| && forall i :: 0 <= i < |s.replicas| ==>
        s.replicas[i].active
    ensures Run(start, acts) == Sys(s, tasks + [Task(key, requestId,
        Posting(Rotate(s.replicas, s.cursor % |s.replicas|)))])
  {
    var net := Healthy();
    LiveIsAll(s.replicas);
    SweepIsQuiet(s, s.replicas, net.sweep);
    AllPassing(s.replicas, net.floor);
    AllPassing(s.replicas, net.pick);
    var replies := RequestPosts(s, Task(key, requestId, Sweeping(Active(s.replicas))), net);
    acts := ArriveAndDrive(start, sofar, s, tasks, key, requestId, replies);
  }

  const REPLICA_A := Replica(ReplicaId("replica-a"), 1, true)

  ghost function Listing(replicas: seq<Replica>): Router {
    Router("acme", 100, replicas, 0, [], [], [], [], [], 0)
  }

  ghost function Waiting(replicas: seq<Replica>): Task {
    Task("k", "q", Posting(replicas))
  }

  lemma ResumeOnce(start: Router, sofar: seq<Action>, s: Router, tasks: seq<Task>, t: nat, post: Post)
      returns (acts: seq<Action>)
    requires Run(start, sofar) == Sys(s, tasks) && t < |tasks|
    ensures var (router, pc) := Continue(s, tasks[t], true, post);
            Run(start, acts) == Sys(router, tasks[t := tasks[t].(pc := pc)])
  {
    acts := sofar + [Resume(t, true, post)];
    RunAppend(start, sofar, Resume(t, true, post));
  }

  lemma TwoRequestsPost() returns (acts: seq<Action>)
    ensures Run(Listing([REPLICA_A]), acts) == Sys(Listing([REPLICA_A]), [Waiting([REPLICA_A]), Waiting([REPLICA_A])])
  {
    var start := Listing([REPLICA_A]);
    assert start.cursor % 1 == 0 && Rotate([REPLICA_A], 0) == [REPLICA_A];
    acts := HealthyRequestPosts(start, [], start, [], "k", "q");
    acts := HealthyRequestPosts(start, acts, start, [Waiting([REPLICA_A])], "k", "q");
  }

  /** Two overlapping requests under one key are both served: the serial uniqueness claim does not extend. */
  lemma OverlapRepeatsKey() returns (acts: seq<Action>)
    ensures Fresh(Listing([REPLICA_A])) && Distinct(Ids([REPLICA_A]))
    ensures !Distinct(Run(Listing([REPLICA_A]), acts).router.seenKeys)
  {
    var start, p := Listing([REPLICA_A]), Waiting([REPLICA_A]);
    acts := TwoRequestsPost();
    acts := ResumeOnce(start, acts, start, [p, p], 0, Accepted);
    var s, tasks := start.Record("k", "q", REPLICA_A), [p.(pc := Over), p];
    assert [p, p][0 := p.(pc := Over)] == tasks;
    acts := ResumeOnce(start, acts, s, tasks, 1, Accepted);
    var keys := Run(start, acts).router.seenKeys;
    assert |keys| == 2 && keys[0] == keys[1];
  }

  /** An overlapping failure fences the replica first, and the route is still recorded after it. */
  lemma OverlapRoutesAfterFence() returns (acts: seq<Action>)
    ensures Fresh(Listing([REPLICA_A])) && Distinct(Ids([REPLICA_A]))
    ensures !FencesAboveRoutes(Run(Listing([REPLICA_A]), acts).router)
  {
    var start, p := Listing([REPLICA_A]), Waiting([REPLICA_A]);
    acts := TwoRequestsPost();
    acts := ResumeOnce(start, acts, start, [p, p], 0, Failed);
    var s, tasks := start.Fence(REPLICA_A.id, TransportFailed), [p.(pc := Posting([])), p];
    assert [REPLICA_A][1..] == [] && [p, p][0 := p.(pc := Posting([]))] == tasks;
    acts := ResumeOnce(start, acts, s, tasks, 1, Accepted);
    var t := Run(start, acts).router;
    assert t.routes[0].replica == t.failovers[0].replica && t.routes[0].routerGeneration == t.failovers[0].generation;
  }

  /** One request over a list that names a replica twice can fence it and then route to it. */
  lemma RepeatedIdRoutesAfterFence() returns (acts: seq<Action>)
    ensures Fresh(Listing([REPLICA_A, REPLICA_A]))
    ensures |Run(Listing([REPLICA_A, REPLICA_A]), acts).tasks| == 1
    ensures !FencesAboveRoutes(Run(Listing([REPLICA_A, REPLICA_A]), acts).router)
  {
    var twice := [REPLICA_A, REPLICA_A];
    var start, p := Listing(twice), Waiting(twice);
    assert start.cursor % 2 == 0 && Rotate(twice, 0) == twice;
    acts := HealthyRequestPosts(start, [], start, [], "k", "q");
    acts := ResumeOnce(start, acts, start, [p], 0, Failed);
    var s := start.Fence(REPLICA_A.id, TransportFailed);
    assert twice[1..] == [REPLICA_A] && [p][0 := Waiting([REPLICA_A])] == [Waiting([REPLICA_A])];
    acts := ResumeOnce(start, acts, s, [Waiting([REPLICA_A])], 0, Accepted);
    var t := Run(start, acts).router;
    assert t.routes[0].replica == t.failovers[0].replica && t.routes[0].routerGeneration == t.failovers[0].generation;
  }

  // ---------------------------------------------------------------------------------------------
  // When a route is not below the fence
  // ---------------------------------------------------------------------------------------------

  /** Task `t` is about to probe a listed replica `r` for its candidates, having found it unfenced. */
  ghost predicate Picks(s: Sys, a: Action, t: nat, r: ReplicaId) {
    && a.Resume? && a.task == t < |s.tasks| && s.tasks[t].pc.Picking?
    && s.tasks[t].pc.next < |s.router.replicas| && s.router.replicas[s.tasks[t].pc.next].id == r
    && r !in s.router.fenced
  }

  /** The replicas that a task has picked and not yet given up. */
  ghost predicate Holding(pc: Pc, r: ReplicaId) {
    match pc
    case Picking(_, found) => exists i :: 0 <= i < |found| && found[i].id == r
    case PickProbing(x, _, found) => x.id == r || exists i :: 0 <= i < |found| && found[i].id == r
    case Posting(todo) => exists i :: 0 <= i < |todo| && todo[i].id == r
    case _ => false
  }

  lemma ContinueKeeps(s: Router, task: Task, probe: bool, post: Post, r: ReplicaId)
    requires Holding(Continue(s, task, probe, post).1, r)
    ensures Holding(task.pc, r)
         || (task.pc.Picking? && task.pc.next < |s.replicas| && s.replicas[task.pc.next].id == r && r !in s.fenced)
  {
    match task.pc
    case Picking(next, found) =>
      if next >= |s.replicas| && found != [] {
        var k := s.cursor % |found|;
        var order := Rotate(found, k);
        var i :| 0 <= i < |order| && order[i].id == r;
        assert order[i] == found[if i < |found| - k then k + i else i - (|found| - k)];
      }
    case PickProbing(x, next, found) =>
      var more := if probe then found + [x] else found;
      var i :| 0 <= i < |more| && more[i].id == r;
      assert i < |found| ==> found[i] == more[i];
    case Posting(todo) =>
      if todo != [] && !post.Accepted? {
        var i :| 0 <= i < |todo[1..]| && todo[1..][i].id == r;
        assert todo[i + 1].id == r;
      }
    case _ =>
  }

  /** Whatever a task keeps it picked, when it was unfenced. */
  lemma {:induction false} PickedAt(trace: seq<Sys>, actions: seq<Action>, t: nat, r: ReplicaId, m: nat)
      returns (i: nat)
    requires IsTrace(trace, actions) && trace[0].tasks == [] && m <= |actions|
    requires t < |trace[m].tasks| && Holding(trace[m].tasks[t].pc, r)
    ensures i < m && Picks(trace[i], actions[i], t, r)
    decreases m
  {
    var s, a := trace[m - 1], actions[m - 1];
    if Picks(s, a, t, r) {
      i := m - 1;
    } else {
      if a.Resume? && a.task == t && t < |s.tasks| {
        ContinueKeeps(s.router, s.tasks[t], a.probe, a.post, r);
      }
      i := PickedAt(trace, actions, t, r, m - 1);
    }
  }

  /** This action handles a reply that fences `r`: a failed health probe, or a failed post. */
  ghost predicate Fences(s: Sys, a: Action, r: ReplicaId) {
    && a.Resume? && a.task < |s.tasks|
    && match s.tasks[a.task].pc
       case SweepProbing(x, _) => x.id == r && !a.probe
       case Posting(todo) => todo != [] && todo[0].id == r && !a.post.Accepted?
       case _ => false
  }

  lemma NextFences(s: Sys, a: Action, r: ReplicaId)
    ensures r in Next(s, a).router.fenced <==> Fences(s, a, r) || r in s.router.fenced
  {
    if a.Resume? && a.task < |s.tasks| {
      ActivateFromAdvances(s.router, 0, if s.tasks[a.task].pc.Flooring? then s.tasks[a.task].pc.ready else 0);
    }
  }

  /** No fence is ever lifted here: whoever is fenced now and was not before was fenced in between, and stays so. */
  lemma {:induction false} FencedIffInBetween(trace: seq<Sys>, actions: seq<Action>, r: ReplicaId, i: nat, m: nat)
    requires IsTrace(trace, actions) && i <= m <= |actions| && r !in trace[i].router.fenced
    ensures r in trace[m].router.fenced <==> exists j :: i <= j < m && Fences(trace[j], actions[j], r)
    decreases m
  {
    if i < m {
      NextFences(trace[m - 1], actions[m - 1], r);
      FencedIffInBetween(trace, actions, r, i, m - 1);
    }
  }

  /**
   * Task `t` found `r` unfenced at action `i`, and a reply fenced it at `j`: another task's, or its
   * own to an earlier post, when its candidates name `r` twice.
   */
  ghost predicate FencedUnderway(trace: seq<Sys>, actions: seq<Action>, t: nat, r: ReplicaId, i: nat, j: nat, k: nat)
    requires IsTrace(trace, actions) && k <= |actions|
  {
    && i < j < k && Picks(trace[i], actions[i], t, r) && Fences(trace[j], actions[j], r)
    && (actions[j].task == t ==> trace[j].tasks[t].pc.Posting?)
  }

  /** From its pick on a task fences only by posting. */
  lemma {:induction false} PastTheSweep(trace: seq<Sys>, actions: seq<Action>, t: nat, i: nat, m: nat)
    requires IsTrace(trace, actions) && i <= m <= |actions| && t < |trace[i].tasks| && !trace[i].tasks[t].pc.Sweeping?
    requires !trace[i].tasks[t].pc.SweepProbing?
    ensures t < |trace[m].tasks| && !trace[m].tasks[t].pc.Sweeping? && !trace[m].tasks[t].pc.SweepProbing?
    decreases m
  {
    if i < m {
      PastTheSweep(trace, actions, t, i, m - 1);
    }
  }

  lemma FencedIffUnderway(trace: seq<Sys>, actions: seq<Action>, t: nat, r: ReplicaId, k: nat)
    requires IsTrace(trace, actions) && trace[0].tasks == [] && k < |actions|
    requires t < |trace[k].tasks| && Holding(trace[k].tasks[t].pc, r)
    ensures r in trace[k].router.fenced <==> exists i: nat, j: nat :: FencedUnderway(trace, actions, t, r, i, j, k)
  {
    if r in trace[k].router.fenced {
      var i := PickedAt(trace, actions, t, r, k);
      FencedIffInBetween(trace, actions, r, i, k);
      var j :| i <= j < k && Fences(trace[j], actions[j], r);
      PastTheSweep(trace, actions, t, i, j);
      assert FencedUnderway(trace, actions, t, r, i, j, k);
    }
    if i: nat, j: nat :| FencedUnderway(trace, actions, t, r, i, j, k) {
      FencedIffInBetween(trace, actions, r, i, k);
    }
  }

  /** Action `k` records the route of task `t` to `r`. */
  ghost predicate RecordsRoute(s: Sys, a: Action, t: nat, r: ReplicaId) {
    AcceptsTask(s, a, t) && s.tasks[t].pc.todo[0].id == r
  }

  lemma RecordedRoute(s: Sys, a: Action, t: nat, r: ReplicaId)
    requires RecordsRoute(s, a, t, r)
    ensures var routes := Next(s, a).router.routes;
            |routes| == |s.router.routes| + 1 && routes[|routes| - 1].replica == r
    ensures Holding(s.tasks[t].pc, r)
  {
  }

  /**
   * In every interleaving, take the route that a task records at action `k` and the failover record
   * of its replica: the route is not below the fence if and only if a reply fenced that replica
   * between the task's pick of it and its accepted post.
   */
  lemma RouteAboveFenceIffUnderway(start: Router, actions: seq<Action>, k: nat, f: nat, t: nat, r: ReplicaId)
    requires Fresh(start) && k < |actions| && RecordsRoute(Run(start, actions[..k]), actions[k], t, r)
    requires f < |Run(start, actions).router.failovers| && Run(start, actions).router.failovers[f].replica == r
    ensures IsTrace(Trace(start, actions), actions)
    ensures var n := |Run(start, actions[..k]).router.routes|;
            && n < |Run(start, actions).router.routes| && Run(start, actions).router.routes[n].replica == r
            && (Run(start, actions).router.routes[n].routerGeneration
                >= Run(start, actions).router.failovers[f].generation <==>
                  exists i: nat, j: nat :: FencedUnderway(Trace(start, actions), actions, t, r, i, j, k))
  {
    RunsHaveTraces(start, actions);
    RunStep(start, actions, k);
    RecordedRoute(Run(start, actions[..k]), actions[k], t, r);
    RouteBelowFenceIff(start, actions, k, f);
    FencedIffUnderway(Trace(start, actions), actions, t, r, k);
  }

  // ---------------------------------------------------------------------------------------------
  // Scale-up under overlap
  // ---------------------------------------------------------------------------------------------

  /** Task `t` has counted `ready` replicas and is about to compare the count with the floor. */
  ghost predicate HasCounted(s: Sys, t: nat, ready: nat) {
    t < |s.tasks| && s.tasks[t].pc == Flooring([], ready)
  }

  /**
   * In every interleaving, one pass switches on exactly min(max(0, floor - counted), idle) replicas,
   * where `counted` is what this task found when it probed and `idle` what is inactive and unfenced
   * now: nothing that other requests activated since the probes counts towards the floor.
   */
  lemma PassActivates(start: Router, actions: seq<Action>, k: nat, t: nat, ready: nat)
    requires k < |actions| && actions[k].Resume? && actions[k].task == t
        && HasCounted(Run(start, actions[..k]), t, ready)
    ensures var s, s' := Run(start, actions[..k]).router, Run(start, actions[..k + 1]).router;
            var idle := IdleFrom(s, 0);
            var missing := if s.minReady > ready then s.minReady - ready else 0;
            SwitchedOn(s, s', idle[..Min(missing, |idle|)])
  {
    RunStep(start, actions, k);
    FloorIsRestored(Run(start, actions[..k]).router, ready);
  }

  const IDLE_A := Replica(ReplicaId("replica-a"), 1, false)
  const IDLE_B := Replica(ReplicaId("replica-b"), 1, false)

  ghost function TwoIdle(): Router {
    Router("acme", 100, [IDLE_A, IDLE_B], 1, [], [], [], [], [], 0)
  }

  ghost function Counted(key: string): Task {
    Task(key, "q", Flooring([], 0))
  }

  lemma {:induction false} NothingActive(rs: seq<Replica>)
    requires forall i :: 0 <= i < |rs| ==> !rs[i].active
    ensures Active(rs) == [] && Live(rs, []) == []
    decreases |rs|
  {
    if rs != [] {
      NothingActive(rs[1..]);
    }
  }

  lemma BothCount() returns (acts: seq<Action>)
    ensures Run(TwoIdle(), acts) == Sys(TwoIdle(), [Counted("k"), Counted("l")])
  {
    var start := TwoIdle();
    NothingActive(start.replicas);
    var first, second := Task("k", "q", Sweeping([])), Task("l", "q", Sweeping([]));
    RunAppend(start, [], Arrive("acme", "k", "q"));
    acts := [] + [Arrive("acme", "k", "q")];
    RunAppend(start, acts, Arrive("acme", "l", "q"));
    acts := acts + [Arrive("acme", "l", "q")];
    assert Run(start, acts) == Sys(start, [first, second]);
    acts := ResumeOnce(start, acts, start, [first, second], 0, Accepted);
    assert [first, second][0 := Counted("k")] == [Counted("k"), second];
    acts := ResumeOnce(start, acts, start, [Counted("k"), second], 1, Accepted);
    assert [Counted("k"), second][1 := Counted("l")] == [Counted("k"), Counted("l")];
  }

  /** Two requests that both counted before either activated switch on two replicas for a floor of one. */
  lemma OverlapOverscales() returns (acts: seq<Action>)
    ensures Fresh(TwoIdle()) && TwoIdle().minReady == 1
    ensures |Run(TwoIdle(), acts).router.scaleEvents| == 2
  {
    var start := TwoIdle();
    acts := BothCount();
    acts := ResumeOnce(start, acts, start, [Counted("k"), Counted("l")], 0, Accepted);
    var s := start.Activate(0);
    assert start.ActivateFrom(0, 0) == s;
    var tasks := [Counted("k").(pc := Picking(0, [])), Counted("l")];
    assert [Counted("k"), Counted("l")][0 := tasks[0]] == tasks;
    acts := ResumeOnce(start, acts, s, tasks, 1, Accepted);
    assert s.ActivateFrom(0, 0) == s.ActivateFrom(1, 0) == s.Activate(1);
  }
}
