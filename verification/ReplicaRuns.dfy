/**
 * Every interleaving of requests through the failover router. A task is a program point of
 * `_route_request` between two awaits; resuming it runs at most the code up to its next await.
 */
module ReplicaRuns {
  import opened Sequences
  import opened Shared
  import opened ReplicaRouter
  import opened ReplicaServing

  datatype Pc =
    | Sweeping(todo: seq<Replica>)                                // head of the loop at 151
    | SweepProbing(replica: Replica, todo: seq<Replica>)          // awaiting at 154
    | Flooring(todo: seq<Replica>, ready: nat)                    // awaiting at 129, or past it when `todo` is empty
    | Picking(next: nat, found: seq<Replica>)                     // the comprehension at 157-161
    | PickProbing(replica: Replica, next: nat, found: seq<Replica>) // awaiting at 160
    | Posting(todo: seq<Replica>)                                 // awaiting at 169
    | Over                                                        // returned or raised

  datatype Task = Task(key: string, requestId: string, pc: Pc)

  datatype Action =
    | Arrive(caller: string, key: string, requestId: string)
    | Resume(task: nat, probe: bool, post: Post)

  datatype Sys = Sys(router: Router, tasks: seq<Task>)

  function Continue(s: Router, task: Task, probe: bool, post: Post): (Router, Pc) {
    match task.pc
    case Sweeping(todo) =>
      (s, if todo == [] then Flooring(Live(s.replicas, s.fenced), 0)
          else if todo[0].id in s.fenced then Sweeping(todo[1..])
          else SweepProbing(todo[0], todo[1..]))
    case SweepProbing(r, todo) => (if probe then s else s.Fence(r.id, HealthProbeFailed), Sweeping(todo))
    case Flooring(todo, ready) =>
      if todo == [] then (s.EnsureFloor(ready), Picking(0, []))
      else (s, Flooring(todo[1..], if probe then ready + 1 else ready))
    case Picking(next, found) =>
      (s, if next >= |s.replicas| then
            if found == [] then Over else Posting(Rotate(found, s.cursor % |found|))
          else if s.replicas[next].active && s.replicas[next].id !in s.fenced then
            PickProbing(s.replicas[next], next, found)
          else Picking(next + 1, found))
    case PickProbing(r, next, found) => (s, Picking(next + 1, if probe then found + [r] else found))
    case Posting(todo) =>
      if todo == [] then (s, Over)
      else
        (match post
         case Accepted => (s.Record(task.key, task.requestId, todo[0]), Over)
         case Rejected => (s.Fence(todo[0].id, ForwardFailed), Posting(todo[1..]))
         case Failed => (s.Fence(todo[0].id, TransportFailed), Posting(todo[1..])))
    case Over => (s, Over)
  }

  function Next(s: Sys, a: Action): Sys {
    match a
    case Arrive(caller, key, requestId) =>
      if s.router.Admits(caller, key) then
        Sys(s.router, s.tasks + [Task(key, requestId, Sweeping(Active(s.router.replicas)))])
      else s
    case Resume(t, probe, post) =>
      if t >= |s.tasks| then s
      else
        var (router, pc) := Continue(s.router, s.tasks[t], probe, post);
        Sys(router, s.tasks[t := s.tasks[t].(pc := pc)])
  }

  function Run(start: Router, actions: seq<Action>): Sys {
    if actions == [] then Sys(start, [])
    else Next(Run(start, actions[..|actions| - 1]), actions[|actions| - 1])
  }

  lemma RunAppend(start: Router, first: seq<Action>, a: Action)
    ensures Run(start, first + [a]) == Next(Run(start, first), a)
  {
    assert (first + [a])[..|first|] == first;
  }

  lemma RunStep(start: Router, actions: seq<Action>, k: nat)
    requires k < |actions|
    ensures Run(start, actions[..k + 1]) == Next(Run(start, actions[..k]), actions[k])
  {
    assert actions[..k + 1][..k] == actions[..k];
  }

  /** The states that a run goes through. */
  ghost function Trace(start: Router, actions: seq<Action>): seq<Sys> {
    seq(|actions| + 1, k requires 0 <= k <= |actions| => Run(start, actions[..k]))
  }

  ghost predicate IsTrace(trace: seq<Sys>, actions: seq<Action>) {
    |trace| == |actions| + 1 && forall k :: 0 <= k < |actions| ==> trace[k + 1] == Next(trace[k], actions[k])
  }

  lemma RunsHaveTraces(start: Router, actions: seq<Action>)
    ensures IsTrace(Trace(start, actions), actions) && Trace(start, actions)[0] == Sys(start, [])
  {
    forall k | 0 <= k < |actions|
      ensures Trace(start, actions)[k + 1] == Next(Trace(start, actions)[k], actions[k])
    {
      RunStep(start, actions, k);
    }
  }

  /** A router that has not served anything yet. */
  ghost predicate Fresh(s: Router) {
    s.fenced == [] && s.seenKeys == [] && s.routes == [] && s.scaleEvents == [] && s.failovers == [] && s.cursor == 0
  }

  // ---------------------------------------------------------------------------------------------
  // Generation accounting
  // ---------------------------------------------------------------------------------------------

  function FenceGenerations(fs: seq<Failover>): multiset<int> {
    if fs == [] then multiset{} else FenceGenerations(fs[..|fs| - 1]) + multiset{fs[|fs| - 1].generation}
  }

  function ScaleGenerations(es: seq<ScaleEvent>): multiset<int> {
    if es == [] then multiset{} else ScaleGenerations(es[..|es| - 1]) + multiset{es[|es| - 1].generation}
  }

  function Inactive(rs: seq<Replica>): nat {
    if rs == [] then 0 else Inactive(rs[..|rs| - 1]) + (if rs[|rs| - 1].active then 0 else 1)
  }

  /** The generations recorded by fences and activations together. */
  function HandedOut(s: Router): multiset<int> {
    FenceGenerations(s.failovers) + ScaleGenerations(s.scaleEvents)
  }

  /** Every generation since `start`, each recorded by exactly one fence or one activation. */
  ghost predicate EachGenerationOnce(start: Router, s: Router) {
    forall g: int :: HandedOut(s)[g] == if start.generation < g <= s.generation then 1 else 0
  }

  lemma OneMoreGeneration(start: Router, s: Router, t: Router)
    requires EachGenerationOnce(start, s) && start.generation <= s.generation && t.generation == s.generation + 1
    requires HandedOut(t) == HandedOut(s) + multiset{t.generation}
    ensures EachGenerationOnce(start, t)
  {
    forall g: int
      ensures HandedOut(t)[g] == if start.generation < g <= t.generation then 1 else 0
    {
      assert HandedOut(t)[g] == HandedOut(s)[g] + (if g == t.generation then 1 else 0);
    }
  }

  ghost predicate Accounts(start: Router, s: Router) {
    && EachGenerationOnce(start, s)
    && s.generation == start.generation + |s.fenced| + |s.scaleEvents|
    && Inactive(s.replicas) + |s.scaleEvents| == Inactive(start.replicas)
    && |s.failovers| == |s.fenced|
    && (forall i :: 0 <= i < |s.fenced| ==>
            && s.failovers[i].replica == s.fenced[i]
            && s.failovers[i].generation <= s.generation)
    && Distinct(s.fenced) && Elements(s.fenced) <= Elements(Ids(s.replicas))
    && Ids(s.replicas) == Ids(start.replicas)
  }

  lemma FenceKeepsAccounts(start: Router, s: Router, r: ReplicaId, reason: Reason)
    requires Accounts(start, s) && r in Ids(s.replicas)
    ensures Accounts(start, s.Fence(r, reason))
  {
    if r !in s.fenced {
      var t := s.Fence(r, reason);
      assert t.failovers[..|t.failovers| - 1] == s.failovers;
      OneMoreGeneration(start, s, t);
      assert Elements(t.fenced) == Elements(s.fenced) + {r};
    }
  }

  lemma {:induction false} ActivationLowersInactive(rs: seq<Replica>, i: nat)
    requires i < |rs| && !rs[i].active
    ensures Inactive(rs[i := rs[i].(active := true)]) == Inactive(rs) - 1
    decreases |rs|
  {
    var rs', n := rs[i := rs[i].(active := true)], |rs| - 1;
    if i == n {
      assert rs'[..n] == rs[..n];
    } else {
      ActivationLowersInactive(rs[..n], i);
      assert rs'[..n] == rs[..n][i := rs[i].(active := true)];
    }
  }

  lemma ActivateKeepsAccounts(start: Router, s: Router, i: nat)
    requires Accounts(start, s) && i < |s.replicas| && s.Idle(i)
    ensures Accounts(start, s.Activate(i))
  {
    var t := s.Activate(i);
    assert t.scaleEvents[..|t.scaleEvents| - 1] == s.scaleEvents;
    OneMoreGeneration(start, s, t);
    ActivationLowersInactive(s.replicas, i);
    assert Ids(t.replicas) == Ids(s.replicas);
  }

  lemma {:induction false} ActivateFromKeepsAccounts(start: Router, s: Router, i: nat, ready: int)
    requires Accounts(start, s) && i <= |s.replicas|
    ensures Accounts(start, s.ActivateFrom(i, ready))
    decreases |s.replicas| - i
  {
    if i < |s.replicas| {
      if !s.Idle(i) {
        ActivateFromKeepsAccounts(start, s, i + 1, ready);
      } else {
        ActivateKeepsAccounts(start, s, i);
        if ready + 1 < s.minReady {
          ActivateFromKeepsAccounts(start, s.Activate(i), i + 1, ready + 1);
        }
      }
    }
  }

  /** The replicas a task may still fence. */
  function Held(pc: Pc): seq<Replica> {
    match pc
    case Sweeping(todo) => todo
    case SweepProbing(r, todo) => [r] + todo
    case Flooring(_, _) => []
    case Picking(_, found) => found
    case PickProbing(r, _, found) => [r] + found
    case Posting(todo) => todo
    case Over => []
  }

  ghost predicate Within(rs: seq<Replica>, ids: seq<ReplicaId>) {
    forall r :: r in rs ==> r.id in ids
  }

  lemma {:induction false} ActiveWithin(rs: seq<Replica>)
    ensures forall r :: r in Active(rs) ==> r in rs
    decreases |rs|
  {
    if rs != [] {
      ActiveWithin(rs[1..]);
    }
  }

  lemma ListedWithin(rs: seq<Replica>)
    ensures Within(rs, Ids(rs))
  {
    forall r | r in rs
      ensures r.id in Ids(rs)
    {
      var i :| 0 <= i < |rs| && rs[i] == r;
      assert Ids(rs)[i] == r.id;
    }
  }

  lemma RecordKeepsAccounts(start: Router, s: Router, key: string, requestId: string, r: Replica)
    requires Accounts(start, s)
    ensures Accounts(start, s.Record(key, requestId, r))
  {
    assert HandedOut(s.Record(key, requestId, r)) == HandedOut(s);
  }

  lemma ContinueKeepsAccounts(start: Router, s: Router, task: Task, probe: bool, post: Post)
    requires Accounts(start, s) && Within(Held(task.pc), Ids(s.replicas))
    ensures Accounts(start, Continue(s, task, probe, post).0)
  {
    match task.pc
    case SweepProbing(r, todo) =>
      assert r in Held(task.pc);
      FenceKeepsAccounts(start, s, r.id, HealthProbeFailed);
    case Flooring(todo, ready) => ActivateFromKeepsAccounts(start, s, 0, ready);
    case Posting(todo) =>
      if todo != [] {
        RecordKeepsAccounts(start, s, task.key, task.requestId, todo[0]);
        FenceKeepsAccounts(start, s, todo[0].id, ForwardFailed);
        FenceKeepsAccounts(start, s, todo[0].id, TransportFailed);
      }
    case _ =>
  }

  /** A task never comes to hold a replica that is not listed. */
  lemma ContinueStaysWithin(s: Router, task: Task, probe: bool, post: Post)
    requires Within(Held(task.pc), Ids(s.replicas))
    ensures Within(Held(Continue(s, task, probe, post).1), Ids(s.replicas))
  {
    ListedWithin(s.replicas);
    match task.pc
    case SweepProbing(r, todo) => assert Held(task.pc)[1..] == todo;
    case Picking(next, found) =>
      if found != [] {
        RotateKeepsElements(found, s.cursor % |found|);
      }
    case PickProbing(r, next, found) =>
      assert forall x :: x in found + [r] ==> x in Held(task.pc);
    case _ =>
  }

  ghost predicate TasksWithin(s: Sys, ids: seq<ReplicaId>) {
    forall t :: 0 <= t < |s.tasks| ==> Within(Held(s.tasks[t].pc), ids)
  }

  lemma {:induction false} RunKeepsAccounts(start: Router, actions: seq<Action>)
    requires Fresh(start)
    ensures Accounts(start, Run(start, actions).router)
    ensures TasksWithin(Run(start, actions), Ids(start.replicas))
  {
    if actions != [] {
      var n := |actions| - 1;
      RunKeepsAccounts(start, actions[..n]);
      var s := Run(start, actions[..n]);
      match actions[n]
      case Arrive(caller, key, requestId) =>
        ActiveWithin(s.router.replicas);
        ListedWithin(s.router.replicas);
      case Resume(t, probe, post) =>
        if t < |s.tasks| {
          ContinueKeepsAccounts(start, s.router, s.tasks[t], probe, post);
          ContinueStaysWithin(s.router, s.tasks[t], probe, post);
        }
    }
  }

  /**
   * In every interleaving, the generations in the failover and scale records are exactly
   * start+1..current, each once, so the generation is the start plus both counts and is bounded by
   * the start plus the replicas plus those that began inactive.
   */
  lemma GenerationsAreHandedOutOnce(start: Router, actions: seq<Action>)
    requires Fresh(start)
    ensures var s := Run(start, actions).router;
            && EachGenerationOnce(start, s)
            && s.generation == start.generation + |s.fenced| + |s.scaleEvents|
            && |s.failovers| == |s.fenced|
            && s.generation <= start.generation + |start.replicas| + Inactive(start.replicas)
  {
    RunKeepsAccounts(start, actions);
    var s := Run(start, actions).router;
    var ids := Elements(Ids(s.replicas));
    DistinctWithin(s.fenced, ids);
    ElementsSize(Ids(s.replicas));
  }

  // ---------------------------------------------------------------------------------------------
  // Routes
  // ---------------------------------------------------------------------------------------------

  /** Cursor, keys and routes advance together, and route generations never decrease. */
  ghost predicate Aligned(s: Router) {
    && s.cursor == |s.routes| == |s.seenKeys|
    && (forall i :: 0 <= i < |s.routes| ==> s.routes[i].key == s.seenKeys[i])
    && (forall i :: 0 <= i < |s.routes| ==> s.routes[i].routerGeneration <= s.generation)
    && (forall i, j :: 0 <= i < j < |s.routes| ==> s.routes[i].routerGeneration <= s.routes[j].routerGeneration)
  }

  /** How one router transition may change the state. */
  ghost predicate Advances(s: Router, t: Router) {
    && s.generation <= t.generation
    && s.failovers <= t.failovers && s.fenced <= t.fenced
    && (forall i :: |s.failovers| <= i < |t.failovers| ==> s.generation < t.failovers[i].generation)
    && s.routes <= t.routes
  }

  lemma {:induction false} ActivateFromAdvances(s: Router, i: nat, ready: int)
    requires i <= |s.replicas|
    ensures var t := s.ActivateFrom(i, ready);
            t == s.(generation := t.generation, replicas := t.replicas, scaleEvents := t.scaleEvents)
              && s.generation <= t.generation
    decreases |s.replicas| - i
  {
    if i < |s.replicas| {
      if !s.Idle(i) {
        ActivateFromAdvances(s, i + 1, ready);
      } else if ready + 1 < s.minReady {
        ActivateFromAdvances(s.Activate(i), i + 1, ready + 1);
      }
    }
  }

  lemma ContinueAdvances(s: Router, task: Task, probe: bool, post: Post)
    ensures var (t, pc) := Continue(s, task, probe, post);
            && Advances(s, t)
            && (Aligned(s) ==> Aligned(t))
            && (t.routes != s.routes ==>
                  && task.pc.Posting? && task.pc.todo != [] && pc.Over?
                  && t == s.Record(task.key, task.requestId, task.pc.todo[0]))
            && (t.routes == s.routes ==> t.seenKeys == s.seenKeys)
  {
    ActivateFromAdvances(s, 0, if task.pc.Flooring? then task.pc.ready else 0);
  }

  lemma {:induction false} RunKeepsAligned(start: Router, actions: seq<Action>)
    requires Fresh(start)
    ensures Aligned(Run(start, actions).router)
  {
    if actions != [] {
      var n := |actions| - 1;
      RunKeepsAligned(start, actions[..n]);
      var s := Run(start, actions[..n]);
      if actions[n].Resume? && actions[n].task < |s.tasks| {
        ContinueAdvances(s.router, s.tasks[actions[n].task], actions[n].probe, actions[n].post);
      }
    }
  }

  /** In every interleaving, the cursor counts routes and keys, which match index by index, in generation order. */
  lemma CursorCountsRoutes(start: Router, actions: seq<Action>)
    requires Fresh(start)
    ensures var s := Run(start, actions).router;
            && s.cursor == |s.routes| == |s.seenKeys|
            && (forall i :: 0 <= i < |s.routes| ==> s.routes[i].key == s.seenKeys[i])
            && (forall i, j :: 0 <= i < j < |s.routes| ==> s.routes[i].routerGeneration <= s.routes[j].routerGeneration)
  {
    RunKeepsAligned(start, actions);
  }

  lemma {:induction false} LaterRunsAdvance(start: Router, actions: seq<Action>, k: nat)
    requires k <= |actions|
    ensures Advances(Run(start, actions[..k]).router, Run(start, actions).router)
    decreases |actions|
  {
    if k == |actions| {
      assert actions[..k] == actions;
    } else {
      var n := |actions| - 1;
      LaterRunsAdvance(start, actions[..n], k);
      assert actions[..n][..k] == actions[..k];
      var s := Run(start, actions[..n]);
      var a := actions[n];
      if a.Resume? && a.task < |s.tasks| {
        ContinueAdvances(s.router, s.tasks[a.task], a.probe, a.post);
        AdvancesTwice(Run(start, actions[..k]).router, s.router, Run(start, actions).router);
      }
    }
  }

  lemma AdvancesTwice(s: Router, t: Router, u: Router)
    requires Advances(s, t) && Advances(t, u)
    ensures Advances(s, u)
  {
    forall i | |s.failovers| <= i < |u.failovers|
      ensures s.generation < u.failovers[i].generation
    {
      if i < |t.failovers| {
        assert u.failovers[i] == t.failovers[i];
      }
    }
  }

  /**
   * In every interleaving, take the route that action `k` records and the failover record of its
   * replica, early or late: the route's generation is below the fence's exactly when the replica
   * was not fenced at the moment the post reply was handled.
   */
  lemma RouteBelowFenceIff(start: Router, actions: seq<Action>, k: nat, f: nat)
    requires Fresh(start) && k < |actions|
    requires |Run(start, actions[..k]).router.routes| < |Run(start, actions[..k + 1]).router.routes|
    requires f < |Run(start, actions).router.failovers|
    requires var before := Run(start, actions[..k]).router;
             Run(start, actions).router.failovers[f].replica
               == Run(start, actions[..k + 1]).router.routes[|before.routes|].replica
    ensures var before := Run(start, actions[..k]).router;
            var route := Run(start, actions[..k + 1]).router.routes[|before.routes|];
            && |before.routes| < |Run(start, actions).router.routes|
                 && Run(start, actions).router.routes[|before.routes|] == route
            && (route.routerGeneration < Run(start, actions).router.failovers[f].generation <==>
                 route.replica !in before.fenced)
  {
    var before, last := Run(start, actions[..k]), Run(start, actions).router;
    var after := Run(start, actions[..k + 1]).router;
    RunStep(start, actions, k);
    ContinueAdvances(before.router, before.tasks[actions[k].task], actions[k].probe, actions[k].post);
    var route := after.routes[|before.router.routes|];
    assert route.routerGeneration == before.router.generation && after.fenced == before.router.fenced;
    LaterRunsAdvance(start, actions, k);
    LaterRunsAdvance(start, actions, k + 1);
    RunKeepsAccounts(start, actions[..k]);
    RunKeepsAccounts(start, actions);
    assert last.failovers[f].replica == last.fenced[f];
    if f < |before.router.failovers| {
      assert last.failovers[f] == before.router.failovers[f];
      assert route.replica == before.router.fenced[f];
    } else if route.replica in before.router.fenced {
      assert false;
    }
  }

  // ---------------------------------------------------------------------------------------------
  // Serial runs
  // ---------------------------------------------------------------------------------------------

  predicate AllOver(tasks: seq<Task>) {
    forall t :: 0 <= t < |tasks| ==> tasks[t].pc.Over?
  }

  /** Each request arrives only after the ones before it are over. */
  ghost predicate Serial(start: Router, actions: seq<Action>) {
    forall k :: 0 <= k < |actions| && actions[k].Arrive? ==> AllOver(Run(start, actions[..k]).tasks)
  }

  /** The candidates gathered so far: unfenced, distinct, and from before position `next`. */
  ghost predicate Gathered(s: Router, next: nat, found: seq<Replica>) {
    && next <= |s.replicas|
    && Unfenced(found, s.fenced)
    && (forall i :: 0 <= i < |found| ==> found[i].id in Ids(s.replicas[..next]))
  }

  /** What the one task in flight may rely on. */
  ghost predicate Poised(s: Router, task: Task) {
    && (task.pc.Picking? ==> Gathered(s, task.pc.next, task.pc.found))
    && (task.pc.PickProbing? ==>
          && task.pc.next < |s.replicas| && task.pc.replica == s.replicas[task.pc.next]
          && task.pc.replica.id !in s.fenced && Gathered(s, task.pc.next, task.pc.found))
    && (task.pc.Posting? ==> Unfenced(task.pc.todo, s.fenced))
  }

  ghost predicate FencesAboveRoutes(s: Router) {
    forall i, j :: 0 <= i < |s.routes| && 0 <= j < |s.failovers| && s.routes[i].replica == s.failovers[j].replica ==>
      s.routes[i].routerGeneration < s.failovers[j].generation
  }

  ghost predicate SerialInvariant(s: Sys) {
    && (forall t :: 0 <= t < |s.tasks| - 1 ==> s.tasks[t].pc.Over?)
    && (s.tasks != [] ==> Poised(s.router, s.tasks[|s.tasks| - 1]))
    && FencesAboveRoutes(s.router)
  }

  lemma GatherOne(s: Router, next: nat, found: seq<Replica>)
    requires Gathered(s, next, found) && next < |s.replicas| && Distinct(Ids(s.replicas))
    ensures Gathered(s, next + 1, found)
    ensures s.replicas[next].id !in s.fenced ==> Gathered(s, next + 1, found + [s.replicas[next]])
  {
    var ids, r := Ids(s.replicas), s.replicas[next];
    assert Ids(s.replicas[..next]) == ids[..next] && Ids(s.replicas[..next + 1]) == ids[..next] + [r.id];
    forall i | 0 <= i < |found|
      ensures found[i].id != r.id
    {
      var p :| 0 <= p < next && ids[..next][p] == found[i].id;
      assert ids[p] != ids[next];
    }
    assert Ids(found + [r]) == Ids(found) + [r.id];
  }

  lemma ContinueKeepsPoised(s: Router, task: Task, probe: bool, post: Post)
    requires Poised(s, task) && Distinct(Ids(s.replicas))
    ensures var (t, pc) := Continue(s, task, probe, post);
            Poised(t, task.(pc := pc))
  {
    match task.pc
    case Flooring(todo, ready) => ActivateFromAdvances(s, 0, ready);
    case Picking(next, found) =>
      if next < |s.replicas| {
        GatherOne(s, next, found);
      } else if found != [] {
        RotateUnfenced(found, s.cursor % |found|, s.fenced);
      }
    case PickProbing(r, next, found) => GatherOne(s, next, found);
    case Posting(todo) =>
      if todo != [] {
        UnfencedTail(todo, s.fenced);
      }
    case _ =>
  }

  lemma ContinueKeepsFencesAbove(start: Router, s: Router, task: Task, probe: bool, post: Post)
    requires Poised(s, task) && Accounts(start, s) && Aligned(s) && FencesAboveRoutes(s)
    ensures FencesAboveRoutes(Continue(s, task, probe, post).0)
  {
    ContinueAdvances(s, task, probe, post);
    var t := Continue(s, task, probe, post).0;
    if t.routes != s.routes {
      var r := task.pc.todo[0].id;
      forall j | 0 <= j < |t.failovers|
        ensures t.failovers[j].replica != r
      {
        assert t.failovers[j].replica == s.fenced[j];
      }
    }
  }

  lemma SerialStep(start: Router, s: Sys, a: Action)
    requires SerialInvariant(s) && Accounts(start, s.router) && Aligned(s.router) && Distinct(Ids(s.router.replicas))
    requires a.Arrive? ==> AllOver(s.tasks)
    ensures SerialInvariant(Next(s, a))
  {
    if a.Resume? && a.task < |s.tasks| {
      var task := s.tasks[a.task];
      if a.task < |s.tasks| - 1 {
        assert Continue(s.router, task, a.probe, a.post) == (s.router, Over);
        assert s.tasks[a.task := task.(pc := Over)] == s.tasks;
      } else {
        ContinueKeepsPoised(s.router, task, a.probe, a.post);
        ContinueKeepsFencesAbove(start, s.router, task, a.probe, a.post);
        ContinueAdvances(s.router, task, a.probe, a.post);
      }
    }
  }

  lemma {:induction false} SerialRunsKeepInvariant(start: Router, actions: seq<Action>)
    requires Fresh(start) && Distinct(Ids(start.replicas)) && Serial(start, actions)
    ensures SerialInvariant(Run(start, actions))
  {
    if actions != [] {
      var n := |actions| - 1;
      var prior := actions[..n];
      assert forall k :: 0 <= k < n ==> prior[..k] == actions[..k];
      SerialRunsKeepInvariant(start, prior);
      RunKeepsAccounts(start, prior);
      RunKeepsAligned(start, prior);
      SerialStep(start, Run(start, prior), actions[n]);
    }
  }

  /**
   * In every serial run over distinct replica ids, each recorded route to a replica carries a
   * generation strictly below that of the replica's failover record, if it is ever fenced.
   */
  lemma NoRouteAfterFence(start: Router, actions: seq<Action>, i: nat, j: nat)
    requires Fresh(start) && Distinct(Ids(start.replicas)) && Serial(start, actions)
    requires var s := Run(start, actions).router;
             i < |s.routes| && j < |s.failovers| && s.routes[i].replica == s.failovers[j].replica
    ensures var s := Run(start, actions).router;
            s.routes[i].routerGeneration < s.failovers[j].generation
  {
    SerialRunsKeepInvariant(start, actions);
  }

  /** No request arrives while another one under the same key is in flight. */
  ghost predicate NoKeyOverlaps(start: Router, actions: seq<Action>) {
    forall k :: 0 <= k < |actions| && actions[k].Arrive? ==> NotInFlight(Run(start, actions[..k]).tasks, actions[k].key)
  }

  predicate NotInFlight(tasks: seq<Task>, key: string) {
    forall t :: 0 <= t < |tasks| && tasks[t].key == key ==> tasks[t].pc.Over?
  }

  /** Tasks in flight have keys of their own, none of them used yet, and no key was used twice. */
  ghost predicate KeysUnused(s: Sys) {
    && (forall t, u :: 0 <= t < u < |s.tasks| && !s.tasks[t].pc.Over? && !s.tasks[u].pc.Over? ==>
         s.tasks[t].key != s.tasks[u].key)
    && (forall t :: 0 <= t < |s.tasks| && !s.tasks[t].pc.Over? ==> s.tasks[t].key !in s.router.seenKeys)
    && Distinct(s.router.seenKeys)
  }

  lemma NextKeepsKeys(s: Sys, a: Action)
    requires KeysUnused(s) && (a.Arrive? ==> NotInFlight(s.tasks, a.key))
    ensures KeysUnused(Next(s, a))
  {
    if a.Resume? && a.task < |s.tasks| {
      var task := s.tasks[a.task];
      ContinueAdvances(s.router, task, a.probe, a.post);
      assert task.pc.Over? ==> Next(s, a).tasks == s.tasks;
    }
  }

  lemma {:induction false} RunKeepsKeys(start: Router, actions: seq<Action>)
    requires Fresh(start) && NoKeyOverlaps(start, actions)
    ensures KeysUnused(Run(start, actions))
  {
    if actions != [] {
      var n := |actions| - 1;
      var prior := actions[..n];
      assert forall k :: 0 <= k < n ==> prior[..k] == actions[..k];
      RunKeepsKeys(start, prior);
      NextKeepsKeys(Run(start, prior), actions[n]);
    }
  }

  /** In every interleaving in which no two requests under one key overlap, no key is accepted twice. */
  lemma KeysAreUniqueWithoutOverlap(start: Router, actions: seq<Action>)
    requires Fresh(start) && NoKeyOverlaps(start, actions)
    ensures Distinct(Run(start, actions).router.seenKeys)
  {
    RunKeepsKeys(start, actions);
  }

  /** In every serial run, no idempotency key is accepted twice. */
  lemma SerialKeysAreUnique(start: Router, actions: seq<Action>)
    requires Fresh(start) && Serial(start, actions)
    ensures Distinct(Run(start, actions).router.seenKeys)
  {
    RunKeepsKeys(start, actions);
  }

  // ---------------------------------------------------------------------------------------------
  // When a key is accepted twice
  // ---------------------------------------------------------------------------------------------

  /** Action `i` hands task `t` an accepting post reply while it awaits one. */
  ghost predicate AcceptedAt(start: Router, actions: seq<Action>, i: nat, t: nat) {
    i < |actions| && AcceptsTask(Run(start, actions[..i]), actions[i], t)
  }

  ghost predicate AcceptsTask(s: Sys, a: Action, t: nat) {
    && t < |s.tasks| && a.Resume? && a.task == t && a.post.Accepted?
    && s.tasks[t].pc.Posting? && s.tasks[t].pc.todo != []
  }

  ghost predicate InFlight(s: Sys, t: nat) {
    t < |s.tasks| && !s.tasks[t].pc.Over?
  }

  /** Two requests under one key, in flight at one moment, and both answered with success. */
  ghost predicate OverlapAccepted(start: Router, actions: seq<Action>, t: nat, u: nat, i: nat, j: nat) {
    && t != u && AcceptedAt(start, actions, i, t) && AcceptedAt(start, actions, j, u)
    && Run(start, actions[..i]).tasks[t].key == Run(start, actions[..j]).tasks[u].key
    && exists k :: 0 <= k <= |actions| && InFlight(Run(start, actions[..k]), t) && InFlight(Run(start, actions[..k]), u)
  }

  /** Tasks stay and keep their keys, over stays over, and recorded keys stay recorded. */
  ghost predicate Keeps(s: Sys, s': Sys) {
    && s.router.seenKeys <= s'.router.seenKeys && |s.tasks| <= |s'.tasks|
    && (forall t :: 0 <= t < |s.tasks| ==>
            && s'.tasks[t].key == s.tasks[t].key
            && (s.tasks[t].pc.Over? ==> s'.tasks[t].pc.Over?))
  }

  /** One action keeps all that, and a key is recorded only by an acceptance, which ends its task. */
  lemma NextRecords(s: Sys, a: Action)
    ensures var s' := Next(s, a);
            && Keeps(s, s')
            && (if a.Resume? && AcceptsTask(s, a, a.task)
                then s'.router.seenKeys == s.router.seenKeys + [s.tasks[a.task].key] && s'.tasks[a.task].pc.Over?
                else s'.router.seenKeys == s.router.seenKeys)
  {
    if a.Resume? && a.task < |s.tasks| {
      ContinueAdvances(s.router, s.tasks[a.task], a.probe, a.post);
    }
  }

  /** What holds of a task and of the recorded keys after `k` actions still holds at the end. */
  lemma {:induction false} LaterRunsKeep(start: Router, actions: seq<Action>, k: nat)
    requires k <= |actions|
    ensures Keeps(Run(start, actions[..k]), Run(start, actions))
    decreases |actions|
  {
    if k == |actions| {
      assert actions[..k] == actions;
    } else {
      var n := |actions| - 1;
      LaterRunsKeep(start, actions[..n], k);
      assert actions[..n][..k] == actions[..k];
      NextRecords(Run(start, actions[..n]), actions[n]);
    }
  }

  lemma RunsKeepBetween(start: Router, actions: seq<Action>, k: nat, m: nat)
    requires k <= m <= |actions|
    ensures Keeps(Run(start, actions[..k]), Run(start, actions[..m]))
  {
    assert actions[..m][..k] == actions[..k];
    LaterRunsKeep(start, actions[..m], k);
  }

  /** Every recorded key was recorded by one acceptance. */
  lemma {:induction false} RecordedBy(start: Router, actions: seq<Action>, p: nat) returns (i: nat, t: nat)
    requires Fresh(start) && p < |Run(start, actions).router.seenKeys|
    ensures AcceptedAt(start, actions, i, t) && |Run(start, actions[..i]).router.seenKeys| == p
    ensures Run(start, actions[..i]).tasks[t].key == Run(start, actions).router.seenKeys[p]
    decreases |actions|
  {
    var n := |actions| - 1;
    var s := Run(start, actions[..n]);
    NextRecords(s, actions[n]);
    if p < |s.router.seenKeys| {
      i, t := RecordedBy(start, actions[..n], p);
      assert actions[..n][..i] == actions[..i];
    } else {
      i, t := n, actions[n].task;
    }
  }

  /** Every task came in with a key that was not recorded at that moment. */
  lemma {:induction false} CameFresh(start: Router, actions: seq<Action>, u: nat) returns (k: nat)
    requires u < |Run(start, actions).tasks|
    ensures k < |actions| && actions[k].Arrive? && u < |Run(start, actions[..k + 1]).tasks|
    ensures Run(start, actions).tasks[u].key !in Run(start, actions[..k]).router.seenKeys
    decreases |actions|
  {
    var n := |actions| - 1;
    var s := Run(start, actions[..n]);
    NextRecords(s, actions[n]);
    if u < |s.tasks| {
      k := CameFresh(start, actions[..n], u);
      assert actions[..n][..k] == actions[..k] && actions[..n][..k + 1] == actions[..k + 1];
    } else {
      k := n;
      assert actions[..n + 1] == actions;
    }
  }

  lemma CameFreshAt(start: Router, actions: seq<Action>, u: nat, j: nat) returns (k: nat)
    requires j <= |actions| && u < |Run(start, actions[..j]).tasks|
    ensures k < j && actions[k].Arrive? && u < |Run(start, actions[..k + 1]).tasks|
    ensures Run(start, actions[..j]).tasks[u].key !in Run(start, actions[..k]).router.seenKeys
  {
    k := CameFresh(start, actions[..j], u);
    assert actions[..j][..k] == actions[..k] && actions[..j][..k + 1] == actions[..k + 1];
  }

  /** An acceptance ends its task and records its key, for good. */
  lemma AcceptanceLasts(start: Router, actions: seq<Action>, i: nat, t: nat, m: nat)
    requires AcceptedAt(start, actions, i, t) && i < m <= |actions|
    ensures var s, s' := Run(start, actions[..i]), Run(start, actions[..m]);
            && t < |s'.tasks| && s'.tasks[t].pc.Over?
            && |s.router.seenKeys| < |s'.router.seenKeys| && s'.router.seenKeys[|s.router.seenKeys|] == s.tasks[t].key
  {
    RunStep(start, actions, i);
    NextRecords(Run(start, actions[..i]), actions[i]);
    RunsKeepBetween(start, actions, i + 1, m);
  }

  lemma ArrivalPrecedes(start: Router, actions: seq<Action>, i: nat, t: nat, j: nat, u: nat) returns (k: nat)
    requires AcceptedAt(start, actions, i, t) && i < j <= |actions| && u < |Run(start, actions[..j]).tasks|
    requires Run(start, actions[..i]).tasks[t].key == Run(start, actions[..j]).tasks[u].key
    ensures k < i && u < |Run(start, actions[..k + 1]).tasks|
  {
    k := CameFreshAt(start, actions, u, j);
    if i < k {
      AcceptanceLasts(start, actions, i, t, k);
    }
  }

  lemma StaysInFlight(s: Sys, s': Sys, s'': Sys, u: nat)
    requires u < |s.tasks| && Keeps(s, s') && Keeps(s', s'') && InFlight(s'', u)
    ensures InFlight(s', u)
  {
  }

  /** A task that is still in flight after its key was recorded was in flight before that. */
  lemma CameBefore(start: Router, actions: seq<Action>, i: nat, t: nat, j: nat, u: nat)
    requires AcceptedAt(start, actions, i, t) && i < j <= |actions| && InFlight(Run(start, actions[..j]), u)
    requires Run(start, actions[..i]).tasks[t].key == Run(start, actions[..j]).tasks[u].key
    ensures InFlight(Run(start, actions[..i]), u)
  {
    var k := ArrivalPrecedes(start, actions, i, t, j, u);
    RunsKeepBetween(start, actions, k + 1, i);
    RunsKeepBetween(start, actions, i, j);
    StaysInFlight(Run(start, actions[..k + 1]), Run(start, actions[..i]), Run(start, actions[..j]), u);
  }

  /** Two acceptances under one key are of two tasks that were in flight together. */
  lemma RepeatMeansOverlap(start: Router, actions: seq<Action>, i: nat, t: nat, j: nat, u: nat)
    requires AcceptedAt(start, actions, i, t) && AcceptedAt(start, actions, j, u) && i < j
    requires Run(start, actions[..i]).tasks[t].key == Run(start, actions[..j]).tasks[u].key
    ensures OverlapAccepted(start, actions, t, u, i, j)
  {
    AcceptanceLasts(start, actions, i, t, j);
    CameBefore(start, actions, i, t, j, u);
    assert InFlight(Run(start, actions[..i]), t) && InFlight(Run(start, actions[..i]), u);
  }

  /** Two acceptances under one key record it twice. */
  lemma AcceptedTwiceRepeats(start: Router, actions: seq<Action>, i: nat, t: nat, j: nat, u: nat)
    requires AcceptedAt(start, actions, i, t) && AcceptedAt(start, actions, j, u) && i < j
    requires Run(start, actions[..i]).tasks[t].key == Run(start, actions[..j]).tasks[u].key
    ensures !Distinct(Run(start, actions).router.seenKeys)
  {
    AcceptanceLasts(start, actions, i, t, j);
    AcceptanceLasts(start, actions, i, t, |actions|);
    AcceptanceLasts(start, actions, j, u, |actions|);
    assert actions[..|actions|] == actions;
  }

  /**
   * In every interleaving, a key is accepted twice if and only if two requests under one key were
   * in flight at one moment and both were answered with success.
   */
  lemma RepeatedKeyIffOverlap(start: Router, actions: seq<Action>)
    requires Fresh(start)
    ensures !Distinct(Run(start, actions).router.seenKeys) <==>
              exists t: nat, u: nat, i: nat, j: nat :: OverlapAccepted(start, actions, t, u, i, j)
  {
    if !Distinct(Run(start, actions).router.seenKeys) {
      var t, u, i, j := RepeatShowsOverlap(start, actions);
    }
    if t: nat, u: nat, i: nat, j: nat :| OverlapAccepted(start, actions, t, u, i, j) {
      OverlapRepeats(start, actions, t, u, i, j);
    }
  }

  lemma RepeatShowsOverlap(start: Router, actions: seq<Action>) returns (t: nat, u: nat, i: nat, j: nat)
    requires Fresh(start) && !Distinct(Run(start, actions).router.seenKeys)
    ensures OverlapAccepted(start, actions, t, u, i, j)
  {
    var keys := Run(start, actions).router.seenKeys;
    var p, q :| 0 <= p < q < |keys| && keys[p] == keys[q];
    i, t := RecordedBy(start, actions, p);
    j, u := RecordedBy(start, actions, q);
    if j <= i {
      RunsKeepBetween(start, actions, j, i);
      assert false;
    }
    RepeatMeansOverlap(start, actions, i, t, j, u);
  }

  lemma OverlapRepeats(start: Router, actions: seq<Action>, t: nat, u: nat, i: nat, j: nat)
    requires OverlapAccepted(start, actions, t, u, i, j)
    ensures !Distinct(Run(start, actions).router.seenKeys)
  {
    if i < j {
      AcceptedTwiceRepeats(start, actions, i, t, j, u);
    } else {
      AcceptedTwiceRepeats(start, actions, j, u, i, t);
    }
  }
}
