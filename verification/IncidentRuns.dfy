/**
 * Every interleaving of the tasks that drive the incident-response router.
 *
 * A task is a program point of `infer` or `scan` between two awaits. Resuming one runs at most the
 * code up to its next await, so every schedule of the event loop is a list of actions here.
 */
module IncidentRuns {
  import opened Sequences
  import opened Shared
  import opened IncidentRouter

  datatype Task =
    | Admitted(key: string)                                                                 // past line 120
    | Scanning(key: string, ids: seq<ReplicaId>, offset: nat)                               // head of the loop at 99
    | Probing(key: string, ids: seq<ReplicaId>, offset: nat, replica: ReplicaId, past: nat) // awaiting at 103
    | Posting(key: string, replica: ReplicaId)                                              // awaiting at 123
    | Checking(rest: seq<ReplicaId>)                                                        // head of the loop at 140
    | CheckProbing(replica: ReplicaId, rest: seq<ReplicaId>)                                // awaiting at 144
    | Over                                                                                  // returned or raised
  {
    predicate Holds(k: string) {
      (Admitted? || Scanning? || Probing? || Posting?) && key == k
    }
  }

  datatype Action =
    | Arrive(tenant: string, key: string)
    | StartScan
    | Registration(replica: ReplicaId, endpoint: string, generation: int)
    | Resume(task: nat, probe: ProbeReply, post: PostReply)

  datatype Sys = Sys(router: Router, tasks: seq<Task>)

  /** One resumption of one task; the replies are used only where the task was awaiting one. */
  function Continue(s: Router, task: Task, probe: ProbeReply, post: PostReply): (Router, Task) {
    match task
    case Admitted(key) => (s, if s.order == [] then Over else Scanning(key, s.order, 0))
    case Scanning(key, ids, offset) =>
      if offset >= |ids| then (s, Over)
      else
        var r := ids[(s.rr + offset) % |ids|];
        (s, if r in s.fenced then Scanning(key, ids, offset + 1)
            else Probing(key, ids, offset, r, NextPointer(ids, r)))
    case Probing(key, ids, offset, r, past) =>
      if probe.Passes() then (s.(rr := past), Posting(key, r))
      else (s.AfterProbe(r, probe), Scanning(key, ids, offset + 1))
    case Posting(key, r) => (s.AfterPost(r, key, post).0, Over)
    case Checking(rest) =>
      if rest == [] then (s, Over)
      else (s, if rest[0] in s.fenced then Checking(rest[1..]) else CheckProbing(rest[0], rest[1..]))
    case CheckProbing(r, rest) => (s.AfterProbe(r, probe), Checking(rest))
    case Over => (s, Over)
  }

  function Next(s: Sys, a: Action): Sys {
    match a
    case Arrive(tenant, key) =>
      if s.router.Admits(tenant, key) then Sys(s.router.Reserve(key), s.tasks + [Admitted(key)])
      else Sys(s.router.Refuse(tenant, key).0, s.tasks)
    case StartScan => Sys(s.router, s.tasks + [Checking(s.router.order)])
    case Registration(r, endpoint, generation) => Sys(s.router.Register(r, endpoint, generation), s.tasks)
    case Resume(t, probe, post) =>
      if t >= |s.tasks| then s
      else
        var (router, task) := Continue(s.router, s.tasks[t], probe, post);
        Sys(router, s.tasks[t := task])
  }

  function Run(start: Router, actions: seq<Action>): Sys {
    if actions == [] then Sys(start, [])
    else Next(Run(start, actions[..|actions| - 1]), actions[|actions| - 1])
  }

  lemma RunStep(start: Router, actions: seq<Action>, k: nat)
    requires k < |actions|
    ensures Run(start, actions[..k + 1]) == Next(Run(start, actions[..k]), actions[k])
  {
    assert actions[..k + 1][..k] == actions[..k];
  }

  /** The states that a run goes through. */
  ghost function Trace(start: Router, actions: seq<Action>): seq<Sys> {
    seq(|actions| + 1, k requires 0 <= k <= |actions| => Run(start, actions[..k]))
  }

  ghost predicate IsTrace(trace: seq<Sys>, actions: seq<Action>) {
    |trace| == |actions| + 1 && forall k :: 0 <= k < |actions| ==> trace[k + 1] == Next(trace[k], actions[k])
  }

  lemma RunsHaveTraces(start: Router, actions: seq<Action>)
    ensures IsTrace(Trace(start, actions), actions) && Trace(start, actions)[0] == Sys(start, [])
    ensures Trace(start, actions)[|actions|] == Run(start, actions)
  {
    assert actions[..|actions|] == actions;
    forall k | 0 <= k < |actions|
      ensures Trace(start, actions)[k + 1] == Next(Trace(start, actions)[k], actions[k])
    {
      RunStep(start, actions, k);
    }
  }

  // ---------------------------------------------------------------------------------------------
  // Validity under every interleaving
  // ---------------------------------------------------------------------------------------------

  /** The list a task works through was the replica order once, and its next pointer is inside it. */
  ghost predicate TaskFits(order: seq<ReplicaId>, task: Task) {
    && (task.Scanning? || task.Probing? ==> task.ids <= order)
    && (task.Probing? ==> task.past < |task.ids|)
  }

  lemma RegisterKeepsValid(s: Router, r: ReplicaId, endpoint: string, generation: int)
    requires s.Valid()
    ensures s.Register(r, endpoint, generation).Valid() && s.order <= s.Register(r, endpoint, generation).order
  {
    var t := s.Register(r, endpoint, generation);
    assert Elements(t.order) == Elements(s.order) + {r};
  }

  lemma NextKeepsValid(s: Sys, a: Action)
    requires s.router.Valid() && forall t :: 0 <= t < |s.tasks| ==> TaskFits(s.router.order, s.tasks[t])
    ensures var s' := Next(s, a);
            s'.router.Valid() && forall t :: 0 <= t < |s'.tasks| ==> TaskFits(s'.router.order, s'.tasks[t])
  {
    if a.Registration? {
      RegisterKeepsValid(s.router, a.replica, a.endpoint, a.generation);
    }
  }

  /** In every interleaving, ids stay distinct, both tables are keyed by them and `rr_index` stays in range. */
  lemma {:induction false} RunKeepsValid(start: Router, actions: seq<Action>)
    requires start.Valid()
    ensures var s := Run(start, actions);
            s.router.Valid() && forall t :: 0 <= t < |s.tasks| ==> TaskFits(s.router.order, s.tasks[t])
  {
    if actions != [] {
      var n := |actions| - 1;
      RunKeepsValid(start, actions[..n]);
      NextKeepsValid(Run(start, actions[..n]), actions[n]);
    }
  }

  // ---------------------------------------------------------------------------------------------
  // The log as an event source
  // ---------------------------------------------------------------------------------------------

  /** The part of the state that the log is meant to account for. */
  datatype Ledger = Ledger(order: seq<ReplicaId>, generations: map<ReplicaId, int>, fenced: set<ReplicaId>,
      generation: int)

  function Project(s: Router): Ledger {
    Ledger(s.order, s.generations, s.fenced, s.generation)
  }

  function Apply(l: Ledger, e: Event): Ledger {
    match e
    case IntegrityFailureDetected(_, g) => l.(generation := g)
    case ReplicaUnreachable(_, g) => l.(generation := g)
    case ReplicaFenced(r, g) => l.(fenced := l.fenced + {r}, generation := g)
    case PostRouteIntegrityFailure(r, g) => l.(fenced := l.fenced + {r}, generation := g)
    case CleanReplacementRegistered(r, generation, g) =>
      Ledger(if r in l.order then l.order else l.order + [r], l.generations[r := generation], l.fenced - {r}, g)
    case RequestRouted(_, _, _) => l
    case CrossTenantRequestDenied(_) => l
    case IdempotencyReplayDetected(_) => l
  }

  function Replay(base: Ledger, log: seq<Entry>): Ledger {
    if log == [] then base else Apply(Replay(base, log[..|log| - 1]), log[|log| - 1].event)
  }

  /** The events written right after the generation has moved. */
  predicate Bump(e: Event) {
    e.IntegrityFailureDetected? || e.ReplicaUnreachable? || e.PostRouteIntegrityFailure?
      || e.CleanReplacementRegistered?
  }

  predicate Stamped(e: Event) {
    !e.CrossTenantRequestDenied? && !e.IdempotencyReplayDetected?
  }

  function Bumps(log: seq<Entry>): nat {
    if log == [] then 0 else Bumps(log[..|log| - 1]) + (if Bump(log[|log| - 1].event) then 1 else 0)
  }

  /** Every entry carries its place, and every stamp is the starting generation plus the bumps so far. */
  ghost predicate Accounted(first: int, log: seq<Entry>) {
    log == [] ||
    var n := |log|;
    var e := log[n - 1];
    && Accounted(first, log[..n - 1])
    && e.sequence == n
    && (Stamped(e.event) ==> e.event.routerGeneration == first + Bumps(log))
  }

  ghost predicate LogInvariant(start: Router, s: Router) {
    && start.log <= s.log
    && Replay(Project(start), s.log) == Project(s)
    && Accounted(start.generation, s.log)
    && s.generation == start.generation + Bumps(s.log)
  }

  /** What appending one entry does to all three readings of the log. */
  lemma AppendOne(start: Router, s: Router, e: Event)
    ensures var log := s.Emit(e).log;
            && Replay(Project(start), log) == Apply(Replay(Project(start), s.log), e)
            && Bumps(log) == Bumps(s.log) + (if Bump(e) then 1 else 0)
            && (Accounted(start.generation, log) <==>
                  Accounted(start.generation, s.log)
                  && (Stamped(e) ==> e.routerGeneration == start.generation + Bumps(log)))
  {
    var log := s.Emit(e).log;
    assert log[..|log| - 1] == s.log;
  }

  lemma ProbeKeepsLog(start: Router, s: Router, r: ReplicaId, reply: ProbeReply)
    requires LogInvariant(start, s)
    ensures LogInvariant(start, s.AfterProbe(r, reply))
  {
    if !reply.Passes() {
      var g := s.generation + 1;
      FencingIsLogged(start, s, if reply.NoAnswer? then ReplicaUnreachable(r, g)
        else IntegrityFailureDetected(r, g), r);
    }
  }

  /** The two events of a failed probe, and what they amount to together. */
  lemma FencingIsLogged(start: Router, s: Router, cause: Event, r: ReplicaId)
    requires LogInvariant(start, s)
    requires cause.IntegrityFailureDetected? || cause.ReplicaUnreachable?
    requires cause.routerGeneration == s.generation + 1
    ensures LogInvariant(start, s.Fence(r).Emit(cause).Emit(ReplicaFenced(r, s.generation + 1)))
  {
    CauseIsLogged(start, s, cause);
    var u := s.Fence(r).Emit(cause);
    assert u.log == s.Emit(cause).log;
    AppendOne(start, u, ReplicaFenced(r, s.generation + 1));
  }

  /** Between the two, the logged generation has moved and the logged fences have not. */
  lemma CauseIsLogged(start: Router, s: Router, cause: Event)
    requires LogInvariant(start, s)
    requires cause.IntegrityFailureDetected? || cause.ReplicaUnreachable?
    requires cause.routerGeneration == s.generation + 1
    ensures var log := s.Emit(cause).log;
            && start.log <= log && Accounted(start.generation, log) && s.generation + 1 == start.generation + Bumps(log)
            && Replay(Project(start), log) == Project(s).(generation := s.generation + 1)
  {
    AppendOne(start, s, cause);
  }

  lemma PostKeepsLog(start: Router, s: Router, r: ReplicaId, key: string, reply: PostReply)
    requires LogInvariant(start, s)
    ensures LogInvariant(start, s.AfterPost(r, key, reply).0)
  {
    var u := s.Fence(r);
    AppendOne(start, u, PostRouteIntegrityFailure(r, u.generation));
    AppendOne(start, s, RequestRouted(r, key, s.generation));
  }

  lemma RegisterKeepsLog(start: Router, s: Router, r: ReplicaId, endpoint: string, generation: int)
    requires LogInvariant(start, s)
    ensures LogInvariant(start, s.Register(r, endpoint, generation))
  {
    AppendOne(start, s, CleanReplacementRegistered(r, generation, s.generation + 1));
  }

  lemma NextKeepsLog(start: Router, s: Sys, a: Action)
    requires LogInvariant(start, s.router)
    ensures LogInvariant(start, Next(s, a).router)
  {
    match a
    case Arrive(tenant, key) =>
      AppendOne(start, s.router, CrossTenantRequestDenied(tenant));
      AppendOne(start, s.router, IdempotencyReplayDetected(key));
    case StartScan =>
    case Registration(r, endpoint, generation) =>
      RegisterKeepsLog(start, s.router, r, endpoint, generation);
    case Resume(t, probe, post) =>
      if t < |s.tasks| {
        match s.tasks[t]
        case Probing(key, ids, offset, r, past) => ProbeKeepsLog(start, s.router, r, probe);
        case CheckProbing(r, rest) => ProbeKeepsLog(start, s.router, r, probe);
        case Posting(key, r) => PostKeepsLog(start, s.router, r, key, post);
        case _ =>
      }
  }

  lemma {:induction false} RunKeepsLog(start: Router, actions: seq<Action>)
    requires start.log == []
    ensures LogInvariant(start, Run(start, actions).router)
  {
    if actions != [] {
      var n := |actions| - 1;
      RunKeepsLog(start, actions[..n]);
      NextKeepsLog(start, Run(start, actions[..n]), actions[n]);
    }
  }

  /**
   * In every interleaving, folding the log from the initial state reconstructs the live fenced
   * set, router generation, ordered replica ids and replica generations.
   */
  lemma LogIsAnEventSource(start: Router, actions: seq<Action>)
    requires start.log == []
    ensures var s := Run(start, actions).router;
            Replay(Project(start), s.log) == Project(s)
  {
    RunKeepsLog(start, actions);
  }

  lemma {:induction false} AccountedAt(first: int, log: seq<Entry>, i: nat)
    requires Accounted(first, log) && i < |log|
    ensures log[i].sequence == i + 1
    ensures Stamped(log[i].event) ==> log[i].event.routerGeneration == first + Bumps(log[..i + 1])
    decreases |log|
  {
    var n := |log| - 1;
    if i == n {
      assert log[..i + 1] == log;
    } else {
      AccountedAt(first, log[..n], i);
      assert log[..n][..i + 1] == log[..i + 1];
    }
  }

  lemma {:induction false} BumpsGrow(log: seq<Entry>, i: nat, j: nat)
    requires i <= j <= |log|
    ensures Bumps(log[..i]) <= Bumps(log[..j]) <= Bumps(log[..i]) + (j - i)
    decreases j
  {
    if i < j {
      BumpsGrow(log, i, j - 1);
      assert log[..j][..j - 1] == log[..j - 1];
    }
  }

  /**
   * In every interleaving, sequence numbers are 1..n, the router generation counts the bumps, and
   * every logged generation is the starting one plus the bumps up to and including its entry.
   */
  lemma StampsAreExact(start: Router, actions: seq<Action>, i: nat)
    requires start.log == [] && i < |Run(start, actions).router.log|
    ensures var s := Run(start, actions).router;
            && s.generation == start.generation + Bumps(s.log)
            && s.log[i].sequence == i + 1
            && (Stamped(s.log[i].event) ==>
                  s.log[i].event.routerGeneration == start.generation + Bumps(s.log[..i + 1]))
  {
    RunKeepsLog(start, actions);
    AccountedAt(start.generation, Run(start, actions).router.log, i);
  }

  /** In every interleaving, logged generations never decrease along the log. */
  lemma LoggedGenerationsNeverDecrease(start: Router, actions: seq<Action>, i: nat, j: nat)
    requires start.log == [] && i <= j < |Run(start, actions).router.log|
    requires Stamped(Run(start, actions).router.log[i].event) && Stamped(Run(start, actions).router.log[j].event)
    ensures var s := Run(start, actions).router;
            s.log[i].event.routerGeneration <= s.log[j].event.routerGeneration <= s.generation
  {
    RunKeepsLog(start, actions);
    AccountedInOrder(start.generation, Run(start, actions).router.log, i, j);
  }

  lemma AccountedInOrder(first: int, log: seq<Entry>, i: nat, j: nat)
    requires Accounted(first, log) && i <= j < |log| && Stamped(log[i].event) && Stamped(log[j].event)
    ensures log[i].event.routerGeneration <= log[j].event.routerGeneration <= first + Bumps(log)
  {
    AccountedAt(first, log, i);
    AccountedAt(first, log, j);
    BumpsGrow(log, i + 1, j + 1);
    BumpsGrow(log, j + 1, |log|);
    assert log[..|log|] == log;
  }

  /** The log does not record endpoints or reserved keys: equal logs can hide different ones. */
  lemma LogOmitsEndpointsAndReservations()
    ensures exists start: Router, a: seq<Action>, b: seq<Action> ::
              && start.Valid() && start.log == []
              && Run(start, a).router.log == Run(start, b).router.log
              && Run(start, a).router.endpoints != Run(start, b).router.endpoints
              && Run(start, a).router.idempotency != Run(start, b).router.idempotency
  {
    var start := Start([], map[], map[]);
    var r := ReplicaId("replica-a");
    var a := [Registration(r, "http://old", 1)];
    var b := [Registration(r, "http://new", 1), Arrive(TENANT, "k")];
    assert a[..0] == [] && b[..1] == [b[0]] && [b[0]][..0] == [];
    var s, t := start.Register(r, "http://old", 1), start.Register(r, "http://new", 1);
    assert Run(start, a).router == s;
    assert Run(start, [b[0]]) == Sys(t, []);
    assert Run(start, b).router == t.Reserve("k");
    assert s.endpoints[r] != t.endpoints[r];
    assert "k" in t.Reserve("k").idempotency && "k" !in s.idempotency;
  }

  // ---------------------------------------------------------------------------------------------
  // Idempotency
  // ---------------------------------------------------------------------------------------------

  predicate Routes(e: Entry, key: string) {
    e.event.RequestRouted? && e.event.key == key
  }

  /** Held keys are reserved, and no two tasks hold the same one. */
  ghost predicate HeldOnce(tasks: seq<Task>, reserved: set<string>) {
    && (forall t, k :: 0 <= t < |tasks| && tasks[t].Holds(k) ==> k in reserved)
    && (forall t, u, k :: 0 <= t < u < |tasks| && tasks[t].Holds(k) ==> !tasks[u].Holds(k))
  }

  /** Routed keys are reserved, no longer held by any task, and routed once. */
  ghost predicate RoutedOnce(log: seq<Entry>, tasks: seq<Task>, reserved: set<string>) {
    && (forall i, k :: 0 <= i < |log| && Routes(log[i], k) ==> k in reserved)
    && (forall i, t, k :: 0 <= i < |log| && 0 <= t < |tasks| && Routes(log[i], k) ==> !tasks[t].Holds(k))
    && (forall i, j, k :: 0 <= i < j < |log| && Routes(log[i], k) ==> !Routes(log[j], k))
  }

  ghost predicate KeysSingleUse(s: Sys) {
    HeldOnce(s.tasks, s.router.idempotency) && RoutedOnce(s.router.log, s.tasks, s.router.idempotency)
  }

  /** A resumption keeps the task's key or drops it, and writes at most a route for that key. */
  lemma ContinueUsesItsKey(s: Router, task: Task, probe: ProbeReply, post: PostReply)
    ensures var (t, task') := Continue(s, task, probe, post);
            && t.idempotency == s.idempotency && s.log <= t.log
            && (forall k :: task'.Holds(k) ==> task.Holds(k))
            && (forall i, k {:trigger Routes(t.log[i], k)} :: |s.log| <= i < |t.log| && Routes(t.log[i], k) ==>
                  task.Holds(k) && !task'.Holds(k) && |t.log| == |s.log| + 1)
  {
    match task
    case Posting(key, r) =>
    case Probing(key, ids, offset, r, past) =>
    case CheckProbing(r, rest) =>
    case _ =>
  }

  lemma RoutedOnceGrows(log: seq<Entry>, log': seq<Entry>, tasks: seq<Task>, reserved: set<string>, t: nat, task': Task)
    requires HeldOnce(tasks, reserved) && RoutedOnce(log, tasks, reserved) && log <= log' && t < |tasks|
    requires forall k :: task'.Holds(k) ==> tasks[t].Holds(k)
    requires forall i, k {:trigger Routes(log'[i], k)} :: |log| <= i < |log'| && Routes(log'[i], k) ==>
               tasks[t].Holds(k) && !task'.Holds(k) && |log'| == |log| + 1
    ensures RoutedOnce(log', tasks[t := task'], reserved)
  {
    var tasks' := tasks[t := task'];
    assert forall i :: 0 <= i < |log| ==> log'[i] == log[i];
    forall i, u, k | 0 <= i < |log'| && 0 <= u < |tasks'| && Routes(log'[i], k)
      ensures !tasks'[u].Holds(k)
    {
      if i < |log| {
        assert Routes(log[i], k);
        assert !tasks[u].Holds(k) && !tasks[t].Holds(k);
      } else {
        assert tasks[t].Holds(k);
      }
    }
    forall i, j, k | 0 <= i < j < |log'| && Routes(log'[i], k)
      ensures !Routes(log'[j], k)
    {
      if i < |log| {
        assert Routes(log[i], k) && !tasks[t].Holds(k);
      }
    }
  }

  lemma ResumeKeepsKeys(s: Sys, t: nat, probe: ProbeReply, post: PostReply)
    requires KeysSingleUse(s) && t < |s.tasks|
    ensures KeysSingleUse(Next(s, Resume(t, probe, post)))
  {
    ContinueUsesItsKey(s.router, s.tasks[t], probe, post);
    var (router, task) := Continue(s.router, s.tasks[t], probe, post);
    RoutedOnceGrows(s.router.log, router.log, s.tasks, s.router.idempotency, t, task);
  }

  lemma ArriveKeepsKeys(s: Sys, tenant: string, key: string)
    requires KeysSingleUse(s)
    ensures KeysSingleUse(Next(s, Arrive(tenant, key)))
  {
  }

  lemma NextKeepsKeys(s: Sys, a: Action)
    requires KeysSingleUse(s)
    ensures KeysSingleUse(Next(s, a))
  {
    match a
    case Arrive(tenant, key) => ArriveKeepsKeys(s, tenant, key);
    case StartScan =>
    case Registration(r, endpoint, generation) =>
    case Resume(t, probe, post) =>
      if t < |s.tasks| {
        ResumeKeepsKeys(s, t, probe, post);
      }
  }

  lemma {:induction false} RunKeepsKeys(start: Router, actions: seq<Action>)
    requires start.log == []
    ensures KeysSingleUse(Run(start, actions))
  {
    if actions != [] {
      var n := |actions| - 1;
      RunKeepsKeys(start, actions[..n]);
      NextKeepsKeys(Run(start, actions[..n]), actions[n]);
    }
  }

  /** In every interleaving, at most one `request_routed` event exists per idempotency key. */
  lemma RoutedAtMostOnce(start: Router, actions: seq<Action>, i: nat, j: nat)
    requires start.log == []
    requires var log := Run(start, actions).router.log;
             i < |log| && j < |log| && log[i].event.RequestRouted? && log[j].event.RequestRouted?
    requires Run(start, actions).router.log[i].event.key == Run(start, actions).router.log[j].event.key
    ensures i == j
  {
    RunKeepsKeys(start, actions);
    var log := Run(start, actions).router.log;
    assert Routes(log[i], log[i].event.key) && Routes(log[j], log[i].event.key);
  }

  lemma NextGrows(s: Sys, a: Action)
    ensures s.router.log <= Next(s, a).router.log
    ensures s.router.idempotency <= Next(s, a).router.idempotency
    ensures forall k :: k in Next(s, a).router.idempotency && k !in s.router.idempotency ==> a == Arrive(TENANT, k)
  {
    if a.Resume? && a.task < |s.tasks| {
      ContinueUsesItsKey(s.router, s.tasks[a.task], a.probe, a.post);
    }
  }

  /** Action `k` is the arrival that took `key`. */
  ghost predicate ReservedAt(start: Router, actions: seq<Action>, key: string, k: nat) {
    && k < |actions| && actions[k] == Arrive(TENANT, key)
    && key !in Run(start, actions[..k]).router.idempotency
    && key in Run(start, actions[..k + 1]).router.idempotency
  }

  /** Every key in the idempotency set was put there by one arrival. */
  lemma {:induction false} ReservationExists(start: Router, actions: seq<Action>, key: string) returns (k: nat)
    requires key !in start.idempotency
    requires key in Run(start, actions).router.idempotency
    ensures ReservedAt(start, actions, key, k)
    decreases |actions|
  {
    var n := |actions| - 1;
    var before := Run(start, actions[..n]);
    if key in before.router.idempotency {
      k := ReservationExists(start, actions[..n], key);
      assert actions[..n][..k] == actions[..k] && actions[..n][..k + 1] == actions[..k + 1];
    } else {
      NextGrows(before, actions[n]);
      k := n;
      assert actions[..k + 1] == actions;
    }
  }

  lemma {:induction false} LogExtends(start: Router, actions: seq<Action>, k: nat)
    requires k <= |actions|
    ensures Run(start, actions[..k]).router.log <= Run(start, actions).router.log
    decreases |actions|
  {
    if k == |actions| {
      assert actions[..k] == actions;
    } else {
      var n := |actions| - 1;
      LogExtends(start, actions[..n], k);
      assert actions[..n][..k] == actions[..k];
      NextGrows(Run(start, actions[..n]), actions[n]);
    }
  }

  /**
   * In every interleaving, a routed key was reserved by the arrival of its own request, before any
   * task of that request could suspend, and the route was logged only after that.
   */
  lemma RoutedKeyWasReserved(start: Router, actions: seq<Action>, i: nat) returns (k: nat)
    requires start.log == [] && start.idempotency == {}
    requires i < |Run(start, actions).router.log| && Run(start, actions).router.log[i].event.RequestRouted?
    ensures ReservedAt(start, actions, Run(start, actions).router.log[i].event.key, k)
    ensures |Run(start, actions[..k + 1]).router.log| <= i
  {
    var s := Run(start, actions).router;
    var key := s.log[i].event.key;
    RunKeepsKeys(start, actions);
    assert Routes(s.log[i], key);
    k := ReservationExists(start, actions, key);
    var after := Run(start, actions[..k + 1]);
    RunStep(start, actions, k);
    LogExtends(start, actions, k + 1);
    RunKeepsKeys(start, actions[..k + 1]);
    if i < |after.router.log| {
      assert after.router.log[i] == s.log[i];
      var t := |after.tasks| - 1;
      assert after.tasks[t].Holds(key);
      assert false;
    }
  }

  // ---------------------------------------------------------------------------------------------
  // Routes and fences
  // ---------------------------------------------------------------------------------------------

  predicate AllOver(tasks: seq<Task>) {
    forall t :: 0 <= t < |tasks| ==> tasks[t].Over?
  }

  /** Requests, scans and registrations come in only while no task is in flight. */
  ghost predicate Serial(start: Router, actions: seq<Action>) {
    forall k :: 0 <= k < |actions| && !actions[k].Resume? ==> AllOver(Run(start, actions[..k]).tasks)
  }

  /** Entry `i` routes a request to a replica that the log before it leaves fenced. */
  ghost predicate RoutedToFenced(start: Router, log: seq<Entry>, i: nat)
    requires i < |log|
  {
    log[i].event.RequestRouted? && log[i].event.replica in Replay(Project(start), log[..i]).fenced
  }

  ghost predicate NoRouteToFenced(start: Router, log: seq<Entry>) {
    forall i :: 0 <= i < |log| ==> !RoutedToFenced(start, log, i)
  }

  /** Only the last task can be in flight, and what it is about to use is unfenced. */
  ghost predicate OneInFlight(s: Sys) {
    && (forall t :: 0 <= t < |s.tasks| - 1 ==> s.tasks[t].Over?)
    && (s.tasks != [] ==>
          var last := s.tasks[|s.tasks| - 1];
          (last.Probing? || last.Posting?) ==> last.replica !in s.router.fenced)
  }

  lemma NoRouteToFencedGrows(start: Router, log: seq<Entry>, log': seq<Entry>)
    requires NoRouteToFenced(start, log) && log <= log'
    requires forall i :: |log| <= i < |log'| ==> !RoutedToFenced(start, log', i)
    ensures NoRouteToFenced(start, log')
  {
    forall i | 0 <= i < |log'|
      ensures !RoutedToFenced(start, log', i)
    {
      if i < |log| {
        assert log'[..i] == log[..i];
        assert !RoutedToFenced(start, log, i);
      }
    }
  }

  /** An action adds a route only as the single new entry, and only for a task that was posting. */
  lemma NewRoutes(s: Sys, a: Action, i: nat)
    requires |s.router.log| <= i < |Next(s, a).router.log|
    requires Next(s, a).router.log[i].event.RequestRouted?
    ensures a.Resume? && a.task < |s.tasks| && s.tasks[a.task].Posting?
    ensures i == |s.router.log| && s.tasks[a.task].replica == Next(s, a).router.log[i].event.replica
    ensures Next(s, a).router.log[..i] == s.router.log
  {
  }

  lemma NextKeepsOneInFlight(s: Sys, a: Action)
    requires OneInFlight(s)
    requires !a.Resume? ==> AllOver(s.tasks)
    ensures OneInFlight(Next(s, a))
  {
    if a.Resume? && a.task < |s.tasks| {
      if a.task < |s.tasks| - 1 {
        assert s.tasks[a.task].Over?;
      }
    }
  }

  /** A clean post reply is handled for a replica that was fenced in the meantime: `infer` does not look again. */
  ghost predicate AnsweredWhileFenced(s: Sys, a: Action) {
    && a.Resume? && a.task < |s.tasks| && s.tasks[a.task].Posting? && a.post.Clean()
    && s.tasks[a.task].replica in s.router.fenced
  }

  lemma NextAvoidsFencedIff(start: Router, s: Sys, a: Action)
    requires LogInvariant(start, s.router)
    ensures NoRouteToFenced(start, Next(s, a).router.log) <==>
              NoRouteToFenced(start, s.router.log) && !AnsweredWhileFenced(s, a)
  {
    NextGrows(s, a);
    var log, log' := s.router.log, Next(s, a).router.log;
    forall i | |log| <= i < |log'|
      ensures RoutedToFenced(start, log', i) <==> AnsweredWhileFenced(s, a) && log'[i].event.RequestRouted?
    {
      if log'[i].event.RequestRouted? {
        NewRoutes(s, a, i);
      }
    }
    if AnsweredWhileFenced(s, a) {
      assert RoutedToFenced(start, log', |log|);
    } else if NoRouteToFenced(start, log) {
      NoRouteToFencedGrows(start, log, log');
    }
    if NoRouteToFenced(start, log') {
      NoRouteToFencedShrinks(start, log, log');
    }
  }

  lemma NoRouteToFencedShrinks(start: Router, log: seq<Entry>, log': seq<Entry>)
    requires NoRouteToFenced(start, log') && log <= log'
    ensures NoRouteToFenced(start, log)
  {
    forall i | 0 <= i < |log|
      ensures !RoutedToFenced(start, log, i)
    {
      assert log'[..i] == log[..i];
      assert !RoutedToFenced(start, log', i);
    }
  }

  ghost predicate AnsweredAt(start: Router, actions: seq<Action>, k: nat)
    requires k < |actions|
  {
    AnsweredWhileFenced(Run(start, actions[..k]), actions[k])
  }

  ghost predicate NeverAnswered(start: Router, actions: seq<Action>) {
    forall k :: 0 <= k < |actions| ==> !AnsweredAt(start, actions, k)
  }

  lemma NeverAnsweredSnoc(start: Router, actions: seq<Action>)
    requires actions != []
    ensures var n := |actions| - 1;
            NeverAnswered(start, actions) <==> NeverAnswered(start, actions[..n]) && !AnsweredAt(start, actions, n)
  {
    var prior := actions[..|actions| - 1];
    forall k | 0 <= k < |prior|
      ensures AnsweredAt(start, prior, k) == AnsweredAt(start, actions, k)
    {
      assert prior[..k] == actions[..k];
    }
  }

  /**
   * In every interleaving, traffic avoids fenced replicas exactly when no clean post reply is ever
   * handled for a replica that is fenced at that moment.
   */
  lemma {:induction false} TrafficAvoidsFencedIff(start: Router, actions: seq<Action>)
    requires start.log == []
    ensures NoRouteToFenced(start, Run(start, actions).router.log) <==> NeverAnswered(start, actions)
  {
    if actions != [] {
      var n := |actions| - 1;
      TrafficAvoidsFencedIff(start, actions[..n]);
      RunKeepsLog(start, actions[..n]);
      NextAvoidsFencedIff(start, Run(start, actions[..n]), actions[n]);
      NeverAnsweredSnoc(start, actions);
    }
  }

  lemma NextAvoidsFenced(start: Router, s: Sys, a: Action)
    requires OneInFlight(s) && LogInvariant(start, s.router) && NoRouteToFenced(start, s.router.log)
    ensures NoRouteToFenced(start, Next(s, a).router.log)
  {
    NextAvoidsFencedIff(start, s, a);
  }

  lemma {:induction false} SerialInvariant(start: Router, actions: seq<Action>)
    requires start.log == [] && Serial(start, actions)
    ensures OneInFlight(Run(start, actions))
    ensures NoRouteToFenced(start, Run(start, actions).router.log)
  {
    if actions != [] {
      var n := |actions| - 1;
      var before, prior := Run(start, actions[..n]), actions[..n];
      forall k | 0 <= k < n
        ensures prior[..k] == actions[..k]
      {
      }
      SerialInvariant(start, prior);
      NextKeepsOneInFlight(before, actions[n]);
      RunKeepsLog(start, prior);
      NextAvoidsFenced(start, before, actions[n]);
    }
  }

  /** In every serial run, no request is routed to a replica between its fencing and its re-registration. */
  lemma SerialTrafficAvoidsFenced(start: Router, actions: seq<Action>)
    requires start.log == [] && Serial(start, actions)
    ensures NoRouteToFenced(start, Run(start, actions).router.log)
  {
    SerialInvariant(start, actions);
  }

  const OK_PROBE := Health(200, true, true)
  const CLEAN_POST := Answer(200, true, REVISION)
  const REPLICA_A := ReplicaId("replica-a")

  ghost function OneReplica(): Router {
    Start([REPLICA_A], map[REPLICA_A := "http://a"], map[REPLICA_A := 1])
  }

  /** One request reaches its post; a scan then fences the replica; the post reply arrives last. */
  ghost function RequestPosts(): seq<Action> {
    [Arrive(TENANT, "k"), Resume(0, NoAnswer, CLEAN_POST), Resume(0, NoAnswer, CLEAN_POST),
      Resume(0, OK_PROBE, CLEAN_POST)]
  }

  ghost function ScanFences(): seq<Action> {
    [StartScan, Resume(1, NoAnswer, CLEAN_POST), Resume(1, NoAnswer, CLEAN_POST), Resume(0, NoAnswer, CLEAN_POST)]
  }

  lemma RequestReachesPost()
    ensures Run(OneReplica(), RequestPosts())
        == Sys(OneReplica().Reserve("k").Advance([REPLICA_A], REPLICA_A), [Posting("k", REPLICA_A)])
  {
    var start, acts, r := OneReplica(), RequestPosts(), REPLICA_A;
    var reserved := start.Reserve("k");
    RunStep(start, acts, 0);
    assert Run(start, acts[..1]) == Sys(reserved, [Admitted("k")]);
    RunStep(start, acts, 1);
    assert Run(start, acts[..2]) == Sys(reserved, [Scanning("k", [r], 0)]);
    RunStep(start, acts, 2);
    assert Run(start, acts[..3]) == Sys(reserved, [Probing("k", [r], 0, r, 0)]);
    RunStep(start, acts, 3);
    assert acts[..4] == acts;
  }

  lemma {:induction false} RunAppend(start: Router, first: seq<Action>, a: Action)
    ensures Run(start, first + [a]) == Next(Run(start, first), a)
  {
    assert (first + [a])[..|first|] == first;
  }

  lemma ScanFencesUnderPost() returns (acts: seq<Action>, s: Router)
    ensures acts + [Resume(0, NoAnswer, CLEAN_POST)] == RequestPosts() + ScanFences()
    ensures Run(OneReplica(), acts) == Sys(s, [Posting("k", REPLICA_A), Checking([])])
    ensures REPLICA_A in s.fenced
  {
    var start, first, more, r := OneReplica(), RequestPosts(), ScanFences(), REPLICA_A;
    RequestReachesPost();
    var posting := start.Reserve("k").Advance([r], r);
    RunAppend(start, first, more[0]);
    RunAppend(start, first + [more[0]], more[1]);
    RunAppend(start, first + [more[0]] + [more[1]], more[2]);
    acts := first + [more[0]] + [more[1]] + [more[2]];
    s := posting.AfterProbe(r, NoAnswer);
  }

  /** The serial claim does not extend to overlapping tasks. */
  lemma OverlapRoutesToFenced()
    ensures OneReplica().Valid()
    ensures !NoRouteToFenced(OneReplica(), Run(OneReplica(), RequestPosts() + ScanFences()).router.log)
  {
    var start := OneReplica();
    var acts, s := ScanFencesUnderPost();
    var a := Resume(0, NoAnswer, CLEAN_POST);
    RunAppend(start, acts, a);
    RunKeepsLog(start, acts);
    var log := Run(start, acts + [a]).router.log;
    assert log == s.log + [Entry(|s.log| + 1, RequestRouted(REPLICA_A, "k", s.generation))];
    assert log[..|s.log|] == s.log;
    assert RoutedToFenced(start, log, |s.log|);
  }
}
