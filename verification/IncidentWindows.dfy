/**
 * Round-robin fairness of the incident-response router over serial runs of the task machine: any
 * mixture of served, refused, replayed and keyless requests and scans, each run to its end before
 * the next one starts.
 */
module IncidentWindows {
  import opened Sequences
  import opened Shared
  import opened IncidentRouter
  import opened IncidentRuns

  /** The replicas of the `request_routed` entries, in log order. */
  function RoutedTo(log: seq<Entry>): seq<ReplicaId> {
    if log == [] then []
    else
      var n := |log| - 1;
      RoutedTo(log[..n]) + (if log[n].event.RequestRouted? then [log[n].event.replica] else [])
  }

  /** The members of `good` in a list, in its order. */
  function Among(ids: seq<ReplicaId>, good: set<ReplicaId>): seq<ReplicaId> {
    if ids == [] then [] else (if ids[0] in good then [ids[0]] else []) + Among(ids[1..], good)
  }

  /**
   * What "`good` passes probe and post and nothing else does" means for one action: a request's
   * probe passes exactly on `good`, a scan's probe passes on it, and its posts come back clean.
   */
  ghost predicate Steady(s: Sys, a: Action, good: set<ReplicaId>) {
    && !a.Registration?
    && (a.Resume? && a.task < |s.tasks| ==>
          match s.tasks[a.task]
          case Probing(_, _, _, r, _) => a.probe.Passes() <==> r in good
          case CheckProbing(r, _) => r in good ==> a.probe.Passes()
          case Posting(_, r) => r in good ==> a.post.Clean()
          case _ => true)
  }

  ghost predicate SteadyRun(start: Router, actions: seq<Action>, good: set<ReplicaId>) {
    forall k :: 0 <= k < |actions| ==> Steady(Run(start, actions[..k]), actions[k], good)
  }

  // ---------------------------------------------------------------------------------------------
  // The timeline
  // ---------------------------------------------------------------------------------------------

  /** The replica that the one task in flight has been given and not yet answered for. */
  ghost function Pending(tasks: seq<Task>): seq<ReplicaId> {
    if tasks != [] && tasks[|tasks| - 1].Posting? then [tasks[|tasks| - 1].replica] else []
  }

  /** Who was served, who is being served, and who is next in turn. */
  ghost function Timeline(s: Sys, good: set<ReplicaId>): seq<ReplicaId>
    requires s.router.rr <= |s.router.order|
  {
    RoutedTo(s.router.log) + Pending(s.tasks) + Among(Rotate(s.router.order, s.router.rr), good)
  }

  /** From position `from` on, the sequence repeats itself every `n` places. */
  ghost predicate Cyclic(c: seq<ReplicaId>, from: nat, n: nat) {
    forall i :: from <= i ==> Repeats(c, i, n)
  }

  ghost predicate Repeats(c: seq<ReplicaId>, i: nat, n: nat) {
    i + n < |c| ==> c[i] == c[i + n]
  }

  /** Nobody good among the first `offset` that the pointer sees. */
  ghost predicate NoneBefore(s: Router, offset: nat, good: set<ReplicaId>) {
    s.rr < |s.order| && offset <= |s.order| && forall i :: 0 <= i < offset ==> Rotate(s.order, s.rr)[i] !in good
  }

  /** Where the one task in flight stands in its walk. */
  ghost predicate Walking(s: Router, task: Task, good: set<ReplicaId>) {
    match task
    case Scanning(_, ids, offset) => ids == s.order && NoneBefore(s, offset, good)
    case Probing(_, ids, offset, r, past) =>
      && ids == s.order && NoneBefore(s, offset, good) && offset < |ids|
      && r == Rotate(ids, s.rr)[offset] && r in ids && past == NextPointer(ids, r)
    case Posting(_, r) => r in good
    case _ => true
  }

  ghost predicate InTurn(start: Router, s: Sys, good: set<ReplicaId>) {
    && s.router.Valid() && s.router.order == start.order && good !! s.router.fenced
    && (forall t :: 0 <= t < |s.tasks| - 1 ==> s.tasks[t].Over?)
    && (s.tasks != [] ==> Walking(s.router, s.tasks[|s.tasks| - 1], good))
    && RoutedTo(start.log) <= RoutedTo(s.router.log)
    && Cyclic(Timeline(s, good), |RoutedTo(start.log)|, |good|)
  }

  // ---------------------------------------------------------------------------------------------
  // Lists
  // ---------------------------------------------------------------------------------------------

  lemma {:induction false} AmongAppend(a: seq<ReplicaId>, b: seq<ReplicaId>, good: set<ReplicaId>)
    ensures Among(a + b, good) == Among(a, good) + Among(b, good)
    decreases |a|
  {
    if a == [] {
      assert a + b == b;
    } else {
      AmongAppend(a[1..], b, good);
      assert (a + b)[1..] == a[1..] + b;
    }
  }

  lemma {:induction false} AmongNone(a: seq<ReplicaId>, good: set<ReplicaId>)
    requires forall i :: 0 <= i < |a| ==> a[i] !in good
    ensures Among(a, good) == []
    decreases |a|
  {
    if a != [] {
      AmongNone(a[1..], good);
    }
  }

  /** Among distinct ids, every good one is found once. */
  lemma {:induction false} AmongOnce(ids: seq<ReplicaId>, good: set<ReplicaId>)
    requires Distinct(ids)
    ensures multiset(Among(ids, good)) == multiset(good * Elements(ids))
    decreases |ids|
  {
    if ids == [] {
      assert good * Elements(ids) == {};
    } else {
      var x, rest := ids[0], ids[1..];
      AmongOnce(rest, good);
      assert x !in rest;
      OneMoreGood(x, rest, good);
      assert ids == [x] + rest;
    }
  }

  lemma OneMoreGood(x: ReplicaId, rest: seq<ReplicaId>, good: set<ReplicaId>)
    requires x !in rest
    ensures multiset(good * Elements([x] + rest))
        == (if x in good then multiset{x} else multiset{}) + multiset(good * Elements(rest))
  {
    var more := good * Elements(rest);
    if x in good {
      assert good * Elements([x] + rest) == more + {x};
    } else {
      assert good * Elements([x] + rest) == more;
    }
  }

  /** All the good ones, in the order in which the pointer sees them. */
  lemma QueueIsGood(s: Router, good: set<ReplicaId>)
    requires s.Valid() && good <= Elements(s.order)
    ensures var q := Among(Rotate(s.order, s.rr), good);
            multiset(q) == multiset(good) && |q| == |good|
  {
    RotateDistinct(s.order, s.rr);
    RotateKeepsElements(s.order, s.rr);
    AmongOnce(Rotate(s.order, s.rr), good);
    assert good * Elements(Rotate(s.order, s.rr)) == good;
    assert |multiset(Among(Rotate(s.order, s.rr), good))| == |multiset(good)|;
  }

  lemma CyclicSnoc(c: seq<ReplicaId>, from: nat, n: nat, x: ReplicaId)
    requires Cyclic(c, from, n) && n <= |c|
    requires n > 0 ==> c[|c| - n] == x
    ensures Cyclic(c + [x], from, n)
  {
    forall i | from <= i
      ensures Repeats(c + [x], i, n)
    {
      assert Repeats(c, i, n);
    }
  }

  /** Sliding a window by one place over a cyclic sequence changes nothing in it. */
  lemma {:induction false} WindowsAgree(c: seq<ReplicaId>, from: nat, n: nat, w: nat)
    requires Cyclic(c, from, n) && from <= w <= w + n <= |c|
    ensures multiset(c[w..w + n]) == multiset(c[|c| - n..])
    decreases |c| - w
  {
    if w + n < |c| {
      WindowsAgree(c, from, n, w + 1);
      assert Repeats(c, w, n);
      if n > 0 {
        assert c[w..w + n] == [c[w]] + c[w + 1..w + n];
        assert c[w + 1..w + 1 + n] == c[w + 1..w + n] + [c[w + n]];
      }
    } else {
      assert c[w..w + n] == c[|c| - n..];
    }
  }

  lemma SliceOfPrefix(a: seq<ReplicaId>, c: seq<ReplicaId>, i: nat, j: nat)
    requires a <= c && i <= j <= |a|
    ensures c[i..j] == a[i..j]
  {
  }

  lemma WindowMatchesTurn(a: seq<ReplicaId>, b: seq<ReplicaId>, q: seq<ReplicaId>, from: nat, w: nat)
    requires a <= b && Cyclic(b + q, from, |q|) && from <= w <= w + |q| <= |a|
    ensures multiset(a[w..w + |q|]) == multiset(q)
  {
    WindowsAgree(b + q, from, |q|, w);
    SliceOfPrefix(a, b + q, w, w + |q|);
    SuffixOf(b, q);
  }

  lemma SuffixOf(a: seq<ReplicaId>, b: seq<ReplicaId>)
    ensures (a + b)[|a + b| - |b|..] == b
  {
  }

  // ---------------------------------------------------------------------------------------------
  // One action
  // ---------------------------------------------------------------------------------------------

  lemma RoutedToAppend(log: seq<Entry>, e: Entry)
    ensures RoutedTo(log + [e]) == RoutedTo(log) + (if e.event.RequestRouted? then [e.event.replica] else [])
  {
    assert (log + [e])[..|log|] == log;
  }

  lemma ProbeRoutesNobody(s: Router, r: ReplicaId, reply: ProbeReply)
    ensures RoutedTo(s.AfterProbe(r, reply).log) == RoutedTo(s.log)
  {
    if !reply.Passes() {
      var u := s.Fence(r);
      var cause := if reply.NoAnswer? then ReplicaUnreachable(r, u.generation)
          else IntegrityFailureDetected(r, u.generation);
      RoutedToAppend(s.log, Entry(|s.log| + 1, cause));
      RoutedToAppend(u.Emit(cause).log, Entry(|s.log| + 2, ReplicaFenced(r, u.generation)));
    }
  }

  /** The good one that passes its probe was first in turn and goes to the back. */
  lemma PassMovesToBack(s: Router, offset: nat, good: set<ReplicaId>)
    requires s.Valid() && NoneBefore(s, offset, good) && offset < |s.order| && Rotate(s.order, s.rr)[offset] in good
    ensures var r, q := Rotate(s.order, s.rr)[offset], Among(Rotate(s.order, s.rr), good);
            && r in s.order && q != [] && q[0] == r
            && Among(Rotate(s.order, NextPointer(s.order, r)), good) == q[1..] + [r]
  {
    var visit := Rotate(s.order, s.rr);
    var before, r, after := visit[..offset], visit[offset], visit[offset + 1..];
    PointerRotates(s.order, s.rr, offset);
    assert visit == before + ([r] + after) && Rotate(visit, offset + 1) == after + (before + [r]);
    AmongNone(before, good);
    AmongAppend(before, [r] + after, good);
    AmongAppend([r], after, good);
    AmongAppend(before, [r], good);
    AmongAppend(after, before + [r], good);
    assert [r][1..] == [] && Among([r], good) == [r];
  }

  /** A passing probe puts the served replica at the end of the timeline, where it was due. */
  lemma PassKeepsInTurn(start: Router, s: Sys, a: Action, good: set<ReplicaId>)
    requires InTurn(start, s, good) && good <= Elements(start.order) && Steady(s, a, good)
    requires a.Resume? && a.task == |s.tasks| - 1 && s.tasks[a.task].Probing? && a.probe.Passes()
    ensures InTurn(start, Next(s, a), good)
  {
    var task := s.tasks[a.task];
    var r, past := task.replica, task.past;
    var routed, q := RoutedTo(s.router.log), Among(Rotate(s.router.order, s.router.rr), good);
    PassQueue(s.router, task, good);
    PassMoves(s, a);
    PendingTimeline(s, good, []);
    PendingTimeline(Next(s, a), good, [r]);
    assert routed + [] + q == routed + q;
    ServedInTurn(routed, q, r, |RoutedTo(start.log)|);
  }

  /** What a passing probe does to the queue. */
  lemma PassQueue(s: Router, task: Task, good: set<ReplicaId>)
    requires s.Valid() && good <= Elements(s.order) && task.Probing? && Walking(s, task, good) && task.replica in good
    ensures var q := Among(Rotate(s.order, s.rr), good);
            && q != [] && q[0] == task.replica && |q| == |good|
            && task.past < |s.order| && Among(Rotate(s.order, task.past), good) == q[1..] + [task.replica]
  {
    PassMovesToBack(s, task.offset, good);
    QueueIsGood(s, good);
  }

  /** ... and to the system. */
  lemma PassMoves(s: Sys, a: Action)
    requires a.Resume? && a.task == |s.tasks| - 1 && s.tasks[a.task].Probing? && a.probe.Passes()
    ensures var Probing(key, _, _, r, past) := s.tasks[a.task];
            && Next(s, a) == Sys(s.router.(rr := past), s.tasks[a.task := Posting(key, r)])
            && Pending(s.tasks) == [] && Pending(Next(s, a).tasks) == [r]
  {
  }

  lemma PendingTimeline(s: Sys, good: set<ReplicaId>, pending: seq<ReplicaId>)
    requires s.router.rr <= |s.router.order| && Pending(s.tasks) == pending
    ensures Timeline(s, good) == RoutedTo(s.router.log) + pending + Among(Rotate(s.router.order, s.router.rr), good)
  {
  }

  lemma ServedInTurn(routed: seq<ReplicaId>, q: seq<ReplicaId>, r: ReplicaId, from: nat)
    requires Cyclic(routed + q, from, |q|) && q != [] && q[0] == r
    ensures Cyclic(routed + [r] + (q[1..] + [r]), from, |q|)
  {
    CyclicSnoc(routed + q, from, |q|, r);
    assert routed + [r] + (q[1..] + [r]) == routed + q + [r];
  }

  lemma PostKeepsInTurn(start: Router, s: Sys, a: Action, good: set<ReplicaId>)
    requires InTurn(start, s, good) && Steady(s, a, good)
    requires a.Resume? && a.task == |s.tasks| - 1 && s.tasks[a.task].Posting?
    ensures InTurn(start, Next(s, a), good)
  {
    var Posting(key, r) := s.tasks[a.task];
    RoutedToAppend(s.router.log, Entry(|s.router.log| + 1, RequestRouted(r, key, s.router.generation)));
    assert Timeline(Next(s, a), good) == Timeline(s, good);
  }

  lemma FailKeepsInTurn(start: Router, s: Sys, a: Action, good: set<ReplicaId>)
    requires InTurn(start, s, good) && Steady(s, a, good) && a.Resume? && a.task == |s.tasks| - 1
    requires s.tasks[a.task].CheckProbing? || (s.tasks[a.task].Probing? && !a.probe.Passes())
    ensures InTurn(start, Next(s, a), good)
  {
    ProbeRoutesNobody(s.router, s.tasks[a.task].replica, a.probe);
    assert Timeline(Next(s, a), good) == Timeline(s, good);
  }

  /** Whoever comes in, or is turned away, leaves the timeline alone. */
  lemma ArrivalKeepsInTurn(start: Router, s: Sys, a: Action, good: set<ReplicaId>)
    requires InTurn(start, s, good) && (a.Arrive? || a.StartScan?) && AllOver(s.tasks)
    ensures InTurn(start, Next(s, a), good)
  {
    ArrivalChangesLittle(s, a);
    assert Timeline(Next(s, a), good) == Timeline(s, good);
  }

  lemma ArrivalChangesLittle(s: Sys, a: Action)
    requires a.Arrive? || a.StartScan?
    ensures var s' := Next(s, a);
            && s'.router == s.router.(idempotency := s'.router.idempotency, log := s'.router.log)
            && RoutedTo(s'.router.log) == RoutedTo(s.router.log)
            && (s'.tasks == s.tasks || (|s'.tasks| == |s.tasks| + 1 && s'.tasks[..|s.tasks|] == s.tasks
                                        && (s'.tasks[|s.tasks|].Admitted? || s'.tasks[|s.tasks|].Checking?)))
  {
    if a.Arrive? {
      RoutedToAppend(s.router.log, Entry(|s.router.log| + 1, CrossTenantRequestDenied(a.tenant)));
      RoutedToAppend(s.router.log, Entry(|s.router.log| + 1, IdempotencyReplayDetected(a.key)));
    }
  }

  /** At the head of the walk the task looks at the next replica in turn, and passes over a fenced one. */
  lemma WalkOn(s: Router, task: Task, good: set<ReplicaId>, probe: ProbeReply, post: PostReply)
    requires s.Valid() && good !! s.fenced && Walking(s, task, good)
    requires task.Over? || task.Admitted? || task.Scanning? || task.Checking?
    ensures Continue(s, task, probe, post).0 == s && Walking(s, Continue(s, task, probe, post).1, good)
  {
    if task.Scanning? && task.offset < |task.ids| {
      RotationIndex(s.order, s.rr, task.offset);
      RotateKeepsElements(s.order, s.rr);
    }
  }

  lemma WalkKeepsInTurn(start: Router, s: Sys, a: Action, good: set<ReplicaId>)
    requires InTurn(start, s, good) && a.Resume? && a.task == |s.tasks| - 1
    requires var task := s.tasks[a.task]; task.Over? || task.Admitted? || task.Scanning? || task.Checking?
    ensures InTurn(start, Next(s, a), good)
  {
    WalkOn(s.router, s.tasks[a.task], good, a.probe, a.post);
    assert Timeline(Next(s, a), good) == Timeline(s, good);
  }

  lemma NextKeepsInTurn(start: Router, s: Sys, a: Action, good: set<ReplicaId>)
    requires InTurn(start, s, good) && good <= Elements(start.order) && Steady(s, a, good)
    requires !a.Resume? ==> AllOver(s.tasks)
    ensures InTurn(start, Next(s, a), good)
  {
    if !a.Resume? {
      ArrivalKeepsInTurn(start, s, a, good);
    } else if a.task < |s.tasks| - 1 {
      assert Continue(s.router, s.tasks[a.task], a.probe, a.post) == (s.router, Over);
      assert Next(s, a) == s;
    } else if a.task < |s.tasks| {
      match s.tasks[a.task]
      case Probing(_, _, _, _, _) =>
        if a.probe.Passes() {
          PassKeepsInTurn(start, s, a, good);
        } else {
          FailKeepsInTurn(start, s, a, good);
        }
      case CheckProbing(_, _) => FailKeepsInTurn(start, s, a, good);
      case Posting(_, _) => PostKeepsInTurn(start, s, a, good);
      case _ => WalkKeepsInTurn(start, s, a, good);
    }
  }

  lemma {:induction false} RunKeepsInTurn(start: Router, actions: seq<Action>, good: set<ReplicaId>)
    requires start.Valid() && good <= Elements(start.order) && good !! start.fenced
    requires Serial(start, actions) && SteadyRun(start, actions, good)
    ensures InTurn(start, Run(start, actions), good)
  {
    if actions == [] {
      QueueIsGood(start, good);
    } else {
      var n := |actions| - 1;
      var prior := actions[..n];
      assert forall k :: 0 <= k < n ==> prior[..k] == actions[..k];
      RunKeepsInTurn(start, prior, good);
      NextKeepsInTurn(start, Run(start, prior), actions[n], good);
    }
  }

  lemma InTurnIsFair(s: Sys, good: set<ReplicaId>, from: nat, w: nat)
    requires s.router.Valid() && good <= Elements(s.router.order) && Cyclic(Timeline(s, good), from, |good|)
    requires from <= w <= w + |good| <= |RoutedTo(s.router.log)|
    ensures multiset(RoutedTo(s.router.log)[w..w + |good|]) == multiset(good)
  {
    QueueIsGood(s.router, good);
    var routed, pending := RoutedTo(s.router.log), Pending(s.tasks);
    var q := Among(Rotate(s.router.order, s.router.rr), good);
    PendingTimeline(s, good, pending);
    WindowMatchesTurn(routed, routed + pending, q, from, w);
  }

  /**
   * Fairness: in every serial run without registrations in which exactly the replicas in `good`
   * pass, from every pointer and whatever comes in between, any |good| consecutive routed requests
   * reach each member of `good` exactly once.
   */
  lemma AnyWindowIsFair(start: Router, actions: seq<Action>, good: set<ReplicaId>, w: nat)
    requires start.Valid() && good <= Elements(start.order) && good !! start.fenced
    requires Serial(start, actions) && SteadyRun(start, actions, good)
    requires |RoutedTo(start.log)| <= w <= w + |good| <= |RoutedTo(Run(start, actions).router.log)|
    ensures multiset(RoutedTo(Run(start, actions).router.log)[w..w + |good|]) == multiset(good)
  {
    RunKeepsInTurn(start, actions, good);
    InTurnIsFair(Run(start, actions), good, |RoutedTo(start.log)|, w);
  }
}
