/** When a request is routed to a fenced replica: the overlap that it takes, and that nothing else does. */
module IncidentOverlap {
  import opened Sequences
  import opened Shared
  import opened IncidentRouter
  import opened IncidentRuns

  predicate Tampered(reply: PostReply) {
    reply.Answer? && reply.status == 200 && (!reply.integrityOk || reply.revision != REVISION)
  }

  /** This action handles a reply that fences `r`: a failed probe, or a tampered post. */
  ghost predicate Fences(s: Sys, a: Action, r: ReplicaId) {
    && a.Resume? && a.task < |s.tasks|
    && match s.tasks[a.task]
       case Probing(_, _, _, x, _) => x == r && !a.probe.Passes()
       case CheckProbing(x, _) => x == r && !a.probe.Passes()
       case Posting(_, x) => x == r && Tampered(a.post)
       case _ => false
  }

  predicate Lifts(a: Action, r: ReplicaId) {
    a.Registration? && a.replica == r
  }

  lemma NextFences(s: Sys, a: Action, r: ReplicaId)
    ensures r in Next(s, a).router.fenced <==> Fences(s, a, r) || (r in s.router.fenced && !Lifts(a, r))
  {
  }

  /** Action `j` fences `r` and no registration lifts that before action `m`. */
  ghost predicate FenceStands(trace: seq<Sys>, actions: seq<Action>, r: ReplicaId, j: nat, m: nat)
    requires IsTrace(trace, actions) && m <= |actions|
  {
    j < m && Fences(trace[j], actions[j], r) && forall l :: j < l < m ==> !Lifts(actions[l], r)
  }

  /** A standing fence holds. */
  lemma {:induction false} StandingFenceHolds(trace: seq<Sys>, actions: seq<Action>, r: ReplicaId, j: nat, m: nat)
    requires IsTrace(trace, actions) && m <= |actions| && FenceStands(trace, actions, r, j, m)
    ensures r in trace[m].router.fenced
    decreases m
  {
    var n := m - 1;
    NextFences(trace[n], actions[n], r);
    if j < n {
      StandingFenceHolds(trace, actions, r, j, n);
    }
  }

  /** Whoever was unfenced once and is fenced now was fenced in between. */
  lemma {:induction false} FencedInBetween(trace: seq<Sys>, actions: seq<Action>, r: ReplicaId, i: nat, m: nat)
      returns (j: nat)
    requires IsTrace(trace, actions) && i <= m <= |actions| && r !in trace[i].router.fenced
        && r in trace[m].router.fenced
    ensures i <= j && FenceStands(trace, actions, r, j, m)
    decreases m
  {
    var n := m - 1;
    NextFences(trace[n], actions[n], r);
    if Fences(trace[n], actions[n], r) {
      j := n;
    } else {
      j := FencedInBetween(trace, actions, r, i, n);
    }
  }

  /** Task `t` looks at `r` at line 100 and finds it unfenced. */
  ghost predicate Looks(s: Sys, a: Action, t: nat, r: ReplicaId) {
    && a.Resume? && a.task == t < |s.tasks| && s.tasks[t].Scanning? && s.tasks[t].offset < |s.tasks[t].ids|
    && r == s.tasks[t].ids[(s.router.rr + s.tasks[t].offset) % |s.tasks[t].ids|] && r !in s.router.fenced
  }

  ghost predicate Uses(s: Sys, t: nat, r: ReplicaId) {
    t < |s.tasks| && (s.tasks[t].Probing? || s.tasks[t].Posting?) && s.tasks[t].replica == r
  }

  lemma NextUses(s: Sys, a: Action, t: nat, r: ReplicaId)
    requires Uses(Next(s, a), t, r)
    ensures Looks(s, a, t, r) || (Uses(s, t, r) && !(Fences(s, a, r) && a.task == t))
    ensures Looks(s, a, t, r) ==> !Fences(s, a, r)
  {
  }

  /** A task that uses a replica looked at it last when it was unfenced, and has used it ever since. */
  lemma {:induction false} LookedAt(trace: seq<Sys>, actions: seq<Action>, t: nat, r: ReplicaId, m: nat)
      returns (i: nat)
    requires IsTrace(trace, actions) && trace[0].tasks == [] && m <= |actions| && Uses(trace[m], t, r)
    ensures i < m && Looks(trace[i], actions[i], t, r)
    ensures forall l :: i <= l < m && Fences(trace[l], actions[l], r) ==> l != i && actions[l].task != t
    decreases m
  {
    var n := m - 1;
    NextUses(trace[n], actions[n], t, r);
    if Looks(trace[n], actions[n], t, r) {
      i := n;
    } else {
      i := LookedAt(trace, actions, t, r, n);
    }
  }

  ghost predicate AnswersClean(s: Sys, a: Action, t: nat, r: ReplicaId) {
    a.Resume? && a.task == t < |s.tasks| && s.tasks[t].Posting? && s.tasks[t].replica == r && a.post.Clean()
  }

  /**
   * Task `t` found `r` unfenced at action `i`, another task's reply fenced it at `j`, nothing
   * registered it again, and the clean reply that task `t` was waiting for came at `k`.
   */
  ghost predicate FencedUnderway(trace: seq<Sys>, actions: seq<Action>, t: nat, r: ReplicaId, i: nat, j: nat, k: nat)
    requires IsTrace(trace, actions)
  {
    && i < j < k < |actions|
    && Looks(trace[i], actions[i], t, r)
    && FenceStands(trace, actions, r, j, k) && actions[j].task != t
    && AnswersClean(trace[k], actions[k], t, r)
  }

  lemma UnderwayWhenAnswered(trace: seq<Sys>, actions: seq<Action>, k: nat)
      returns (t: nat, r: ReplicaId, i: nat, j: nat)
    requires IsTrace(trace, actions) && trace[0].tasks == [] && k < |actions|
        && AnsweredWhileFenced(trace[k], actions[k])
    ensures FencedUnderway(trace, actions, t, r, i, j, k)
  {
    t := actions[k].task;
    r := trace[k].tasks[t].replica;
    i := LookedAt(trace, actions, t, r, k);
    j := FencedInBetween(trace, actions, r, i, k);
  }

  /**
   * In every interleaving, a request is routed to a fenced replica if and only if another task's
   * reply fenced that replica between the request's own look at it and its clean answer, with no
   * registration since.
   */
  lemma RoutedToFencedIffOverlap(start: Router, actions: seq<Action>)
    requires start.log == []
    ensures IsTrace(Trace(start, actions), actions)
    ensures !NoRouteToFenced(start, Run(start, actions).router.log) <==>
              exists t: nat, r: ReplicaId, i: nat, j: nat, k: nat ::
                FencedUnderway(Trace(start, actions), actions, t, r, i, j, k)
  {
    TrafficAvoidsFencedIff(start, actions);
    RunsHaveTraces(start, actions);
    var trace := Trace(start, actions);
    assert forall k :: 0 <= k < |actions| ==>
        AnsweredAt(start, actions, k) == AnsweredWhileFenced(trace[k], actions[k]);
    if !NeverAnswered(start, actions) {
      var k :| 0 <= k < |actions| && AnsweredAt(start, actions, k);
      var t, r, i, j := UnderwayWhenAnswered(trace, actions, k);
    }
    if t: nat, r: ReplicaId, i: nat, j: nat, k: nat :| FencedUnderway(trace, actions, t, r, i, j, k) {
      StandingFenceHolds(trace, actions, r, j, k);
      assert AnsweredAt(start, actions, k);
    }
  }
}
