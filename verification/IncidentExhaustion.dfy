/**
 * What "no safe replicas" means when requests overlap. Line 100 reads the pointer again on every
 * turn of the loop, so a request that another one overtakes can look at one replica twice and at
 * another never.
 */
module IncidentExhaustion {
  import opened Sequences
  import opened Shared
  import opened IncidentRouter
  import opened IncidentRuns

  /** The pointer that task `t` reads with this action at line 100, if it does. */
  ghost function PointerRead(s: Sys, a: Action, t: nat): seq<nat> {
    if a.Resume? && a.task == t && t < |s.tasks| && s.tasks[t].Scanning? && s.tasks[t].offset < |s.tasks[t].ids|
    then [s.router.rr] else []
  }

  /** The pointers that task `t` has read before action `k`. */
  ghost function PointersRead(trace: seq<Sys>, actions: seq<Action>, t: nat, k: nat): seq<nat>
    requires IsTrace(trace, actions) && k <= |actions|
  {
    if k == 0 then [] else PointersRead(trace, actions, t, k - 1) + PointerRead(trace[k - 1], actions[k - 1], t)
  }

  /** The place in the list that the `i`-th turn looks at. */
  function Place(pointers: seq<nat>, n: nat, i: nat): (p: nat)
    requires i < |pointers| && n > 0
    ensures p < n
  {
    (pointers[i] + i) % n
  }

  function Places(pointers: seq<nat>, n: nat): seq<nat>
    requires n > 0
  {
    seq(|pointers|, i requires 0 <= i < |pointers| => Place(pointers, n, i))
  }

  ghost predicate NoRegistrations(actions: seq<Action>) {
    forall k :: 0 <= k < |actions| ==> !actions[k].Registration?
  }

  /** The places looked at in the first `k` turns are fenced. */
  ghost predicate FencedSoFar(s: Router, pointers: seq<nat>, k: nat)
    requires k <= |pointers|
  {
    s.order == [] || forall i :: 0 <= i < k ==> s.order[Place(pointers, |s.order|, i)] in s.fenced
  }

  ghost predicate Followed(s: Sys, t: nat, pointers: seq<nat>) {
    if t >= |s.tasks| then pointers == []
    else
      match s.tasks[t]
      case Admitted(_) => pointers == []
      case Scanning(_, ids, offset) =>
        ids == s.router.order && |pointers| == offset <= |ids| && FencedSoFar(s.router, pointers, offset)
      case Probing(_, ids, offset, r, _) =>
        && ids == s.router.order && |pointers| == offset + 1 <= |ids|
        && r == ids[Place(pointers, |ids|, offset)] && FencedSoFar(s.router, pointers, offset)
      case _ => true
  }

  /** Without registrations no fence is lifted and the list does not change. */
  lemma NextKeepsFences(s: Sys, a: Action)
    requires !a.Registration?
    ensures s.router.fenced <= Next(s, a).router.fenced && Next(s, a).router.order == s.router.order
  {
  }

  lemma OthersKeepFollowed(s: Sys, a: Action, t: nat, pointers: seq<nat>)
    requires !a.Registration? && Followed(s, t, pointers) && !(a.Resume? && a.task == t)
    ensures Followed(Next(s, a), t, pointers) && PointerRead(s, a, t) == []
  {
    NextKeepsFences(s, a);
  }

  lemma ResumeKeepsFollowed(s: Sys, a: Action, t: nat, pointers: seq<nat>)
    requires Followed(s, t, pointers) && a.Resume? && a.task == t < |s.tasks|
    ensures Followed(Next(s, a), t, pointers + PointerRead(s, a, t))
  {
    NextKeepsFences(s, a);
    var read := PointerRead(s, a, t);
    if s.router.order != [] {
      assert forall i :: 0 <= i < |pointers| ==>
          Place(pointers + read, |s.router.order|, i) == Place(pointers, |s.router.order|, i);
    }
  }

  lemma {:induction false} TraceKeepsFollowed(trace: seq<Sys>, actions: seq<Action>, t: nat, k: nat)
    requires IsTrace(trace, actions) && trace[0].tasks == [] && NoRegistrations(actions) && k <= |actions|
    ensures Followed(trace[k], t, PointersRead(trace, actions, t, k))
    ensures trace[k].router.order == trace[0].router.order
  {
    if k > 0 {
      TraceKeepsFollowed(trace, actions, t, k - 1);
      NextKeepsFences(trace[k - 1], actions[k - 1]);
      NextKeepsFollowed(trace[k - 1], actions[k - 1], t, PointersRead(trace, actions, t, k - 1));
    }
  }

  lemma NextKeepsFollowed(s: Sys, a: Action, t: nat, pointers: seq<nat>)
    requires !a.Registration? && Followed(s, t, pointers)
    ensures Followed(Next(s, a), t, pointers + PointerRead(s, a, t))
  {
    if a.Resume? && a.task == t < |s.tasks| {
      ResumeKeepsFollowed(s, a, t, pointers);
    } else {
      assert pointers + [] == pointers;
      if !(a.Resume? && a.task == t) {
        OthersKeepFollowed(s, a, t, pointers);
      }
    }
  }

  // ---------------------------------------------------------------------------------------------
  // Covering the list
  // ---------------------------------------------------------------------------------------------

  function Range(n: nat): (r: set<nat>)
    ensures |r| == n && forall i: nat :: i in r <==> i < n
  {
    if n == 0 then {} else Range(n - 1) + {n - 1}
  }

  /** `n` places below `n` cover all of them exactly when no two are the same. */
  lemma CoverIffDistinct(places: seq<nat>)
    requires forall i :: 0 <= i < |places| ==> places[i] < |places|
    ensures Distinct(places) <==> Elements(places) == Range(|places|)
  {
    assert Elements(places) <= Range(|places|);
    if Distinct(places) {
      DistinctSize(places);
      SubsetSameSize(Elements(places), Range(|places|));
    } else {
      RepeatIsSmaller(places);
    }
  }

  lemma SubsetSameSize(a: set<nat>, b: set<nat>)
    requires a <= b && |a| == |b|
    ensures a == b
  {
    assert b == a + (b - a) && |b| == |a| + |b - a|;
  }

  lemma RepeatIsSmaller(s: seq<nat>)
    requires !Distinct(s)
    ensures |Elements(s)| < |s|
  {
    var i, j :| 0 <= i < j < |s| && s[i] == s[j];
    var rest := s[..j] + s[j + 1..];
    ElementsSize(rest);
    assert forall k :: 0 <= k < |s| && k != j ==> s[k] == rest[if k < j then k else k - 1];
    assert Elements(s) == Elements(rest) by {
      assert s[j] == rest[i];
    }
  }

  /** Task `t` has used up its turns: its next resumption raises "no safe replicas". */
  ghost predicate Exhausted(s: Sys, t: nat) {
    && t < |s.tasks| && s.tasks[t].Scanning? && s.tasks[t].ids != []
    && s.tasks[t].offset == |s.tasks[t].ids|
  }

  /** Between them, the turns of the request looked at every replica of the list. */
  ghost predicate LookedEverywhere(start: Router, actions: seq<Action>, t: nat)
    requires start.order != [] && IsTrace(Trace(start, actions), actions)
  {
    Elements(Places(PointersRead(Trace(start, actions), actions, t, |actions|), |start.order|)) == Range(|start.order|)
  }

  /**
   * In every interleaving without registrations, a request that finds no safe replica took one turn
   * per replica, and whatever it looked at is fenced.
   */
  lemma ExhaustedFencesWhatItSaw(start: Router, actions: seq<Action>, t: nat)
    requires NoRegistrations(actions) && Exhausted(Run(start, actions), t)
    ensures IsTrace(Trace(start, actions), actions)
    ensures var s, n := Run(start, actions).router, |start.order|;
            var pointers := PointersRead(Trace(start, actions), actions, t, |actions|);
            && s.order == start.order && n > 0 && |pointers| == n
            && (forall i :: 0 <= i < n ==> s.order[Place(pointers, n, i)] in s.fenced)
            && (LookedEverywhere(start, actions, t) <==> Distinct(Places(pointers, n)))
            && (LookedEverywhere(start, actions, t) ==> Elements(s.order) <= s.fenced)
  {
    RunsHaveTraces(start, actions);
    TraceKeepsFollowed(Trace(start, actions), actions, t, |actions|);
    var s, n := Run(start, actions).router, |start.order|;
    var pointers := PointersRead(Trace(start, actions), actions, t, |actions|);
    CoverIffDistinct(Places(pointers, n));
    if LookedEverywhere(start, actions, t) {
      forall p | 0 <= p < n
        ensures s.order[p] in s.fenced
      {
        assert p in Range(n) && p in Places(pointers, n);
      }
    }
  }

  // ---------------------------------------------------------------------------------------------
  // Being overtaken
  // ---------------------------------------------------------------------------------------------

  predicate Walks(task: Task) {
    task.Scanning? || task.Probing?
  }

  /** Another request passes its probe, and so moves the pointer, while task `t` is in its loop. */
  ghost predicate Overtakes(s: Sys, a: Action, t: nat) {
    && t < |s.tasks| && Walks(s.tasks[t])
    && a.Resume? && a.task != t && a.task < |s.tasks| && s.tasks[a.task].Probing? && a.probe.Passes()
  }

  ghost predicate NeverOvertaken(trace: seq<Sys>, actions: seq<Action>, t: nat)
    requires IsTrace(trace, actions)
  {
    forall k :: 0 <= k < |actions| ==> !Overtakes(trace[k], actions[k], t)
  }

  ghost predicate OvertakenOnce(trace: seq<Sys>, actions: seq<Action>, t: nat, at: nat)
    requires IsTrace(trace, actions)
  {
    at < |actions| && forall k :: 0 <= k < |actions| ==> (Overtakes(trace[k], actions[k], t) <==> k == at)
  }

  /** The first `m` pointers read are `p`, the later ones the live one. */
  ghost predicate TwoStretches(s: Sys, t: nat, pointers: seq<nat>, m: nat, p: nat) {
    if t >= |s.tasks| || s.tasks[t].Admitted? then pointers == [] && m == 0
    else Walks(s.tasks[t]) ==>
      && m <= |pointers|
      && (forall i :: 0 <= i < m ==> pointers[i] == p)
      && (forall i :: m <= i < |pointers| ==> pointers[i] == s.router.rr)
  }

  /** Only a passing probe moves the pointer: one's own ends the walk, another's overtakes. */
  lemma NextKeepsStretches(s: Sys, a: Action, t: nat, pointers: seq<nat>, m: nat, p: nat)
    requires TwoStretches(s, t, pointers, m, p) && !Overtakes(s, a, t)
    ensures TwoStretches(Next(s, a), t, pointers + PointerRead(s, a, t), m, p)
    ensures t < |s.tasks| && !s.tasks[t].Admitted? ==>
              && !Next(s, a).tasks[t].Admitted?
              && (Walks(Next(s, a).tasks[t]) ==> Walks(s.tasks[t]) && Next(s, a).router.rr == s.router.rr)
  {
  }

  lemma {:induction false} NotYetOvertaken(trace: seq<Sys>, actions: seq<Action>, t: nat, k: nat)
    requires IsTrace(trace, actions) && trace[0].tasks == [] && k <= |actions|
    requires forall l :: 0 <= l < k ==> !Overtakes(trace[l], actions[l], t)
    ensures TwoStretches(trace[k], t, PointersRead(trace, actions, t, k), 0, 0)
  {
    if k > 0 {
      NotYetOvertaken(trace, actions, t, k - 1);
      NextKeepsStretches(trace[k - 1], actions[k - 1], t, PointersRead(trace, actions, t, k - 1), 0, 0);
    }
  }

  /** Task `t` was overtaken after `m` looks, which moved the pointer from `p` to `q`. */
  ghost predicate WasOvertaken(s: Sys, t: nat, pointers: seq<nat>, m: nat, p: nat, q: nat) {
    && TwoStretches(s, t, pointers, m, p)
    && t < |s.tasks| && !s.tasks[t].Admitted? && (Walks(s.tasks[t]) ==> s.router.rr == q)
  }

  lemma NextKeepsOvertaken(s: Sys, a: Action, t: nat, pointers: seq<nat>, m: nat, p: nat, q: nat)
    requires WasOvertaken(s, t, pointers, m, p, q) && !Overtakes(s, a, t)
    ensures WasOvertaken(Next(s, a), t, pointers + PointerRead(s, a, t), m, p, q)
  {
    NextKeepsStretches(s, a, t, pointers, m, p);
  }

  lemma OvertakingSplits(s: Sys, a: Action, t: nat, pointers: seq<nat>)
    requires TwoStretches(s, t, pointers, 0, 0) && Overtakes(s, a, t)
    ensures PointerRead(s, a, t) == []
    ensures WasOvertaken(Next(s, a), t, pointers, |pointers|, s.router.rr, Next(s, a).router.rr)
  {
  }

  lemma {:induction false} OnceOvertaken(trace: seq<Sys>, actions: seq<Action>, t: nat, at: nat, k: nat)
    requires IsTrace(trace, actions) && trace[0].tasks == [] && OvertakenOnce(trace, actions, t, at)
        && at < k <= |actions|
    ensures WasOvertaken(trace[k], t, PointersRead(trace, actions, t, k),
                         |PointersRead(trace, actions, t, at)|, trace[at].router.rr, trace[at + 1].router.rr)
    decreases k
  {
    var pointers := PointersRead(trace, actions, t, k - 1);
    if at == k - 1 {
      NotYetOvertaken(trace, actions, t, at);
      OvertakingSplits(trace[at], actions[at], t, pointers);
      assert pointers + [] == pointers;
    } else {
      OnceOvertaken(trace, actions, t, at, k - 1);
      NextKeepsOvertaken(trace[k - 1], actions[k - 1], t, pointers,
                         |PointersRead(trace, actions, t, at)|, trace[at].router.rr, trace[at + 1].router.rr);
    }
  }

  /**
   * Round a ring of `n` places: turns under two pointers see different places only if the pointer
   * did not really move.
   */
  lemma StretchesCover(pointers: seq<nat>, m: nat, p: nat, q: nat)
    requires pointers != [] && m <= |pointers| && p < |pointers| && q < |pointers|
    requires forall i :: 0 <= i < |pointers| ==> pointers[i] == if i < m then p else q
    ensures Distinct(Places(pointers, |pointers|)) <==> m == 0 || m == |pointers| || p == q
  {
    var n := |pointers|;
    if m == 0 || m == n || p == q {
      forall i, j | 0 <= i < j < n
        ensures Place(pointers, n, i) != Place(pointers, n, j)
      {
        ModWrap(pointers[i] + i, n);
        ModWrap(pointers[j] + j, n);
      }
    } else {
      var d := if p < q then q - p else q + n - p;
      var j := if m >= n - d then m else n - d;
      var i := j + d - n;
      ModWrap(p + i, n);
      ModWrap(q + j, n);
      assert Places(pointers, n)[i] == Places(pointers, n)[j];
    }
  }

  /**
   * In every interleaving without registrations: a request that is never overtaken and finds no safe
   * replica has looked at every one, and leaves every replica fenced.
   */
  lemma NeverOvertakenSeesAll(start: Router, actions: seq<Action>, t: nat)
    requires start.Valid() && NoRegistrations(actions) && Exhausted(Run(start, actions), t)
    ensures start.order != [] && IsTrace(Trace(start, actions), actions)
    ensures NeverOvertaken(Trace(start, actions), actions, t) ==>
              LookedEverywhere(start, actions, t) && Elements(start.order) <= Run(start, actions).router.fenced
  {
    ExhaustedFencesWhatItSaw(start, actions, t);
    RunsHaveTraces(start, actions);
    RunKeepsValid(start, actions);
    var trace := Trace(start, actions);
    if NeverOvertaken(trace, actions, t) {
      NotYetOvertaken(trace, actions, t, |actions|);
      StretchesCover(PointersRead(trace, actions, t, |actions|), 0, 0, Run(start, actions).router.rr);
    }
  }

  /**
   * ... and one that is overtaken exactly once has looked at every replica if and only if that was
   * before its first look, after its last one, or left the pointer where it was.
   */
  lemma OvertakenOnceSeesAllIff(start: Router, actions: seq<Action>, t: nat, at: nat)
    requires start.Valid() && NoRegistrations(actions) && Exhausted(Run(start, actions), t)
    ensures start.order != [] && IsTrace(Trace(start, actions), actions)
    ensures var trace := Trace(start, actions);
            OvertakenOnce(trace, actions, t, at) ==>
              (LookedEverywhere(start, actions, t) <==>
                 var looks := |PointersRead(trace, actions, t, at)|;
                 looks == 0 || looks == |start.order| || trace[at].router.rr == trace[at + 1].router.rr)
  {
    ExhaustedFencesWhatItSaw(start, actions, t);
    RunsHaveTraces(start, actions);
    var trace := Trace(start, actions);
    if OvertakenOnce(trace, actions, t, at) {
      PointersInRange(start, actions, at);
      OnceOvertaken(trace, actions, t, at, |actions|);
      StretchesCover(PointersRead(trace, actions, t, |actions|), |PointersRead(trace, actions, t, at)|,
        trace[at].router.rr, trace[at + 1].router.rr);
    }
  }

  lemma PointersInRange(start: Router, actions: seq<Action>, at: nat)
    requires start.Valid() && start.order != [] && NoRegistrations(actions) && at < |actions|
    requires IsTrace(Trace(start, actions), actions)
    ensures var trace, n := Trace(start, actions), |start.order|;
            trace[at].router.rr < n && trace[at + 1].router.rr < n
  {
    RunsHaveTraces(start, actions);
    RunKeepsValid(start, actions[..at]);
    RunKeepsValid(start, actions[..at + 1]);
    TraceKeepsFollowed(Trace(start, actions), actions, 0, at);
    TraceKeepsFollowed(Trace(start, actions), actions, 0, at + 1);
  }

  // ---------------------------------------------------------------------------------------------
  // An overtaken request
  // ---------------------------------------------------------------------------------------------

  const A := ReplicaId("replica-a")
  const B := ReplicaId("replica-b")

  ghost function TwoReplicas(): Router {
    Start([A, B], map[A := "http://a", B := "http://b"], map[A := 1, B := 1])
  }

  ghost function Resumed(t: nat, probe: ProbeReply): Action {
    Resume(t, probe, CLEAN_POST)
  }

  lemma BothProbeTheFirst() returns (acts: seq<Action>)
    ensures NoRegistrations(acts)
    ensures Run(TwoReplicas(), acts) == Sys(TwoReplicas().Reserve("k").Reserve("l"),
        [Probing("k", [A, B], 0, A, 1), Probing("l", [A, B], 0, A, 1)])
  {
    var start := TwoReplicas();
    var u := start.Reserve("k").Reserve("l");
    acts := [Arrive(TENANT, "k")];
    RunAppend(start, [], Arrive(TENANT, "k"));
    assert [] + acts == acts;
    RunAppend(start, acts, Arrive(TENANT, "l"));
    acts := acts + [Arrive(TENANT, "l")];
    assert Run(start, acts) == Sys(u, [Admitted("k"), Admitted("l")]);
    acts := BothResume(start, acts, u, [Admitted("k"), Admitted("l")]);
    acts := BothResume(start, acts, u, [Scanning("k", [A, B], 0), Scanning("l", [A, B], 0)]);
  }

  /** Both tasks take a step that leaves the router alone. */
  lemma BothResume(start: Router, sofar: seq<Action>, u: Router, tasks: seq<Task>) returns (acts: seq<Action>)
    requires Run(start, sofar) == Sys(u, tasks) && |tasks| == 2 && NoRegistrations(sofar)
    requires forall t :: 0 <= t < 2 ==> Continue(u, tasks[t], NoAnswer, CLEAN_POST).0 == u
    ensures NoRegistrations(acts)
    ensures Run(start, acts) == Sys(u, [Continue(u, tasks[0], NoAnswer, CLEAN_POST).1,
        Continue(u, tasks[1], NoAnswer, CLEAN_POST).1])
  {
    RunAppend(start, sofar, Resumed(0, NoAnswer));
    RunAppend(start, sofar + [Resumed(0, NoAnswer)], Resumed(1, NoAnswer));
    acts := sofar + [Resumed(0, NoAnswer)] + [Resumed(1, NoAnswer)];
  }

  /**
   * Two requests probe the first replica; one passes and moves the pointer, the other fails and
   * lands on the same replica again: it ends with the second one unfenced and never looked at.
   */
  lemma OvertakenRequestMissesReplica() returns (acts: seq<Action>)
    ensures TwoReplicas().Valid() && NoRegistrations(acts)
    ensures Exhausted(Run(TwoReplicas(), acts), 1) && B !in Run(TwoReplicas(), acts).router.fenced
  {
    var start := TwoReplicas();
    var v;
    acts, v := OneOvertakes();
    RunAppend(start, acts, Resumed(1, NoAnswer));
    acts := acts + [Resumed(1, NoAnswer)];
    assert (v.rr + 1) % 2 == 0;
    assert Run(start, acts) == Sys(v, [Posting("k", A), Scanning("l", [A, B], 2)]);
  }

  lemma OneOvertakes() returns (acts: seq<Action>, v: Router)
    ensures TwoReplicas().Valid() && NoRegistrations(acts)
    ensures Run(TwoReplicas(), acts) == Sys(v, [Posting("k", A), Scanning("l", [A, B], 1)])
    ensures v.rr == 1 && v.fenced == {A} && B != A
  {
    var start := TwoReplicas();
    acts := OnePasses();
    var u := start.Reserve("k").Reserve("l").(rr := 1);
    RunAppend(start, acts, Resumed(1, NoAnswer));
    acts := acts + [Resumed(1, NoAnswer)];
    v := u.AfterProbe(A, NoAnswer);
    UnansweredProbe(u, [Posting("k", A), Probing("l", [A, B], 0, A, 1)], 1);
  }

  lemma UnansweredProbe(s: Router, tasks: seq<Task>, t: nat)
    requires t < |tasks| && tasks[t].Probing?
    ensures var Probing(key, ids, offset, r, _) := tasks[t];
            Next(Sys(s, tasks), Resumed(t, NoAnswer))
              == Sys(s.AfterProbe(r, NoAnswer), tasks[t := Scanning(key, ids, offset + 1)])
  {
  }

  lemma OnePasses() returns (acts: seq<Action>)
    ensures TwoReplicas().Valid() && NoRegistrations(acts)
    ensures Run(TwoReplicas(), acts) == Sys(TwoReplicas().Reserve("k").Reserve("l").(rr := 1),
        [Posting("k", A), Probing("l", [A, B], 0, A, 1)])
  {
    var start := TwoReplicas();
    acts := BothProbeTheFirst();
    RunAppend(start, acts, Resumed(0, OK_PROBE));
    acts := acts + [Resumed(0, OK_PROBE)];
  }
}
