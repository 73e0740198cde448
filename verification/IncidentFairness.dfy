/** One serial choice as a turn of the round-robin queue, and how serial handlers sit inside the task machine. */
module IncidentFairness {
  import opened Sequences
  import opened Shared
  import opened IncidentRouter
  import opened IncidentRuns
  import opened IncidentWindows

  ghost function SafeSet(s: Router, probes: ReplicaId -> ProbeReply): set<ReplicaId> {
    set r | r in s.order && s.Safe(r, probes)
  }

  /** What the router would serve next, in order. */
  ghost function Queue(s: Router, probes: ReplicaId -> ProbeReply): seq<ReplicaId>
    requires s.rr <= |s.order|
  {
    Among(Rotate(s.order, s.rr), SafeSet(s, probes))
  }

  lemma QueueIsSafeSet(s: Router, probes: ReplicaId -> ProbeReply)
    requires s.Valid()
    ensures multiset(Queue(s, probes)) == multiset(SafeSet(s, probes)) && |Queue(s, probes)| == |SafeSet(s, probes)|
  {
    QueueIsGood(s, SafeSet(s, probes));
  }

  /** One served request: the head of the queue is served and goes to its back. */
  lemma ServeRotatesQueue(s: Router, probes: ReplicaId -> ProbeReply)
    requires s.Valid() && Queue(s, probes) != []
    ensures var (t, c) := s.Choose(probes);
            && t.Valid() && SameButFences(s, t) && s.log <= t.log
            && c == Chosen(Queue(s, probes)[0])
            && SafeSet(t, probes) == SafeSet(s, probes)
            && Queue(t, probes) == Queue(s, probes)[1..] + [Queue(s, probes)[0]]
  {
    var j := SomeoneIsSafe(s, probes);
    var visit := Rotate(s.order, s.rr);
    ChooseIsFirstSafe(s, probes);
    ChooseKeepsValid(s, probes);
    ChosenAdvances(s, probes);
    PassMovesToBack(s, j, SafeSet(s, probes));
    SameSafety(s, s.Choose(probes).0, visit[..j], probes);
  }

  lemma SomeoneIsSafe(s: Router, probes: ReplicaId -> ProbeReply) returns (j: nat)
    requires s.Valid() && Queue(s, probes) != []
    ensures s.order != [] && j == FirstSafe(s, Rotate(s.order, s.rr), probes) < |s.order|
    ensures NoneBefore(s, j, SafeSet(s, probes)) && Rotate(s.order, s.rr)[j] in SafeSet(s, probes)
  {
    var visit, good := Rotate(s.order, s.rr), SafeSet(s, probes);
    RotateKeepsElements(s.order, s.rr);
    j := FirstSafe(s, visit, probes);
    assert forall i :: 0 <= i < j ==> visit[i] !in good;
    if j == |visit| {
      AmongNone(visit, good);
    }
  }

  lemma SameSafety(s: Router, t: Router, skipped: seq<ReplicaId>, probes: ReplicaId -> ProbeReply)
    requires forall i :: 0 <= i < |skipped| ==> !s.Safe(skipped[i], probes)
    requires t.fenced == s.fenced + Elements(skipped) && t.order == s.order
    ensures SafeSet(t, probes) == SafeSet(s, probes)
  {
  }

  // ---------------------------------------------------------------------------------------------
  // A serial handler is one task run to its end
  // ---------------------------------------------------------------------------------------------

  ghost function AfterChoice(s: Router, choice: Choice, key: string, posts: ReplicaId -> PostReply): Router {
    if choice.Chosen? then s.AfterPost(choice.replica, key, posts(choice.replica)).0 else s
  }

  /** `acts` goes on from `sofar` by resuming task `t` only. */
  ghost predicate OnlyResumes(sofar: seq<Action>, acts: seq<Action>, t: nat) {
    sofar <= acts && forall i :: |sofar| <= i < |acts| ==> acts[i].Resume? && acts[i].task == t
  }

  lemma ResumeOnce(start: Router, sofar: seq<Action>, s: Sys, t: nat, probe: ProbeReply, post: PostReply)
      returns (acts: seq<Action>)
    requires Run(start, sofar) == s && t < |s.tasks|
    ensures OnlyResumes(sofar, acts, t) && |acts| == |sofar| + 1
    ensures var (router, task) := Continue(s.router, s.tasks[t], probe, post);
            Run(start, acts) == Sys(router, s.tasks[t := task])
  {
    acts := sofar + [Resume(t, probe, post)];
    RunAppend(start, sofar, Resume(t, probe, post));
  }

  /** A task at the head of the scan loop, run alone, does what `Walk` and the post do. */
  lemma {:induction false} ScanRunsToEnd(start: Router, sofar: seq<Action>, s: Sys, t: nat,
      probes: ReplicaId -> ProbeReply, posts: ReplicaId -> PostReply)
    returns (acts: seq<Action>)
    requires Run(start, sofar) == s && t < |s.tasks| && s.tasks[t].Scanning?
    requires s.router.rr < |s.tasks[t].ids| && s.tasks[t].offset <= |s.tasks[t].ids|
    ensures OnlyResumes(sofar, acts, t)
    ensures forall r :: r in Rotate(s.tasks[t].ids, s.router.rr) ==> r in s.tasks[t].ids
    ensures var Scanning(key, ids, offset) := s.tasks[t];
            var (u, choice) := s.router.Walk(ids, Rotate(ids, s.router.rr)[offset..], probes);
            Run(start, acts) == Sys(AfterChoice(u, choice, key, posts), s.tasks[t := Over])
    decreases |s.tasks[t].ids| - s.tasks[t].offset
  {
    var Scanning(key, ids, offset) := s.tasks[t];
    RotateKeepsElements(ids, s.router.rr);
    acts := ResumeOnce(start, sofar, s, t, NoAnswer, TransportError);
    if offset < |ids| {
      var visit := Rotate(ids, s.router.rr);
      RotationIndex(ids, s.router.rr, offset);
      SliceStep(visit, offset);
      var r := visit[offset];
      var later := Scanning(key, ids, offset + 1);
      if r in s.router.fenced {
        acts := ScanRunsToEnd(start, acts, Sys(s.router, s.tasks[t := later]), t, probes, posts);
      } else {
        acts := ProbeRunsToEnd(start, acts, Sys(s.router,
          s.tasks[t := Probing(key, ids, offset, r, NextPointer(ids, r))]), t, probes, posts);
      }
    }
  }

  lemma {:induction false} ProbeRunsToEnd(start: Router, sofar: seq<Action>, s: Sys, t: nat,
      probes: ReplicaId -> ProbeReply, posts: ReplicaId -> PostReply)
    returns (acts: seq<Action>)
    requires Run(start, sofar) == s && t < |s.tasks| && s.tasks[t].Probing?
    requires s.router.rr < |s.tasks[t].ids| && s.tasks[t].offset < |s.tasks[t].ids|
    requires var Probing(key, ids, offset, r, past) := s.tasks[t];
             r == Rotate(ids, s.router.rr)[offset] && r in ids && past == NextPointer(ids, r) && r !in s.router.fenced
    ensures OnlyResumes(sofar, acts, t)
    ensures forall r :: r in Rotate(s.tasks[t].ids, s.router.rr) ==> r in s.tasks[t].ids
    ensures var Probing(key, ids, offset, _, _) := s.tasks[t];
            var (u, choice) := s.router.Walk(ids, Rotate(ids, s.router.rr)[offset..], probes);
            Run(start, acts) == Sys(AfterChoice(u, choice, key, posts), s.tasks[t := Over])
    decreases |s.tasks[t].ids| - s.tasks[t].offset, 0
  {
    var Probing(key, ids, offset, r, past) := s.tasks[t];
    RotateKeepsElements(ids, s.router.rr);
    SliceStep(Rotate(ids, s.router.rr), offset);
    acts := ResumeOnce(start, sofar, s, t, probes(r), TransportError);
    if probes(r).Passes() {
      acts := ResumeOnce(start, acts, Sys(s.router.(rr := past), s.tasks[t := Posting(key, r)]), t, NoAnswer, posts(r));
    } else {
      var later := Scanning(key, ids, offset + 1);
      acts := ScanRunsToEnd(start, acts, Sys(s.router.AfterProbe(r, probes(r)), s.tasks[t := later]), t, probes, posts);
    }
  }

  lemma InferIsWalkThenPost(s: Router, key: string, probes: ReplicaId -> ProbeReply, posts: ReplicaId -> PostReply)
    requires s.Valid() && s.Admits(TENANT, key) && s.order != []
    ensures forall r :: r in Rotate(s.order, s.rr) ==> r in s.order
    ensures var (u, choice) := s.Reserve(key).Walk(s.order, Rotate(s.order, s.rr), probes);
            s.Infer(TENANT, key, probes, posts).0 == AfterChoice(u, choice, key, posts)
  {
    RotateKeepsElements(s.order, s.rr);
  }

  lemma AdmittedRunsToEnd(start: Router, sofar: seq<Action>, s: Sys, t: nat, probes: ReplicaId -> ProbeReply,
      posts: ReplicaId -> PostReply)
    returns (acts: seq<Action>)
    requires Run(start, sofar) == s && t < |s.tasks| && s.tasks[t].Admitted? && s.router.rr < |s.router.order|
    ensures OnlyResumes(sofar, acts, t)
    ensures forall r :: r in Rotate(s.router.order, s.router.rr) ==> r in s.router.order
    ensures var (u, choice) := s.router.Walk(s.router.order, Rotate(s.router.order, s.router.rr), probes);
            Run(start, acts) == Sys(AfterChoice(u, choice, s.tasks[t].key, posts), s.tasks[t := Over])
  {
    acts := ResumeOnce(start, sofar, s, t, NoAnswer, TransportError);
    var scanning := Sys(s.router, s.tasks[t := Scanning(s.tasks[t].key, s.router.order, 0)]);
    acts := ScanRunsToEnd(start, acts, scanning, t, probes, posts);
    assert Rotate(s.router.order, s.router.rr)[0..] == Rotate(s.router.order, s.router.rr);
  }

  /** The serial handler is a run of the task machine: the request arrives, then its task alone is resumed. */
  lemma SerialInferIsARun(start: Router, sofar: seq<Action>, key: string, probes: ReplicaId -> ProbeReply,
      posts: ReplicaId -> PostReply)
    returns (acts: seq<Action>)
    requires start.Valid() && Run(start, sofar).router.Admits(TENANT, key)
    ensures Run(start, sofar).router.Valid()
    ensures OnlyResumes(sofar + [Arrive(TENANT, key)], acts, |Run(start, sofar).tasks|)
    ensures var Sys(s, tasks) := Run(start, sofar);
            Run(start, acts) == Sys(s.Infer(TENANT, key, probes, posts).0, tasks + [Over])
  {
    RunKeepsValid(start, sofar);
    var Sys(s, tasks) := Run(start, sofar);
    var t := |tasks|;
    RunAppend(start, sofar, Arrive(TENANT, key));
    var arrived := Sys(s.Reserve(key), tasks + [Admitted(key)]);
    assert arrived.tasks[t := Over] == tasks + [Over];
    acts := sofar + [Arrive(TENANT, key)];
    if s.order == [] {
      acts := ResumeOnce(start, acts, arrived, t, NoAnswer, TransportError);
    } else {
      acts := AdmittedRunsToEnd(start, acts, arrived, t, probes, posts);
      InferIsWalkThenPost(s, key, probes, posts);
    }
  }

  /** A scan at the head of its loop, run alone, sweeps what is left. */
  lemma {:induction false} SweepRunsToEnd(start: Router, sofar: seq<Action>, s: Sys, t: nat,
      probes: ReplicaId -> ProbeReply)
    returns (acts: seq<Action>)
    requires Run(start, sofar) == s && t < |s.tasks| && s.tasks[t].Checking?
    ensures OnlyResumes(sofar, acts, t)
    ensures Run(start, acts) == Sys(s.router.Sweep(s.tasks[t].rest, probes), s.tasks[t := Over])
    decreases |s.tasks[t].rest|
  {
    var rest := s.tasks[t].rest;
    acts := ResumeOnce(start, sofar, s, t, NoAnswer, TransportError);
    if rest != [] {
      var u := s.router.AfterScan(rest[0], probes(rest[0]));
      var later := Sys(u, s.tasks[t := Checking(rest[1..])]);
      if rest[0] !in s.router.fenced {
        var asking := Sys(s.router, s.tasks[t := CheckProbing(rest[0], rest[1..])]);
        acts := ResumeOnce(start, acts, asking, t, probes(rest[0]), TransportError);
        assert asking.tasks[t := Checking(rest[1..])] == later.tasks;
      }
      acts := SweepRunsToEnd(start, acts, later, t, probes);
    }
  }

  /** The serial scan is a run of the task machine: the scan starts, then its task alone is resumed. */
  lemma SerialScanIsARun(start: Router, sofar: seq<Action>, probes: ReplicaId -> ProbeReply) returns (acts: seq<Action>)
    ensures OnlyResumes(sofar + [StartScan], acts, |Run(start, sofar).tasks|)
    ensures var Sys(s, tasks) := Run(start, sofar);
            Run(start, acts) == Sys(s.Sweep(s.order, probes), tasks + [Over])
  {
    var Sys(s, tasks) := Run(start, sofar);
    RunAppend(start, sofar, StartScan);
    var started := Sys(s, tasks + [Checking(s.order)]);
    acts := SweepRunsToEnd(start, sofar + [StartScan], started, |tasks|, probes);
    assert started.tasks[|tasks| := Over] == tasks + [Over];
  }
}
