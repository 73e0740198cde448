/**
 * What one request to the failover router does, read off the replica list itself: who is probed and
 * fenced, who is a candidate, how many replicas are brought up, and what the caller is told.
 */
module ReplicaAnswers {
  import opened Sequences
  import opened Shared
  import opened ReplicaRouter
  import opened ReplicaServing
  import opened ReplicaRuns
  import opened ReplicaDriving

  // ---------------------------------------------------------------------------------------------
  // Selections
  // ---------------------------------------------------------------------------------------------

  /** Some listed replica with this id is active and fails its health probe. */
  ghost predicate FailsSweep(rs: seq<Replica>, probe: ReplicaId -> bool, id: ReplicaId) {
    exists i :: 0 <= i < |rs| && rs[i].active && rs[i].id == id && !probe(rs[i].id)
  }

  lemma {:induction false} ActiveListsAll(rs: seq<Replica>, probe: ReplicaId -> bool, id: ReplicaId)
    ensures id in Ids(Active(rs)) && !probe(id) <==> FailsSweep(rs, probe, id)
    decreases |rs|
  {
    if rs != [] {
      ActiveListsAll(rs[1..], probe, id);
      FailsSweepCons(rs, probe, id);
      var rest := Active(rs[1..]);
      if rs[0].active {
        assert Ids([rs[0]] + rest) == [rs[0].id] + Ids(rest);
      } else {
        assert [] + rest == rest;
      }
    }
  }

  lemma FailsSweepCons(rs: seq<Replica>, probe: ReplicaId -> bool, id: ReplicaId)
    requires rs != []
    ensures FailsSweep(rs, probe, id) <==>
              (rs[0].active && rs[0].id == id && !probe(id)) || FailsSweep(rs[1..], probe, id)
  {
    assert forall i :: 1 <= i < |rs| ==> rs[1..][i - 1] == rs[i];
    if FailsSweep(rs[1..], probe, id) {
      var i :| 0 <= i < |rs[1..]| && rs[1..][i].active && rs[1..][i].id == id && !probe(rs[1..][i].id);
      assert rs[i + 1] == rs[1..][i];
    }
  }

  /** `part` is what stands at these places of `rs`, in list order. */
  ghost predicate StandsAt(rs: seq<Replica>, part: seq<Replica>, places: seq<nat>) {
    && |part| == |places|
    && (forall k :: 0 <= k < |places| ==> places[k] < |rs| && part[k] == rs[places[k]])
    && (forall k, l :: 0 <= k < l < |places| ==> places[k] < places[l])
  }

  /** A replica that a request may forward to. */
  ghost predicate Eligible(s: Router, probe: ReplicaId -> bool, i: nat)
    requires i < |s.replicas|
  {
    s.replicas[i].active && s.replicas[i].id !in s.fenced && probe(s.replicas[i].id)
  }

  /** From `n` on, `part` is the eligible replicas, all of them, in list order. */
  ghost predicate ListsEligible(s: Router, probe: ReplicaId -> bool, n: nat, part: seq<Replica>, places: seq<nat>) {
    && StandsAt(s.replicas, part, places)
    && (forall k :: 0 <= k < |places| ==> n <= places[k] < |s.replicas|)
    && (forall i :: n <= i < |s.replicas| ==> (Eligible(s, probe, i) <==> i in places))
  }

  lemma ListsOneMore(s: Router, probe: ReplicaId -> bool, n: nat, part: seq<Replica>, places: seq<nat>)
    requires n < |s.replicas| && ListsEligible(s, probe, n + 1, part, places)
    ensures if Eligible(s, probe, n) then ListsEligible(s, probe, n, [s.replicas[n]] + part, [n] + places)
            else ListsEligible(s, probe, n, part, places)
  {
    assert forall i :: i in [n] + places <==> i == n || i in places;
  }

  lemma {:induction false} EligibleInOrder(s: Router, probe: ReplicaId -> bool, n: nat) returns (places: seq<nat>)
    requires n <= |s.replicas|
    ensures ListsEligible(s, probe, n, Remaining(s, n, probe), places)
    decreases |s.replicas| - n
  {
    if n == |s.replicas| {
      places := [];
      assert s.replicas[n..] == [];
    } else {
      var more := EligibleInOrder(s, probe, n + 1);
      ListsOneMore(s, probe, n, Remaining(s, n + 1, probe), more);
      RemainingCons(s, n, probe);
      places := if Eligible(s, probe, n) then [n] + more else more;
    }
  }

  lemma RemainingCons(s: Router, n: nat, probe: ReplicaId -> bool)
    requires n < |s.replicas|
    ensures Remaining(s, n, probe) == (if Eligible(s, probe, n) then [s.replicas[n]] else [])
        + Remaining(s, n + 1, probe)
    ensures !Eligible(s, probe, n) ==> Remaining(s, n, probe) == Remaining(s, n + 1, probe)
  {
    RemainingStep(s, n, [], probe);
    NothingBefore(Remaining(s, n, probe));
    NothingBefore(Remaining(s, n + 1, probe));
    NothingBefore([s.replicas[n]]);
  }

  lemma NothingBefore(rs: seq<Replica>)
    ensures [] + rs == rs
  {
  }

  // ---------------------------------------------------------------------------------------------
  // One request
  // ---------------------------------------------------------------------------------------------

  /** Before candidates are picked, exactly the active replicas that fail their health probe have been fenced. */
  lemma PrepareFencesTheFailing(s: Router, net: Net)
    ensures forall id :: id in s.Prepare(net).fenced <==> id in s.fenced || FailsSweep(s.replicas, net.sweep, id)
    ensures s.Prepare(net).routes == s.routes && s.Prepare(net).cursor == s.cursor
    ensures s.Prepare(net).seenKeys == s.seenKeys
  {
    var failed := SweepFencesTheFailing(s, Active(s.replicas), net.sweep);
    var u := s.Sweep(Active(s.replicas), net.sweep);
    FloorIsRestored(u, |Passing(Live(u.replicas, u.fenced), net.floor)|);
    forall id
      ensures id in s.Prepare(net).fenced <==> id in s.fenced || FailsSweep(s.replicas, net.sweep, id)
    {
      ActiveListsAll(s.replicas, net.sweep, id);
    }
  }

  /** The places of the replicas that count towards the floor. */
  ghost function ReadyPlaces(s: Router, probe: ReplicaId -> bool): set<nat> {
    set i | 0 <= i < |s.replicas| && Eligible(s, probe, i)
  }

  lemma ReadyIsCounted(s: Router, probe: ReplicaId -> bool)
    ensures |Passing(Live(s.replicas, s.fenced), probe)| == |ReadyPlaces(s, probe)|
  {
    var places := EligibleInOrder(s, probe, 0);
    assert s.replicas[0..] == s.replicas;
    assert Elements(places) == ReadyPlaces(s, probe);
    DistinctSize(places);
  }

  /** After the sweep, as many idle replicas are brought up as ready ones are missing, the earliest first. */
  lemma PrepareRestoresFloor(s: Router, net: Net)
    ensures var u := s.Sweep(Active(s.replicas), net.sweep);
            var ready, idle := |ReadyPlaces(u, net.floor)|, IdleFrom(u, 0);
            var missing := if s.minReady > ready then s.minReady - ready else 0;
            u.replicas == s.replicas && SwitchedOn(u, s.Prepare(net), idle[..Min(missing, |idle|)])
  {
    var failed := SweepFencesTheFailing(s, Active(s.replicas), net.sweep);
    var u := s.Sweep(Active(s.replicas), net.sweep);
    ReadyIsCounted(u, net.floor);
    FloorIsRestored(u, |Passing(Live(u.replicas, u.fenced), net.floor)|);
  }

  lemma {:induction false} ForwardFences(s: Router, todo: seq<Replica>, key: string, requestId: string,
      post: ReplicaId -> Post)
    ensures var (t, j) := (s.Forward(todo, key, requestId, post).0, FirstAccepted(todo, post));
            forall id :: id in t.fenced <==> id in s.fenced || NamedBefore(todo, j, id)
    decreases |todo|
  {
    if todo != [] && !post(todo[0].id).Accepted? {
      var u := s.Fence(todo[0].id, Blame(post(todo[0].id)));
      ForwardFences(u, todo[1..], key, requestId, post);
      var j := FirstAccepted(todo, post);
      forall id
        ensures NamedBefore(todo, j, id) <==> todo[0].id == id || NamedBefore(todo[1..], j - 1, id)
      {
        NamedBeforeCons(todo, j, id);
      }
    }
  }

  /** One of the first `j` targets has this id. */
  ghost predicate NamedBefore(todo: seq<Replica>, j: nat, id: ReplicaId)
    requires j <= |todo|
  {
    exists i :: 0 <= i < j && todo[i].id == id
  }

  lemma NamedBeforeCons(todo: seq<Replica>, j: nat, id: ReplicaId)
    requires 1 <= j <= |todo|
    ensures NamedBefore(todo, j, id) <==> todo[0].id == id || NamedBefore(todo[1..], j - 1, id)
  {
    assert forall i :: 1 <= i < j ==> todo[i] == todo[1..][i - 1];
    if NamedBefore(todo[1..], j - 1, id) {
      var i :| 0 <= i < j - 1 && todo[1..][i].id == id;
      assert todo[i + 1].id == id;
    }
  }

  /** The order in which a prepared router would forward. */
  ghost function ForwardOrder(p: Router, net: Net): seq<Replica> {
    var found := p.Candidates(net);
    if found == [] then [] else Rotate(found, p.cursor % |found|)
  }

  /**
   * One whole request, over any list: a replica id is fenced afterwards if and only if it was before,
   * or an active replica under it failed its health probe, or one failed its post before any accepted.
   */
  lemma RequestFencesExactly(s: Router, key: string, requestId: string, net: Net)
    ensures var (t, p) := (s.RouteRequest(key, requestId, net).0, s.Prepare(net));
            var order := ForwardOrder(p, net);
            forall id :: id in t.fenced <==>
              || id in s.fenced || FailsSweep(s.replicas, net.sweep, id)
              || NamedBefore(order, FirstAccepted(order, net.post), id)
  {
    PrepareFencesTheFailing(s, net);
    var p := s.Prepare(net);
    ForwardFences(p, ForwardOrder(p, net), key, requestId, net.post);
  }

  /** The candidates are exactly the eligible replicas of the prepared router, in list order. */
  lemma CandidatesAreEligible(s: Router, net: Net) returns (places: seq<nat>)
    ensures StandsAt(s.replicas, s.Candidates(net), places)
    ensures forall i :: 0 <= i < |s.replicas| ==> (Eligible(s, net.pick, i) <==> i in places)
  {
    places := EligibleInOrder(s, net.pick, 0);
    assert s.replicas[0..] == s.replicas;
  }

  /** Every answer the router gives: three refusals that change nothing, nobody eligible, or what the posts decide. */
  lemma InferAnswers(s: Router, caller: string, key: string, requestId: string, net: Net)
    ensures var ((t, o), p) := (s.Infer(caller, key, requestId, net), s.Prepare(net));
            var order := ForwardOrder(p, net);
            && (o == TenantMismatch <==> caller != s.tenant)
            && (o == KeyRequired <==> caller == s.tenant && key == "")
            && (o == Replayed <==> caller == s.tenant && key != "" && key in s.seenKeys)
            && (o == TenantMismatch || o == KeyRequired || o == Replayed ==> t == s)
            && (caller == s.tenant && key != "" && key !in s.seenKeys ==>
                  && (o == NoReadyReplica <==> forall i :: 0 <= i < |p.replicas| ==> !Eligible(p, net.pick, i))
                  && (o == NoReadyReplica ==> t == p)
                  && (o == AllFailed <==> order != [] && forall i :: 0 <= i < |order| ==>
                       !net.post(order[i].id).Accepted?)
                  && (o.Routed? <==> exists i :: 0 <= i < |order| && net.post(order[i].id).Accepted?)
                  && (o.Routed? ==> t.seenKeys == s.seenKeys + [key])
                  && (!o.Routed? ==> t.seenKeys == s.seenKeys && t.routes == s.routes))
  {
    var p := s.Prepare(net);
    var order := ForwardOrder(p, net);
    var places := CandidatesAreEligible(p, net);
    PrepareFencesTheFailing(s, net);
    assert p.Candidates(net) == [] <==> forall i :: 0 <= i < |p.replicas| ==> !Eligible(p, net.pick, i) by {
      if p.Candidates(net) != [] {
        assert places[0] in places;
      }
    }
    ForwardAnswers(p, order, key, requestId, net.post);
  }

  lemma {:induction false} ForwardAnswers(s: Router, todo: seq<Replica>, key: string, requestId: string,
      post: ReplicaId -> Post)
    ensures var ((t, o), j) := (s.Forward(todo, key, requestId, post), FirstAccepted(todo, post));
            && (if j < |todo| then o == Routed(todo[j]) && t.seenKeys == s.seenKeys + [key]
                else o == AllFailed && t.seenKeys == s.seenKeys && t.routes == s.routes)
    decreases |todo|
  {
    if todo != [] && !post(todo[0].id).Accepted? {
      ForwardAnswers(s.Fence(todo[0].id, Blame(post(todo[0].id))), todo[1..], key, requestId, post);
    }
  }

  /** In every interleaving, a request that is refused on arrival leaves everything as it is, as the handler does. */
  lemma RefusedArrivalChangesNothing(s: Sys, caller: string, key: string, requestId: string)
    ensures caller != s.router.tenant || key == "" || key in s.router.seenKeys <==>
        Next(s, Arrive(caller, key, requestId)) == s
  {
    if s.router.Admits(caller, key) {
      assert |Next(s, Arrive(caller, key, requestId)).tasks| == |s.tasks| + 1;
    }
  }

  // ---------------------------------------------------------------------------------------------
  // The sweep under overlap
  // ---------------------------------------------------------------------------------------------

  /** Action `l` hands task `t` the passing answer to its health probe of a replica under this id. */
  ghost predicate PassesProbe(s: Sys, a: Action, t: nat, id: ReplicaId) {
    && a.Resume? && a.task == t < |s.tasks| && a.probe
    && s.tasks[t].pc.SweepProbing? && s.tasks[t].pc.replica.id == id
  }

  /** The task is done with its sweep. */
  ghost predicate PastSweep(pc: Pc) {
    !pc.Sweeping? && !pc.SweepProbing?
  }

  /** What is still to be swept. */
  ghost function ToSweep(pc: Pc): seq<Replica> {
    match pc
    case Sweeping(todo) => todo
    case SweepProbing(r, todo) => [r] + todo
    case _ => []
  }

  /** The id is fenced by action `m`, or the task's own probe of it passed between `k` and `m`. */
  ghost predicate Checked(trace: seq<Sys>, actions: seq<Action>, t: nat, id: ReplicaId, k: nat, m: nat)
    requires IsTrace(trace, actions) && m <= |actions|
  {
    id in trace[m].router.fenced || exists l :: k <= l < m && PassesProbe(trace[l], actions[l], t, id)
  }

  /** A replica leaves the list of what is to be swept by being fenced or by passing. */
  lemma NextSweeps(s: Sys, a: Action, t: nat, r: Replica)
    requires t < |s.tasks| && r in ToSweep(s.tasks[t].pc)
    ensures r in ToSweep(Next(s, a).tasks[t].pc) || r.id in Next(s, a).router.fenced || PassesProbe(s, a, t, r.id)
  {
    if a.Resume? && a.task == t {
      var pc := s.tasks[t].pc;
      if pc.Sweeping? && r != pc.todo[0] {
        assert r in pc.todo[1..];
      }
    }
  }

  lemma FencesStay(s: Sys, a: Action)
    ensures forall id :: id in s.router.fenced ==> id in Next(s, a).router.fenced
  {
    if a.Resume? && a.task < |s.tasks| {
      ContinueAdvances(s.router, s.tasks[a.task], a.probe, a.post);
    }
  }

  lemma {:induction false} SweptSoFar(trace: seq<Sys>, actions: seq<Action>, t: nat, r: Replica, k: nat, m: nat)
    requires IsTrace(trace, actions) && k <= m <= |actions|
    requires t < |trace[k].tasks| && r in ToSweep(trace[k].tasks[t].pc)
    ensures t < |trace[m].tasks| && (r in ToSweep(trace[m].tasks[t].pc) || Checked(trace, actions, t, r.id, k, m))
    decreases m
  {
    if k < m {
      SweptSoFar(trace, actions, t, r, k, m - 1);
      FencesStay(trace[m - 1], actions[m - 1]);
      if r in ToSweep(trace[m - 1].tasks[t].pc) {
        NextSweeps(trace[m - 1], actions[m - 1], t, r);
      }
    }
  }

  lemma {:induction false} ActiveIsListed(rs: seq<Replica>, r: Replica)
    ensures r in Active(rs) <==> r in rs && r.active
    decreases |rs|
  {
    if rs != [] {
      ActiveIsListed(rs[1..], r);
      assert rs == [rs[0]] + rs[1..];
    }
  }

  /**
   * In every interleaving, when a request is past its sweep, every replica that was active when the
   * request arrived is fenced, or answered this request's own health probe well.
   */
  lemma ArrivalSweepsEveryActive(trace: seq<Sys>, actions: seq<Action>, k: nat, m: nat, i: nat)
    requires IsTrace(trace, actions) && k < m <= |actions| && actions[k].Arrive?
    requires trace[k].router.Admits(actions[k].caller, actions[k].key)
    requires i < |trace[k].router.replicas| && trace[k].router.replicas[i].active
    ensures var t := |trace[k].tasks|;
            && t < |trace[m].tasks| && trace[m].tasks[t].key == actions[k].key
            && (PastSweep(trace[m].tasks[t].pc) ==>
                 Checked(trace, actions, t, trace[k].router.replicas[i].id, k + 1, m))
  {
    var t, r := |trace[k].tasks|, trace[k].router.replicas[i];
    ActiveIsListed(trace[k].router.replicas, r);
    SweptSoFar(trace, actions, t, r, k + 1, m);
    KeyStays(trace, actions, t, k + 1, m);
  }

  lemma {:induction false} KeyStays(trace: seq<Sys>, actions: seq<Action>, t: nat, k: nat, m: nat)
    requires IsTrace(trace, actions) && k <= m <= |actions| && t < |trace[k].tasks|
    ensures t < |trace[m].tasks| && trace[m].tasks[t].key == trace[k].tasks[t].key
    decreases m
  {
    if k < m {
      KeyStays(trace, actions, t, k, m - 1);
    }
  }
}
