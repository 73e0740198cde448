/**
 * The failover router of apps/p10h_replica_lab.py: its state, the atomic segments that change it,
 * and the handlers run serially. Probe and post results are handed in from outside.
 */
module ReplicaRouter {
  import opened Sequences
  import opened Shared

  datatype Replica = Replica(id: ReplicaId, generation: int, active: bool)
  datatype Reason = HealthProbeFailed | ForwardFailed | TransportFailed
  datatype Failover = Failover(replica: ReplicaId, reason: Reason, generation: int)
  datatype ScaleEvent = ScaleEvent(replica: ReplicaId, generation: int)
  datatype Route = Route(requestId: string, key: string, replica: ReplicaId, replicaGeneration: int,
      routerGeneration: int)

  /** A 200 answer with a decodable body, another status, or an exception. */
  datatype Post = Accepted | Rejected | Failed

  datatype Outcome = Routed(replica: Replica) | KeyRequired | Replayed | TenantMismatch | NoReadyReplica | AllFailed

  /** How the network answers during one request, phase by phase. */
  datatype Net = Net(sweep: ReplicaId -> bool, floor: ReplicaId -> bool, pick: ReplicaId -> bool,
      post: ReplicaId -> Post)

  /** List comprehensions over `router_state["replicas"]`. */
  function Active(rs: seq<Replica>): seq<Replica> {
    if rs == [] then [] else (if rs[0].active then [rs[0]] else []) + Active(rs[1..])
  }

  function Live(rs: seq<Replica>, fenced: seq<ReplicaId>): seq<Replica> {
    if rs == [] then []
    else (if rs[0].active && rs[0].id !in fenced then [rs[0]] else []) + Live(rs[1..], fenced)
  }

  function Passing(rs: seq<Replica>, probe: ReplicaId -> bool): seq<Replica> {
    if rs == [] then [] else (if probe(rs[0].id) then [rs[0]] else []) + Passing(rs[1..], probe)
  }

  datatype Router = Router(
    tenant: string,
    generation: int,
    replicas: seq<Replica>,
    minReady: int,
    fenced: seq<ReplicaId>,
    seenKeys: seq<string>,
    routes: seq<Route>,
    scaleEvents: seq<ScaleEvent>,
    failovers: seq<Failover>,
    cursor: nat)
  {
    /** Lines 114-124. */
    function Fence(r: ReplicaId, reason: Reason): Router {
      if r in fenced then this
      else this.(
        fenced := fenced + [r],
        generation := generation + 1,
        failovers := failovers + [Failover(r, reason, generation + 1)])
    }

    predicate Idle(i: nat)
      requires i < |replicas|
    {
      !replicas[i].active && replicas[i].id !in fenced
    }

    /** Lines 135-143. */
    function Activate(i: nat): Router
      requires i < |replicas|
    {
      this.(
        replicas := replicas[i := replicas[i].(active := true)],
        generation := generation + 1,
        scaleEvents := scaleEvents + [ScaleEvent(replicas[i].id, generation + 1)])
    }

    /** Lines 132-146, from list position `i` on with `ready` replicas counted so far. */
    function ActivateFrom(i: nat, ready: int): Router
      requires i <= |replicas|
      decreases |replicas| - i
    {
      if i == |replicas| then this
      else if !Idle(i) then ActivateFrom(i + 1, ready)
      else
        var t := Activate(i);
        if ready + 1 >= minReady then t else t.ActivateFrom(i + 1, ready + 1)
    }

    /** Lines 130-146. */
    function EnsureFloor(ready: int): Router {
      if ready >= minReady then this else ActivateFrom(0, ready)
    }

    /** Lines 177-186. */
    function Record(key: string, requestId: string, r: Replica): Router {
      this.(
        cursor := cursor + 1,
        seenKeys := seenKeys + [key],
        routes := routes + [Route(requestId, key, r.id, r.generation, generation)])
    }

    /** Lines 151-155. */
    function Sweep(todo: seq<Replica>, probe: ReplicaId -> bool): Router
      decreases |todo|
    {
      if todo == [] then this
      else if todo[0].id in fenced || probe(todo[0].id) then Sweep(todo[1..], probe)
      else Fence(todo[0].id, HealthProbeFailed).Sweep(todo[1..], probe)
    }

    /** Lines 167-193. */
    function Forward(todo: seq<Replica>, key: string, requestId: string, post: ReplicaId -> Post): (Router, Outcome)
      decreases |todo|
    {
      if todo == [] then (this, AllFailed)
      else
        match post(todo[0].id)
        case Accepted => (Record(key, requestId, todo[0]), Routed(todo[0]))
        case Rejected => Fence(todo[0].id, ForwardFailed).Forward(todo[1..], key, requestId, post)
        case Failed => Fence(todo[0].id, TransportFailed).Forward(todo[1..], key, requestId, post)
    }

    /** The state in which candidates are picked: lines 151-156. */
    function Prepare(net: Net): Router {
      var s := Sweep(Active(replicas), net.sweep);
      s.EnsureFloor(|Passing(Live(s.replicas, s.fenced), net.floor)|)
    }

    /** Lines 157-165. */
    function Candidates(net: Net): seq<Replica> {
      Passing(Live(replicas, fenced), net.pick)
    }

    function RouteRequest(key: string, requestId: string, net: Net): (Router, Outcome) {
      var s := Prepare(net);
      var found := s.Candidates(net);
      if found == [] then (s, NoReadyReplica)
      else s.Forward(Rotate(found, s.cursor % |found|), key, requestId, net.post)
    }

    predicate Admits(caller: string, key: string) {
      caller == tenant && key != "" && key !in seenKeys
    }

    /** The router branch of `infer`: lines 80-97. */
    function Infer(caller: string, key: string, requestId: string, net: Net): (Router, Outcome) {
      if caller != tenant then (this, TenantMismatch)
      else if key == "" then (this, KeyRequired)
      else if key in seenKeys then (this, Replayed)
      else RouteRequest(key, requestId, net)
    }
  }

  function Ids(rs: seq<Replica>): seq<ReplicaId> {
    seq(|rs|, i requires 0 <= i < |rs| => rs[i].id)
  }

  // ---------------------------------------------------------------------------------------------
  // The activation loop
  // ---------------------------------------------------------------------------------------------

  /** Positions from `i` on that are inactive and unfenced, in list order. */
  ghost function IdleFrom(s: Router, i: nat): seq<nat>
    requires i <= |s.replicas|
    decreases |s.replicas| - i
  {
    if i == |s.replicas| then [] else (if s.Idle(i) then [i] else []) + IdleFrom(s, i + 1)
  }

  /** `t` is `s` with exactly the listed positions switched on, in that order. */
  ghost predicate SwitchedOn(s: Router, t: Router, at: seq<nat>) {
    && (forall j :: 0 <= j < |at| ==> at[j] < |s.replicas|)
    && t == s.(replicas := t.replicas, generation := s.generation + |at|, scaleEvents := t.scaleEvents)
    && |t.replicas| == |s.replicas|
    && (forall i :: 0 <= i < |s.replicas| ==>
         t.replicas[i] == s.replicas[i].(active := s.replicas[i].active || i in at))
    && |t.scaleEvents| == |s.scaleEvents| + |at| && s.scaleEvents <= t.scaleEvents
    && (forall j :: 0 <= j < |at| ==>
          t.scaleEvents[|s.scaleEvents| + j] == ScaleEvent(s.replicas[at[j]].id, s.generation + j + 1))
  }

  lemma {:induction false} IdleFromRange(s: Router, i: nat)
    requires i <= |s.replicas|
    ensures forall p :: p in IdleFrom(s, i) <==> i <= p < |s.replicas| && s.Idle(p)
    ensures forall j :: 0 <= j < |IdleFrom(s, i)| ==> i <= IdleFrom(s, i)[j] < |s.replicas|
    decreases |s.replicas| - i
  {
    if i < |s.replicas| {
      IdleFromRange(s, i + 1);
    }
  }

  lemma {:induction false} IdleFromAgrees(s: Router, t: Router, i: nat)
    requires i <= |s.replicas| == |t.replicas|
    requires forall p :: i <= p < |s.replicas| ==> s.Idle(p) == t.Idle(p)
    ensures IdleFrom(s, i) == IdleFrom(t, i)
    decreases |s.replicas| - i
  {
    if i < |s.replicas| {
      IdleFromAgrees(s, t, i + 1);
    }
  }

  function Min(a: int, b: int): int {
    if a <= b then a else b
  }

  lemma {:induction false} ActivateFromIsEarliest(s: Router, i: nat, ready: int)
    requires i <= |s.replicas| && ready < s.minReady
    ensures var idle := IdleFrom(s, i);
            var k := Min(s.minReady - ready, |idle|);
            SwitchedOn(s, s.ActivateFrom(i, ready), idle[..k])
    decreases |s.replicas| - i
  {
    var idle := IdleFrom(s, i);
    var k := Min(s.minReady - ready, |idle|);
    if i == |s.replicas| {
      SwitchedOnNone(s);
      assert idle[..k] == [];
    } else if !s.Idle(i) {
      ActivateFromIsEarliest(s, i + 1, ready);
      assert idle == IdleFrom(s, i + 1);
    } else {
      var t := s.Activate(i);
      var rest := IdleFrom(t, i + 1);
      IdleAfterFirst(s, i);
      ConsTake(i, rest, k);
      if ready + 1 < s.minReady {
        ActivateFromIsEarliest(t, i + 1, ready + 1);
        SwitchedOnChains(s, i, t.ActivateFrom(i + 1, ready + 1), rest[..k - 1]);
      } else {
        SwitchedOnNone(t);
        assert rest[..k - 1] == [];
        SwitchedOnChains(s, i, t, []);
      }
    }
  }

  /** An idle position is the first of the idle ones from there on, and switching it on leaves the others. */
  lemma IdleAfterFirst(s: Router, i: nat)
    requires i < |s.replicas| && s.Idle(i)
    ensures var rest := IdleFrom(s.Activate(i), i + 1);
            IdleFrom(s, i) == [i] + rest && forall j :: 0 <= j < |rest| ==> i < rest[j] < |s.replicas|
  {
    IdleFromAgrees(s, s.Activate(i), i + 1);
    IdleFromRange(s.Activate(i), i + 1);
  }

  lemma ConsTake(i: nat, rest: seq<nat>, k: nat)
    requires 1 <= k <= |rest| + 1
    ensures ([i] + rest)[..k] == [i] + rest[..k - 1]
  {
  }

  lemma SwitchedOnNone(s: Router)
    ensures SwitchedOn(s, s, [])
  {
  }

  lemma SwitchedOnChains(s: Router, i: nat, t: Router, at: seq<nat>)
    requires i < |s.replicas| && !s.replicas[i].active
    requires forall j :: 0 <= j < |at| ==> i < at[j] < |s.replicas|
    requires SwitchedOn(s.Activate(i), t, at)
    ensures SwitchedOn(s, t, [i] + at)
  {
    var u := s.Activate(i);
    forall p | 0 <= p < |s.replicas|
      ensures t.replicas[p] == s.replicas[p].(active := s.replicas[p].active || p in [i] + at)
    {
      assert t.replicas[p] == u.replicas[p].(active := u.replicas[p].active || p in at);
    }
    forall j | 0 <= j < |[i] + at|
      ensures t.scaleEvents[|s.scaleEvents| + j] == ScaleEvent(s.replicas[([i] + at)[j]].id, s.generation + j + 1)
    {
      if j == 0 {
        assert t.scaleEvents[|s.scaleEvents|] == u.scaleEvents[|s.scaleEvents|];
      } else {
        assert t.scaleEvents[|u.scaleEvents| + (j - 1)]
            == ScaleEvent(u.replicas[at[j - 1]].id, u.generation + (j - 1) + 1);
      }
    }
  }

  /**
   * The activation step switches on exactly min(max(0, floor - ready), idle) replicas, the earliest
   * in list order, and afterwards the floor is met or no inactive unfenced replica is left.
   */
  lemma FloorIsRestored(s: Router, ready: int)
    ensures var idle := IdleFrom(s, 0);
            var k := Min(if s.minReady > ready then s.minReady - ready else 0, |idle|);
            var t := s.EnsureFloor(ready);
            && SwitchedOn(s, t, idle[..k])
            && (ready + k >= s.minReady || IdleFrom(t, 0) == [])
  {
    var idle, t := IdleFrom(s, 0), s.EnsureFloor(ready);
    if ready >= s.minReady {
      SwitchedOnNone(s);
      assert idle[..0] == [];
    } else {
      ActivateFromIsEarliest(s, 0, ready);
      if ready + |idle| < s.minReady {
        assert idle[..|idle|] == idle;
        IdleFromRange(s, 0);
        NoneIdle(t, 0);
      }
    }
  }

  lemma {:induction false} NoneIdle(s: Router, i: nat)
    requires i <= |s.replicas| && forall p :: 0 <= p < |s.replicas| ==> !s.Idle(p)
    ensures IdleFrom(s, i) == []
    decreases |s.replicas| - i
  {
    if i < |s.replicas| {
      NoneIdle(s, i + 1);
    }
  }

  // ---------------------------------------------------------------------------------------------
  // The health sweep
  // ---------------------------------------------------------------------------------------------

  /** The failover records of fences made one after another by failed health probes. */
  function ProbeFailures(ids: seq<ReplicaId>, generation: int): seq<Failover> {
    seq(|ids|, i requires 0 <= i < |ids| => Failover(ids[i], HealthProbeFailed, generation + i + 1))
  }

  /**
   * The sweep fences exactly the listed replicas that fail their probe, each once, with one
   * generation and one failover record apiece, and changes nothing else.
   */
  lemma {:induction false} SweepFencesTheFailing(s: Router, todo: seq<Replica>, probe: ReplicaId -> bool)
      returns (failed: seq<ReplicaId>)
    ensures Distinct(failed) && forall r :: r in failed <==> r !in s.fenced && r in Ids(todo) && !probe(r)
    ensures s.Sweep(todo, probe) == s.(
              fenced := s.fenced + failed,
              generation := s.generation + |failed|,
              failovers := s.failovers + ProbeFailures(failed, s.generation))
    decreases |todo|
  {
    failed := [];
    if todo != [] {
      var r := todo[0].id;
      assert Ids(todo) == [r] + Ids(todo[1..]);
      if r in s.fenced || probe(r) {
        failed := SweepFencesTheFailing(s, todo[1..], probe);
      } else {
        var u := s.Fence(r, HealthProbeFailed);
        var more := SweepFencesTheFailing(u, todo[1..], probe);
        failed := [r] + more;
        assert ProbeFailures(failed, s.generation)
            == [Failover(r, HealthProbeFailed, u.generation)] + ProbeFailures(more, u.generation);
        assert u.fenced + more == s.fenced + failed;
      }
    }
  }

  // ---------------------------------------------------------------------------------------------
  // Forwarding
  // ---------------------------------------------------------------------------------------------

  /** Index of the first target whose post is accepted, or the number of targets. */
  ghost function FirstAccepted(todo: seq<Replica>, post: ReplicaId -> Post): (j: nat)
    ensures j <= |todo|
    ensures forall i :: 0 <= i < j ==> !post(todo[i].id).Accepted?
    ensures j < |todo| ==> post(todo[j].id).Accepted?
  {
    if todo == [] || post(todo[0].id).Accepted? then 0 else 1 + FirstAccepted(todo[1..], post)
  }

  ghost predicate Unfenced(todo: seq<Replica>, fenced: seq<ReplicaId>) {
    Distinct(Ids(todo)) && forall i :: 0 <= i < |todo| ==> todo[i].id !in fenced
  }

  /** The fences that failed posts in a row leave behind, each with its own reason and generation. */
  ghost predicate FencedInTurn(s: Router, t: Router, failed: seq<Replica>, post: ReplicaId -> Post) {
    && t.fenced == s.fenced + Ids(failed)
    && t.generation == s.generation + |failed|
    && |t.failovers| == |s.failovers| + |failed| && s.failovers <= t.failovers
    && (forall i :: 0 <= i < |failed| ==>
          t.failovers[|s.failovers| + i] == Failover(failed[i].id, Blame(post(failed[i].id)), s.generation + i + 1))
    && t.replicas == s.replicas && t.scaleEvents == s.scaleEvents
  }

  /** The reason recorded for a post that did not succeed. */
  function Blame(reply: Post): Reason {
    if reply.Rejected? then ForwardFailed else TransportFailed
  }

  lemma FencedInTurnChains(s: Router, r: Replica, post: ReplicaId -> Post, t: Router, more: seq<Replica>)
    requires r.id !in s.fenced && FencedInTurn(s.Fence(r.id, Blame(post(r.id))), t, more, post)
    ensures FencedInTurn(s, t, [r] + more, post)
  {
    var u := s.Fence(r.id, Blame(post(r.id)));
    assert Ids([r] + more) == [r.id] + Ids(more);
    assert u.failovers[|s.failovers|] == t.failovers[|s.failovers|];
    var all := [r] + more;
    forall i | 0 <= i < |all|
      ensures t.failovers[|s.failovers| + i] == Failover(all[i].id, Blame(post(all[i].id)), s.generation + i + 1)
    {
      if i > 0 {
        assert |s.failovers| + i == |u.failovers| + (i - 1);
      }
    }
  }

  /**
   * Serial forwarding: after `j` failures it has fenced exactly those `j` targets, in order and each
   * for its own reason; a success appends one route, stamped after the fences; exhaustion appends none.
   */
  lemma {:induction false} ForwardFencesFailures(s: Router, todo: seq<Replica>, key: string, requestId: string,
      post: ReplicaId -> Post)
    requires Unfenced(todo, s.fenced)
    ensures var (t, o) := s.Forward(todo, key, requestId, post);
            var j := FirstAccepted(todo, post);
            && FencedInTurn(s, t, todo[..j], post)
            && (j < |todo| ==>
                  && o == Routed(todo[j]) && todo[j].id !in t.fenced
                  && t.routes == s.routes + [Route(requestId, key, todo[j].id, todo[j].generation, s.generation + j)]
                  && t.seenKeys == s.seenKeys + [key] && t.cursor == s.cursor + 1)
            && (j == |todo| ==>
                    && o == AllFailed && t.routes == s.routes && t.seenKeys == s.seenKeys
                    && t.cursor == s.cursor)
    decreases |todo|
  {
    var j := FirstAccepted(todo, post);
    if todo == [] || post(todo[0].id).Accepted? {
      assert todo[..0] == [] && Ids(todo[..0]) == [];
    } else {
      var u := s.Fence(todo[0].id, Blame(post(todo[0].id)));
      UnfencedTail(todo, s.fenced);
      ForwardFencesFailures(u, todo[1..], key, requestId, post);
      assert todo[..j] == [todo[0]] + todo[1..][..j - 1];
      FencedInTurnChains(s, todo[0], post, u.Forward(todo[1..], key, requestId, post).0, todo[1..][..j - 1]);
    }
  }

  lemma UnfencedTail(todo: seq<Replica>, fenced: seq<ReplicaId>)
    requires Unfenced(todo, fenced) && todo != []
    ensures Unfenced(todo[1..], fenced + [todo[0].id])
  {
    assert forall i :: 0 <= i < |todo| ==> Ids(todo)[i] == todo[i].id;
    assert forall i :: 0 <= i < |todo| - 1 ==> Ids(todo[1..])[i] == Ids(todo)[i + 1];
  }

  lemma RotateUnfenced(found: seq<Replica>, k: nat, fenced: seq<ReplicaId>)
    requires Unfenced(found, fenced) && k <= |found|
    ensures Unfenced(Rotate(found, k), fenced)
  {
    assert Ids(Rotate(found, k)) == Rotate(Ids(found), k);
    RotateDistinct(Ids(found), k);
  }
}
