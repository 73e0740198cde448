/** Whole requests through the failover router: the imperative handlers, and what one and many of them do. */
module ReplicaServing {
  import opened Sequences
  import opened Shared
  import opened ReplicaRouter

  // ---------------------------------------------------------------------------------------------
  // The handlers
  // ---------------------------------------------------------------------------------------------

  class RouterState {
    const tenant: string
    const minReady: int
    var generation: int
    var replicas: seq<Replica>
    var fenced: seq<ReplicaId>
    var seenKeys: seq<string>
    var routes: seq<Route>
    var scaleEvents: seq<ScaleEvent>
    var failovers: seq<Failover>
    var cursor: nat

    ghost function View(): Router
      reads this
    {
      Router(tenant, generation, replicas, minReady, fenced, seenKeys, routes, scaleEvents, failovers, cursor)
    }

    constructor (tenant: string, generation: int, replicas: seq<Replica>, minReady: int)
      ensures View() == Router(tenant, generation, replicas, minReady, [], [], [], [], [], 0)
    {
      this.tenant, this.generation, this.replicas, this.minReady := tenant, generation, replicas, minReady;
      fenced, seenKeys, routes, scaleEvents, failovers, cursor := [], [], [], [], [], 0;
    }

    /** Lines 114-124. */
    method Fence(r: ReplicaId, reason: Reason)
      modifies this
      ensures View() == old(View()).Fence(r, reason)
    {
      if r !in fenced {
        fenced := fenced + [r];
        generation := generation + 1;
        failovers := failovers + [Failover(r, reason, generation)];
      }
    }

    /** Lines 132-146, entered with `counted` ready replicas. */
    method ActivateIdle(counted: int)
      modifies this
      ensures View() == old(View()).ActivateFrom(0, counted)
    {
      var ready, i := counted, 0;
      while i < |replicas|
        invariant 0 <= i <= |replicas|
        invariant old(View()).ActivateFrom(0, counted) == View().ActivateFrom(i, ready)
      {
        if !replicas[i].active && replicas[i].id !in fenced {
          replicas := replicas[i := replicas[i].(active := true)];
          generation := generation + 1;
          scaleEvents := scaleEvents + [ScaleEvent(replicas[i].id, generation)];
          ready := ready + 1;
          if ready >= minReady {
            return;
          }
        }
        i := i + 1;
      }
    }

    /** Lines 127-146. */
    method EnsureMinReady(probe: ReplicaId -> bool)
      modifies this
      ensures View() == old(View()).EnsureFloor(|Passing(Live(old(replicas), old(fenced)), probe)|)
    {
      var ready := |Passing(Live(replicas, fenced), probe)|;
      if ready < minReady {
        ActivateIdle(ready);
      }
    }

    /** Lines 151-155. */
    method SweepActive(probe: ReplicaId -> bool)
      modifies this
      ensures View() == old(View()).Sweep(Active(old(replicas)), probe)
    {
      var todo, n := Active(replicas), 0;
      while n < |todo|
        invariant 0 <= n <= |todo|
        invariant old(View()).Sweep(todo, probe) == View().Sweep(todo[n..], probe)
      {
        SliceStep(todo, n);
        if todo[n].id !in fenced && !probe(todo[n].id) {
          Fence(todo[n].id, HealthProbeFailed);
        }
        n := n + 1;
      }
    }

    /** Lines 167-193. */
    method ForwardInTurn(ordered: seq<Replica>, key: string, requestId: string, post: ReplicaId -> Post)
        returns (outcome: Outcome)
      modifies this
      ensures (View(), outcome) == old(View()).Forward(ordered, key, requestId, post)
    {
      var n := 0;
      while n < |ordered|
        invariant 0 <= n <= |ordered|
        invariant old(View()).Forward(ordered, key, requestId, post)
            == View().Forward(ordered[n..], key, requestId, post)
      {
        SliceStep(ordered, n);
        var r := ordered[n];
        match post(r.id) {
          case Accepted =>
            cursor := cursor + 1;
            seenKeys := seenKeys + [key];
            routes := routes + [Route(requestId, key, r.id, r.generation, generation)];
            return Routed(r);
          case Rejected => Fence(r.id, ForwardFailed);
          case Failed => Fence(r.id, TransportFailed);
        }
        n := n + 1;
      }
      return AllFailed;
    }

    /** Lines 149-193. */
    method RouteRequest(key: string, requestId: string, net: Net) returns (outcome: Outcome)
      modifies this
      ensures (View(), outcome) == old(View()).RouteRequest(key, requestId, net)
    {
      SweepActive(net.sweep);
      EnsureMinReady(net.floor);
      var candidates := Passing(Live(replicas, fenced), net.pick);
      if candidates == [] {
        return NoReadyReplica;
      }
      var start := cursor % |candidates|;
      outcome := ForwardInTurn(candidates[start..] + candidates[..start], key, requestId, net.post);
    }

    /** Lines 80-97. */
    method Infer(caller: string, key: string, requestId: string, net: Net) returns (outcome: Outcome)
      modifies this
      ensures (View(), outcome) == old(View()).Infer(caller, key, requestId, net)
    {
      if caller != tenant {
        return TenantMismatch;
      }
      if key == "" {
        return KeyRequired;
      }
      if key in seenKeys {
        return Replayed;
      }
      outcome := RouteRequest(key, requestId, net);
    }
  }

  // ---------------------------------------------------------------------------------------------
  // One request
  // ---------------------------------------------------------------------------------------------

  /** `part` is a selection of `rs`: identifiers stay distinct and keep coming from `rs`. */
  ghost predicate SelectedFrom(part: seq<Replica>, rs: seq<Replica>) {
    && (forall r :: r in part ==> r in rs)
    && (Distinct(Ids(rs)) ==> Distinct(Ids(part)))
  }

  lemma IdsMember(rs: seq<Replica>, r: Replica)
    requires r in rs
    ensures r.id in Ids(rs)
  {
    var i :| 0 <= i < |rs| && rs[i] == r;
    assert Ids(rs)[i] == r.id;
  }

  lemma SelectCons(keep: bool, r: Replica, part: seq<Replica>, rest: seq<Replica>)
    requires SelectedFrom(part, rest)
    ensures SelectedFrom((if keep then [r] else []) + part, [r] + rest)
  {
    var all := [r] + rest;
    assert Ids(all) == [r.id] + Ids(rest);
    if Distinct(Ids(all)) {
      DistinctTail(r.id, Ids(rest));
      if keep {
        forall x | x in part
          ensures x.id != r.id
        {
          IdsMember(rest, x);
        }
        assert Ids([r] + part) == [r.id] + Ids(part);
      } else {
        assert [] + part == part;
      }
    }
  }

  lemma DistinctTail<T>(x: T, rest: seq<T>)
    requires Distinct([x] + rest)
    ensures Distinct(rest) && x !in rest
  {
    var all := [x] + rest;
    forall i, j | 0 <= i < j < |rest|
      ensures rest[i] != rest[j]
    {
      assert all[i + 1] != all[j + 1];
    }
    forall i | 0 <= i < |rest|
      ensures rest[i] != x
    {
      assert all[0] != all[i + 1];
    }
  }

  lemma {:induction false} LiveSelects(rs: seq<Replica>, fenced: seq<ReplicaId>)
    ensures SelectedFrom(Live(rs, fenced), rs)
    ensures forall r :: r in Live(rs, fenced) <==> r in rs && r.active && r.id !in fenced
    decreases |rs|
  {
    if rs != [] {
      LiveSelects(rs[1..], fenced);
      SelectCons(rs[0].active && rs[0].id !in fenced, rs[0], Live(rs[1..], fenced), rs[1..]);
      assert [rs[0]] + rs[1..] == rs;
    }
  }

  lemma {:induction false} PassingSelects(rs: seq<Replica>, probe: ReplicaId -> bool)
    ensures SelectedFrom(Passing(rs, probe), rs)
    ensures forall r :: r in Passing(rs, probe) <==> r in rs && probe(r.id)
    decreases |rs|
  {
    if rs != [] {
      PassingSelects(rs[1..], probe);
      SelectCons(probe(rs[0].id), rs[0], Passing(rs[1..], probe), rs[1..]);
      assert [rs[0]] + rs[1..] == rs;
    }
  }

  lemma CandidatesAreLive(s: Router, net: Net)
    requires Distinct(Ids(s.replicas))
    ensures Unfenced(s.Candidates(net), s.fenced)
  {
    var live := Live(s.replicas, s.fenced);
    LiveSelects(s.replicas, s.fenced);
    PassingSelects(live, net.pick);
    var found := s.Candidates(net);
    forall i | 0 <= i < |found|
      ensures found[i].id !in s.fenced
    {
      assert found[i] in found;
    }
  }

  lemma PrepareKeepsIds(s: Router, net: Net)
    ensures Ids(s.Prepare(net).replicas) == Ids(s.replicas)
  {
    var _ := SweepFencesTheFailing(s, Active(s.replicas), net.sweep);
    var u := s.Sweep(Active(s.replicas), net.sweep);
    FloorIsRestored(u, |Passing(Live(u.replicas, u.fenced), net.floor)|);
  }

  lemma OrderIsPermutation(s: Router, net: Net) returns (order: seq<Replica>)
    requires Distinct(Ids(s.replicas)) && s.Candidates(net) != []
    ensures order == Rotate(s.Candidates(net), s.cursor % |s.Candidates(net)|)
    ensures multiset(order) == multiset(s.Candidates(net)) && Unfenced(order, s.fenced)
  {
    CandidatesAreLive(s, net);
    var found := s.Candidates(net);
    var k := s.cursor % |found|;
    RotateUnfenced(found, k, s.fenced);
    RotateKeepsElements(found, k);
    order := Rotate(found, k);
  }

  /**
   * One serial request: the forwarding order is a permutation of the candidates, all unfenced and
   * distinct, so none is posted to twice; the failed ones ahead of the first success are fenced in
   * order; exhaustion leaves every candidate fenced and no route.
   */
  lemma RequestTriesEachOnce(s: Router, key: string, requestId: string, net: Net)
    requires Distinct(Ids(s.replicas)) && s.Prepare(net).Candidates(net) != []
    ensures var p := s.Prepare(net);
            var found := p.Candidates(net);
            var order := Rotate(found, p.cursor % |found|);
            var j := FirstAccepted(order, net.post);
            var (t, o) := s.RouteRequest(key, requestId, net);
            && multiset(order) == multiset(found) && Unfenced(order, p.fenced)
            && FencedInTurn(p, t, order[..j], net.post)
            && (j < |order| ==>
                    && o == Routed(order[j])
                    && t.routes == p.routes
                                   + [Route(requestId, key, order[j].id, order[j].generation, p.generation + j)])
            && (j == |order| ==> o == AllFailed && t.routes == p.routes && t.fenced == p.fenced + Ids(order))
  {
    var p := s.Prepare(net);
    PrepareKeepsIds(s, net);
    var order := OrderIsPermutation(p, net);
    ForwardTriesEachOnce(p, order, key, requestId, net.post);
    assert s.RouteRequest(key, requestId, net) == p.Forward(order, key, requestId, net.post);
  }

  lemma ForwardTriesEachOnce(p: Router, order: seq<Replica>, key: string, requestId: string, post: ReplicaId -> Post)
    requires Unfenced(order, p.fenced)
    ensures var j := FirstAccepted(order, post);
            var (t, o) := p.Forward(order, key, requestId, post);
            && FencedInTurn(p, t, order[..j], post)
            && (j < |order| ==>
                  && o == Routed(order[j])
                  && t.routes == p.routes + [Route(requestId, key, order[j].id, order[j].generation, p.generation + j)])
            && (j == |order| ==> o == AllFailed && t.routes == p.routes && t.fenced == p.fenced + Ids(order))
  {
    ForwardFencesFailures(p, order, key, requestId, post);
    WholeOrder(p, p.Forward(order, key, requestId, post).0, order, post);
  }

  /** When every target failed, all of them are fenced. */
  lemma WholeOrder(p: Router, t: Router, order: seq<Replica>, post: ReplicaId -> Post)
    ensures var j := FirstAccepted(order, post);
            j == |order| && FencedInTurn(p, t, order[..j], post) ==> t.fenced == p.fenced + Ids(order)
  {
    assert order[..|order|] == order;
  }

  // ---------------------------------------------------------------------------------------------
  // Many requests over a stable list
  // ---------------------------------------------------------------------------------------------

  /** Every live replica answers its probes, the floor is met, and every candidate accepts. */
  ghost predicate Quiet(s: Router, net: Net) {
    && (forall r :: r in Live(s.replicas, s.fenced) ==> net.sweep(r.id) && net.floor(r.id))
    && |Live(s.replicas, s.fenced)| >= s.minReady
    && s.Candidates(net) != []
    && (forall r :: r in s.Candidates(net) ==> net.post(r.id).Accepted?)
  }

  lemma {:induction false} SweepIsQuiet(s: Router, rs: seq<Replica>, probe: ReplicaId -> bool)
    requires forall r :: r in Live(rs, s.fenced) ==> probe(r.id)
    ensures s.Sweep(Active(rs), probe) == s
    decreases |rs|
  {
    if rs != [] {
      var rest := Active(rs[1..]);
      assert forall r :: r in Live(rs[1..], s.fenced) ==> r in Live(rs, s.fenced);
      SweepIsQuiet(s, rs[1..], probe);
      if rs[0].active {
        assert ([rs[0]] + rest)[1..] == rest;
        if rs[0].id !in s.fenced {
          assert rs[0] in Live(rs, s.fenced);
        }
      } else {
        assert Active(rs) == rest;
      }
    }
  }

  lemma {:induction false} AllPassing(rs: seq<Replica>, probe: ReplicaId -> bool)
    requires forall r :: r in rs ==> probe(r.id)
    ensures Passing(rs, probe) == rs
    decreases |rs|
  {
    if rs != [] {
      AllPassing(rs[1..], probe);
    }
  }

  lemma QuietPrepare(s: Router, net: Net)
    requires Quiet(s, net)
    ensures s.Prepare(net) == s
  {
    SweepIsQuiet(s, s.replicas, net.sweep);
    AllPassing(Live(s.replicas, s.fenced), net.floor);
  }

  /** A quiet request changes nothing but the route it records for the candidate under the cursor. */
  lemma QuietRequest(s: Router, key: string, requestId: string, net: Net)
    requires Quiet(s, net)
    ensures var found := s.Candidates(net);
            var r := Rotate(found, s.cursor % |found|)[0];
            s.RouteRequest(key, requestId, net) == (s.Record(key, requestId, r), Routed(r))
  {
    QuietPrepare(s, net);
    var found := s.Candidates(net);
    RotateKeepsElements(found, s.cursor % |found|);
    var order := Rotate(found, s.cursor % |found|);
    assert order[0] in order;
  }

  lemma CursorStep(c: nat, k: nat)
    requires k > 0
    ensures (c + 1) % k == if c % k + 1 == k then 0 else c % k + 1
  {
    var q, r := c / k, c % k;
    assert c == k * q + r;
    if r + 1 == k {
      assert c + 1 == k * (q + 1) by {
        assert k * (q + 1) == k * q + k;
      }
      MultipleMod(k, q + 1, 0);
    } else {
      MultipleMod(k, q, r + 1);
    }
  }

  lemma {:induction false} MultipleMod(k: nat, q: nat, r: nat)
    requires 0 <= r < k
    ensures (k * q + r) % k == r
  {
    var a := k * q + r;
    var q', r' := a / k, a % k;
    assert a == k * q' + r';
    assert k * (q' + 1) == k * q' + k && k * (q + 1) == k * q + k;
    if q' < q {
      MulMonotone(k, q' + 1, q);
    } else if q' > q {
      MulMonotone(k, q + 1, q');
    }
  }

  lemma CursorRotates(found: seq<Replica>, c: nat)
    requires found != []
    ensures var order := Rotate(found, c % |found|);
            Rotate(found, (c + 1) % |found|) == order[1..] + [order[0]]
  {
    CursorStep(c, |found|);
  }

  /** The forwarding order under the current cursor. */
  ghost function Turn(s: Router, net: Net): (order: seq<Replica>)
    requires s.Candidates(net) != []
    ensures |order| == |s.Candidates(net)|
  {
    var found := s.Candidates(net);
    Rotate(found, s.cursor % |found|)
  }

  /** One request and the replies it meets; every request has replies of its own. */
  datatype Request = Request(key: string, requestId: string, net: Net)

  function ServeAll(s: Router, requests: seq<Request>): (Router, seq<Outcome>)
    decreases |requests|
  {
    if requests == [] then (s, [])
    else
      var (t, o) := s.Infer(s.tenant, requests[0].key, requests[0].requestId, requests[0].net);
      var (u, os) := ServeAll(t, requests[1..]);
      (u, [o] + os)
  }

  /** Each request is admitted, ends up with the candidates `found`, and its first target accepts. */
  ghost predicate FirstTry(s: Router, requests: seq<Request>, found: seq<Replica>)
    decreases |requests|
  {
    requests == [] ||
    var Request(key, requestId, net) := requests[0];
    && s.Admits(s.tenant, key)
    && s.Prepare(net).Candidates(net) == found != []
    && net.post(Rotate(found, s.cursor % |found|)[0].id).Accepted?
    && FirstTry(s.Infer(s.tenant, key, requestId, net).0, requests[1..], found)
  }

  /** Whatever a request fences or activates on the way, it does not touch the cursor or the tenant. */
  lemma PrepareKeepsCursor(s: Router, net: Net)
    ensures s.Prepare(net).cursor == s.cursor && s.Prepare(net).tenant == s.tenant
  {
    var _ := SweepFencesTheFailing(s, Active(s.replicas), net.sweep);
    var u := s.Sweep(Active(s.replicas), net.sweep);
    FloorIsRestored(u, |Passing(Live(u.replicas, u.fenced), net.floor)|);
  }

  lemma FirstTryStep(s: Router, requests: seq<Request>, found: seq<Replica>) returns (t: Router)
    requires FirstTry(s, requests, found) && requests != []
    ensures FirstTry(t, requests[1..], found) && found != []
    ensures Rotate(found, t.cursor % |found|)
        == Rotate(found, s.cursor % |found|)[1..] + [Rotate(found, s.cursor % |found|)[0]]
    ensures s.Infer(s.tenant, requests[0].key, requests[0].requestId, requests[0].net)
         == (t, Routed(Rotate(found, s.cursor % |found|)[0]))
  {
    var Request(key, requestId, net) := requests[0];
    PrepareKeepsCursor(s, net);
    t := s.Infer(s.tenant, key, requestId, net).0;
    CursorRotates(found, s.cursor);
  }

  /** The first requests of a row follow the candidates round from the cursor. */
  lemma {:induction false} RowFollowsCursor(s: Router, requests: seq<Request>, found: seq<Replica>)
    requires FirstTry(s, requests, found) && found != [] && |requests| <= |found|
    ensures var os := ServeAll(s, requests).1;
            |os| == |requests| && forall i :: 0 <= i < |os| ==> os[i] == Routed(Rotate(found, s.cursor % |found|)[i])
    decreases |requests|
  {
    if requests != [] {
      var t := FirstTryStep(s, requests, found);
      RowFollowsCursor(t, requests[1..], found);
    }
  }

  /**
   * `k` first-try successes over a stable list of `k` candidates reach each exactly once, whatever
   * the cursor, whatever each request fences or activates on its way, floor met or not.
   */
  lemma StableListIsServedEvenly(s: Router, requests: seq<Request>, found: seq<Replica>)
    requires |requests| == |found|
    ensures FirstTry(s, requests, found) ==>
              var os := ServeAll(s, requests).1;
              && |os| == |found|
              && (forall i :: 0 <= i < |os| ==> os[i].Routed?)
              && multiset(seq(|os|, i requires 0 <= i < |os| && os[i].Routed? => os[i].replica)) == multiset(found)
  {
    if found != [] && FirstTry(s, requests, found) {
      RowFollowsCursor(s, requests, found);
      var order := Rotate(found, s.cursor % |found|);
      RotateKeepsElements(found, s.cursor % |found|);
      var os := ServeAll(s, requests).1;
      assert seq(|os|, i requires 0 <= i < |os| && os[i].Routed? => os[i].replica) == order;
    }
  }

  /** The quiet case is one of these: a whole row of quiet requests with fresh keys is first-try. */
  lemma {:induction false} QuietRowIsFirstTry(s: Router, requests: seq<Request>, found: seq<Replica>)
    requires forall i :: 0 <= i < |requests| ==> Quiet(s, requests[i].net) && s.Candidates(requests[i].net) == found
    requires forall i :: 0 <= i < |requests| ==> s.Admits(s.tenant, requests[i].key)
    requires forall i, j :: 0 <= i < j < |requests| ==> requests[i].key != requests[j].key
    ensures FirstTry(s, requests, found)
    decreases |requests|
  {
    if requests != [] {
      var Request(key, requestId, net) := requests[0];
      QuietRequest(s, key, requestId, net);
      QuietPrepare(s, net);
      var order := Rotate(found, s.cursor % |found|);
      RotateKeepsElements(found, s.cursor % |found|);
      assert order[0] in order;
      var t := s.Record(key, requestId, order[0]);
      QuietRowIsFirstTry(t, requests[1..], found);
    }
  }
}
