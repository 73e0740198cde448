/**
 * What a caller of the incident-response router gets to see: the answer to each request, the event it
 * leaves in the log, and the endpoint a replica is reached at.
 */
module IncidentAnswers {
  import opened Sequences
  import opened Shared
  import opened IncidentRouter
  import opened IncidentRuns

  /** `s` with these events appended, numbered on from its log. */
  function Logging(s: Router, events: seq<Event>): seq<Entry> {
    s.log + seq(|events|, i requires 0 <= i < |events| => Entry(|s.log| + i + 1, events[i]))
  }

  // ---------------------------------------------------------------------------------------------
  // Probes
  // ---------------------------------------------------------------------------------------------

  /** A health answer that lets a replica be chosen. */
  ghost predicate Healthy(reply: ProbeReply) {
    reply.Health? && reply.status == 200 && reply.healthy && reply.integrityOk
  }

  /** A healthy answer changes nothing; a bad one and a missing one are logged by different names. */
  lemma ProbeLogsItsCause(s: Router, r: ReplicaId, reply: ProbeReply)
    ensures var t, g := s.AfterProbe(r, reply), s.generation + 1;
            if Healthy(reply) then t == s
            else
              && t == s.(fenced := s.fenced + {r}, generation := g, log := t.log)
              && t.log == Logging(s, [if reply.NoAnswer? then ReplicaUnreachable(r, g)
                   else IntegrityFailureDetected(r, g),
                                      ReplicaFenced(r, g)])
  {
  }

  // ---------------------------------------------------------------------------------------------
  // Requests
  // ---------------------------------------------------------------------------------------------

  /**
   * The three refusals, each with its own answer and event: a foreign tenant first, then a missing
   * key, then a key that was used before. Nothing but the log changes.
   */
  lemma InferRefuses(s: Router, tenant: string, key: string, probes: ReplicaId -> ProbeReply,
      posts: ReplicaId -> PostReply)
    requires s.Valid()
    ensures var (t, o) := s.Infer(tenant, key, probes, posts);
            && (o == TenantDenied <==> tenant != "acme")
            && (o == MissingKey <==> tenant == "acme" && key == "")
            && (o == ReplayDenied <==> tenant == "acme" && key != "" && key in s.idempotency)
            && (tenant != "acme" ==> t == s.(log := Logging(s, [CrossTenantRequestDenied(tenant)])))
            && (o == MissingKey ==> t == s)
            && (o == ReplayDenied ==> t == s.(log := Logging(s, [IdempotencyReplayDetected(key)])))
  {
  }

  /** The replicas in the order in which a request visits them. */
  ghost function Visits(s: Router): seq<ReplicaId>
    requires s.Valid()
  {
    Rotate(s.order, s.rr)
  }

  /** The `j`-th visited replica is the first one that is unfenced and answers its probe well. */
  ghost predicate Picked(s: Router, probes: ReplicaId -> ProbeReply, j: nat)
    requires s.Valid()
  {
    && j < |Visits(s)| && Visits(s)[j] !in s.fenced && Healthy(probes(Visits(s)[j]))
    && forall i :: 0 <= i < j ==> Visits(s)[i] in s.fenced || !Healthy(probes(Visits(s)[i]))
  }

  ghost predicate NobodySafe(s: Router, probes: ReplicaId -> ProbeReply) {
    forall r :: r in s.order ==> r in s.fenced || !Healthy(probes(r))
  }

  lemma PickedIsFirstSafe(s: Router, probes: ReplicaId -> ProbeReply, j: nat)
    requires s.Valid() && Picked(s, probes, j)
    ensures s.Choose(probes).1 == Chosen(Visits(s)[j])
  {
    var visit := Visits(s);
    var k := FirstSafe(s, visit, probes);
    assert s.Safe(visit[j], probes);
    assert k == j;
    ChooseIsFirstSafe(s, probes);
  }

  lemma NobodySafeIsExhausted(s: Router, probes: ReplicaId -> ProbeReply)
    requires s.Valid() && NobodySafe(s, probes)
    ensures s.Choose(probes).1 == if s.order == [] then NoReplicas else NoSafeReplicas
  {
    if s.order != [] {
      RotateKeepsElements(s.order, s.rr);
      var k := FirstSafe(s, Visits(s), probes);
      ChooseIsFirstSafe(s, probes);
    }
  }

  /** Somebody is picked unless nobody is safe. */
  lemma PickOrNobody(s: Router, probes: ReplicaId -> ProbeReply) returns (j: nat)
    requires s.Valid()
    ensures NobodySafe(s, probes) || Picked(s, probes, j)
  {
    RotateKeepsElements(s.order, s.rr);
    j := FirstSafe(s, Visits(s), probes);
    if j == |Visits(s)| {
      forall r | r in s.order
        ensures r in s.fenced || !Healthy(probes(r))
      {
        assert r in Visits(s);
        var i :| 0 <= i < |Visits(s)| && Visits(s)[i] == r;
      }
    }
  }

  /** No replica is safe: the key stays reserved, no route is logged and the answer is "unavailable". */
  lemma InferUnavailable(s: Router, key: string, probes: ReplicaId -> ProbeReply, posts: ReplicaId -> PostReply)
    requires s.Valid() && key != "" && key !in s.idempotency
    ensures var (t, o) := s.Infer("acme", key, probes, posts);
            && (o == Unavailable <==> NobodySafe(s, probes))
            && (o == Unavailable ==> t == s.Reserve(key).Choose(probes).0 && t.idempotency == s.idempotency + {key})
  {
    var u := s.Reserve(key);
    var j := PickOrNobody(u, probes);
    if NobodySafe(u, probes) {
      NobodySafeIsExhausted(u, probes);
      if s.order != [] {
        ChooseIsFirstSafe(u, probes);
      }
    } else {
      PickedIsFirstSafe(u, probes, j);
      RotateKeepsElements(s.order, s.rr);
      assert Visits(u)[j] in s.order;
    }
  }

  /**
   * Otherwise the post reply of the replica that was picked decides: an exception, another status, a
   * tampered reply, which fences the replica, or a clean one, which is the only one that is logged as
   * a route and served.
   */
  lemma InferAnswersAsThePost(s: Router, key: string, probes: ReplicaId -> ProbeReply, posts: ReplicaId -> PostReply,
      j: nat)
    requires s.Valid() && key != "" && key !in s.idempotency && Picked(s, probes, j)
    ensures var (t, o) := s.Infer("acme", key, probes, posts);
            var r := Visits(s)[j];
            var chosen := s.Reserve(key).Choose(probes).0;
            var reply := posts(r);
            && (o == Crashed <==> reply.TransportError?)
            && (o == ReplicaError <==> reply.Answer? && reply.status != 200)
            && (o == IntegrityFailure <==>
                  reply.Answer? && reply.status == 200 && !(reply.integrityOk && reply.revision == "rev-2026-08-p9h"))
            && (o.Served? <==>
                  reply.Answer? && reply.status == 200 && reply.integrityOk && reply.revision == "rev-2026-08-p9h")
            && (o == Crashed || o == ReplicaError ==> t == chosen)
            && (o == IntegrityFailure ==>
                  t == chosen.(
                    fenced := chosen.fenced + {r},
                    generation := chosen.generation + 1,
                    log := Logging(chosen, [PostRouteIntegrityFailure(r, chosen.generation + 1)])))
            && (o.Served? ==>
                  && o == Served(r, chosen.generation) && t.generation == chosen.generation
                  && t == chosen.(log := Logging(chosen, [RequestRouted(r, key, chosen.generation)])))
  {
    PickedIsFirstSafe(s.Reserve(key), probes, j);
  }

  /** In every interleaving, a refused request is answered at once and does what the handler does. */
  lemma RefusedArrivalIsTheHandler(s: Sys, tenant: string, key: string, probes: ReplicaId -> ProbeReply,
      posts: ReplicaId -> PostReply)
    requires s.router.Valid() && (tenant != "acme" || key == "" || key in s.router.idempotency)
    ensures Next(s, Arrive(tenant, key)) == Sys(s.router.Infer(tenant, key, probes, posts).0, s.tasks)
  {
  }

  // ---------------------------------------------------------------------------------------------
  // Registrations
  // ---------------------------------------------------------------------------------------------

  /** The endpoint that the last registration of `r` gave, if there was one. */
  ghost function LastEndpoint(start: Router, actions: seq<Action>, r: ReplicaId): Option<string> {
    if actions == [] then if r in start.endpoints then Some(start.endpoints[r]) else None
    else
      var a := actions[|actions| - 1];
      if a.Registration? && a.replica == r then Some(a.endpoint) else LastEndpoint(start, actions[..|actions| - 1], r)
  }

  /** Only a registration touches an endpoint. */
  lemma NextEndpoint(s: Sys, a: Action, r: ReplicaId)
    ensures var e, e' := s.router.endpoints, Next(s, a).router.endpoints;
            if a.Registration? && a.replica == r then r in e' && e'[r] == a.endpoint
            else (r in e' <==> r in e) && (r in e ==> e'[r] == e[r])
  {
  }

  /** In every interleaving, a replica is reached at the endpoint of its last registration, even a repeated one. */
  lemma {:induction false} EndpointIsLastRegistered(start: Router, actions: seq<Action>, r: ReplicaId)
    ensures var e := Run(start, actions).router.endpoints;
            LastEndpoint(start, actions, r) == if r in e then Some(e[r]) else None
  {
    if actions != [] {
      var n := |actions| - 1;
      EndpointIsLastRegistered(start, actions[..n], r);
      NextEndpoint(Run(start, actions[..n]), actions[n], r);
    }
  }
}
