/**
 * The incident-response router of apps/p10i_ir_lab.py: its shared state, the
 * atomic segments that change it, and the handlers that run them serially.
 *
 * Probe and post replies are values handed in from outside: the network is not modelled.
 */
module IncidentRouter {
  import opened Sequences
  import opened Shared

  const TENANT := "acme"
  const REVISION := "rev-2026-08-p9h"
  const FIRST_GENERATION := 200

  datatype Event =
    | IntegrityFailureDetected(replica: ReplicaId, routerGeneration: int)
    | ReplicaUnreachable(replica: ReplicaId, routerGeneration: int)
    | ReplicaFenced(replica: ReplicaId, routerGeneration: int)
    | PostRouteIntegrityFailure(replica: ReplicaId, routerGeneration: int)
    | RequestRouted(replica: ReplicaId, key: string, routerGeneration: int)
    | CleanReplacementRegistered(replica: ReplicaId, generation: int, routerGeneration: int)
    | CrossTenantRequestDenied(tenant: string)
    | IdempotencyReplayDetected(key: string)

  datatype Entry = Entry(sequence: nat, event: Event)

  /** What `GET /health` brought back; an exception of any kind is `NoAnswer`. */
  datatype ProbeReply = Health(status: int, healthy: bool, integrityOk: bool) | NoAnswer {
    predicate Passes() {
      Health? && status == 200 && healthy && integrityOk
    }
  }

  /** What `POST /infer` brought back; an exception leaves the handler at once. */
  datatype PostReply = Answer(status: int, integrityOk: bool, revision: string) | TransportError {
    predicate Clean() {
      Answer? && status == 200 && integrityOk && revision == REVISION
    }
  }

  datatype Choice = Chosen(replica: ReplicaId) | NoReplicas | NoSafeReplicas

  datatype Outcome =
    | Served(replica: ReplicaId, routerGeneration: int)
    | TenantDenied | MissingKey | ReplayDenied | Unavailable | ReplicaError | IntegrityFailure | Crashed

  /** The fields of `RouterState`; the ordered dictionary is its key order and its mapping. */
  datatype Router = Router(
    order: seq<ReplicaId>,
    endpoints: map<ReplicaId, string>,
    generations: map<ReplicaId, int>,
    fenced: set<ReplicaId>,
    generation: int,
    idempotency: set<string>,
    log: seq<Entry>,
    rr: nat)
  {
    ghost predicate Valid() {
      && Distinct(order)
      && endpoints.Keys == Elements(order)
      && generations.Keys == Elements(order)
      && (rr < |order| || rr == 0)
    }

    function Emit(e: Event): Router {
      this.(log := log + [Entry(|log| + 1, e)])
    }

    function Fence(r: ReplicaId): Router {
      this.(fenced := fenced + {r}, generation := generation + 1)
    }

    /** Lines 80-93: what one probe reply does. */
    function AfterProbe(r: ReplicaId, reply: ProbeReply): Router {
      if reply.Passes() then this
      else
        var s := Fence(r);
        var cause := if reply.NoAnswer? then ReplicaUnreachable(r, s.generation)
                     else IntegrityFailureDetected(r, s.generation);
        s.Emit(cause).Emit(ReplicaFenced(r, s.generation))
    }

    /** Lines 140-144 for one replica: a fenced one is not probed. */
    function AfterScan(r: ReplicaId, reply: ProbeReply): Router {
      if r in fenced then this else AfterProbe(r, reply)
    }

    /** Line 104: the pointer moves just past the chosen replica. */
    function Advance(ids: seq<ReplicaId>, r: ReplicaId): Router
      requires r in ids
    {
      this.(rr := NextPointer(ids, r))
    }

    predicate Admits(tenant: string, key: string) {
      tenant == TENANT && key != "" && key !in idempotency
    }

    /** Lines 112-119: the three refusals of `infer`. */
    function Refuse(tenant: string, key: string): (Router, Outcome)
      requires !Admits(tenant, key)
    {
      if tenant != TENANT then (Emit(CrossTenantRequestDenied(tenant)), TenantDenied)
      else if key == "" then (this, MissingKey)
      else (Emit(IdempotencyReplayDetected(key)), ReplayDenied)
    }

    /** Line 120. */
    function Reserve(key: string): Router {
      this.(idempotency := idempotency + {key})
    }

    /** Lines 124-133: what one post reply does. */
    function AfterPost(r: ReplicaId, key: string, reply: PostReply): (Router, Outcome) {
      if reply.TransportError? then (this, Crashed)
      else if reply.status != 200 then (this, ReplicaError)
      else if !reply.integrityOk || reply.revision != REVISION then
        var s := Fence(r);
        (s.Emit(PostRouteIntegrityFailure(r, s.generation)), IntegrityFailure)
      else (Emit(RequestRouted(r, key, generation)), Served(r, generation))
    }

    /** Lines 150-158; re-registering a known replica keeps its place in the order. */
    function Register(r: ReplicaId, endpoint: string, replicaGeneration: int): Router {
      var s := this.(
        order := if r in order then order else order + [r],
        endpoints := endpoints[r := endpoint],
        generations := generations[r := replicaGeneration],
        fenced := fenced - {r},
        generation := generation + 1);
      s.Emit(CleanReplacementRegistered(r, replicaGeneration, s.generation))
    }

    predicate Safe(r: ReplicaId, probes: ReplicaId -> ProbeReply) {
      r !in fenced && probes(r).Passes()
    }

    /** The loop of `choose` over the part of the rotation still to be visited. */
    function Walk(ids: seq<ReplicaId>, rest: seq<ReplicaId>, probes: ReplicaId -> ProbeReply): (Router, Choice)
      requires forall r :: r in rest ==> r in ids
      decreases |rest|
    {
      if rest == [] then (this, NoSafeReplicas)
      else if rest[0] in fenced then Walk(ids, rest[1..], probes)
      else if probes(rest[0]).Passes() then (Advance(ids, rest[0]), Chosen(rest[0]))
      else AfterProbe(rest[0], probes(rest[0])).Walk(ids, rest[1..], probes)
    }

    function Choose(probes: ReplicaId -> ProbeReply): (Router, Choice)
      requires rr <= |order|
    {
      if order == [] then (this, NoReplicas)
      else Walk(order, Rotate(order, rr), probes)
    }

    function Infer(tenant: string, key: string, probes: ReplicaId -> ProbeReply,
                   posts: ReplicaId -> PostReply): (Router, Outcome)
      requires rr <= |order|
    {
      if !Admits(tenant, key) then Refuse(tenant, key)
      else
        var (s, choice) := Reserve(key).Choose(probes);
        if choice.Chosen? then s.AfterPost(choice.replica, key, posts(choice.replica))
        else (s, Unavailable)
    }

    /** The loop of `scan`. */
    function Sweep(rest: seq<ReplicaId>, probes: ReplicaId -> ProbeReply): Router
      decreases |rest|
    {
      if rest == [] then this
      else AfterScan(rest[0], probes(rest[0])).Sweep(rest[1..], probes)
    }

    /** The loop of `scan` with the results it gathers. */
    function Report(rest: seq<ReplicaId>, seen: map<ReplicaId, bool>, probes: ReplicaId -> ProbeReply)
      : (Router, map<ReplicaId, bool>)
      decreases |rest|
    {
      if rest == [] then (this, seen)
      else AfterScan(rest[0], probes(rest[0])).Report(rest[1..], seen[rest[0] := Safe(rest[0], probes)], probes)
    }
  }

  function Start(order: seq<ReplicaId>, endpoints: map<ReplicaId, string>, generations: map<ReplicaId, int>): Router {
    Router(order, endpoints, generations, {}, FIRST_GENERATION, {}, [], 0)
  }

  // ---------------------------------------------------------------------------------------------
  // The cyclic-order specification of `choose`
  // ---------------------------------------------------------------------------------------------

  /** Index of the first safe replica of a visiting order, or its length when there is none. */
  ghost function FirstSafe(s: Router, visit: seq<ReplicaId>, probes: ReplicaId -> ProbeReply): (j: nat)
    ensures j <= |visit|
    ensures forall i :: 0 <= i < j ==> !s.Safe(visit[i], probes)
    ensures j < |visit| ==> s.Safe(visit[j], probes)
  {
    if visit == [] || s.Safe(visit[0], probes) then 0 else 1 + FirstSafe(s, visit[1..], probes)
  }

  /** `a` and `b` agree on everything a probe cannot change. */
  ghost predicate SameButFences(a: Router, b: Router) {
    && a.order == b.order && a.endpoints == b.endpoints && a.generations == b.generations
    && a.idempotency == b.idempotency
  }

  /** Visiting one unsafe replica does not move the first safe one. */
  lemma StepFirstSafe(s: Router, rest: seq<ReplicaId>, probes: ReplicaId -> ProbeReply) returns (u: Router)
    requires Distinct(rest) && rest != [] && !s.Safe(rest[0], probes)
    ensures u == if rest[0] in s.fenced then s else s.AfterProbe(rest[0], probes(rest[0]))
    ensures SameButFences(s, u) && u.rr == s.rr && s.log <= u.log
    ensures u.fenced == s.fenced + {rest[0]}
    ensures FirstSafe(s, rest, probes) == 1 + FirstSafe(u, rest[1..], probes)
    ensures rest[..FirstSafe(s, rest, probes)] == [rest[0]] + rest[1..][..FirstSafe(u, rest[1..], probes)]
  {
    u := if rest[0] in s.fenced then s else s.AfterProbe(rest[0], probes(rest[0]));
    SameFirstSafe(s, u, rest[1..], probes);
  }

  lemma {:induction false} WalkChoosesFirstSafe(s: Router, ids: seq<ReplicaId>, rest: seq<ReplicaId>,
      probes: ReplicaId -> ProbeReply)
    requires Distinct(rest) && forall r :: r in rest ==> r in ids
    ensures var (t, c) := s.Walk(ids, rest, probes);
            var j := FirstSafe(s, rest, probes);
            && SameButFences(s, t) && s.log <= t.log
            && c == (if j < |rest| then Chosen(rest[j]) else NoSafeReplicas)
            && t.rr == (if j < |rest| then NextPointer(ids, rest[j]) else s.rr)
    decreases |rest|
  {
    if rest != [] && !s.Safe(rest[0], probes) {
      var u := StepFirstSafe(s, rest, probes);
      WalkChoosesFirstSafe(u, ids, rest[1..], probes);
    }
  }

  lemma {:induction false} WalkFencesTheSkipped(s: Router, ids: seq<ReplicaId>, rest: seq<ReplicaId>,
      probes: ReplicaId -> ProbeReply)
    requires Distinct(rest) && forall r :: r in rest ==> r in ids
    ensures s.Walk(ids, rest, probes).0.fenced == s.fenced + Elements(rest[..FirstSafe(s, rest, probes)])
    decreases |rest|
  {
    if rest == [] || s.Safe(rest[0], probes) {
      assert Elements(rest[..0]) == {};
    } else {
      var u := StepFirstSafe(s, rest, probes);
      WalkFencesTheSkipped(u, ids, rest[1..], probes);
    }
  }

  lemma {:induction false} WalkCountsTheFenced(s: Router, ids: seq<ReplicaId>, rest: seq<ReplicaId>,
      probes: ReplicaId -> ProbeReply)
    requires Distinct(rest) && forall r :: r in rest ==> r in ids
    ensures s.Walk(ids, rest, probes).0.generation
         == s.generation + |Elements(rest[..FirstSafe(s, rest, probes)]) - s.fenced|
    decreases |rest|
  {
    var j := FirstSafe(s, rest, probes);
    if rest == [] || s.Safe(rest[0], probes) {
      assert Elements(rest[..0]) - s.fenced == {};
    } else {
      var u := StepFirstSafe(s, rest, probes);
      WalkCountsTheFenced(u, ids, rest[1..], probes);
      OutsideCount(rest[0], rest[1..][..j - 1], s.fenced);
    }
  }

  lemma {:induction false} SameFirstSafe(s: Router, u: Router, visit: seq<ReplicaId>, probes: ReplicaId -> ProbeReply)
    requires forall r :: r in visit ==> s.Safe(r, probes) == u.Safe(r, probes)
    ensures FirstSafe(s, visit, probes) == FirstSafe(u, visit, probes)
  {
    if visit != [] {
      SameFirstSafe(s, u, visit[1..], probes);
    }
  }

  /**
   * `choose`, run on its own, serves the first replica in cyclic order from the pointer that is
   * unfenced and passes its probe, and fences exactly the replicas it passed over.
   */
  lemma ChooseIsFirstSafe(s: Router, probes: ReplicaId -> ProbeReply)
    requires s.Valid() && s.order != []
    ensures var (t, c) := s.Choose(probes);
            var visit := Rotate(s.order, s.rr);
            var j := FirstSafe(s, visit, probes);
            && c == (if j < |visit| then Chosen(visit[j]) else NoSafeReplicas)
            && t.fenced == s.fenced + Elements(visit[..j])
            && t.generation == s.generation + |Elements(visit[..j]) - s.fenced|
            && SameButFences(s, t) && s.log <= t.log
  {
    RotateDistinct(s.order, s.rr);
    RotateKeepsElements(s.order, s.rr);
    var visit := Rotate(s.order, s.rr);
    WalkChoosesFirstSafe(s, s.order, visit, probes);
    WalkFencesTheSkipped(s, s.order, visit, probes);
    WalkCountsTheFenced(s, s.order, visit, probes);
  }

  /** When `choose` raises "no safe replicas", every replica is fenced afterwards. */
  lemma ExhaustedMeansAllFenced(s: Router, probes: ReplicaId -> ProbeReply)
    requires s.Valid() && s.Choose(probes).1 == NoSafeReplicas
    ensures Elements(s.order) <= s.Choose(probes).0.fenced
    ensures s.Choose(probes).0.rr == s.rr
  {
    ChooseIsFirstSafe(s, probes);
    RotateDistinct(s.order, s.rr);
    RotateKeepsElements(s.order, s.rr);
    var visit := Rotate(s.order, s.rr);
    WalkChoosesFirstSafe(s, s.order, visit, probes);
    assert visit[..|visit|] == visit;
  }

  /** The replica just served is unfenced and comes last in the next round; the pointer stays in range. */
  lemma ChosenGoesToTheBack(s: Router, probes: ReplicaId -> ProbeReply)
    requires s.Valid() && s.Choose(probes).1.Chosen?
    ensures var (t, c) := s.Choose(probes);
            && t.rr < |t.order| == |s.order|
            && c.replica in t.order && c.replica !in t.fenced
            && Rotate(t.order, t.rr)[|t.order| - 1] == c.replica
  {
    ChosenAdvances(s, probes);
    NextPointerSeesLast(s.order, s.Choose(probes).1.replica);
  }

  lemma ChosenAdvances(s: Router, probes: ReplicaId -> ProbeReply)
    requires s.Valid() && s.Choose(probes).1.Chosen?
    ensures var (t, c) := s.Choose(probes);
            && t.order == s.order && c.replica in s.order && c.replica !in t.fenced
            && t.rr == NextPointer(s.order, c.replica)
  {
    RotateDistinct(s.order, s.rr);
    RotateKeepsElements(s.order, s.rr);
    var visit := Rotate(s.order, s.rr);
    WalkChoosesFirstSafe(s, s.order, visit, probes);
    WalkFencesTheSkipped(s, s.order, visit, probes);
    var j := FirstSafe(s, visit, probes);
    DistinctPrefix(visit, j);
  }

  lemma ChooseKeepsValid(s: Router, probes: ReplicaId -> ProbeReply)
    requires s.Valid()
    ensures s.Choose(probes).0.Valid()
  {
    if s.order != [] {
      RotateDistinct(s.order, s.rr);
      RotateKeepsElements(s.order, s.rr);
      WalkChoosesFirstSafe(s, s.order, Rotate(s.order, s.rr), probes);
      if s.Choose(probes).1.Chosen? {
        ChosenGoesToTheBack(s, probes);
      }
    }
  }

  lemma InferKeepsValid(s: Router, tenant: string, key: string, probes: ReplicaId -> ProbeReply,
      posts: ReplicaId -> PostReply)
    requires s.Valid()
    ensures s.Infer(tenant, key, probes, posts).0.Valid()
  {
    if s.Admits(tenant, key) {
      ChooseKeepsValid(s.Reserve(key), probes);
    }
  }

  /** `scan` fences exactly the replicas that fail their probe. */
  lemma {:induction false} SweepFencesTheFailing(s: Router, rest: seq<ReplicaId>, probes: ReplicaId -> ProbeReply)
    ensures var t := s.Sweep(rest, probes);
            && SameButFences(s, t) && t.rr == s.rr
            && forall r :: r in t.fenced <==> r in s.fenced || (r in rest && !probes(r).Passes())
    decreases |rest|
  {
    if rest != [] {
      var u := if rest[0] in s.fenced then s else s.AfterProbe(rest[0], probes(rest[0]));
      SweepFencesTheFailing(u, rest[1..], probes);
    }
  }

  /** The report names every replica visited, and says of each whether it was safe when the scan began. */
  lemma {:induction false} ScanReportsSafe(s: Router, rest: seq<ReplicaId>, seen: map<ReplicaId, bool>,
      probes: ReplicaId -> ProbeReply)
    requires Distinct(rest) && seen.Keys !! Elements(rest)
    ensures var (t, results) := s.Report(rest, seen, probes);
            && t == s.Sweep(rest, probes)
            && results.Keys == seen.Keys + Elements(rest)
            && forall r :: r in results ==> results[r] == if r in seen then seen[r] else s.Safe(r, probes)
    decreases |rest|
  {
    if rest != [] {
      var u := s.AfterScan(rest[0], probes(rest[0]));
      ScanReportsSafe(u, rest[1..], seen[rest[0] := s.Safe(rest[0], probes)], probes);
      assert rest == [rest[0]] + rest[1..];
    }
  }

  // ---------------------------------------------------------------------------------------------
  // The handlers
  // ---------------------------------------------------------------------------------------------

  class RouterState {
    var order: seq<ReplicaId>
    var endpoints: map<ReplicaId, string>
    var generations: map<ReplicaId, int>
    var fenced: set<ReplicaId>
    var generation: int
    var idempotency: set<string>
    var log: seq<Entry>
    var rr: nat

    ghost function View(): Router
      reads this
    {
      Router(order, endpoints, generations, fenced, generation, idempotency, log, rr)
    }

    /** Line 75: `initial` is an insertion-ordered dictionary, here its key order and its mapping. */
    constructor (ids: seq<ReplicaId>, initial: map<ReplicaId, (string, int)>)
      requires Distinct(ids) && Elements(ids) == initial.Keys
      ensures View().Valid() && View() == Start(ids, endpoints, generations)
      ensures forall r :: r in initial ==> endpoints[r] == initial[r].0 && generations[r] == initial[r].1
    {
      order := ids;
      endpoints := map r | r in initial :: initial[r].0;
      generations := map r | r in initial :: initial[r].1;
      fenced, generation, idempotency, log, rr := {}, FIRST_GENERATION, {}, [], 0;
    }

    method Emit(e: Event)
      modifies this`log
      ensures View() == old(View()).Emit(e)
    {
      log := log + [Entry(|log| + 1, e)];
    }

    /** Lines 80-93, run when the answer to a probe arrives. */
    method Probe(r: ReplicaId, reply: ProbeReply) returns (ok: bool)
      modifies this
      ensures View() == old(View()).AfterProbe(r, reply)
      ensures ok == reply.Passes()
    {
      if reply.NoAnswer? {
        fenced, generation := fenced + {r}, generation + 1;
        Emit(ReplicaUnreachable(r, generation));
        Emit(ReplicaFenced(r, generation));
        return false;
      }
      if reply.status != 200 || !reply.healthy || !reply.integrityOk {
        fenced, generation := fenced + {r}, generation + 1;
        Emit(IntegrityFailureDetected(r, generation));
        Emit(ReplicaFenced(r, generation));
        return false;
      }
      return true;
    }

    /** Lines 99-106. */
    method TryInTurn(ids: seq<ReplicaId>, probes: ReplicaId -> ProbeReply) returns (choice: Choice)
      requires rr < |ids|
      requires forall r :: r in Rotate(ids, rr) ==> r in ids
      modifies this
      ensures (View(), choice) == old(View()).Walk(ids, Rotate(ids, old(rr)), probes)
    {
      ghost var visit := Rotate(ids, rr);
      var offset := 0;
      while offset < |ids|
        invariant 0 <= offset <= |ids| && rr == old(rr)
        invariant old(View()).Walk(ids, visit, probes) == View().Walk(ids, visit[offset..], probes)
      {
        RotationIndex(ids, rr, offset);
        SliceStep(visit, offset);
        var r := ids[(rr + offset) % |ids|];
        if r !in fenced {
          var ok := Probe(r, probes(r));
          if ok {
            NextPointerIsMod(ids, r);
            rr := (IndexOf(ids, r) + 1) % |ids|;
            return Chosen(r);
          }
        }
        offset := offset + 1;
      }
      return NoSafeReplicas;
    }

    /** Lines 95-106. */
    method Choose(probes: ReplicaId -> ProbeReply) returns (choice: Choice)
      requires View().Valid()
      modifies this
      ensures View().Valid()
      ensures (View(), choice) == old(View()).Choose(probes)
    {
      ChooseKeepsValid(View(), probes);
      if order == [] {
        return NoReplicas;
      }
      RotateKeepsElements(order, rr);
      choice := TryInTurn(order, probes);
    }

    /** Lines 108-133. */
    method Infer(tenant: string, key: string, probes: ReplicaId -> ProbeReply, posts: ReplicaId -> PostReply)
      returns (outcome: Outcome)
      requires View().Valid()
      modifies this
      ensures View().Valid()
      ensures (View(), outcome) == old(View()).Infer(tenant, key, probes, posts)
    {
      if tenant != TENANT {
        Emit(CrossTenantRequestDenied(tenant));
        return TenantDenied;
      }
      if key == "" {
        return MissingKey;
      }
      if key in idempotency {
        Emit(IdempotencyReplayDetected(key));
        return ReplayDenied;
      }
      idempotency := idempotency + {key};
      var choice := Choose(probes);
      if !choice.Chosen? {
        return Unavailable;
      }
      var r, reply := choice.replica, posts(choice.replica);
      if reply.TransportError? {
        return Crashed;
      }
      if reply.status != 200 {
        return ReplicaError;
      }
      if !reply.integrityOk || reply.revision != REVISION {
        fenced, generation := fenced + {r}, generation + 1;
        Emit(PostRouteIntegrityFailure(r, generation));
        return IntegrityFailure;
      }
      Emit(RequestRouted(r, key, generation));
      return Served(r, generation);
    }

    /** Lines 140-144 for one replica. */
    method ScanOne(r: ReplicaId, reply: ProbeReply) returns (ok: bool)
      modifies this
      ensures View() == old(View()).AfterScan(r, reply)
      ensures ok == (r !in old(fenced) && reply.Passes())
    {
      if r in fenced {
        return false;
      }
      ok := Probe(r, reply);
    }

    /** Lines 138-144. */
    method ScanEach(ids: seq<ReplicaId>, probes: ReplicaId -> ProbeReply) returns (results: map<ReplicaId, bool>)
      modifies this
      ensures (View(), results) == old(View()).Report(ids, map[], probes)
    {
      results := map[];
      var n := 0;
      while n < |ids|
        invariant 0 <= n <= |ids|
        invariant old(View()).Report(ids, map[], probes) == View().Report(ids[n..], results, probes)
      {
        SliceStep(ids, n);
        var ok := ScanOne(ids[n], probes(ids[n]));
        results := results[ids[n] := ok];
        n := n + 1;
      }
    }

    /** Lines 135-145: every unfenced replica is probed once; the result names the ones that passed. */
    method Scan(probes: ReplicaId -> ProbeReply) returns (results: map<ReplicaId, bool>)
      requires View().Valid()
      modifies this
      ensures View() == old(View()).Sweep(old(order), probes)
      ensures results.Keys == Elements(old(order))
      ensures forall r :: r in results ==> results[r] == old(View()).Safe(r, probes)
    {
      ScanReportsSafe(View(), order, map[], probes);
      results := ScanEach(order, probes);
    }

    /** Lines 147-158. */
    method Register(r: ReplicaId, endpoint: string, replicaGeneration: int)
      requires View().Valid()
      modifies this
      ensures View().Valid()
      ensures View() == old(View()).Register(r, endpoint, replicaGeneration)
    {
      if r !in order {
        order := order + [r];
      }
      endpoints := endpoints[r := endpoint];
      generations := generations[r := replicaGeneration];
      fenced := fenced - {r};
      generation := generation + 1;
      Emit(CleanReplacementRegistered(r, replicaGeneration, generation));
    }
  }

  lemma RotationIndex(ids: seq<ReplicaId>, rr: nat, offset: nat)
    requires rr < |ids| && offset < |ids|
    ensures ids[(rr + offset) % |ids|] == Rotate(ids, rr)[offset]
  {
    ModWrap(rr + offset, |ids|);
  }
}
