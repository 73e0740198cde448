/**
 * Which evidence is assessed, which is refused and on which the assessment raises, field by field,
 * and what an assessment holds.
 */
module EvidenceOutcomes {
  import opened Shared
  import opened ServingEvidence

  // ---------------------------------------------------------------------------------------------
  // Conditions on the input
  // ---------------------------------------------------------------------------------------------

  /** What Python takes for false. */
  ghost predicate Falsy(v: Value) {
    v == Null || v == Text("") || v == Flag(false) || v == Num(0) || v == Items([])
  }

  /** All nine keys and no other, the right phase, version, manifests and debts, and neither forbidden claim. */
  ghost predicate WellFormed(env: Env, input: Evidence) {
    && input.rest == map[]
    && Phase in input.raw && input.raw[Phase] == Text("P11-D")
    && SchemaVersion in input.raw && input.raw[SchemaVersion] == Text(env.schemaVersion)
    && FixtureManifestsSha in input.raw && input.raw[FixtureManifestsSha] == Text(env.manifestsSha)
    && ProductionClaimed in input.raw && Falsy(input.raw[ProductionClaimed])
    && MasteryComplete in input.raw && Falsy(input.raw[MasteryComplete])
    && DeferredItems in input.raw && input.raw[DeferredItems] == Items(env.deferred)
    && ExecutionMode in input.raw && EnvironmentClassification in input.raw && ObservationsKey in input.raw
  }

  const NINE := {"tls", "mtls", "ingress", "request_policy", "rate_limit", "health_readiness", "graceful_shutdown",
                 "runtime_policy", "network_policy"}

  /** The nine groups and the gates, and nothing else. */
  ghost predicate Grouped(obs: Observations) {
    obs.cases.Keys == NINE && obs.gates.Some?
  }

  /** At least one case, and every one with its four keys. */
  ghost predicate CasesFine(obs: Observations) {
    && (exists g :: g in obs.cases && obs.cases[g] != [])
    && (forall g, i :: g in obs.cases && 0 <= i < |obs.cases[g]| ==> obs.cases[g][i].Case4?)
  }

  ghost predicate HasCase(obs: Observations, expected: string) {
    exists g, i :: g in obs.cases && 0 <= i < |obs.cases[g]| && obs.cases[g][i].Case4?
      && obs.cases[g][i].c.expected == expected
  }

  ghost predicate IsText(gates: map<string, Gate>, name: string) {
    name !in gates || gates[name].Words?
  }

  /** A hash that is no string, reached because the ones before it have the right length. */
  ghost predicate HashRaises(gates: map<string, Gate>) {
    || !IsText(gates, "ca_sha256")
    || (IsHash(gates, "ca_sha256") && !IsText(gates, "server_cert_sha256"))
    || (IsHash(gates, "ca_sha256") && IsHash(gates, "server_cert_sha256") && !IsText(gates, "client_cert_sha256"))
  }

  ghost predicate IsString(gates: map<string, Gate>, name: string) {
    name in gates && gates[name].Words?
  }

  /** Two counts that do not add, or two strings that do and match, and are then compared with 0. */
  ghost predicate RateRaises(gates: map<string, Gate>) {
    && !(IsNumber(gates, "rate_allowed") && IsNumber(gates, "rate_limited"))
    && (IsString(gates, "rate_allowed") && IsString(gates, "rate_limited") ==>
          && "rate_attempts" in gates
          && gates["rate_attempts"] == Words(gates["rate_allowed"].words + gates["rate_limited"].words))
  }

  ghost predicate GatesRaise(env: Env, gates: map<string, Gate>) {
    && gates.Keys == (set x | x in env.gateNames + env.dataNames)
    && (HashRaises(gates) || RateRaises(gates))
  }

  /** Observations that cannot be iterated over, or a list of exactly the expected keys. */
  ghost predicate ObservationsRaise(v: Value) {
    v.Null? || v.Flag? || v.Num? || (v.Items? && (set x | x in v.items) == NINE + {"live_gates"})
  }

  /** Everything up to the scan for sensitive material goes well. */
  ghost predicate Assessable(env: Env, input: Evidence) {
    && WellFormed(env, input) && input.raw[ObservationsKey].Observed?
    && var obs := input.raw[ObservationsKey].observations;
       && Grouped(obs) && CasesFine(obs) && HasCase(obs, "DENY") && HasCase(obs, "ALLOW")
       && !GatesRaise(env, obs.gates.value)
  }

  // ---------------------------------------------------------------------------------------------
  // ... are what the assessment tests
  // ---------------------------------------------------------------------------------------------

  lemma TruthyIffNotFalsy(v: Value)
    ensures v.Truthy() <==> !Falsy(v)
  {
  }

  lemma WellFormedIff(env: Env, input: Evidence)
    ensures WellFormed(env, input) <==> SchemaHolds(env, input.raw) && input.rest == map[]
  {
    if WellFormed(env, input) {
      AllNineKeys(input.raw.Keys);
      TruthyIffNotFalsy(input.raw[ProductionClaimed]);
      TruthyIffNotFalsy(input.raw[MasteryComplete]);
    }
    if SchemaHolds(env, input.raw) {
      TruthyIffNotFalsy(input.raw[ProductionClaimed]);
      TruthyIffNotFalsy(input.raw[MasteryComplete]);
    }
  }

  lemma AllNineKeys(keys: set<RawKey>)
    requires Phase in keys && SchemaVersion in keys && ExecutionMode in keys && EnvironmentClassification in keys
    requires FixtureManifestsSha in keys && ObservationsKey in keys && ProductionClaimed in keys
    requires MasteryComplete in keys && DeferredItems in keys
    ensures keys == RAW_KEYS
  {
    forall k | k in keys
      ensures k in RAW_KEYS
    {
      match k
      case Phase =>
      case SchemaVersion =>
      case ExecutionMode =>
      case EnvironmentClassification =>
      case FixtureManifestsSha =>
      case ObservationsKey =>
      case ProductionClaimed =>
      case MasteryComplete =>
      case DeferredItems =>
    }
  }

  lemma NineGroups()
    ensures (set g | g in GROUPS) == NINE
  {
    assert forall g :: g in GROUPS <==> g in NINE;
  }

  /** The documents of the listed groups are those of the flat list. */
  lemma {:induction false} FlattenHolds(groups: seq<string>, obs: Observations, doc: CaseDoc)
    requires forall g :: g in groups ==> g in obs.cases
    ensures doc in Flatten(groups, obs) <==> exists g :: g in groups && doc in obs.cases[g]
    decreases |groups|
  {
    if groups != [] {
      FlattenHolds(groups[1..], obs, doc);
      assert forall g :: g in groups <==> g == groups[0] || g in groups[1..];
    }
  }

  lemma CasesFineIff(obs: Observations)
    requires ObservationsHold(obs)
    ensures CasesFine(obs) <==> Flatten(GROUPS, obs) != [] && AllFour(Flatten(GROUPS, obs))
  {
    var docs := Flatten(GROUPS, obs);
    if CasesFine(obs) {
      var g :| g in obs.cases && obs.cases[g] != [];
      FlattenHolds(GROUPS, obs, obs.cases[g][0]);
      forall i | 0 <= i < |docs|
        ensures docs[i].Case4?
      {
        FlattenHolds(GROUPS, obs, docs[i]);
      }
    }
    if docs != [] && AllFour(docs) {
      GroupsFour(GROUPS, obs);
      FlattenHolds(GROUPS, obs, docs[0]);
      assert forall g :: g in obs.cases ==> g in GROUPS;
    }
  }

  lemma HasCaseIff(obs: Observations, expected: string, p: Case -> bool)
    requires ObservationsHold(obs) && AllFour(Flatten(GROUPS, obs))
    requires forall c :: p(c) <==> c.expected == expected
    ensures HasCase(obs, expected) <==> Select(Cases(Flatten(GROUPS, obs)), p) != []
  {
    var docs := Flatten(GROUPS, obs);
    var cs := Cases(docs);
    SelectKeeps(cs, p);
    if HasCase(obs, expected) {
      var g, i :| g in obs.cases && 0 <= i < |obs.cases[g]| && obs.cases[g][i].Case4?
          && obs.cases[g][i].c.expected == expected;
      FlattenHolds(GROUPS, obs, obs.cases[g][i]);
      var k :| 0 <= k < |docs| && docs[k] == obs.cases[g][i];
      assert cs[k] in cs && p(cs[k]);
      assert cs[k] in Select(cs, p);
    }
    if Select(cs, p) != [] {
      var c := Select(cs, p)[0];
      assert c in Select(cs, p);
      var k :| 0 <= k < |cs| && cs[k] == c;
      FlattenHolds(GROUPS, obs, docs[k]);
      var g :| g in GROUPS && docs[k] in obs.cases[g];
      var i :| 0 <= i < |obs.cases[g]| && obs.cases[g][i] == docs[k];
    }
  }

  lemma HashRaisesIff(gates: map<string, Gate>)
    ensures HashRaises(gates) <==> HashesPass(gates, HASH_NAMES).None?
  {
    HashStep(gates, "ca_sha256", ["server_cert_sha256", "client_cert_sha256"]);
    HashStep(gates, "server_cert_sha256", ["client_cert_sha256"]);
    HashStep(gates, "client_cert_sha256", []);
    assert HASH_NAMES == ["ca_sha256"] + (["server_cert_sha256"] + (["client_cert_sha256"] + []));
    assert ["server_cert_sha256", "client_cert_sha256"] == ["server_cert_sha256"] + ["client_cert_sha256"];
    assert ["client_cert_sha256"] == ["client_cert_sha256"] + [];
  }

  lemma HashStep(gates: map<string, Gate>, name: string, more: seq<string>)
    ensures HashesPass(gates, [name] + more) ==
              if !IsText(gates, name) then None else if !IsHash(gates, name) then Some(false)
                else HashesPass(gates, more)
  {
    assert ([name] + more)[1..] == more;
  }

  lemma GatesRaiseIff(env: Env, gates: map<string, Gate>)
    ensures GatesRaise(env, gates) <==> GatesPass(env, gates).None?
  {
    HashRaisesIff(gates);
  }

  /** The assessment before it is signed. */
  ghost function Unsigned(env: Env, input: Evidence): Evidence
    requires Assessable(env, input)
  {
    WellFormedIff(env, input);
    NineGroups();
    var obs := input.raw[ObservationsKey].observations;
    CasesFineIff(obs);
    HasCaseIff(obs, "DENY", Attack);
    HasCaseIff(obs, "ALLOW", Benign);
    GatesRaiseIff(env, obs.gates.value);
    Evidence(Echoed(env, input.raw),
             Derived(input.raw[ExecutionMode], obs, GatesPass(env, obs.gates.value).value, Cases(Flatten(GROUPS, obs))))
  }

  lemma ObservedOutcome(env: Env, input: Evidence)
    requires WellFormed(env, input) && input.raw[ObservationsKey].Observed?
    ensures var (o, obs) := (Assess(env, input), input.raw[ObservationsKey].observations);
            if !Grouped(obs) || !CasesFine(obs) then o == Rejected
            else if GatesRaise(env, obs.gates.value) || !HasCase(obs, "DENY")
              || !HasCase(obs, "ALLOW") then o == Crashed
            else if !env.materialFree(Unsigned(env, input)) then o == Rejected
            else o.Assessed?
  {
    var obs := input.raw[ObservationsKey].observations;
    WellFormedIff(env, input);
    NineGroups();
    if Grouped(obs) {
      CasesFineIff(obs);
      if CasesFine(obs) {
        HasCaseIff(obs, "DENY", Attack);
        HasCaseIff(obs, "ALLOW", Benign);
        GatesRaiseIff(env, obs.gates.value);
      }
    }
  }

  /**
   * Exactly which input is assessed, which is refused and on which the assessment raises: what is
   * malformed, mismatched or claims what it may not is refused before anything can raise.
   */
  lemma OutcomeIff(env: Env, input: Evidence)
    ensures Assess(env, input).Assessed? <==> Assessable(env, input) && env.materialFree(Unsigned(env, input))
    ensures Assess(env, input) == Crashed <==>
              && WellFormed(env, input)
              && var v := input.raw[ObservationsKey];
                 || ObservationsRaise(v)
                 || (&& v.Observed? && Grouped(v.observations) && CasesFine(v.observations)
                     && (|| GatesRaise(env, v.observations.gates.value)
                         || !HasCase(v.observations, "DENY") || !HasCase(v.observations, "ALLOW")))
    ensures Assess(env, input) == Rejected <==>
              || !WellFormed(env, input)
              || (!input.raw[ObservationsKey].Observed? && !ObservationsRaise(input.raw[ObservationsKey]))
              || (&& input.raw[ObservationsKey].Observed?
                  && !(Grouped(input.raw[ObservationsKey].observations)
                       && CasesFine(input.raw[ObservationsKey].observations)))
              || (Assessable(env, input) && !env.materialFree(Unsigned(env, input)))
  {
    WellFormedIff(env, input);
    if WellFormed(env, input) {
      NineGroups();
      if input.raw[ObservationsKey].Observed? {
        ObservedOutcome(env, input);
      }
    }
  }

  /** In particular, neither forbidden claim gets past the assessment, nor past the validation of any evidence. */
  lemma ClaimsAreRefused(env: Env, e: Evidence)
    requires || (ProductionClaimed in e.raw && !Falsy(e.raw[ProductionClaimed]))
             || (MasteryComplete in e.raw && !Falsy(e.raw[MasteryComplete]))
    ensures Validate(env, e) == Rejected
  {
    OutcomeIff(env, RawPart(e));
  }

  // ---------------------------------------------------------------------------------------------
  // What an assessment holds
  // ---------------------------------------------------------------------------------------------

  /** The places of a group at which one word was expected and another observed. */
  ghost function Places(docs: seq<CaseDoc>, expected: string, observed: string): set<nat> {
    set i | 0 <= i < |docs| && docs[i].Case4? && docs[i].c.expected == expected && docs[i].c.observed == observed
  }

  lemma {:induction false} CountIsPlaces(docs: seq<CaseDoc>, expected: string, observed: string, p: Case -> bool)
    requires AllFour(docs) && forall c :: p(c) <==> c.expected == expected && c.observed == observed
    ensures Count(Cases(docs), p) == |Places(docs, expected, observed)|
    decreases |docs|
  {
    if docs != [] {
      var n := |docs| - 1;
      var prior, last := docs[..n], docs[n].c;
      CountIsPlaces(prior, expected, observed, p);
      CountAppend(Cases(prior), [last], p);
      assert Cases(docs) == Cases(prior) + [last];
      assert Count([last], p) == if p(last) then 1 else 0;
      assert Places(docs, expected, observed)
        == Places(prior, expected, observed) + (if p(last) then {n} else {});
    }
  }

  /** The share a rate states is the quotient of its counts. */
  ghost predicate IsQuotient(v: Value) {
    v.Rate? && v.denominator > 0 && v.value * v.denominator as real == v.numerator as real
  }

  lemma ShareIsQuotient(part: int, whole: int)
    requires whole > 0
    ensures IsQuotient(Share(part, whole))
  {
  }

  /** Each group is summed up by its own cases. */
  lemma GroupsAreExact(env: Env, input: Evidence, g: string)
    requires g in GROUPS
    ensures Assess(env, input).Assessed? ==>
              var (out, obs) := (Assess(env, input).out.rest, input.raw[ObservationsKey].observations);
              && g in obs.cases
              && Get(out, GroupKey(g)) == Group(|obs.cases[g]|, |Places(obs.cases[g], "DENY", "ALLOW")|,
                                                |Places(obs.cases[g], "ALLOW", "DENY")|)
  {
    if Assess(env, input).Assessed? {
      var obs, cs := AssessedParts(env, input);
      var out := Assess(env, input).out.rest;
      var live := Live(input.raw[ExecutionMode], GatesPass(env, obs.gates.value).value, cs);
      GroupEntry(obs, TallyOf(cs), live, out[AssessmentSha], g);
      SummaryIsExact(obs.cases[g]);
    }
  }

  lemma SummaryIsExact(docs: seq<CaseDoc>)
    requires AllFour(docs)
    ensures Summary(docs) == Group(|docs|, |Places(docs, "DENY", "ALLOW")|, |Places(docs, "ALLOW", "DENY")|)
  {
    CountIsPlaces(docs, "DENY", "ALLOW", IncorrectAllow);
    CountIsPlaces(docs, "ALLOW", "DENY", IncorrectDeny);
  }

  /** Each rate states the quotient of its counts. */
  lemma RatesAreQuotients(env: Env, input: Evidence)
    ensures Assess(env, input).Assessed? ==>
              var out := Assess(env, input).out.rest;
              IsQuotient(Get(out, Asr)) && IsQuotient(Get(out, Fpr)) && IsQuotient(Get(out, SafeTaskRate))
  {
    if Assess(env, input).Assessed? {
      var obs, cs := AssessedParts(env, input);
      var live := Live(input.raw[ExecutionMode], GatesPass(env, obs.gates.value).value, cs);
      QuotientEntries(GroupSummaries(obs), obs, TallyOf(cs), live, Assess(env, input).out.rest[AssessmentSha]);
    }
  }

  lemma QuotientEntries(groups: map<Key, Value>, obs: Observations, t: Tally, live: bool, sha: Value)
    requires t.attacks != 0 && t.benign != 0
    ensures var out := (groups + Rates(t, obs, live))[AssessmentSha := sha];
            IsQuotient(Get(out, Asr)) && IsQuotient(Get(out, Fpr)) && IsQuotient(Get(out, SafeTaskRate))
  {
    RateEntries(groups, obs, t, live, sha);
    ShareIsQuotient(t.successes, t.attacks);
    ShareIsQuotient(t.benign - t.safeOk, t.benign);
    ShareIsQuotient(t.safeOk, t.benign);
  }

  /** The raw keys that are copied. */
  predicate Echoes(k: RawKey) {
    k != ObservationsKey && k != ProductionClaimed && k != MasteryComplete
  }

  lemma EchoEntries(env: Env, raw: map<RawKey, Value>)
    requires SchemaHolds(env, raw)
    ensures var out := Echoed(env, raw);
            && (forall k :: k in raw && Echoes(k) ==> k in out && out[k] == raw[k])
            && ObservationsKey !in out
            && ProductionClaimed in out && out[ProductionClaimed] == Flag(false)
            && MasteryComplete in out && out[MasteryComplete] == Flag(false)
  {
  }

  /** The entries that are neither groups nor rates. */
  lemma OtherEntries(obs: Observations, t: Tally, live: bool, sha: Value)
    requires ObservationsHold(obs) && AllFour(Flatten(GROUPS, obs)) && t.attacks != 0 && t.benign != 0
    ensures var rest := GroupSummaries(obs) + Rates(t, obs, live);
            && AssessmentSha !in rest && RawObservations in rest && rest[RawObservations] == Observed(obs)
            && Get(rest[AssessmentSha := sha], RawObservations) == Observed(obs)
  {
  }

  lemma SignatureApart(rest: map<Key, Value>, sha: Value)
    requires AssessmentSha !in rest
    ensures rest[AssessmentSha := sha] - {AssessmentSha} == rest
        && Get(rest[AssessmentSha := sha], AssessmentSha) == sha
  {
  }

  /** The assessment repeats its input, keeps the observations, and is signed over everything but the signature. */
  lemma AssessmentRepeatsItsInput(env: Env, input: Evidence)
    ensures Assess(env, input).Assessed? ==>
              var out := Assess(env, input).out;
              && (forall k :: k in input.raw && Echoes(k) ==> k in out.raw && out.raw[k] == input.raw[k])
              && ObservationsKey !in out.raw && Get(out.rest, RawObservations) == input.raw[ObservationsKey]
              && ProductionClaimed in out.raw && out.raw[ProductionClaimed] == Flag(false)
              && MasteryComplete in out.raw && out.raw[MasteryComplete] == Flag(false)
              && Get(out.rest, AssessmentSha) == Text(env.digest(Evidence(out.raw, out.rest - {AssessmentSha})))
  {
    if Assess(env, input).Assessed? {
      var obs, cs := AssessedParts(env, input);
      var live := Live(input.raw[ExecutionMode], GatesPass(env, obs.gates.value).value, cs);
      var rest := GroupSummaries(obs) + Rates(TallyOf(cs), obs, live);
      var sha := Text(env.digest(Evidence(Echoed(env, input.raw), rest)));
      EchoEntries(env, input.raw);
      OtherEntries(obs, TallyOf(cs), live, sha);
      SignatureApart(rest, sha);
    }
  }
}
