/**
 * `assess` and `validate_evidence` of evals/p11d_serving_security.py: grouped counting over the
 * observed cases, and a validator that recomputes the assessment and compares.
 *
 * The schema version, manifest digest, deferred items, gate names, sensitive-material scan and digest
 * are parameters. Rates are exact rationals.
 */
module ServingEvidence {
  import opened Shared

  datatype Case = Case(name: string, expected: string, observed: string, executed: bool)

  predicate Attack(c: Case) { c.expected == "DENY" }
  predicate Benign(c: Case) { c.expected == "ALLOW" }
  predicate Allowed(c: Case) { c.observed == "ALLOW" }
  predicate IncorrectAllow(c: Case) { c.expected == "DENY" && c.observed == "ALLOW" }
  predicate IncorrectDeny(c: Case) { c.expected == "ALLOW" && c.observed == "DENY" }

  /** A case object, or one whose key set is wrong. */
  datatype CaseDoc = Case4(c: Case) | BadKeys

  /** `cases` are the entries under every key but `live_gates`, which is kept apart. */
  datatype Observations = Observations(cases: map<string, seq<CaseDoc>>, gates: Option<map<string, Gate>>)

  /** A value in the `live_gates` object. */
  datatype Gate = Truth(holds: bool) | Number(number: int) | Words(words: string) | NoValue {
    /** Python counts a Boolean as a number. */
    predicate Numeric() {
      Truth? || Number?
    }
    function AsNumber(): int
      requires Numeric()
    {
      if Truth? then (if holds then 1 else 0) else number
    }
  }

  /** The nine keys that `assess` requires of its input. */
  datatype RawKey =
    | Phase | SchemaVersion | ExecutionMode | EnvironmentClassification | FixtureManifestsSha | ObservationsKey
    | ProductionClaimed | MasteryComplete | DeferredItems

  /** Every other key of an evidence object; a name that means nothing to the program is `Other`. */
  datatype Key =
    | GroupKey(name: string) | Asr | Fpr | SafeTaskRate | RawObservations | LiveValidated
    | AssessmentSha | Preflight | CertificateMetadata | Other(name: string)

  datatype Value =
    | Null
    | Text(text: string)
    | Flag(flag: bool)
    | Num(number: int)
    | Items(items: seq<string>)
    | Observed(observations: Observations)
    | Rate(numerator: int, denominator: int, value: real)
    | Group(caseCount: int, incorrectAllows: int, incorrectDenies: int)
  {
    predicate Truthy() {
      match this
      case Null => false
      case Text(t) => t != ""
      case Flag(b) => b
      case Num(n) => n != 0
      case Items(l) => l != []
      case _ => true
    }

    /** Python's `==`: a Boolean equals the number it stands for. */
    predicate Same(other: Value) {
      match (this, other)
      case (Flag(b), Num(n)) => n == if b then 1 else 0
      case (Num(n), Flag(b)) => n == if b then 1 else 0
      case _ => this == other
    }
  }

  /** One evidence object, its keys split into the raw nine and the rest. */
  datatype Evidence = Evidence(raw: map<RawKey, Value>, rest: map<Key, Value>) {
    /** `this | other`: the other object's entries win. */
    function Merge(other: Evidence): Evidence {
      Evidence(raw + other.raw, rest + other.rest)
    }
  }

  datatype Env = Env(
    schemaVersion: string,
    manifestsSha: string,
    deferred: seq<string>,
    gateNames: seq<string>,
    dataNames: seq<string>,
    materialFree: Evidence -> bool,
    digest: Evidence -> string)

  datatype Outcome = Assessed(out: Evidence) | Rejected | Crashed

  const GROUPS := ["tls", "mtls", "ingress", "request_policy", "rate_limit", "health_readiness", "graceful_shutdown",
                   "runtime_policy", "network_policy"]

  const RAW_KEYS := {Phase, SchemaVersion, ExecutionMode, EnvironmentClassification, FixtureManifestsSha,
                     ObservationsKey, ProductionClaimed, MasteryComplete, DeferredItems}

  // ---------------------------------------------------------------------------------------------
  // Counting
  // ---------------------------------------------------------------------------------------------

  function Count(cs: seq<Case>, p: Case -> bool): nat {
    if cs == [] then 0 else (if p(cs[0]) then 1 else 0) + Count(cs[1..], p)
  }

  function Select(cs: seq<Case>, p: Case -> bool): seq<Case> {
    if cs == [] then [] else (if p(cs[0]) then [cs[0]] else []) + Select(cs[1..], p)
  }

  predicate AllFour(docs: seq<CaseDoc>) {
    forall i :: 0 <= i < |docs| ==> docs[i].Case4?
  }

  function Cases(docs: seq<CaseDoc>): seq<Case>
    requires AllFour(docs)
  {
    seq(|docs|, i requires 0 <= i < |docs| => docs[i].c)
  }

  /** Line 21: `[c for g in groups for c in obs[g]]`. */
  function Flatten(groups: seq<string>, obs: Observations): seq<CaseDoc>
    requires forall g :: g in groups ==> g in obs.cases
  {
    if groups == [] then [] else obs.cases[groups[0]] + Flatten(groups[1..], obs)
  }

  /** Line 30, for one group. */
  function Summary(docs: seq<CaseDoc>): Value
    requires AllFour(docs)
  {
    var cs := Cases(docs);
    Group(|cs|, Count(cs, IncorrectAllow), Count(cs, IncorrectDeny))
  }

  // ---------------------------------------------------------------------------------------------
  // assess
  // ---------------------------------------------------------------------------------------------

  function Get(rest: map<Key, Value>, key: Key): Value {
    if key in rest then rest[key] else Null
  }

  /** Lines 15-20: everything that is refused before a case is read. */
  predicate SchemaHolds(env: Env, raw: map<RawKey, Value>) {
    && raw.Keys == RAW_KEYS
    && raw[Phase] == Text("P11-D") && raw[SchemaVersion] == Text(env.schemaVersion)
    && raw[FixtureManifestsSha] == Text(env.manifestsSha)
    && !raw[ProductionClaimed].Truthy() && !raw[MasteryComplete].Truthy()
    && raw[DeferredItems] == Items(env.deferred)
  }

  predicate ObservationsHold(obs: Observations) {
    obs.cases.Keys == (set g | g in GROUPS) && obs.gates.Some?
  }

  function Share(part: int, whole: int): Value
    requires whole != 0
  {
    Rate(part, whole, part as real / whole as real)
  }

  function GroupSummaries(obs: Observations): map<Key, Value>
    requires ObservationsHold(obs) && AllFour(Flatten(GROUPS, obs))
  {
    GroupsFour(GROUPS, obs);
    map g | g in GROUPS :: GroupKey(g) := Summary(obs.cases[g])
  }

  /** The raw keys that lines 31 to 37 write. */
  function Echoed(env: Env, raw: map<RawKey, Value>): map<RawKey, Value>
    requires raw.Keys == RAW_KEYS
  {
    map[Phase := Text("P11-D"),
        SchemaVersion := Text(env.schemaVersion),
        ExecutionMode := raw[ExecutionMode],
        EnvironmentClassification := raw[EnvironmentClassification],
        FixtureManifestsSha := raw[FixtureManifestsSha],
        ProductionClaimed := Flag(false),
        MasteryComplete := Flag(false),
        DeferredItems := Items(env.deferred)]
  }

  /** Lines 23 and 24. */
  datatype Tally = Tally(attacks: nat, successes: nat, benign: nat, safeOk: nat)

  function TallyOf(cs: seq<Case>): Tally {
    var attacks, benign := Select(cs, Attack), Select(cs, Benign);
    Tally(|attacks|, Count(attacks, Allowed), |benign|, Count(benign, Allowed))
  }

  /** The other keys that lines 31 to 37 write, but for the groups. */
  function Rates(t: Tally, obs: Observations, live: bool): map<Key, Value>
    requires t.attacks != 0 && t.benign != 0
  {
    map[Asr := Share(t.successes, t.attacks),
        Fpr := Share(t.benign - t.safeOk, t.benign),
        SafeTaskRate := Share(t.safeOk, t.benign),
        RawObservations := Observed(obs),
        LiveValidated := Flag(live)]
  }

  /** Line 29. */
  predicate Live(mode: Value, gatesPass: bool, cs: seq<Case>) {
    && mode == Text("live") && gatesPass
    && TallyOf(cs).successes == 0 && TallyOf(cs).safeOk == TallyOf(cs).benign
    && forall c :: c in cs ==> c.executed
  }

  function Derived(mode: Value, obs: Observations, gatesPass: bool, cs: seq<Case>): map<Key, Value>
    requires ObservationsHold(obs) && AllFour(Flatten(GROUPS, obs))
    requires TallyOf(cs).attacks != 0 && TallyOf(cs).benign != 0
  {
    GroupSummaries(obs) + Rates(TallyOf(cs), obs, Live(mode, gatesPass, cs))
  }

  const HASH_NAMES := ["ca_sha256", "server_cert_sha256", "client_cert_sha256"]

  function GateOr(gates: map<string, Gate>, name: string, default: Gate): Gate {
    if name in gates then gates[name] else default
  }

  /** Line 27: the length of anything but a string raises, and the first wrong length settles it. */
  function HashesPass(gates: map<string, Gate>, names: seq<string>): Option<bool> {
    if names == [] then Some(true)
    else
      var v := GateOr(gates, names[0], Words(""));
      if !v.Words? then None
      else if |v.words| != 64 then Some(false)
      else HashesPass(gates, names[1..])
  }

  /** Line 28: numbers add, strings concatenate, anything else raises; a string is not comparable with 0. */
  function RatesPass(gates: map<string, Gate>): Option<bool> {
    var attempts := GateOr(gates, "rate_attempts", NoValue);
    var allowed, limited := GateOr(gates, "rate_allowed", NoValue), GateOr(gates, "rate_limited", NoValue);
    if allowed.Numeric() && limited.Numeric() then
      Some(attempts.Numeric() && attempts.AsNumber() == allowed.AsNumber() + limited.AsNumber()
        && limited.AsNumber() > 0)
    else if allowed.Words? && limited.Words? then
      if attempts == Words(allowed.words + limited.words) then None else Some(false)
    else None
  }

  /** Lines 25-28, which run in every mode; `None` when one of them raises. */
  function GatesPass(env: Env, gates: map<string, Gate>): Option<bool> {
    if gates.Keys != (set x | x in env.gateNames + env.dataNames) then Some(false)
    else
      var flags := forall x :: x in env.gateNames ==> GateOr(gates, x, NoValue) == Truth(true);
      var hashes, rates := HashesPass(gates, HASH_NAMES), RatesPass(gates);
      if hashes.None? || rates.None? then None else Some(flags && hashes.value && rates.value)
  }

  /**
   * Line 20 on what is not an observations object: `set` raises on what cannot be iterated over, and
   * tells anything else from the group names; a list of just those names gets past it and raises next.
   */
  function NotObserved(v: Value): Outcome {
    match v
    case Null => Crashed
    case Flag(_) => Crashed
    case Num(_) => Crashed
    case Items(items) =>
      if (set x | x in items) == (set g | g in GROUPS) + {"live_gates"} then Crashed else Rejected
    case _ => Rejected
  }

  /** Lines 13-40. A missing class of cases divides by zero. */
  function Assess(env: Env, input: Evidence): Outcome {
    if !SchemaHolds(env, input.raw) || input.rest != map[] then Rejected
    else if !input.raw[ObservationsKey].Observed? then NotObserved(input.raw[ObservationsKey])
    else
      var obs := input.raw[ObservationsKey].observations;
      if !ObservationsHold(obs) then Rejected
      else
        var docs := Flatten(GROUPS, obs);
        if docs == [] || !AllFour(docs) then Rejected
        else
          var cs := Cases(docs);
          var gatesPass := GatesPass(env, obs.gates.value);
          if gatesPass.None? || TallyOf(cs).attacks == 0 || TallyOf(cs).benign == 0 then Crashed
          else
            var out := Evidence(Echoed(env, input.raw), Derived(input.raw[ExecutionMode], obs, gatesPass.value, cs));
            if !env.materialFree(out) then Rejected
            else Assessed(out.(rest := out.rest[AssessmentSha := Text(env.digest(out))]))
  }

  const EXEMPT := {AssessmentSha, Preflight, CertificateMetadata}

  /** The object built on line 45. */
  function RawPart(e: Evidence): Evidence {
    Evidence(e.raw, map[])
  }

  /** Lines 43-49. */
  function Validate(env: Env, e: Evidence): Outcome {
    var recomputed := Assess(env, RawPart(e));
    if !recomputed.Assessed? then recomputed
    else
      var sha, out := Get(e.rest, AssessmentSha), recomputed.out.rest;
      if sha != Null && !sha.Same(Get(out, AssessmentSha)) then Rejected
      else if exists k :: k in e.rest.Keys - EXEMPT && !e.rest[k].Same(Get(out, k)) then Rejected
      else recomputed
  }

  lemma {:induction false} GroupsFour(groups: seq<string>, obs: Observations)
    requires forall g :: g in groups ==> g in obs.cases
    requires AllFour(Flatten(groups, obs))
    ensures forall g :: g in groups ==> AllFour(obs.cases[g])
  {
    if groups != [] {
      CasesAppend(obs.cases[groups[0]], Flatten(groups[1..], obs));
      GroupsFour(groups[1..], obs);
    }
  }

  // ---------------------------------------------------------------------------------------------
  // Conservation
  // ---------------------------------------------------------------------------------------------

  lemma {:induction false} CountAppend(a: seq<Case>, b: seq<Case>, p: Case -> bool)
    ensures Count(a + b, p) == Count(a, p) + Count(b, p)
    decreases |a|
  {
    if a == [] {
      assert a + b == b;
    } else {
      CountAppend(a[1..], b, p);
      assert (a + b)[1..] == a[1..] + b;
    }
  }

  /** Counting within a selection is counting both conditions at once. */
  lemma {:induction false} CountSelect(cs: seq<Case>, p: Case -> bool, q: Case -> bool, both: Case -> bool)
    requires forall c :: both(c) <==> p(c) && q(c)
    ensures Count(Select(cs, p), q) == Count(cs, both) && |Select(cs, p)| == Count(cs, p)
    decreases |cs|
  {
    if cs != [] {
      CountSelect(cs[1..], p, q, both);
      CountAppend(if p(cs[0]) then [cs[0]] else [], Select(cs[1..], p), q);
      assert p(cs[0]) ==> Count([cs[0]], q) == (if q(cs[0]) then 1 else 0);
    }
  }

  function SumOver(groups: seq<string>, out: map<Key, Value>, pick: Value -> int): int {
    if groups == [] then 0 else pick(Get(out, GroupKey(groups[0]))) + SumOver(groups[1..], out, pick)
  }

  function Allows(v: Value): int { if v.Group? then v.incorrectAllows else 0 }
  function Denies(v: Value): int { if v.Group? then v.incorrectDenies else 0 }
  function Size(v: Value): int { if v.Group? then v.caseCount else 0 }

  /** Concatenating case documents concatenates the cases. */
  lemma CasesAppend(a: seq<CaseDoc>, b: seq<CaseDoc>)
    requires AllFour(a + b)
    ensures AllFour(a) && AllFour(b) && Cases(a + b) == Cases(a) + Cases(b)
  {
    assert forall i :: 0 <= i < |a| ==> (a + b)[i] == a[i];
    assert forall i :: 0 <= i < |b| ==> (a + b)[|a| + i] == b[i];
  }

  lemma {:induction false} GroupTotals(groups: seq<string>, obs: Observations, out: map<Key, Value>)
    requires forall g :: g in groups ==> g in obs.cases
    requires AllFour(Flatten(groups, obs))
    requires forall g :: g in groups ==>
            && GroupKey(g) in out && AllFour(obs.cases[g])
            && out[GroupKey(g)] == Summary(obs.cases[g])
    ensures var cs := Cases(Flatten(groups, obs));
            && SumOver(groups, out, Allows) == Count(cs, IncorrectAllow)
            && SumOver(groups, out, Denies) == Count(cs, IncorrectDeny)
            && SumOver(groups, out, Size) == |cs|
    decreases |groups|
  {
    if groups != [] {
      var a, b := obs.cases[groups[0]], Flatten(groups[1..], obs);
      CasesAppend(a, b);
      GroupTotals(groups[1..], obs, out);
      CountAppend(Cases(a), Cases(b), IncorrectAllow);
      CountAppend(Cases(a), Cases(b), IncorrectDeny);
    }
  }

  /** The pieces of a successful assessment. */
  lemma AssessedParts(env: Env, input: Evidence) returns (obs: Observations, cs: seq<Case>)
    requires Assess(env, input).Assessed?
    ensures SchemaHolds(env, input.raw) && input.rest == map[] && input.raw[ObservationsKey] == Observed(obs)
    ensures ObservationsHold(obs) && AllFour(Flatten(GROUPS, obs)) && cs == Cases(Flatten(GROUPS, obs))
    ensures TallyOf(cs).attacks != 0 && TallyOf(cs).benign != 0 && GatesPass(env, obs.gates.value).Some?
    ensures var out := Evidence(Echoed(env, input.raw),
        Derived(input.raw[ExecutionMode], obs, GatesPass(env, obs.gates.value).value, cs));
            Assess(env, input).out == out.(rest := out.rest[AssessmentSha := Text(env.digest(out))])
  {
    obs := input.raw[ObservationsKey].observations;
    cs := Cases(Flatten(GROUPS, obs));
  }

  /** Every benign case was observed as one of the two expected words. */
  ghost predicate BenignDecided(cs: seq<Case>) {
    forall i :: 0 <= i < |cs| && Benign(cs[i]) ==> cs[i].observed == "ALLOW" || cs[i].observed == "DENY"
  }

  predicate BenignAllowed(c: Case) { Benign(c) && Allowed(c) }

  /** Benign cases not allowed, against benign cases denied: equal exactly when every one was decided. */
  lemma {:induction false} DeniesAgainstMisses(cs: seq<Case>)
    ensures Count(cs, BenignAllowed) + Count(cs, IncorrectDeny) <= Count(cs, Benign)
    ensures Count(cs, BenignAllowed) + Count(cs, IncorrectDeny) == Count(cs, Benign) <==> BenignDecided(cs)
    decreases |cs|
  {
    if cs != [] {
      var rest := cs[1..];
      DeniesAgainstMisses(rest);
      assert BenignDecided(cs) <==>
              && BenignDecided(rest)
              && (Benign(cs[0]) ==> cs[0].observed == "ALLOW" || cs[0].observed == "DENY") by {
        assert forall i :: 0 <= i < |rest| ==> rest[i] == cs[i + 1];
        if BenignDecided(rest) && (Benign(cs[0]) ==> cs[0].observed == "ALLOW" || cs[0].observed == "DENY") {
          forall i | 0 <= i < |cs| && Benign(cs[i])
            ensures cs[i].observed == "ALLOW" || cs[i].observed == "DENY"
          {
            if i > 0 {
              assert rest[i - 1] == cs[i];
            }
          }
        }
      }
    }
  }

  /** The tally, as counts over all cases. */
  lemma TallyCounts(cs: seq<Case>)
    ensures TallyOf(cs) == Tally(Count(cs, Attack), Count(cs, IncorrectAllow), Count(cs, Benign),
        Count(cs, BenignAllowed))
  {
    CountSelect(cs, Attack, Allowed, IncorrectAllow);
    CountSelect(cs, Benign, Allowed, BenignAllowed);
  }

  /** A group entry survives the entries written after it. */
  lemma GroupEntry(obs: Observations, t: Tally, live: bool, sha: Value, g: string)
    requires ObservationsHold(obs) && AllFour(Flatten(GROUPS, obs)) && g in GROUPS && t.attacks != 0 && t.benign != 0
    ensures var out := (GroupSummaries(obs) + Rates(t, obs, live))[AssessmentSha := sha];
            && GroupKey(g) in out && AllFour(obs.cases[g]) && out[GroupKey(g)] == Summary(obs.cases[g])
  {
    GroupsFour(GROUPS, obs);
  }

  lemma RateEntries(groups: map<Key, Value>, obs: Observations, t: Tally, live: bool, sha: Value)
    requires t.attacks != 0 && t.benign != 0
    ensures var out := (groups + Rates(t, obs, live))[AssessmentSha := sha];
            && Get(out, Asr) == Share(t.successes, t.attacks)
            && Get(out, Fpr) == Share(t.benign - t.safeOk, t.benign)
            && Get(out, SafeTaskRate) == Share(t.safeOk, t.benign)
            && Get(out, LiveValidated) == Flag(live)
  {
  }

  /**
   * Evidence accounting: the group `incorrect_allows` add up to the ASR numerator; the group
   * `incorrect_denies` add up to at most the FPR numerator, and to exactly it if and only if every
   * expected-ALLOW case was observed ALLOW or DENY; the group sizes add up to the cases; and the
   * FPR and SafeTaskRate numerators share one denominator between them.
   */
  lemma GroupsAccountForRates(env: Env, input: Evidence)
    requires Assess(env, input).Assessed?
    ensures var out := Assess(env, input).out.rest;
            var obs := input.raw[ObservationsKey].observations;
            && AllFour(Flatten(GROUPS, obs))
            && Get(out, Asr).Rate? && Get(out, Fpr).Rate? && Get(out, SafeTaskRate).Rate?
            && SumOver(GROUPS, out, Allows) == Get(out, Asr).numerator
            && SumOver(GROUPS, out, Denies) <= Get(out, Fpr).numerator
            && (SumOver(GROUPS, out, Denies) == Get(out, Fpr).numerator <==> BenignDecided(Cases(Flatten(GROUPS, obs))))
            && SumOver(GROUPS, out, Size) == |Flatten(GROUPS, obs)|
            && Get(out, Asr).denominator == Count(Cases(Flatten(GROUPS, obs)), Attack)
            && Get(out, Fpr).denominator == Get(out, SafeTaskRate).denominator
                 == Count(Cases(Flatten(GROUPS, obs)), Benign)
            && Get(out, Fpr).numerator + Get(out, SafeTaskRate).numerator == Get(out, Fpr).denominator
  {
    var obs, cs := AssessedParts(env, input);
    var out := Assess(env, input).out.rest;
    var live := Live(input.raw[ExecutionMode], GatesPass(env, obs.gates.value).value, cs);
    forall g | g in GROUPS
      ensures GroupKey(g) in out && AllFour(obs.cases[g]) && out[GroupKey(g)] == Summary(obs.cases[g])
    {
      GroupEntry(obs, TallyOf(cs), live, out[AssessmentSha], g);
    }
    GroupTotals(GROUPS, obs, out);
    RateEntries(GroupSummaries(obs), obs, TallyOf(cs), live, out[AssessmentSha]);
    TallyCounts(cs);
    DeniesAgainstMisses(cs);
  }

  lemma {:induction false} CountExtremes(cs: seq<Case>, p: Case -> bool)
    ensures Count(cs, p) <= |cs|
    ensures Count(cs, p) == 0 <==> forall c :: c in cs ==> !p(c)
    ensures Count(cs, p) == |cs| <==> forall c :: c in cs ==> p(c)
    decreases |cs|
  {
    if cs != [] {
      CountExtremes(cs[1..], p);
      assert forall c :: c in cs <==> c == cs[0] || c in cs[1..];
    }
  }

  lemma {:induction false} SelectKeeps(cs: seq<Case>, p: Case -> bool)
    ensures forall c :: c in Select(cs, p) <==> c in cs && p(c)
    decreases |cs|
  {
    if cs != [] {
      SelectKeeps(cs[1..], p);
      assert forall c :: c in cs <==> c == cs[0] || c in cs[1..];
    }
  }

  /** Every case was run, no attack got through and no benign request was turned away. */
  ghost predicate Spotless(cs: seq<Case>) {
    forall c :: c in cs ==> c.executed && (Attack(c) ==> !Allowed(c)) && (Benign(c) ==> Allowed(c))
  }

  ghost predicate IsHash(gates: map<string, Gate>, name: string) {
    name in gates && gates[name].Words? && |gates[name].words| == 64
  }

  ghost predicate IsNumber(gates: map<string, Gate>, name: string) {
    name in gates && gates[name].Numeric()
  }

  /** Every gate is there and open, the three hashes have their length, and the rate counts add up with some limited. */
  ghost predicate GatesHold(env: Env, gates: map<string, Gate>) {
    && gates.Keys == (set x | x in env.gateNames + env.dataNames)
    && (forall x :: x in env.gateNames ==> gates[x] == Truth(true))
    && IsHash(gates, "ca_sha256") && IsHash(gates, "server_cert_sha256") && IsHash(gates, "client_cert_sha256")
    && IsNumber(gates, "rate_attempts") && IsNumber(gates, "rate_allowed") && IsNumber(gates, "rate_limited")
    && gates["rate_attempts"].AsNumber() == gates["rate_allowed"].AsNumber() + gates["rate_limited"].AsNumber()
    && gates["rate_limited"].AsNumber() > 0
  }

  lemma {:induction false} HashesDecide(gates: map<string, Gate>, names: seq<string>)
    ensures HashesPass(gates, names) == Some(true) <==> forall x :: x in names ==> IsHash(gates, x)
    decreases |names|
  {
    if names != [] {
      HashesDecide(gates, names[1..]);
      var v := GateOr(gates, names[0], Words(""));
      assert IsHash(gates, names[0]) <==> v.Words? && |v.words| == 64;
      assert forall x :: x in names <==> x == names[0] || x in names[1..];
    }
  }

  lemma GatesDecide(env: Env, gates: map<string, Gate>)
    ensures GatesPass(env, gates) == Some(true) <==> GatesHold(env, gates)
  {
    HashesDecide(gates, HASH_NAMES);
    assert forall x :: x in HASH_NAMES <==> x == "ca_sha256" || x == "server_cert_sha256" || x == "client_cert_sha256";
    if gates.Keys == (set x | x in env.gateNames + env.dataNames) {
      assert forall x :: x in env.gateNames ==> x in gates;
    }
  }

  /** The live flag, read gate by gate and case by case. */
  lemma LiveIff(env: Env, input: Evidence)
    requires Assess(env, input).Assessed?
    ensures var obs := input.raw[ObservationsKey].observations;
            && AllFour(Flatten(GROUPS, obs)) && obs.gates.Some?
            && (Get(Assess(env, input).out.rest, LiveValidated) == Flag(true) <==>
                  && input.raw[ExecutionMode] == Text("live") && GatesHold(env, obs.gates.value)
                  && Spotless(Cases(Flatten(GROUPS, obs))))
  {
    var obs, cs := AssessedParts(env, input);
    SpotlessTally(cs);
    GatesDecide(env, obs.gates.value);
    var live := Live(input.raw[ExecutionMode], GatesPass(env, obs.gates.value).value, cs);
    RateEntries(GroupSummaries(obs), obs, TallyOf(cs), live, Assess(env, input).out.rest[AssessmentSha]);
  }

  lemma SpotlessTally(cs: seq<Case>)
    ensures Spotless(cs) <==>
              && TallyOf(cs).successes == 0 && TallyOf(cs).safeOk == TallyOf(cs).benign
              && forall c :: c in cs ==> c.executed
  {
    SelectKeeps(cs, Attack);
    SelectKeeps(cs, Benign);
    CountExtremes(Select(cs, Attack), Allowed);
    CountExtremes(Select(cs, Benign), Allowed);
  }

  // ---------------------------------------------------------------------------------------------
  // Validation
  // ---------------------------------------------------------------------------------------------

  /** A caller's extra keys may only repeat what is recomputed; three names are not compared here. */
  ghost predicate RepeatsOnly(rest: map<Key, Value>, out: map<Key, Value>) {
    forall k :: k in rest && k !in EXEMPT ==> rest[k].Same(Get(out, k))
  }

  /**
   * Exactly when evidence validates, and to what: the result is the assessment of its raw fields
   * alone, the recorded digest is absent or right, and every other compared key repeats it.
   */
  lemma ValidatesIff(env: Env, e: Evidence, out: Evidence)
    ensures Validate(env, e) == Assessed(out) <==>
              && Assess(env, RawPart(e)) == Assessed(out)
              && (Get(e.rest, AssessmentSha) == Null || Get(e.rest, AssessmentSha).Same(Get(out.rest, AssessmentSha)))
              && RepeatsOnly(e.rest, out.rest)
  {
  }

  /** Accepted results depend only on the raw fields: no caller-sent summary can sway one. */
  lemma OnlyRawFieldsMatter(env: Env, e: Evidence, f: Evidence)
    requires e.raw == f.raw
    ensures Validate(env, e).Assessed? && Validate(env, f).Assessed? ==>
              Validate(env, e) == Validate(env, f) == Assess(env, Evidence(e.raw, map[]))
  {
    if Validate(env, e).Assessed? {
      ValidatesIff(env, e, Validate(env, e).out);
    }
  }

  /** The two forbidden claims, spelled as the assessment spells them. */
  function Disclaimed(raw: map<RawKey, Value>): map<RawKey, Value> {
    raw[ProductionClaimed := Flag(false)][MasteryComplete := Flag(false)]
  }

  /** Merging the assessment over its input changes only how the two false claims are spelled. */
  lemma EchoDisclaims(env: Env, raw: map<RawKey, Value>)
    requires SchemaHolds(env, raw)
    ensures raw + Echoed(env, raw) + map[] == Disclaimed(raw)
  {
    assert (raw + Echoed(env, raw) + map[]).Keys == Disclaimed(raw).Keys;
  }

  lemma DisclaimedEchoes(env: Env, raw: map<RawKey, Value>)
    requires SchemaHolds(env, raw)
    ensures SchemaHolds(env, Disclaimed(raw)) && Echoed(env, Disclaimed(raw)) == Echoed(env, raw)
  {
    assert Disclaimed(raw).Keys == raw.Keys;
  }

  /** The assessment does not depend on how a false claim is spelled. */
  lemma AssessIgnoresFalsySpelling(env: Env, input: Evidence)
    requires Assess(env, input).Assessed?
    ensures Assess(env, Evidence(Disclaimed(input.raw), map[])) == Assess(env, input)
  {
    DisclaimedEchoes(env, input.raw);
  }

  /** Keys merged over nothing, with exempt extras on top, repeat what they were. */
  lemma MergedRestRepeats(out: map<Key, Value>, extra: map<Key, Value>)
    requires extra.Keys <= {Preflight, CertificateMetadata}
    ensures Get(map[] + out + extra, AssessmentSha) == Get(out, AssessmentSha) && RepeatsOnly(map[] + out + extra, out)
  {
    assert map[] + out == out;
  }

  /**
   * Round trip: evidence merged with its own assessment, and any exempt extras, validates back to that
   * assessment.
   */
  lemma MergedEvidenceValidates(env: Env, input: Evidence, extra: map<Key, Value>)
    requires extra.Keys <= {Preflight, CertificateMetadata}
    ensures Assess(env, input).Assessed? ==>
              Validate(env, input.Merge(Assess(env, input).out).Merge(Evidence(map[], extra))) == Assess(env, input)
  {
    if Assess(env, input).Assessed? {
      var out := Assess(env, input).out;
      var e := input.Merge(out).Merge(Evidence(map[], extra));
      MergedRaw(env, input, extra);
      AssessIgnoresFalsySpelling(env, input);
      MergedRestRepeats(out.rest, extra);
      ValidatesIff(env, e, out);
    }
  }

  lemma MergedRaw(env: Env, input: Evidence, extra: map<Key, Value>)
    requires Assess(env, input).Assessed?
    ensures var out := Assess(env, input).out;
            var e := input.Merge(out).Merge(Evidence(map[], extra));
            e.raw == Disclaimed(input.raw) && e.rest == map[] + out.rest + extra
  {
    var obs, cs := AssessedParts(env, input);
    EchoDisclaims(env, input.raw);
  }

  /**
   * What a caller may write under a key of validated evidence: nothing but what is recomputed,
   * except where nothing is compared.
   */
  predicate Honest(out: map<Key, Value>, key: Key, value: Value) {
    match key
    case Preflight => true
    case CertificateMetadata => true
    case AssessmentSha => value == Null || value.Same(Get(out, AssessmentSha))
    case _ => value.Same(Get(out, key))
  }

  /**
   * Forging one key: write any value under any key of merged evidence, known or not, and it validates
   * back to the same assessment if the value is honest and is rejected if not.
   */
  lemma ForgedKeyIsRejected(env: Env, input: Evidence, key: Key, value: Value)
    ensures Assess(env, input).Assessed? ==>
              var out := Assess(env, input).out;
              Validate(env, input.Merge(out).Merge(Evidence(map[], map[key := value]))) ==
                if Honest(out.rest, key, value) then Assess(env, input) else Rejected
  {
    if Assess(env, input).Assessed? {
      var out := Assess(env, input).out;
      var e := input.Merge(out).Merge(Evidence(map[], map[key := value]));
      MergedRaw(env, input, map[key := value]);
      AssessIgnoresFalsySpelling(env, input);
      ForgedRest(out.rest, key, value);
      ValidatesIff(env, e, out);
      assert RawPart(e) == Evidence(Disclaimed(input.raw), map[]);
    }
  }

  lemma ForgedRest(out: map<Key, Value>, key: Key, value: Value)
    ensures var rest := map[] + out + map[key := value];
            var sha := Get(rest, AssessmentSha);
            Honest(out, key, value) <==> (sha == Null || sha.Same(Get(out, AssessmentSha))) && RepeatsOnly(rest, out)
  {
    var rest := map[] + out + map[key := value];
    assert Get(rest, key) == value && forall k :: k != key ==> Get(rest, k) == Get(out, k);
    assert key in rest;
  }
}
