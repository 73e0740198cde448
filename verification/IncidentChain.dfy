/**
 * The four linked evidence logs of evals/p10i_fixture.py (signals, containment actions, recovery
 * steps, forensic artifacts), their re-chaining, and the link checks of the analyzer that reads
 * them (aegis/inference/incident_response_security.py).
 *
 * `digest_json` and `str.casefold` are parameters. What needs a collision-free digest is stated as
 * "or these logs exhibit a collision".
 */
module IncidentChain {

  datatype Signal = Signal(
    signalId: string, sequenceNo: int, signalType: string, sourceId: string, requestId: string, tenantId: string,
    sessionId: string, observedAt: int, severity: string, artifact: string, previous: string)

  datatype Action = Action(
    actionId: string, sequenceNo: int, actionType: string, targetId: string, startedAt: int, completedAt: int,
    authorization: string, result: string, previous: string)

  datatype Recovery = Recovery(
    recoveryId: string, sequenceNo: int, recoveryType: string, targetId: string, expectedGeneration: int,
    observedGeneration: int, verified: bool, completedAt: int, evidence: string, previous: string)

  datatype Forensic = Forensic(
    artifactId: string, artifactKind: string, sourceId: string, collectedAt: int, content: string, immutable: bool,
    previous: string, custody: string)

  datatype Logs = Logs(signals: seq<Signal>, actions: seq<Action>, recovery: seq<Recovery>, forensics: seq<Forensic>)

  /** The JSON objects that get digested: whole records, except that custody covers five folded fields. */
  datatype Doc =
    | SignalDoc(signal: Signal)
    | ActionDoc(action: Action)
    | RecoveryDoc(recovery: Recovery)
    | CustodyDoc(artifactId: string, artifactKind: string, sourceId: string, content: string, previous: string)

  datatype Crypto = Crypto(digest: Doc -> string, fold: string -> string)

  /** One record of any of the four logs. */
  datatype Node = S(signal: Signal) | A(action: Action) | R(recovery: Recovery) | F(forensic: Forensic) {

    function Previous(): string {
      match this
      case S(s) => s.previous
      case A(a) => a.previous
      case R(r) => r.previous
      case F(f) => f.previous
    }

    /** What the digest of this record covers. */
    function Doc(c: Crypto): Doc {
      match this
      case S(s) => SignalDoc(s)
      case A(a) => ActionDoc(a)
      case R(r) => RecoveryDoc(r)
      case F(f) => CustodyDoc(f.artifactId, f.artifactKind, f.sourceId, c.fold(f.content), c.fold(f.previous))
    }

    /** The hash the next record has to carry. */
    function Out(c: Crypto): string {
      if F? then forensic.custody else c.digest(Doc(c))
    }

    /** `dataclasses.replace` of the link, and of the custody hash where there is one. */
    function Relink(c: Crypto, previous: string): Node {
      match this
      case S(s) => S(s.(previous := previous))
      case A(a) => A(a.(previous := previous))
      case R(r) => R(r.(previous := previous))
      case F(f) =>
        var custody := c.digest(CustodyDoc(f.artifactId, f.artifactKind, f.sourceId, c.fold(f.content),
            c.fold(previous)));
        F(f.(previous := previous, custody := custody))
    }

    /** Everything but the link fields. */
    function Body(): Node {
      match this
      case S(s) => S(s.(previous := ""))
      case A(a) => A(a.(previous := ""))
      case R(r) => R(r.(previous := ""))
      case F(f) => F(f.(previous := "", custody := ""))
    }

    predicate CustodyHolds(c: Crypto) {
      F? ==> forensic.custody == c.digest(Doc(c))
    }
  }

  function Signals(l: seq<Signal>): seq<Node> { seq(|l|, i requires 0 <= i < |l| => S(l[i])) }
  function Actions(l: seq<Action>): seq<Node> { seq(|l|, i requires 0 <= i < |l| => A(l[i])) }
  function Recoveries(l: seq<Recovery>): seq<Node> { seq(|l|, i requires 0 <= i < |l| => R(l[i])) }
  function Forensics(l: seq<Forensic>): seq<Node> { seq(|l|, i requires 0 <= i < |l| => F(l[i])) }

  /** The four logs joined end to end. */
  function Nodes(l: Logs): seq<Node> {
    Signals(l.signals) + Actions(l.actions) + Recoveries(l.recovery) + Forensics(l.forensics)
  }

  // ---------------------------------------------------------------------------------------------
  // One chain
  // ---------------------------------------------------------------------------------------------

  /** Re-linking a list of records from a given hash on. */
  function Chain(c: Crypto, previous: string, nodes: seq<Node>): (out: seq<Node>)
    ensures |out| == |nodes|
    decreases |nodes|
  {
    if nodes == [] then []
    else
      var n := nodes[0].Relink(c, previous);
      [n] + Chain(c, n.Out(c), nodes[1..])
  }

  /** The hash after a list of records. */
  function After(c: Crypto, previous: string, nodes: seq<Node>): string {
    if nodes == [] then previous else nodes[|nodes| - 1].Out(c)
  }

  /** Every record carries the hash of the one before it, the first one the seed, and custody hashes are right. */
  ghost predicate Unbroken(c: Crypto, seed: string, nodes: seq<Node>) {
    && (forall i :: 0 <= i < |nodes| ==> nodes[i].Previous() == After(c, seed, nodes[..i]))
    && (forall i :: 0 <= i < |nodes| ==> nodes[i].CustodyHolds(c))
  }

  lemma RelinkFacts(c: Crypto, n: Node, previous: string)
    ensures var m := n.Relink(c, previous);
            && m.Previous() == previous && m.CustodyHolds(c) && m.Body() == n.Body()
            && m.Out(c) == c.digest(m.Doc(c))
    ensures n.Relink(c, previous) == n <==> n.Previous() == previous && n.CustodyHolds(c)
  {
  }

  lemma AfterStep(c: Crypto, seed: string, nodes: seq<Node>, i: nat)
    requires nodes != [] && i < |nodes|
    ensures i > 0 ==> After(c, seed, nodes[..i]) == After(c, nodes[0].Out(c), nodes[1..][..i - 1])
    ensures i == 0 ==> After(c, seed, nodes[..i]) == seed
  {
    if i > 1 {
      assert nodes[..i][i - 1] == nodes[1..][..i - 1][i - 2];
    }
  }

  /** A chain is unbroken when its first record is, and the rest continues from it. */
  lemma UnbrokenCons(c: Crypto, seed: string, nodes: seq<Node>)
    requires nodes != []
    ensures Unbroken(c, seed, nodes) <==>
              nodes[0].Previous() == seed && nodes[0].CustodyHolds(c) && Unbroken(c, nodes[0].Out(c), nodes[1..])
  {
    var out, rest := nodes[0].Out(c), nodes[1..];
    assert forall i :: 0 <= i < |rest| ==> rest[i] == nodes[i + 1];
    forall i | 0 <= i < |nodes|
      ensures i == 0 ==> After(c, seed, nodes[..i]) == seed
      ensures i > 0 ==> After(c, seed, nodes[..i]) == After(c, out, rest[..i - 1])
    {
      AfterStep(c, seed, nodes, i);
    }
    if Unbroken(c, out, rest) && nodes[0].Previous() == seed && nodes[0].CustodyHolds(c) {
      forall i | 0 <= i < |nodes|
        ensures nodes[i].Previous() == After(c, seed, nodes[..i]) && nodes[i].CustodyHolds(c)
      {
        assert i > 0 ==> nodes[i] == rest[i - 1];
      }
    }
    if Unbroken(c, seed, nodes) {
      forall i | 0 <= i < |rest|
        ensures rest[i].Previous() == After(c, out, rest[..i]) && rest[i].CustodyHolds(c)
      {
        assert rest[i] == nodes[i + 1];
      }
    }
  }

  lemma {:induction false} ChainIsUnbroken(c: Crypto, seed: string, nodes: seq<Node>)
    ensures Unbroken(c, seed, Chain(c, seed, nodes))
    decreases |nodes|
  {
    if nodes != [] {
      var n := nodes[0].Relink(c, seed);
      RelinkFacts(c, nodes[0], seed);
      ChainIsUnbroken(c, n.Out(c), nodes[1..]);
      var out := Chain(c, seed, nodes);
      assert out[0] == n && out[1..] == Chain(c, n.Out(c), nodes[1..]);
      UnbrokenCons(c, seed, out);
    }
  }

  lemma {:induction false} ChainKeepsBodies(c: Crypto, seed: string, nodes: seq<Node>)
    ensures forall i :: 0 <= i < |nodes| ==> Chain(c, seed, nodes)[i].Body() == nodes[i].Body()
    decreases |nodes|
  {
    if nodes != [] {
      RelinkFacts(c, nodes[0], seed);
      ChainKeepsBodies(c, nodes[0].Relink(c, seed).Out(c), nodes[1..]);
    }
  }

  /** Re-chaining is the identity exactly on unbroken chains. */
  lemma {:induction false} ChainFixesExactlyUnbroken(c: Crypto, seed: string, nodes: seq<Node>)
    ensures Chain(c, seed, nodes) == nodes <==> Unbroken(c, seed, nodes)
    decreases |nodes|
  {
    if nodes != [] {
      var n := nodes[0].Relink(c, seed);
      RelinkFacts(c, nodes[0], seed);
      UnbrokenCons(c, seed, nodes);
      ChainFixesExactlyUnbroken(c, nodes[0].Out(c), nodes[1..]);
      var out := Chain(c, seed, nodes);
      assert out == [n] + Chain(c, n.Out(c), nodes[1..]);
      assert out == nodes <==> n == nodes[0] && Chain(c, n.Out(c), nodes[1..]) == nodes[1..] by {
        assert nodes == [nodes[0]] + nodes[1..];
        assert out[0] == n && out[1..] == Chain(c, n.Out(c), nodes[1..]);
      }
    }
  }

  lemma {:induction false} ChainAppend(c: Crypto, seed: string, a: seq<Node>, b: seq<Node>)
    ensures Chain(c, seed, a + b) == Chain(c, seed, a) + Chain(c, After(c, seed, Chain(c, seed, a)), b)
    decreases |a|
  {
    if a == [] {
      assert a + b == b;
    } else {
      var n := a[0].Relink(c, seed);
      assert (a + b)[1..] == a[1..] + b;
      ChainAppend(c, n.Out(c), a[1..], b);
      var tail := Chain(c, n.Out(c), a[1..]);
      assert Chain(c, seed, a) == [n] + tail;
      assert After(c, seed, [n] + tail) == After(c, n.Out(c), tail);
    }
  }

  /** One turn of a re-chaining loop. */
  lemma ChainStep(c: Crypto, seed: string, nodes: seq<Node>, done: seq<Node>, previous: string, n: nat)
    requires n < |nodes| && Chain(c, seed, nodes) == done + Chain(c, previous, nodes[n..])
    ensures var x := nodes[n].Relink(c, previous);
            Chain(c, seed, nodes) == done + [x] + Chain(c, x.Out(c), nodes[n + 1..])
  {
    var x := nodes[n].Relink(c, previous);
    assert nodes[n..][0] == nodes[n] && nodes[n..][1..] == nodes[n + 1..];
    assert Chain(c, previous, nodes[n..]) == [x] + Chain(c, x.Out(c), nodes[n + 1..]);
  }

  /** Re-chaining twice is re-chaining once. */
  lemma ChainIsIdempotent(c: Crypto, seed: string, nodes: seq<Node>)
    ensures Chain(c, seed, Chain(c, seed, nodes)) == Chain(c, seed, nodes)
  {
    ChainIsUnbroken(c, seed, nodes);
    ChainFixesExactlyUnbroken(c, seed, Chain(c, seed, nodes));
  }

  // ---------------------------------------------------------------------------------------------
  // The four logs
  // ---------------------------------------------------------------------------------------------

  datatype Outcome = Rechained(logs: Logs) | IndexError

  /** Lines 277-282. */
  method RechainSignals(c: Crypto, seed: string, l: seq<Signal>) returns (out: seq<Signal>)
    ensures Signals(out) == Chain(c, seed, Signals(l)) && |out| == |l|
  {
    out := [];
    var previous := seed;
    for n := 0 to |l|
      invariant |out| == n && previous == After(c, seed, Signals(out))
      invariant Chain(c, seed, Signals(l)) == Signals(out) + Chain(c, previous, Signals(l)[n..])
    {
      ChainStep(c, seed, Signals(l), Signals(out), previous, n);
      var x := l[n].(previous := previous);
      assert Signals(out + [x]) == Signals(out) + [S(x)];
      out := out + [x];
      previous := c.digest(SignalDoc(x));
    }
    assert Signals(l)[|l|..] == [];
  }

  /** Lines 283-288. */
  method RechainActions(c: Crypto, seed: string, l: seq<Action>) returns (out: seq<Action>)
    ensures Actions(out) == Chain(c, seed, Actions(l)) && |out| == |l|
  {
    out := [];
    var previous := seed;
    for n := 0 to |l|
      invariant |out| == n && previous == After(c, seed, Actions(out))
      invariant Chain(c, seed, Actions(l)) == Actions(out) + Chain(c, previous, Actions(l)[n..])
    {
      ChainStep(c, seed, Actions(l), Actions(out), previous, n);
      var x := l[n].(previous := previous);
      assert Actions(out + [x]) == Actions(out) + [A(x)];
      out := out + [x];
      previous := c.digest(ActionDoc(x));
    }
    assert Actions(l)[|l|..] == [];
  }

  /** Lines 289-294. */
  method RechainRecovery(c: Crypto, seed: string, l: seq<Recovery>) returns (out: seq<Recovery>)
    ensures Recoveries(out) == Chain(c, seed, Recoveries(l)) && |out| == |l|
  {
    out := [];
    var previous := seed;
    for n := 0 to |l|
      invariant |out| == n && previous == After(c, seed, Recoveries(out))
      invariant Chain(c, seed, Recoveries(l)) == Recoveries(out) + Chain(c, previous, Recoveries(l)[n..])
    {
      ChainStep(c, seed, Recoveries(l), Recoveries(out), previous, n);
      var x := l[n].(previous := previous);
      assert Recoveries(out + [x]) == Recoveries(out) + [R(x)];
      out := out + [x];
      previous := c.digest(RecoveryDoc(x));
    }
    assert Recoveries(l)[|l|..] == [];
  }

  /** Lines 295-301. */
  method RechainForensics(c: Crypto, seed: string, l: seq<Forensic>) returns (out: seq<Forensic>)
    ensures Forensics(out) == Chain(c, seed, Forensics(l)) && |out| == |l|
  {
    out := [];
    var previous := seed;
    for n := 0 to |l|
      invariant |out| == n && previous == After(c, seed, Forensics(out))
      invariant Chain(c, seed, Forensics(l)) == Forensics(out) + Chain(c, previous, Forensics(l)[n..])
    {
      ChainStep(c, seed, Forensics(l), Forensics(out), previous, n);
      var f := l[n];
      var custody := c.digest(CustodyDoc(f.artifactId, f.artifactKind, f.sourceId, c.fold(f.content),
          c.fold(previous)));
      var item := f.(previous := previous, custody := custody);
      assert Forensics(out + [item]) == Forensics(out) + [F(item)];
      out := out + [item];
      previous := custody;
    }
    assert Forensics(l)[|l|..] == [];
  }

  /** Four chains, each started where the one before ended, are one chain over the joined logs. */
  lemma JoinLogs(c: Crypto, seed: string, l: Logs, t: Logs)
    requires t.signals != [] && t.actions != [] && t.recovery != []
    requires Signals(t.signals) == Chain(c, seed, Signals(l.signals))
    requires Actions(t.actions) == Chain(c, After(c, seed, Signals(t.signals)), Actions(l.actions))
    requires Recoveries(t.recovery) == Chain(c, After(c, seed, Actions(t.actions)), Recoveries(l.recovery))
    requires Forensics(t.forensics) == Chain(c, After(c, seed, Recoveries(t.recovery)), Forensics(l.forensics))
    ensures Nodes(t) == Chain(c, seed, Nodes(l))
  {
    var a, b, d, e := Signals(l.signals), Actions(l.actions), Recoveries(l.recovery), Forensics(l.forensics);
    ChainAppend(c, seed, a, b);
    ChainAppend(c, seed, a + b, d);
    ChainAppend(c, seed, a + b + d, e);
    assert Nodes(l) == a + b + d + e;
    assert Nodes(t) == Signals(t.signals) + Actions(t.actions) + Recoveries(t.recovery) + Forensics(t.forensics);
  }

  /**
   * Lines 272-302: each log continues from the digest of the last record before it, so an empty
   * signal, action or recovery log raises. The four loops together re-link one chain.
   */
  method Rechain(c: Crypto, seed: string, l: Logs) returns (outcome: Outcome)
    ensures outcome.IndexError? <==> l.signals == [] || l.actions == [] || l.recovery == []
    ensures outcome.Rechained? ==>
              var all, out := Nodes(l), Nodes(outcome.logs);
              && out == Chain(c, seed, all)
              && Unbroken(c, seed, out)
              && |out| == |all| && (forall i :: 0 <= i < |all| ==> out[i].Body() == all[i].Body())
              && (outcome.logs == l <==> Unbroken(c, seed, all))
  {
    var signals := RechainSignals(c, seed, l.signals);
    if signals == [] {
      return IndexError;
    }
    var actions := RechainActions(c, c.digest(SignalDoc(signals[|signals| - 1])), l.actions);
    if actions == [] {
      return IndexError;
    }
    var recovery := RechainRecovery(c, c.digest(ActionDoc(actions[|actions| - 1])), l.recovery);
    if recovery == [] {
      return IndexError;
    }
    var forensics := RechainForensics(c, c.digest(RecoveryDoc(recovery[|recovery| - 1])), l.forensics);
    var logs := Logs(signals, actions, recovery, forensics);
    JoinLogs(c, seed, l, logs);
    RechainedLogs(c, seed, l, logs);
    return Rechained(logs);
  }

  lemma RechainedLogs(c: Crypto, seed: string, l: Logs, t: Logs)
    requires Nodes(t) == Chain(c, seed, Nodes(l))
    ensures Unbroken(c, seed, Nodes(t))
    ensures forall i :: 0 <= i < |Nodes(l)| ==> Nodes(t)[i].Body() == Nodes(l)[i].Body()
    ensures t == l <==> Unbroken(c, seed, Nodes(l))
  {
    ChainIsUnbroken(c, seed, Nodes(l));
    ChainKeepsBodies(c, seed, Nodes(l));
    ChainFixesExactlyUnbroken(c, seed, Nodes(l));
    if Nodes(t) == Nodes(l) {
      NodesDetermineLogs(t, l);
    }
  }

  /** How many of the joined records are of each kind. */
  function Count(nodes: seq<Node>): (nat, nat, nat, nat) {
    if nodes == [] then (0, 0, 0, 0)
    else
      var (s, a, r, f) := Count(nodes[1..]);
      match nodes[0]
      case S(_) => (s + 1, a, r, f)
      case A(_) => (s, a + 1, r, f)
      case R(_) => (s, a, r + 1, f)
      case F(_) => (s, a, r, f + 1)
  }

  lemma {:induction false} CountAppend(x: seq<Node>, y: seq<Node>)
    ensures var (s, a, r, f), (s', a', r', f') := Count(x), Count(y);
            Count(x + y) == (s + s', a + a', r + r', f + f')
    decreases |x|
  {
    if x == [] {
      assert x + y == y;
    } else {
      CountAppend(x[1..], y);
      assert (x + y)[1..] == x[1..] + y;
    }
  }

  lemma {:induction false} CountOne(x: seq<Node>)
    ensures (forall i :: 0 <= i < |x| ==> x[i].S?) ==> Count(x) == (|x|, 0, 0, 0)
    ensures (forall i :: 0 <= i < |x| ==> x[i].A?) ==> Count(x) == (0, |x|, 0, 0)
    ensures (forall i :: 0 <= i < |x| ==> x[i].R?) ==> Count(x) == (0, 0, |x|, 0)
    ensures (forall i :: 0 <= i < |x| ==> x[i].F?) ==> Count(x) == (0, 0, 0, |x|)
    decreases |x|
  {
    if x != [] {
      CountOne(x[1..]);
    }
  }

  lemma CountNodes(l: Logs)
    ensures Count(Nodes(l)) == (|l.signals|, |l.actions|, |l.recovery|, |l.forensics|)
  {
    var a, b, d, e := Signals(l.signals), Actions(l.actions), Recoveries(l.recovery), Forensics(l.forensics);
    CountOne(a);
    CountOne(b);
    CountOne(d);
    CountOne(e);
    CountAppend(a, b);
    CountAppend(a + b, d);
    CountAppend(a + b + d, e);
  }

  /** The joined list determines the four logs. */
  lemma NodesDetermineLogs(l: Logs, m: Logs)
    requires Nodes(l) == Nodes(m)
    ensures l == m
  {
    CountNodes(l);
    CountNodes(m);
    var i, j, k := |l.signals|, |l.signals| + |l.actions|, |l.signals| + |l.actions| + |l.recovery|;
    assert Nodes(l)[..i] == Signals(l.signals) && Nodes(m)[..i] == Signals(m.signals);
    assert Nodes(l)[i..j] == Actions(l.actions) && Nodes(m)[i..j] == Actions(m.actions);
    assert Nodes(l)[j..k] == Recoveries(l.recovery) && Nodes(m)[j..k] == Recoveries(m.recovery);
    assert Nodes(l)[k..] == Forensics(l.forensics) && Nodes(m)[k..] == Forensics(m.forensics);
    SameElements(l, m);
  }

  lemma SameElements(l: Logs, m: Logs)
    requires Signals(l.signals) == Signals(m.signals) && Actions(l.actions) == Actions(m.actions)
    requires Recoveries(l.recovery) == Recoveries(m.recovery) && Forensics(l.forensics) == Forensics(m.forensics)
    ensures l == m
  {
    assert |l.signals| == |Signals(l.signals)| && |l.actions| == |Actions(l.actions)|;
    assert |l.recovery| == |Recoveries(l.recovery)| && |l.forensics| == |Forensics(l.forensics)|;
    assert l.signals == m.signals by {
      assert forall n :: 0 <= n < |l.signals| ==> l.signals[n] == Signals(l.signals)[n].signal == m.signals[n];
    }
    assert l.actions == m.actions by {
      assert forall n :: 0 <= n < |l.actions| ==> l.actions[n] == Actions(l.actions)[n].action == m.actions[n];
    }
    assert l.recovery == m.recovery by {
      assert forall n :: 0 <= n < |l.recovery| ==> l.recovery[n] == Recoveries(l.recovery)[n].recovery == m.recovery[n];
    }
    assert l.forensics == m.forensics by {
      assert forall n :: 0 <= n < |l.forensics| ==>
          l.forensics[n] == Forensics(l.forensics)[n].forensic == m.forensics[n];
    }
  }

  // ---------------------------------------------------------------------------------------------
  // Tampering
  // ---------------------------------------------------------------------------------------------

  /** Digests are lower-case hexadecimal: folding leaves them alone. */
  ghost predicate DigestsFolded(c: Crypto) {
    forall d: Doc :: c.fold(c.digest(d)) == c.digest(d)
  }

  /** Two different documents, one digested in each chain, with the same digest. */
  ghost predicate Collision(c: Crypto, a: seq<Node>, b: seq<Node>) {
    exists i, j :: 0 <= i < |a| && 0 <= j < |b| && a[i].Doc(c) != b[j].Doc(c)
                   && c.digest(a[i].Doc(c)) == c.digest(b[j].Doc(c))
  }

  /**
   * The two records differ in a field that is hashed: any field of a signal, action or recovery step
   * but its link; of a forensic artifact its id, kind or source, or its content up to case.
   */
  ghost predicate HashedFieldsDiffer(c: Crypto, x: Node, y: Node) {
    match (x, y)
    case (S(s), S(t)) => s.(previous := "") != t.(previous := "")
    case (A(a), A(b)) => a.(previous := "") != b.(previous := "")
    case (R(r), R(q)) => r.(previous := "") != q.(previous := "")
    case (F(f), F(g)) =>
      || f.artifactId != g.artifactId || f.artifactKind != g.artifactKind || f.sourceId != g.sourceId
      || c.fold(f.content) != c.fold(g.content)
    case _ => true
  }

  lemma DifferentBodiesDiffer(c: Crypto, x: Node, y: Node, previous: string)
    requires HashedFieldsDiffer(c, x, y)
    ensures x.Relink(c, previous).Doc(c) != y.Relink(c, previous).Doc(c)
  {
  }

  lemma DifferentLinksDiffer(c: Crypto, x: Node, y: Node, p: string, q: string)
    requires p != q && c.fold(p) == p && c.fold(q) == q
    ensures x.Relink(c, p).Doc(c) != y.Relink(c, q).Doc(c)
  {
  }

  lemma CollisionInTail(c: Crypto, x: Node, a: seq<Node>, y: Node, b: seq<Node>)
    requires Collision(c, a, b)
    ensures Collision(c, [x] + a, [y] + b)
  {
    var i, j :| 0 <= i < |a| && 0 <= j < |b| && a[i].Doc(c) != b[j].Doc(c)
        && c.digest(a[i].Doc(c)) == c.digest(b[j].Doc(c));
    assert ([x] + a)[i + 1] == a[i] && ([y] + b)[j + 1] == b[j];
  }

  /** From position `k` on no two links agree, and neither do the final hashes. */
  ghost predicate ApartFrom(c: Crypto, x: seq<Node>, y: seq<Node>, k: nat) {
    && |x| == |y| && x != []
    && (forall i :: k <= i < |x| ==> x[i].Previous() != y[i].Previous())
    && x[|x| - 1].Out(c) != y[|y| - 1].Out(c)
  }

  lemma ApartCons(c: Crypto, m: Node, x: seq<Node>, n: Node, y: seq<Node>, k: nat)
    requires ApartFrom(c, x, y, k)
    ensures ApartFrom(c, [m] + x, [n] + y, k + 1)
  {
    var s, t := [m] + x, [n] + y;
    forall i | k + 1 <= i < |s|
      ensures s[i].Previous() != t[i].Previous()
    {
      assert s[i] == x[i - 1] && t[i] == y[i - 1];
    }
  }

  /** Once two records put out different hashes, the rest of the chains never meet again. */
  lemma {:induction false} DivergedStaysApart(c: Crypto, p: string, q: string, a: seq<Node>, b: seq<Node>)
    requires DigestsFolded(c) && p != q && c.fold(p) == p && c.fold(q) == q && |a| == |b| && a != []
    ensures Collision(c, Chain(c, p, a), Chain(c, q, b)) || ApartFrom(c, Chain(c, p, a), Chain(c, q, b), 0)
    decreases |a|
  {
    DifferentLinksDiffer(c, a[0], b[0], p, q);
    RelinkFacts(c, a[0], p);
    RelinkFacts(c, b[0], q);
    DifferentHeads(c, p, q, a, b);
    if ApartFrom(c, Chain(c, p, a), Chain(c, q, b), 1) {
      assert Chain(c, p, a)[0].Previous() == p && Chain(c, q, b)[0].Previous() == q;
    }
  }

  /** First records with different documents: a collision right there, or later links all apart. */
  lemma {:induction false} DifferentHeads(c: Crypto, p: string, q: string, a: seq<Node>, b: seq<Node>)
    requires DigestsFolded(c) && |a| == |b| && a != []
    requires a[0].Relink(c, p).Doc(c) != b[0].Relink(c, q).Doc(c)
    ensures Collision(c, Chain(c, p, a), Chain(c, q, b)) || ApartFrom(c, Chain(c, p, a), Chain(c, q, b), 1)
    decreases |a|, 0
  {
    var m, n := a[0].Relink(c, p), b[0].Relink(c, q);
    RelinkFacts(c, a[0], p);
    RelinkFacts(c, b[0], q);
    var s, t := Chain(c, m.Out(c), a[1..]), Chain(c, n.Out(c), b[1..]);
    assert Chain(c, p, a) == [m] + s && Chain(c, q, b) == [n] + t;
    if m.Out(c) == n.Out(c) {
      CollisionAtHead(c, m, s, n, t);
    } else if |a| > 1 {
      DivergedStaysApart(c, m.Out(c), n.Out(c), a[1..], b[1..]);
      if Collision(c, s, t) {
        CollisionInTail(c, m, s, n, t);
      } else {
        ApartCons(c, m, s, n, t, 0);
      }
    }
  }

  lemma CollisionAtHead(c: Crypto, m: Node, s: seq<Node>, n: Node, t: seq<Node>)
    requires m.Doc(c) != n.Doc(c) && c.digest(m.Doc(c)) == c.digest(n.Doc(c))
    ensures Collision(c, [m] + s, [n] + t)
  {
    assert ([m] + s)[0] == m && ([n] + t)[0] == n;
  }

  /** What tampering at position `k` does to two chains. */
  ghost predicate Propagates(c: Crypto, x: seq<Node>, y: seq<Node>, k: nat)
    requires k < |x| == |y|
  {
    && x[..k] == y[..k] && x[k].Previous() == y[k].Previous()
    && (Collision(c, x, y) || ApartFrom(c, x, y, k + 1))
  }

  lemma PropagatesCons(c: Crypto, m: Node, x: seq<Node>, y: seq<Node>, k: nat)
    requires k < |x| == |y| && Propagates(c, x, y, k)
    ensures Propagates(c, [m] + x, [m] + y, k + 1)
  {
    var s, t := [m] + x, [m] + y;
    assert s[..k + 1] == [m] + x[..k] && t[..k + 1] == [m] + y[..k];
    assert s[k + 1] == x[k] && t[k + 1] == y[k];
    if Collision(c, x, y) {
      CollisionInTail(c, m, x, m, y);
    } else {
      ApartCons(c, m, x, m, y, k + 1);
    }
  }

  /**
   * Tamper propagation: change one hashed field at one position, anything after it, and re-chain.
   * Every record before that position and its own link are unchanged, and every later link and the
   * final hash change, unless the two chains exhibit a digest collision.
   */
  lemma {:induction false} TamperingPropagates(c: Crypto, seed: string, a: seq<Node>, b: seq<Node>, k: nat)
    requires DigestsFolded(c) && |a| == |b| && k < |a|
    requires a[..k] == b[..k] && HashedFieldsDiffer(c, a[k], b[k])
    ensures Propagates(c, Chain(c, seed, a), Chain(c, seed, b), k)
    decreases k
  {
    RelinkFacts(c, a[0], seed);
    RelinkFacts(c, b[0], seed);
    if k == 0 {
      DifferentBodiesDiffer(c, a[0], b[0], seed);
      DifferentHeads(c, seed, seed, a, b);
    } else {
      assert a[0] == a[..k][0] == b[..k][0] == b[0];
      assert a[1..][..k - 1] == a[..k][1..] && b[1..][..k - 1] == b[..k][1..];
      var m := a[0].Relink(c, seed);
      TamperingPropagates(c, m.Out(c), a[1..], b[1..], k - 1);
      PropagatesCons(c, m, Chain(c, m.Out(c), a[1..]), Chain(c, m.Out(c), b[1..]), k - 1);
    }
  }

  lemma SameHashedFields(c: Crypto, x: Node, y: Node, previous: string)
    requires !HashedFieldsDiffer(c, x, y)
    ensures x.Relink(c, previous).Out(c) == y.Relink(c, previous).Out(c)
    ensures x.Relink(c, previous).Previous() == y.Relink(c, previous).Previous()
  {
    assert x.S? ==> x.Relink(c, previous) == y.Relink(c, previous);
    assert x.A? ==> x.Relink(c, previous) == y.Relink(c, previous);
    assert x.R? ==> x.Relink(c, previous) == y.Relink(c, previous);
  }

  /**
   * The converse: a change at one position that touches no hashed field (of an artifact, when it was
   * collected, whether it is immutable, the case of its content) changes no link and no other record.
   */
  lemma {:induction false} UnhashedFieldsStayLocal(c: Crypto, seed: string, a: seq<Node>, b: seq<Node>, k: nat)
    requires |a| == |b| && k < |a| && !HashedFieldsDiffer(c, a[k], b[k])
    requires a[..k] == b[..k] && a[k + 1..] == b[k + 1..]
    ensures var x, y := Chain(c, seed, a), Chain(c, seed, b);
            && x[..k] == y[..k] && x[k + 1..] == y[k + 1..]
            && x[k].Previous() == y[k].Previous() && x[k].Out(c) == y[k].Out(c)
    decreases k
  {
    var m, n := a[0].Relink(c, seed), b[0].Relink(c, seed);
    var x, y := Chain(c, m.Out(c), a[1..]), Chain(c, n.Out(c), b[1..]);
    assert Chain(c, seed, a) == [m] + x && Chain(c, seed, b) == [n] + y;
    if k == 0 {
      SameHashedFields(c, a[0], b[0], seed);
      assert x == y;
    } else {
      assert a[0] == a[..k][0] == b[..k][0] == b[0];
      assert a[1..][..k - 1] == a[..k][1..] && b[1..][..k - 1] == b[..k][1..];
      assert a[1..][k..] == a[k + 1..] && b[1..][k..] == b[k + 1..];
      UnhashedFieldsStayLocal(c, m.Out(c), a[1..], b[1..], k - 1);
      LocalCons(m, x, y, k);
    }
  }

  lemma LocalCons(m: Node, x: seq<Node>, y: seq<Node>, k: nat)
    requires 1 <= k <= |x| == |y| && x[..k - 1] == y[..k - 1] && x[k..] == y[k..]
    ensures ([m] + x)[..k] == ([m] + y)[..k] && ([m] + x)[k + 1..] == ([m] + y)[k + 1..]
  {
    assert ([m] + x)[..k] == [m] + x[..k - 1] && ([m] + y)[..k] == [m] + y[..k - 1];
    assert ([m] + x)[k + 1..] == x[k..] && ([m] + y)[k + 1..] == y[k..];
  }

  /** `y` is `x` but for its link, and for its custody hash if it has one. */
  ghost predicate OnlyLinksDiffer(x: Node, y: Node) {
    match (x, y)
    case (S(s), S(t)) => t == s.(previous := t.previous)
    case (A(a), A(b)) => b == a.(previous := b.previous)
    case (R(r), R(q)) => q == r.(previous := q.previous)
    case (F(f), F(g)) => g == f.(previous := g.previous, custody := g.custody)
    case _ => false
  }

  /** Re-chaining touches links and custody hashes and no other field. */
  lemma {:induction false} ChainChangesOnlyLinks(c: Crypto, seed: string, nodes: seq<Node>)
    ensures forall i :: 0 <= i < |nodes| ==> OnlyLinksDiffer(nodes[i], Chain(c, seed, nodes)[i])
    decreases |nodes|
  {
    if nodes != [] {
      ChainChangesOnlyLinks(c, nodes[0].Relink(c, seed).Out(c), nodes[1..]);
    }
  }

  // ---------------------------------------------------------------------------------------------
  // The builders
  // ---------------------------------------------------------------------------------------------

  /** The sequence number that the builders give; forensic artifacts have none. */
  function Numbered(n: Node, number: int): Node {
    match n
    case S(s) => S(s.(sequenceNo := number))
    case A(a) => A(a.(sequenceNo := number))
    case R(r) => R(r.(sequenceNo := number))
    case F(_) => n
  }

  /** `_signals`, `_actions`, `_recovery` and `_forensics`: number, link and append each row in turn. */
  function Build(c: Crypto, previous: string, rows: seq<Node>, number: int): (out: seq<Node>)
    ensures |out| == |rows|
    decreases |rows|
  {
    if rows == [] then []
    else
      var n := Numbered(rows[0], number).Relink(c, previous);
      [n] + Build(c, n.Out(c), rows[1..], number + 1)
  }

  /** The row with its place in the list as its number, where it has one. */
  ghost predicate IsRow(row: Node, out: Node, number: int) {
    match row
    case S(s) => out.S? && OnlyLinksDiffer(S(s.(sequenceNo := number)), out)
    case A(a) => out.A? && OnlyLinksDiffer(A(a.(sequenceNo := number)), out)
    case R(r) => out.R? && OnlyLinksDiffer(R(r.(sequenceNo := number)), out)
    case F(f) => out.F? && OnlyLinksDiffer(row, out)
  }

  /** The builders number their rows from 1 and keep everything else that is not a link. */
  lemma {:induction false} BuildNumbersRows(c: Crypto, previous: string, rows: seq<Node>, number: int)
    ensures forall i :: 0 <= i < |rows| ==> IsRow(rows[i], Build(c, previous, rows, number)[i], number + i)
    decreases |rows|
  {
    if rows != [] {
      var n := Numbered(rows[0], number).Relink(c, previous);
      BuildNumbersRows(c, n.Out(c), rows[1..], number + 1);
    }
  }

  /** The loop that each of the four builders runs over its rows. */
  method BuildLog(c: Crypto, seed: string, rows: seq<Node>) returns (out: seq<Node>)
    ensures out == Build(c, seed, rows, 1)
    ensures Unbroken(c, seed, out) && Chain(c, seed, out) == out
    ensures |out| == |rows| && forall i :: 0 <= i < |rows| ==> IsRow(rows[i], out[i], i + 1)
  {
    BuildIsUnbroken(c, seed, rows, 1);
    ChainFixesExactlyUnbroken(c, seed, Build(c, seed, rows, 1));
    BuildNumbersRows(c, seed, rows, 1);
    out := [];
    var previous := seed;
    for n := 0 to |rows|
      invariant Build(c, seed, rows, 1) == out + Build(c, previous, rows[n..], n + 1)
    {
      var item := Numbered(rows[n], n + 1).Relink(c, previous);
      assert rows[n..][0] == rows[n] && rows[n..][1..] == rows[n + 1..];
      assert Build(c, previous, rows[n..], n + 1) == [item] + Build(c, item.Out(c), rows[n + 1..], n + 2);
      out := out + [item];
      previous := item.Out(c);
    }
  }

  lemma {:induction false} BuildIsUnbroken(c: Crypto, previous: string, rows: seq<Node>, number: int)
    ensures Unbroken(c, previous, Build(c, previous, rows, number))
    decreases |rows|
  {
    if rows != [] {
      var n := Numbered(rows[0], number).Relink(c, previous);
      RelinkFacts(c, Numbered(rows[0], number), previous);
      BuildIsUnbroken(c, n.Out(c), rows[1..], number + 1);
      var out := Build(c, previous, rows, number);
      assert out[0] == n && out[1..] == Build(c, n.Out(c), rows[1..], number + 1);
      UnbrokenCons(c, previous, out);
    }
  }

  lemma UnbrokenAppend(c: Crypto, seed: string, a: seq<Node>, b: seq<Node>)
    requires Unbroken(c, seed, a) && Unbroken(c, After(c, seed, a), b)
    ensures Unbroken(c, seed, a + b)
  {
    ChainFixesExactlyUnbroken(c, seed, a);
    ChainFixesExactlyUnbroken(c, After(c, seed, a), b);
    ChainAppend(c, seed, a, b);
    ChainFixesExactlyUnbroken(c, seed, a + b);
  }

  /** `_manifest`: the four builders, each started from the hash the one before ended on. */
  ghost function BuildAll(c: Crypto, seed: string, rows: Logs): seq<Node> {
    var a := Build(c, seed, Signals(rows.signals), 1);
    var b := Build(c, After(c, seed, a), Actions(rows.actions), 1);
    var d := Build(c, After(c, seed, a + b), Recoveries(rows.recovery), 1);
    var e := Build(c, After(c, seed, a + b + d), Forensics(rows.forensics), 1);
    a + b + d + e
  }

  /** What the builders produce is one unbroken chain, and re-chaining leaves it as it is. */
  lemma BuiltLogsAreFixed(c: Crypto, seed: string, rows: Logs)
    ensures Unbroken(c, seed, BuildAll(c, seed, rows))
    ensures Chain(c, seed, BuildAll(c, seed, rows)) == BuildAll(c, seed, rows)
  {
    var a := Build(c, seed, Signals(rows.signals), 1);
    BuildIsUnbroken(c, seed, Signals(rows.signals), 1);
    var b := Build(c, After(c, seed, a), Actions(rows.actions), 1);
    BuildIsUnbroken(c, After(c, seed, a), Actions(rows.actions), 1);
    UnbrokenAppend(c, seed, a, b);
    var d := Build(c, After(c, seed, a + b), Recoveries(rows.recovery), 1);
    BuildIsUnbroken(c, After(c, seed, a + b), Recoveries(rows.recovery), 1);
    UnbrokenAppend(c, seed, a + b, d);
    BuildIsUnbroken(c, After(c, seed, a + b + d), Forensics(rows.forensics), 1);
    UnbrokenAppend(c, seed, a + b + d, Build(c, After(c, seed, a + b + d), Forensics(rows.forensics), 1));
    ChainFixesExactlyUnbroken(c, seed, BuildAll(c, seed, rows));
  }

  // ---------------------------------------------------------------------------------------------
  // The analyzer's view
  // ---------------------------------------------------------------------------------------------

  /** `_same_sha`. */
  predicate SameSha(c: Crypto, a: string, b: string) {
    a != "" && b != "" && c.fold(a) == c.fold(b)
  }

  /** No SIGNAL, CONTAINMENT, RECOVERY or FORENSIC chain mismatch and no custody mismatch is reported. */
  ghost predicate LinksAccepted(c: Crypto, seed: string, nodes: seq<Node>) {
    && (forall i :: 0 <= i < |nodes| ==> SameSha(c, nodes[i].Previous(), After(c, seed, nodes[..i])))
    && (forall i :: 0 <= i < |nodes| && nodes[i].F? ==>
         SameSha(c, nodes[i].forensic.custody, c.digest(nodes[i].Doc(c))))
  }

  /** A missing link or custody hash is never accepted, not even where a digest folds to nothing. */
  lemma EmptyLinkIsRefused(c: Crypto, seed: string, nodes: seq<Node>, i: nat)
    requires i < |nodes|
    ensures nodes[i].Previous() == "" || (nodes[i].F? && nodes[i].forensic.custody == "") ==>
              !LinksAccepted(c, seed, nodes)
  {
  }

  /** Every link and custody hash is written the way digests are. */
  ghost predicate LinksFolded(c: Crypto, nodes: seq<Node>) {
    && (forall i :: 0 <= i < |nodes| ==> c.fold(nodes[i].Previous()) == nodes[i].Previous())
    && (forall i :: 0 <= i < |nodes| && nodes[i].F? ==> c.fold(nodes[i].forensic.custody) == nodes[i].forensic.custody)
  }

  ghost predicate HexDigests(c: Crypto, seed: string) {
    DigestsFolded(c) && (forall d: Doc :: c.digest(d) != "") && seed != "" && c.fold(seed) == seed
  }

  lemma UnbrokenLinksAreDigests(c: Crypto, seed: string, nodes: seq<Node>, i: nat)
    requires HexDigests(c, seed) && i <= |nodes| && forall j :: 0 <= j < |nodes| ==> nodes[j].CustodyHolds(c)
    ensures var h := After(c, seed, nodes[..i]);
            h != "" && c.fold(h) == h
  {
    if i > 0 {
      assert nodes[..i][i - 1] == nodes[i - 1];
      assert nodes[i - 1].CustodyHolds(c);
    }
  }

  lemma UnbrokenIsAccepted(c: Crypto, seed: string, nodes: seq<Node>)
    requires HexDigests(c, seed) && Unbroken(c, seed, nodes)
    ensures LinksAccepted(c, seed, nodes) && LinksFolded(c, nodes)
  {
    forall i | 0 <= i < |nodes|
      ensures nodes[i].Previous() != "" && c.fold(nodes[i].Previous()) == nodes[i].Previous()
    {
      UnbrokenLinksAreDigests(c, seed, nodes, i);
    }
  }

  lemma AcceptedFoldedIsUnbroken(c: Crypto, seed: string, nodes: seq<Node>)
    requires HexDigests(c, seed) && LinksAccepted(c, seed, nodes) && LinksFolded(c, nodes)
    ensures Unbroken(c, seed, nodes)
  {
    forall i | 0 <= i < |nodes|
      ensures nodes[i].CustodyHolds(c)
    {
    }
    forall i | 0 <= i < |nodes|
      ensures nodes[i].Previous() == After(c, seed, nodes[..i])
    {
      UnbrokenLinksAreDigests(c, seed, nodes, i);
    }
  }

  /**
   * The analyzer compares hashes case-insensitively, re-chaining byte for byte: re-chaining leaves
   * the logs alone exactly when the analyzer accepts every link and none is written in another case.
   */
  lemma FixedIffAcceptedAndFolded(c: Crypto, seed: string, nodes: seq<Node>)
    requires HexDigests(c, seed)
    ensures Chain(c, seed, nodes) == nodes <==> LinksAccepted(c, seed, nodes) && LinksFolded(c, nodes)
  {
    ChainFixesExactlyUnbroken(c, seed, nodes);
    if Unbroken(c, seed, nodes) {
      UnbrokenIsAccepted(c, seed, nodes);
    }
    if LinksAccepted(c, seed, nodes) && LinksFolded(c, nodes) {
      AcceptedFoldedIsUnbroken(c, seed, nodes);
    }
  }

  /**
   * Whatever the digest: write the first link in another case, chain any records after it, and the
   * analyzer accepts every link while re-chaining changes the log.
   */
  lemma OtherCaseLinkIsRewritten(c: Crypto, seed: string, x: Signal, rest: seq<Node>, other: string)
    requires HexDigests(c, seed) && other != "" && other != seed && c.fold(other) == seed
    ensures var first := S(x.(previous := other));
            var nodes := [first] + Chain(c, first.Out(c), rest);
            LinksAccepted(c, seed, nodes) && Chain(c, seed, nodes) != nodes
  {
    var first := S(x.(previous := other));
    var nodes := [first] + Chain(c, first.Out(c), rest);
    assert nodes[0] == first && nodes[1..] == Chain(c, first.Out(c), rest);
    ChainIsUnbroken(c, first.Out(c), rest);
    UnbrokenCons(c, other, nodes);
    forall i | 0 <= i < |nodes|
      ensures SameSha(c, nodes[i].Previous(), After(c, seed, nodes[..i]))
    {
      if i > 0 {
        assert After(c, other, nodes[..i]) == After(c, seed, nodes[..i]);
        UnbrokenLinksAreDigests(c, seed, nodes, i);
      }
    }
    assert Chain(c, seed, nodes)[0].Previous() == seed;
  }
}
