/**
 * The alert hash chain checked by `validate_evidence` in evals/p11f_detection_engineering.py and
 * written by `EventStore.persist_alert`.
 *
 * SHA-256 and the canonical JSON encoding are parameters. No digest with a fixed-width result can be
 * injective, so binding is stated as a reduction: two different accepted logs under one terminal
 * hash exhibit a collision, or a preimage of the genesis value, among the inputs actually hashed.
 */
module AlertChain {
  import opened Shared

  newtype byte = x: int | 0 <= x < 256
  type Bytes = seq<byte>
  type Hash = h: Bytes | |h| == 32 witness [0, 0, 0, 0, 0, 0, 0, 0, 0, 0, 0, 0, 0, 0, 0, 0, 0, 0, 0, 0, 0, 0, 0, 0, 0,
    0, 0, 0, 0, 0, 0, 0]

  datatype Material = Material(
    alertId: string, ruleId: string, severity: string, first: int, last: int, eventRefs: seq<string>, sequence: int)

  /** `chainHash` is `None` when the field is absent or is not a digest. */
  datatype Alert = Alert(material: Material, chainHash: Option<Hash>)

  datatype Digests = Digests(hash: Bytes -> Hash, encode: Material -> Bytes)

  datatype Verdict = Accepted | ChainMismatch | TerminalMismatch

  /** "p11f-alert-chain\0". */
  const TAG: Bytes := [112, 49, 49, 102, 45, 97, 108, 101, 114, 116, 45, 99, 104, 97, 105, 110, 0]
  const GENESIS: Hash := [0, 0, 0, 0, 0, 0, 0, 0, 0, 0, 0, 0, 0, 0, 0, 0, 0, 0, 0, 0, 0, 0, 0, 0, 0, 0, 0, 0, 0, 0, 0,
      0]

  function Preimage(d: Digests, prior: Hash, m: Material): Bytes {
    TAG + prior + d.encode(m)
  }

  function Link(d: Digests, prior: Hash, m: Material): Hash {
    d.hash(Preimage(d, prior, m))
  }

  /** The loop at 158-164, with `prior` carried along. */
  function Check(d: Digests, prior: Hash, alerts: seq<Alert>, terminal: Option<Hash>): Verdict
    decreases |alerts|
  {
    if alerts == [] then if Some(prior) == terminal then Accepted else TerminalMismatch
    else
      var expected := Link(d, prior, alerts[0].material);
      if alerts[0].chainHash != Some(expected) then ChainMismatch
      else Check(d, expected, alerts[1..], terminal)
  }

  method VerifyAlerts(d: Digests, alerts: seq<Alert>, terminal: Option<Hash>) returns (verdict: Verdict)
    ensures verdict == Check(d, GENESIS, alerts, terminal)
    ensures verdict.Accepted? <==> Genuine(d, alerts) && terminal == Some(Tip(d, Materials(alerts)))
    ensures verdict.ChainMismatch? <==> !Genuine(d, alerts)
  {
    CheckDecides(d, alerts, terminal);
    var prior := GENESIS;
    for n := 0 to |alerts|
      invariant Check(d, GENESIS, alerts, terminal) == Check(d, prior, alerts[n..], terminal)
    {
      var expected := Link(d, prior, alerts[n].material);
      assert alerts[n..][0] == alerts[n] && alerts[n..][1..] == alerts[n + 1..];
      if alerts[n].chainHash != Some(expected) {
        return ChainMismatch;
      }
      prior := expected;
    }
    if Some(prior) != terminal {
      return TerminalMismatch;
    }
    return Accepted;
  }

  // ---------------------------------------------------------------------------------------------
  // The chain as a value of its materials
  // ---------------------------------------------------------------------------------------------

  function Materials(alerts: seq<Alert>): seq<Material> {
    seq(|alerts|, i requires 0 <= i < |alerts| => alerts[i].material)
  }

  /** The hash that commits to a whole list of materials. */
  function Tip(d: Digests, ms: seq<Material>): Hash {
    if ms == [] then GENESIS else Link(d, Tip(d, ms[..|ms| - 1]), ms[|ms| - 1])
  }

  /** Every alert carries the commitment to the list up to and including it. */
  ghost predicate Genuine(d: Digests, alerts: seq<Alert>) {
    forall i :: 0 <= i < |alerts| ==> alerts[i].chainHash == Some(Tip(d, Materials(alerts)[..i + 1]))
  }

  lemma MaterialsSlice(alerts: seq<Alert>, i: nat)
    requires i < |alerts|
    ensures Materials(alerts)[..i + 1][..i] == Materials(alerts)[..i]
    ensures Materials(alerts)[..i + 1][i] == alerts[i].material
  {
  }

  /** The verifier run over `rest` after a genuine `done` decides genuineness of the whole. */
  lemma {:induction false} CheckIsGenuine(d: Digests, done: seq<Alert>, rest: seq<Alert>, terminal: Option<Hash>)
    requires Genuine(d, done)
    ensures var verdict := Check(d, Tip(d, Materials(done)), rest, terminal);
            && (verdict.ChainMismatch? <==> !Genuine(d, done + rest))
            && (verdict.Accepted? <==> Genuine(d, done + rest) && terminal == Some(Tip(d, Materials(done + rest))))
    decreases |rest|
  {
    var all := done + rest;
    if rest == [] {
      assert all == done;
    } else {
      var n, next := |done|, done + [rest[0]];
      MaterialsSlice(next, n);
      assert Materials(next)[..n] == Materials(done);
      assert Materials(next)[..n + 1] == Materials(next);
      var expected := Link(d, Tip(d, Materials(done)), rest[0].material);
      assert expected == Tip(d, Materials(next));
      GenuinePrefix(d, next, rest[1..]);
      assert next + rest[1..] == all;
      if rest[0].chainHash == Some(expected) {
        GenuineSnoc(d, done, rest[0]);
        CheckIsGenuine(d, next, rest[1..], terminal);
      } else {
        assert !Genuine(d, next) by {
          assert next[n].chainHash != Some(Tip(d, Materials(next)[..n + 1]));
        }
      }
    }
  }

  /** Acceptance is genuineness of every link plus the right terminal; a broken link is reported as such. */
  lemma CheckDecides(d: Digests, alerts: seq<Alert>, terminal: Option<Hash>)
    ensures var verdict := Check(d, GENESIS, alerts, terminal);
            && (verdict.ChainMismatch? <==> !Genuine(d, alerts))
            && (verdict.Accepted? <==> Genuine(d, alerts) && terminal == Some(Tip(d, Materials(alerts))))
  {
    assert [] + alerts == alerts && Materials([]) == [];
    CheckIsGenuine(d, [], alerts, terminal);
  }

  lemma GenuinePrefix(d: Digests, a: seq<Alert>, b: seq<Alert>)
    ensures Genuine(d, a + b) ==> Genuine(d, a)
  {
    if Genuine(d, a + b) {
      forall i | 0 <= i < |a|
        ensures a[i].chainHash == Some(Tip(d, Materials(a)[..i + 1]))
      {
        assert Materials(a + b)[..i + 1] == Materials(a)[..i + 1];
        assert (a + b)[i] == a[i];
      }
    }
  }

  lemma GenuineSnoc(d: Digests, a: seq<Alert>, x: Alert)
    requires Genuine(d, a) && x.chainHash == Some(Tip(d, Materials(a + [x])))
    ensures Genuine(d, a + [x])
  {
    var all := a + [x];
    forall i | 0 <= i < |all|
      ensures all[i].chainHash == Some(Tip(d, Materials(all)[..i + 1]))
    {
      if i < |a| {
        assert Materials(all)[..i + 1] == Materials(a)[..i + 1];
      } else {
        assert Materials(all)[..i + 1] == Materials(all);
      }
    }
  }

  // ---------------------------------------------------------------------------------------------
  // Binding
  // ---------------------------------------------------------------------------------------------

  /** The bytes hashed for position `i`. */
  ghost function HashedAt(d: Digests, ms: seq<Material>, i: nat): Bytes
    requires i < |ms|
  {
    Preimage(d, Tip(d, ms[..i]), ms[i])
  }

  /** Two different byte strings that these two logs hash to the same value. */
  ghost predicate Collision(d: Digests, a: seq<Material>, b: seq<Material>) {
    exists i, j :: 0 <= i < |a| && 0 <= j < |b| && HashedAt(d, a, i) != HashedAt(d, b, j)
                   && d.hash(HashedAt(d, a, i)) == d.hash(HashedAt(d, b, j))
  }

  /** A byte string this log hashes to the genesis value. */
  ghost predicate GenesisHit(d: Digests, a: seq<Material>) {
    exists i :: 0 <= i < |a| && d.hash(HashedAt(d, a, i)) == GENESIS
  }

  ghost predicate Broken(d: Digests, a: seq<Material>, b: seq<Material>) {
    Collision(d, a, b) || GenesisHit(d, a) || GenesisHit(d, b)
  }

  ghost predicate SameEncodings(d: Digests, a: seq<Material>, b: seq<Material>) {
    |a| == |b| && forall i :: 0 <= i < |a| ==> d.encode(a[i]) == d.encode(b[i])
  }

  /** The prior hash has a fixed width, so a preimage splits in only one way. */
  lemma PreimageSplits(d: Digests, p: Hash, x: Material, q: Hash, y: Material)
    requires Preimage(d, p, x) == Preimage(d, q, y)
    ensures p == q && d.encode(x) == d.encode(y)
  {
    var t := |TAG|;
    assert Preimage(d, p, x)[t..t + 32] == p && Preimage(d, q, y)[t..t + 32] == q;
    assert Preimage(d, p, x)[t + 32..] == d.encode(x) && Preimage(d, q, y)[t + 32..] == d.encode(y);
  }

  /** "p11f-event-chain\0", under which the store chains its events. */
  const EVENT_TAG: Bytes :=
    [112, 49, 49, 102, 45, 101, 118, 101, 110, 116, 45, 99, 104, 97, 105, 110, 0]

  /** The two chains never hash the same bytes: no alert can be passed off as an event, or the other way round. */
  lemma ChainsAreSeparate(d: Digests, prior: Hash, m: Material, event: Hash, payload: Bytes)
    ensures Preimage(d, prior, m) != EVENT_TAG + event + payload
  {
    var alert, other := Preimage(d, prior, m), EVENT_TAG + event + payload;
    assert alert[4] == 45 && alert[5] == 97 && other[5] == 101;
  }

  lemma LastHashed(d: Digests, ms: seq<Material>)
    requires ms != []
    ensures d.hash(HashedAt(d, ms, |ms| - 1)) == Tip(d, ms)
  {
  }

  /** A collision or genesis hit among prefixes is one among the whole lists. */
  lemma BrokenExtends(d: Digests, a: seq<Material>, b: seq<Material>, i: nat, j: nat)
    requires i <= |a| && j <= |b| && Broken(d, a[..i], b[..j])
    ensures Broken(d, a, b)
  {
    HashedPrefix(d, a, i);
    HashedPrefix(d, b, j);
    if Collision(d, a[..i], b[..j]) {
      var k, l :| 0 <= k < i && 0 <= l < j && HashedAt(d, a[..i], k) != HashedAt(d, b[..j], l)
                  && d.hash(HashedAt(d, a[..i], k)) == d.hash(HashedAt(d, b[..j], l));
      assert HashedAt(d, a, k) != HashedAt(d, b, l) && d.hash(HashedAt(d, a, k)) == d.hash(HashedAt(d, b, l));
    }
  }

  lemma HashedPrefix(d: Digests, ms: seq<Material>, n: nat)
    requires n <= |ms|
    ensures forall i :: 0 <= i < n ==> HashedAt(d, ms[..n], i) == HashedAt(d, ms, i)
  {
    forall i | 0 <= i < n
      ensures HashedAt(d, ms[..n], i) == HashedAt(d, ms, i)
    {
      assert ms[..n][..i] == ms[..i];
    }
  }

  lemma {:induction false} TipBinds(d: Digests, a: seq<Material>, b: seq<Material>)
    requires Tip(d, a) == Tip(d, b)
    ensures SameEncodings(d, a, b) || Broken(d, a, b)
    decreases |a|
  {
    var m, n := |a| - 1, |b| - 1;
    if a == [] && b != [] {
      LastHashed(d, b);
    } else if a != [] && b == [] {
      LastHashed(d, a);
    } else if a != [] {
      LastHashed(d, a);
      LastHashed(d, b);
      if HashedAt(d, a, m) == HashedAt(d, b, n) {
        PreimageSplits(d, Tip(d, a[..m]), a[m], Tip(d, b[..n]), b[n]);
        TipBinds(d, a[..m], b[..n]);
        if !SameEncodings(d, a[..m], b[..n]) {
          BrokenExtends(d, a, b, m, n);
        } else {
          ExtendEncodings(d, a, b);
        }
      }
    }
  }

  lemma ExtendEncodings(d: Digests, a: seq<Material>, b: seq<Material>)
    requires a != [] && b != [] && SameEncodings(d, a[..|a| - 1], b[..|b| - 1])
    requires d.encode(a[|a| - 1]) == d.encode(b[|b| - 1])
    ensures SameEncodings(d, a, b)
  {
    forall i | 0 <= i < |a|
      ensures d.encode(a[i]) == d.encode(b[i])
    {
      if i < |a| - 1 {
        assert a[i] == a[..|a| - 1][i] && b[i] == b[..|b| - 1][i];
      }
    }
  }

  ghost predicate SameAlerts(d: Digests, a: seq<Alert>, b: seq<Alert>) {
    |a| == |b| && forall i :: 0 <= i < |a| ==>
      d.encode(a[i].material) == d.encode(b[i].material) && a[i].chainHash == b[i].chainHash
  }

  /**
   * Two alert lists accepted under one terminal hash have the same length, the same encoded
   * material and the same chain hash at every position, or the digest is broken by bytes they hash.
   */
  lemma AcceptedListsAgree(d: Digests, a: seq<Alert>, b: seq<Alert>, terminal: Option<Hash>)
    requires Check(d, GENESIS, a, terminal) == Accepted && Check(d, GENESIS, b, terminal) == Accepted
    ensures Broken(d, Materials(a), Materials(b)) || SameAlerts(d, a, b)
  {
    CheckDecides(d, a, terminal);
    CheckDecides(d, b, terminal);
    GenuineListsBind(d, a, b);
  }

  lemma GenuineListsBind(d: Digests, a: seq<Alert>, b: seq<Alert>)
    requires Genuine(d, a) && Genuine(d, b) && Tip(d, Materials(a)) == Tip(d, Materials(b))
    ensures Broken(d, Materials(a), Materials(b)) || SameAlerts(d, a, b)
  {
    var ms, ns := Materials(a), Materials(b);
    TipBinds(d, ms, ns);
    if !Broken(d, ms, ns) {
      GenuineListsAgree(d, a, b);
    }
  }

  lemma GenuineListsAgree(d: Digests, a: seq<Alert>, b: seq<Alert>)
    requires Genuine(d, a) && Genuine(d, b) && SameEncodings(d, Materials(a), Materials(b))
    ensures SameAlerts(d, a, b)
  {
    var ms, ns := Materials(a), Materials(b);
    forall i | 0 <= i < |a|
      ensures d.encode(a[i].material) == d.encode(b[i].material) && a[i].chainHash == b[i].chainHash
    {
      assert d.encode(ms[i]) == d.encode(ns[i]);
      SameTips(d, ms, ns, i + 1);
    }
  }

  lemma {:induction false} SameTips(d: Digests, a: seq<Material>, b: seq<Material>, n: nat)
    requires SameEncodings(d, a, b) && n <= |a|
    ensures Tip(d, a[..n]) == Tip(d, b[..n])
  {
    if n > 0 {
      SameTips(d, a, b, n - 1);
      assert a[..n][..n - 1] == a[..n - 1] && b[..n][..n - 1] == b[..n - 1];
    }
  }

  /** Cutting alerts off the end, or adding some, never keeps the terminal hash. */
  lemma TruncationIsDetected(d: Digests, alerts: seq<Alert>, n: nat, terminal: Option<Hash>)
    requires n < |alerts| && Check(d, GENESIS, alerts, terminal) == Accepted
    ensures Check(d, GENESIS, alerts[..n], terminal) == TerminalMismatch
        || Broken(d, Materials(alerts[..n]), Materials(alerts))
  {
    CheckDecides(d, alerts, terminal);
    CheckDecides(d, alerts[..n], terminal);
    GenuinePrefix(d, alerts[..n], alerts[n..]);
    assert alerts[..n] + alerts[n..] == alerts;
    if Check(d, GENESIS, alerts[..n], terminal) == Accepted {
      TipBinds(d, Materials(alerts[..n]), Materials(alerts));
    }
  }

  // ---------------------------------------------------------------------------------------------
  // The store
  // ---------------------------------------------------------------------------------------------

  /** The table as `alert_rows` reads it: by detection sequence, rows that share one in some fixed order. */
  ghost predicate Sorted(rows: seq<Alert>) {
    forall i, j :: 0 <= i < j < |rows| ==> rows[i].material.sequence <= rows[j].material.sequence
  }

  /** The column is NOT NULL. */
  ghost predicate Stored(rows: seq<Alert>) {
    forall i :: 0 <= i < |rows| ==> rows[i].chainHash.Some?
  }

  /** A row that `ORDER BY detection_sequence DESC LIMIT 1` may return: SQL leaves ties open. */
  ghost predicate Newest(rows: seq<Alert>, top: nat) {
    top < |rows| && forall i :: 0 <= i < |rows| ==> rows[i].material.sequence <= rows[top].material.sequence
  }

  /** A place that the reading order may give to a new row. */
  ghost predicate Fits(rows: seq<Alert>, m: Material, at: nat) {
    && at <= |rows|
    && (forall i :: 0 <= i < at ==> rows[i].material.sequence <= m.sequence)
    && (forall i :: at <= i < |rows| ==> m.sequence <= rows[i].material.sequence)
  }

  /** Line 217: linked to the row the query returned, read back at `at`. */
  function Inserted(d: Digests, rows: seq<Alert>, m: Material, top: nat, at: nat): seq<Alert>
    requires rows != [] ==> top < |rows| && rows[top].chainHash.Some?
    requires at <= |rows|
  {
    var prior := if rows == [] then GENESIS else rows[top].chainHash.value;
    rows[..at] + [Alert(m, Some(Link(d, prior, m)))] + rows[at..]
  }

  /** The alert identifier is cut from the deduplication key, so the primary key decides both constraints. */
  predicate Known(rows: seq<Alert>, alertId: string) {
    exists i :: 0 <= i < |rows| && rows[i].material.alertId == alertId
  }

  class EventStore {
    const d: Digests
    var rows: seq<Alert>

    constructor (d: Digests)
      ensures this.d == d && rows == []
    {
      this.d, rows := d, [];
    }

    /** Lines 210-223: a known alert is refused and changes nothing. */
    method PersistAlert(m: Material, top: nat, at: nat) returns (created: bool)
      requires Stored(rows) && Sorted(rows) && (rows != [] ==> Newest(rows, top)) && Fits(rows, m, at)
      modifies this
      ensures created <==> !Known(old(rows), m.alertId)
      ensures rows == if created then Inserted(d, old(rows), m, top, at) else old(rows)
      ensures Stored(rows) && Sorted(rows)
    {
      if Known(rows, m.alertId) {
        return false;
      }
      var prior := if rows == [] then GENESIS else rows[top].chainHash.value;
      rows := rows[..at] + [Alert(m, Some(Link(d, prior, m)))] + rows[at..];
      return true;
    }
  }

  /** Linked to the last row and read after it, a new row keeps the chain genuine. */
  lemma AppendedRowIsGenuine(d: Digests, rows: seq<Alert>, m: Material, top: nat)
    requires Genuine(d, rows) && (rows != [] ==> top == |rows| - 1)
    ensures Stored(rows) && Genuine(d, Inserted(d, rows, m, top, |rows|))
  {
    var n, out := |rows|, Inserted(d, rows, m, top, |rows|);
    if n > 0 {
      assert Materials(rows)[..n] == Materials(rows);
    }
    assert out == rows + [out[n]];
    assert Materials(out)[..n] == Materials(rows) && Materials(out)[n] == m;
    GenuineSnoc(d, rows, out[n]);
  }

  /** What a new row linked to row `top` commits to. */
  ghost function Committed(rows: seq<Alert>, m: Material, top: nat): seq<Material>
    requires top < |rows|
  {
    Materials(rows)[..top + 1] + [m]
  }

  lemma NewRowCommits(d: Digests, rows: seq<Alert>, m: Material, top: nat, at: nat)
    requires Genuine(d, rows) && top < |rows| && at <= |rows|
    ensures Stored(rows)
    ensures var out := Inserted(d, rows, m, top, at);
            out[at].chainHash == Some(Tip(d, Committed(rows, m, top)))
  {
    var c := Committed(rows, m, top);
    assert c[..|c| - 1] == Materials(rows)[..top + 1];
  }

  /** A genuine result means the row was linked to the row it is read after. */
  lemma GenuineMeansLinkedBefore(d: Digests, rows: seq<Alert>, m: Material, top: nat, at: nat)
    requires Genuine(d, rows) && top < |rows| && at <= |rows| && Stored(rows)
        && Genuine(d, Inserted(d, rows, m, top, at))
    ensures at == top + 1 || Broken(d, Committed(rows, m, top), Materials(Inserted(d, rows, m, top, at)))
  {
    var out := Inserted(d, rows, m, top, at);
    NewRowCommits(d, rows, m, top, at);
    var c, o := Committed(rows, m, top), Materials(out);
    TipBinds(d, c, o[..at + 1]);
    if Broken(d, c, o[..at + 1]) {
      assert c[..|c|] == c;
      BrokenExtends(d, c, o, |c|, at + 1);
    }
  }

  /** A genuine result means no row is read after the new one. */
  lemma GenuineMeansLast(d: Digests, rows: seq<Alert>, m: Material, top: nat, at: nat)
    requires Genuine(d, rows) && top < |rows| && at < |rows| && Stored(rows)
        && Genuine(d, Inserted(d, rows, m, top, at))
    ensures Broken(d, Materials(rows), Materials(Inserted(d, rows, m, top, at)))
  {
    var out := Inserted(d, rows, m, top, at);
    assert out[at + 1] == rows[at];
    var r, o := Materials(rows), Materials(out);
    assert Tip(d, r[..at + 1]) == Tip(d, o[..at + 2]);
    TipBinds(d, r[..at + 1], o[..at + 2]);
    BrokenExtends(d, r, o, at + 1, at + 2);
  }

  /** The digest is broken by bytes that the old and the new table hash. */
  ghost predicate BrokenByInsert(d: Digests, rows: seq<Alert>, m: Material, top: nat, at: nat)
    requires top < |rows| && at <= |rows| && rows[top].chainHash.Some?
  {
    var out := Materials(Inserted(d, rows, m, top, at));
    Broken(d, Committed(rows, m, top), out) || Broken(d, Materials(rows), out)
  }

  /**
   * Exactly when storing one more alert keeps a genuine chain genuine: the query returned the row
   * that is read last, and the new row is read after it. The only other way is a broken digest.
   */
  lemma InsertKeepsChainIff(d: Digests, rows: seq<Alert>, m: Material, top: nat, at: nat)
    requires Genuine(d, rows) && top < |rows| && at <= |rows|
    ensures Stored(rows)
    ensures BrokenByInsert(d, rows, m, top, at)
         || (Genuine(d, Inserted(d, rows, m, top, at)) <==> top == |rows| - 1 && at == |rows|)
  {
    if top == |rows| - 1 && at == |rows| {
      AppendedRowIsGenuine(d, rows, m, top);
    } else if Genuine(d, Inserted(d, rows, m, top, at)) {
      GenuineMeansLinkedBefore(d, rows, m, top, at);
      if at < |rows| {
        GenuineMeansLast(d, rows, m, top, at);
      }
    }
  }

  /** Choices that the database may make for a new row: which newest row to return, and where to read the new one. */
  ghost predicate Allowed(rows: seq<Alert>, m: Material, top: nat, at: nat) {
    (rows != [] ==> Newest(rows, top)) && Fits(rows, m, at)
  }

  /** One row alone carries the highest sequence. */
  ghost predicate SoleNewest(rows: seq<Alert>) {
    |rows| >= 2 ==> rows[|rows| - 2].material.sequence < rows[|rows| - 1].material.sequence
  }

  /** The sequence is new and higher than all before it, and the highest one before it was used once. */
  ghost predicate Ahead(rows: seq<Alert>, m: Material) {
    SoleNewest(rows) && (rows != [] ==> rows[|rows| - 1].material.sequence < m.sequence)
  }

  lemma AheadLeavesNoChoice(rows: seq<Alert>, m: Material, top: nat, at: nat)
    requires Sorted(rows) && Ahead(rows, m) && Allowed(rows, m, top, at)
    ensures at == |rows| && (rows != [] ==> top == |rows| - 1)
  {
    if rows != [] {
      var last := rows[|rows| - 1].material.sequence;
      assert at <= |rows| - 1 ==> m.sequence <= last;
      assert last <= rows[top].material.sequence;
    }
  }

  /** The earliest place at which a row may be read. */
  lemma {:induction false} EarliestPlace(rows: seq<Alert>, m: Material) returns (at: nat)
    requires Sorted(rows)
    ensures Fits(rows, m, at) && (at < |rows| <==> rows != [] && m.sequence <= rows[|rows| - 1].material.sequence)
    decreases |rows|
  {
    var n := |rows| - 1;
    if rows == [] || rows[n].material.sequence < m.sequence {
      at := |rows|;
    } else {
      at := EarliestPlace(rows[..n], m);
      assert forall i :: 0 <= i < n ==> rows[..n][i] == rows[i];
    }
  }

  /** When the sequence is not ahead, some allowed choice is the wrong one. */
  lemma WrongChoice(rows: seq<Alert>, m: Material) returns (top: nat, at: nat)
    requires Sorted(rows) && rows != [] && !Ahead(rows, m)
    ensures Allowed(rows, m, top, at) && !(top == |rows| - 1 && at == |rows|)
  {
    var n := |rows| - 1;
    if rows[n].material.sequence < m.sequence {
      top, at := n - 1, |rows|;
    } else {
      top := n;
      at := EarliestPlace(rows, m);
    }
  }

  /**
   * In terms of what the caller holds: storing an alert keeps a genuine chain whatever the database
   * does with equal sequences if and only if its sequence exceeds all stored ones and the highest
   * stored one was used once. The only other way is a broken digest.
   */
  lemma ChainSurvivesIff(d: Digests, rows: seq<Alert>, m: Material)
    requires Genuine(d, rows) && Sorted(rows) && rows != []
    ensures Stored(rows)
    ensures (exists top: nat, at: nat :: Allowed(rows, m, top, at) && BrokenByInsert(d, rows, m, top, at))
         || (Ahead(rows, m) <==> forall top: nat, at: nat :: Allowed(rows, m, top, at) ==>
              Genuine(d, Inserted(d, rows, m, top, at)))
  {
    if Ahead(rows, m) {
      forall top: nat, at: nat | Allowed(rows, m, top, at)
        ensures Genuine(d, Inserted(d, rows, m, top, at))
      {
        AheadLeavesNoChoice(rows, m, top, at);
        AppendedRowIsGenuine(d, rows, m, top);
      }
    } else {
      var top, at := WrongChoice(rows, m);
      InsertKeepsChainIff(d, rows, m, top, at);
    }
  }

  /** A sequence that is ahead keeps the chain genuine and accepted, and the next one may be ahead again. */
  lemma PersistedChainVerifies(d: Digests, rows: seq<Alert>, m: Material, top: nat, at: nat)
    requires Genuine(d, rows) && Sorted(rows) && Ahead(rows, m) && Allowed(rows, m, top, at)
    ensures Stored(rows)
    ensures var out := Inserted(d, rows, m, top, at);
            && Genuine(d, out) && Sorted(out) && SoleNewest(out)
            && Check(d, GENESIS, out, Some(Tip(d, Materials(out)))) == Accepted
  {
    AheadLeavesNoChoice(rows, m, top, at);
    AppendedRowIsGenuine(d, rows, m, top);
    var out := Inserted(d, rows, m, top, at);
    assert out == rows + [out[|rows|]];
    CheckDecides(d, out, Some(Tip(d, Materials(out))));
  }

  /**
   * `evaluate` gives every rule that one event triggers the same sequence. The second such alert may
   * already be read before the first, and then the verifier refuses the table.
   */
  lemma SharedSequenceBreaksChain(d: Digests, rows: seq<Alert>, m: Material)
    requires Genuine(d, rows) && Sorted(rows) && rows != [] && rows[|rows| - 1].material.sequence == m.sequence
    ensures Stored(rows) && Allowed(rows, m, |rows| - 1, |rows| - 1)
    ensures var out := Inserted(d, rows, m, |rows| - 1, |rows| - 1);
            Check(d, GENESIS, out, Some(Tip(d, Materials(out)))) == ChainMismatch
              || BrokenByInsert(d, rows, m, |rows| - 1, |rows| - 1)
  {
    InsertKeepsChainIff(d, rows, m, |rows| - 1, |rows| - 1);
    var out := Inserted(d, rows, m, |rows| - 1, |rows| - 1);
    CheckDecides(d, out, Some(Tip(d, Materials(out))));
  }

  /**
   * Even when equal sequences are read back in the order of insertion, the third such alert may be
   * linked to the first.
   */
  lemma ThirdOfOneSequenceBreaksChain(d: Digests, rows: seq<Alert>, m: Material)
    requires Genuine(d, rows) && Sorted(rows) && |rows| >= 2
    requires rows[|rows| - 2].material.sequence == rows[|rows| - 1].material.sequence == m.sequence
    ensures Stored(rows) && Allowed(rows, m, |rows| - 2, |rows|)
    ensures var out := Inserted(d, rows, m, |rows| - 2, |rows|);
            Check(d, GENESIS, out, Some(Tip(d, Materials(out)))) == ChainMismatch
              || BrokenByInsert(d, rows, m, |rows| - 2, |rows|)
  {
    InsertKeepsChainIff(d, rows, m, |rows| - 2, |rows|);
    var out := Inserted(d, rows, m, |rows| - 2, |rows|);
    CheckDecides(d, out, Some(Tip(d, Materials(out))));
  }

  // ---------------------------------------------------------------------------------------------
  // Whole runs of the store
  // ---------------------------------------------------------------------------------------------

  /** What the database does with one call: the row its query returns, and the place of the new row. */
  datatype Choice = Choice(top: nat, at: nat)

  /** The table after these calls on an empty store, or `None` when the choices are not allowed. */
  ghost function Table(d: Digests, calls: seq<Material>, choices: seq<Choice>): Option<seq<Alert>>
    requires |choices| == |calls|
  {
    if calls == [] then Some([])
    else
      var n := |calls| - 1;
      var rows := Table(d, calls[..n], choices[..n]);
      if rows.None? then None else Persisted(d, rows.value, calls[n], choices[n])
  }

  ghost function Persisted(d: Digests, rows: seq<Alert>, m: Material, c: Choice): Option<seq<Alert>> {
    if Known(rows, m.alertId) then Some(rows)
    else if Stored(rows) && Allowed(rows, m, c.top, c.at) then Some(Inserted(d, rows, m, c.top, c.at))
    else None
  }

  predicate Seen(calls: seq<Material>, alertId: string) {
    exists i :: 0 <= i < |calls| && calls[i].alertId == alertId
  }

  /** The calls that create a row: the first ones under their alert identifier. */
  function Created(calls: seq<Material>): seq<Material> {
    if calls == [] then []
    else
      var n := |calls| - 1;
      Created(calls[..n]) + (if Seen(calls[..n], calls[n].alertId) then [] else [calls[n]])
  }

  predicate Increasing(ms: seq<Material>) {
    forall i, j :: 0 <= i < j < |ms| ==> ms[i].sequence < ms[j].sequence
  }

  lemma {:induction false} SeenIffCreated(calls: seq<Material>, alertId: string)
    ensures Seen(calls, alertId) <==> Seen(Created(calls), alertId)
  {
    if calls != [] {
      var n := |calls| - 1;
      var before := Created(calls[..n]);
      SeenIffCreated(calls[..n], alertId);
      SeenSnoc(calls[..n], calls[n], alertId);
      SeenSnoc(before, calls[n], alertId);
      assert calls == calls[..n] + [calls[n]] && before + [] == before;
    }
  }

  lemma SeenSnoc(calls: seq<Material>, m: Material, alertId: string)
    ensures Seen(calls + [m], alertId) <==> Seen(calls, alertId) || m.alertId == alertId
  {
    var all := calls + [m];
    assert all[|calls|] == m;
    assert forall i :: 0 <= i < |calls| ==> all[i] == calls[i];
  }

  lemma KnownIffSeen(rows: seq<Alert>, alertId: string)
    ensures Known(rows, alertId) <==> Seen(Materials(rows), alertId)
  {
    assert forall i :: 0 <= i < |rows| ==> Materials(rows)[i] == rows[i].material;
  }

  /** A table that holds increasing calls in order. */
  ghost predicate InOrder(d: Digests, rows: seq<Alert>, ms: seq<Material>) {
    Genuine(d, rows) && Materials(rows) == ms && Increasing(ms)
  }

  lemma InOrderIsSorted(d: Digests, rows: seq<Alert>, ms: seq<Material>)
    requires InOrder(d, rows, ms)
    ensures |rows| == |ms| && Sorted(rows) && SoleNewest(rows) && Stored(rows)
    ensures rows != [] ==> rows[|rows| - 1].material == ms[|ms| - 1]
  {
    assert forall i :: 0 <= i < |rows| ==> rows[i].material == ms[i];
  }

  /** Storing one more increasing alert keeps the order, whatever the database chooses. */
  lemma PersistKeepsOrder(d: Digests, rows: seq<Alert>, ms: seq<Material>, m: Material, c: Choice)
    requires InOrder(d, rows, ms) && Increasing(ms + [m]) && Stored(rows) && Allowed(rows, m, c.top, c.at)
    ensures InOrder(d, Inserted(d, rows, m, c.top, c.at), ms + [m])
  {
    InOrderIsSorted(d, rows, ms);
    assert ms != [] ==> (ms + [m])[|ms| - 1].sequence < (ms + [m])[|ms|].sequence;
    AheadLeavesNoChoice(rows, m, c.top, c.at);
    AppendedRowIsGenuine(d, rows, m, c.top);
    assert Materials(Inserted(d, rows, m, c.top, |rows|)) == ms + [m];
  }

  lemma {:induction false} CreatedGrows(calls: seq<Material>, k: nat)
    requires k <= |calls|
    ensures Created(calls[..k]) <= Created(calls)
    decreases |calls|
  {
    if k == |calls| {
      assert calls[..k] == calls;
    } else {
      var n := |calls| - 1;
      CreatedGrows(calls[..n], k);
      assert calls[..n][..k] == calls[..k];
    }
  }

  lemma {:induction false} IncreasingTable(d: Digests, calls: seq<Material>, choices: seq<Choice>)
    requires |choices| == |calls| && Increasing(Created(calls)) && Table(d, calls, choices).Some?
    ensures InOrder(d, Table(d, calls, choices).value, Created(calls))
  {
    if calls != [] {
      var n := |calls| - 1;
      var rows, before := Table(d, calls[..n], choices[..n]).value, Created(calls[..n]);
      CreatedGrows(calls, n);
      IncreasingTable(d, calls[..n], choices[..n]);
      SeenIffCreated(calls[..n], calls[n].alertId);
      KnownIffSeen(rows, calls[n].alertId);
      if Known(rows, calls[n].alertId) {
        assert before + [] == before;
      } else {
        PersistKeepsOrder(d, rows, before, calls[n], choices[n]);
      }
    }
  }

  /** Increasing calls always have an allowed choice: the only one. */
  lemma {:induction false} IncreasingTableExists(d: Digests, calls: seq<Material>) returns (choices: seq<Choice>)
    requires Increasing(Created(calls))
    ensures |choices| == |calls| && Table(d, calls, choices).Some?
  {
    choices := [];
    if calls != [] {
      var n := |calls| - 1;
      CreatedGrows(calls, n);
      var before := IncreasingTableExists(d, calls[..n]);
      IncreasingTable(d, calls[..n], before);
      var rows, ms := Table(d, calls[..n], before).value, Created(calls[..n]);
      InOrderIsSorted(d, rows, ms);
      SeenIffCreated(calls[..n], calls[n].alertId);
      KnownIffSeen(rows, calls[n].alertId);
      var c := Choice(if rows == [] then 0 else |rows| - 1, |rows|);
      if !Known(rows, calls[n].alertId) {
        LastPlaceAllowed(d, rows, ms, calls[n]);
      }
      choices := before + [c];
      assert choices[..n] == before;
    }
  }

  lemma LastPlaceAllowed(d: Digests, rows: seq<Alert>, ms: seq<Material>, m: Material)
    requires InOrder(d, rows, ms) && Increasing(ms + [m])
    ensures Allowed(rows, m, if rows == [] then 0 else |rows| - 1, |rows|)
  {
    InOrderIsSorted(d, rows, ms);
    forall i | 0 <= i < |rows|
      ensures rows[i].material.sequence <= m.sequence
    {
      assert rows[i].material == ms[i] == (ms + [m])[i] && (ms + [m])[|ms|] == m;
    }
  }

  /** The call that first breaks the increase. */
  lemma {:induction false} FirstStep(calls: seq<Material>) returns (n: nat)
    requires !Increasing(Created(calls))
    ensures n < |calls| && Increasing(Created(calls[..n])) && !Increasing(Created(calls[..n + 1]))
  {
    var k := |calls| - 1;
    assert calls[..k + 1] == calls;
    if Increasing(Created(calls[..k])) {
      n := k;
    } else {
      n := FirstStep(calls[..k]);
      assert calls[..k][..n] == calls[..n] && calls[..k][..n + 1] == calls[..n + 1];
    }
  }

  /** At some call, for some allowed choices, the digest is broken by what the insert hashes. */
  ghost predicate SomeInsertBreaks(d: Digests, calls: seq<Material>) {
    exists k, choices: seq<Choice>, c: Choice ::
      && 0 <= k < |calls| && |choices| == k && InsertBreaks(d, calls[..k], choices, calls[k], c)
  }

  ghost predicate InsertBreaks(d: Digests, calls: seq<Material>, choices: seq<Choice>, m: Material, c: Choice)
    requires |choices| == |calls|
  {
    && Table(d, calls, choices).Some?
    && var rows := Table(d, calls, choices).value;
       && Stored(rows) && rows != [] && Allowed(rows, m, c.top, c.at) && BrokenByInsert(d, rows, m, c.top, c.at)
  }

  /** After every call, whatever the database chose, the chain is genuine. */
  ghost predicate StaysGenuine(d: Digests, calls: seq<Material>) {
    forall k, choices: seq<Choice> :: 0 <= k <= |calls| && |choices| == k ==> GenuineAfter(d, calls[..k], choices)
  }

  ghost predicate GenuineAfter(d: Digests, calls: seq<Material>, choices: seq<Choice>)
    requires |choices| == |calls|
  {
    Table(d, calls, choices).Some? ==> Genuine(d, Table(d, calls, choices).value)
  }

  /** A call whose sequence is not above all created ones meets a choice that spoils the chain. */
  lemma WrongCallSpoils(d: Digests, calls: seq<Material>, n: nat)
    requires n < |calls| && Increasing(Created(calls[..n])) && !Increasing(Created(calls[..n + 1]))
    ensures SomeInsertBreaks(d, calls) || !StaysGenuine(d, calls)
  {
    var choices := IncreasingTableExists(d, calls[..n]);
    IncreasingTable(d, calls[..n], choices);
    assert calls[..n + 1] == calls[..n] + [calls[n]];
    var c := WrongInsert(d, calls[..n], choices, calls[n]);
    SpoiledAt(d, calls, n, choices, c);
  }

  lemma SpoiledAt(d: Digests, calls: seq<Material>, n: nat, choices: seq<Choice>, c: Choice)
    requires n < |calls| && |choices| == n
    ensures InsertBreaks(d, calls[..n], choices, calls[n], c) ==> SomeInsertBreaks(d, calls)
    ensures !GenuineAfter(d, calls[..n + 1], choices + [c]) ==> !StaysGenuine(d, calls)
  {
  }

  lemma WrongInsert(d: Digests, calls: seq<Material>, choices: seq<Choice>, m: Material) returns (c: Choice)
    requires |choices| == |calls| && Table(d, calls, choices).Some?
    requires InOrder(d, Table(d, calls, choices).value, Created(calls)) && !Increasing(Created(calls + [m]))
    ensures InsertBreaks(d, calls, choices, m, c) || !GenuineAfter(d, calls + [m], choices + [c])
  {
    var rows, ms := Table(d, calls, choices).value, Created(calls);
    NewCall(rows, calls, m);
    InOrderIsSorted(d, rows, ms);
    NotAhead(rows, ms, m);
    var top, at := WrongChoice(rows, m);
    c := Choice(top, at);
    InsertKeepsChainIff(d, rows, m, top, at);
    assert (calls + [m])[..|calls|] == calls && (choices + [c])[..|choices|] == choices;
  }

  lemma NewCall(rows: seq<Alert>, calls: seq<Material>, m: Material)
    requires Materials(rows) == Created(calls) && Increasing(Created(calls)) && !Increasing(Created(calls + [m]))
    ensures !Known(rows, m.alertId) && Created(calls + [m]) == Created(calls) + [m]
  {
    SeenIffCreated(calls, m.alertId);
    KnownIffSeen(rows, m.alertId);
    assert (calls + [m])[..|calls|] == calls && Created(calls) + [] == Created(calls);
  }

  lemma NotAhead(rows: seq<Alert>, ms: seq<Material>, m: Material)
    requires Materials(rows) == ms && Increasing(ms) && !Increasing(ms + [m])
    ensures rows != [] && !Ahead(rows, m)
  {
    var all := ms + [m];
    var i, j :| 0 <= i < j < |all| && all[i].sequence >= all[j].sequence;
    assert j == |ms| && (i < |ms| - 1 ==> ms[i].sequence < ms[|ms| - 1].sequence);
    assert rows[|rows| - 1].material == ms[|ms| - 1];
  }

  /**
   * Over any calls on an empty store, the chain stays genuine under every choice the database may
   * make if and only if the sequences of the created alerts strictly increase. The only other way is
   * a broken digest.
   */
  lemma StoreStaysGenuineIff(d: Digests, calls: seq<Material>)
    ensures SomeInsertBreaks(d, calls) || (StaysGenuine(d, calls) <==> Increasing(Created(calls)))
  {
    if Increasing(Created(calls)) {
      forall k, choices: seq<Choice> | 0 <= k <= |calls| && |choices| == k
        ensures GenuineAfter(d, calls[..k], choices)
      {
        CreatedGrows(calls, k);
        if Table(d, calls[..k], choices).Some? {
          IncreasingTable(d, calls[..k], choices);
        }
      }
    } else {
      var n := FirstStep(calls);
      WrongCallSpoils(d, calls, n);
    }
  }
}
