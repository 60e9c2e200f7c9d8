/**
 * The hash-chained ledger and its verifier (src/engine/db_adapter.py, src/db/hashchain.py,
 * scripts/verify_chain.py).
 *
 * A payload's canonical JSON is taken to determine the payload. The hash is a function of
 * the previous digest and the payload; where a statement needs it, an injective one.
 */
module Ledger {
  import opened Basics

  type Digest = nat

  const GENESIS_HASH: Digest := 0

  /** A datetime: microseconds on its own clock face, and how far that face is ahead of UTC, if it says. */
  datatype Moment = Moment(face: int, offset: Option<int>)

  /** What the hash covers: the event, of which the time matters here, and the decision. */
  datatype Payload = Payload(event: string, firedAt: Moment, decision: string)

  type Hash = (Digest, Payload) -> Digest

  /** A row of `raw_events`; the time is stored in UTC milliseconds. */
  datatype Row = Row(number: nat, event: string, firedAtMs: int, decision: string, prevHash: Digest, rowHash: Digest)

  // ---- writing --------------------------------------------------------------------------------

  /** `_iso`: a face that does not say is taken for UTC, and the last three digits are dropped. */
  function StoredMs(m: Moment): int {
    (m.face - m.offset.GetOr(0)) / 1000
  }

  function NextSeq(ledger: seq<Row>): nat {
    if ledger == [] then 1 else ledger[|ledger| - 1].number + 1
  }

  function LastHash(ledger: seq<Row>): Digest {
    if ledger == [] then GENESIS_HASH else ledger[|ledger| - 1].rowHash
  }

  /** The append in `persist_decision`. */
  function Appended(hash: Hash, ledger: seq<Row>, p: Payload): seq<Row> {
    var prev := LastHash(ledger);
    ledger + [Row(NextSeq(ledger), p.event, StoredMs(p.firedAt), p.decision, prev, hash(prev, p))]
  }

  ghost function Written(hash: Hash, payloads: seq<Payload>): seq<Row> {
    if payloads == [] then []
    else Appended(hash, Written(hash, payloads[..|payloads| - 1]), payloads[|payloads| - 1])
  }

  /** The stored time is the event's in UTC, rounded down to the millisecond. */
  lemma StoredRoundsDown(m: Moment)
    ensures var utc := if m.offset.Some? then m.face - m.offset.value else m.face;
            StoredMs(m) * 1000 <= utc < StoredMs(m) * 1000 + 1000
  {
  }

  // ---- verifying ------------------------------------------------------------------------------

  /** The payload as the verifier rebuilds it from a row. */
  function Rebuilt(row: Row): Payload {
    Payload(row.event, Moment(row.firedAtMs * 1000, Some(0)), row.decision)
  }

  /** Row `k` carries on from the row before, and its hash is that of what it says. */
  ghost predicate Holds(hash: Hash, ledger: seq<Row>, k: nat)
    requires k < |ledger|
  {
    && ledger[k].prevHash == LastHash(ledger[..k])
    && ledger[k].rowHash == hash(ledger[k].prevHash, Rebuilt(ledger[k]))
  }

  ghost predicate Verifies(hash: Hash, ledger: seq<Row>) {
    forall k :: 0 <= k < |ledger| ==> Holds(hash, ledger, k)
  }

  /** `main`: the first row that does not hold, if any. */
  method Verify(hash: Hash, ledger: seq<Row>) returns (tampered: Option<nat>)
    ensures tampered.None? <==> Verifies(hash, ledger)
    ensures tampered.Some? ==>
              && tampered.value < |ledger| && !Holds(hash, ledger, tampered.value)
              && Verifies(hash, ledger[..tampered.value])
  {
    var expected, k := GENESIS_HASH, 0;
    while k < |ledger|
      invariant 0 <= k <= |ledger| && expected == LastHash(ledger[..k])
      invariant Verifies(hash, ledger[..k])
    {
      var row := ledger[k];
      if row.prevHash != expected || hash(row.prevHash, Rebuilt(row)) != row.rowHash {
        assert !Holds(hash, ledger, k);
        return Some(k);
      }
      VerifiesOneMore(hash, ledger, k);
      expected := row.rowHash;
      k := k + 1;
    }
    assert ledger[..k] == ledger;
    tampered := None;
  }

  lemma VerifiesOneMore(hash: Hash, ledger: seq<Row>, k: nat)
    requires k < |ledger| && Verifies(hash, ledger[..k])
    ensures Verifies(hash, ledger[..k + 1]) <==> Holds(hash, ledger, k)
  {
    var front, longer := ledger[..k], ledger[..k + 1];
    assert longer[..k] == front;
    forall i | 0 <= i < k ensures Holds(hash, longer, i) {
      assert Holds(hash, front, i);
      assert longer[..i] == front[..i];
    }
    if Verifies(hash, longer) { assert Holds(hash, longer, k); }
  }

  // ---- writer and verifier ----------------------------------------------------------------------

  ghost predicate Injective(hash: Hash) {
    forall p: Digest, q: Digest, x: Payload, y: Payload :: hash(p, x) == hash(q, y) ==> p == q && x == y
  }

  /** A time the stored column loses nothing of: UTC, in whole milliseconds. */
  predicate Exact(m: Moment) {
    m.offset == Some(0) && m.face % 1000 == 0
  }

  lemma ExactIsRebuilt(m: Moment)
    ensures Moment(StoredMs(m) * 1000, Some(0)) == m <==> Exact(m)
  {
  }

  /** Row `k` as the writer leaves it for payload `k`. */
  ghost predicate Records(hash: Hash, ledger: seq<Row>, k: nat, p: Payload)
    requires k < |ledger|
  {
    var row := ledger[k];
    && row.number == k + 1
    && row.prevHash == LastHash(ledger[..k])
    && row.rowHash == hash(row.prevHash, p)
    && Rebuilt(row) == p.(firedAt := Moment(StoredMs(p.firedAt) * 1000, Some(0)))
  }

  lemma {:induction false} WrittenRows(hash: Hash, payloads: seq<Payload>)
    ensures |Written(hash, payloads)| == |payloads|
    ensures forall k :: 0 <= k < |payloads| ==> Records(hash, Written(hash, payloads), k, payloads[k])
  {
    if payloads != [] {
      var n := |payloads| - 1;
      WrittenRows(hash, payloads[..n]);
      var before, after := Written(hash, payloads[..n]), Written(hash, payloads);
      assert NextSeq(before) == n + 1 by {
        if n > 0 { assert Records(hash, before, n - 1, payloads[n - 1]); }
      }
      forall k | 0 <= k < |payloads| ensures Records(hash, after, k, payloads[k]) {
        assert after[..k] == before[..k];
        if k < n { assert Records(hash, before, k, payloads[..n][k]); } else { assert before[..n] == before; }
      }
    }
  }

  /** The verifier accepts what the writer wrote exactly if every event's time was UTC in whole milliseconds. */
  lemma WrittenVerifiesIfExact(hash: Hash, payloads: seq<Payload>)
    requires Injective(hash)
    ensures Verifies(hash, Written(hash, payloads)) <==> forall k :: 0 <= k < |payloads| ==> Exact(payloads[k].firedAt)
  {
    WrittenRows(hash, payloads);
    var ledger := Written(hash, payloads);
    forall k | 0 <= k < |payloads| ensures Holds(hash, ledger, k) <==> Exact(payloads[k].firedAt) {
      assert Records(hash, ledger, k, payloads[k]);
      ExactIsRebuilt(payloads[k].firedAt);
      assert hash(ledger[k].prevHash, Rebuilt(ledger[k])) == hash(ledger[k].prevHash, payloads[k]) ==>
               Rebuilt(ledger[k]) == payloads[k];
    }
  }

  /** A time of one and a half milliseconds, or one told on a clock an hour ahead, is enough to be refused. */
  lemma RefusedTimes(hash: Hash, event: string, decision: string)
    requires Injective(hash)
    ensures !Verifies(hash, Written(hash, [Payload(event, Moment(1500, Some(0)), decision)]))
    ensures !Verifies(hash, Written(hash, [Payload(event, Moment(3600000000, Some(3600000000)), decision)]))
    ensures !Verifies(hash, Written(hash, [Payload(event, Moment(2000, None), decision)]))
    ensures Verifies(hash, Written(hash, [Payload(event, Moment(2000, Some(0)), decision)]))
  {
    WrittenVerifiesIfExact(hash, [Payload(event, Moment(1500, Some(0)), decision)]);
    WrittenVerifiesIfExact(hash, [Payload(event, Moment(3600000000, Some(3600000000)), decision)]);
    WrittenVerifiesIfExact(hash, [Payload(event, Moment(2000, None), decision)]);
    WrittenVerifiesIfExact(hash, [Payload(event, Moment(2000, Some(0)), decision)]);
    assert !Exact([Payload(event, Moment(1500, Some(0)), decision)][0].firedAt);
    assert !Exact([Payload(event, Moment(3600000000, Some(3600000000)), decision)][0].firedAt);
    assert !Exact([Payload(event, Moment(2000, None), decision)][0].firedAt);
  }

  /** Rows are numbered from one without gaps. */
  lemma RowsAreNumbered(hash: Hash, payloads: seq<Payload>, k: nat)
    requires k < |payloads|
    ensures k < |Written(hash, payloads)| && Written(hash, payloads)[k].number == k + 1
  {
    WrittenRows(hash, payloads);
    assert Records(hash, Written(hash, payloads), k, payloads[k]);
  }

  // ---- what acceptance means ----------------------------------------------------------------------

  lemma VerifiedFront(hash: Hash, ledger: seq<Row>, n: nat)
    requires Verifies(hash, ledger) && n <= |ledger|
    ensures Verifies(hash, ledger[..n])
  {
    forall k | 0 <= k < n ensures Holds(hash, ledger[..n], k) {
      assert Holds(hash, ledger, k);
      assert ledger[..n][..k] == ledger[..k];
    }
  }

  /** Two accepted ledgers of one length that end in the same hash say the same in every row. */
  lemma {:induction false} LastHashFixesAll(hash: Hash, one: seq<Row>, other: seq<Row>)
    requires Injective(hash) && Verifies(hash, one) && Verifies(hash, other)
    requires |one| == |other| && LastHash(one) == LastHash(other)
    ensures forall k :: 0 <= k < |one| ==>
              && Rebuilt(one[k]) == Rebuilt(other[k])
              && one[k].rowHash == other[k].rowHash && one[k].prevHash == other[k].prevHash
    decreases |one|
  {
    if one != [] {
      var n := |one| - 1;
      assert Holds(hash, one, n) && Holds(hash, other, n);
      VerifiedFront(hash, one, n);
      VerifiedFront(hash, other, n);
      LastHashFixesAll(hash, one[..n], other[..n]);
    }
  }

  /** So no row of an accepted ledger can be changed in what it says, and the ledger still be accepted with its last hash. */
  lemma ChangesShow(hash: Hash, ledger: seq<Row>, changed: seq<Row>, k: nat)
    requires Injective(hash) && Verifies(hash, ledger)
    requires |changed| == |ledger| && LastHash(changed) == LastHash(ledger)
    requires k < |ledger| && Rebuilt(changed[k]) != Rebuilt(ledger[k])
    ensures !Verifies(hash, changed)
  {
    if Verifies(hash, changed) { LastHashFixesAll(hash, ledger, changed); }
  }
}
