/** The mock proof backend: statement, proof and check (src/prove/mod.rs). */
module Proofs {
  import opened Bytes
  import opened Intents
  import opened Logs
  import opened Attestation

  datatype CommittedSlot = CommittedSlot(slot: nat, intents: seq<IntentId>, commitment: Commitment)

  const MOCK_VKEY_HASH: Digest :=
    [0xAA, 0xAA, 0xAA, 0xAA, 0xAA, 0xAA, 0xAA, 0xAA, 0xAA, 0xAA, 0xAA, 0xAA, 0xAA, 0xAA, 0xAA, 0xAA,
     0xAA, 0xAA, 0xAA, 0xAA, 0xAA, 0xAA, 0xAA, 0xAA, 0xAA, 0xAA, 0xAA, 0xAA, 0xAA, 0xAA, 0xAA, 0xAA]

  function Commitments(slots: seq<CommittedSlot>): (r: seq<Commitment>)
    ensures |r| == |slots| && forall i :: 0 <= i < |slots| ==> r[i] == slots[i].commitment
  {
    seq(|slots|, i requires 0 <= i < |slots| => slots[i].commitment)
  }

  function Statement(slots: seq<CommittedSlot>): seq<byte> {
    Flat(Commitments(slots))
  }

  function Chain(keccak: Hash, slots: seq<CommittedSlot>): seq<byte> {
    keccak(Statement(slots))
  }

  datatype ProveResult = Proof(handle: ProofHandle) | Failure(reason: string)

  /** Does some range the mock refuses meet `[from, to]`? */
  predicate Refuses(failRanges: seq<(nat, nat)>, from: nat, to: nat) {
    exists r :: r in failRanges && from <= r.1 && r.0 <= to
  }

  function Handle(keccak: Hash, slots: seq<CommittedSlot>): ProofHandle {
    ProofHandle(Mock, Chain(keccak, slots), Statement(slots), MOCK_VKEY_HASH)
  }

  function MockProve(keccak: Hash, failRanges: seq<(nat, nat)>, slots: seq<CommittedSlot>): ProveResult
    requires slots != []
  {
    if Refuses(failRanges, slots[0].slot, slots[|slots| - 1].slot) then Failure("mock failure")
    else Proof(Handle(keccak, slots))
  }

  datatype ProofVerdict = Valid | WrongBackend | WrongVerifyingKey | WrongStatement | Invalid

  function MockVerify(keccak: Hash, handle: ProofHandle, slots: seq<CommittedSlot>): ProofVerdict {
    if handle.backend != Mock then WrongBackend
    else if handle.vkeyHash != MOCK_VKEY_HASH then WrongVerifyingKey
    else if handle.publicInputs != Statement(slots) then WrongStatement
    else if handle.proof != Chain(keccak, slots) then Invalid
    else Valid
  }

  /** A handle is valid for a batch if and only if it is, to the byte, what proving that batch gives. */
  lemma ValidExactly(keccak: Hash, h: ProofHandle, b: seq<CommittedSlot>)
    requires b != []
    ensures MockVerify(keccak, h, b) == Valid <==> MockProve(keccak, [], b) == Proof(h)
  {
  }

  /** What an honest handle holds: the commitments in order, their hash, and a key of 32 bytes 0xAA. */
  lemma HonestHandle(keccak: Hash, failRanges: seq<(nat, nat)>, b: seq<CommittedSlot>, k: nat)
    requires b != [] && MockProve(keccak, failRanges, b).Proof?
    ensures var h := MockProve(keccak, failRanges, b).handle;
      h.backend == Mock && |h.publicInputs| == 32 * |b| && h.proof == keccak(h.publicInputs) &&
      (k < |b| ==> h.publicInputs[32 * k..32 * k + 32] == b[k].commitment) &&
      (k < 32 ==> h.vkeyHash[k] == 0xAA)
  {
    if k < |b| {
      FlatAt(Commitments(b), k);
    }
  }

  /** Each failure names the first part of a handle that differs from the honest one. */
  lemma VerdictsExactly(keccak: Hash, h: ProofHandle, b: seq<CommittedSlot>)
    requires b != []
    ensures var honest := MockProve(keccak, [], b).handle;
      (MockVerify(keccak, h, b) == WrongVerifyingKey <==> h.vkeyHash != honest.vkeyHash) &&
      (MockVerify(keccak, h, b) == WrongStatement <==>
         h.vkeyHash == honest.vkeyHash && h.publicInputs != honest.publicInputs) &&
      (MockVerify(keccak, h, b) == Invalid <==>
         h.vkeyHash == honest.vkeyHash && h.publicInputs == honest.publicInputs && h.proof != honest.proof)
  {
  }

  ghost predicate ToldToFail(failRanges: seq<(nat, nat)>, slot: nat) {
    exists r :: r in failRanges && r.0 <= slot <= r.1
  }

  /** The mock refuses a batch exactly when one of its slots lies in a range it was told to fail. */
  lemma RefusesExactly(failRanges: seq<(nat, nat)>, from: nat, to: nat)
    requires from <= to && forall r :: r in failRanges ==> r.0 <= r.1
    ensures Refuses(failRanges, from, to) <==> exists k: nat :: from <= k <= to && ToldToFail(failRanges, k)
  {
    if Refuses(failRanges, from, to) {
      var r :| r in failRanges && from <= r.1 && r.0 <= to;
      var k := if from <= r.0 then r.0 else from;
      assert from <= k <= to && ToldToFail(failRanges, k);
    }
  }

  /** A proof of one batch is accepted for another exactly when the recorded commitments agree in order. */
  lemma ProofCarriesExactly(keccak: Hash, failRanges: seq<(nat, nat)>, a: seq<CommittedSlot>, b: seq<CommittedSlot>)
    requires a != [] && MockProve(keccak, failRanges, a).Proof?
    ensures MockVerify(keccak, MockProve(keccak, failRanges, a).handle, b) == Valid
      <==> Commitments(a) == Commitments(b)
    ensures Commitments(a) != Commitments(b) ==>
      MockVerify(keccak, MockProve(keccak, failRanges, a).handle, b) == WrongStatement
  {
    if Statement(a) == Statement(b) {
      FlatInjective(Commitments(a), Commitments(b));
    }
  }

  /** A proof of one slot's ids is accepted for any others recorded under the same commitment. */
  lemma OtherContentsAccepted(keccak: Hash, slot: nat, x: seq<IntentId>, y: seq<IntentId>, c: Commitment)
    ensures var a, b := [CommittedSlot(slot, x, c)], [CommittedSlot(slot, y, c)];
      MockProve(keccak, [], a).Proof? && MockVerify(keccak, MockProve(keccak, [], a).handle, b) == Valid
  {
    var a, b := [CommittedSlot(slot, x, c)], [CommittedSlot(slot, y, c)];
    assert Commitments(a) == Commitments(b);
    ProofCarriesExactly(keccak, [], a, b);
  }

  predicate Genuine(keccak: Hash, slots: seq<CommittedSlot>) {
    forall s :: s in slots ==> s.slot < U64 && s.commitment == Commit(keccak, s.slot, s.intents)
  }

  predicate SameContents(a: seq<CommittedSlot>, b: seq<CommittedSlot>) {
    |a| == |b| && forall i :: 0 <= i < |a| ==> a[i].slot == b[i].slot && a[i].intents == b[i].intents
  }

  /** Some slot of each batch, in the same place, hash alike without being alike. */
  ghost predicate SlotsCollide(keccak: Hash, a: seq<CommittedSlot>, b: seq<CommittedSlot>) {
    exists i :: 0 <= i < |a| && i < |b| &&
      Collides(keccak, CommitPreimage(a[i].slot, a[i].intents), CommitPreimage(b[i].slot, b[i].intents))
  }

  /** Over genuine commitments an accepted proof pins slots and ordered ids, or a collision is at hand. */
  lemma ProofPinsContents(keccak: Hash, failRanges: seq<(nat, nat)>, a: seq<CommittedSlot>, b: seq<CommittedSlot>)
    requires a != [] && MockProve(keccak, failRanges, a).Proof?
    requires Genuine(keccak, a) && Genuine(keccak, b)
    requires MockVerify(keccak, MockProve(keccak, failRanges, a).handle, b) == Valid
    ensures |a| == |b|
    ensures SameContents(a, b) || SlotsCollide(keccak, a, b)
  {
    ProofCarriesExactly(keccak, failRanges, a, b);
    assert |Commitments(a)| == |Commitments(b)|;
    if !SameContents(a, b) {
      var i :| 0 <= i < |a| && !(a[i].slot == b[i].slot && a[i].intents == b[i].intents);
      assert a[i] in a && b[i] in b;
      assert Commitments(a)[i] == Commitments(b)[i];
      CommitBinds(keccak, a[i].slot, a[i].intents, b[i].slot, b[i].intents);
    }
  }
}
