/** Slot commitments, the mock quote codec and the holder's check of a preconfirmation (src/attest.rs). */
module Attestation {
  import opened Bytes
  import opened Intents
  import opened Logs
  import opened Seqs

  // ----- commit (src/sequencer.rs) -----

  function Flat(digests: seq<Digest>): (r: seq<byte>)
    ensures |r| == 32 * |digests|
  {
    if digests == [] then [] else digests[0] + Flat(digests[1..])
  }

  lemma {:induction false} FlatInjective(x: seq<Digest>, y: seq<Digest>)
    requires Flat(x) == Flat(y)
    ensures x == y
  {
    if x != [] {
      Strip(x[0], Flat(x[1..]), y[0], Flat(y[1..]));
      FlatInjective(x[1..], y[1..]);
    }
  }

  lemma {:induction false} FlatAt(digests: seq<Digest>, k: nat)
    requires k < |digests|
    ensures Flat(digests)[32 * k..32 * k + 32] == digests[k]
  {
    var rest := Flat(digests[1..]);
    if k > 0 {
      FlatAt(digests[1..], k - 1);
      assert Flat(digests)[32 * k..32 * k + 32] == rest[32 * (k - 1)..32 * (k - 1) + 32];
    }
  }

  function CommitPreimage(slot: nat, intents: seq<IntentId>): seq<byte> {
    LE(slot, 8) + (LE(|intents|, 8) + Flat(intents))
  }

  function Commit(keccak: Hash, slot: nat, intents: seq<IntentId>): Commitment {
    keccak(CommitPreimage(slot, intents))
  }

  lemma CommitPreimageInjective(slot: u64, intents: seq<IntentId>, slot': u64, intents': seq<IntentId>)
    requires CommitPreimage(slot, intents) == CommitPreimage(slot', intents')
    ensures slot == slot' && intents == intents'
  {
    Widths();
    var n, n' := LE(|intents|, 8), LE(|intents'|, 8);
    StripLE(slot, slot', 8, n + Flat(intents), n' + Flat(intents'));
    Strip(n, Flat(intents), n', Flat(intents'));
    FlatInjective(intents, intents');
  }

  /** Equal commitments name the same slot and ordered ids, or exhibit a collision. */
  lemma CommitBinds(keccak: Hash, slot: u64, intents: seq<IntentId>, slot': u64, intents': seq<IntentId>)
    ensures Commit(keccak, slot, intents) == Commit(keccak, slot', intents') <==>
      (slot == slot' && intents == intents')
      || Collides(keccak, CommitPreimage(slot, intents), CommitPreimage(slot', intents'))
  {
    if CommitPreimage(slot, intents) == CommitPreimage(slot', intents') {
      CommitPreimageInjective(slot, intents, slot', intents');
    }
  }

  // ----- the quote codec -----

  /** "MOCKQUOTE", then the version. */
  const QUOTE_MAGIC: seq<byte> := [77, 79, 67, 75, 81, 85, 79, 84, 69]
  const QUOTE_VERSION: byte := 1
  const QUOTE_LEN: nat := 9 + 1 + 8 + 32 + 32

  datatype QuoteBody = QuoteBody(slot: u64, commitment: Commitment, measurement: Digest)

  function EncodeQuote(slot: nat, commitment: Commitment, measurement: Digest): (q: seq<byte>)
    ensures |q| == QUOTE_LEN
  {
    QUOTE_MAGIC + ([QUOTE_VERSION] + (LE(slot, 8) + (commitment + measurement)))
  }

  function DecodeQuote(bytes: seq<byte>): Option<QuoteBody> {
    if |bytes| != QUOTE_LEN || bytes[..9] != QUOTE_MAGIC || bytes[9] != QUOTE_VERSION then
      None
    else
      var body := bytes[10..];
      FromLERoundTrip(body[..8]);
      Widths();
      Some(QuoteBody(FromLE(body[..8]), body[8..40], body[40..72]))
  }

  lemma DecodeEncode(slot: u64, commitment: Commitment, measurement: Digest)
    ensures DecodeQuote(EncodeQuote(slot, commitment, measurement)) == Some(QuoteBody(slot, commitment, measurement))
  {
    var q := EncodeQuote(slot, commitment, measurement);
    var body := LE(slot, 8) + (commitment + measurement);
    assert q[..9] == QUOTE_MAGIC && q[9] == QUOTE_VERSION && q[10..] == body;
    assert body[..8] == LE(slot, 8) && body[8..40] == commitment && body[40..72] == measurement;
    Widths();
    LERoundTrip(slot, 8);
  }

  lemma EncodeDecode(bytes: seq<byte>)
    requires DecodeQuote(bytes).Some?
    ensures var b := DecodeQuote(bytes).value; EncodeQuote(b.slot, b.commitment, b.measurement) == bytes
  {
    var body := bytes[10..];
    FromLERoundTrip(body[..8]);
    assert body == body[..8] + (body[8..40] + body[40..72]);
    assert bytes == bytes[..9] + ([bytes[9]] + body);
  }

  // ----- the holder's check -----

  datatype PreconfClaim = PreconfClaim(slot: u64, commitment: Commitment, quote: seq<byte>, signature: Signature)

  datatype Verdict =
    | Accepted
    | MalformedQuote
    | SlotMismatch(claimed: nat, quoted: nat)
    | CommitmentMismatch
    | ContentsMismatch
    | UntrustedMeasurement(measurement: Digest)
    | BadSignature

  /** `verify_preconf` under a verifier pinning one build. */
  function VerifyPreconf(keccak: Hash, pinned: Digest, claim: PreconfClaim, intents: seq<IntentId>): Verdict {
    if Commit(keccak, claim.slot, intents) != claim.commitment then
      ContentsMismatch
    else
      match DecodeQuote(claim.quote)
      case None => MalformedQuote
      case Some(body) =>
        if body.slot != claim.slot then SlotMismatch(claim.slot, body.slot)
        else if body.commitment != claim.commitment then CommitmentMismatch
        else if body.measurement != pinned then UntrustedMeasurement(body.measurement)
        else if claim.signature != MockOver(keccak, body.commitment) then BadSignature
        else Accepted
  }

  /** Acceptance means: these contents, and byte for byte the pinned build's quote over them. */
  lemma AcceptedExactly(keccak: Hash, pinned: Digest, claim: PreconfClaim, intents: seq<IntentId>)
    ensures VerifyPreconf(keccak, pinned, claim, intents) == Accepted <==>
      claim.commitment == Commit(keccak, claim.slot, intents) &&
      claim.quote == EncodeQuote(claim.slot, claim.commitment, pinned) &&
      claim.signature == MockOver(keccak, claim.commitment)
  {
    DecodeEncode(claim.slot, claim.commitment, pinned);
    if DecodeQuote(claim.quote).Some? {
      EncodeDecode(claim.quote);
    }
  }

  /** One claim cannot be accepted for two contents without a collision, whatever build is pinned. */
  lemma AcceptedContentsUnique(keccak: Hash, pinned: Digest, pinned': Digest, claim: PreconfClaim,
                               intents: seq<IntentId>, intents': seq<IntentId>)
    requires VerifyPreconf(keccak, pinned, claim, intents) == Accepted
    requires VerifyPreconf(keccak, pinned', claim, intents') == Accepted
    ensures intents == intents'
      || Collides(keccak, CommitPreimage(claim.slot, intents), CommitPreimage(claim.slot, intents'))
    ensures pinned == pinned'
  {
    AcceptedExactly(keccak, pinned, claim, intents);
    AcceptedExactly(keccak, pinned', claim, intents');
    DecodeEncode(claim.slot, claim.commitment, pinned);
    DecodeEncode(claim.slot, claim.commitment, pinned');
    CommitBinds(keccak, claim.slot, intents, claim.slot, intents');
  }

  /** A claim is malformed, contents apart, exactly when its quote encodes nothing. */
  lemma MalformedExactly(keccak: Hash, pinned: Digest, claim: PreconfClaim, intents: seq<IntentId>)
    ensures VerifyPreconf(keccak, pinned, claim, intents) == ContentsMismatch
      <==> Commit(keccak, claim.slot, intents) != claim.commitment
    ensures VerifyPreconf(keccak, pinned, claim, intents) == MalformedQuote
      <==> Commit(keccak, claim.slot, intents) == claim.commitment &&
           forall slot: u64, c: Commitment, m: Digest :: EncodeQuote(slot, c, m) != claim.quote
  {
    if DecodeQuote(claim.quote).Some? {
      EncodeDecode(claim.quote);
    } else {
      forall slot: u64, c: Commitment, m: Digest
        ensures EncodeQuote(slot, c, m) != claim.quote
      {
        DecodeEncode(slot, c, m);
      }
    }
  }

  /** Over the right contents, a well-formed quote fails on the first thing wrong with it. */
  lemma QuoteVerdict(keccak: Hash, pinned: Digest, claim: PreconfClaim, intents: seq<IntentId>,
                     slot: u64, c: Commitment, m: Digest)
    requires Commit(keccak, claim.slot, intents) == claim.commitment && claim.quote == EncodeQuote(slot, c, m)
    ensures var v, same := VerifyPreconf(keccak, pinned, claim, intents), slot == claim.slot && c == claim.commitment;
      (slot != claim.slot ==> v == SlotMismatch(claim.slot, slot)) &&
      (slot == claim.slot && c != claim.commitment ==> v == CommitmentMismatch) &&
      (same && m != pinned ==> v == UntrustedMeasurement(m)) &&
      (same && m == pinned ==>
         v == if claim.signature == MockOver(keccak, claim.commitment) then Accepted else BadSignature)
  {
    DecodeEncode(slot, c, m);
  }

  // ----- which bytes are which field -----

  lemma CommitLayout(slot: nat, intents: seq<IntentId>, k: nat)
    ensures var p := CommitPreimage(slot, intents);
      |p| == 16 + 32 * |intents| && HasAt(p, 0, LE(slot, 8)) && HasAt(p, 8, LE(|intents|, 8)) &&
      (k < |intents| ==> HasAt(p, 16 + 32 * k, intents[k]))
  {
    var p := CommitPreimage(slot, intents);
    if k < |intents| {
      FlatAt(intents, k);
      assert p[16..] == Flat(intents);
      assert p[16 + 32 * k..16 + 32 * k + 32] == p[16..][32 * k..32 * k + 32];
    }
  }

  lemma QuoteLayout(slot: nat, commitment: Commitment, measurement: Digest)
    ensures var q := EncodeQuote(slot, commitment, measurement);
      |q| == 82 && HasAt(q, 0, Ascii("MOCKQUOTE")) && q[9] == 1 && HasAt(q, 10, LE(slot, 8)) &&
      HasAt(q, 18, commitment) && HasAt(q, 50, measurement)
  {
    var q := EncodeQuote(slot, commitment, measurement);
    assert QUOTE_MAGIC == Ascii("MOCKQUOTE");
    assert q[10..] == LE(slot, 8) + (commitment + measurement);
  }

  lemma SignatureLayout(keccak: Hash, bytes: seq<byte>)
    ensures MockOver(keccak, bytes) == keccak(Ascii("MOCKSIG") + bytes)
  {
    assert [77, 79, 67, 75, 83, 73, 71] == Ascii("MOCKSIG");
  }

  // ----- the enclave and the attester's ruling -----

  datatype EnclaveResult = Quoted(quote: seq<byte>, signature: Signature) | Refused(reason: string)

  /** The mock enclave of one build; `down` is the reason it gives when it fails this slot. */
  function MockAttest(keccak: Hash, measurement: Digest, down: Option<string>,
                      slot: nat, intents: seq<IntentId>, commitment: Commitment): EnclaveResult {
    if down.Some? then Refused(down.value)
    else if Commit(keccak, slot, intents) != commitment then Refused("commitment mismatch inside enclave")
    else Quoted(EncodeQuote(slot, commitment, measurement), MockOver(keccak, commitment))
  }

  /** What the attester writes about one committed slot. */
  function Ruling(keccak: Hash, measurement: Digest, down: Option<string>, e: Entry): (r: Entry)
    requires e.SlotCommitted?
    ensures (r.SlotAttested? || r.AttestFailed?) && r.slot == e.slot
  {
    if Commit(keccak, e.slot, e.intents) != e.commitment then
      AttestFailed(e.slot, "commitment mismatch")
    else
      match MockAttest(keccak, measurement, down, e.slot, e.intents, e.commitment)
      case Quoted(quote, signature) => SlotAttested(e.slot, quote, signature)
      case Refused(reason) => AttestFailed(e.slot, reason)
  }

  /**
   * A slot is attested exactly when its recorded commitment is genuine and the enclave answers,
   * and then the evidence passes the holder's check for that slot's ids and that build.
   */
  lemma RulingSound(keccak: Hash, measurement: Digest, down: Option<string>, e: Entry)
    requires e.SlotCommitted? && e.slot < U64
    ensures var r := Ruling(keccak, measurement, down, e);
      && (r.SlotAttested? <==> e.commitment == Commit(keccak, e.slot, e.intents) && down.None?)
      && (r.AttestFailed? ==>
            r.reason == if e.commitment == Commit(keccak, e.slot, e.intents) then down.value else "commitment mismatch")
      && (r.SlotAttested? ==>
            VerifyPreconf(keccak, measurement, PreconfClaim(e.slot, e.commitment, r.quote, r.signature), e.intents)
            == Accepted)
  {
    var r := Ruling(keccak, measurement, down, e);
    if r.SlotAttested? {
      AcceptedExactly(keccak, measurement, PreconfClaim(e.slot, e.commitment, r.quote, r.signature), e.intents);
    }
  }
}
