/** The append-only log every stage communicates through, and its entries (src/log.rs). */
module Logs {
  import opened Bytes
  import opened Intents

  type Commitment = Digest
  type Signature = Digest

  datatype Backend = Mock

  datatype ProofHandle = ProofHandle(backend: Backend, proof: seq<byte>, publicInputs: seq<byte>, vkeyHash: Digest)

  datatype Entry =
    | IntentReceived(intentId: IntentId, intent: Intent, receivedAt: nat)
    | IntentExpired(intentId: IntentId, guaranteeDeadline: nat, atMs: nat)
    | SlotCommitted(slot: nat, intents: seq<IntentId>, consumedUpTo: nat, commitment: Commitment, committedAt: nat)
    | SlotAttested(slot: nat, quote: seq<byte>, signature: Signature)
    | AttestFailed(slot: nat, reason: string)
    | SlotsProven(fromSlot: nat, toSlot: nat, proof: ProofHandle)
    | ProveFailed(fromSlot: nat, toSlot: nat, reason: string)

  datatype AppendResult = Appended(pos: nat) | EmptyBatch

  /** "MOCKSIG" ahead of the signed bytes. */
  function MockOver(keccak: Hash, bytes: seq<byte>): Signature {
    keccak([77, 79, 67, 75, 83, 73, 71] + bytes)
  }

  function Min(a: nat, b: nat): nat {
    if a <= b then a else b
  }

  /** What a consumer at `cursor` reads: every entry from there on, with its position. */
  function Tail(log: seq<Entry>, cursor: nat): (r: seq<(nat, Entry)>)
    ensures |r| == |log| - Min(cursor, |log|)
    ensures forall i :: 0 <= i < |r| ==> r[i] == (Min(cursor, |log|) + i, log[Min(cursor, |log|) + i])
  {
    var start := Min(cursor, |log|);
    seq(|log| - start, i requires 0 <= i < |log| - start => (start + i, log[start + i]))
  }

  /** A read comes back empty exactly at the head, and reading on from where one stopped misses and repeats nothing. */
  lemma TailSplits(log: seq<Entry>, cursor: nat, later: nat)
    requires cursor <= later <= |log|
    ensures Tail(log, cursor) == [] <==> cursor == |log|
    ensures Tail(log, cursor) == Tail(log[..later], cursor) + Tail(log, later)
  {
    var split := Tail(log[..later], cursor) + Tail(log, later);
    assert |Tail(log, cursor)| == |split|;
    forall i | 0 <= i < |split|
      ensures Tail(log, cursor)[i] == split[i]
    {
    }
  }

  /**
   * The in-memory log. `doorbell` is the watch channel's value and `rings` its version,
   * which `send_replace` advances on every call.
   */
  class MemLog {
    var entries: seq<Entry>
    var doorbell: nat
    var rings: nat

    constructor ()
      ensures entries == [] && doorbell == 0 && rings == 0
    {
      entries, doorbell, rings := [], 0, 0;
    }

    method Append(entry: Entry) returns (pos: nat)
      modifies this
      ensures entries == old(entries) + [entry]
      ensures pos == |old(entries)| && doorbell == pos && rings == old(rings) + 1
    {
      entries := entries + [entry];
      pos := |entries| - 1;
      doorbell, rings := pos, rings + 1;
    }

    method AppendBatch(batch: seq<Entry>) returns (r: AppendResult)
      modifies this
      ensures batch == [] ==> r == EmptyBatch && unchanged(this)
      ensures batch != [] ==> entries == old(entries) + batch && r == Appended(|entries| - 1)
      ensures batch != [] ==> doorbell == |entries| - 1 && rings == old(rings) + 1
    {
      if batch == [] {
        return EmptyBatch;
      }
      entries := entries + batch;
      doorbell, rings := |entries| - 1, rings + 1;
      r := Appended(|entries| - 1);
    }

    method ReadFrom(cursor: nat) returns (tail: seq<(nat, Entry)>)
      ensures tail == Tail(entries, cursor)
    {
      var start := Min(cursor, |entries|);
      tail := [];
      var i := start;
      while i < |entries|
        invariant start <= i <= |entries|
        invariant tail == Tail(entries[..i], cursor)
      {
        tail := tail + [(i, entries[i])];
        i := i + 1;
      }
      assert entries[..i] == entries;
    }

    /** Exclusive: where the next append goes. */
    function Head(): nat
      reads this
    {
      |entries|
    }
  }
}
