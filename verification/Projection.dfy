/** The read model (`Projections`, src/projection.rs): an incremental fold of the log. */
module Projection {
  import opened Bytes
  import opened Intents
  import opened Logs
  import opened Seqs
  import opened Guarantees

  datatype SlotStage = StageCommitted | StagePreconfirmed | StageProven | StageFailed(reason: string)

  datatype Preconf = Preconf(quote: seq<byte>, signature: Signature)

  datatype ProvenRange = ProvenRange(fromSlot: nat, toSlot: nat, handle: ProofHandle)

  datatype SlotRow = SlotRow(
    committedAt: nat, commitment: Commitment, stage: SlotStage, preconf: Option<Preconf>, proof: Option<ProvenRange>)

  datatype IntentRow = IntentRow(
    position: nat, receivedAt: nat, deadlineMs: nat,
    slot: Option<nat>, index: Option<nat>, expired: Option<(nat, nat)>)

  datatype View = View(intents: map<IntentId, IntentRow>, slots: map<nat, SlotRow>, cursor: nat)

  const EMPTY_VIEW: View := View(map[], map[], 0)

  /** The rank is stored in 32 bits. */
  function Rank(i: nat): nat {
    i % 0x1_0000_0000
  }

  function Assign(rows: map<IntentId, IntentRow>, id: IntentId, slot: nat, i: nat): map<IntentId, IntentRow> {
    if id in rows then rows[id := rows[id].(slot := Some(slot), index := Some(Rank(i)))] else rows
  }

  /** The rows after the first `n` ids of a slot were assigned, in order. */
  function AssignAll(rows: map<IntentId, IntentRow>, ids: seq<IntentId>, slot: nat, n: nat): map<IntentId, IntentRow>
    requires n <= |ids|
  {
    if n == 0 then rows else Assign(AssignAll(rows, ids, slot, n - 1), ids[n - 1], slot, n - 1)
  }

  function Attest(row: SlotRow, preconf: Preconf): SlotRow {
    if row.stage == StageCommitted then row.(stage := StagePreconfirmed, preconf := Some(preconf)) else row
  }

  function Prove(row: SlotRow, range: ProvenRange): SlotRow {
    if row.stage == StagePreconfirmed then row.(stage := StageProven, proof := Some(range)) else row
  }

  function ProveRange(slots: map<nat, SlotRow>, range: ProvenRange, upTo: int): map<nat, SlotRow> {
    map k | k in slots :: if range.fromSlot <= k < upTo then Prove(slots[k], range) else slots[k]
  }

  function FailRange(slots: map<nat, SlotRow>, from: nat, upTo: int, reason: string): map<nat, SlotRow> {
    map k | k in slots :: if from <= k < upTo then slots[k].(stage := StageFailed(reason)) else slots[k]
  }

  function ApplyEntry(v: View, pos: nat, e: Entry): View {
    match e
    case IntentReceived(id, intent, at) =>
      var row := IntentRow(pos, at, intent.deadlineMs, None, None, None);
      View(if id in v.intents then v.intents else v.intents[id := row], v.slots, pos + 1)
    case IntentExpired(id, deadline, at) =>
      View(if id in v.intents then v.intents[id := v.intents[id].(expired := Some((deadline, at)))] else v.intents,
           v.slots, pos + 1)
    case SlotCommitted(slot, ids, _, commitment, at) =>
      View(AssignAll(v.intents, ids, slot, |ids|),
           v.slots[slot := SlotRow(at, commitment, StageCommitted, None, None)], pos + 1)
    case SlotAttested(slot, quote, signature) =>
      View(v.intents,
           if slot in v.slots then v.slots[slot := Attest(v.slots[slot], Preconf(quote, signature))] else v.slots,
           pos + 1)
    case AttestFailed(slot, reason) =>
      View(v.intents,
           if slot in v.slots then v.slots[slot := v.slots[slot].(stage := StageFailed(reason))] else v.slots, pos + 1)
    case SlotsProven(from, to, proof) =>
      View(v.intents, ProveRange(v.slots, ProvenRange(from, to, proof), to + 1), pos + 1)
    case ProveFailed(from, to, reason) =>
      View(v.intents, FailRange(v.slots, from, to + 1, reason), pos + 1)
  }

  /** The read model of a consumed log. */
  function Replay(log: seq<Entry>): (v: View)
    ensures v.cursor == |log|
  {
    if log == [] then EMPTY_VIEW
    else ApplyEntry(Replay(log[..|log| - 1]), |log| - 1, log[|log| - 1])
  }

  lemma ReplaySnoc(log: seq<Entry>, e: Entry)
    ensures Replay(log + [e]) == ApplyEntry(Replay(log), |log|, e)
  {
    assert (log + [e])[..|log|] == log;
  }

  /** Apply `log[v.cursor..to]`, entry by entry. */
  function CatchUp(v: View, log: seq<Entry>, upTo: nat): View
    requires v.cursor <= upTo <= |log|
    decreases upTo
  {
    if v.cursor == upTo then v else ApplyEntry(CatchUp(v, log, upTo - 1), upTo - 1, log[upTo - 1])
  }

  /** However the reads are batched, the model is the replay of the prefix consumed. */
  lemma {:induction false} CatchUpReplays(log: seq<Entry>, from: nat, upTo: nat)
    requires from <= upTo <= |log|
    ensures CatchUp(Replay(log[..from]), log, upTo) == Replay(log[..upTo])
    decreases upTo
  {
    if from < upTo {
      CatchUpReplays(log, from, upTo - 1);
      assert log[..upTo] == log[..upTo - 1] + [log[upTo - 1]];
      ReplaySnoc(log[..upTo - 1], log[upTo - 1]);
    }
  }

  // ----- queries -----

  datatype Lifecycle = Received | Sequenced | Preconfirmed | Expired | FinalProven | Failed(reason: string)

  function StageLifecycle(stage: SlotStage): Lifecycle {
    match stage
    case StageCommitted => Sequenced
    case StagePreconfirmed => Preconfirmed
    case StageProven => FinalProven
    case StageFailed(reason) => Failed(reason)
  }

  function LifecycleOf(v: View, row: IntentRow): Option<Lifecycle> {
    if row.expired.Some? then Some(Expired)
    else if row.slot.None? then Some(Received)
    else if row.slot.value !in v.slots then None
    else Some(StageLifecycle(v.slots[row.slot.value].stage))
  }

  /** Where an intent stands, as far as the read model knows. */
  function LifecycleIn(v: View, id: IntentId): Option<Lifecycle> {
    if id in v.intents then LifecycleOf(v, v.intents[id]) else None
  }

  datatype StatusResponse = StatusResponse(intentId: IntentId, lifecycle: Lifecycle, slot: Option<nat>)

  function StatusOf(v: View, id: IntentId): Option<StatusResponse> {
    if LifecycleIn(v, id).None? then None
    else Some(StatusResponse(id, LifecycleIn(v, id).value, v.intents[id].slot))
  }

  datatype GuaranteeState =
    | Pending
    | Overdue
    | Met(slot: nat, committedAt: nat)
    | Missed(deadlineMs: nat, expiredAt: nat)

  datatype SequencePosition = SequencePosition(slot: nat, index: nat, commitment: Commitment)

  datatype PreconfRef = PreconfRef(slot: nat, commitment: Commitment, quote: seq<byte>, signature: Signature)

  datatype Receipt = Receipt(
    lifecycle: Lifecycle, logPosition: nat, sequence: Option<SequencePosition>,
    receivedAt: nat, deadlineMs: nat, intentDeadlineMs: nat, state: GuaranteeState,
    preconf: Option<PreconfRef>, proof: Option<ProvenRange>)

  function SlotRowOf(v: View, row: IntentRow): Option<SlotRow> {
    if row.slot.Some? && row.slot.value in v.slots then Some(v.slots[row.slot.value]) else None
  }

  function StateOf(g: GuaranteeConfig, v: View, row: IntentRow, now: nat): GuaranteeState {
    var sr := SlotRowOf(v, row);
    if row.expired.Some? then Missed(row.expired.value.0, row.expired.value.1)
    else if row.slot.Some? && sr.Some? then Met(row.slot.value, sr.value.committedAt)
    else if now > g.DeadlineFor(row.receivedAt) then Overdue
    else Pending
  }

  function ReceiptOf(g: GuaranteeConfig, v: View, id: IntentId, now: nat): Option<Receipt> {
    if id !in v.intents || LifecycleOf(v, v.intents[id]).None? then None
    else
      var row := v.intents[id];
      var sr := SlotRowOf(v, row);
      var sequence :=
        if row.slot.Some? && row.index.Some? && sr.Some?
        then Some(SequencePosition(row.slot.value, row.index.value, sr.value.commitment)) else None;
      var preconf :=
        if sr.Some? && sr.value.preconf.Some?
        then
          var p := sr.value.preconf.value;
          Some(PreconfRef(row.slot.value, sr.value.commitment, p.quote, p.signature))
        else None;
      var proof := if sr.Some? then sr.value.proof else None;
      Some(Receipt(LifecycleOf(v, row).value, row.position, sequence, row.receivedAt,
                   g.DeadlineFor(row.receivedAt), row.deadlineMs, StateOf(g, v, row, now), preconf, proof))
  }

  // ----- the read model as it runs -----

  class Projections {
    var intents: map<IntentId, IntentRow>
    var slots: map<nat, SlotRow>
    var cursor: nat

    constructor ()
      ensures State() == EMPTY_VIEW
    {
      intents, slots, cursor := map[], map[], 0;
    }

    function State(): View
      reads this
    {
      View(intents, slots, cursor)
    }

    method AssignSlot(ids: seq<IntentId>, slot: nat)
      modifies this`intents
      ensures intents == AssignAll(old(intents), ids, slot, |ids|)
    {
      for i := 0 to |ids|
        invariant intents == AssignAll(old(intents), ids, slot, i)
      {
        if ids[i] in intents {
          intents := intents[ids[i] := intents[ids[i]].(slot := Some(slot), index := Some(Rank(i)))];
        }
      }
    }

    method MarkProven(from: nat, last: nat, proof: ProofHandle)
      modifies this`slots
      ensures slots == ProveRange(old(slots), ProvenRange(from, last, proof), last + 1)
    {
      var slot := from;
      while slot <= last
        invariant slots ==
          ProveRange(old(slots), ProvenRange(from, last, proof), if from <= last then slot else last + 1)
        invariant from <= slot && (from <= last ==> slot <= last + 1)
        decreases last + 1 - slot
      {
        if slot in slots && slots[slot].stage == StagePreconfirmed {
          slots := slots[slot := slots[slot].(stage := StageProven, proof := Some(ProvenRange(from, last, proof)))];
        }
        slot := slot + 1;
      }
    }

    method MarkFailed(from: nat, last: nat, reason: string)
      modifies this`slots
      ensures slots == FailRange(old(slots), from, last + 1, reason)
    {
      var slot := from;
      while slot <= last
        invariant slots == FailRange(old(slots), from, if from <= last then slot else last + 1, reason)
        invariant from <= slot && (from <= last ==> slot <= last + 1)
        decreases last + 1 - slot
      {
        if slot in slots {
          slots := slots[slot := slots[slot].(stage := StageFailed(reason))];
        }
        slot := slot + 1;
      }
    }

    method Apply(pos: nat, e: Entry)
      modifies this
      ensures State() == ApplyEntry(old(State()), pos, e)
    {
      match e {
        case IntentReceived(id, intent, at) =>
          if id !in intents {
            intents := intents[id := IntentRow(pos, at, intent.deadlineMs, None, None, None)];
          }
        case IntentExpired(id, deadline, at) =>
          if id in intents {
            intents := intents[id := intents[id].(expired := Some((deadline, at)))];
          }
        case SlotCommitted(slot, ids, _, commitment, at) =>
          slots := slots[slot := SlotRow(at, commitment, StageCommitted, None, None)];
          AssignSlot(ids, slot);
        case SlotAttested(slot, quote, signature) =>
          if slot in slots && slots[slot].stage == StageCommitted {
            var preconf := Some(Preconf(quote, signature));
            slots := slots[slot := slots[slot].(stage := StagePreconfirmed, preconf := preconf)];
          }
        case AttestFailed(slot, reason) =>
          if slot in slots {
            slots := slots[slot := slots[slot].(stage := StageFailed(reason))];
          }
        case SlotsProven(from, to, proof) =>
          MarkProven(from, to, proof);
        case ProveFailed(from, to, reason) =>
          MarkFailed(from, to, reason);
      }
      cursor := pos + 1;
    }

    /** One wake-up of the projector: read from the cursor, apply the batch. */
    method OnDoorbell(log: MemLog)
      requires cursor <= |log.entries|
      modifies this
      ensures State() == CatchUp(old(State()), log.entries, |log.entries|)
    {
      var batch := log.ReadFrom(cursor);
      ghost var entries, v := log.entries, State();
      for i := 0 to |batch|
        invariant log.entries == entries && v.cursor + |batch| == |entries|
        invariant State() == CatchUp(v, entries, v.cursor + i) && cursor == v.cursor + i
      {
        Apply(batch[i].0, batch[i].1);
      }
    }
  }
}
