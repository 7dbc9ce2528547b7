/** What the read model says of an intent, as a statement about the log it consumed. */
module Meaning {
  import opened Intents
  import opened Logs
  import opened Seqs
  import opened History
  import opened Ledger
  import opened Projection

  // ----- slots -----

  /** The outcome that covers slot `k`, if one was recorded. */
  function OutcomeOf(outcomes: seq<Entry>, k: nat): (r: Option<Entry>)
    ensures r.Some? ==> r.value in outcomes && Covers(r.value, k)
    ensures r.None? ==> forall i :: 0 <= i < |outcomes| ==> !Covers(outcomes[i], k)
  {
    if outcomes == [] then None
    else if Covers(outcomes[|outcomes| - 1], k) then Some(outcomes[|outcomes| - 1])
    else OutcomeOf(outcomes[..|outcomes| - 1], k)
  }

  /** Where slot `k` stands, read off its ruling and the outcome covering it. */
  function StageIn(log: seq<Entry>, k: nat): SlotStage {
    var rulings := Of(Rulings, log);
    if k >= |rulings| then StageCommitted
    else if rulings[k].AttestFailed? then StageFailed(rulings[k].reason)
    else
      match OutcomeOf(Of(Outcomes, log), k)
      case None => StagePreconfirmed
      case Some(SlotsProven(_, _, _)) => StageProven
      case Some(ProveFailed(_, _, reason)) => StageFailed(reason)
      case Some(_) => StagePreconfirmed
  }

  function PreconfIn(log: seq<Entry>, k: nat): Option<Preconf> {
    var rulings := Of(Rulings, log);
    if k < |rulings| && rulings[k].SlotAttested? then Some(Preconf(rulings[k].quote, rulings[k].signature)) else None
  }

  function ProofIn(log: seq<Entry>, k: nat): Option<ProvenRange> {
    match OutcomeOf(Of(Outcomes, log), k)
    case Some(SlotsProven(from, to, proof)) => Some(ProvenRange(from, to, proof))
    case _ => None
  }

  function RowIn(log: seq<Entry>, k: nat): SlotRow
    requires k < |Of(Commits, log)|
  {
    var c := Of(Commits, log)[k];
    SlotRow(c.committedAt, c.commitment, StageIn(log, k), PreconfIn(log, k), ProofIn(log, k))
  }

  ghost predicate SlotsMean(log: seq<Entry>, slots: map<nat, SlotRow>) {
    (forall k: nat :: k in slots <==> k < |Of(Commits, log)|) &&
    (forall k: nat :: k in slots ==> slots[k] == RowIn(log, k))
  }

  lemma OutcomeOfSnoc(log: seq<Entry>, e: Entry, k: nat)
    ensures OutcomeOf(Of(Outcomes, log + [e]), k) ==
      if Is(Outcomes, e) && Covers(e, k) then Some(e) else OutcomeOf(Of(Outcomes, log), k)
  {
    OfSnoc(Outcomes, log, e);
    if Is(Outcomes, e) {
      var o := Of(Outcomes, log);
      assert (o + [e])[..|o|] == o;
    }
  }

  /** No outcome covers a slot that none has passed, or one that failed. */
  lemma Unsettled(cfg: Config, log: seq<Entry>, k: nat)
    requires WellFormed(cfg, log) && (k >= OutcomeNext(log) || !AttestedIn(log, k))
    ensures OutcomeOf(Of(Outcomes, log), k) == None
  {
    PassedExactlyOne(cfg, log, k);
  }

  /** A slot is ruled on while it is merely committed, and settled only while preconfirmed. */
  lemma StageBeforeRuling(cfg: Config, log: seq<Entry>, e: Entry)
    requires Is(Rulings, e) && Justified(cfg, log, e)
    ensures StageIn(log, e.slot) == StageCommitted
  {
  }

  lemma StageBeforeRange(cfg: Config, log: seq<Entry>, e: Entry, k: nat)
    requires WellFormed(cfg, log) && Is(Outcomes, e) && Justified(cfg, log, e) && Covers(e, k)
    ensures StageIn(log, k) == StagePreconfirmed && AttestedIn(log, k) && OutcomeOf(Of(Outcomes, log), k) == None
  {
    assert NextRange(cfg, log, e.fromSlot, e.toSlot);
    assert AttestedIn(log, k);
    Unsettled(cfg, log, k);
  }

  /** What one more entry does to the row of a slot already committed. */
  function RowAfter(row: SlotRow, k: nat, e: Entry): SlotRow {
    if e.SlotAttested? && e.slot == k then Attest(row, Preconf(e.quote, e.signature))
    else if e.AttestFailed? && e.slot == k then row.(stage := StageFailed(e.reason))
    else if e.SlotsProven? && Covers(e, k) then Prove(row, ProvenRange(e.fromSlot, e.toSlot, e.proof))
    else if e.ProveFailed? && Covers(e, k) then row.(stage := StageFailed(e.reason))
    else row
  }

  lemma CommitStays(log: seq<Entry>, e: Entry, k: nat)
    requires k < |Of(Commits, log)|
    ensures k < |Of(Commits, log + [e])| && Of(Commits, log + [e])[k] == Of(Commits, log)[k]
  {
    OfSnoc(Commits, log, e);
  }

  /** A ruling moves its own slot, and no other, out of the committed stage. */
  lemma RowRuled(cfg: Config, log: seq<Entry>, e: Entry, k: nat)
    requires WellFormed(cfg, log) && Is(Rulings, e) && NextRuling(log, e) && k < |Of(Commits, log)|
    ensures k < |Of(Commits, log + [e])| && RowIn(log + [e], k) == RowAfter(RowIn(log, k), k, e)
  {
    CommitStays(log, e, k);
    OfSnoc(Rulings, log, e);
    OutcomeOfSnoc(log, e, k);
    if k == e.slot {
      Unsettled(cfg, log, k);
    }
  }

  lemma RowSettled(cfg: Config, log: seq<Entry>, e: Entry, k: nat)
    requires WellFormed(cfg, log) && Is(Outcomes, e) && Justified(cfg, log, e) && k < |Of(Commits, log)|
    ensures k < |Of(Commits, log + [e])| && RowIn(log + [e], k) == RowAfter(RowIn(log, k), k, e)
  {
    CommitStays(log, e, k);
    OfSnoc(Rulings, log, e);
    OutcomeOfSnoc(log, e, k);
    if Covers(e, k) {
      StageBeforeRange(cfg, log, e, k);
    }
  }

  lemma NextRuled(cfg: Config, log: seq<Entry>, e: Entry)
    requires Is(Rulings, e) && Justified(cfg, log, e)
    ensures NextRuling(log, e)
  {
  }

  lemma NextSlot(cfg: Config, log: seq<Entry>, e: Entry)
    requires e.SlotCommitted? && Justified(cfg, log, e)
    ensures e.slot == |Of(Commits, log)|
  {
  }

  lemma RowStep(cfg: Config, log: seq<Entry>, e: Entry, k: nat)
    requires WellFormed(cfg, log) && Justified(cfg, log, e) && k < |Of(Commits, log)|
    ensures k < |Of(Commits, log + [e])| && RowIn(log + [e], k) == RowAfter(RowIn(log, k), k, e)
  {
    hide WellFormed, Justified;
    if Is(Rulings, e) {
      NextRuled(cfg, log, e);
      RowRuled(cfg, log, e, k);
    } else if Is(Outcomes, e) {
      RowSettled(cfg, log, e, k);
    } else {
      CommitStays(log, e, k);
      OfSnoc(Rulings, log, e);
      OutcomeOfSnoc(log, e, k);
    }
  }

  lemma NewRow(cfg: Config, log: seq<Entry>, e: Entry)
    requires WellFormed(cfg, log) && e.SlotCommitted? && Justified(cfg, log, e)
    ensures |Of(Commits, log + [e])| == e.slot + 1
    ensures RowIn(log + [e], e.slot) == SlotRow(e.committedAt, e.commitment, StageCommitted, None, None)
  {
    hide WellFormed, Justified, OutcomeOf;
    NextSlot(cfg, log, e);
    OfSnoc(Commits, log, e);
    OfSnoc(Rulings, log, e);
    OutcomeOfSnoc(log, e, e.slot);
    RulingsBehindCommits(cfg, log);
    Unsettled(cfg, log, e.slot);
  }

  /** The fold changes an existing row as `RowAfter` says. */
  lemma AppliedRow(v: View, pos: nat, e: Entry, k: nat)
    requires k in v.slots && !(e.SlotCommitted? && e.slot == k)
    ensures k in ApplyEntry(v, pos, e).slots && ApplyEntry(v, pos, e).slots[k] == RowAfter(v.slots[k], k, e)
  {
  }

  lemma AppliedKeys(v: View, pos: nat, e: Entry, k: nat)
    ensures k in ApplyEntry(v, pos, e).slots <==> k in v.slots || (e.SlotCommitted? && e.slot == k)
  {
  }

  lemma SlotStep(cfg: Config, log: seq<Entry>, e: Entry, v: View, k: nat)
    requires WellFormed(cfg, log) && Justified(cfg, log, e)
    requires (k in v.slots <==> k < |Of(Commits, log)|) && (k in v.slots ==> v.slots[k] == RowIn(log, k))
    ensures var slots := ApplyEntry(v, |log|, e).slots;
      (k in slots <==> k < |Of(Commits, log + [e])|) && (k in slots ==> slots[k] == RowIn(log + [e], k))
  {
    AppliedKeys(v, |log|, e, k);
    if k in v.slots {
      RowStep(cfg, log, e, k);
      AppliedRow(v, |log|, e, k);
    } else {
      OfSnoc(Commits, log, e);
      if e.SlotCommitted? {
        NewRow(cfg, log, e);
      }
    }
  }

  lemma SlotsStep(cfg: Config, log: seq<Entry>, e: Entry, v: View)
    requires WellFormed(cfg, log) && Justified(cfg, log, e) && SlotsMean(log, v.slots)
    ensures SlotsMean(log + [e], ApplyEntry(v, |log|, e).slots)
  {
    var slots := ApplyEntry(v, |log|, e).slots;
    forall k: nat
      ensures k in slots <==> k < |Of(Commits, log + [e])|
      ensures k in slots ==> slots[k] == RowIn(log + [e], k)
    {
      SlotStep(cfg, log, e, v, k);
    }
  }

  lemma {:induction false} ReplayedSlots(cfg: Config, log: seq<Entry>)
    requires WellFormed(cfg, log)
    ensures SlotsMean(log, Replay(log).slots)
  {
    if log != [] {
      var n := |log| - 1;
      assert log == log[..n] + [log[n]];
      Extend(cfg, log[..n], log[n]);
      ReplayedSlots(cfg, log[..n]);
      SlotsStep(cfg, log[..n], log[n], Replay(log[..n]));
    }
  }

  // ----- intents -----

  ghost predicate WasReceived(log: seq<Entry>, id: IntentId) {
    exists p: nat :: ReceivedAs(log, p, id)
  }

  /** `id` sits at index `u` of slot `k`. */
  predicate PlacedAt(log: seq<Entry>, k: nat, u: nat, id: IntentId) {
    k < |Of(Commits, log)| && u < |Of(Commits, log)[k].intents| && Of(Commits, log)[k].intents[u] == id
  }

  ghost predicate Placed(log: seq<Entry>, id: IntentId) {
    exists k: nat, u: nat :: PlacedAt(log, k, u, id)
  }

  ghost predicate DroppedAs(log: seq<Entry>, id: IntentId, deadline: nat, at: nat) {
    exists d: nat :: d < |log| && log[d] == IntentExpired(id, deadline, at)
  }

  ghost predicate RowMeans(log: seq<Entry>, id: IntentId, row: IntentRow) {
    ReceivedAs(log, row.position, id) &&
    row.receivedAt == log[row.position].receivedAt && row.deadlineMs == log[row.position].intent.deadlineMs &&
    (row.slot.None? ==> row.index.None? && !Placed(log, id)) &&
    (row.slot.Some? ==> exists u: nat :: PlacedAt(log, row.slot.value, u, id) && row.index == Some(Rank(u))) &&
    (row.expired.None? ==> !Dropped(log, id)) &&
    (row.expired.Some? ==> DroppedAs(log, id, row.expired.value.0, row.expired.value.1))
  }

  ghost predicate IntentsMean(log: seq<Entry>, rows: map<IntentId, IntentRow>) {
    forall id: IntentId :: (id in rows <==> WasReceived(log, id)) && (id in rows ==> RowMeans(log, id, rows[id]))
  }

  lemma PlacedSnoc(log: seq<Entry>, e: Entry, k: nat, u: nat, id: IntentId)
    requires e.SlotCommitted? ==> e.slot == |Of(Commits, log)|
    ensures PlacedAt(log + [e], k, u, id) <==>
      PlacedAt(log, k, u, id) || (e.SlotCommitted? && k == e.slot && u < |e.intents| && e.intents[u] == id)
  {
    OfSnoc(Commits, log, e);
  }

  /** The ids of a slot were all received before it. */
  lemma PlacedWasReceived(cfg: Config, log: seq<Entry>, k: nat, u: nat, id: IntentId)
    requires WellFormed(cfg, log) && PlacedAt(log, k, u, id)
    ensures WasReceived(log, id) && Committed(log, id)
  {
    var i := OfFrom(Commits, log, k);
    var p := SlotSource(cfg, log, i, u);
    assert CommittedAt(log, i, u, id);
  }

  lemma {:induction false} AssignAllAt(
      rows: map<IntentId, IntentRow>, ids: seq<IntentId>, slot: nat, n: nat, id: IntentId)
    requires n <= |ids|
    ensures id in AssignAll(rows, ids, slot, n) <==> id in rows
    ensures id in rows && id !in ids[..n] ==> AssignAll(rows, ids, slot, n)[id] == rows[id]
    ensures id in rows && id in ids[..n] ==>
      (exists u: nat :: u < n && ids[u] == id &&
         AssignAll(rows, ids, slot, n)[id] == rows[id].(slot := Some(slot), index := Some(Rank(u))))
  {
    if n > 0 {
      AssignAllAt(rows, ids, slot, n - 1, id);
      assert ids[..n] == ids[..n - 1] + [ids[n - 1]];
      if id in rows && ids[n - 1] == id {
        assert n - 1 < n && ids[n - 1] == id;
      }
    }
  }

  lemma ReceivedSnoc(log: seq<Entry>, e: Entry, id: IntentId)
    ensures WasReceived(log + [e], id) <==> WasReceived(log, id) || (e.IntentReceived? && e.intentId == id)
  {
    if WasReceived(log, id) {
      var p: nat :| ReceivedAs(log, p, id);
      assert ReceivedAs(log + [e], p, id);
    }
    if e.IntentReceived? && e.intentId == id {
      assert ReceivedAs(log + [e], |log|, id);
    }
    if WasReceived(log + [e], id) {
      var p: nat :| ReceivedAs(log + [e], p, id);
      assert p < |log| ==> ReceivedAs(log, p, id);
    }
  }

  lemma DroppedSnoc(log: seq<Entry>, e: Entry, id: IntentId)
    ensures Dropped(log + [e], id) <==> Dropped(log, id) || (e.IntentExpired? && e.intentId == id)
  {
    var l := log + [e];
    if Dropped(log, id) {
      var d :| 0 <= d < |log| && log[d].IntentExpired? && log[d].intentId == id;
      assert l[d] == log[d];
    }
    if e.IntentExpired? && e.intentId == id {
      assert l[|log|] == e;
    }
    if Dropped(l, id) {
      var d :| 0 <= d < |l| && l[d].IntentExpired? && l[d].intentId == id;
      assert d < |log| ==> log[d] == l[d];
    }
  }

  lemma DroppedAsStays(log: seq<Entry>, e: Entry, id: IntentId, deadline: nat, at: nat)
    requires DroppedAs(log, id, deadline, at)
    ensures DroppedAs(log + [e], id, deadline, at)
  {
    var d: nat :| d < |log| && log[d] == IntentExpired(id, deadline, at);
    assert (log + [e])[d] == log[d];
  }

  /** An entry that neither drops nor places `id` leaves its row true. */
  lemma RowStays(cfg: Config, log: seq<Entry>, e: Entry, id: IntentId, row: IntentRow)
    requires Justified(cfg, log, e) && RowMeans(log, id, row)
    requires !(e.IntentExpired? && e.intentId == id) && !(e.SlotCommitted? && id in e.intents)
    ensures RowMeans(log + [e], id, row)
  {
    DroppedSnoc(log, e, id);
    if row.expired.Some? {
      DroppedAsStays(log, e, id, row.expired.value.0, row.expired.value.1);
    }
    forall k: nat, u: nat
      ensures PlacedAt(log + [e], k, u, id) <==> PlacedAt(log, k, u, id)
    {
      PlacedSnoc(log, e, k, u, id);
    }
  }

  lemma DroppedRow(cfg: Config, log: seq<Entry>, e: Entry, row: IntentRow)
    requires e.IntentExpired? && Justified(cfg, log, e) && RowMeans(log, e.intentId, row)
    ensures RowMeans(log + [e], e.intentId, row.(expired := Some((e.guaranteeDeadline, e.atMs))))
  {
    assert (log + [e])[|log|] == IntentExpired(e.intentId, e.guaranteeDeadline, e.atMs);
    forall k: nat, u: nat
      ensures PlacedAt(log + [e], k, u, e.intentId) <==> PlacedAt(log, k, u, e.intentId)
    {
      PlacedSnoc(log, e, k, u, e.intentId);
    }
  }

  lemma PlacedRow(cfg: Config, log: seq<Entry>, e: Entry, id: IntentId, row: IntentRow, u: nat)
    requires e.SlotCommitted? && Justified(cfg, log, e) && RowMeans(log, id, row)
    requires u < |e.intents| && e.intents[u] == id
    ensures RowMeans(log + [e], id, row.(slot := Some(e.slot), index := Some(Rank(u))))
  {
    PlacedSnoc(log, e, e.slot, u, id);
    DroppedSnoc(log, e, id);
    if row.expired.Some? {
      DroppedAsStays(log, e, id, row.expired.value.0, row.expired.value.1);
    }
  }

  lemma NewIntentRow(cfg: Config, log: seq<Entry>, e: Entry)
    requires WellFormed(cfg, log) && e.IntentReceived? && Justified(cfg, log, e)
    ensures RowMeans(log + [e], e.intentId,
      IntentRow(|log|, e.receivedAt, e.intent.deadlineMs, None, None, None))
    ensures !WasReceived(log, e.intentId)
  {
    var id := e.intentId;
    DroppedSnoc(log, e, id);
    if Dropped(log, id) {
      var d: nat :| d < |log| && log[d].IntentExpired? && log[d].intentId == id;
      var p := DroppedLate(cfg, log, d);
    }
    if Placed(log + [e], id) {
      var k: nat, u: nat :| PlacedAt(log + [e], k, u, id);
      PlacedSnoc(log, e, k, u, id);
      PlacedWasReceived(cfg, log, k, u, id);
    }
  }

  lemma IntentsStep(cfg: Config, log: seq<Entry>, e: Entry, v: View)
    requires WellFormed(cfg, log) && Justified(cfg, log, e) && IntentsMean(log, v.intents)
    ensures IntentsMean(log + [e], ApplyEntry(v, |log|, e).intents)
  {
    var rows := ApplyEntry(v, |log|, e).intents;
    forall id: IntentId
      ensures id in rows <==> WasReceived(log + [e], id)
      ensures id in rows ==> RowMeans(log + [e], id, rows[id])
    {
      IntentStep(cfg, log, e, v, id);
    }
  }

  lemma IntentStep(cfg: Config, log: seq<Entry>, e: Entry, v: View, id: IntentId)
    requires WellFormed(cfg, log) && Justified(cfg, log, e)
    requires (id in v.intents <==> WasReceived(log, id)) && (id in v.intents ==> RowMeans(log, id, v.intents[id]))
    ensures var rows := ApplyEntry(v, |log|, e).intents;
      (id in rows <==> WasReceived(log + [e], id)) && (id in rows ==> RowMeans(log + [e], id, rows[id]))
  {
    hide WellFormed, Justified, RowMeans;
    ReceivedSnoc(log, e, id);
    if e.IntentReceived? && e.intentId == id {
      NewIntentRow(cfg, log, e);
    } else if e.IntentExpired? && e.intentId == id {
      if id in v.intents {
        DroppedRow(cfg, log, e, v.intents[id]);
      }
    } else if e.SlotCommitted? {
      AssignAllAt(v.intents, e.intents, e.slot, |e.intents|, id);
      assert e.intents[..|e.intents|] == e.intents;
      if id in v.intents {
        if id in e.intents {
          var u: nat :| u < |e.intents| && e.intents[u] == id &&
            AssignAll(v.intents, e.intents, e.slot, |e.intents|)[id]
            == v.intents[id].(slot := Some(e.slot), index := Some(Rank(u)));
          PlacedRow(cfg, log, e, id, v.intents[id], u);
        } else {
          RowStays(cfg, log, e, id, v.intents[id]);
        }
      }
    } else if id in v.intents {
      RowStays(cfg, log, e, id, v.intents[id]);
    }
  }

  lemma {:induction false} ReplayedIntents(cfg: Config, log: seq<Entry>)
    requires WellFormed(cfg, log)
    ensures IntentsMean(log, Replay(log).intents)
  {
    if log != [] {
      var n := |log| - 1;
      assert log == log[..n] + [log[n]];
      Extend(cfg, log[..n], log[n]);
      ReplayedIntents(cfg, log[..n]);
      IntentsStep(cfg, log[..n], log[n], Replay(log[..n]));
    }
  }
}
