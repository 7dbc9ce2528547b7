/** The status machine and the receipts a holder reads, judged against the log. */
module Statuses {
  import opened Bytes
  import opened Intents
  import opened Logs
  import opened Seqs
  import opened Attestation
  import opened Proofs
  import opened History
  import opened Ledger
  import opened Projection
  import opened Meaning

  lemma PlacedOnce(cfg: Config, log: seq<Entry>, id: IntentId, k: nat, u: nat, j: nat, v: nat)
    requires WellFormed(cfg, log) && PlacedAt(log, k, u, id) && PlacedAt(log, j, v, id)
    ensures k == j && u == v
  {
    var i := OfFrom(Commits, log, k);
    var i' := OfFrom(Commits, log, j);
    CommittedOnce(cfg, log, id, i, u, i', v);
  }

  /** What a slot's stage says happened to it. */
  lemma StageMeans(cfg: Config, log: seq<Entry>, k: nat)
    requires WellFormed(cfg, log) && k < |Of(Commits, log)|
    ensures StageIn(log, k) == StageCommitted <==> !AttestedIn(log, k) && !FailedIn(log, k)
    ensures StageIn(log, k) == StagePreconfirmed <==> AttestedIn(log, k) && !Settled(log, k)
    ensures StageIn(log, k) == StageProven <==>
      exists n: nat :: n < |Of(Outcomes, log)| && Of(Outcomes, log)[n].SlotsProven? && Covers(Of(Outcomes, log)[n], k)
    ensures StageIn(log, k).StageFailed? <==>
      FailedIn(log, k) ||
      exists n: nat :: n < |Of(Outcomes, log)| && Of(Outcomes, log)[n].ProveFailed? && Covers(Of(Outcomes, log)[n], k)
  {
    var outcomes := Of(Outcomes, log);
    PassedExactlyOne(cfg, log, k);
    var o := OutcomeOf(outcomes, k);
    if o.Some? {
      var m: nat :| m < |outcomes| && outcomes[m] == o.value;
      assert Settled(log, k);
      forall n: nat | n < |outcomes| && Covers(outcomes[n], k)
        ensures outcomes[n] == o.value
      {
        SettledOnce(cfg, log, k, m, n);
      }
    }
  }

  /** The read model's status of an intent, entirely in terms of the log it consumed. */
  lemma LifecycleMeans(cfg: Config, log: seq<Entry>, id: IntentId)
    requires WellFormed(cfg, log)
    ensures LifecycleIn(Replay(log), id).None? <==> !WasReceived(log, id)
    ensures LifecycleIn(Replay(log), id) == Some(Expired) <==> WasReceived(log, id) && Dropped(log, id)
    ensures LifecycleIn(Replay(log), id) == Some(Received)
      <==> WasReceived(log, id) && !Dropped(log, id) && !Placed(log, id)
    ensures forall k: nat, u: nat :: PlacedAt(log, k, u, id) && !Dropped(log, id) ==>
      LifecycleIn(Replay(log), id) == Some(StageLifecycle(StageIn(log, k)))
  {
    hide WellFormed, StageIn, PreconfIn, ProofIn, Replay;
    var v := Replay(log);
    ReplayedSlots(cfg, log);
    ReplayedIntents(cfg, log);
    assert id in v.intents <==> WasReceived(log, id);
    if id in v.intents {
      var row := v.intents[id];
      assert RowMeans(log, id, row);
      DropKnown(log, id, row);
      if row.slot.Some? {
        var u: nat :| PlacedAt(log, row.slot.value, u, id) && row.index == Some(Rank(u));
        assert v.slots[row.slot.value] == RowIn(log, row.slot.value);
      }
    }
    forall k: nat, u: nat | PlacedAt(log, k, u, id) && !Dropped(log, id)
      ensures LifecycleIn(v, id) == Some(StageLifecycle(StageIn(log, k)))
    {
      PlacedWasReceived(cfg, log, k, u, id);
      var row := v.intents[id];
      var u': nat :| PlacedAt(log, row.slot.value, u', id) && row.index == Some(Rank(u'));
      PlacedOnce(cfg, log, id, k, u, row.slot.value, u');
      assert v.slots[k] == RowIn(log, k);
    }
  }

  /**
   * A status response is given for exactly the intents received, with the lifecycle the log gives
   * them, and with a slot exactly when they are in one, which is then that slot.
   */
  lemma StatusMeans(cfg: Config, log: seq<Entry>, id: IntentId)
    requires WellFormed(cfg, log)
    ensures StatusOf(Replay(log), id).Some? <==> WasReceived(log, id)
    ensures StatusOf(Replay(log), id).Some? ==>
      (var r := StatusOf(Replay(log), id).value;
       r.intentId == id && LifecycleIn(Replay(log), id) == Some(r.lifecycle) && (r.slot.None? <==> !Placed(log, id)) &&
       forall k: nat, u: nat :: PlacedAt(log, k, u, id) ==> r.slot == Some(k))
  {
    hide WellFormed, LifecycleIn, Replay;
    LifecycleMeans(cfg, log, id);
    ReplayedIntents(cfg, log);
    if WasReceived(log, id) {
      var row := Replay(log).intents[id];
      assert RowMeans(log, id, row);
      forall k: nat, u: nat | PlacedAt(log, k, u, id)
        ensures row.slot == Some(k)
      {
        var v: nat :| PlacedAt(log, row.slot.value, v, id) && row.index == Some(Rank(v));
        PlacedOnce(cfg, log, id, k, u, row.slot.value, v);
      }
    }
  }

  lemma DropKnown(log: seq<Entry>, id: IntentId, row: IntentRow)
    requires RowMeans(log, id, row)
    ensures row.expired.Some? <==> Dropped(log, id)
  {
    if row.expired.Some? {
      var d: nat :| d < |log| && log[d] == IntentExpired(id, row.expired.value.0, row.expired.value.1);
      assert log[d].IntentExpired? && log[d].intentId == id;
    }
  }

  // ----- the status machine -----

  /** The machine's transitions: none skips a stage, and expired, failed and proven are final. */
  predicate Moves(a: Option<Lifecycle>, b: Option<Lifecycle>) {
    a == b ||
    match a
    case None => b == Some(Received)
    case Some(Received) => b == Some(Sequenced) || b == Some(Expired)
    case Some(Sequenced) => b == Some(Preconfirmed) || (b.Some? && b.value.Failed?)
    case Some(Preconfirmed) => b == Some(FinalProven) || (b.Some? && b.value.Failed?)
    case Some(Expired) => false
    case Some(FinalProven) => false
    case Some(Failed(_)) => false
  }

  lemma StageMoves(cfg: Config, log: seq<Entry>, e: Entry, k: nat)
    requires WellFormed(cfg, log) && Justified(cfg, log, e) && k < |Of(Commits, log)|
    ensures Moves(Some(StageLifecycle(StageIn(log, k))), Some(StageLifecycle(StageIn(log + [e], k))))
  {
    hide WellFormed, Justified, StageIn, PreconfIn, ProofIn;
    RowStep(cfg, log, e, k);
    if Is(Rulings, e) && e.slot == k {
      StageBeforeRuling(cfg, log, e);
    } else if Is(Outcomes, e) && Covers(e, k) {
      StageBeforeRange(cfg, log, e, k);
    }
  }

  lemma UnreceivedMoves(cfg: Config, log: seq<Entry>, e: Entry, id: IntentId)
    requires WellFormed(cfg, log) && Justified(cfg, log, e) && !WasReceived(log, id)
    ensures LifecycleIn(Replay(log + [e]), id).None? || LifecycleIn(Replay(log + [e]), id) == Some(Received)
  {
    Extend(cfg, log, e);
    LifecycleMeans(cfg, log + [e], id);
    ReceivedSnoc(log, e, id);
    if WasReceived(log + [e], id) {
      ReplayedIntents(cfg, log);
      ReplaySnoc(log, e);
    }
  }

  /** An intent already placed is past the point where it could be dropped. */
  lemma PlacedCannotDrop(cfg: Config, log: seq<Entry>, e: Entry, k: nat, u: nat)
    requires WellFormed(cfg, log) && e.IntentExpired? && PlacedAt(log, k, u, e.intentId)
    ensures !Justified(cfg, log, e)
  {
    var i := OfFrom(Commits, log, k);
    assert CommittedAt(log, i, u, e.intentId);
    if Justified(cfg, log, e) {
      var p :| Consumed(log) <= p < |log| && ReceivedAs(log, p, e.intentId) &&
        e.guaranteeDeadline == cfg.guarantee.DeadlineFor(log[p].receivedAt);
      UnconsumedUncommitted(cfg, log, p);
    }
  }

  /** A committed slot places only intents that were waiting, and they become sequenced. */
  lemma SlotPlaces(cfg: Config, log: seq<Entry>, e: Entry, id: IntentId, u: nat)
    requires WellFormed(cfg, log) && e.SlotCommitted? && Justified(cfg, log, e)
    requires u < |e.intents| && e.intents[u] == id && !Dropped(log, id)
    ensures LifecycleIn(Replay(log), id) == Some(Received) && LifecycleIn(Replay(log + [e]), id) == Some(Sequenced)
  {
    Extend(cfg, log, e);
    PlacedSnoc(log, e, e.slot, u, id);
    NewRow(cfg, log, e);
    DroppedSnoc(log, e, id);
    ReceivedSnoc(log, e, id);
    LifecycleMeans(cfg, log, id);
    LifecycleMeans(cfg, log + [e], id);
    PlacedWasReceived(cfg, log + [e], e.slot, u, id);
    if Placed(log, id) {
      var k: nat, v: nat :| PlacedAt(log, k, v, id);
      PlacedSnoc(log, e, k, v, id);
      PlacedOnce(cfg, log + [e], id, k, v, e.slot, u);
    }
  }

  lemma WaitingMoves(cfg: Config, log: seq<Entry>, e: Entry, id: IntentId)
    requires WellFormed(cfg, log) && Justified(cfg, log, e) && WasReceived(log, id) && !Dropped(log, id)
    requires !(e.IntentExpired? && e.intentId == id) && !(e.SlotCommitted? && id in e.intents)
    ensures Moves(LifecycleIn(Replay(log), id), LifecycleIn(Replay(log + [e]), id))
  {
    Extend(cfg, log, e);
    ReceivedSnoc(log, e, id);
    DroppedSnoc(log, e, id);
    forall k: nat, u: nat
      ensures PlacedAt(log + [e], k, u, id) <==> PlacedAt(log, k, u, id)
    {
      PlacedSnoc(log, e, k, u, id);
    }
    LifecycleMeans(cfg, log, id);
    LifecycleMeans(cfg, log + [e], id);
    if Placed(log, id) {
      var k: nat, u: nat :| PlacedAt(log, k, u, id);
      StageMoves(cfg, log, e, k);
    }
  }

  /** One more entry moves an intent's status along at most one transition of the machine. */
  lemma StatusMoves(cfg: Config, log: seq<Entry>, e: Entry, id: IntentId)
    requires WellFormed(cfg, log) && Justified(cfg, log, e)
    ensures Moves(LifecycleIn(Replay(log), id), LifecycleIn(Replay(log + [e]), id))
  {
    Extend(cfg, log, e);
    LifecycleMeans(cfg, log, id);
    LifecycleMeans(cfg, log + [e], id);
    if !WasReceived(log, id) {
      UnreceivedMoves(cfg, log, e, id);
    } else if Dropped(log, id) {
      DroppedSnoc(log, e, id);
      ReceivedSnoc(log, e, id);
    } else if e.IntentExpired? && e.intentId == id {
      DroppedSnoc(log, e, id);
      ReceivedSnoc(log, e, id);
      if Placed(log, id) {
        var k: nat, u: nat :| PlacedAt(log, k, u, id);
        PlacedCannotDrop(cfg, log, e, k, u);
      }
    } else if e.SlotCommitted? && id in e.intents {
      var u: nat :| u < |e.intents| && e.intents[u] == id;
      SlotPlaces(cfg, log, e, id, u);
    } else {
      WaitingMoves(cfg, log, e, id);
    }
  }

  function Milestone(a: Option<Lifecycle>): nat {
    match a
    case None => 0
    case Some(Received) => 1
    case Some(Sequenced) => 2
    case Some(Preconfirmed) => 3
    case Some(_) => 4
  }

  /** Consuming more of a log never takes an intent back, and never changes a final status. */
  lemma {:induction false} StatusForward(cfg: Config, log: seq<Entry>, m: nat, n: nat, id: IntentId)
    requires WellFormed(cfg, log) && m <= n <= |log|
    ensures var a, b := LifecycleIn(Replay(log[..m]), id), LifecycleIn(Replay(log[..n]), id);
      a == b || (Milestone(a) < 4 && Milestone(a) < Milestone(b))
    decreases n
  {
    hide WellFormed, Justified, LifecycleIn, Replay;
    if m < n {
      StatusForward(cfg, log, m, n - 1, id);
      assert log[..n] == log[..n - 1] + [log[n - 1]];
      PrefixWellFormed(cfg, log, n);
      Extend(cfg, log[..n - 1], log[n - 1]);
      StatusMoves(cfg, log[..n - 1], log[n - 1], id);
    }
  }

  // ----- receipts -----

  lemma ReceiptRow(cfg: Config, log: seq<Entry>, id: IntentId, now: nat) returns (r: Receipt, row: IntentRow)
    requires WellFormed(cfg, log) && WasReceived(log, id)
    ensures ReceiptOf(cfg.guarantee, Replay(log), id, now) == Some(r) && RowMeans(log, id, row)
    ensures r.logPosition == row.position && r.receivedAt == row.receivedAt && r.intentDeadlineMs == row.deadlineMs
    ensures r.deadlineMs == cfg.guarantee.DeadlineFor(row.receivedAt)
    ensures r.state == StateOf(cfg.guarantee, Replay(log), row, now)
  {
    hide WellFormed, Replay, RowMeans, StateOf;
    ReplayedIntents(cfg, log);
    LifecycleMeans(cfg, log, id);
    row := Replay(log).intents[id];
    r := ReceiptOf(cfg.guarantee, Replay(log), id, now).value;
    assert RowMeans(log, id, row);
  }

  lemma StateIs(cfg: Config, log: seq<Entry>, id: IntentId, row: IntentRow, now: nat)
    requires WellFormed(cfg, log) && RowMeans(log, id, row)
    ensures row.slot.Some? ==> row.slot.value < |Of(Commits, log)|
    ensures StateOf(cfg.guarantee, Replay(log), row, now) ==
      if row.expired.Some? then Missed(row.expired.value.0, row.expired.value.1)
      else if row.slot.Some? then Met(row.slot.value, Of(Commits, log)[row.slot.value].committedAt)
      else if now > cfg.guarantee.DeadlineFor(row.receivedAt) then Overdue
      else Pending
  {
    hide Of, WellFormed, Replay, StageIn, PreconfIn, ProofIn;
    ReplayedSlots(cfg, log);
    if row.slot.Some? {
      var u: nat :| PlacedAt(log, row.slot.value, u, id) && row.index == Some(Rank(u));
    }
  }

  /** A caught-up receipt reports the promise and its outcome as the log has them. */
  lemma ReceiptMeans(cfg: Config, log: seq<Entry>, id: IntentId, now: nat) returns (r: Receipt)
    requires WellFormed(cfg, log) && WasReceived(log, id)
    ensures ReceiptOf(cfg.guarantee, Replay(log), id, now) == Some(r)
    ensures ReceivedAs(log, r.logPosition, id) && r.receivedAt == log[r.logPosition].receivedAt
    ensures r.deadlineMs == cfg.guarantee.DeadlineFor(r.receivedAt) <= r.intentDeadlineMs
    ensures r.intentDeadlineMs == log[r.logPosition].intent.deadlineMs
    ensures Dropped(log, id) ==>
      r.state.Missed? && r.state.deadlineMs == r.deadlineMs < r.state.expiredAt &&
      DroppedAs(log, id, r.state.deadlineMs, r.state.expiredAt)
    ensures !Dropped(log, id) ==> forall k: nat, u: nat :: PlacedAt(log, k, u, id) ==>
      r.state == Met(k, Of(Commits, log)[k].committedAt) && Of(Commits, log)[k].committedAt <= r.deadlineMs
    ensures !Dropped(log, id) && !Placed(log, id) ==> r.state == if now > r.deadlineMs then Overdue else Pending
  {
    WellFormedIsOrderly(cfg, log);
    hide Of, WellFormed, Orderly, Replay, ReceiptOf, StateOf, StageIn;
    var row: IntentRow;
    r, row := ReceiptRow(cfg, log, id, now);
    DropKnown(log, id, row);
    AdmittedAt(cfg, log, row.position);
    StateIs(cfg, log, id, row, now);
    if row.expired.Some? {
      var d: nat :| d < |log| && log[d] == IntentExpired(id, row.expired.value.0, row.expired.value.1);
      var p := DroppedLate(cfg, log, d);
      SameSource(cfg, log, p, row.position, id);
    } else {
      forall k: nat, u: nat | PlacedAt(log, k, u, id)
        ensures r.state == Met(k, Of(Commits, log)[k].committedAt) && Of(Commits, log)[k].committedAt <= r.deadlineMs
      {
        MetInTime(cfg, log, id, row, k, u);
      }
    }
  }

  lemma MetInTime(cfg: Config, log: seq<Entry>, id: IntentId, row: IntentRow, k: nat, u: nat)
    requires WellFormed(cfg, log) && RowMeans(log, id, row) && PlacedAt(log, k, u, id)
    ensures row.slot == Some(k) && row.index == Some(Rank(u))
    ensures Of(Commits, log)[k].committedAt <= cfg.guarantee.DeadlineFor(row.receivedAt)
  {
    var u': nat :| PlacedAt(log, row.slot.value, u', id) && row.index == Some(Rank(u'));
    PlacedOnce(cfg, log, id, k, u, row.slot.value, u');
    var i := OfFrom(Commits, log, k);
    var p := CommittedInTime(cfg, log, i, u);
    SameSource(cfg, log, p, row.position, id);
  }

  /** What the log says of slot `k` in one word, straight from its ruling and the outcome that covers it. */
  ghost predicate LogSays(log: seq<Entry>, k: nat, l: Lifecycle) {
    match l
    case Sequenced => !AttestedIn(log, k) && !FailedIn(log, k)
    case Preconfirmed => AttestedIn(log, k) && !Settled(log, k)
    case FinalProven =>
      exists n: nat :: n < |Of(Outcomes, log)| && Of(Outcomes, log)[n].SlotsProven? && Covers(Of(Outcomes, log)[n], k)
    case Failed(reason) => FailsWith(log, k, reason)
    case _ => false
  }

  ghost predicate FailsWith(log: seq<Entry>, k: nat, reason: string) {
    (FailedIn(log, k) && Of(Rulings, log)[k].reason == reason) ||
    exists n: nat :: n < |Of(Outcomes, log)| && UnprovenFor(Of(Outcomes, log)[n], k, reason)
  }

  predicate UnprovenFor(e: Entry, k: nat, reason: string) {
    e.ProveFailed? && Covers(e, k) && e.reason == reason
  }

  lemma StageSays(cfg: Config, log: seq<Entry>, k: nat, l: Lifecycle)
    requires WellFormed(cfg, log) && k < |Of(Commits, log)|
    ensures StageLifecycle(StageIn(log, k)) == l <==> LogSays(log, k, l)
  {
    var outcomes := Of(Outcomes, log);
    StageMeans(cfg, log, k);
    hide WellFormed, Of;
    var o := OutcomeOf(outcomes, k);
    if o.Some? {
      var m: nat :| m < |outcomes| && outcomes[m] == o.value;
      forall n: nat | n < |outcomes| && Covers(outcomes[n], k)
        ensures outcomes[n] == o.value
      {
        SettledOnce(cfg, log, k, m, n);
      }
      assert Settled(log, k);
    }
    PassedExactlyOne(cfg, log, k);
  }

  /**
   * A receipt is given for exactly the intents a status is, with the same lifecycle: expired if and
   * only if dropped, received if and only if in no slot either, and otherwise what the log says of
   * its slot. While it is in no slot, it shows no position and no evidence.
   */
  lemma ReceiptLifecycle(cfg: Config, log: seq<Entry>, id: IntentId, now: nat)
    requires WellFormed(cfg, log)
    ensures ReceiptOf(cfg.guarantee, Replay(log), id, now).Some? <==> StatusOf(Replay(log), id).Some?
    ensures ReceiptOf(cfg.guarantee, Replay(log), id, now).Some? ==>
      (var r := ReceiptOf(cfg.guarantee, Replay(log), id, now).value;
       r.lifecycle == StatusOf(Replay(log), id).value.lifecycle &&
       (r.lifecycle == Expired <==> Dropped(log, id)) &&
       (r.lifecycle == Received <==> !Dropped(log, id) && !Placed(log, id)) &&
       (!Dropped(log, id) ==>
          forall k: nat, u: nat, l: Lifecycle ::
            PlacedAt(log, k, u, id) ==> (r.lifecycle == l <==> LogSays(log, k, l))) &&
       (!Placed(log, id) ==> r.sequence.None? && r.preconf.None? && r.proof.None?))
  {
    hide WellFormed, Replay, StageIn, LogSays, Of;
    LifecycleMeans(cfg, log, id);
    ReplayedIntents(cfg, log);
    if WasReceived(log, id) {
      assert RowMeans(log, id, Replay(log).intents[id]);
      var r := ReceiptOf(cfg.guarantee, Replay(log), id, now).value;
      assert LifecycleIn(Replay(log), id) == Some(r.lifecycle);
      forall k: nat, u: nat, l: Lifecycle | PlacedAt(log, k, u, id) && !Dropped(log, id)
        ensures r.lifecycle == l <==> LogSays(log, k, l)
      {
        StageSays(cfg, log, k, l);
        assert LifecycleIn(Replay(log), id) == Some(StageLifecycle(StageIn(log, k)));
      }
    }
  }

  /** A receipt's evidence checks out against the log: position, preconfirmation and proof. */
  lemma EvidenceVerifies(cfg: Config, log: seq<Entry>, id: IntentId, now: nat, k: nat, u: nat) returns (r: Receipt)
    requires WellFormed(cfg, log) && PlacedAt(log, k, u, id) && k < U64
    ensures ReceiptOf(cfg.guarantee, Replay(log), id, now) == Some(r)
    ensures r.sequence == Some(SequencePosition(k, Rank(u), Commit(cfg.keccak, k, Of(Commits, log)[k].intents)))
    ensures r.sequence.value.index == u % 0x1_0000_0000
    ensures r.preconf.Some? <==> AttestedIn(log, k)
    ensures r.preconf.Some? ==>
      (var c := r.preconf.value;
       c.slot == k &&
       var claim := PreconfClaim(k, c.commitment, c.quote, c.signature);
       VerifyPreconf(cfg.keccak, cfg.measurement, claim, Of(Commits, log)[k].intents)
       == Accepted)
    ensures r.proof.Some? <==> StageIn(log, k) == StageProven
    ensures r.proof.Some? ==>
      (var range := r.proof.value;
       range.fromSlot <= k <= range.toSlot < |Of(Commits, log)| &&
       MockVerify(cfg.keccak, range.handle, Batch(log, range.fromSlot, range.toSlot)) == Valid)
  {
    var v := Replay(log);
    PlacedWasReceived(cfg, log, k, u, id);
    ReplayedSlots(cfg, log);
    ReplayedIntents(cfg, log);
    LifecycleMeans(cfg, log, id);
    var row := v.intents[id];
    assert RowMeans(log, id, row);
    MetInTime(cfg, log, id, row, k, u);
    assert v.slots[k] == RowIn(log, k);
    CommitsNumbered(cfg, log, k);
    r := ReceiptOf(cfg.guarantee, v, id, now).value;
    if AttestedIn(log, k) {
      AttestationsVerify(cfg, log, k);
    }
    StageProofAgree(cfg, log, k);
  }

  lemma StageProofAgree(cfg: Config, log: seq<Entry>, k: nat)
    requires WellFormed(cfg, log) && k < |Of(Commits, log)|
    ensures ProofIn(log, k).Some? <==> StageIn(log, k) == StageProven
    ensures ProofIn(log, k).Some? ==>
      (var range := ProofIn(log, k).value;
       range.fromSlot <= k <= range.toSlot < |Of(Commits, log)| &&
       MockVerify(cfg.keccak, range.handle, Batch(log, range.fromSlot, range.toSlot)) == Valid)
  {
    var outcomes := Of(Outcomes, log);
    PassedExactlyOne(cfg, log, k);
    var o := OutcomeOf(outcomes, k);
    if o.Some? {
      var n: nat :| n < |outcomes| && outcomes[n] == o.value;
      assert Settled(log, k);
      if o.value.SlotsProven? {
        ProofsVerify(cfg, log, n);
      }
    }
  }
}
