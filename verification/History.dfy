/**
 * What a log means: every entry is justified by the entries before it. This is the invariant
 * all stages keep together, and everything a reader may conclude from a log follows from it.
 */
module History {
  import opened Bytes
  import opened Intents
  import opened Logs
  import opened Seqs
  import opened Buffers
  import opened Slots
  import opened Guarantees
  import opened Attestation
  import opened Proofs

  datatype Config = Config(keccak: Hash, guarantee: GuaranteeConfig, batchSize: nat, measurement: Digest) {
    function Window(): nat { guarantee.WindowSize() }
  }

  // ----- reading a log by kind of entry -----

  datatype Kind = Receipts | Commits | Rulings | Outcomes

  predicate Is(kind: Kind, e: Entry) {
    match kind
    case Receipts => e.IntentReceived?
    case Commits => e.SlotCommitted?
    case Rulings => e.SlotAttested? || e.AttestFailed?
    case Outcomes => e.SlotsProven? || e.ProveFailed?
  }

  function Of(kind: Kind, log: seq<Entry>): (r: seq<Entry>)
    ensures |r| <= |log|
    ensures forall i :: 0 <= i < |r| ==> Is(kind, r[i])
  {
    if log == [] then []
    else
      var n := |log| - 1;
      if Is(kind, log[n]) then Of(kind, log[..n]) + [log[n]] else Of(kind, log[..n])
  }

  lemma OfSnoc(kind: Kind, log: seq<Entry>, e: Entry)
    ensures Of(kind, log + [e]) == if Is(kind, e) then Of(kind, log) + [e] else Of(kind, log)
  {
    assert (log + [e])[..|log|] == log;
  }

  lemma {:induction false} OfConcat(kind: Kind, x: seq<Entry>, y: seq<Entry>)
    ensures Of(kind, x + y) == Of(kind, x) + Of(kind, y)
  {
    if y == [] {
      assert x + y == x;
    } else {
      var z, e := y[..|y| - 1], y[|y| - 1];
      assert y == z + [e];
      OfConcat(kind, x, z);
      Assoc(x, z, [e]);
      OfSnoc(kind, x + z, e);
      Assoc(Of(kind, x), Of(kind, z), [e]);
    }
  }

  lemma OfPrefix(kind: Kind, log: seq<Entry>, n: nat)
    requires n <= |log|
    ensures Of(kind, log) == Of(kind, log[..n]) + Of(kind, log[n..])
    ensures |Of(kind, log[..n])| <= |Of(kind, log)|
  {
    assert log == log[..n] + log[n..];
    OfConcat(kind, log[..n], log[n..]);
  }

  lemma OfMonotone(kind: Kind, log: seq<Entry>, m: nat, n: nat)
    requires m <= n <= |log|
    ensures |Of(kind, log[..m])| <= |Of(kind, log[..n])| <= |Of(kind, log)|
    ensures Of(kind, log[..m]) <= Of(kind, log[..n]) <= Of(kind, log)
  {
    assert log[..n][..m] == log[..m];
    OfPrefix(kind, log[..n], m);
    OfPrefix(kind, log, n);
  }

  lemma Progress(kind: Kind, log: seq<Entry>, i: nat)
    requires i < |log|
    ensures Of(kind, log[..i + 1]) == if Is(kind, log[i]) then Of(kind, log[..i]) + [log[i]] else Of(kind, log[..i])
  {
    assert log[..i + 1] == log[..i] + [log[i]];
    OfSnoc(kind, log[..i], log[i]);
  }

  /** The entry at position `i` is the one numbered by how many of its kind came before. */
  lemma OfAt(kind: Kind, log: seq<Entry>, i: nat)
    requires i < |log| && Is(kind, log[i])
    ensures |Of(kind, log[..i])| < |Of(kind, log)| && Of(kind, log)[|Of(kind, log[..i])|] == log[i]
    ensures |Of(kind, log[..i + 1])| == |Of(kind, log[..i])| + 1
  {
    assert log[..i + 1] == log[..i] + [log[i]];
    OfSnoc(kind, log[..i], log[i]);
    OfPrefix(kind, log, i + 1);
  }

  lemma {:induction false} OfFrom(kind: Kind, log: seq<Entry>, k: nat) returns (i: nat)
    requires k < |Of(kind, log)|
    ensures i < |log| && log[i] == Of(kind, log)[k] && |Of(kind, log[..i])| == k && Is(kind, log[i])
  {
    var n := |log| - 1;
    if Is(kind, log[n]) && k == |Of(kind, log[..n])| {
      i := n;
    } else {
      i := OfFrom(kind, log[..n], k);
      assert log[..n][..i] == log[..i];
    }
  }

  // ----- what the sequencer buffers -----

  function PendingOf(e: Entry): Pending
    requires e.IntentReceived?
  {
    NewPending(e.intentId, e.intent, e.receivedAt)
  }

  function Pendings(entries: seq<Entry>): (r: seq<Pending>)
    ensures |r| == |Of(Receipts, entries)|
    ensures forall i :: 0 <= i < |r| ==> r[i] == PendingOf(Of(Receipts, entries)[i])
  {
    var received := Of(Receipts, entries);
    seq(|received|, i requires 0 <= i < |received| => PendingOf(received[i]))
  }

  lemma PendingsConcat(x: seq<Entry>, y: seq<Entry>)
    ensures Pendings(x + y) == Pendings(x) + Pendings(y)
  {
    OfConcat(Receipts, x, y);
  }

  lemma PendingsSnoc(x: seq<Entry>, e: Entry)
    ensures Pendings(x + [e]) == if e.IntentReceived? then Pendings(x) + [PendingOf(e)] else Pendings(x)
  {
    OfSnoc(Receipts, x, e);
  }

  lemma SliceStays(log: seq<Entry>, e: Entry, a: nat, b: nat)
    requires a <= b <= |log|
    ensures (log + [e])[a..b] == log[a..b]
  {
  }

  lemma SliceSnoc(log: seq<Entry>, a: nat, b: nat)
    requires a <= b < |log|
    ensures log[a..b + 1] == log[a..b] + [log[b]]
  {
  }

  /** Reading one more entry extends a buffer by what that entry admits. */
  lemma ReadStep(buffer: seq<Pending>, log: seq<Entry>, from: nat, k: nat)
    requires from <= k < |log|
    ensures buffer + Pendings(log[from..k + 1]) == if log[k].IntentReceived?
      then buffer + Pendings(log[from..k]) + [PendingOf(log[k])]
      else buffer + Pendings(log[from..k])
  {
    SliceSnoc(log, from, k);
    PendingsSnoc(log[from..k], log[k]);
  }

  /** How far the last committed slot had consumed the log. */
  function Consumed(log: seq<Entry>): nat {
    var commits := Of(Commits, log);
    if commits == [] then 0 else commits[|commits| - 1].consumedUpTo
  }

  lemma ConsumedSnoc(log: seq<Entry>, e: Entry)
    ensures Consumed(log + [e]) == if e.SlotCommitted? then e.consumedUpTo else Consumed(log)
  {
    OfSnoc(Commits, log, e);
  }

  /** The buffer of a sequencer that has read up to `upTo` since the last slot. */
  function Taken(log: seq<Entry>, upTo: nat): seq<Pending>
    requires Consumed(log) <= upTo <= |log|
  {
    Pendings(log[Consumed(log)..upTo])
  }

  /** The slot such a sequencer closes at `t`, as pending intents. */
  function LiveOrder(cfg: Config, log: seq<Entry>, upTo: nat, t: nat): seq<Pending>
    requires Consumed(log) <= upTo <= |log|
  {
    SlotOrder(Filter(Live(cfg.Window(), t), Taken(log, upTo)))
  }

  // ----- what a prover proves -----

  function SlotOf(e: Entry): CommittedSlot
    requires e.SlotCommitted?
  {
    CommittedSlot(e.slot, e.intents, e.commitment)
  }

  predicate AttestedIn(log: seq<Entry>, k: nat) {
    k < |Of(Rulings, log)| && Of(Rulings, log)[k].SlotAttested?
  }

  predicate FailedIn(log: seq<Entry>, k: nat) {
    k < |Of(Rulings, log)| && Of(Rulings, log)[k].AttestFailed?
  }

  /** The first slot no recorded outcome has passed. */
  function OutcomeNext(log: seq<Entry>): nat {
    var outcomes := Of(Outcomes, log);
    if outcomes == [] then 0 else outcomes[|outcomes| - 1].toSlot + 1
  }

  function Batch(log: seq<Entry>, from: nat, to: nat): seq<CommittedSlot>
    requires from <= to < |Of(Commits, log)|
  {
    seq(to + 1 - from, i requires 0 <= i < to + 1 - from => SlotOf(Of(Commits, log)[from + i]))
  }

  // ----- justification -----

  predicate ReceivedAs(log: seq<Entry>, p: nat, id: IntentId) {
    p < |log| && log[p].IntentReceived? && log[p].intentId == id
  }

  ghost predicate Dropped(log: seq<Entry>, id: IntentId) {
    exists i :: 0 <= i < |log| && log[i].IntentExpired? && log[i].intentId == id
  }

  predicate Admissible(cfg: Config, log: seq<Entry>, e: Entry)
    requires e.IntentReceived?
  {
    e.intentId == Id(cfg.keccak, e.intent) &&
    e.receivedAt + cfg.Window() <= e.intent.deadlineMs &&
    (forall i :: 0 <= i < |log| && log[i].IntentReceived? ==> log[i].intentId != e.intentId) &&
    (forall i :: 0 <= i < |log| && log[i].IntentReceived? && log[i].intent.submitter == e.intent.submitter
       ==> log[i].intent.nonce < e.intent.nonce)
  }

  ghost predicate TrulyMissed(cfg: Config, log: seq<Entry>, e: Entry)
    requires e.IntentExpired?
  {
    e.guaranteeDeadline < e.atMs &&
    exists p :: Consumed(log) <= p < |log| && ReceivedAs(log, p, e.intentId) &&
      e.guaranteeDeadline == cfg.guarantee.DeadlineFor(log[p].receivedAt)
  }

  predicate OverdueAt(cfg: Config, log: seq<Entry>, p: nat, t: nat)
    requires p < |log|
  {
    log[p].IntentReceived? && cfg.guarantee.DeadlineFor(log[p].receivedAt) < t
  }

  ghost predicate FairSlot(cfg: Config, log: seq<Entry>, e: Entry)
    requires e.SlotCommitted?
  {
    e.slot == |Of(Commits, log)| &&
    Consumed(log) <= e.consumedUpTo <= |log| &&
    e.intents == Ids(LiveOrder(cfg, log, e.consumedUpTo, e.committedAt)) &&
    e.commitment == Commit(cfg.keccak, e.slot, e.intents) &&
    forall p :: Consumed(log) <= p < e.consumedUpTo && OverdueAt(cfg, log, p, e.committedAt)
      ==> Dropped(log, log[p].intentId)
  }

  predicate NextRuling(log: seq<Entry>, e: Entry)
    requires Is(Rulings, e)
  {
    e.slot == |Of(Rulings, log)| < |Of(Commits, log)|
  }

  /** The range opens at the first slot not yet passed, skipping only failed ones, and is all attested. */
  predicate NextRange(cfg: Config, log: seq<Entry>, from: nat, to: nat) {
    OutcomeNext(log) <= from <= to < |Of(Rulings, log)| &&
    to + 1 - from <= cfg.batchSize &&
    (forall k :: OutcomeNext(log) <= k < from ==> FailedIn(log, k)) &&
    (forall k :: from <= k <= to ==> AttestedIn(log, k))
  }

  ghost predicate Justified(cfg: Config, log: seq<Entry>, e: Entry) {
    match e
    case IntentReceived(_, _, _) => Admissible(cfg, log, e)
    case IntentExpired(_, _, _) => TrulyMissed(cfg, log, e)
    case SlotCommitted(_, _, _, _, _) => FairSlot(cfg, log, e)
    case SlotAttested(slot, quote, signature) =>
      NextRuling(log, e) &&
      quote == EncodeQuote(slot, Of(Commits, log)[slot].commitment, cfg.measurement) &&
      signature == MockOver(cfg.keccak, Of(Commits, log)[slot].commitment)
    case AttestFailed(_, _) => NextRuling(log, e)
    case SlotsProven(from, to, proof) =>
      NextRange(cfg, log, from, to) && to < |Of(Commits, log)| &&
      proof == Handle(cfg.keccak, Batch(log, from, to))
    case ProveFailed(from, to, _) => NextRange(cfg, log, from, to)
  }

  ghost predicate JustifiedAt(cfg: Config, log: seq<Entry>, i: nat)
    requires i < |log|
  {
    Justified(cfg, log[..i], log[i])
  }

  ghost predicate WellFormed(cfg: Config, log: seq<Entry>) {
    forall i: nat :: i < |log| ==> JustifiedAt(cfg, log, i)
  }

  /** Entries the gate and the sequencer write. */
  predicate Fronted(e: Entry) {
    e.IntentReceived? || e.IntentExpired? || e.SlotCommitted?
  }

  /** The part of well-formedness that gate and sequencer keep by themselves, whatever the stages behind them do. */
  ghost predicate Orderly(cfg: Config, log: seq<Entry>) {
    forall i: nat :: i < |log| && Fronted(log[i]) ==> JustifiedAt(cfg, log, i)
  }

  lemma WellFormedIsOrderly(cfg: Config, log: seq<Entry>)
    requires WellFormed(cfg, log)
    ensures Orderly(cfg, log)
  {
  }

  lemma AdmittedAt(cfg: Config, log: seq<Entry>, i: nat)
    requires Orderly(cfg, log) && i < |log| && log[i].IntentReceived?
    ensures Admissible(cfg, log[..i], log[i])
  {
    assert JustifiedAt(cfg, log, i);
  }

  lemma MissedAt(cfg: Config, log: seq<Entry>, i: nat)
    requires Orderly(cfg, log) && i < |log| && log[i].IntentExpired?
    ensures TrulyMissed(cfg, log[..i], log[i])
  {
    assert JustifiedAt(cfg, log, i);
  }

  lemma FairAt(cfg: Config, log: seq<Entry>, i: nat)
    requires Orderly(cfg, log) && i < |log| && log[i].SlotCommitted?
    ensures FairSlot(cfg, log[..i], log[i])
  {
    assert JustifiedAt(cfg, log, i);
  }

  lemma RuledAt(cfg: Config, log: seq<Entry>, i: nat)
    requires WellFormed(cfg, log) && i < |log| && Is(Rulings, log[i])
    ensures NextRuling(log[..i], log[i])
    ensures log[i].SlotAttested? ==>
      var c := Of(Commits, log[..i])[log[i].slot].commitment;
      log[i].quote == EncodeQuote(log[i].slot, c, cfg.measurement) && log[i].signature == MockOver(cfg.keccak, c)
  {
    assert JustifiedAt(cfg, log, i);
  }

  lemma RangeAt(cfg: Config, log: seq<Entry>, i: nat)
    requires WellFormed(cfg, log) && i < |log| && Is(Outcomes, log[i])
    ensures NextRange(cfg, log[..i], log[i].fromSlot, log[i].toSlot)
    ensures log[i].SlotsProven? ==>
      (log[i].toSlot < |Of(Commits, log[..i])| &&
       log[i].proof == Handle(cfg.keccak, Batch(log[..i], log[i].fromSlot, log[i].toSlot)))
  {
    assert JustifiedAt(cfg, log, i);
  }

  lemma Extend(cfg: Config, log: seq<Entry>, e: Entry)
    ensures WellFormed(cfg, log + [e]) <==> WellFormed(cfg, log) && Justified(cfg, log, e)
  {
    var l := log + [e];
    forall i | 0 <= i < |l|
      ensures l[..i] == if i < |log| then log[..i] else log
    {
    }
    if WellFormed(cfg, l) {
      forall i: nat | i < |log|
        ensures JustifiedAt(cfg, log, i)
      {
        assert JustifiedAt(cfg, l, i);
      }
      assert JustifiedAt(cfg, l, |log|);
    }
    if WellFormed(cfg, log) && Justified(cfg, log, e) {
      forall i: nat | i < |l|
        ensures JustifiedAt(cfg, l, i)
      {
        assert i < |log| ==> JustifiedAt(cfg, log, i);
      }
    }
  }

  lemma ExtendOrderly(cfg: Config, log: seq<Entry>, e: Entry)
    ensures Orderly(cfg, log + [e]) <==> Orderly(cfg, log) && (Fronted(e) ==> Justified(cfg, log, e))
  {
    var l := log + [e];
    forall i | 0 <= i < |l|
      ensures l[..i] == if i < |log| then log[..i] else log
    {
    }
    if Orderly(cfg, l) {
      forall i: nat | i < |log| && Fronted(log[i])
        ensures JustifiedAt(cfg, log, i)
      {
        assert JustifiedAt(cfg, l, i);
      }
      assert Fronted(e) ==> JustifiedAt(cfg, l, |log|);
    }
    if Orderly(cfg, log) && (Fronted(e) ==> Justified(cfg, log, e)) {
      forall i: nat | i < |l| && Fronted(l[i])
        ensures JustifiedAt(cfg, l, i)
      {
        assert i < |log| ==> JustifiedAt(cfg, log, i);
      }
    }
  }

  lemma PrefixOrderly(cfg: Config, log: seq<Entry>, n: nat)
    requires Orderly(cfg, log) && n <= |log|
    ensures Orderly(cfg, log[..n])
  {
    forall i: nat | i < n && Fronted(log[..n][i])
      ensures JustifiedAt(cfg, log[..n], i)
    {
      assert JustifiedAt(cfg, log, i);
      assert log[..n][..i] == log[..i];
    }
  }

  lemma PrefixWellFormed(cfg: Config, log: seq<Entry>, n: nat)
    requires WellFormed(cfg, log) && n <= |log|
    ensures WellFormed(cfg, log[..n])
  {
    forall i: nat | i < n
      ensures JustifiedAt(cfg, log[..n], i)
    {
      assert JustifiedAt(cfg, log, i);
      assert log[..n][..i] == log[..i];
    }
  }

  // ----- numbering -----

  /** Slots are numbered 0, 1, 2, … with no gap, in the order they were committed. */
  lemma CommitsNumbered(cfg: Config, log: seq<Entry>, k: nat)
    requires Orderly(cfg, log) && k < |Of(Commits, log)|
    ensures Of(Commits, log)[k].slot == k
    ensures Of(Commits, log)[k].commitment == Commit(cfg.keccak, k, Of(Commits, log)[k].intents)
  {
    var i := OfFrom(Commits, log, k);
    FairAt(cfg, log, i);
  }

  /** One ruling per slot, in slot order, each after its own commit. */
  lemma RulingsNumbered(cfg: Config, log: seq<Entry>, i: nat)
    requires WellFormed(cfg, log) && i < |log| && Is(Rulings, log[i])
    ensures |Of(Rulings, log[..i])| == log[i].slot < |Of(Commits, log[..i])|
    ensures |Of(Rulings, log)| <= |Of(Commits, log)|
  {
    RuledAt(cfg, log, i);
    RulingsBehindCommits(cfg, log);
  }

  lemma {:induction false} RulingsBehindCommits(cfg: Config, log: seq<Entry>)
    requires WellFormed(cfg, log)
    ensures |Of(Rulings, log)| <= |Of(Commits, log)|
  {
    var n := |Of(Rulings, log)|;
    if n > 0 {
      var i := OfFrom(Rulings, log, n - 1);
      RuledAt(cfg, log, i);
      OfPrefix(Commits, log, i);
    }
  }

  lemma OutcomesBehindRulings(cfg: Config, log: seq<Entry>)
    requires WellFormed(cfg, log)
    ensures OutcomeNext(log) <= |Of(Rulings, log)|
  {
    var n := |Of(Outcomes, log)|;
    if n > 0 {
      var i := OfFrom(Outcomes, log, n - 1);
      RangeAt(cfg, log, i);
      OfPrefix(Rulings, log, i);
    }
  }
}
