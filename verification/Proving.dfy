/** The proving stage (`Prover::run`, `flush` and `recover_prover`, src/prove/mod.rs). */
module Proving {
  import opened Bytes
  import opened Logs
  import opened Seqs
  import opened Proofs
  import opened History
  import opened Ledger
  import opened Attesting

  datatype ProveError =
    | SlotGap(expected: nat, got: nat)
    | MissingCommit(slot: nat)
    | EmptyFlush  // `flush` unwraps the first slot of an empty batch

  /**
   * `batch` is what is left of the entries last read, all of which `cursor` has passed;
   * `flushing` is a batch handed to the backend whose outcome is not yet recorded.
   */
  datatype ProverState = ProverState(
    awaiting: map<nat, CommittedSlot>, pending: seq<CommittedSlot>, nextSlot: nat, cursor: nat,
    batch: seq<Entry>, flushing: seq<CommittedSlot>, fault: Option<ProveError>)

  function BeginFlush(p: ProverState): ProverState {
    if p.pending == [] then p.(fault := Some(EmptyFlush)) else p.(flushing := p.pending, pending := [])
  }

  function AfterEntry(p: ProverState, batchSize: nat): ProverState {
    if |p.pending| >= batchSize then BeginFlush(p) else p
  }

  /** The loop body over one entry, up to the flush it may start. */
  function OnEntry(p: ProverState, e: Entry, batchSize: nat): (q: ProverState)
    ensures q.batch == p.batch && q.cursor == p.cursor
  {
    match e
    case SlotCommitted(slot, _, _, _, _) =>
      AfterEntry(p.(awaiting := p.awaiting[slot := SlotOf(e)]), batchSize)
    case SlotAttested(slot, _, _) =>
      if slot < p.nextSlot then p
      else if slot != p.nextSlot then p.(fault := Some(SlotGap(p.nextSlot, slot)))
      else if slot !in p.awaiting then p.(fault := Some(MissingCommit(slot)))
      else AfterEntry(p.(awaiting := p.awaiting - {slot}, pending := p.pending + [p.awaiting[slot]],
                         nextSlot := p.nextSlot + 1), batchSize)
    case AttestFailed(slot, _) =>
      if slot < p.nextSlot then p
      else if slot != p.nextSlot then p.(fault := Some(SlotGap(p.nextSlot, slot)))
      else
        var q := p.(awaiting := p.awaiting - {slot}, nextSlot := p.nextSlot + 1);
        AfterEntry(if q.pending == [] then q else BeginFlush(q), batchSize)
    case _ => AfterEntry(p, batchSize)
  }

  /** What a flush records: a proof of the whole batch, or its failure. */
  function OutcomeEntry(keccak: Hash, slots: seq<CommittedSlot>, failure: Option<string>): Entry
    requires slots != []
  {
    var from, to := slots[0].slot, slots[|slots| - 1].slot;
    match failure
    case None => SlotsProven(from, to, Handle(keccak, slots))
    case Some(reason) => ProveFailed(from, to, reason)
  }

  /** A flush that succeeds records a proof the backend accepts for that batch; one that fails records why. */
  lemma OutcomeReports(keccak: Hash, slots: seq<CommittedSlot>, failure: Option<string>)
    requires slots != []
    ensures var e := OutcomeEntry(keccak, slots, failure);
      e.fromSlot == slots[0].slot && e.toSlot == slots[|slots| - 1].slot &&
      (e.SlotsProven? <==> failure.None?) && (e.SlotsProven? ==> MockVerify(keccak, e.proof, slots) == Valid) &&
      (e.ProveFailed? ==> failure == Some(e.reason))
  {
  }

  // ----- recovery -----

  /** The newest slot with an outcome. */
  function OutcomeThrough(log: seq<Entry>): (r: Option<nat>)
    ensures r.None? ==> forall i :: 0 <= i < |log| ==> !Is(Outcomes, log[i])
    ensures r.Some? ==> forall i :: 0 <= i < |log| && Is(Outcomes, log[i]) ==> log[i].toSlot <= r.value
    ensures r.Some? ==> exists i :: 0 <= i < |log| && Is(Outcomes, log[i]) && log[i].toSlot == r.value
  {
    if log == [] then None
    else
      var n := |log| - 1;
      assert forall i :: 0 <= i < n ==> log[..n][i] == log[i];
      if Is(Outcomes, log[n]) then MaxSlot(OutcomeThrough(log[..n]), log[n].toSlot) else OutcomeThrough(log[..n])
  }

  /** The first slot past every outcome of a scan. */
  function Unproven(scan: seq<Entry>): nat {
    match OutcomeThrough(scan) case None => 0 case Some(d) => d + 1
  }

  /** `recover_prover`: a scan of the log, and the head read after it. */
  function ProverResume(scan: seq<Entry>, head: nat): ProverState {
    var cursor := match SlotPosition(scan, Unproven(scan)) case Some(pos) => pos case None => head;
    ProverState(map[], [], Unproven(scan), cursor, [], [], None)
  }

  /** The head stands in for the next slot to prove, though a slot was committed since the scan of `log[..n]`. */
  predicate ProverRaced(log: seq<Entry>, n: nat)
    requires n <= |log|
  {
    SlotPosition(log[..n], Unproven(log[..n])).None? && Of(Commits, log[n..]) != []
  }

  lemma {:induction false} OutcomeThroughIs(cfg: Config, log: seq<Entry>)
    requires WellFormed(cfg, log)
    ensures Unproven(log) == OutcomeNext(log)
  {
    if log != [] {
      var n := |log| - 1;
      PrefixWellFormed(cfg, log, n);
      OutcomeThroughIs(cfg, log[..n]);
      if Is(Outcomes, log[n]) {
        RangeAt(cfg, log, n);
      }
    }
  }

  // ----- the invariant -----

  predicate AllFailed(log: seq<Entry>, from: nat, to: nat) {
    forall k :: from <= k < to ==> FailedIn(log, k)
  }

  /** The held slots are an unbroken attested run, with nothing but failed slots around it. */
  predicate Holding(log: seq<Entry>, held: seq<CommittedSlot>, nextSlot: nat) {
    if held == [] then
      AllFailed(log, OutcomeNext(log), nextSlot)
    else
      var lo := held[0].slot;
      var hi := lo + |held|;
      OutcomeNext(log) <= lo && hi <= nextSlot && hi <= |Of(Commits, log)| &&
      held == Batch(log, lo, hi - 1) &&
      AllFailed(log, OutcomeNext(log), lo) && AllFailed(log, hi, nextSlot) &&
      forall k :: lo <= k < hi ==> AttestedIn(log, k)
  }

  function Done(p: ProverState): int {
    p.cursor - |p.batch|
  }

  /**
   * What waits for its ruling is what was committed, at or past `from`. `sure` says nothing is
   * missing from it, nor was any ruling passed unread: what only an unraced resumption can give.
   */
  ghost predicate AwaitingIs(log: seq<Entry>, awaiting: map<nat, CommittedSlot>, from: nat, to: nat, sure: bool) {
    to <= |Of(Commits, log)| &&
    (forall k: nat :: k in awaiting ==> from <= k < to) &&
    (sure ==> forall k: nat :: from <= k < to ==> k in awaiting) &&
    (forall k: nat :: k in awaiting ==> awaiting[k] == SlotOf(Of(Commits, log)[k]))
  }

  /** The batch in hand is the stretch of log between what was processed and the cursor. */
  predicate Reading(log: seq<Entry>, p: ProverState) {
    0 <= Done(p) && p.cursor <= |log| && p.batch == log[Done(p)..p.cursor]
  }

  /** `nextSlot` against what was processed up to position `d`, and against the whole log. */
  predicate Counting(log: seq<Entry>, d: nat, nextSlot: nat, sure: bool)
    requires d <= |log|
  {
    nextSlot <= |Of(Commits, log[..d])| && (sure ==> |Of(Rulings, log[..d])| <= nextSlot) &&
    OutcomeNext(log) <= nextSlot <= |Of(Rulings, log)|
  }

  /** Holds between entries; `cap` bounds what may be pending. */
  ghost predicate Tracks(cfg: Config, log: seq<Entry>, p: ProverState, cap: int, sure: bool) {
    p.fault.None? && Reading(log, p) && Counting(log, Done(p), p.nextSlot, sure) &&
    AwaitingIs(log, p.awaiting, p.nextSlot, |Of(Commits, log[..Done(p)])|, sure) &&
    (p.flushing == [] || p.pending == []) &&
    |p.flushing| <= cfg.batchSize && |p.pending| <= cap &&
    Holding(log, p.flushing + p.pending, p.nextSlot) &&
    (p.pending != [] ==> p.pending[0].slot + |p.pending| == p.nextSlot)
  }

  ghost predicate Going(cfg: Config, log: seq<Entry>, p: ProverState, sure: bool) {
    Tracks(cfg, log, p, cfg.batchSize - 1, sure)
  }

  predicate Stopped(p: ProverState) {
    p.fault.Some? && p.flushing == []
  }

  /** A sure prover is always going; one that is not may have stopped, with nothing left to write. */
  ghost predicate ProverInv(cfg: Config, log: seq<Entry>, p: ProverState, sure: bool) {
    Going(cfg, log, p, sure) || (!sure && Stopped(p))
  }

  /** A scan with no outcome since names the first slot unproven, and where it begins unless it is yet to come. */
  lemma ScanPoint(cfg: Config, log: seq<Entry>, n: nat)
    requires WellFormed(cfg, log) && n <= |log| && Of(Outcomes, log) == Of(Outcomes, log[..n])
    ensures var next := Unproven(log[..n]);
      next == OutcomeNext(log) <= |Of(Rulings, log)| &&
      match SlotPosition(log[..n], next)
      case Some(i) => |Of(Commits, log[..i])| == next
      case None => |Of(Commits, log[..n])| == next
  {
    var scan := log[..n];
    PrefixWellFormed(cfg, log, n);
    OutcomeThroughIs(cfg, scan);
    OutcomesBehindRulings(cfg, scan);
    OfPrefix(Rulings, log, n);
    ResumePoint(cfg, log, n, Unproven(scan));
  }

  lemma ResumeGoes(cfg: Config, log: seq<Entry>, p: ProverState, sure: bool)
    requires WellFormed(cfg, log) && cfg.batchSize >= 1 && p.cursor <= |log|
    requires p == ProverState(map[], [], OutcomeNext(log), p.cursor, [], [], None)
    requires OutcomeNext(log) <= |Of(Rulings, log)| && OutcomeNext(log) <= |Of(Commits, log[..p.cursor])|
    ensures Going(cfg, log, p, sure) <==> !sure || |Of(Commits, log[..p.cursor])| == p.nextSlot
  {
    hide WellFormed, AttestedIn, FailedIn, Of, OutcomeNext;
    PrefixWellFormed(cfg, log, p.cursor);
    RulingsBehindCommits(cfg, log[..p.cursor]);
    OfPrefix(Commits, log, p.cursor);
    assert log[p.cursor..p.cursor] == [];
    if p.nextSlot < |Of(Commits, log[..p.cursor])| {
      assert p.nextSlot !in p.awaiting;
    }
  }

  /**
   * Resumption from a scan of `log[..n]` and a head read later picks up at the first slot no
   * outcome has passed, with nothing missed, if and only if the two were not raced. Raced or not,
   * what it goes on to write will be justified.
   */
  lemma ProverResumesExactly(cfg: Config, log: seq<Entry>, n: nat)
    requires WellFormed(cfg, log) && n <= |log| && Of(Outcomes, log) == Of(Outcomes, log[..n]) && cfg.batchSize >= 1
    ensures ProverInv(cfg, log, ProverResume(log[..n], |log|), true) <==> !ProverRaced(log, n)
    ensures ProverInv(cfg, log, ProverResume(log[..n], |log|), false)
  {
    hide WellFormed, Going, OutcomeThrough, OutcomeNext;
    ScanPoint(cfg, log, n);
    OfPrefix(Commits, log, n);
    assert log[..|log|] == log;
    ResumeGoes(cfg, log, ProverResume(log[..n], |log|), true);
    ResumeGoes(cfg, log, ProverResume(log[..n], |log|), false);
  }

  lemma BatchStays(log: seq<Entry>, e: Entry, from: nat, to: nat)
    requires from <= to < |Of(Commits, log)|
    ensures to < |Of(Commits, log + [e])| && Batch(log + [e], from, to) == Batch(log, from, to)
  {
    OfSnoc(Commits, log, e);
  }

  lemma RulingsGrow(log: seq<Entry>, e: Entry)
    ensures forall k: nat :: AttestedIn(log, k) ==> AttestedIn(log + [e], k)
    ensures forall k: nat :: FailedIn(log, k) ==> FailedIn(log + [e], k)
    ensures |Of(Rulings, log)| <= |Of(Rulings, log + [e])|
  {
    OfSnoc(Rulings, log, e);
  }

  lemma OutcomeNextStays(log: seq<Entry>, e: Entry)
    ensures OutcomeNext(log + [e]) == if Is(Outcomes, e) then e.toSlot + 1 else OutcomeNext(log)
  {
    OfSnoc(Outcomes, log, e);
  }

  lemma HoldingStays(log: seq<Entry>, held: seq<CommittedSlot>, nextSlot: nat, e: Entry)
    requires Holding(log, held, nextSlot) && !Is(Outcomes, e)
    ensures Holding(log + [e], held, nextSlot)
  {
    RulingsGrow(log, e);
    OutcomeNextStays(log, e);
    if held != [] {
      BatchStays(log, e, held[0].slot, held[0].slot + |held| - 1);
    }
  }

  lemma AwaitingStays(log: seq<Entry>, awaiting: map<nat, CommittedSlot>, from: nat, to: nat, e: Entry, sure: bool)
    requires AwaitingIs(log, awaiting, from, to, sure)
    ensures AwaitingIs(log + [e], awaiting, from, to, sure)
  {
    OfSnoc(Commits, log, e);
  }

  lemma CountingStays(log: seq<Entry>, d: nat, nextSlot: nat, e: Entry, sure: bool)
    requires d <= |log| && Counting(log, d, nextSlot, sure) && (Is(Outcomes, e) ==> e.toSlot < nextSlot)
    ensures Counting(log + [e], d, nextSlot, sure) && |Of(Commits, (log + [e])[..d])| == |Of(Commits, log[..d])|
  {
    SliceStays(log, e, 0, d);
    RulingsGrow(log, e);
    OutcomeNextStays(log, e);
  }

  lemma ProverUndisturbed(cfg: Config, log: seq<Entry>, p: ProverState, e: Entry, sure: bool)
    requires ProverInv(cfg, log, p, sure) && !Is(Outcomes, e)
    ensures ProverInv(cfg, log + [e], p, sure)
  {
    hide Holding, Counting, AwaitingIs;
    if Going(cfg, log, p, sure) {
      SliceStays(log, e, Done(p), p.cursor);
      CountingStays(log, Done(p), p.nextSlot, e, sure);
      HoldingStays(log, p.flushing + p.pending, p.nextSlot, e);
      AwaitingStays(log, p.awaiting, p.nextSlot, |Of(Commits, log[..Done(p)])|, e, sure);
    }
  }

  lemma BatchSlot(cfg: Config, log: seq<Entry>, from: nat, to: nat, i: nat)
    requires WellFormed(cfg, log) && from <= to < |Of(Commits, log)| && from + i <= to
    ensures Batch(log, from, to)[i].slot == from + i
  {
    WellFormedIsOrderly(cfg, log);
    hide WellFormed, Orderly, Of;
    CommitsNumbered(cfg, log, from + i);
    assert Batch(log, from, to)[i] == SlotOf(Of(Commits, log)[from + i]);
  }

  /** What is held is exactly a batch of the log. */
  lemma HeldIs(log: seq<Entry>, held: seq<CommittedSlot>, nextSlot: nat)
    requires held != [] && Holding(log, held, nextSlot)
    ensures var lo, hi := held[0].slot, held[0].slot + |held|;
      hi <= |Of(Commits, log)| && held == Batch(log, lo, hi - 1)
  {
    hide Of, AllFailed, AttestedIn, OutcomeNext;
  }

  lemma HeldRange(cfg: Config, log: seq<Entry>, held: seq<CommittedSlot>, nextSlot: nat)
    requires WellFormed(cfg, log) && held != [] && Holding(log, held, nextSlot)
    ensures var lo, hi := held[0].slot, held[0].slot + |held|;
      hi <= |Of(Commits, log)| && held[|held| - 1].slot == hi - 1 && held == Batch(log, lo, hi - 1)
  {
    hide WellFormed, Holding, Of, Batch;
    HeldIs(log, held, nextSlot);
    BatchSlot(cfg, log, held[0].slot, held[0].slot + |held| - 1, |held| - 1);
  }

  /** The outcome of a held batch is justified whenever it comes to be recorded. */
  lemma OutcomeJustified(cfg: Config, log: seq<Entry>, held: seq<CommittedSlot>, nextSlot: nat, failure: Option<string>)
    requires WellFormed(cfg, log) && held != [] && Holding(log, held, nextSlot)
    requires nextSlot <= |Of(Rulings, log)| && |held| <= cfg.batchSize
    ensures Justified(cfg, log, OutcomeEntry(cfg.keccak, held, failure))
  {
    HeldRange(cfg, log, held, nextSlot);
  }

  lemma OutcomeSettles(cfg: Config, log: seq<Entry>, held: seq<CommittedSlot>, nextSlot: nat, failure: Option<string>)
    requires WellFormed(cfg, log) && held != [] && Holding(log, held, nextSlot)
    ensures var l := log + [OutcomeEntry(cfg.keccak, held, failure)];
      Holding(l, [], nextSlot) && OutcomeNext(l) == held[0].slot + |held| <= nextSlot
  {
    HeldRange(cfg, log, held, nextSlot);
    RulingsGrow(log, OutcomeEntry(cfg.keccak, held, failure));
    OutcomeNextStays(log, OutcomeEntry(cfg.keccak, held, failure));
  }

  lemma RecordKeeps(cfg: Config, log: seq<Entry>, p: ProverState, failure: Option<string>, sure: bool)
    requires WellFormed(cfg, log) && Going(cfg, log, p, sure) && p.flushing != []
    ensures Going(cfg, log + [OutcomeEntry(cfg.keccak, p.flushing, failure)], p.(flushing := []), sure)
  {
    hide WellFormed, Holding, Counting, AwaitingIs, OutcomeEntry;
    var e := OutcomeEntry(cfg.keccak, p.flushing, failure);
    assert p.flushing + p.pending == p.flushing;
    OutcomeSettles(cfg, log, p.flushing, p.nextSlot, failure);
    HeldRange(cfg, log, p.flushing, p.nextSlot);
    SliceStays(log, e, Done(p), p.cursor);
    CountingStays(log, Done(p), p.nextSlot, e, sure);
    AwaitingStays(log, p.awaiting, p.nextSlot, |Of(Commits, log[..Done(p)])|, e, sure);
    assert p.(flushing := []).flushing + p.(flushing := []).pending == [];
  }

  /** Recording the outcome of a held batch is justified, and settles exactly that batch. */
  lemma ProverRecords(cfg: Config, log: seq<Entry>, p: ProverState, failure: Option<string>, sure: bool)
    requires WellFormed(cfg, log) && Going(cfg, log, p, sure) && p.flushing != []
    ensures Justified(cfg, log, OutcomeEntry(cfg.keccak, p.flushing, failure))
    ensures Going(cfg, log + [OutcomeEntry(cfg.keccak, p.flushing, failure)], p.(flushing := []), sure)
  {
    assert p.flushing + p.pending == p.flushing;
    OutcomeJustified(cfg, log, p.flushing, p.nextSlot, failure);
    RecordKeeps(cfg, log, p, failure, sure);
  }

  // ----- one entry -----

  lemma FlushKeeps(cfg: Config, log: seq<Entry>, p: ProverState, sure: bool)
    requires cfg.batchSize >= 1 && p.pending != []
    requires Tracks(cfg, log, p, cfg.batchSize, sure)
    ensures Going(cfg, log, BeginFlush(p), sure)
  {
    assert p.flushing + p.pending == p.pending == p.pending + [];
  }

  lemma AfterEntryKeeps(cfg: Config, log: seq<Entry>, p: ProverState, sure: bool)
    requires cfg.batchSize >= 1 && Tracks(cfg, log, p, cfg.batchSize, sure)
    ensures Going(cfg, log, AfterEntry(p, cfg.batchSize), sure)
  {
    if |p.pending| >= cfg.batchSize {
      FlushKeeps(cfg, log, p, sure);
    }
  }

  lemma HoldOneMore(log: seq<Entry>, held: seq<CommittedSlot>, next: nat)
    requires Holding(log, held, next) && next < |Of(Commits, log)| && AttestedIn(log, next) && OutcomeNext(log) <= next
    requires Of(Commits, log)[next].slot == next && (held != [] ==> held[0].slot + |held| == next)
    ensures Holding(log, held + [SlotOf(Of(Commits, log)[next])], next + 1)
  {
    var more := held + [SlotOf(Of(Commits, log)[next])];
    var lo := if held == [] then next else held[0].slot;
    assert more == Batch(log, lo, next);
  }

  lemma PassFailed(log: seq<Entry>, held: seq<CommittedSlot>, next: nat)
    requires Holding(log, held, next) && FailedIn(log, next)
    ensures Holding(log, held, next + 1)
  {
  }

  /** The ruling at the head of the batch is the next one counting from what was processed. */
  lemma RulingInBatch(cfg: Config, log: seq<Entry>, d: nat)
    requires WellFormed(cfg, log) && d < |log| && Is(Rulings, log[d])
    ensures log[d].slot == |Of(Rulings, log[..d])| < |Of(Commits, log[..d])| <= |Of(Commits, log)|
    ensures log[d].slot < |Of(Rulings, log)| && Of(Rulings, log)[log[d].slot] == log[d]
  {
    RuledAt(cfg, log, d);
    OfAt(Rulings, log, d);
    OfPrefix(Commits, log, d);
  }

  function Advance(p: ProverState): ProverState
    requires p.batch != []
  {
    p.(batch := p.batch[1..])
  }

  lemma AdvanceBatch(cfg: Config, log: seq<Entry>, p: ProverState, sure: bool)
    requires Going(cfg, log, p, sure) && p.batch != []
    ensures p.batch[0] == log[Done(p)] && Done(Advance(p)) == Done(p) + 1 && Done(p) < |log|
    ensures Advance(p).batch == log[Done(p) + 1..p.cursor]
  {
  }

  lemma AwaitingGrows(log: seq<Entry>, awaiting: map<nat, CommittedSlot>, from: nat, to: nat, sure: bool)
    requires AwaitingIs(log, awaiting, from, to, sure) && from <= to < |Of(Commits, log)|
    ensures AwaitingIs(log, awaiting[to := SlotOf(Of(Commits, log)[to])], from, to + 1, sure)
  {
  }

  lemma AwaitingShrinks(log: seq<Entry>, awaiting: map<nat, CommittedSlot>, from: nat, to: nat, sure: bool)
    requires AwaitingIs(log, awaiting, from, to, sure)
    ensures AwaitingIs(log, awaiting - {from}, from + 1, to, sure)
  {
  }

  lemma CommitInBatch(cfg: Config, log: seq<Entry>, d: nat)
    requires WellFormed(cfg, log) && d < |log| && log[d].SlotCommitted?
    ensures log[d].slot == |Of(Commits, log[..d])| < |Of(Commits, log)| && Of(Commits, log)[log[d].slot] == log[d]
  {
    FairAt(cfg, log, d);
    OfAt(Commits, log, d);
  }

  lemma CommitCounts(log: seq<Entry>, d: nat, nextSlot: nat, sure: bool)
    requires d < |log| && log[d].SlotCommitted? && Counting(log, d, nextSlot, sure)
    ensures Counting(log, d + 1, nextSlot, sure)
    ensures nextSlot <= |Of(Commits, log[..d])| == |Of(Commits, log[..d + 1])| - 1
  {
    Progress(Commits, log, d);
    Progress(Rulings, log, d);
  }

  lemma CommitStep(cfg: Config, log: seq<Entry>, p: ProverState, sure: bool)
    requires WellFormed(cfg, log) && Going(cfg, log, p, sure) && p.batch != [] && p.batch[0].SlotCommitted?
    ensures var e := p.batch[0];
      Going(cfg, log, Advance(p).(awaiting := p.awaiting[e.slot := SlotOf(e)]), sure)
  {
    hide WellFormed, Holding, Counting, AwaitingIs;
    AdvanceBatch(cfg, log, p, sure);
    CommitInBatch(cfg, log, Done(p));
    CommitCounts(log, Done(p), p.nextSlot, sure);
    AwaitingGrows(log, p.awaiting, p.nextSlot, p.batch[0].slot, sure);
  }

  lemma IdleCounts(cfg: Config, log: seq<Entry>, d: nat, nextSlot: nat, sure: bool)
    requires WellFormed(cfg, log) && d < |log| && Counting(log, d, nextSlot, sure)
    requires !log[d].SlotCommitted? && (Is(Rulings, log[d]) ==> log[d].slot < nextSlot)
    ensures Counting(log, d + 1, nextSlot, sure) && |Of(Commits, log[..d + 1])| == |Of(Commits, log[..d])|
  {
    Progress(Commits, log, d);
    Progress(Rulings, log, d);
    if Is(Rulings, log[d]) {
      RuledAt(cfg, log, d);
    }
  }

  lemma IdleStep(cfg: Config, log: seq<Entry>, p: ProverState, sure: bool)
    requires WellFormed(cfg, log) && Going(cfg, log, p, sure) && p.batch != []
    requires !p.batch[0].SlotCommitted? && (Is(Rulings, p.batch[0]) ==> p.batch[0].slot < p.nextSlot)
    ensures Going(cfg, log, Advance(p), sure)
  {
    hide WellFormed, Holding, Counting, AwaitingIs;
    AdvanceBatch(cfg, log, p, sure);
    IdleCounts(cfg, log, Done(p), p.nextSlot, sure);
  }

  /** To a sure prover the next ruling is for the slot it expects, and its contents are waiting. */
  lemma RulingExpected(cfg: Config, log: seq<Entry>, p: ProverState, sure: bool)
    requires WellFormed(cfg, log) && Going(cfg, log, p, sure) && p.batch != [] && Is(Rulings, p.batch[0])
    ensures sure ==> p.batch[0].slot <= p.nextSlot
    ensures sure && p.batch[0].slot == p.nextSlot ==> p.nextSlot in p.awaiting
    ensures p.nextSlot in p.awaiting ==> p.awaiting[p.nextSlot] == SlotOf(Of(Commits, log)[p.nextSlot])
    ensures p.batch[0].slot == p.nextSlot ==>
      (p.nextSlot < |Of(Rulings, log)| && Of(Rulings, log)[p.nextSlot] == p.batch[0] &&
       p.nextSlot < |Of(Commits, log)| && Of(Commits, log)[p.nextSlot].slot == p.nextSlot)
  {
    AdvanceBatch(cfg, log, p, sure);
    RulingInBatch(cfg, log, Done(p));
    if p.batch[0].slot == p.nextSlot {
      CommitsNumbered(cfg, log, p.nextSlot);
    }
  }

  lemma RulingCounts(cfg: Config, log: seq<Entry>, d: nat, nextSlot: nat, sure: bool)
    requires WellFormed(cfg, log) && d < |log| && Counting(log, d, nextSlot, sure)
    requires Is(Rulings, log[d]) && log[d].slot == nextSlot
    ensures Counting(log, d + 1, nextSlot + 1, sure) && |Of(Commits, log[..d + 1])| == |Of(Commits, log[..d])|
  {
    RulingInBatch(cfg, log, d);
    Progress(Commits, log, d);
    Progress(Rulings, log, d);
  }

  /** Taking the expected ruling moves reading, counting and waiting on by one slot. */
  lemma RulingTaken(cfg: Config, log: seq<Entry>, p: ProverState, sure: bool)
    requires WellFormed(cfg, log) && Going(cfg, log, p, sure) && p.batch != []
    requires Is(Rulings, p.batch[0]) && p.batch[0].slot == p.nextSlot
    ensures Reading(log, Advance(p)) && Done(Advance(p)) == Done(p) + 1
    ensures Counting(log, Done(p) + 1, p.nextSlot + 1, sure)
    ensures AwaitingIs(log, p.awaiting - {p.nextSlot}, p.nextSlot + 1, |Of(Commits, log[..Done(p) + 1])|, sure)
  {
    hide Of, WellFormed;
    AdvanceBatch(cfg, log, p, sure);
    RulingCounts(cfg, log, Done(p), p.nextSlot, sure);
    AwaitingShrinks(log, p.awaiting, p.nextSlot, |Of(Commits, log[..Done(p)])|, sure);
  }

  function Attested(p: ProverState): ProverState
    requires p.nextSlot in p.awaiting
  {
    p.(awaiting := p.awaiting - {p.nextSlot}, pending := p.pending + [p.awaiting[p.nextSlot]],
       nextSlot := p.nextSlot + 1)
  }

  lemma AttestedHolds(cfg: Config, log: seq<Entry>, p: ProverState, sure: bool)
    requires WellFormed(cfg, log) && Going(cfg, log, p, sure) && p.batch != [] && p.flushing == []
    requires p.batch[0].SlotAttested? && p.batch[0].slot == p.nextSlot && p.nextSlot in p.awaiting
    ensures var more := p.pending + [p.awaiting[p.nextSlot]];
      Holding(log, more, p.nextSlot + 1) && more[0].slot + |more| == p.nextSlot + 1
  {
    RulingExpected(cfg, log, p, sure);
    assert [] + p.pending == p.pending;
    HoldOneMore(log, p.pending, p.nextSlot);
  }

  lemma AttestedStep(cfg: Config, log: seq<Entry>, p: ProverState, sure: bool)
    requires WellFormed(cfg, log) && Going(cfg, log, p, sure) && p.batch != [] && p.flushing == []
    requires p.batch[0].SlotAttested? && p.batch[0].slot == p.nextSlot && p.nextSlot in p.awaiting
    ensures Tracks(cfg, log, Attested(Advance(p)), cfg.batchSize, sure)
  {
    hide WellFormed, Holding, Counting, AwaitingIs;
    RulingTaken(cfg, log, p, sure);
    AttestedHolds(cfg, log, p, sure);
    var more := p.pending + [p.awaiting[p.nextSlot]];
    assert [] + more == more;
  }

  function Failed(p: ProverState): ProverState {
    var q := p.(awaiting := p.awaiting - {p.nextSlot}, nextSlot := p.nextSlot + 1);
    if q.pending == [] then q else BeginFlush(q)
  }

  lemma FailedHolds(cfg: Config, log: seq<Entry>, p: ProverState, sure: bool)
    requires WellFormed(cfg, log) && Going(cfg, log, p, sure) && p.batch != [] && p.flushing == []
    requires p.batch[0].AttestFailed? && p.batch[0].slot == p.nextSlot
    ensures Holding(log, p.pending, p.nextSlot + 1)
  {
    RulingExpected(cfg, log, p, sure);
    assert [] + p.pending == p.pending;
    PassFailed(log, p.pending, p.nextSlot);
  }

  lemma FailedStep(cfg: Config, log: seq<Entry>, p: ProverState, sure: bool)
    requires WellFormed(cfg, log) && Going(cfg, log, p, sure) && p.batch != [] && p.flushing == []
    requires p.batch[0].AttestFailed? && p.batch[0].slot == p.nextSlot && cfg.batchSize >= 1
    ensures Going(cfg, log, Failed(Advance(p)), sure)
  {
    hide WellFormed, Holding, Counting, AwaitingIs;
    var r := Failed(Advance(p));
    RulingTaken(cfg, log, p, sure);
    FailedHolds(cfg, log, p, sure);
    assert r.flushing + r.pending == p.pending;
  }

  lemma RulingStep(cfg: Config, log: seq<Entry>, p: ProverState, sure: bool)
    requires WellFormed(cfg, log) && Going(cfg, log, p, sure) && cfg.batchSize >= 1
    requires p.batch != [] && p.flushing == [] && Is(Rulings, p.batch[0])
    ensures ProverInv(cfg, log, OnEntry(Advance(p), p.batch[0], cfg.batchSize), sure)
  {
    var e := p.batch[0];
    RulingExpected(cfg, log, p, sure);
    if e.slot < p.nextSlot {
      IdleStep(cfg, log, p, sure);
    } else if e.slot > p.nextSlot || (e.SlotAttested? && p.nextSlot !in p.awaiting) {
      assert !sure && Stopped(OnEntry(Advance(p), e, cfg.batchSize));
    } else if e.SlotAttested? {
      AttestedStep(cfg, log, p, sure);
      assert OnEntry(Advance(p), e, cfg.batchSize) == AfterEntry(Attested(Advance(p)), cfg.batchSize);
      AfterEntryKeeps(cfg, log, Attested(Advance(p)), sure);
    } else {
      FailedStep(cfg, log, p, sure);
      assert OnEntry(Advance(p), e, cfg.batchSize) == AfterEntry(Failed(Advance(p)), cfg.batchSize);
    }
  }

  /**
   * One entry keeps the invariant. So a sure prover never raises `SlotGap` or `MissingCommit` nor
   * flushes nothing, and one that is not sure stops rather than prove a range it has not seen.
   */
  lemma ProverSteps(cfg: Config, log: seq<Entry>, p: ProverState, sure: bool)
    requires WellFormed(cfg, log) && Going(cfg, log, p, sure) && cfg.batchSize >= 1
    requires p.batch != [] && p.flushing == []
    ensures ProverInv(cfg, log, OnEntry(Advance(p), p.batch[0], cfg.batchSize), sure)
  {
    if Is(Rulings, p.batch[0]) {
      RulingStep(cfg, log, p, sure);
    } else if p.batch[0].SlotCommitted? {
      CommitStep(cfg, log, p, sure);
    } else {
      IdleStep(cfg, log, p, sure);
    }
  }

  function ReadBatch(log: seq<Entry>, p: ProverState): ProverState
    requires p.cursor <= |log|
  {
    p.(batch := log[p.cursor..], cursor := |log|)
  }

  lemma ProverReads(cfg: Config, log: seq<Entry>, p: ProverState, sure: bool)
    requires Going(cfg, log, p, sure) && p.batch == []
    ensures Going(cfg, log, ReadBatch(log, p), sure)
  {
    hide Of, Holding, AwaitingIs;
    assert log[p.cursor..|log|] == log[p.cursor..];
  }

  ghost predicate IsHeld(held: seq<CommittedSlot>, k: nat) {
    exists i: nat :: i < |held| && held[i].slot == k
  }

  lemma HeldSlots(cfg: Config, log: seq<Entry>, held: seq<CommittedSlot>, nextSlot: nat, k: nat)
    requires WellFormed(cfg, log) && Holding(log, held, nextSlot)
    ensures IsHeld(held, k) <==> held != [] && held[0].slot <= k < held[0].slot + |held|
  {
    hide WellFormed, Holding, Of, Batch;
    if held != [] {
      var lo := held[0].slot;
      HeldIs(log, held, nextSlot);
      forall i: nat | i < |held|
        ensures held[i].slot == lo + i
      {
        BatchSlot(cfg, log, lo, lo + |held| - 1, i);
      }
      if lo <= k < lo + |held| {
        assert held[k - lo].slot == k;
      }
    }
  }

  /** Every slot the prover has passed is exactly one of failed, in a recorded range, or held for the next. */
  lemma PassedSlotsAccounted(cfg: Config, log: seq<Entry>, p: ProverState, k: nat, sure: bool)
    requires WellFormed(cfg, log) && Going(cfg, log, p, sure) && k < p.nextSlot
    ensures FailedIn(log, k) || Settled(log, k) || IsHeld(p.flushing + p.pending, k)
    ensures !(FailedIn(log, k) && Settled(log, k))
    ensures IsHeld(p.flushing + p.pending, k) ==> !FailedIn(log, k) && !Settled(log, k)
  {
    var held := p.flushing + p.pending;
    HeldSlots(cfg, log, held, p.nextSlot, k);
    PassedExactlyOne(cfg, log, k);
    if IsHeld(held, k) {
      assert AttestedIn(log, k);
    }
  }

  // ----- a whole batch, undisturbed -----

  /** Why the mock backend fails a batch, if it does. */
  function FailureOf(failRanges: seq<(nat, nat)>, slots: seq<CommittedSlot>): Option<string>
    requires slots != []
  {
    if Refuses(failRanges, slots[0].slot, slots[|slots| - 1].slot) then Some("mock failure") else None
  }

  /** Work the next entry off and carry out the flush it starts: the prover then, and what it appended. */
  function Work(cfg: Config, failRanges: seq<(nat, nat)>, p: ProverState, e: Entry): (ProverState, seq<Entry>) {
    var q := OnEntry(p, e, cfg.batchSize);
    if q.flushing == [] then (q, [])
    else (q.(flushing := []), [OutcomeEntry(cfg.keccak, q.flushing, FailureOf(failRanges, q.flushing))])
  }

  /** The same for the first `n` entries of the batch, stopping at a fault. */
  function Drain(cfg: Config, failRanges: seq<(nat, nat)>, p: ProverState, n: nat): (ProverState, seq<Entry>)
    requires n <= |p.batch|
  {
    if n == 0 then (p, [])
    else
      var r := Drain(cfg, failRanges, p, n - 1);
      if r.0.fault.Some? then r
      else
        var w := Work(cfg, failRanges, r.0.(batch := p.batch[n..]), p.batch[n - 1]);
        (w.0, r.1 + w.1)
  }

  lemma {:induction false} FaultStays(cfg: Config, failRanges: seq<(nat, nat)>, p: ProverState, m: nat, n: nat)
    requires m <= n <= |p.batch| && Drain(cfg, failRanges, p, m).0.fault.Some?
    ensures Drain(cfg, failRanges, p, n) == Drain(cfg, failRanges, p, m)
  {
    hide Work;
    if m < n {
      FaultStays(cfg, failRanges, p, m, n - 1);
    }
  }

  lemma WorkKeeps(cfg: Config, failRanges: seq<(nat, nat)>, log: seq<Entry>, p: ProverState)
    requires WellFormed(cfg, log) && Going(cfg, log, p, true) && cfg.batchSize >= 1
    requires p.batch != [] && p.flushing == []
    ensures var w := Work(cfg, failRanges, Advance(p), p.batch[0]);
      WellFormed(cfg, log + w.1) && Going(cfg, log + w.1, w.0, true) && w.0.flushing == [] && w.0.batch == p.batch[1..]
  {
    hide OnEntry, Going, WellFormed;
    ProverSteps(cfg, log, p, true);
    var q := OnEntry(Advance(p), p.batch[0], cfg.batchSize);
    if q.flushing == [] {
      assert log + [] == log;
    } else {
      var failure := FailureOf(failRanges, q.flushing);
      ProverRecords(cfg, log, q, failure, true);
      Extend(cfg, log, OutcomeEntry(cfg.keccak, q.flushing, failure));
    }
  }

  /** Working a batch off undisturbed never faults, and everything it appends is justified. */
  lemma {:induction false} DrainKeeps(cfg: Config, failRanges: seq<(nat, nat)>, log: seq<Entry>, p: ProverState, n: nat)
    requires WellFormed(cfg, log) && Going(cfg, log, p, true) && cfg.batchSize >= 1
    requires p.flushing == [] && n <= |p.batch|
    ensures var r := Drain(cfg, failRanges, p, n);
      WellFormed(cfg, log + r.1) && Going(cfg, log + r.1, r.0, true) &&
      r.0.flushing == [] && r.0.fault.None? && r.0.batch == p.batch[n..]
  {
    hide Work, WellFormed;
    if n == 0 {
      assert log + [] == log;
    } else {
      DrainKeeps(cfg, failRanges, log, p, n - 1);
      var r := Drain(cfg, failRanges, p, n - 1);
      WorkKeeps(cfg, failRanges, log + r.1, r.0);
      assert r.0.(batch := p.batch[n..]) == Advance(r.0);
      Assoc(log, r.1, Work(cfg, failRanges, Advance(r.0), p.batch[n - 1]).1);
    }
  }

  lemma OutcomeStep(log: seq<Entry>, i: nat)
    requires i < |log|
    ensures OutcomeThrough(log[..i + 1]) ==
      if Is(Outcomes, log[i]) then MaxSlot(OutcomeThrough(log[..i]), log[i].toSlot) else OutcomeThrough(log[..i])
  {
    assert log[..i + 1][..i] == log[..i];
  }

  // ----- the stage as it runs -----

  class Prover {
    const cfg: Config
    const failRanges: seq<(nat, nat)>
    var awaiting: map<nat, CommittedSlot>
    var pending: seq<CommittedSlot>
    var nextSlot: nat
    var cursor: nat

    constructor (cfg: Config, failRanges: seq<(nat, nat)>)
      ensures this.cfg == cfg && this.failRanges == failRanges && awaiting == map[] && pending == []
    {
      this.cfg, this.failRanges := cfg, failRanges;
      awaiting, pending, nextSlot, cursor := map[], [], 0, 0;
    }

    /** The stage with `batch` still to work off. */
    function State(batch: seq<Entry>): ProverState
      reads this
    {
      ProverState(awaiting, pending, nextSlot, cursor, batch, [], None)
    }

    method Recover(log: MemLog)
      modifies this`cursor, this`nextSlot
      ensures var p := ProverResume(log.entries, |log.entries|); cursor == p.cursor && nextSlot == p.nextSlot
    {
      assert OutcomeThrough([]) == None && forall k: nat :: SlotPosition([], k) == None;
      hide OutcomeThrough, SlotPosition;
      var doneThrough: Option<nat> := None;
      var positions: map<nat, nat> := map[];
      var tail := log.ReadFrom(0);
      ghost var entries := log.entries;
      for i := 0 to |tail|
        invariant doneThrough == OutcomeThrough(entries[..i])
        invariant forall k: nat :: k in positions <==> SlotPosition(entries[..i], k).Some?
        invariant forall k: nat :: k in positions ==> SlotPosition(entries[..i], k) == Some(positions[k])
      {
        var (pos, entry) := tail[i];
        OutcomeStep(entries, i);
        forall k: nat {
          PositionStep(entries, i, k);
        }
        if entry.SlotCommitted? {
          positions := positions[entry.slot := pos];
        } else if Is(Outcomes, entry) {
          doneThrough := MaxSlot(doneThrough, entry.toSlot);
        }
      }
      assert entries[..|tail|] == entries;
      nextSlot := match doneThrough case None => 0 case Some(d) => d + 1;
      assert nextSlot in positions <==> SlotPosition(entries, nextSlot).Some?;
      cursor := if nextSlot in positions then positions[nextSlot] else log.Head();
    }

    method Flush(log: MemLog) returns (fault: Option<ProveError>)
      modifies this`pending, log
      ensures pending == []
      ensures old(pending) == [] ==> fault == Some(EmptyFlush) && log.entries == old(log.entries)
      ensures old(pending) != [] ==> fault.None?
      ensures old(pending) != [] ==>
        log.entries == old(log.entries) + [OutcomeEntry(cfg.keccak, old(pending), FailureOf(failRanges, old(pending)))]
    {
      var batch := pending;
      pending := [];
      if batch == [] {
        return Some(EmptyFlush);
      }
      var from, to := batch[0].slot, batch[|batch| - 1].slot;
      match MockProve(cfg.keccak, failRanges, batch) {
        case Proof(handle) =>
          var _ := log.Append(SlotsProven(from, to, handle));
        case Failure(reason) =>
          var _ := log.Append(ProveFailed(from, to, reason));
      }
      fault := None;
    }

    /** One entry of the batch, with the flush it starts; `rest` of the batch is still to come. */
    method Process(log: MemLog, e: Entry, ghost rest: seq<Entry>) returns (fault: Option<ProveError>)
      modifies this`awaiting, this`pending, this`nextSlot, log
      ensures var w := Work(cfg, failRanges, old(State(rest)), e);
        fault == w.0.fault && (fault.None? ==> State(rest) == w.0) && log.entries == old(log.entries) + w.1
    {
      fault := None;
      match e {
        case SlotCommitted(slot, intents, _, commitment, _) =>
          awaiting := awaiting[slot := CommittedSlot(slot, intents, commitment)];
        case SlotAttested(slot, _, _) =>
          if slot < nextSlot {
            return;
          }
          if slot != nextSlot {
            return Some(SlotGap(nextSlot, slot));
          }
          if slot !in awaiting {
            return Some(MissingCommit(slot));
          }
          pending := pending + [awaiting[slot]];
          awaiting := awaiting - {slot};
          nextSlot := nextSlot + 1;
        case AttestFailed(slot, _) =>
          if slot < nextSlot {
            return;
          }
          if slot != nextSlot {
            return Some(SlotGap(nextSlot, slot));
          }
          awaiting := awaiting - {slot};
          nextSlot := nextSlot + 1;
          if pending != [] {
            fault := Flush(log);
          }
        case _ =>
      }
      if |pending| >= cfg.batchSize {
        fault := Flush(log);
      }
    }

    /** One wake-up: read to the head, then work the batch off entry by entry. */
    method OnDoorbell(log: MemLog) returns (fault: Option<ProveError>)
      requires cursor <= |log.entries|
      modifies this, log
      ensures var start := ReadBatch(old(log.entries), old(State([])));
        var r := Drain(cfg, failRanges, start, |start.batch|);
        log.entries == old(log.entries) + r.1 && fault == r.0.fault && (fault.None? ==> State([]) == r.0)
    {
      var tail := log.ReadFrom(cursor);
      ghost var entries, start := log.entries, ReadBatch(log.entries, State([]));
      cursor := cursor + |tail|;
      fault := None;
      for i := 0 to |tail|
        invariant cursor == |entries| && fault.None?
        invariant State(start.batch[i..]) == Drain(cfg, failRanges, start, i).0
        invariant log.entries == entries + Drain(cfg, failRanges, start, i).1
      {
        ghost var r := Drain(cfg, failRanges, start, i);
        ghost var rest := start.batch[i + 1..];
        fault := Process(log, tail[i].1, rest);
        Assoc(entries, r.1, Work(cfg, failRanges, r.0.(batch := rest), start.batch[i]).1);
        if fault.Some? {
          FaultStays(cfg, failRanges, start, i + 1, |tail|);
          return;
        }
      }
    }

    method OnTimer(log: MemLog) returns (fault: Option<ProveError>)
      modifies this`pending, log
      ensures fault.None? && pending == []
      ensures log.entries == if old(pending) == [] then old(log.entries)
        else old(log.entries) + [OutcomeEntry(cfg.keccak, old(pending), FailureOf(failRanges, old(pending)))]
    {
      fault := None;
      if pending != [] {
        fault := Flush(log);
      }
    }
  }
}
