/** How the prover cuts its work into batches (`Prover::run`, src/prove/mod.rs). */
module Batches {
  import opened Logs
  import opened Seqs
  import opened Attestation
  import opened Proofs
  import opened History
  import opened Attesting
  import opened Proving
  import opened Pipeline
  import opened Runs

  /** A whole batch, or cut short by a slot that failed attestation right behind it. */
  predicate Whole(cfg: Config, log: seq<Entry>, from: nat, to: nat) {
    to + 1 - from == cfg.batchSize || FailedIn(log, to + 1)
  }

  predicate OutcomesWhole(cfg: Config, log: seq<Entry>) {
    forall n: nat :: n < |Of(Outcomes, log)| ==>
      Whole(cfg, log, Of(Outcomes, log)[n].fromSlot, Of(Outcomes, log)[n].toSlot)
  }

  /** The same of a batch in the backend's hands. */
  predicate FlushWhole(cfg: Config, log: seq<Entry>, p: ProverState) {
    p.flushing != [] ==> |p.flushing| == cfg.batchSize || FailedIn(log, p.flushing[0].slot + |p.flushing|)
  }

  predicate BatchesWhole(cfg: Config, s: System) {
    OutcomesWhole(cfg, s.log) && (s.prover.Running? ==> FlushWhole(cfg, s.log, s.prover.state))
  }

  lemma WholeStays(cfg: Config, log: seq<Entry>, e: Entry)
    requires OutcomesWhole(cfg, log)
    requires Is(Outcomes, e) ==> Whole(cfg, log, e.fromSlot, e.toSlot)
    ensures OutcomesWhole(cfg, log + [e])
  {
    hide FailedIn;
    OfSnoc(Outcomes, log, e);
    RulingsGrow(log, e);
  }

  lemma FlushStays(cfg: Config, log: seq<Entry>, p: ProverState, e: Entry)
    requires FlushWhole(cfg, log, p)
    ensures FlushWhole(cfg, log + [e], p)
  {
    hide FailedIn;
    RulingsGrow(log, e);
  }

  /** An entry makes the prover flush exactly what is a whole batch, or what a failed slot has just closed. */
  lemma TakeWhole(cfg: Config, log: seq<Entry>, p: ProverState, sure: bool)
    requires WellFormed(cfg, log) && Going(cfg, log, p, sure) && cfg.batchSize >= 1
    requires p.batch != [] && p.flushing == []
    ensures FlushWhole(cfg, log, OnEntry(Advance(p), p.batch[0], cfg.batchSize))
  {
    if Is(Rulings, p.batch[0]) && p.batch[0].slot == p.nextSlot {
      RulingExpected(cfg, log, p, sure);
    }
    hide WellFormed, Holding, Counting, AwaitingIs, Reading, Of;
  }

  /** What a stage other than the prover adds is no outcome. */
  lemma ElsewhereAppends(cfg: Config, s: System, a: Action)
    requires Core(cfg, s) && InRange(cfg, a) && !OwnerOf(a).AtProver?
    ensures var t := Step(cfg, s, a);
      t.prover == s.prover && (t.log == s.log || exists e :: !Is(Outcomes, e) && t.log == s.log + [e])
  {
    hide Core, Ruling, AttesterResume, Justified, SubmitTo, SequencerStep;
    var t := Step(cfg, s, a);
    if OwnerOf(a).AtGate? || OwnerOf(a).AtSequencer? {
      FrontAppends(cfg, s, a);
      if t.log != s.log {
        var e :| Fronted(e) && Justified(cfg, s.log, e) && t.log == s.log + [e];
        assert !Is(Outcomes, e);
      }
    } else if a.RuleOnEntry? && s.attester.Running? && t.log != s.log {
      var e := Ruling(cfg.keccak, cfg.measurement, a.down, s.log[s.attester.state.cursor]);
      assert !Is(Outcomes, e) && t.log == s.log + [e];
    }
  }

  lemma FlushedWhole(cfg: Config, log: seq<Entry>, p: ProverState, failure: Option<string>, sure: bool)
    requires WellFormed(cfg, log) && Going(cfg, log, p, sure) && FlushWhole(cfg, log, p) && p.flushing != []
    ensures var e := OutcomeEntry(cfg.keccak, p.flushing, failure);
      Is(Outcomes, e) && Whole(cfg, log, e.fromSlot, e.toSlot)
  {
    assert p.flushing + p.pending == p.flushing;
    hide WellFormed, Counting, AwaitingIs, Reading, Of, Holding, FailedIn, Batch, Handle;
    HeldRange(cfg, log, p.flushing, p.nextSlot);
  }

  lemma RecordWhole(cfg: Config, s: System, failure: Option<string>, sure: bool)
    requires Inv(cfg, s, sure) && BatchesWhole(cfg, s) && s.prover.Running? && s.prover.state.flushing != []
    ensures BatchesWhole(cfg, Step(cfg, s, RecordOutcome(failure)))
  {
    hide Core, AttesterOk, WellFormed, Going, OutcomeEntry, OutcomesWhole, Whole, Of;
    var p := s.prover.state;
    FlushedWhole(cfg, s.log, p, failure, sure);
    WholeStays(cfg, s.log, OutcomeEntry(cfg.keccak, p.flushing, failure));
  }

  lemma ProverWhole(cfg: Config, s: System, a: Action, sure: bool)
    requires Inv(cfg, s, sure) && BatchesWhole(cfg, s) && cfg.batchSize >= 1
    requires OwnerOf(a).AtProver? && !a.FlushTimer?
    ensures BatchesWhole(cfg, Step(cfg, s, a))
  {
    hide Core, AttesterOk, WellFormed, Going, OnEntry, OutcomesWhole, Of;
    if a.RecordOutcome? {
      if s.prover.Running? && s.prover.state.flushing != [] {
        RecordWhole(cfg, s, a.failure, sure);
      }
    } else if a.TakeEntry? && s.prover.Running? && ProverIdle(s.prover.state) && s.prover.state.batch != [] {
      TakeWhole(cfg, s.log, s.prover.state, sure);
    }
  }

  lemma StepWhole(cfg: Config, s: System, a: Action, sure: bool)
    requires Inv(cfg, s, sure) && BatchesWhole(cfg, s) && cfg.batchSize >= 1 && InRange(cfg, a) && !a.FlushTimer?
    ensures BatchesWhole(cfg, Step(cfg, s, a))
  {
    if OwnerOf(a).AtProver? {
      ProverWhole(cfg, s, a, sure);
    } else {
      hide Core, AttesterOk, WellFormed, ProverOk, Step, InRange, OutcomesWhole, FlushWhole;
      ElsewhereAppends(cfg, s, a);
      var t := Step(cfg, s, a);
      if t.log != s.log {
        var e :| !Is(Outcomes, e) && t.log == s.log + [e];
        WholeStays(cfg, s.log, e);
        if s.prover.Running? {
          FlushStays(cfg, s.log, s.prover.state, e);
        }
      }
    }
  }

  predicate NoTimer(actions: seq<Action>) {
    forall a :: a in actions ==> !a.FlushTimer?
  }

  lemma {:induction false} RunWhole(cfg: Config, s: System, actions: seq<Action>, sure: bool)
    requires Inv(cfg, s, sure) && BatchesWhole(cfg, s) && cfg.batchSize >= 1
    requires AllInRange(cfg, actions) && Unraced(cfg, s, actions, sure) && NoTimer(actions)
    ensures BatchesWhole(cfg, Run(cfg, s, actions))
  {
    hide Inv, Step, InRange, Races, BatchesWhole;
    if actions != [] {
      var n := |actions| - 1;
      assert actions[n] in actions;
      RunKeeps(cfg, s, actions[..n], sure);
      RunWhole(cfg, s, actions[..n], sure);
      StepWhole(cfg, Run(cfg, s, actions[..n]), actions[n], sure);
    }
  }

  /**
   * In a run without a raced start of the attester in which the flush timer never fires, whatever
   * else happens, every outcome covers a whole batch, or ends right before a slot that failed
   * attestation.
   */
  lemma OutcomesAreWhole(cfg: Config, actions: seq<Action>, n: nat)
    requires AllInRange(cfg, actions) && Unraced(cfg, Boot([]), actions, false) && NoTimer(actions)
    requires cfg.batchSize >= 1
    requires n < |Of(Outcomes, Execute(cfg, actions).log)|
    ensures var log := Execute(cfg, actions).log;
      var e := Of(Outcomes, log)[n];
      e.toSlot + 1 - e.fromSlot == cfg.batchSize || FailedIn(log, e.toSlot + 1)
  {
    hide Inv, Run, Unraced, AllInRange, NoTimer, FailedIn;
    assert WellFormed(cfg, []);
    BootKeeps(cfg, [], false);
    assert BatchesWhole(cfg, Boot([]));
    RunWhole(cfg, Boot([]), actions, false);
  }
}
