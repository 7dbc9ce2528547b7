/**
 * The stages' methods and the step system describe one pipeline: what a method does in one
 * wake-up or tick is what a run of that stage's steps does when nobody else gets a word in.
 */
module StageRuns {
  import opened Logs
  import opened Seqs
  import opened History
  import opened Sequencing
  import opened Attesting
  import opened Proving
  import opened Pipeline

  lemma RunSnoc(cfg: Config, s: System, actions: seq<Action>, a: Action)
    ensures Run(cfg, s, actions + [a]) == Step(cfg, Run(cfg, s, actions), a)
  {
    assert (actions + [a])[..|actions|] == actions;
  }

  // ----- a tick of the sequencer -----

  function Appends(n: nat): (r: seq<Action>)
    ensures |r| == n
  {
    if n == 0 then [] else Appends(n - 1) + [AppendClose]
  }

  function Appended(s: System, k: nat): System
    requires k <= |s.sequencer.outbox|
  {
    var q := s.sequencer;
    s.(log := s.log + q.outbox[..k],
       sequencer := q.(outbox := q.outbox[k..], nextSlot := if 0 < k == |q.outbox| then q.nextSlot + 1 else q.nextSlot))
  }

  lemma AppendedNext(cfg: Config, s: System, k: nat)
    requires k < |s.sequencer.outbox|
    ensures Step(cfg, Appended(s, k), AppendClose) == Appended(s, k + 1)
  {
    var outbox := s.sequencer.outbox;
    assert outbox[..k + 1] == outbox[..k] + [outbox[k]];
    Assoc(s.log, outbox[..k], [outbox[k]]);
    assert outbox[k..][1..] == outbox[k + 1..];
  }

  lemma AppendedNone(s: System)
    ensures Appended(s, 0) == s
  {
    assert s.log + [] == s.log;
  }

  lemma {:induction false} AppendsRun(cfg: Config, s: System, k: nat)
    requires k <= |s.sequencer.outbox|
    ensures Run(cfg, s, Appends(k)) == Appended(s, k)
  {
    hide Step, Appended;
    if k == 0 {
      AppendedNone(s);
    } else {
      AppendsRun(cfg, s, k - 1);
      RunSnoc(cfg, s, Appends(k - 1), AppendClose);
      AppendedNext(cfg, s, k - 1);
    }
  }

  /** `Sequencer.OnTick`: opening a close and appending all of it. */
  lemma TickIsRun(cfg: Config, s: System, now: nat)
    requires s.sequencer.outbox == []
    ensures var q := s.sequencer;
      var close := CloseEntries(cfg, q.buffer, q.nextSlot, q.cursor, now);
      Run(cfg, Step(cfg, s, CloseSlot(now)), Appends(|close|))
      == s.(log := s.log + close, sequencer := SequencerState([], q.cursor, q.nextSlot + 1, []))
  {
    hide CloseEntries;
    var q := s.sequencer;
    var close := CloseEntries(cfg, q.buffer, q.nextSlot, q.cursor, now);
    AppendsRun(cfg, Step(cfg, s, CloseSlot(now)), |close|);
    assert close[..|close|] == close && close[|close|..] == [];
  }

  // ----- a wake-up of the attester -----

  function Rulings(failSlots: set<nat>, batch: seq<Entry>): seq<Action> {
    if batch == [] then []
    else
      var n := |batch| - 1;
      Rulings(failSlots, batch[..n]) + [RuleOnEntry(DownOn(failSlots, batch[n]))]
  }

  function Ruled(cfg: Config, s: System, failSlots: set<nat>, k: nat): System
    requires s.attester.Running? && s.attester.state.cursor + k <= |s.log|
  {
    var a := s.attester.state;
    s.(log := s.log + RulesAll(cfg, failSlots, s.log[a.cursor..a.cursor + k]),
       attester := Running(a.(cursor := a.cursor + k)))
  }

  lemma RuledNext(cfg: Config, s: System, failSlots: set<nat>, k: nat)
    requires s.attester.Running? && s.attester.state.cursor + k < s.attester.state.readTo <= |s.log|
    ensures Step(cfg, Ruled(cfg, s, failSlots, k), RuleOnEntry(DownOn(failSlots, s.log[s.attester.state.cursor + k])))
      == Ruled(cfg, s, failSlots, k + 1)
  {
    hide Rules, DownOn;
    var c := s.attester.state.cursor;
    var e := s.log[c + k];
    SliceSnoc(s.log, c, c + k);
    var before, batch := s.log[c..c + k], s.log[c..c + k + 1];
    assert batch[..k] == before && batch[k] == e;
    Assoc(s.log, RulesAll(cfg, failSlots, before), Rules(cfg, e, DownOn(failSlots, e)));
  }

  lemma RuledNone(cfg: Config, s: System, failSlots: set<nat>)
    requires s.attester.Running? && s.attester.state.cursor <= |s.log|
    ensures Ruled(cfg, s, failSlots, 0) == s
  {
    assert s.log + [] == s.log;
  }

  /** `Attester.OnDoorbell`: ruling on the batch in hand, entry by entry. */
  lemma {:induction false} AttesterWakeIsRun(cfg: Config, s: System, failSlots: set<nat>, k: nat)
    requires s.attester.Running? && s.attester.state.cursor + k <= s.attester.state.readTo <= |s.log|
    ensures var c := s.attester.state.cursor;
      Run(cfg, s, Rulings(failSlots, s.log[c..c + k])) == Ruled(cfg, s, failSlots, k)
  {
    hide Step, Ruled, DownOn;
    if k == 0 {
      RuledNone(cfg, s, failSlots);
    } else {
      var c := s.attester.state.cursor;
      AttesterWakeIsRun(cfg, s, failSlots, k - 1);
      SliceSnoc(s.log, c, c + k - 1);
      var before, batch := s.log[c..c + k - 1], s.log[c..c + k];
      assert batch[..k - 1] == before && batch[k - 1] == s.log[c + k - 1];
      RunSnoc(cfg, s, Rulings(failSlots, before), RuleOnEntry(DownOn(failSlots, batch[k - 1])));
      RuledNext(cfg, s, failSlots, k - 1);
    }
  }

  // ----- a wake-up of the prover -----

  function Drained(cfg: Config, s: System, failRanges: seq<(nat, nat)>, n: nat): System
    requires s.prover.Running? && n <= |s.prover.state.batch|
  {
    var r := Drain(cfg, failRanges, s.prover.state, n);
    s.(log := s.log + r.1, prover := Running(r.0))
  }

  lemma DrainedNone(cfg: Config, s: System, failRanges: seq<(nat, nat)>)
    requires s.prover.Running?
    ensures Drained(cfg, s, failRanges, 0) == s
  {
    assert s.log + [] == s.log;
  }

  /** Taking one entry, then recording the flush it started, if any. */
  lemma DrainedNext(cfg: Config, s: System, failRanges: seq<(nat, nat)>, n: nat) returns (w: seq<Action>)
    requires Inv(cfg, s, true) && cfg.batchSize >= 1
    requires s.prover.Running? && s.prover.state.flushing == [] && n < |s.prover.state.batch|
    ensures 1 <= |w| <= 2
    ensures var d := Drained(cfg, s, failRanges, n);
      Drained(cfg, s, failRanges, n + 1) == if |w| == 1 then Step(cfg, d, w[0]) else Step(cfg, Step(cfg, d, w[0]), w[1])
  {
    hide WellFormed, Going, Core, AttesterOk, OnEntry, OutcomeEntry, FailureOf;
    DrainKeeps(cfg, failRanges, s.log, s.prover.state, n);
    var r := Drain(cfg, failRanges, s.prover.state, n);
    var e := s.prover.state.batch[n];
    assert Advance(r.0) == r.0.(batch := s.prover.state.batch[n + 1..]) && r.0.batch[0] == e;
    var q := OnEntry(Advance(r.0), e, cfg.batchSize);
    if q.flushing == [] {
      w := [TakeEntry];
      assert r.1 + [] == r.1;
    } else {
      var failure := FailureOf(failRanges, q.flushing);
      w := [TakeEntry, RecordOutcome(failure)];
      Assoc(s.log, r.1, [OutcomeEntry(cfg.keccak, q.flushing, failure)]);
    }
  }

  /** `Prover.OnDoorbell`: taking the batch in hand entry by entry, recording each flush as it comes. */
  lemma {:induction false} ProverWakeIsRun(cfg: Config, s: System, failRanges: seq<(nat, nat)>, n: nat)
    returns (actions: seq<Action>)
    requires Inv(cfg, s, true) && cfg.batchSize >= 1
    requires s.prover.Running? && s.prover.state.flushing == [] && n <= |s.prover.state.batch|
    ensures Run(cfg, s, actions) == Drained(cfg, s, failRanges, n)
  {
    hide Drained, Step, Inv;
    if n == 0 {
      actions := [];
      DrainedNone(cfg, s, failRanges);
    } else {
      actions := ProverWakeIsRun(cfg, s, failRanges, n - 1);
      var w := DrainedNext(cfg, s, failRanges, n - 1);
      RunSnoc(cfg, s, actions, w[0]);
      actions := actions + [w[0]];
      if |w| == 2 {
        RunSnoc(cfg, s, actions, w[1]);
        actions := actions + [w[1]];
      }
    }
  }
}
