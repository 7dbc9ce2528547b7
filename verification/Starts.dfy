/**
 * What a raced start does. `recover_attester` and `recover_prover` scan the log and then read its
 * head; a slot committed in between can be passed over (src/attest.rs, src/prove/mod.rs).
 */
module Starts {
  import opened Intents
  import opened Logs
  import opened Seqs
  import opened Attestation
  import opened History
  import opened Admitting
  import opened Sequencing
  import opened Attesting
  import opened Proving
  import opened Projection
  import opened Pipeline
  import opened Runs

  // ----- runs end to end -----

  lemma {:induction false} RunConcat(cfg: Config, s: System, x: seq<Action>, y: seq<Action>, both: bool)
    ensures Run(cfg, s, x + y) == Run(cfg, Run(cfg, s, x), y)
    ensures Unraced(cfg, s, x + y, both) <==> Unraced(cfg, s, x, both) && Unraced(cfg, Run(cfg, s, x), y, both)
  {
    hide Step, Races;
    if y == [] {
      assert x + y == x;
    } else {
      var n := |y| - 1;
      RunConcat(cfg, s, x, y[..n], both);
      assert (x + y)[..|x + y| - 1] == x + y[..n];
    }
  }

  lemma RunOne(cfg: Config, s: System, a: Action, both: bool)
    ensures Run(cfg, s, [a]) == Step(cfg, s, a)
    ensures Unraced(cfg, s, [a], both) <==> !Races(s, a, both)
  {
    hide Step, Races;
    assert [a][..0] == [];
  }

  lemma RunCons(cfg: Config, s: System, a: Action, rest: seq<Action>, both: bool)
    ensures Run(cfg, s, [a] + rest) == Run(cfg, Step(cfg, s, a), rest)
    ensures Unraced(cfg, s, [a] + rest, both) <==> !Races(s, a, both) && Unraced(cfg, Step(cfg, s, a), rest, both)
  {
    hide Step, Races;
    RunOne(cfg, s, a, both);
    RunConcat(cfg, s, [a], rest, both);
  }

  // ----- a slot the attester has passed over -----

  predicate NoRestart(actions: seq<Action>) {
    forall a :: a in actions ==> !a.ScanForAttester? && !a.StartAttester?
  }

  /** From position `from` on, no ruling is about a slot before `k`. */
  predicate RulesFrom(log: seq<Entry>, from: nat, k: nat) {
    forall i :: from <= i < |log| && Is(Rulings, log[i]) ==> log[i].slot >= k
  }

  lemma RulesFromSnoc(log: seq<Entry>, e: Entry, from: nat, k: nat)
    requires RulesFrom(log, from, k) && (Is(Rulings, e) ==> e.slot >= k)
    ensures RulesFrom(log + [e], from, k)
  {
  }

  lemma PastSlots(cfg: Config, log: seq<Entry>, from: nat, c: nat)
    requires Orderly(cfg, log) && from <= c < |log| && log[c].SlotCommitted?
    ensures |Of(Commits, log[..from])| <= log[c].slot
  {
    hide Orderly;
    FairAt(cfg, log, c);
    OfMonotone(Commits, log, from, c);
  }

  /** What one step adds to the log is no ruling, unless it is the attester's own. */
  lemma StepRules(cfg: Config, s: System, a: Action, from: nat, k: nat)
    requires Core(cfg, s) && InRange(cfg, a) && RulesFrom(s.log, from, k) && !a.RuleOnEntry?
    ensures RulesFrom(Step(cfg, s, a).log, from, k)
  {
    hide Core, Step, Justified;
    var t := Step(cfg, s, a);
    if OwnerOf(a).AtGate? || OwnerOf(a).AtSequencer? {
      FrontAppends(cfg, s, a);
      if t.log != s.log {
        var e :| Fronted(e) && Justified(cfg, s.log, e) && t.log == s.log + [e];
        RulesFromSnoc(s.log, e, from, k);
      }
    } else {
      QuietStep(cfg, s, a);
      if t.log != s.log {
        var e :| Is(Outcomes, e) && t.log == s.log + [e];
        RulesFromSnoc(s.log, e, from, k);
      }
    }
  }

  lemma QuietStep(cfg: Config, s: System, a: Action)
    requires !OwnerOf(a).AtGate? && !OwnerOf(a).AtSequencer? && !a.RuleOnEntry?
    ensures var t := Step(cfg, s, a); t.log == s.log || exists e :: Is(Outcomes, e) && t.log == s.log + [e]
  {
    hide OnEntry, AttesterResume, ProverResume;
    var t := Step(cfg, s, a);
    if a.RecordOutcome? && s.prover.Running? && t.log != s.log {
      OutcomeIsOutcome(cfg, s.prover.state.flushing, a.failure);
      var e := OutcomeEntry(cfg.keccak, s.prover.state.flushing, a.failure);
      assert Is(Outcomes, e) && t.log == s.log + [e];
    }
  }

  /** The attester, running with its cursor at or past `from`. */
  predicate Past(s: System, from: nat) {
    from <= |s.log| && s.attester.Running? && from <= s.attester.state.cursor <= s.attester.state.readTo <= |s.log|
  }

  lemma StepPast(cfg: Config, s: System, a: Action, from: nat)
    requires Past(s, from) && !a.ScanForAttester? && !a.StartAttester?
    ensures Past(Step(cfg, s, a), from)
  {
    hide Rules, OnEntry, ProverResume, SubmitTo, SequencerStep, ProverStep, ProverUp;
    StepGrows(cfg, s, a);
    if !OwnerOf(a).AtAttester? {
      StepElsewhere(cfg, s, a);
    }
  }

  lemma SequencerAlone(cfg: Config, s: System, q: SequencerState, a: Action)
    ensures var t := SequencerStep(cfg, s, q, a); t == s.(log := t.log, sequencer := t.sequencer)
  {
    hide BeginClose, ReadAll, SequencerResume, AfterAppend;
  }

  lemma SubmitAlone(cfg: Config, s: System, intent: Intent, now: nat)
    ensures var t := SubmitTo(cfg, s, intent, now); t == s.(log := t.log, gate := t.gate)
  {
  }

  lemma StepElsewhere(cfg: Config, s: System, a: Action)
    requires !OwnerOf(a).AtAttester?
    ensures Step(cfg, s, a).attester == s.attester
  {
    hide OnEntry, ProverResume, SubmitTo, SequencerStep;
    SequencerAlone(cfg, s, s.sequencer, a);
    if a.Submit? {
      SubmitAlone(cfg, s, a.intent, a.now);
    }
  }

  lemma RulePast(cfg: Config, s: System, down: Option<string>, from: nat)
    requires Core(cfg, s) && Past(s, from) && RulesFrom(s.log, from, |Of(Commits, s.log[..from])|)
    ensures RulesFrom(Step(cfg, s, RuleOnEntry(down)).log, from, |Of(Commits, s.log[..from])|)
  {
    hide Orderly, SequencerInv, Ruling;
    var a := s.attester.state;
    if a.cursor < a.readTo {
      if s.log[a.cursor].SlotCommitted? {
        PastSlots(cfg, s.log, from, a.cursor);
        var e := Ruling(cfg.keccak, cfg.measurement, down, s.log[a.cursor]);
        RulesFromSnoc(s.log, e, from, |Of(Commits, s.log[..from])|);
      } else {
        assert s.log + [] == s.log;
      }
    }
  }

  lemma {:induction false} StaysPast(cfg: Config, s: System, actions: seq<Action>, from: nat)
    requires Core(cfg, s) && Past(s, from) && AllInRange(cfg, actions) && NoRestart(actions)
    requires RulesFrom(s.log, from, |Of(Commits, s.log[..from])|)
    ensures var t := Run(cfg, s, actions);
      Core(cfg, t) && Past(t, from) && s.log <= t.log && RulesFrom(t.log, from, |Of(Commits, s.log[..from])|)
  {
    hide Core, Step, InRange, RulesFrom, Past;
    if actions != [] {
      var n := |actions| - 1;
      var a, m := actions[n], Run(cfg, s, actions[..n]);
      assert a in actions;
      StaysPast(cfg, s, actions[..n], from);
      StepKeepsCore(cfg, m, a);
      StepPast(cfg, m, a, from);
      StepGrows(cfg, m, a);
      PastLength(s, from);
      assert m.log[..from] == s.log[..from];
      if a.RuleOnEntry? {
        RulePast(cfg, m, a.down, from);
      } else {
        StepRules(cfg, m, a, from, |Of(Commits, s.log[..from])|);
      }
    }
  }

  lemma PastLength(s: System, from: nat)
    requires Past(s, from)
    ensures from <= |s.log|
  {
  }

  /**
   * A raced start of the attester leaves at least one committed slot that is never ruled on, in
   * whatever follows, until the attester is restarted.
   */
  lemma RacedAttesterSkips(cfg: Config, s: System, actions: seq<Action>)
    requires Inv(cfg, s, false) && AttesterRaces(s, StartAttester) && AllInRange(cfg, actions) && NoRestart(actions)
    ensures |Of(Rulings, s.log)| < |Of(Commits, s.log)|
    ensures var log := Run(cfg, Step(cfg, s, StartAttester), actions).log;
      forall e :: e in log && Is(Rulings, e) ==> e.slot < |Of(Rulings, s.log)| || e.slot >= |Of(Commits, s.log)|
  {
    var n, t := s.attester.scanned, Step(cfg, s, StartAttester);
    RacedStart(cfg, s);
    assert s.log[..|s.log|] == s.log;
    InvHasCore(cfg, s, false);
    StepKeepsCore(cfg, s, StartAttester);
    StaysPast(cfg, t, actions, |s.log|);
    var log := Run(cfg, t, actions).log;
    forall i | 0 <= i < |log| && Is(Rulings, log[i])
      ensures log[i].slot < |Of(Rulings, s.log)| || log[i].slot >= |Of(Commits, s.log)|
    {
      if i < |s.log| {
        RulingsNumbered(cfg, s.log, i);
        OfAt(Rulings, s.log, i);
      }
    }
  }

  lemma RacedStart(cfg: Config, s: System)
    requires Inv(cfg, s, false) && AttesterRaces(s, StartAttester)
    ensures |Of(Rulings, s.log)| < |Of(Commits, s.log)|
    ensures var t := Step(cfg, s, StartAttester);
      t == s.(attester := Running(AttesterState(|s.log|, |s.log|))) && RulesFrom(t.log, |s.log|, |Of(Commits, s.log)|)
  {
    hide Core, WellFormed, ProverOk, DoneThrough, SlotPosition;
    var n := s.attester.scanned;
    PrefixWellFormed(cfg, s.log, n);
    DoneThroughIs(cfg, s.log[..n]);
    RulingsBehindCommits(cfg, s.log[..n]);
    OfPrefix(Commits, s.log, n);
  }

  // ----- the same for the prover: it can be brought to a fault -----

  predicate SafeFrom(cfg: Config, s: System, more: seq<Action>) {
    AllInRange(cfg, more) && Unraced(cfg, s, more, true) ==> !Faulted(Run(cfg, s, more))
  }

  /** The steps of other stages do not look at the prover. */
  lemma StepSkipsProver(cfg: Config, s: System, a: Action, prover: Stage<ProverState>)
    requires !OwnerOf(a).AtProver?
    ensures Step(cfg, s.(prover := prover), a) == Step(cfg, s, a).(prover := prover)
    ensures Races(s.(prover := prover), a, true) == Races(s, a, true)
  {
    hide Check, Id, Record, BeginClose, ReadAll, AfterAppend, SequencerResume;
    hide AttesterResume, AttesterRaced, Rules, CatchUp;
  }

  predicate NotProver(actions: seq<Action>) {
    forall a :: a in actions ==> !OwnerOf(a).AtProver?
  }

  lemma {:induction false} RunSkipsProver(cfg: Config, s: System, actions: seq<Action>, prover: Stage<ProverState>)
    requires NotProver(actions)
    ensures Run(cfg, s.(prover := prover), actions) == Run(cfg, s, actions).(prover := prover)
    ensures Unraced(cfg, s.(prover := prover), actions, true) == Unraced(cfg, s, actions, true)
  {
    hide Step, Races, OwnerOf;
    if actions != [] {
      var n := |actions| - 1;
      assert actions[n] in actions;
      RunSkipsProver(cfg, s, actions[..n], prover);
      StepSkipsProver(cfg, Run(cfg, s, actions[..n]), actions[n], prover);
    }
  }

  /** Let the sequencer restart and close a slot with nothing buffered. */
  const FRESH_SLOT: seq<Action> := [RestartSequencer] + ([CloseSlot(0)] + [AppendClose])

  lemma RestartStep(cfg: Config, s: System)
    ensures Step(cfg, s, RestartSequencer) == s.(sequencer := SequencerResume(s.log))
    ensures SequencerResume(s.log).buffer == [] && SequencerResume(s.log).outbox == []
  {
  }

  lemma FreshSlot(cfg: Config, s: System) returns (t: System, e: Entry)
    requires Inv(cfg, s, true) && cfg.batchSize >= 1
    ensures t == Run(cfg, s, FRESH_SLOT) && Unraced(cfg, s, FRESH_SLOT, true)
    ensures Inv(cfg, t, true) && t.prover == s.prover && t.log == s.log + [e] && e.SlotCommitted?
    ensures e.slot == |Of(Commits, s.log)|
  {
    hide Inv, Step, Run, Unraced, SequencerResume, AttesterRaced, ProverRaced, Of;
    var s1 := Step(cfg, s, RestartSequencer);
    var s2 := Step(cfg, s1, CloseSlot(0));
    t := Step(cfg, s2, AppendClose);
    RunCons(cfg, s, RestartSequencer, [CloseSlot(0)] + [AppendClose], true);
    RunCons(cfg, s1, CloseSlot(0), [AppendClose], true);
    RunOne(cfg, s2, AppendClose, true);
    StepKeeps(cfg, s, RestartSequencer, true);
    StepKeeps(cfg, s1, CloseSlot(0), true);
    StepKeeps(cfg, s2, AppendClose, true);
    RestartStep(cfg, s);
    e := EmptyClose(cfg, s1, 0);
    InvHasCore(cfg, s1, true);
    ResumesAtNext(cfg, s1);
  }

  lemma ResumesAtNext(cfg: Config, s: System)
    requires Core(cfg, s)
    ensures s.sequencer.nextSlot == |Of(Commits, s.log)|
  {
    hide Of, Orderly;
  }

  /** A close with nothing buffered appends an empty slot and nothing else. */
  lemma EmptyClose(cfg: Config, s: System, now: nat) returns (e: Entry)
    requires s.sequencer.buffer == [] && s.sequencer.outbox == []
    ensures e == SlotEntry(cfg, [], s.sequencer.nextSlot, s.sequencer.cursor, now)
    ensures e.SlotCommitted? && e.slot == s.sequencer.nextSlot && e.consumedUpTo == s.sequencer.cursor
    ensures Step(cfg, Step(cfg, s, CloseSlot(now)), AppendClose) ==
      s.(log := s.log + [e], sequencer := s.sequencer.(nextSlot := s.sequencer.nextSlot + 1))
  {
    var q := s.sequencer;
    e := SlotEntry(cfg, [], q.nextSlot, q.cursor, now);
    assert CloseEntries(cfg, [], q.nextSlot, q.cursor, now) == [e];
    var s1 := Step(cfg, s, CloseSlot(now));
    assert s1 == s.(sequencer := q.(outbox := [e]));
  }

  /** Let the attester restart and read to the head. */
  const FRESH_ATTESTER: seq<Action> := [ScanForAttester] + ([StartAttester] + [ReadSlots])

  lemma FreshStep(cfg: Config, s: System)
    ensures Step(cfg, s, ScanForAttester) == s.(attester := Starting(|s.log|))
    ensures var up := AttesterResume(s.log, |s.log|);
      up.cursor == up.readTo &&
      Step(cfg, s.(attester := Starting(|s.log|)), StartAttester) == s.(attester := Running(up)) &&
      Step(cfg, s.(attester := Running(up)), ReadSlots) == s.(attester := Running(up.(readTo := |s.log|)))
    ensures !Races(s.(attester := Starting(|s.log|)), StartAttester, true)
  {
    hide DoneThrough, SlotPosition;
    assert s.log[..|s.log|] == s.log && s.log[|s.log|..] == [];
  }

  lemma FreshAttester(cfg: Config, s: System) returns (t: System)
    requires Inv(cfg, s, true) && cfg.batchSize >= 1
    ensures t == Run(cfg, s, FRESH_ATTESTER) && Unraced(cfg, s, FRESH_ATTESTER, true)
    ensures Inv(cfg, t, true) && t.prover == s.prover && t.log == s.log
    ensures t.attester.Running? && t.attester.state.readTo == |t.log|
  {
    hide Inv, Step, Run, Unraced, AttesterResume, AttesterRaced, ProverRaced;
    var s1 := Step(cfg, s, ScanForAttester);
    var s2 := Step(cfg, s1, StartAttester);
    t := Step(cfg, s2, ReadSlots);
    FreshStep(cfg, s);
    RunCons(cfg, s, ScanForAttester, [StartAttester] + [ReadSlots], true);
    RunCons(cfg, s1, StartAttester, [ReadSlots], true);
    RunOne(cfg, s2, ReadSlots, true);
    StepKeeps(cfg, s, ScanForAttester, true);
    StepKeeps(cfg, s1, StartAttester, true);
    StepKeeps(cfg, s2, ReadSlots, true);
  }

  /** The slot the cursor is at is the next to rule on, and its commitment is genuine. */
  lemma SlotAtCursor(cfg: Config, s: System)
    requires Inv(cfg, s, true) && s.attester.Running?
    requires s.attester.state.cursor < |s.log| && s.log[s.attester.state.cursor].SlotCommitted?
    ensures var e := s.log[s.attester.state.cursor];
      e.slot == |Of(Rulings, s.log)| && e.commitment == Commit(cfg.keccak, e.slot, e.intents)
  {
    WellFormedIsOrderly(cfg, s.log);
    hide Core, WellFormed, Orderly, ProverOk, Of, LiveOrder;
    FairAt(cfg, s.log, s.attester.state.cursor);
  }

  lemma RulesNext(cfg: Config, s: System)
    requires Inv(cfg, s, true) && s.attester.Running? && s.attester.state.readTo == |s.log|
    requires s.attester.state.cursor < |s.log| && s.log[s.attester.state.cursor].SlotCommitted?
    ensures var t := Step(cfg, s, RuleOnEntry(None));
      |t.log| == |s.log| + 1 && t.log[..|s.log|] == s.log && t.prover == s.prover &&
      t.log[|s.log|].SlotAttested? && t.log[|s.log|].slot == |Of(Rulings, s.log)|
  {
    hide Inv, Of;
    SlotAtCursor(cfg, s);
  }

  lemma NotYet(cfg: Config, s: System)
    requires Inv(cfg, s, true) && s.attester.Running? && s.attester.state.readTo == |s.log|
    requires |Of(Rulings, s.log)| < |Of(Commits, s.log)|
    ensures s.attester.state.cursor < |s.log|
  {
    hide Core, WellFormed, ProverOk, Of;
    assert s.log[..|s.log|] == s.log;
  }

  lemma PassesOver(cfg: Config, s: System)
    requires s.attester.Running? && s.attester.state.readTo == |s.log|
    requires s.attester.state.cursor < |s.log| && !s.log[s.attester.state.cursor].SlotCommitted?
    ensures Step(cfg, s, RuleOnEntry(None)) ==
      s.(attester := Running(s.attester.state.(cursor := s.attester.state.cursor + 1)))
  {
    assert s.log + [] == s.log;
  }

  /** Let the attester walk on until it rules on a slot. */
  lemma WalkToRuling(cfg: Config, s: System) returns (w: seq<Action>, t: System)
    requires Inv(cfg, s, true) && cfg.batchSize >= 1 && s.attester.Running? && s.attester.state.readTo == |s.log|
    requires |Of(Rulings, s.log)| < |Of(Commits, s.log)|
    ensures t == Run(cfg, s, w) && Unraced(cfg, s, w, true) && AllInRange(cfg, w) && NotProver(w)
    ensures |t.log| == |s.log| + 1 && t.log[..|s.log|] == s.log && t.prover == s.prover
    ensures t.log[|s.log|].SlotAttested? && t.log[|s.log|].slot == |Of(Rulings, s.log)|
    decreases |s.log| - if s.attester.Running? then s.attester.state.cursor else 0
  {
    hide Inv, Step;
    NotYet(cfg, s);
    var a := RuleOnEntry(None);
    RunOne(cfg, s, a, true);
    if s.log[s.attester.state.cursor].SlotCommitted? {
      RulesNext(cfg, s);
      w, t := [a], Step(cfg, s, a);
    } else {
      StepKeeps(cfg, s, a, true);
      PassesOver(cfg, s);
      w, t := WalkToRuling(cfg, Step(cfg, s, a));
      RunCons(cfg, s, a, w, true);
      w := [a] + w;
    }
  }

  lemma ReadsBatch(cfg: Config, s: System, p: ProverState)
    requires s.prover == Running(p) && ProverIdle(p) && p.batch == [] && p.cursor <= |s.log|
    ensures Step(cfg, s, ReadRulings) == s.(prover := Running(p.(batch := s.log[p.cursor..], cursor := |s.log|)))
  {
  }

  lemma TakeSlot(cfg: Config, s: System, p: ProverState, c: Entry, rest: seq<Entry>)
    requires cfg.batchSize >= 1 && s.prover == Running(p) && ProverIdle(p) && p.pending == []
    requires p.batch == [c] + rest && c.SlotCommitted?
    ensures Step(cfg, s, TakeEntry) ==
      s.(prover := Running(p.(batch := rest, awaiting := p.awaiting[c.slot := SlotOf(c)])))
  {
    assert p.batch[1..] == rest;
  }

  lemma TakeStray(cfg: Config, s: System, p: ProverState, r: Entry)
    requires s.prover == Running(p) && ProverIdle(p) && p.batch == [r] && r.SlotAttested?
    requires p.nextSlot < r.slot || (p.nextSlot == r.slot && p.nextSlot !in p.awaiting)
    ensures Faulted(Step(cfg, s, TakeEntry))
  {
  }

  const LAST_READS: seq<Action> := [ReadRulings] + ([TakeEntry] + [TakeEntry])

  /** Two entries a raced prover cannot survive reading: a fresh slot, then the attester's next ruling. */
  lemma ReadsToFault(cfg: Config, s: System, p: ProverState, c: Entry, r: Entry)
    requires cfg.batchSize >= 1 && s.prover == Running(p) && p.cursor + 2 == |s.log|
    requires p == ProverState(map[], [], p.nextSlot, p.cursor, [], [], None)
    requires s.log[p.cursor] == c && s.log[p.cursor + 1] == r && c.SlotCommitted? && r.SlotAttested?
    requires p.nextSlot <= r.slot && p.nextSlot < c.slot
    ensures Faulted(Run(cfg, s, LAST_READS)) && Unraced(cfg, s, LAST_READS, true)
  {
    hide Step, Run, Unraced, AttesterRaced, ProverRaced, Faulted;
    var s1 := Step(cfg, s, ReadRulings);
    var s2 := Step(cfg, s1, TakeEntry);
    RunCons(cfg, s, ReadRulings, [TakeEntry] + [TakeEntry], true);
    RunCons(cfg, s1, TakeEntry, [TakeEntry], true);
    RunOne(cfg, s2, TakeEntry, true);
    assert s.log[p.cursor..] == [c] + [r];
    ReadsBatch(cfg, s, p);
    TakeSlot(cfg, s1, s1.prover.state, c, [r]);
    TakeStray(cfg, s2, s2.prover.state, r);
  }

  lemma RacedProver(cfg: Config, s: System)
    requires Inv(cfg, s, true) && ProverRaces(s, StartProver)
    ensures OutcomeNext(s.log) <= |Of(Rulings, s.log)| && OutcomeNext(s.log) < |Of(Commits, s.log)|
    ensures Step(cfg, s, StartProver) ==
      s.(prover := Running(ProverState(map[], [], OutcomeNext(s.log), |s.log|, [], [], None)))
  {
    hide Core, WellFormed, AttesterOk, OutcomeNext, SlotPosition, OutcomeThrough;
    ScanPoint(cfg, s.log, s.prover.scanned);
    OfPrefix(Commits, s.log, s.prover.scanned);
  }

  /** What the other stages do between a raced start and the fault, and where that leaves them. */
  lemma OthersGoOn(cfg: Config, s: System) returns (before: seq<Action>, t: System)
    requires Inv(cfg, s, true) && cfg.batchSize >= 1
    ensures t == Run(cfg, s, before) && Unraced(cfg, s, before, true) && NotProver(before) && AllInRange(cfg, before)
    ensures |t.log| == |s.log| + 2 && t.log[..|s.log|] == s.log
    ensures t.log[|s.log|].SlotCommitted? && t.log[|s.log|].slot == |Of(Commits, s.log)|
    ensures t.log[|s.log| + 1].SlotAttested? && t.log[|s.log| + 1].slot == |Of(Rulings, s.log)|
  {
    hide Inv, Step, Unraced, Run, Of;
    var s1, c := FreshSlot(cfg, s);
    var s2 := FreshAttester(cfg, s1);
    OfSnoc(Commits, s.log, c);
    OfSnoc(Rulings, s.log, c);
    RulingsBehind(cfg, s);
    var w, s3 := WalkToRuling(cfg, s2);
    RunConcat(cfg, s1, FRESH_ATTESTER, w, true);
    RunConcat(cfg, s, FRESH_SLOT, FRESH_ATTESTER + w, true);
    before, t := FRESH_SLOT + (FRESH_ATTESTER + w), s3;
    assert t.log[..|s.log| + 1] == s.log + [c];
    assert t.log[|s.log|] == (s.log + [c])[|s.log|];
    assert t.log[..|s.log|] == (s.log + [c])[..|s.log|];
  }

  /** From a raced start there is a way on, with no further race and an enclave that answers, to a fault. */
  lemma RacedProverCanFault(cfg: Config, s: System) returns (more: seq<Action>)
    requires Inv(cfg, s, true) && ProverRaces(s, StartProver) && cfg.batchSize >= 1
    ensures AllInRange(cfg, more) && Unraced(cfg, Step(cfg, s, StartProver), more, true)
    ensures Faulted(Run(cfg, Step(cfg, s, StartProver), more))
  {
    hide Inv, Step, Faulted, Unraced, Run, Of, ProverRaces, OutcomeNext, NotProver;
    RacedProver(cfg, s);
    var up := Step(cfg, s, StartProver);
    var before, t := OthersGoOn(cfg, s);
    RunSkipsProver(cfg, s, before, up.prover);
    var s3 := t.(prover := up.prover);
    ReadsToFault(cfg, s3, up.prover.state, t.log[|s.log|], t.log[|s.log| + 1]);
    RunConcat(cfg, up, before, LAST_READS, true);
    more := before + LAST_READS;
  }

  lemma RulingsBehind(cfg: Config, s: System)
    requires Inv(cfg, s, true)
    ensures |Of(Rulings, s.log)| <= |Of(Commits, s.log)|
  {
    RulingsBehindCommits(cfg, s.log);
  }

  /**
   * Starting the prover is safe, whatever unraced run follows, if and only if the start is not
   * raced: `SlotGap` and `MissingCommit` are within reach exactly after a raced start.
   */
  lemma StartSafeExactly(cfg: Config, s: System)
    requires Inv(cfg, s, true) && cfg.batchSize >= 1
    ensures (forall more :: SafeFrom(cfg, Step(cfg, s, StartProver), more)) <==> !ProverRaces(s, StartProver)
  {
    hide Inv, Step, Run, Faulted, Unraced;
    var t := Step(cfg, s, StartProver);
    if ProverRaces(s, StartProver) {
      var more := RacedProverCanFault(cfg, s);
      assert !SafeFrom(cfg, t, more);
    } else {
      StepKeeps(cfg, s, StartProver, true);
      forall more
        ensures SafeFrom(cfg, t, more)
      {
        if AllInRange(cfg, more) && Unraced(cfg, t, more, true) {
          RunKeeps(cfg, t, more, true);
          InvNotFaulted(cfg, Run(cfg, t, more));
        }
      }
    }
  }

  lemma InvNotFaulted(cfg: Config, s: System)
    requires Inv(cfg, s, true)
    ensures !Faulted(s)
  {
  }
}
