/** Runs from the empty log that reach each fault, and what exactly it takes to reach one. */
module FaultRuns {
  import opened Logs
  import opened Seqs
  import opened Buffers
  import opened Slots
  import opened Attestation
  import opened History
  import opened Sequencing
  import opened Attesting
  import opened Proving
  import opened Pipeline
  import opened Runs
  import opened Starts

  // ----- runs from the empty log -----

  const CLOSE: seq<Action> := [CloseSlot(0)] + [AppendClose]

  function ReadAndRule(down: Option<string>): seq<Action> {
    [ReadSlots] + [RuleOnEntry(down)]
  }

  /** The sequencer between closes, with nothing ever read. */
  predicate Blank(s: System) {
    s.sequencer.buffer == [] && s.sequencer.outbox == [] && s.sequencer.cursor == 0
  }

  function Closed(cfg: Config, s: System): System {
    s.(log := s.log + [SlotEntry(cfg, [], s.sequencer.nextSlot, 0, 0)],
       sequencer := s.sequencer.(nextSlot := s.sequencer.nextSlot + 1))
  }

  lemma RunClose(cfg: Config, s: System)
    requires Blank(s)
    ensures Run(cfg, s, CLOSE) == Closed(cfg, s) && Unraced(cfg, s, CLOSE, true)
  {
    hide Step, Run, Unraced, SlotEntry;
    RunCons(cfg, s, CloseSlot(0), [AppendClose], true);
    RunOne(cfg, Step(cfg, s, CloseSlot(0)), AppendClose, true);
    var e := EmptyClose(cfg, s, 0);
  }

  /** The attester, at the last entry, which is a slot it has yet to read. */
  predicate AtLast(s: System) {
    s.attester.Running? && s.attester.state.cursor == s.attester.state.readTo &&
    s.attester.state.cursor + 1 == |s.log| && s.log[s.attester.state.cursor].SlotCommitted?
  }

  function RuledLast(cfg: Config, s: System, down: Option<string>): System
    requires AtLast(s)
  {
    var c := s.attester.state.cursor;
    s.(log := s.log + [Ruling(cfg.keccak, cfg.measurement, down, s.log[c])],
       attester := Running(AttesterState(c + 1, c + 1)))
  }

  lemma RunRule(cfg: Config, s: System, down: Option<string>)
    requires AtLast(s)
    ensures Run(cfg, s, ReadAndRule(down)) == RuledLast(cfg, s, down) && Unraced(cfg, s, ReadAndRule(down), true)
  {
    hide Run, Unraced, Ruling;
    RunCons(cfg, s, ReadSlots, [RuleOnEntry(down)], true);
    RunOne(cfg, Step(cfg, s, ReadSlots), RuleOnEntry(down), true);
  }

  lemma EmptySlotRuling(cfg: Config, slot: nat, down: Option<string>)
    ensures var r := Ruling(cfg.keccak, cfg.measurement, down, SlotEntry(cfg, [], slot, 0, 0));
      r.slot == slot && if down.None? then r.SlotAttested? else r.AttestFailed?
  {
    assert SlotOrder([]) == [] && Ids([]) == [];
  }

  // ----- batches of size zero -----

  const UNWRAP: seq<Action> := [StartProver] + (CLOSE + ([ReadRulings] + [TakeEntry]))

  ghost predicate FaultsOn(cfg: Config, actions: seq<Action>) {
    AllInRange(cfg, actions) && Unraced(cfg, Boot([]), actions, true) && Faulted(Execute(cfg, actions))
  }

  lemma FirstStart(cfg: Config, s: System)
    requires s.log == [] && s.prover == Starting(0)
    ensures Step(cfg, s, StartProver) == s.(prover := Running(ProverState(map[], [], 0, 0, [], [], None)))
    ensures !Races(s, StartProver, true)
  {
    assert s.log[..0] == [] && s.log[0..] == [];
  }

  lemma TakeUnwraps(cfg: Config, s: System, p: ProverState, c: Entry)
    requires cfg.batchSize == 0 && s.prover == Running(p) && ProverIdle(p) && p.pending == []
    requires p.batch == [c] && c.SlotCommitted?
    ensures Step(cfg, s, TakeEntry).prover.Running? && Step(cfg, s, TakeEntry).prover.state.fault == Some(EmptyFlush)
  {
  }

  lemma Unwraps(cfg: Config)
    requires cfg.batchSize == 0
    ensures Execute(cfg, UNWRAP).prover.Running? && Execute(cfg, UNWRAP).prover.state.fault == Some(EmptyFlush)
    ensures Unraced(cfg, Boot([]), UNWRAP, true)
  {
    hide Step, Run, Unraced, SlotEntry, AttesterRaced, ProverRaced;
    var s0 := Boot([]);
    var s1 := Step(cfg, s0, StartProver);
    var s2 := Closed(cfg, s1);
    var s3 := Step(cfg, s2, ReadRulings);
    FirstStart(cfg, s0);
    RunCons(cfg, s0, StartProver, CLOSE + ([ReadRulings] + [TakeEntry]), true);
    RunClose(cfg, s1);
    RunConcat(cfg, s1, CLOSE, [ReadRulings] + [TakeEntry], true);
    RunCons(cfg, s2, ReadRulings, [TakeEntry], true);
    RunOne(cfg, s3, TakeEntry, true);
    var c := EmptyClose(cfg, s1, 0);
    assert s2.log[0..] == [c];
    ReadsBatch(cfg, s2, s2.prover.state);
    TakeUnwraps(cfg, s3, s3.prover.state, c);
  }

  /** Some unraced run brings the prover to a fault if and only if batches have size zero. */
  lemma FaultsExactlyAtZero(cfg: Config)
    ensures (exists actions :: FaultsOn(cfg, actions)) <==> cfg.batchSize == 0
  {
    if cfg.batchSize == 0 {
      Unwraps(cfg);
      assert FaultsOn(cfg, UNWRAP);
    } else {
      forall actions
        ensures !FaultsOn(cfg, actions)
      {
        if AllInRange(cfg, actions) && Unraced(cfg, Boot([]), actions, true) {
          NeverFaults(cfg, actions);
        }
      }
    }
  }

  // ----- a first start of the prover, raced -----

  const MISS: seq<Action> :=
    CLOSE + ([StartProver] + ([StartAttester] + (ReadAndRule(None) + ([ReadRulings] + [TakeEntry]))))

  lemma StartsBehind(cfg: Config, s: System, c: Entry)
    requires s.log == [c] && c.SlotCommitted? && s.prover == Starting(0) && s.attester == Starting(0)
    ensures ProverRaces(s, StartProver)
    ensures var t := s.(prover := Running(ProverState(map[], [], 0, 1, [], [], None)));
      Step(cfg, s, StartProver) == t && Step(cfg, t, StartAttester) == t.(attester := Running(AttesterState(0, 0)))
  {
    assert s.log[..0] == [] && s.log[0..] == [c] && [c][..0] == [];
  }

  lemma TakeUnknown(cfg: Config, s: System, p: ProverState, r: Entry)
    requires s.prover == Running(p) && ProverIdle(p) && p.batch == [r] && r.SlotAttested? && r.slot == p.nextSlot
    requires p.nextSlot !in p.awaiting
    ensures var t := Step(cfg, s, TakeEntry); t.prover.Running? && t.prover.state.fault == Some(MissingCommit(r.slot))
  {
  }

  /** The prover's first start can be raced: slot 0 committed between its scan and its head read is missed. */
  lemma FirstStartMisses(cfg: Config)
    ensures var s := Execute(cfg, MISS); s.prover.Running? && s.prover.state.fault == Some(MissingCommit(0))
    ensures ProverRaces(Execute(cfg, CLOSE), StartProver)
  {
    hide Step, Run, Unraced, SlotEntry, Ruling, ProverRaces;
    var s0 := Boot([]);
    var s1 := Closed(cfg, s0);
    var s2 := Step(cfg, s1, StartProver);
    var s3 := Step(cfg, s2, StartAttester);
    var c := EmptyClose(cfg, s0, 0);
    RunClose(cfg, s0);
    assert s1.log == [c];
    StartsBehind(cfg, s1, c);
    var s4 := RuledLast(cfg, s3, None);
    RunRule(cfg, s3, None);
    var s5 := Step(cfg, s4, ReadRulings);
    RunOne(cfg, s5, TakeEntry, true);
    RunCons(cfg, s4, ReadRulings, [TakeEntry], true);
    RunConcat(cfg, s3, ReadAndRule(None), [ReadRulings] + [TakeEntry], true);
    RunCons(cfg, s2, StartAttester, ReadAndRule(None) + ([ReadRulings] + [TakeEntry]), true);
    RunCons(cfg, s1, StartProver, [StartAttester] + (ReadAndRule(None) + ([ReadRulings] + [TakeEntry])), true);
    var rest := [StartAttester] + (ReadAndRule(None) + ([ReadRulings] + [TakeEntry]));
    RunConcat(cfg, s0, CLOSE, [StartProver] + rest, true);
    EmptySlotRuling(cfg, 0, None);
    var r := s4.log[1];
    assert s4.log[1..] == [r];
    ReadsBatch(cfg, s4, s4.prover.state);
    TakeUnknown(cfg, s5, s5.prover.state, r);
  }

  // ----- a restart of the attester, raced -----

  /** Slot 0 is committed and ruled on; the attester restarts, and slot 1 is committed after its scan. */
  const OVERTAKE: seq<Action> := [StartAttester] + (CLOSE + (ReadAndRule(Some("down")) + ([ScanForAttester] + CLOSE)))

  lemma FirstAttester(cfg: Config, s: System)
    requires s.log == [] && s.attester == Starting(0)
    ensures Step(cfg, s, StartAttester) == s.(attester := Running(AttesterState(0, 0)))
    ensures !Races(s, StartAttester, true)
  {
    assert s.log[..0] == [] && s.log[0..] == [];
  }

  lemma Overtaken(cfg: Config, s: System, c: Entry, r: Entry, d: Entry)
    requires s.log == [c, r] + [d] && s.attester == Starting(2)
    requires c.SlotCommitted? && c.slot == 0 && r.AttestFailed? && r.slot == 0 && d.SlotCommitted? && d.slot == 1
    ensures AttesterRaces(s, StartAttester)
    ensures Step(cfg, s, StartAttester) == s.(attester := Running(AttesterState(3, 3)))
  {
    assert s.log[..2] == [c, r] && s.log[2..] == [d] && [c, r][..1] == [c] && [c][..0] == [] && [d][..0] == [];
    assert DoneThrough([c]) == None && DoneThrough([c, r]) == Some(0);
    assert SlotPosition([c], 1) == None && SlotPosition([c, r], 1) == None;
  }

  lemma ScanStep(cfg: Config, s: System)
    ensures Step(cfg, s, ScanForAttester) == s.(attester := Starting(|s.log|))
  {
  }

  lemma AtOvertake(cfg: Config) returns (s: System)
    ensures s == Execute(cfg, OVERTAKE) && Unraced(cfg, Boot([]), OVERTAKE, true)
    ensures Blank(s) && s.sequencer.nextSlot == 2 && |s.log| == 3 && AttesterRaces(s, StartAttester)
    ensures s.log[0].SlotCommitted? && s.log[0].slot == 0 && s.log[1].AttestFailed? && s.log[1].slot == 0
    ensures s.log[2].SlotCommitted? && s.log[2].slot == 1
    ensures Step(cfg, s, StartAttester) == s.(attester := Running(AttesterState(3, 3)))
  {
    hide Step, Run, Unraced, SlotEntry, Ruling, AttesterRaces, ProverRaced, AttesterRaced;
    var s0 := Boot([]);
    FirstAttester(cfg, s0);
    var s1 := Step(cfg, s0, StartAttester);
    RunClose(cfg, s1);
    var c := EmptyClose(cfg, s1, 0);
    var s2 := Closed(cfg, s1);
    assert s2.log == [c];
    RunRule(cfg, s2, Some("down"));
    EmptySlotRuling(cfg, 0, Some("down"));
    var s3 := RuledLast(cfg, s2, Some("down"));
    ScanStep(cfg, s3);
    var s4 := Step(cfg, s3, ScanForAttester);
    RunClose(cfg, s4);
    var d := EmptyClose(cfg, s4, 0);
    s := Closed(cfg, s4);
    Overtaken(cfg, s, c, s3.log[1], d);
    OvertakeRuns(cfg, s0, s1, s2, s3, s4);
  }

  /** An unraced run after which starting the attester is a raced start; what follows is `RacedAttesterSkips`. */
  lemma RestartOvertaken(cfg: Config)
    ensures AllInRange(cfg, OVERTAKE) && Unraced(cfg, Boot([]), OVERTAKE, true)
    ensures AttesterRaces(Execute(cfg, OVERTAKE), StartAttester)
  {
    hide Execute, Unraced, AttesterRaces;
    var s := AtOvertake(cfg);
  }

  lemma OvertakeRuns(cfg: Config, s0: System, s1: System, s2: System, s3: System, s4: System)
    requires s1 == Step(cfg, s0, StartAttester) && !Races(s0, StartAttester, true)
    requires s2 == Run(cfg, s1, CLOSE) && Unraced(cfg, s1, CLOSE, true)
    requires s3 == Run(cfg, s2, ReadAndRule(Some("down"))) && Unraced(cfg, s2, ReadAndRule(Some("down")), true)
    requires s4 == Step(cfg, s3, ScanForAttester) && Unraced(cfg, s4, CLOSE, true)
    ensures Run(cfg, s0, OVERTAKE) == Run(cfg, s4, CLOSE) && Unraced(cfg, s0, OVERTAKE, true)
  {
    hide Step, Run, Unraced;
    RunCons(cfg, s3, ScanForAttester, CLOSE, true);
    RunConcat(cfg, s2, ReadAndRule(Some("down")), [ScanForAttester] + CLOSE, true);
    RunConcat(cfg, s1, CLOSE, ReadAndRule(Some("down")) + ([ScanForAttester] + CLOSE), true);
    RunCons(cfg, s0, StartAttester, CLOSE + (ReadAndRule(Some("down")) + ([ScanForAttester] + CLOSE)), true);
  }

  // ----- and the prover behind it -----

  const STRAND: seq<Action> :=
    [StartAttester] + (CLOSE + (ReadAndRule(None) + ([ScanForProver] + ([StartProver] + READ_FIVE))))

  const READ_FIVE: seq<Action> :=
    [ReadRulings] + ([TakeEntry] + ([TakeEntry] + ([TakeEntry] + ([TakeEntry] + [TakeEntry]))))

  predicate SkippedOne(log: seq<Entry>) {
    |log| == 5 && log[0].SlotCommitted? && log[0].slot == 0 && log[1].AttestFailed? && log[1].slot == 0 &&
    log[2].SlotCommitted? && log[2].slot == 1 && log[3].SlotCommitted? && log[3].slot == 2 &&
    log[4].SlotAttested? && log[4].slot == 2
  }

  lemma FreshProver(cfg: Config, s: System)
    requires SkippedOne(s.log)
    ensures var t := s.(prover := Starting(5));
      Step(cfg, s, ScanForProver) == t && !ProverRaces(t, StartProver) &&
      Step(cfg, t, StartProver) == t.(prover := Running(ProverState(map[], [], 0, 0, [], [], None)))
  {
    var l := s.log;
    assert l[..5] == l && l[..5][..4] == l[..4] && l[..4][..3] == l[..3] && l[..3][..2] == l[..2];
    assert l[..2][..1] == l[..1] && l[..1][..0] == [];
    assert SlotPosition(l[..1], 0) == Some(0) && SlotPosition(l[..3], 0) == SlotPosition(l[..2], 0) == Some(0);
    assert SlotPosition(l[..5], 0) == SlotPosition(l[..4], 0) == Some(0);
    assert OutcomeThrough(l[..1]) == None && OutcomeThrough(l[..3]) == OutcomeThrough(l[..2]) == None;
    assert OutcomeThrough(l[..5]) == OutcomeThrough(l[..4]) == None;
  }

  lemma TakeFailed(cfg: Config, s: System, p: ProverState, r: Entry, rest: seq<Entry>)
    requires cfg.batchSize >= 1 && s.prover == Running(p) && ProverIdle(p) && p.pending == []
    requires p.batch == [r] + rest && r.AttestFailed? && r.slot == p.nextSlot
    ensures Step(cfg, s, TakeEntry) ==
      s.(prover := Running(p.(batch := rest, awaiting := p.awaiting - {r.slot}, nextSlot := p.nextSlot + 1)))
  {
    assert p.batch[1..] == rest;
  }

  lemma TakeGap(cfg: Config, s: System, p: ProverState, r: Entry)
    requires s.prover == Running(p) && ProverIdle(p) && p.batch == [r] && r.SlotAttested? && p.nextSlot < r.slot
    ensures var t := Step(cfg, s, TakeEntry);
      t.prover.Running? && t.prover.state.fault == Some(SlotGap(p.nextSlot, r.slot))
  {
  }

  lemma ReadsGap(cfg: Config, s: System)
    requires cfg.batchSize >= 1 && SkippedOne(s.log) && s.prover == Running(ProverState(map[], [], 0, 0, [], [], None))
    ensures var t := Run(cfg, s, READ_FIVE); t.prover.Running? && t.prover.state.fault == Some(SlotGap(1, 2))
  {
    hide Step, Run, Unraced, Races;
    var l := s.log;
    var s1 := Step(cfg, s, ReadRulings);
    var s2 := Step(cfg, s1, TakeEntry);
    var s3 := Step(cfg, s2, TakeEntry);
    var s4 := Step(cfg, s3, TakeEntry);
    var s5 := Step(cfg, s4, TakeEntry);
    assert l[0..] == [l[0]] + l[1..] && l[1..] == [l[1]] + l[2..] && l[2..] == [l[2]] + l[3..];
    assert l[3..] == [l[3]] + [l[4]];
    ReadsBatch(cfg, s, s.prover.state);
    TakeSlot(cfg, s1, s1.prover.state, l[0], l[1..]);
    TakeFailed(cfg, s2, s2.prover.state, l[1], l[2..]);
    TakeSlot(cfg, s3, s3.prover.state, l[2], l[3..]);
    TakeSlot(cfg, s4, s4.prover.state, l[3], [l[4]]);
    TakeGap(cfg, s5, s5.prover.state, l[4]);
    RunOne(cfg, s5, TakeEntry, true);
    RunCons(cfg, s4, TakeEntry, [TakeEntry], true);
    RunCons(cfg, s3, TakeEntry, [TakeEntry] + [TakeEntry], true);
    RunCons(cfg, s2, TakeEntry, [TakeEntry] + ([TakeEntry] + [TakeEntry]), true);
    RunCons(cfg, s1, TakeEntry, [TakeEntry] + ([TakeEntry] + ([TakeEntry] + [TakeEntry])), true);
    RunCons(cfg, s, ReadRulings, [TakeEntry] + ([TakeEntry] + ([TakeEntry] + ([TakeEntry] + [TakeEntry]))), true);
  }

  /** The slot the attester passed over stops the prover, though the prover itself was never raced. */
  lemma SkippedSlotGaps(cfg: Config)
    requires cfg.batchSize >= 1
    ensures var s := Execute(cfg, OVERTAKE + STRAND); s.prover.Running? && s.prover.state.fault == Some(SlotGap(1, 2))
  {
    hide Step, Run, Unraced, SlotEntry, Ruling, Races, ProverRaces, AttesterRaces;
    var s := AtOvertake(cfg);
    RunConcat(cfg, Boot([]), OVERTAKE, STRAND, true);
    var s1 := Step(cfg, s, StartAttester);
    RunClose(cfg, s1);
    var d := EmptyClose(cfg, s1, 0);
    var s2 := Closed(cfg, s1);
    RunRule(cfg, s2, None);
    EmptySlotRuling(cfg, 2, None);
    var s3 := RuledLast(cfg, s2, None);
    FreshProver(cfg, s3);
    var s4 := Step(cfg, s3, ScanForProver);
    var s5 := Step(cfg, s4, StartProver);
    ReadsGap(cfg, s5);
    RunCons(cfg, s4, StartProver, READ_FIVE, true);
    RunCons(cfg, s3, ScanForProver, [StartProver] + READ_FIVE, true);
    RunConcat(cfg, s2, ReadAndRule(None), [ScanForProver] + ([StartProver] + READ_FIVE), true);
    RunConcat(cfg, s1, CLOSE, ReadAndRule(None) + ([ScanForProver] + ([StartProver] + READ_FIVE)), true);
    RunCons(cfg, s, StartAttester, CLOSE + (ReadAndRule(None) + ([ScanForProver] + ([StartProver] + READ_FIVE))), true);
  }
}
