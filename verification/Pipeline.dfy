/**
 * The whole pipeline as a step system: five stages over one log, every append its own step,
 * any stage crashing and recovering at any point. A run is any list of actions; an action
 * that is not possible where it is tried does nothing.
 */
module Pipeline {
  import opened Intents
  import opened Bytes
  import opened Logs
  import opened Seqs
  import opened Attestation
  import opened History
  import opened Admitting
  import opened Sequencing
  import opened Attesting
  import opened Proving
  import opened Projection

  /** A stage that recovers in two calls: it has scanned the log up to `scanned`, or it is running. */
  datatype Stage<+S> = Starting(scanned: nat) | Running(state: S)

  datatype System = System(
    log: seq<Entry>, gate: Gate, sequencer: SequencerState,
    attester: Stage<AttesterState>, prover: Stage<ProverState>, view: View)

  datatype Action =
    | Submit(intent: Intent, now: nat)
    | ReopenGate
    | ReadIntents
    | CloseSlot(now: nat)
    | AppendClose
    | RestartSequencer
    | ScanForAttester
    | StartAttester
    | ReadSlots
    | RuleOnEntry(down: Option<string>)
    | ScanForProver
    | StartProver
    | ReadRulings
    | TakeEntry
    | FlushTimer
    | RecordOutcome(failure: Option<string>)
    | Project(upTo: nat)
    | RestartProjector

  /** Every stage coming up on `log`. */
  function Boot(log: seq<Entry>): System {
    System(log, GateOf(log), SequencerResume(log), Starting(|log|), Starting(|log|), EMPTY_VIEW)
  }

  function SubmitTo(cfg: Config, s: System, intent: Intent, now: nat): System {
    var id := Id(cfg.keccak, intent);
    if Check(cfg.guarantee, s.gate, id, intent, now).Some? then s
    else
      s.(log := s.log + [IntentReceived(id, intent, now)],
         gate := Record(s.gate, id, intent.submitter, intent.nonce))
  }

  /** The second half of `recover_attester`: the head is read, and the loop entered. */
  function AttesterUp(s: System): System {
    if s.attester.Starting? && s.attester.scanned <= |s.log|
    then s.(attester := Running(AttesterResume(s.log[..s.attester.scanned], |s.log|)))
    else s
  }

  function AttesterStep(cfg: Config, s: System, a: AttesterState, action: Action): System {
    match action
    case ReadSlots => if a.cursor == a.readTo then s.(attester := Running(a.(readTo := |s.log|))) else s
    // entries are reached one by one; a slot is ruled on before the cursor passes it
    case RuleOnEntry(down) =>
      if a.cursor < a.readTo <= |s.log|
      then s.(log := s.log + Rules(cfg, s.log[a.cursor], down), attester := Running(a.(cursor := a.cursor + 1)))
      else s
    case _ => s
  }

  /** The second half of `recover_prover`. */
  function ProverUp(s: System): System {
    if s.prover.Starting? && s.prover.scanned <= |s.log|
    then s.(prover := Running(ProverResume(s.log[..s.prover.scanned], |s.log|)))
    else s
  }

  predicate ProverIdle(p: ProverState) {
    p.fault.None? && p.flushing == []
  }

  function ProverStep(cfg: Config, s: System, p: ProverState, action: Action): System {
    match action
    case ReadRulings =>
      if ProverIdle(p) && p.batch == [] && p.cursor <= |s.log| then s.(prover := Running(ReadBatch(s.log, p))) else s
    case TakeEntry =>
      if ProverIdle(p) && p.batch != []
      then s.(prover := Running(OnEntry(Advance(p), p.batch[0], cfg.batchSize))) else s
    case FlushTimer =>
      if ProverIdle(p) && p.batch == [] && p.pending != [] then s.(prover := Running(BeginFlush(p))) else s
    case RecordOutcome(failure) =>
      if p.flushing != []
      then s.(log := s.log + [OutcomeEntry(cfg.keccak, p.flushing, failure)], prover := Running(p.(flushing := [])))
      else s
    case _ => s
  }

  function SequencerStep(cfg: Config, s: System, q: SequencerState, action: Action): System {
    match action
    case ReadIntents =>
      if q.outbox == [] && q.cursor <= |s.log| then s.(sequencer := ReadAll(s.log, q)) else s
    case CloseSlot(now) => if q.outbox == [] then s.(sequencer := BeginClose(cfg, q, now)) else s
    case AppendClose =>
      if q.outbox == [] then s else s.(log := s.log + [q.outbox[0]], sequencer := AfterAppend(q))
    case RestartSequencer => s.(sequencer := SequencerResume(s.log))
    case _ => s
  }

  datatype Owner = AtGate | AtSequencer | AtAttester | AtProver | AtProjector

  function OwnerOf(a: Action): Owner {
    match a
    case Submit(_, _) => AtGate
    case ReopenGate => AtGate
    case ReadIntents => AtSequencer
    case CloseSlot(_) => AtSequencer
    case AppendClose => AtSequencer
    case RestartSequencer => AtSequencer
    case Project(_) => AtProjector
    case RestartProjector => AtProjector
    case ScanForAttester => AtAttester
    case StartAttester => AtAttester
    case ReadSlots => AtAttester
    case RuleOnEntry(_) => AtAttester
    case _ => AtProver
  }

  function Step(cfg: Config, s: System, a: Action): System {
    match OwnerOf(a)
    case AtGate => if a.Submit? then SubmitTo(cfg, s, a.intent, a.now) else s.(gate := GateOf(s.log))
    case AtSequencer => SequencerStep(cfg, s, s.sequencer, a)
    case AtAttester =>
      if a.ScanForAttester? then s.(attester := Starting(|s.log|))
      else if a.StartAttester? then AttesterUp(s)
      else if s.attester.Running? then AttesterStep(cfg, s, s.attester.state, a)
      else s
    case AtProver =>
      if a.ScanForProver? then s.(prover := Starting(|s.log|))
      else if a.StartProver? then ProverUp(s)
      else if s.prover.Running? then ProverStep(cfg, s, s.prover.state, a)
      else s
    case AtProjector =>
      if a.RestartProjector? then s.(view := EMPTY_VIEW)
      else if a.Project? && s.view.cursor <= a.upTo <= |s.log| then s.(view := CatchUp(s.view, s.log, a.upTo))
      else s
  }

  function Run(cfg: Config, s: System, actions: seq<Action>): System {
    if actions == [] then s
    else Step(cfg, Run(cfg, s, actions[..|actions| - 1]), actions[|actions| - 1])
  }

  // ----- what a run asks of its surroundings -----

  /** The gate's clock leaves room for the window in 64 bits. */
  predicate InRange(cfg: Config, a: Action) {
    a.Submit? ==> cfg.guarantee.DeadlineFor(a.now) < U64
  }

  predicate AllInRange(cfg: Config, actions: seq<Action>) {
    forall a :: a in actions ==> InRange(cfg, a)
  }

  /** This step reads a head that a slot has overtaken since the scan, and resumes from it. */
  predicate AttesterRaces(s: System, a: Action) {
    a.StartAttester? && s.attester.Starting? && s.attester.scanned <= |s.log| &&
    AttesterRaced(s.log, s.attester.scanned)
  }

  predicate ProverRaces(s: System, a: Action) {
    a.StartProver? && s.prover.Starting? && s.prover.scanned <= |s.log| && ProverRaced(s.log, s.prover.scanned)
  }

  predicate Races(s: System, a: Action, both: bool) {
    AttesterRaces(s, a) || (both && ProverRaces(s, a))
  }

  /** No step of the run is a raced start: of the attester, or with `both` of either stage. */
  predicate Unraced(cfg: Config, s: System, actions: seq<Action>, both: bool) {
    actions == [] ||
    (Unraced(cfg, s, actions[..|actions| - 1], both) &&
     !Races(Run(cfg, s, actions[..|actions| - 1]), actions[|actions| - 1], both))
  }

  // ----- what holds of every run -----

  /** Gate, sequencer and read model agree with the log, whatever attester and prover do. */
  ghost predicate Core(cfg: Config, s: System) {
    Orderly(cfg, s.log) && s.gate == GateOf(s.log) && SequencerInv(cfg, s.log, s.sequencer) &&
    s.view.cursor <= |s.log| && s.view == Projection.Replay(s.log[..s.view.cursor])
  }

  lemma ViewStays(log: seq<Entry>, e: Entry, view: View)
    requires view.cursor <= |log| && view == Projection.Replay(log[..view.cursor])
    ensures view == Projection.Replay((log + [e])[..view.cursor])
  {
    SliceStays(log, e, 0, view.cursor);
  }

  /** Entries of the attester and the prover leave gate, sequencer and read model where they are. */
  lemma CoreUndisturbed(cfg: Config, s: System, e: Entry)
    requires Core(cfg, s) && !Fronted(e)
    ensures Core(cfg, s.(log := s.log + [e]))
  {
    hide Orderly, SequencerInv, Justified;
    ExtendOrderly(cfg, s.log, e);
    GateOfSnoc(s.log, e);
    SequencerUndisturbed(cfg, s.log, s.sequencer, e);
    ViewStays(s.log, e, s.view);
  }

  lemma SubmitKeepsCore(cfg: Config, s: System, intent: Intent, now: nat)
    requires Core(cfg, s) && cfg.guarantee.DeadlineFor(now) < U64
    ensures Core(cfg, SubmitTo(cfg, s, intent, now))
  {
    hide SequencerInv, Orderly, Justified, Check;
    var id := Id(cfg.keccak, intent);
    if Check(cfg.guarantee, s.gate, id, intent, now).None? {
      var e := IntentReceived(id, intent, now);
      AdmissionJustified(cfg, s.log, intent, now);
      ExtendOrderly(cfg, s.log, e);
      GateOfSnoc(s.log, e);
      SequencerUndisturbed(cfg, s.log, s.sequencer, e);
      ViewStays(s.log, e, s.view);
    }
  }

  lemma CloseAppendsOwn(cfg: Config, log: seq<Entry>, s: SequencerState)
    requires SequencerInv(cfg, log, s) && s.outbox != []
    ensures s.outbox[0].IntentExpired? || s.outbox[0].SlotCommitted?
  {
    if |s.outbox| == 1 {
      LastJustified(cfg, log, s);
    } else {
      EarlierAppend(cfg, log, s);
    }
  }

  lemma AppendCloseKeepsCore(cfg: Config, s: System)
    requires Core(cfg, s) && s.sequencer.outbox != []
    ensures Core(cfg, Step(cfg, s, AppendClose))
  {
    hide SequencerInv, Orderly, Justified, AfterAppend;
    var e := s.sequencer.outbox[0];
    SequencerAppends(cfg, s.log, s.sequencer);
    CloseAppendsOwn(cfg, s.log, s.sequencer);
    ExtendOrderly(cfg, s.log, e);
    GateOfSnoc(s.log, e);
    ViewStays(s.log, e, s.view);
  }

  lemma SequencerKeepsCore(cfg: Config, s: System, a: Action)
    requires Core(cfg, s) && OwnerOf(a).AtSequencer?
    ensures Core(cfg, Step(cfg, s, a))
  {
    hide SequencerInv, Orderly, ReadAll, BeginClose, SequencerResume, AfterAppend, Projection.Replay;
    match a {
      case ReadIntents =>
        if s.sequencer.outbox == [] && s.sequencer.cursor <= |s.log| {
          SequencerReads(cfg, s.log, s.sequencer);
        }
      case CloseSlot(now) =>
        if s.sequencer.outbox == [] {
          SequencerBegins(cfg, s.log, s.sequencer, now);
        }
      case AppendClose =>
        if s.sequencer.outbox != [] {
          AppendCloseKeepsCore(cfg, s);
        }
      case RestartSequencer =>
        SequencerRecovers(cfg, s.log);
    }
  }

  /** What the stages behind the sequencer append, if anything, is never an entry of its kind. */
  lemma BehindAppends(cfg: Config, s: System, a: Action)
    requires OwnerOf(a).AtAttester? || OwnerOf(a).AtProver?
    ensures var t := Step(cfg, s, a);
      t.gate == s.gate && t.sequencer == s.sequencer && t.view == s.view &&
      (t.log == s.log || exists e :: !Fronted(e) && t.log == s.log + [e])
  {
    hide OnEntry, AttesterResume, ProverResume;
    var t := Step(cfg, s, a);
    if a.RuleOnEntry? && s.attester.Running? && t.log != s.log {
      var e := Ruling(cfg.keccak, cfg.measurement, a.down, s.log[s.attester.state.cursor]);
      assert !Fronted(e) && t.log == s.log + [e];
    } else if a.RecordOutcome? && s.prover.Running? && t.log != s.log {
      var e := OutcomeEntry(cfg.keccak, s.prover.state.flushing, a.failure);
      assert !Fronted(e) && t.log == s.log + [e];
    }
  }

  lemma ProjectKeepsCore(cfg: Config, s: System, a: Action)
    requires Core(cfg, s) && OwnerOf(a).AtProjector?
    ensures Core(cfg, Step(cfg, s, a))
  {
    hide SequencerInv, Orderly;
    assert s.log[..0] == [];
    if a.Project? && s.view.cursor <= a.upTo <= |s.log| {
      CatchUpReplays(s.log, s.view.cursor, a.upTo);
    }
  }

  /** No step of any stage, raced or not, breaks what gate, sequencer and read model keep. */
  lemma StepKeepsCore(cfg: Config, s: System, a: Action)
    requires Core(cfg, s) && InRange(cfg, a)
    ensures Core(cfg, Step(cfg, s, a))
  {
    hide SequencerInv, Orderly;
    match OwnerOf(a) {
      case AtGate =>
        if a.Submit? {
          SubmitKeepsCore(cfg, s, a.intent, a.now);
        }
      case AtSequencer =>
        SequencerKeepsCore(cfg, s, a);
      case AtProjector =>
        ProjectKeepsCore(cfg, s, a);
      case _ =>
        BehindKeepsCore(cfg, s, a);
    }
  }

  lemma BehindKeepsCore(cfg: Config, s: System, a: Action)
    requires Core(cfg, s) && (OwnerOf(a).AtAttester? || OwnerOf(a).AtProver?)
    ensures Core(cfg, Step(cfg, s, a))
  {
    hide SequencerInv, Orderly, Step;
    BehindAppends(cfg, s, a);
    var t := Step(cfg, s, a);
    if t.log != s.log {
      var e :| !Fronted(e) && t.log == s.log + [e];
      CoreUndisturbed(cfg, s, e);
    }
  }

  // ----- what holds of every run without a raced start -----

  predicate AttesterOk(log: seq<Entry>, stage: Stage<AttesterState>) {
    match stage
    case Starting(n) => n <= |log| && Of(Rulings, log) == Of(Rulings, log[..n])
    case Running(a) => AttesterInv(log, a)
  }

  ghost predicate ProverOk(cfg: Config, log: seq<Entry>, stage: Stage<ProverState>, sure: bool) {
    match stage
    case Starting(n) => n <= |log| && Of(Outcomes, log) == Of(Outcomes, log[..n])
    case Running(p) => ProverInv(cfg, log, p, sure)
  }

  /** The log is well-formed and every stage agrees with it; `sure` is what the prover is, see `Proving`. */
  ghost predicate Inv(cfg: Config, s: System, sure: bool) {
    Core(cfg, s) && WellFormed(cfg, s.log) && AttesterOk(s.log, s.attester) && ProverOk(cfg, s.log, s.prover, sure)
  }

  lemma AttesterOkStays(log: seq<Entry>, stage: Stage<AttesterState>, e: Entry)
    requires AttesterOk(log, stage) && !Is(Rulings, e)
    ensures AttesterOk(log + [e], stage)
  {
    match stage
    case Starting(n) =>
      OfSnoc(Rulings, log, e);
      SliceStays(log, e, 0, n);
    case Running(a) =>
      AttesterUndisturbed(log, a, e);
  }

  lemma ProverOkStays(cfg: Config, log: seq<Entry>, stage: Stage<ProverState>, e: Entry, sure: bool)
    requires ProverOk(cfg, log, stage, sure) && !Is(Outcomes, e)
    ensures ProverOk(cfg, log + [e], stage, sure)
  {
    hide ProverInv;
    match stage
    case Starting(n) =>
      OfSnoc(Outcomes, log, e);
      SliceStays(log, e, 0, n);
    case Running(p) =>
      ProverUndisturbed(cfg, log, p, e, sure);
  }

  lemma BootKeeps(cfg: Config, log: seq<Entry>, sure: bool)
    requires WellFormed(cfg, log)
    ensures Inv(cfg, Boot(log), sure)
  {
    WellFormedIsOrderly(cfg, log);
    hide WellFormed, Orderly, SequencerInv;
    SequencerRecovers(cfg, log);
    assert log[..0] == [] && log[..|log|] == log;
  }

  /** A front stage's step: the log gains at most one entry, which is then justified. */
  lemma FrontAppends(cfg: Config, s: System, a: Action)
    requires Core(cfg, s) && InRange(cfg, a) && (OwnerOf(a).AtGate? || OwnerOf(a).AtSequencer?)
    ensures var t := Step(cfg, s, a);
      t.attester == s.attester && t.prover == s.prover &&
      (t.log == s.log || exists e :: Fronted(e) && Justified(cfg, s.log, e) && t.log == s.log + [e])
  {
    hide SequencerInv, Orderly, Justified, Check, ReadAll, BeginClose, SequencerResume, AfterAppend;
    var t := Step(cfg, s, a);
    if a.Submit? && t.log != s.log {
      AdmissionJustified(cfg, s.log, a.intent, a.now);
      var e := IntentReceived(Id(cfg.keccak, a.intent), a.intent, a.now);
      assert Fronted(e) && Justified(cfg, s.log, e) && t.log == s.log + [e];
    } else if a.AppendClose? && s.sequencer.outbox != [] {
      SequencerAppends(cfg, s.log, s.sequencer);
      CloseAppendsOwn(cfg, s.log, s.sequencer);
      var e := s.sequencer.outbox[0];
      assert Fronted(e) && Justified(cfg, s.log, e) && t.log == s.log + [e];
    }
  }

  lemma FrontKeeps(cfg: Config, s: System, a: Action, sure: bool)
    requires Inv(cfg, s, sure) && InRange(cfg, a) && (OwnerOf(a).AtGate? || OwnerOf(a).AtSequencer?)
    ensures Inv(cfg, Step(cfg, s, a), sure)
  {
    hide Core, WellFormed, Justified, AttesterOk, ProverOk, Step;
    StepKeepsCore(cfg, s, a);
    FrontAppends(cfg, s, a);
    var t := Step(cfg, s, a);
    if t.log != s.log {
      var e :| Fronted(e) && Justified(cfg, s.log, e) && t.log == s.log + [e];
      Extend(cfg, s.log, e);
      AttesterOkStays(s.log, s.attester, e);
      ProverOkStays(cfg, s.log, s.prover, e, sure);
    }
  }

  lemma AttesterUpKeeps(cfg: Config, s: System)
    requires WellFormed(cfg, s.log) && AttesterOk(s.log, s.attester) && !AttesterRaces(s, StartAttester)
    ensures AttesterOk(s.log, AttesterUp(s).attester)
  {
    hide WellFormed, AttesterRaced, AttesterResume;
    if s.attester.Starting? {
      AttesterResumesExactly(cfg, s.log, s.attester.scanned);
    }
  }

  lemma RuleKeeps(cfg: Config, s: System, down: Option<string>, sure: bool)
    requires Inv(cfg, s, sure) && s.attester.Running?
    ensures Inv(cfg, AttesterStep(cfg, s, s.attester.state, RuleOnEntry(down)), sure)
  {
    hide Core, ProverOk, WellFormed, Justified, Ruling;
    var a := s.attester.state;
    if a.cursor < a.readTo {
      AttesterSteps(cfg, s.log, a, down);
      if s.log[a.cursor].SlotCommitted? {
        var e := Ruling(cfg.keccak, cfg.measurement, down, s.log[a.cursor]);
        Extend(cfg, s.log, e);
        CoreUndisturbed(cfg, s, e);
        ProverOkStays(cfg, s.log, s.prover, e, sure);
        CoreSkips(cfg, s.(log := s.log + [e]), Running(a.(cursor := a.cursor + 1)), s.prover);
      } else {
        assert s.log + [] == s.log;
        CoreSkips(cfg, s, Running(a.(cursor := a.cursor + 1)), s.prover);
      }
    }
  }

  /** `Core` does not look at attester or prover. */
  lemma CoreSkips(cfg: Config, s: System, attester: Stage<AttesterState>, prover: Stage<ProverState>)
    requires Core(cfg, s)
    ensures Core(cfg, s.(attester := attester, prover := prover))
  {
  }

  lemma AttesterKeeps(cfg: Config, s: System, a: Action, sure: bool)
    requires Inv(cfg, s, sure) && OwnerOf(a).AtAttester? && !AttesterRaces(s, a)
    ensures Inv(cfg, Step(cfg, s, a), sure)
  {
    hide Core, WellFormed, ProverOk, Rules, AttesterResume;
    match a {
      case ScanForAttester =>
        assert s.log[..|s.log|] == s.log;
        CoreSkips(cfg, s, Starting(|s.log|), s.prover);
      case StartAttester =>
        AttesterUpKeeps(cfg, s);
        CoreSkips(cfg, s, AttesterUp(s).attester, s.prover);
      case ReadSlots =>
        if s.attester.Running? {
          CoreSkips(cfg, s, Running(s.attester.state.(readTo := |s.log|)), s.prover);
        }
      case RuleOnEntry(down) =>
        if s.attester.Running? {
          RuleKeeps(cfg, s, down, sure);
        }
    }
  }

  lemma ProverUpKeeps(cfg: Config, s: System, sure: bool)
    requires WellFormed(cfg, s.log) && ProverOk(cfg, s.log, s.prover, sure) && cfg.batchSize >= 1
    requires sure ==> !ProverRaces(s, StartProver)
    ensures ProverOk(cfg, s.log, ProverUp(s).prover, sure)
  {
    hide WellFormed, ProverRaced, ProverResume, ProverInv;
    if s.prover.Starting? {
      ProverResumesExactly(cfg, s.log, s.prover.scanned);
    }
  }

  lemma RecordKeepsAll(cfg: Config, s: System, failure: Option<string>, sure: bool)
    requires Inv(cfg, s, sure) && s.prover.Running? && s.prover.state.flushing != []
    ensures Inv(cfg, ProverStep(cfg, s, s.prover.state, RecordOutcome(failure)), sure)
  {
    hide Core, AttesterOk, Going, WellFormed, Justified, OutcomeEntry;
    var p := s.prover.state;
    var e := OutcomeEntry(cfg.keccak, p.flushing, failure);
    ProverRecords(cfg, s.log, p, failure, sure);
    OutcomeIsOutcome(cfg, p.flushing, failure);
    Extend(cfg, s.log, e);
    CoreUndisturbed(cfg, s, e);
    AttesterOkStays(s.log, s.attester, e);
    CoreSkips(cfg, s.(log := s.log + [e]), s.attester, Running(p.(flushing := [])));
  }

  lemma OutcomeIsOutcome(cfg: Config, slots: seq<Proofs.CommittedSlot>, failure: Option<string>)
    requires slots != []
    ensures var e := OutcomeEntry(cfg.keccak, slots, failure); Is(Outcomes, e) && !Fronted(e) && !Is(Rulings, e)
  {
  }

  lemma TimerKeeps(cfg: Config, log: seq<Entry>, p: ProverState, sure: bool)
    requires ProverInv(cfg, log, p, sure) && ProverIdle(p) && cfg.batchSize >= 1 && p.pending != []
    ensures ProverInv(cfg, log, BeginFlush(p), sure)
  {
    hide WellFormed, Holding, Counting, AwaitingIs;
    FlushKeeps(cfg, log, p, sure);
  }

  lemma WorkingKeeps(cfg: Config, s: System, p: ProverState, a: Action, sure: bool)
    requires WellFormed(cfg, s.log) && ProverInv(cfg, s.log, p, sure) && s.prover == Running(p) && cfg.batchSize >= 1
    requires a.ReadRulings? || a.TakeEntry? || a.FlushTimer?
    ensures var t := ProverStep(cfg, s, p, a);
      t == s.(prover := t.prover) && t.prover.Running? && ProverInv(cfg, s.log, t.prover.state, sure)
  {
    hide WellFormed, Going, OnEntry;
    match a {
      case ReadRulings =>
        if ProverIdle(p) && p.batch == [] && p.cursor <= |s.log| {
          ProverReads(cfg, s.log, p, sure);
        }
      case TakeEntry =>
        if ProverIdle(p) && p.batch != [] {
          ProverSteps(cfg, s.log, p, sure);
        }
      case FlushTimer =>
        if ProverIdle(p) && p.batch == [] && p.pending != [] {
          TimerKeeps(cfg, s.log, p, sure);
        }
    }
  }

  lemma ProverKeeps(cfg: Config, s: System, a: Action, sure: bool)
    requires Inv(cfg, s, sure) && OwnerOf(a).AtProver? && cfg.batchSize >= 1
    requires sure ==> !ProverRaces(s, a)
    ensures Inv(cfg, Step(cfg, s, a), sure)
  {
    hide Core, WellFormed, AttesterOk, ProverInv, OnEntry, ProverResume;
    if a.ScanForProver? {
      assert s.log[..|s.log|] == s.log;
      CoreSkips(cfg, s, s.attester, Starting(|s.log|));
    } else if a.StartProver? {
      ProverUpKeeps(cfg, s, sure);
      CoreSkips(cfg, s, s.attester, ProverUp(s).prover);
    } else if s.prover.Running? {
      if a.RecordOutcome? {
        if s.prover.state.flushing != [] {
          RecordKeepsAll(cfg, s, a.failure, sure);
        }
      } else {
        WorkingKeeps(cfg, s, s.prover.state, a, sure);
        CoreSkips(cfg, s, s.attester, Step(cfg, s, a).prover);
      }
    }
  }

  lemma ProjectorKeeps(cfg: Config, s: System, a: Action, sure: bool)
    requires Inv(cfg, s, sure) && OwnerOf(a).AtProjector?
    ensures Inv(cfg, Step(cfg, s, a), sure)
  {
    hide Core, WellFormed, AttesterOk, ProverOk;
    ProjectKeepsCore(cfg, s, a);
  }

  /**
   * Any step of any stage keeps the log well-formed and every stage in agreement with it, crashes
   * and recoveries included, unless it is a raced start. A raced start of the prover costs no more
   * than the prover being sure.
   */
  lemma StepKeeps(cfg: Config, s: System, a: Action, sure: bool)
    requires Inv(cfg, s, sure) && InRange(cfg, a) && !Races(s, a, sure) && cfg.batchSize >= 1
    ensures Inv(cfg, Step(cfg, s, a), sure)
  {
    hide Inv, Step, InRange;
    match OwnerOf(a) {
      case AtAttester =>
        AttesterKeeps(cfg, s, a, sure);
      case AtProver =>
        ProverKeeps(cfg, s, a, sure);
      case AtProjector =>
        ProjectorKeeps(cfg, s, a, sure);
      case _ =>
        FrontKeeps(cfg, s, a, sure);
    }
  }

  /** From any system that agrees with its log, every run agrees with its log as far as it is unraced. */
  lemma {:induction false} RunKeeps(cfg: Config, s: System, actions: seq<Action>, sure: bool)
    requires Inv(cfg, s, sure) && AllInRange(cfg, actions) && Unraced(cfg, s, actions, sure) && cfg.batchSize >= 1
    ensures Inv(cfg, Run(cfg, s, actions), sure)
  {
    hide Inv, Step, InRange, Races;
    if actions != [] {
      var n := |actions| - 1;
      assert actions[n] in actions;
      RunKeeps(cfg, s, actions[..n], sure);
      StepKeeps(cfg, Run(cfg, s, actions[..n]), actions[n], sure);
    }
  }

  /** And every run whatever keeps gate, sequencer and read model in agreement with the log. */
  lemma {:induction false} RunKeepsCore(cfg: Config, s: System, actions: seq<Action>)
    requires Core(cfg, s) && AllInRange(cfg, actions)
    ensures Core(cfg, Run(cfg, s, actions))
  {
    hide Core, Step, InRange;
    if actions != [] {
      var n := |actions| - 1;
      assert actions[n] in actions;
      RunKeepsCore(cfg, s, actions[..n]);
      StepKeepsCore(cfg, Run(cfg, s, actions[..n]), actions[n]);
    }
  }
}
