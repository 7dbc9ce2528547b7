/** What holds of every run of the pipeline, whatever the interleaving and the crashes. */
module Runs {
  import opened Intents
  import opened Logs
  import opened Seqs
  import opened Buffers
  import opened Domains
  import opened Slots
  import opened Guarantees
  import opened History
  import opened Ledger
  import opened Admitting
  import opened Sequencing
  import opened Attesting
  import opened Proving
  import opened Projection
  import opened Meaning
  import opened Statuses
  import opened Pipeline

  /** A run from an empty log. */
  function Execute(cfg: Config, actions: seq<Action>): System {
    Run(cfg, Boot([]), actions)
  }

  /** In every run, wherever stages crash and however they start, gate, sequencer and read model keep to the log. */
  lemma ReachableCore(cfg: Config, actions: seq<Action>)
    requires AllInRange(cfg, actions)
    ensures Core(cfg, Execute(cfg, actions))
  {
    hide Inv, Run, Boot;
    assert WellFormed(cfg, []);
    BootKeeps(cfg, [], false);
    InvHasCore(cfg, Boot([]), false);
    RunKeepsCore(cfg, Boot([]), actions);
  }

  lemma InvHasCore(cfg: Config, s: System, sure: bool)
    requires Inv(cfg, s, sure)
    ensures Core(cfg, s)
  {
  }

  /** In every run without a raced start, the log is well-formed and all five stages keep to it. */
  lemma Reachable(cfg: Config, actions: seq<Action>, sure: bool)
    requires AllInRange(cfg, actions) && Unraced(cfg, Boot([]), actions, sure) && cfg.batchSize >= 1
    ensures Inv(cfg, Execute(cfg, actions), sure)
  {
    hide Inv, Run, Boot, Unraced;
    assert WellFormed(cfg, []);
    BootKeeps(cfg, [], sure);
    RunKeeps(cfg, Boot([]), actions, sure);
  }

  predicate Faulted(s: System) {
    s.prover.Running? && s.prover.state.fault.Some?
  }

  /** No run without a raced start makes the prover report a slot gap or a missing commit, or unwrap an empty batch. */
  lemma NeverFaults(cfg: Config, actions: seq<Action>)
    requires AllInRange(cfg, actions) && Unraced(cfg, Boot([]), actions, true) && cfg.batchSize >= 1
    ensures !Faulted(Execute(cfg, actions))
  {
    hide Execute, WellFormed, Core, AttesterOk;
    Reachable(cfg, actions, true);
  }

  /** No run at all makes a restarting sequencer find its log corrupt. */
  lemma NeverCorrupt(cfg: Config, actions: seq<Action>)
    requires AllInRange(cfg, actions)
    ensures Consumed(Execute(cfg, actions).log) <= |Execute(cfg, actions).log|
  {
    hide Execute, Orderly;
    ReachableCore(cfg, actions);
  }

  lemma StepGrows(cfg: Config, s: System, a: Action)
    ensures s.log <= Step(cfg, s, a).log
  {
    hide OnEntry, Check, ReadBatch, ProverResume, AttesterResume, Id, Record, BeginClose, ReadAll;
  }

  /** Whatever happens, the log only grows. */
  lemma {:induction false} LogGrows(cfg: Config, s: System, actions: seq<Action>, m: nat)
    requires m <= |actions|
    ensures Run(cfg, s, actions[..m]).log <= Run(cfg, s, actions).log
  {
    hide Step;
    if m < |actions| {
      var n := |actions| - 1;
      assert actions[..n][..m] == actions[..m];
      LogGrows(cfg, s, actions[..n], m);
      StepGrows(cfg, Run(cfg, s, actions[..n]), actions[n]);
    } else {
      assert actions[..m] == actions;
    }
  }

  // ----- conservation, judged by the clock the sequencer was given -----

  predicate ClockForward(actions: seq<Action>) {
    forall i, j :: 0 <= i < j < |actions| && actions[i].CloseSlot? && actions[j].CloseSlot?
      ==> actions[i].now <= actions[j].now
  }

  predicate ClosedBy(entries: seq<Entry>, t: nat) {
    forall i :: 0 <= i < |entries| && CloseTime(entries[i]).Some? ==> CloseTime(entries[i]).value <= t
  }

  /** What the log says and what a close in progress is about to say, in order. */
  function Written(s: System): seq<Entry> {
    s.log + s.sequencer.outbox
  }

  lemma InsertIdle(log: seq<Entry>, e: Entry, outbox: seq<Entry>, t: nat)
    requires CloseTime(e).None?
    ensures ClosesForward(log + outbox) ==> ClosesForward(log + [e] + outbox)
    ensures ClosedBy(log + outbox, t) ==> ClosedBy(log + [e] + outbox, t)
  {
    var was, now := log + outbox, log + [e] + outbox;
    forall i: nat | i < |now| && CloseTime(now[i]).Some?
      ensures i != |log| && now[i] == was[if i < |log| then i else i - 1]
    {
    }
    if ClosesForward(was) {
      forall i: nat, j: nat | i < j < |now| && CloseTime(now[i]).Some? && CloseTime(now[j]).Some?
        ensures CloseTime(now[i]).value <= CloseTime(now[j]).value
      {
        assert now[i] == was[if i < |log| then i else i - 1] && now[j] == was[if j < |log| then j else j - 1];
      }
    }
    if ClosedBy(was, t) {
      forall i: nat | i < |now| && CloseTime(now[i]).Some?
        ensures CloseTime(now[i]).value <= t
      {
        assert now[i] == was[if i < |log| then i else i - 1];
      }
    }
  }

  lemma CloseTimes(cfg: Config, buffer: seq<Pending>, slot: nat, cursor: nat, t: nat)
    ensures forall e :: e in CloseEntries(cfg, buffer, slot, cursor, t) ==> CloseTime(e) == Some(t)
  {
  }

  lemma CloseOpens(log: seq<Entry>, close: seq<Entry>, t: nat)
    requires ClosesForward(log) && ClosedBy(log, t)
    requires forall e :: e in close ==> CloseTime(e) == Some(t)
    ensures ClosesForward(log + close) && ClosedBy(log + close, t)
  {
    var now := log + close;
    forall i: nat | i < |now|
      ensures if i < |log| then now[i] == log[i] else CloseTime(now[i]) == Some(t)
    {
    }
  }

  /** A step that is not a close writes nothing with a new close time. */
  lemma StepTimed(cfg: Config, s: System, a: Action, t: nat)
    requires !a.CloseSlot?
    ensures ClosesForward(Written(s)) ==> ClosesForward(Written(Step(cfg, s, a)))
    ensures ClosedBy(Written(s), t) ==> ClosedBy(Written(Step(cfg, s, a)), t)
  {
    hide OnEntry, Check, ReadBatch, ProverResume, AttesterResume;
    var r := Step(cfg, s, a);
    var outbox := s.sequencer.outbox;
    if a.RestartSequencer? {
      assert Written(r) == Written(s)[..|s.log|];
    } else if a.AppendClose? && outbox != [] {
      assert outbox == [outbox[0]] + outbox[1..];
      assert Written(r) == Written(s);
    } else if r.log != s.log {
      var e := r.log[|s.log|];
      assert r.log == s.log + [e] && CloseTime(e).None?;
      InsertIdle(s.log, e, outbox, t);
    }
  }

  lemma {:induction false} ClosesInOrder(cfg: Config, actions: seq<Action>, t: nat)
    requires ClockForward(actions)
    ensures ClosesForward(Written(Execute(cfg, actions)))
    ensures (forall a :: a in actions && a.CloseSlot? ==> a.now <= t) ==> ClosedBy(Written(Execute(cfg, actions)), t)
  {
    if actions != [] {
      var n := |actions| - 1;
      var a, s := actions[n], Execute(cfg, actions[..n]);
      var bound := if a.CloseSlot? then a.now else t;
      ClosesInOrder(cfg, actions[..n], bound);
      assert actions == actions[..n] + [a];
      if a.CloseSlot? {
        CloseTimed(cfg, s, a, t);
      } else {
        StepTimed(cfg, s, a, t);
      }
    }
  }

  lemma CloseTimed(cfg: Config, s: System, a: Action, t: nat)
    requires a.CloseSlot? && ClosesForward(Written(s)) && ClosedBy(Written(s), a.now)
    ensures ClosesForward(Written(Step(cfg, s, a)))
    ensures a.now <= t ==> ClosedBy(Written(Step(cfg, s, a)), t)
  {
    if s.sequencer.outbox == [] {
      var q := s.sequencer;
      CloseTimes(cfg, q.buffer, q.nextSlot, q.cursor, a.now);
      assert Written(s) == s.log;
      CloseOpens(s.log, CloseEntries(cfg, q.buffer, q.nextSlot, q.cursor, a.now), a.now);
    }
  }

  /**
   * In every run whose closing clock never runs backwards, each intent a slot has consumed is
   * in exactly one slot, at one index, or was dropped, and never both.
   */
  lemma RunConserves(cfg: Config, actions: seq<Action>, p: nat)
    requires AllInRange(cfg, actions) && ClockForward(actions)
    requires var log := Execute(cfg, actions).log; p < Consumed(log) && p < |log| && log[p].IntentReceived?
    ensures var log := Execute(cfg, actions).log; var id := log[p].intentId;
      (Committed(log, id) <==> !Dropped(log, id)) &&
      forall i: nat, u: nat, j: nat, v: nat ::
        CommittedAt(log, i, u, id) && CommittedAt(log, j, v, id) ==> i == j && u == v
  {
    hide Execute, Orderly, SequencerInv;
    var s := Execute(cfg, actions);
    ReachableCore(cfg, actions);
    ClosesInOrder(cfg, actions, 0);
    assert ClosesForward(s.log) by {
      assert s.log == Written(s)[..|s.log|];
    }
    Conservation(cfg, s.log, p);
    forall i: nat, u: nat, j: nat, v: nat
      | CommittedAt(s.log, i, u, s.log[p].intentId) && CommittedAt(s.log, j, v, s.log[p].intentId)
      ensures i == j && u == v
    {
      CommittedOnce(cfg, s.log, s.log[p].intentId, i, u, j, v);
    }
  }

  /** The run in which a crash between a drop and its slot meets a clock set back. */
  function ClockBack(intent: Intent, now: nat, late: nat, early: nat): seq<Action> {
    [Submit(intent, now), ReadIntents, CloseSlot(late), AppendClose, RestartSequencer,
     ReadIntents, CloseSlot(early), AppendClose]
  }

  lemma OneLate(cfg: Config, p: Pending, slot: nat, cursor: nat, t: nat)
    requires p.receivedAt + cfg.Window() < t
    ensures var c := CloseEntries(cfg, [p], slot, cursor, t);
      |c| == 2 && c[0] == IntentExpired(p.id, cfg.guarantee.DeadlineFor(p.receivedAt), t)
  {
    hide SlotEntry;
    assert Filter(Dead(cfg.Window(), t), [p]) == [p];
  }

  lemma OneInTime(cfg: Config, p: Pending, slot: nat, cursor: nat, t: nat)
    requires t <= p.receivedAt + cfg.Window()
    ensures var c := CloseEntries(cfg, [p], slot, cursor, t);
      |c| == 1 && c[0].SlotCommitted? && p.id in c[0].intents
  {
    assert Filter(Dead(cfg.Window(), t), [p]) == [];
    assert Filter(Live(cfg.Window(), t), [p]) == [p];
    InSlot([p], p);
    var u: nat :| u < |SlotOrder([p])| && SlotOrder([p])[u] == p;
    assert Ids(SlotOrder([p]))[u] == p.id;
  }

  /** A close that drops its only intent, cut short before its slot. */
  lemma DropThenCrash(cfg: Config, s: System, p: Pending, late: nat) returns (r: System)
    requires s.sequencer.outbox == [] && s.sequencer.buffer == [p] && p.receivedAt + cfg.Window() < late
    ensures r == Step(cfg, Step(cfg, Step(cfg, s, CloseSlot(late)), AppendClose), RestartSequencer)
    ensures r.log == s.log + [IntentExpired(p.id, cfg.guarantee.DeadlineFor(p.receivedAt), late)]
    ensures r.sequencer == SequencerResume(r.log)
  {
    OneLate(cfg, p, s.sequencer.nextSlot, s.sequencer.cursor, late);
    var s1 := Step(cfg, s, CloseSlot(late));
    var s2 := Step(cfg, s1, AppendClose);
    r := Step(cfg, s2, RestartSequencer);
  }

  /** A close that commits its only intent. */
  lemma CloseInTime(cfg: Config, s: System, p: Pending, early: nat) returns (r: System)
    requires s.sequencer.outbox == [] && s.sequencer.buffer == [p] && early <= p.receivedAt + cfg.Window()
    ensures r == Step(cfg, Step(cfg, s, CloseSlot(early)), AppendClose)
    ensures |r.log| == |s.log| + 1 && s.log <= r.log && r.log[|s.log|].SlotCommitted? && p.id in r.log[|s.log|].intents
  {
    OneInTime(cfg, p, s.sequencer.nextSlot, s.sequencer.cursor, early);
    var s1 := Step(cfg, s, CloseSlot(early));
    r := Step(cfg, s1, AppendClose);
  }

  lemma FirstRead(cfg: Config, s: System, e: Entry)
    requires s.sequencer == SequencerResume(s.log) && e.IntentReceived? && |s.log| > 0 && s.log[0] == e
    requires forall i :: 0 < i < |s.log| ==> !s.log[i].IntentReceived? && !s.log[i].SlotCommitted?
    ensures Step(cfg, s, ReadIntents).sequencer == SequencerState([PendingOf(e)], |s.log|, 0, [])
    ensures Step(cfg, s, ReadIntents).log == s.log
  {
    OnlyReceipt(s.log);
    assert s.log[0..] == s.log;
    assert [] + Pendings(s.log) == [PendingOf(e)];
  }

  lemma {:induction false} OnlyReceipt(log: seq<Entry>)
    requires |log| > 0 && log[0].IntentReceived?
    requires forall i :: 0 < i < |log| ==> !log[i].IntentReceived? && !log[i].SlotCommitted?
    ensures Of(Receipts, log) == [log[0]] && Of(Commits, log) == []
  {
    if |log| == 1 {
      assert log[..0] == [];
    } else {
      OnlyReceipt(log[..|log| - 1]);
    }
  }

  /**
   * Without that proviso the promise fails: drop an intent, crash before the slot is written,
   * set the clock back, and the same intent is committed too.
   */
  lemma ClockBackBreaksConservation(cfg: Config, intent: Intent, now: nat, late: nat, early: nat)
    requires Check(cfg.guarantee, Gate({}, map[]), Id(cfg.keccak, intent), intent, now).None?
    requires early <= cfg.guarantee.DeadlineFor(now) < late
    ensures var log := Execute(cfg, ClockBack(intent, now, late, early)).log;
      Dropped(log, Id(cfg.keccak, intent)) && Committed(log, Id(cfg.keccak, intent))
  {
    var id := Id(cfg.keccak, intent);
    var e := IntentReceived(id, intent, now);
    SubmitAndRead(cfg, intent, now);
    hide Boot, Step, Check, SequencerResume;
    var s2 := Step(cfg, Step(cfg, Boot([]), Submit(intent, now)), ReadIntents);
    var s5 := DropThenCrash(cfg, s2, PendingOf(e), late);
    FirstRead(cfg, s5, e);
    var s6 := Step(cfg, s5, ReadIntents);
    var s8 := CloseInTime(cfg, s6, PendingOf(e), early);
    BothRecorded(s8.log, id);
    EightSteps(cfg, Boot([]), intent, now, late, early);
  }

  lemma SubmitAndRead(cfg: Config, intent: Intent, now: nat)
    requires Check(cfg.guarantee, Gate({}, map[]), Id(cfg.keccak, intent), intent, now).None?
    ensures var e := IntentReceived(Id(cfg.keccak, intent), intent, now);
      var s := Step(cfg, Step(cfg, Boot([]), Submit(intent, now)), ReadIntents);
      s.log == [e] && s.sequencer == SequencerState([PendingOf(e)], 1, 0, [])
  {
    hide Check;
    var e := IntentReceived(Id(cfg.keccak, intent), intent, now);
    var s := Step(cfg, Boot([]), Submit(intent, now));
    assert s.log == [e];
    assert SequencerResume([e]) == SequencerResume([]);
    FirstRead(cfg, s, e);
  }

  lemma BothRecorded(log: seq<Entry>, id: IntentId)
    requires |log| == 3 && log[1].IntentExpired? && log[1].intentId == id
    requires log[2].SlotCommitted? && id in log[2].intents
    ensures Dropped(log, id) && Committed(log, id)
  {
    var u: nat :| u < |log[2].intents| && log[2].intents[u] == id;
    assert CommittedAt(log, 2, u, id);
  }

  lemma EightSteps(cfg: Config, s: System, intent: Intent, now: nat, late: nat, early: nat)
    ensures Run(cfg, s, ClockBack(intent, now, late, early)) ==
      var s2 := Step(cfg, Step(cfg, s, Submit(intent, now)), ReadIntents);
      var s5 := Step(cfg, Step(cfg, Step(cfg, s2, CloseSlot(late)), AppendClose), RestartSequencer);
      Step(cfg, Step(cfg, Step(cfg, s5, ReadIntents), CloseSlot(early)), AppendClose)
  {
    hide Step;
    var acts := ClockBack(intent, now, late, early);
    assert acts[..7][..6] == acts[..6] && acts[..6][..5] == acts[..5] && acts[..5][..4] == acts[..4];
    assert acts[..4][..3] == acts[..3] && acts[..3][..2] == acts[..2];
    assert acts[..2][..1] == acts[..1] && acts[..1][..0] == [];
    assert Run(cfg, s, acts[..1]) == Step(cfg, s, acts[0]);
    assert Run(cfg, s, acts[..2]) == Step(cfg, Run(cfg, s, acts[..1]), acts[1]);
    assert Run(cfg, s, acts[..3]) == Step(cfg, Run(cfg, s, acts[..2]), acts[2]);
    assert Run(cfg, s, acts[..4]) == Step(cfg, Run(cfg, s, acts[..3]), acts[3]);
    assert Run(cfg, s, acts[..5]) == Step(cfg, Run(cfg, s, acts[..4]), acts[4]);
    assert Run(cfg, s, acts[..6]) == Step(cfg, Run(cfg, s, acts[..5]), acts[5]);
    assert Run(cfg, s, acts[..7]) == Step(cfg, Run(cfg, s, acts[..6]), acts[6]);
    assert Run(cfg, s, acts) == Step(cfg, Run(cfg, s, acts[..7]), acts[7]);
  }

  // ----- determinism, with distinct nonces supplied by admission -----

  /** Whatever order the buffered intents are held in, the slot closed over them is the same. */
  lemma CloseDeterministic(cfg: Config, actions: seq<Action>, held: seq<Pending>, now: nat)
    requires AllInRange(cfg, actions)
    requires multiset(held) == multiset(Execute(cfg, actions).sequencer.buffer)
    ensures var q := Execute(cfg, actions).sequencer;
      SlotEntry(cfg, Filter(Live(cfg.Window(), now), held), q.nextSlot, q.cursor, now)
      == SlotEntry(cfg, Filter(Live(cfg.Window(), now), q.buffer), q.nextSlot, q.cursor, now)
  {
    hide Execute, Orderly, SlotOrder, SequencerInv;
    var s := Execute(cfg, actions);
    ReachableCore(cfg, actions);
    BufferDistinct(cfg, s);
    var live := Live(cfg.Window(), now);
    forall p: Pending
      ensures multiset(Filter(live, held))[p] == multiset(Filter(live, s.sequencer.buffer))[p]
    {
      FilterCount(live, held, p);
      FilterCount(live, s.sequencer.buffer, p);
    }
    LiveStaysDistinct(s.sequencer.buffer, cfg.Window(), now);
    SlotDeterministic(Filter(live, s.sequencer.buffer), Filter(live, held));
  }

  lemma BufferDistinct(cfg: Config, s: System)
    requires Core(cfg, s)
    ensures DistinctNonces(s.sequencer.buffer)
  {
    if s.sequencer.outbox == [] {
      BufferedNonces(cfg, s.log, Consumed(s.log), s.sequencer.cursor);
    }
  }

  // ----- one submitter, two markets -----

  /** Two submissions, read and closed over in one slot. */
  function Together(x: Intent, y: Intent, now: nat, closedAt: nat): seq<Action> {
    [Submit(x, now), Submit(y, now), ReadIntents, CloseSlot(closedAt), AppendClose]
  }

  lemma FiveSteps(cfg: Config, s: System, x: Intent, y: Intent, now: nat, closedAt: nat)
    ensures Run(cfg, s, Together(x, y, now, closedAt)) ==
      var s2 := Step(cfg, Step(cfg, s, Submit(x, now)), Submit(y, now));
      Step(cfg, Step(cfg, Step(cfg, s2, ReadIntents), CloseSlot(closedAt)), AppendClose)
  {
    hide Step;
    var acts := Together(x, y, now, closedAt);
    assert acts[..4][..3] == acts[..3] && acts[..3][..2] == acts[..2];
    assert acts[..2][..1] == acts[..1] && acts[..1][..0] == [];
    assert Run(cfg, s, acts[..1]) == Step(cfg, s, acts[0]);
    assert Run(cfg, s, acts[..2]) == Step(cfg, Run(cfg, s, acts[..1]), acts[1]);
    assert Run(cfg, s, acts[..3]) == Step(cfg, Run(cfg, s, acts[..2]), acts[2]);
    assert Run(cfg, s, acts[..4]) == Step(cfg, Run(cfg, s, acts[..3]), acts[3]);
  }

  lemma TwoAdmitted(cfg: Config, x: Intent, y: Intent, now: nat) returns (s: System)
    requires Check(cfg.guarantee, GateOf([]), Id(cfg.keccak, x), x, now).None?
    requires var gate := Record(GateOf([]), Id(cfg.keccak, x), x.submitter, x.nonce);
      Check(cfg.guarantee, gate, Id(cfg.keccak, y), y, now).None?
    ensures s == Step(cfg, Step(cfg, Step(cfg, Boot([]), Submit(x, now)), Submit(y, now)), ReadIntents)
    ensures var p, q := NewPending(Id(cfg.keccak, x), x, now), NewPending(Id(cfg.keccak, y), y, now);
      s.sequencer == SequencerState([p, q], 2, 0, [])
  {
    hide Check, Record, Id;
    var e := IntentReceived(Id(cfg.keccak, x), x, now);
    var f := IntentReceived(Id(cfg.keccak, y), y, now);
    var s2 := Step(cfg, Step(cfg, Boot([]), Submit(x, now)), Submit(y, now));
    assert s2.log == [e, f] && [e, f][..1] == [e] && [e][..0] == [];
    assert Of(Receipts, [e]) == [e] && Of(Receipts, [e, f]) == [e, f];
    assert s2.log[0..] == [e, f];
    assert Pendings([e, f]) == [PendingOf(e), PendingOf(f)];
    s := Step(cfg, s2, ReadIntents);
  }

  lemma BothLive(cfg: Config, p: Pending, q: Pending, slot: nat, cursor: nat, t: nat)
    requires t <= p.receivedAt + cfg.Window() && t <= q.receivedAt + cfg.Window() && MarketLess(q.market, p.market)
    ensures var c := CloseEntries(cfg, [p, q], slot, cursor, t);
      |c| == 1 && c[0].SlotCommitted? && c[0].intents == [q.id, p.id]
  {
    hide SlotOrder;
    FilterAll(Live(cfg.Window(), t), [p, q]);
    FilterNone(Dead(cfg.Window(), t), [p, q]);
    CrossMarketReverses(p, q);
    assert Ids([q, p]) == [q.id, p.id];
  }

  lemma CloseBoth(cfg: Config, s: System, p: Pending, q: Pending, t: nat)
    requires s.sequencer == SequencerState([p, q], 2, 0, []) && MarketLess(q.market, p.market)
    requires t <= p.receivedAt + cfg.Window() && t <= q.receivedAt + cfg.Window()
    ensures var log := Step(cfg, Step(cfg, s, CloseSlot(t)), AppendClose).log;
      log != [] && log[|log| - 1].SlotCommitted? && log[|log| - 1].intents == [q.id, p.id]
  {
    BothLive(cfg, p, q, 0, 2, t);
    hide CloseEntries;
    var s1 := Step(cfg, s, CloseSlot(t));
    assert s1.sequencer.outbox == CloseEntries(cfg, [p, q], 0, 2, t);
  }

  lemma LaterNonce(g: GuaranteeConfig, id: IntentId, x: Intent, y: Intent, now: nat, id': IntentId)
    requires x.submitter == y.submitter
    requires Check(g, Record(GateOf([]), id, x.submitter, x.nonce), id', y, now).None?
    ensures x.nonce < y.nonce
  {
  }

  /**
   * Whenever the gate admits two intents of one submitter together, the later nonce on an earlier
   * market, a slot over both commits them in the opposite order.
   */
  lemma SlotReversesNonces(cfg: Config, x: Intent, y: Intent, now: nat, closedAt: nat)
    requires x.submitter == y.submitter && MarketLess(y.market, x.market)
    requires Check(cfg.guarantee, GateOf([]), Id(cfg.keccak, x), x, now).None?
    requires var gate := Record(GateOf([]), Id(cfg.keccak, x), x.submitter, x.nonce);
      Check(cfg.guarantee, gate, Id(cfg.keccak, y), y, now).None?
    requires closedAt <= cfg.guarantee.DeadlineFor(now)
    ensures x.nonce < y.nonce
    ensures var log := Execute(cfg, Together(x, y, now, closedAt)).log;
      log != [] && log[|log| - 1].SlotCommitted? &&
      log[|log| - 1].intents == [Id(cfg.keccak, y), Id(cfg.keccak, x)]
  {
    LaterNonce(cfg.guarantee, Id(cfg.keccak, x), x, y, now, Id(cfg.keccak, y));
    hide Boot, Check, Id, Step, Run, Record;
    FiveSteps(cfg, Boot([]), x, y, now, closedAt);
    var s := TwoAdmitted(cfg, x, y, now);
    CloseBoth(cfg, s, s.sequencer.buffer[0], s.sequencer.buffer[1], closedAt);
  }

  // ----- what a reader of the projection sees -----

  lemma {:induction false} UnracedPrefix(cfg: Config, s: System, actions: seq<Action>, m: nat, both: bool)
    requires Unraced(cfg, s, actions, both) && m <= |actions|
    ensures Unraced(cfg, s, actions[..m], both)
  {
    hide Races, Run;
    if m < |actions| {
      var n := |actions| - 1;
      assert actions[..n][..m] == actions[..m];
      UnracedPrefix(cfg, s, actions[..n], m, both);
    } else {
      assert actions[..m] == actions;
    }
  }

  /**
   * Between any two moments of a run at which the read model has not been rebuilt to an earlier
   * point, every intent's status stays put or moves forward, and a final one stays put.
   */
  lemma StatusNeverBack(cfg: Config, actions: seq<Action>, m: nat, id: IntentId)
    requires AllInRange(cfg, actions) && Unraced(cfg, Boot([]), actions, false) && cfg.batchSize >= 1 && m <= |actions|
    requires Execute(cfg, actions[..m]).view.cursor <= Execute(cfg, actions).view.cursor
    ensures var a, b := LifecycleIn(Execute(cfg, actions[..m]).view, id), LifecycleIn(Execute(cfg, actions).view, id);
      a == b || (Milestone(a) < 4 && Milestone(a) < Milestone(b))
  {
    hide WellFormed, Orderly, Run, Unraced, LifecycleIn, Boot, SequencerInv, AttesterOk, ProverOk;
    var s, t := Execute(cfg, actions[..m]), Execute(cfg, actions);
    UnracedPrefix(cfg, Boot([]), actions, m, false);
    Reachable(cfg, actions[..m], false);
    Reachable(cfg, actions, false);
    LogGrows(cfg, Boot([]), actions, m);
    assert s.log[..s.view.cursor] == t.log[..s.view.cursor];
    StatusForward(cfg, t.log, s.view.cursor, t.view.cursor, id);
  }

  // ----- nothing is left half-done -----

  /** Every stage has worked off everything in the log. */
  predicate Quiet(s: System) {
    var n := |s.log|;
    s.sequencer.outbox == [] && s.sequencer.buffer == [] && s.sequencer.cursor == n &&
    s.attester.Running? && s.attester.state.cursor == n && s.prover.Running? && Drained(s.prover.state, n) &&
    s.view.cursor == n
  }

  predicate Drained(p: ProverState, n: nat) {
    p.batch == [] && p.cursor == n && p.pending == [] && p.flushing == []
  }

  lemma QuietConsumed(cfg: Config, s: System, p: nat)
    requires Core(cfg, s) && Quiet(s) && p < |s.log| && s.log[p].IntentReceived?
    ensures p < Consumed(s.log)
  {
    if Consumed(s.log) <= p {
      PendingAt(s.log, Consumed(s.log), |s.log|, p);
    }
  }

  lemma QuietSlots(cfg: Config, s: System, k: nat)
    requires Inv(cfg, s, true) && Quiet(s) && k < |Of(Commits, s.log)|
    ensures StageIn(s.log, k) == StageProven || StageIn(s.log, k).StageFailed?
  {
    hide Core, WellFormed, StageIn, Holding, AwaitingIs;
    assert s.log[..|s.log|] == s.log;
    var p := s.prover.state;
    assert k < |Of(Rulings, s.log)| <= p.nextSlot;
    PassedSlotsAccounted(cfg, s.log, p, k, true);
    StageMeans(cfg, s.log, k);
  }

  /**
   * Whenever a run has gone quiet, every intent ever admitted has reached a final status:
   * none is stuck half way, in whatever interleaving and through whatever crashes it got there.
   */
  lemma QuietIsFinal(cfg: Config, actions: seq<Action>, id: IntentId)
    requires AllInRange(cfg, actions) && Unraced(cfg, Boot([]), actions, true) && cfg.batchSize >= 1
    requires Quiet(Execute(cfg, actions)) && WasReceived(Execute(cfg, actions).log, id)
    ensures var status := LifecycleIn(Execute(cfg, actions).view, id);
      status == Some(Lifecycle.Expired) || status == Some(FinalProven) || (status.Some? && status.value.Failed?)
  {
    hide Execute, WellFormed, Orderly, StageIn, SequencerInv, AttesterOk, ProverOk, LifecycleIn;
    var s := Execute(cfg, actions);
    Reachable(cfg, actions, true);
    var p: nat :| ReceivedAs(s.log, p, id);
    assert s.log[..|s.log|] == s.log;
    QuietConsumed(cfg, s, p);
    Accounted(cfg, s.log, |s.log|, p);
    LifecycleMeans(cfg, s.log, id);
    if !Dropped(s.log, id) {
      var i: nat, u: nat :| CommittedAt(s.log, i, u, id);
      OfAt(Commits, s.log, i);
      var k := |Of(Commits, s.log[..i])|;
      assert PlacedAt(s.log, k, u, id);
      QuietSlots(cfg, s, k);
    }
  }
}
