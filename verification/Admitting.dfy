/** The gate an intent passes to enter the protocol (src/admission.rs). */
module Admitting {
  import opened Bytes
  import opened Intents
  import opened Logs
  import opened Seqs
  import opened Guarantees
  import opened History

  const MAX_SLIPPAGE_BPS: nat := 10_000

  /** What the gate remembers: every admitted id, and each submitter's highest nonce. */
  datatype Gate = Gate(seen: set<IntentId>, nonces: map<Address, nat>)

  datatype Rejection =
    | ZeroSize
    | EmptyMarket
    | SlippageOutOfRange(got: nat, limit: nat)
    | Expired(deadlineMs: nat, nowMs: nat)
    | UnmeetableWindow(deadlineMs: nat, guaranteeDeadlineMs: nat)
    | Replay(intentId: IntentId)
    | StaleNonce(got: nat, last: nat)

  function Check(g: GuaranteeConfig, gate: Gate, id: IntentId, intent: Intent, now: nat): Option<Rejection> {
    if intent.size == 0 then Some(ZeroSize)
    else if intent.market.base == [] || intent.market.quote == [] then Some(EmptyMarket)
    else if intent.maxSlippageBps > MAX_SLIPPAGE_BPS then
      Some(SlippageOutOfRange(intent.maxSlippageBps, MAX_SLIPPAGE_BPS))
    else if intent.deadlineMs <= now then Some(Expired(intent.deadlineMs, now))
    else if intent.deadlineMs < g.Deadline64(now) then Some(UnmeetableWindow(intent.deadlineMs, g.Deadline64(now)))
    else if id in gate.seen then Some(Replay(id))
    else if intent.submitter in gate.nonces && intent.nonce <= gate.nonces[intent.submitter] then
      Some(StaleNonce(intent.nonce, gate.nonces[intent.submitter]))
    else None
  }

  function Record(gate: Gate, id: IntentId, submitter: Address, nonce: nat): Gate {
    var high := if submitter in gate.nonces && gate.nonces[submitter] > nonce then gate.nonces[submitter] else nonce;
    Gate(gate.seen + {id}, gate.nonces[submitter := high])
  }

  function RecordEntry(gate: Gate, e: Entry): Gate {
    if e.IntentReceived? then Record(gate, e.intentId, e.intent.submitter, e.intent.nonce) else gate
  }

  /** `Admission::recover`: replay every receipt. */
  function GateOf(log: seq<Entry>): Gate {
    if log == [] then Gate({}, map[])
    else RecordEntry(GateOf(log[..|log| - 1]), log[|log| - 1])
  }

  lemma GateOfSnoc(log: seq<Entry>, e: Entry)
    ensures GateOf(log + [e]) == RecordEntry(GateOf(log), e)
  {
    assert (log + [e])[..|log|] == log;
  }

  predicate FreshIn(log: seq<Entry>, id: IntentId) {
    forall i :: 0 <= i < |log| && log[i].IntentReceived? ==> log[i].intentId != id
  }

  predicate BelowIn(log: seq<Entry>, a: Address, nonce: nat) {
    forall i :: 0 <= i < |log| && log[i].IntentReceived? && log[i].intent.submitter == a ==> log[i].intent.nonce < nonce
  }

  lemma FreshSnoc(log: seq<Entry>, e: Entry, id: IntentId)
    ensures FreshIn(log + [e], id) <==> FreshIn(log, id) && (e.IntentReceived? ==> e.intentId != id)
  {
    var l := log + [e];
    assert l[|log|] == e && forall i :: 0 <= i < |log| ==> l[i] == log[i];
  }

  lemma BelowSnoc(log: seq<Entry>, e: Entry, a: Address, nonce: nat)
    ensures BelowIn(log + [e], a, nonce) <==>
      BelowIn(log, a, nonce) && (e.IntentReceived? && e.intent.submitter == a ==> e.intent.nonce < nonce)
  {
    var l := log + [e];
    assert l[|log|] == e && forall i :: 0 <= i < |log| ==> l[i] == log[i];
  }

  /** What the gate remembers is what the log says. */
  lemma {:induction false} GateMeans(log: seq<Entry>, id: IntentId, a: Address, nonce: nat)
    ensures id !in GateOf(log).seen <==> FreshIn(log, id)
    ensures (a in GateOf(log).nonces ==> GateOf(log).nonces[a] < nonce) <==> BelowIn(log, a, nonce)
  {
    if log == [] {
      assert FreshIn(log, id) && BelowIn(log, a, nonce);
    } else {
      hide FreshIn, BelowIn;
      var n := |log| - 1;
      GateMeans(log[..n], id, a, nonce);
      assert log == log[..n] + [log[n]];
      FreshSnoc(log[..n], log[n], id);
      BelowSnoc(log[..n], log[n], a, nonce);
    }
  }

  /** Nothing is wrong with the intent in itself, and its window fits before its own deadline. */
  predicate WorthPromising(g: GuaranteeConfig, intent: Intent, now: nat) {
    intent.size != 0 && intent.market.base != [] && intent.market.quote != [] &&
    intent.maxSlippageBps <= 10_000 && now < intent.deadlineMs && g.Deadline64(now) <= intent.deadlineMs
  }

  /** The gate rebuilt from the log admits exactly the well-formed intents that are new to the log. */
  lemma {:induction false} AdmitsExactly(g: GuaranteeConfig, log: seq<Entry>, id: IntentId, intent: Intent, now: nat)
    ensures Check(g, GateOf(log), id, intent, now).None? <==>
      WorthPromising(g, intent, now) && FreshIn(log, id) && BelowIn(log, intent.submitter, intent.nonce)
  {
    GateMeans(log, id, intent.submitter, intent.nonce);
  }

  /** `a` has used `nonce` in the log, and nothing higher. */
  ghost predicate HighestIn(log: seq<Entry>, a: Address, nonce: nat) {
    BelowIn(log, a, nonce + 1) && !BelowIn(log, a, nonce)
  }

  /**
   * A conflict with admitted history is reported only for an intent otherwise worth promising: as
   * a replay exactly when its id is in the log, else as stale exactly when its nonce does not
   * pass the submitter's highest, which is the one reported.
   */
  lemma {:induction false} ConflictsExactly(g: GuaranteeConfig, log: seq<Entry>, id: IntentId, intent: Intent, now: nat)
    ensures var r := Check(g, GateOf(log), id, intent, now);
      var conflict := r.Some? && (r.value.Replay? || r.value.StaleNonce?);
      (conflict <==>
         WorthPromising(g, intent, now) && !(FreshIn(log, id) && BelowIn(log, intent.submitter, intent.nonce))) &&
      (conflict ==> (r.value.Replay? <==> !FreshIn(log, id))) &&
      (conflict && r.value.Replay? ==> r.value.intentId == id) &&
      (conflict && r.value.StaleNonce? ==>
         r.value.got == intent.nonce <= r.value.last && HighestIn(log, intent.submitter, r.value.last))
  {
    var a := intent.submitter;
    GateMeans(log, id, a, intent.nonce);
    if a in GateOf(log).nonces {
      GateMeans(log, id, a, GateOf(log).nonces[a]);
      GateMeans(log, id, a, GateOf(log).nonces[a] + 1);
    }
  }

  /** Of several things wrong with an intent, the gate reports the first: size, market, slippage, deadline, window. */
  lemma FirstFault(g: GuaranteeConfig, gate: Gate, id: IntentId, intent: Intent, now: nat)
    ensures var r := Check(g, gate, id, intent, now);
      var named := intent.market.base != [] && intent.market.quote != [];
      var shaped := intent.size != 0 && named && intent.maxSlippageBps <= 10_000;
      (r == Some(ZeroSize) <==> intent.size == 0) &&
      (r == Some(EmptyMarket) <==> intent.size != 0 && !named) &&
      (intent.size != 0 && named && intent.maxSlippageBps > 10_000 ==>
         r == Some(SlippageOutOfRange(intent.maxSlippageBps, 10_000))) &&
      (shaped && intent.deadlineMs <= now ==> r == Some(Expired(intent.deadlineMs, now))) &&
      (shaped && now < intent.deadlineMs < g.Deadline64(now) ==>
         r == Some(UnmeetableWindow(intent.deadlineMs, g.Deadline64(now)))) &&
      (WorthPromising(g, intent, now) ==> r.None? || r.value.Replay? || r.value.StaleNonce?)
  {
  }

  /** What the gate lets in is promised a window within its own deadline exactly when the gate's sum fits 64 bits. */
  lemma PromiseMeetableExactly(g: GuaranteeConfig, gate: Gate, id: IntentId, intent: Intent, now: nat)
    requires Check(g, gate, id, intent, now).None?
    ensures g.DeadlineFor(now) <= intent.deadlineMs <==> g.DeadlineFor(now) < U64
  {
  }

  /** When it does not, the wrapped sum lies behind the clock, and the window is not checked at all. */
  lemma {:induction false} OverflowAdmits(g: GuaranteeConfig, log: seq<Entry>, id: IntentId, intent: Intent, now: nat)
    requires now < U64 <= g.DeadlineFor(now)
    ensures Check(g, GateOf(log), id, intent, now).None? <==>
      intent.size != 0 && intent.market.base != [] && intent.market.quote != [] &&
      intent.maxSlippageBps <= 10_000 && now < intent.deadlineMs &&
      FreshIn(log, id) && BelowIn(log, intent.submitter, intent.nonce)
  {
    assert g.Deadline64(now) == g.DeadlineFor(now) - U64 < now;
    AdmitsExactly(g, log, id, intent, now);
  }

  lemma {:induction false} AdmissionJustified(cfg: Config, log: seq<Entry>, intent: Intent, now: nat)
    requires Check(cfg.guarantee, GateOf(log), Id(cfg.keccak, intent), intent, now).None?
    requires cfg.guarantee.DeadlineFor(now) < U64
    ensures Justified(cfg, log, IntentReceived(Id(cfg.keccak, intent), intent, now))
  {
    AdmitsExactly(cfg.guarantee, log, Id(cfg.keccak, intent), intent, now);
  }

  // ----- the gate as it runs -----

  datatype AdmitResult = Admitted(intentId: IntentId, pos: nat) | Rejected(rejection: Rejection)

  class Admission {
    const cfg: Config
    var seen: set<IntentId>
    var nonces: map<Address, nat>

    function State(): Gate
      reads this
    {
      Gate(seen, nonces)
    }

    constructor Recover(cfg: Config, log: MemLog)
      ensures this.cfg == cfg && State() == GateOf(log.entries)
    {
      this.cfg := cfg;
      seen, nonces := {}, map[];
      new;
      var tail := log.ReadFrom(0);
      for i := 0 to |tail|
        invariant State() == GateOf(log.entries[..i])
      {
        var entry := tail[i].1;
        assert log.entries[..i + 1] == log.entries[..i] + [entry];
        GateOfSnoc(log.entries[..i], entry);
        if entry.IntentReceived? {
          Note(entry.intentId, entry.intent.submitter, entry.intent.nonce);
        }
      }
      assert log.entries[..|tail|] == log.entries;
    }

    method Note(id: IntentId, submitter: Address, nonce: nat)
      modifies this
      ensures State() == Record(old(State()), id, submitter, nonce)
    {
      seen := seen + {id};
      if submitter !in nonces {
        nonces := nonces[submitter := nonce];
      }
      var high := nonces[submitter];
      nonces := nonces[submitter := if high > nonce then high else nonce];
    }

    /** Check, append and record in one step. A gate that agrees with the log keeps agreeing with it. */
    method AdmitAndAppend(log: MemLog, intent: Intent, now: nat) returns (r: AdmitResult)
      requires State() == GateOf(log.entries)
      modifies this, log
      ensures State() == GateOf(log.entries)
      ensures var id := Id(cfg.keccak, intent);
        match Check(cfg.guarantee, GateOf(old(log.entries)), id, intent, now)
        case Some(why) => r == Rejected(why) && log.entries == old(log.entries)
        case None =>
          r == Admitted(id, |old(log.entries)|) &&
          log.entries == old(log.entries) + [IntentReceived(id, intent, now)]
    {
      var id := Id(cfg.keccak, intent);
      match Check(cfg.guarantee, State(), id, intent, now)
      case Some(why) => r := Rejected(why);
      case None =>
        GateOfSnoc(log.entries, IntentReceived(id, intent, now));
        var pos := log.Append(IntentReceived(id, intent, now));
        Note(id, intent.submitter, intent.nonce);
        r := Admitted(id, pos);
    }
  }
}
