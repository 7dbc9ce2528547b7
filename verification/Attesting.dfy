/** The attesting stage (`Attester::run` and `recover_attester`, src/attest.rs). */
module Attesting {
  import opened Logs
  import opened Seqs
  import opened Attestation
  import opened History

  /** The batch in hand is the log from `cursor` to `readTo`; entries never change once appended. */
  datatype AttesterState = AttesterState(cursor: nat, readTo: nat)

  function MaxSlot(best: Option<nat>, slot: nat): Option<nat> {
    match best
    case None => Some(slot)
    case Some(b) => Some(if b < slot then slot else b)
  }

  /** The newest slot with a ruling. */
  function DoneThrough(log: seq<Entry>): (r: Option<nat>)
    ensures r.None? ==> forall i :: 0 <= i < |log| ==> !Is(Rulings, log[i])
    ensures r.Some? ==> forall i :: 0 <= i < |log| && Is(Rulings, log[i]) ==> log[i].slot <= r.value
    ensures r.Some? ==> exists i :: 0 <= i < |log| && Is(Rulings, log[i]) && log[i].slot == r.value
  {
    if log == [] then None
    else
      var n := |log| - 1;
      assert forall i :: 0 <= i < n ==> log[..n][i] == log[i];
      if Is(Rulings, log[n]) then MaxSlot(DoneThrough(log[..n]), log[n].slot) else DoneThrough(log[..n])
  }

  /** Where slot `k` was (last) committed. */
  function SlotPosition(log: seq<Entry>, k: nat): (r: Option<nat>)
    ensures r.Some? ==> r.value < |log| && log[r.value].SlotCommitted? && log[r.value].slot == k
    ensures r.Some? ==> forall i :: r.value < i < |log| && log[i].SlotCommitted? ==> log[i].slot != k
    ensures r.None? ==> forall i :: 0 <= i < |log| && log[i].SlotCommitted? ==> log[i].slot != k
  {
    if log == [] then None
    else
      var n := |log| - 1;
      if log[n].SlotCommitted? && log[n].slot == k then Some(n)
      else
        assert forall i :: 0 <= i < n ==> log[..n][i] == log[i];
        SlotPosition(log[..n], k)
  }

  /** `recover_attester`: a scan of the log, and the head read after it. */
  function AttesterResume(scan: seq<Entry>, head: nat): AttesterState {
    var cursor := match DoneThrough(scan)
      case None => 0
      case Some(last) =>
        match SlotPosition(scan, last + 1)
        case Some(pos) => pos
        case None => head;
    AttesterState(cursor, cursor)
  }

  /** The head stands in for the next slot to rule on, though a slot was committed since the scan of `log[..n]`. */
  predicate AttesterRaced(log: seq<Entry>, n: nat)
    requires n <= |log|
  {
    DoneThrough(log[..n]).Some? && SlotPosition(log[..n], DoneThrough(log[..n]).value + 1).None? &&
    Of(Commits, log[n..]) != []
  }

  // ----- the invariant -----

  /** Every commit before the cursor is ruled on, none after it. */
  predicate AttesterInv(log: seq<Entry>, s: AttesterState) {
    s.cursor <= s.readTo <= |log| && |Of(Commits, log[..s.cursor])| == |Of(Rulings, log)|
  }

  lemma {:induction false} DoneThroughIs(cfg: Config, log: seq<Entry>)
    requires WellFormed(cfg, log)
    ensures var n := |Of(Rulings, log)|; DoneThrough(log) == if n == 0 then None else Some(n - 1)
  {
    if log != [] {
      var n := |log| - 1;
      PrefixWellFormed(cfg, log, n);
      DoneThroughIs(cfg, log[..n]);
      if Is(Rulings, log[n]) {
        RuledAt(cfg, log, n);
      }
    }
  }

  /** In a well-formed log a slot's position is where exactly that many commits came before. */
  lemma SlotPositionIs(cfg: Config, log: seq<Entry>, k: nat)
    requires WellFormed(cfg, log)
    ensures SlotPosition(log, k).Some? <==> k < |Of(Commits, log)|
    ensures SlotPosition(log, k).Some? ==> |Of(Commits, log[..SlotPosition(log, k).value])| == k
  {
    if k < |Of(Commits, log)| {
      var i := OfFrom(Commits, log, k);
      CommitsNumbered(cfg, log, k);
    }
    if SlotPosition(log, k).Some? {
      var i := SlotPosition(log, k).value;
      FairAt(cfg, log, i);
      OfAt(Commits, log, i);
    }
  }

  /**
   * Resumption from a scan of `log[..n]` and a head read later picks up at the first slot without
   * a ruling if and only if the two were not raced.
   */
  lemma AttesterResumesExactly(cfg: Config, log: seq<Entry>, n: nat)
    requires WellFormed(cfg, log) && n <= |log| && Of(Rulings, log) == Of(Rulings, log[..n])
    ensures AttesterInv(log, AttesterResume(log[..n], |log|)) <==> !AttesterRaced(log, n)
  {
    hide Of;
    var r := |Of(Rulings, log)|;
    hide WellFormed, DoneThrough, SlotPosition;
    PrefixWellFormed(cfg, log, n);
    DoneThroughIs(cfg, log[..n]);
    OfPrefix(Commits, log, n);
    assert log[..|log|] == log && log[..0] == [];
    if r > 0 {
      ResumePoint(cfg, log, n, r);
    }
  }

  /** Where a scan says slot `r` begins, exactly `r` slots came before; if it says nothing, none but those. */
  lemma ResumePoint(cfg: Config, log: seq<Entry>, n: nat, r: nat)
    requires WellFormed(cfg, log) && n <= |log| && r <= |Of(Rulings, log[..n])|
    ensures match SlotPosition(log[..n], r)
      case Some(i) => |Of(Commits, log[..i])| == r
      case None => |Of(Commits, log[..n])| == r
  {
    PrefixWellFormed(cfg, log, n);
    SlotPositionIs(cfg, log[..n], r);
    RulingsBehindCommits(cfg, log[..n]);
    if SlotPosition(log[..n], r).Some? {
      assert log[..n][..SlotPosition(log[..n], r).value] == log[..SlotPosition(log[..n], r).value];
    }
  }

  lemma AttesterUndisturbed(log: seq<Entry>, s: AttesterState, e: Entry)
    requires AttesterInv(log, s) && !Is(Rulings, e)
    ensures AttesterInv(log + [e], s)
  {
    SliceStays(log, e, 0, s.cursor);
    OfSnoc(Rulings, log, e);
  }

  /** What the attester appends, if anything, on reaching the entry at its cursor. */
  function Rules(cfg: Config, e: Entry, down: Option<string>): seq<Entry> {
    if e.SlotCommitted? then [Ruling(cfg.keccak, cfg.measurement, down, e)] else []
  }

  lemma RulingJustified(cfg: Config, log: seq<Entry>, c: nat, down: Option<string>)
    requires WellFormed(cfg, log) && c < |log| && log[c].SlotCommitted?
    requires |Of(Commits, log[..c])| == |Of(Rulings, log)|
    ensures Justified(cfg, log, Ruling(cfg.keccak, cfg.measurement, down, log[c]))
  {
    FairAt(cfg, log, c);
    OfAt(Commits, log, c);
  }

  /** Reaching a slot rules on it, justifiably, whatever others appended; anything else is passed over. */
  lemma AttesterSteps(cfg: Config, log: seq<Entry>, s: AttesterState, down: Option<string>)
    requires WellFormed(cfg, log) && AttesterInv(log, s) && s.cursor < s.readTo
    ensures log[s.cursor].SlotCommitted? ==>
      Justified(cfg, log, Ruling(cfg.keccak, cfg.measurement, down, log[s.cursor]))
    ensures AttesterInv(log + Rules(cfg, log[s.cursor], down), s.(cursor := s.cursor + 1))
  {
    hide Of, WellFormed, Ruling;
    Progress(Commits, log, s.cursor);
    if log[s.cursor].SlotCommitted? {
      var r := Ruling(cfg.keccak, cfg.measurement, down, log[s.cursor]);
      RulingJustified(cfg, log, s.cursor, down);
      OfSnoc(Rulings, log, r);
      SliceStays(log, r, 0, s.cursor + 1);
    } else {
      assert log + [] == log;
    }
  }

  lemma DoneStep(log: seq<Entry>, i: nat)
    requires i < |log|
    ensures DoneThrough(log[..i + 1]) ==
      if Is(Rulings, log[i]) then MaxSlot(DoneThrough(log[..i]), log[i].slot) else DoneThrough(log[..i])
  {
    assert log[..i + 1][..i] == log[..i];
  }

  lemma PositionStep(log: seq<Entry>, i: nat, k: nat)
    requires i < |log|
    ensures SlotPosition(log[..i + 1], k) ==
      if log[i].SlotCommitted? && log[i].slot == k then Some(i) else SlotPosition(log[..i], k)
  {
    assert log[..i + 1][..i] == log[..i];
  }

  // ----- the stage as it runs -----

  /** The mock enclave's failures, as the reason it gives for a slot. */
  function DownOn(failSlots: set<nat>, e: Entry): Option<string> {
    if e.SlotCommitted? && e.slot in failSlots then Some("enclave unavailable") else None
  }

  function RulesAll(cfg: Config, failSlots: set<nat>, batch: seq<Entry>): seq<Entry> {
    if batch == [] then []
    else
      var n := |batch| - 1;
      RulesAll(cfg, failSlots, batch[..n]) + Rules(cfg, batch[n], DownOn(failSlots, batch[n]))
  }

  lemma RulesAllSnoc(cfg: Config, failSlots: set<nat>, log: seq<Entry>, from: nat, i: nat)
    requires from <= i < |log|
    ensures var before := RulesAll(cfg, failSlots, log[from..i]);
      RulesAll(cfg, failSlots, log[from..i + 1]) == if log[i].SlotCommitted?
        then before + [Ruling(cfg.keccak, cfg.measurement, DownOn(failSlots, log[i]), log[i])]
        else before
  {
    hide Ruling, DownOn;
    SliceSnoc(log, from, i);
    assert log[from..i + 1][..i - from] == log[from..i];
  }

  class Attester {
    const cfg: Config
    const failSlots: set<nat>
    var cursor: nat

    constructor (cfg: Config, failSlots: set<nat>)
      ensures this.cfg == cfg && this.failSlots == failSlots
    {
      this.cfg, this.failSlots, cursor := cfg, failSlots, 0;
    }

    method Recover(log: MemLog)
      modifies this
      ensures cursor == AttesterResume(log.entries, |log.entries|).cursor
    {
      assert DoneThrough([]) == None && forall k: nat :: SlotPosition([], k) == None;
      hide DoneThrough, SlotPosition;
      var doneThrough: Option<nat> := None;
      var positions: map<nat, nat> := map[];
      var tail := log.ReadFrom(0);
      ghost var entries := log.entries;
      for i := 0 to |tail|
        invariant doneThrough == DoneThrough(entries[..i])
        invariant forall k: nat :: k in positions <==> SlotPosition(entries[..i], k).Some?
        invariant forall k: nat :: k in positions ==> SlotPosition(entries[..i], k) == Some(positions[k])
      {
        var (pos, entry) := tail[i];
        DoneStep(entries, i);
        forall k: nat {
          PositionStep(entries, i, k);
        }
        if entry.SlotCommitted? {
          positions := positions[entry.slot := pos];
        } else if Is(Rulings, entry) {
          doneThrough := MaxSlot(doneThrough, entry.slot);
        }
      }
      assert entries[..|tail|] == entries;
      cursor := match doneThrough
        case None => 0
        case Some(last) => if last + 1 in positions then positions[last + 1] else log.Head();
    }

    /** One wake-up: a ruling for every slot in the batch, and the cursor past the batch. */
    method OnDoorbell(log: MemLog)
      requires cursor <= |log.entries|
      modifies this, log
      ensures log.entries == old(log.entries) + RulesAll(cfg, failSlots, old(log.entries)[old(cursor)..])
      ensures cursor == |old(log.entries)|
    {
      assert RulesAll(cfg, failSlots, []) == [];
      hide Ruling, DownOn, RulesAll, Rules;
      var batch := log.ReadFrom(cursor);
      ghost var entries, from := log.entries, cursor;
      for i := 0 to |batch|
        invariant cursor == from + i <= |entries|
        invariant log.entries == entries + RulesAll(cfg, failSlots, entries[from..from + i])
      {
        var (pos, entry) := batch[i];
        RulesAllSnoc(cfg, failSlots, entries, from, from + i);
        if entry.SlotCommitted? {
          var ruling := Ruling(cfg.keccak, cfg.measurement, DownOn(failSlots, entry), entry);
          Assoc(entries, RulesAll(cfg, failSlots, entries[from..from + i]), [ruling]);
          var _ := log.Append(ruling);
        }
        cursor := pos + 1;
      }
      assert entries[from..from + |batch|] == entries[from..];
    }
  }
}
