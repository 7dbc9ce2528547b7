/** The slot-closing stage (`Sequencer::run` and `recover`, src/sequencer.rs). */
module Sequencing {
  import opened Intents
  import opened Logs
  import opened Seqs
  import opened Buffers
  import opened Slots
  import opened Attestation
  import opened History
  import opened Ledger
  import opened Kernel

  /** `outbox` is what a close in progress still has to append; it is empty between closes. */
  datatype SequencerState = SequencerState(buffer: seq<Pending>, cursor: nat, nextSlot: nat, outbox: seq<Entry>)

  function ExpiryEntries(misses: seq<(IntentId, nat)>, closedAt: nat): (r: seq<Entry>)
    ensures |r| == |misses|
  {
    seq(|misses|, i requires 0 <= i < |misses| => IntentExpired(misses[i].0, misses[i].1, closedAt))
  }

  function SlotEntry(cfg: Config, live: seq<Pending>, slot: nat, cursor: nat, closedAt: nat): Entry {
    var intents := Ids(SlotOrder(live));
    SlotCommitted(slot, intents, cursor, Commit(cfg.keccak, slot, intents), closedAt)
  }

  /** Everything one close appends, in order: the misses, then the slot. */
  function CloseEntries(cfg: Config, buffer: seq<Pending>, slot: nat, cursor: nat, closedAt: nat): (r: seq<Entry>)
    ensures |r| > 0
  {
    ExpiryEntries(Misses(cfg.guarantee, Filter(Dead(cfg.Window(), closedAt), buffer)), closedAt)
    + [SlotEntry(cfg, Filter(Live(cfg.Window(), closedAt), buffer), slot, cursor, closedAt)]
  }

  function ReadAll(log: seq<Entry>, s: SequencerState): SequencerState
    requires s.cursor <= |log|
  {
    s.(buffer := s.buffer + Pendings(log[s.cursor..]), cursor := |log|)
  }

  function BeginClose(cfg: Config, s: SequencerState, closedAt: nat): SequencerState {
    s.(buffer := [], outbox := CloseEntries(cfg, s.buffer, s.nextSlot, s.cursor, closedAt))
  }

  function AfterAppend(s: SequencerState): SequencerState
    requires s.outbox != []
  {
    s.(outbox := s.outbox[1..], nextSlot := if |s.outbox| == 1 then s.nextSlot + 1 else s.nextSlot)
  }

  /** Where `recover` resumes: after the last committed slot. */
  function SequencerResume(log: seq<Entry>): SequencerState {
    var commits := Of(Commits, log);
    SequencerState([], Consumed(log), if commits == [] then 0 else commits[|commits| - 1].slot + 1, [])
  }

  lemma ResumeStep(log: seq<Entry>, i: nat)
    requires i < |log|
    ensures SequencerResume(log[..i + 1]) ==
      if log[i].SlotCommitted? then SequencerState([], log[i].consumedUpTo, log[i].slot + 1, [])
      else SequencerResume(log[..i])
  {
    assert log[..i + 1] == log[..i] + [log[i]];
    OfSnoc(Commits, log[..i], log[i]);
  }

  // ----- the invariant tying the stage to the log -----

  ghost predicate Closing(cfg: Config, log: seq<Entry>, s: SequencerState)
    requires s.outbox != [] && Consumed(log) <= s.cursor <= |log|
  {
    var last := s.outbox[|s.outbox| - 1];
    last.SlotCommitted? &&
    Remaining(log, s.outbox, CloseEntries(cfg, Taken(log, s.cursor), s.nextSlot, s.cursor, last.committedAt))
  }

  /** `outbox` is a tail of `full`, and the log already holds the rest. */
  ghost predicate Remaining(log: seq<Entry>, outbox: seq<Entry>, full: seq<Entry>) {
    |outbox| <= |full| && outbox == full[|full| - |outbox|..] &&
    forall k :: 0 <= k < |full| - |outbox| ==> full[k] in log
  }

  lemma RemainingStays(log: seq<Entry>, outbox: seq<Entry>, full: seq<Entry>, e: Entry)
    requires Remaining(log, outbox, full)
    ensures Remaining(log + [e], outbox, full)
    ensures outbox != [] && e == outbox[0] ==> Remaining(log + [e], outbox[1..], full)
  {
  }

  ghost predicate SequencerInv(cfg: Config, log: seq<Entry>, s: SequencerState) {
    s.nextSlot == |Of(Commits, log)| && Consumed(log) <= s.cursor <= |log| &&
    (if s.outbox == [] then s.buffer == Taken(log, s.cursor) else s.buffer == [] && Closing(cfg, log, s))
  }

  lemma SequencerRecovers(cfg: Config, log: seq<Entry>)
    requires Orderly(cfg, log)
    ensures SequencerInv(cfg, log, SequencerResume(log))
  {
    var n := |Of(Commits, log)|;
    if n > 0 {
      CommitsNumbered(cfg, log, n - 1);
    }
    assert log[..|log|] == log;
    ConsumedGrows(cfg, log, |log|, |log|);
  }

  lemma ConsumedStays(log: seq<Entry>, e: Entry)
    requires !e.SlotCommitted?
    ensures Consumed(log + [e]) == Consumed(log)
  {
    ConsumedSnoc(log, e);
  }

  lemma TakenStays(log: seq<Entry>, e: Entry, upTo: nat)
    requires !e.SlotCommitted? && Consumed(log) <= upTo <= |log|
    ensures Consumed(log + [e]) == Consumed(log) && Taken(log + [e], upTo) == Taken(log, upTo)
  {
    ConsumedStays(log, e);
    SliceStays(log, e, Consumed(log), upTo);
  }

  /** Nobody else commits slots, so anything else the log gains leaves the sequencer's view intact. */
  lemma SequencerUndisturbed(cfg: Config, log: seq<Entry>, s: SequencerState, e: Entry)
    requires SequencerInv(cfg, log, s) && !e.SlotCommitted?
    ensures SequencerInv(cfg, log + [e], s)
  {
    TakenStays(log, e, s.cursor);
    OfSnoc(Commits, log, e);
    if s.outbox != [] {
      var t := s.outbox[|s.outbox| - 1].committedAt;
      RemainingStays(log, s.outbox, CloseEntries(cfg, Taken(log, s.cursor), s.nextSlot, s.cursor, t), e);
    }
  }

  lemma SequencerReads(cfg: Config, log: seq<Entry>, s: SequencerState)
    requires SequencerInv(cfg, log, s) && s.outbox == []
    ensures SequencerInv(cfg, log, ReadAll(log, s))
  {
    var a := Consumed(log);
    assert log[a..|log|] == log[a..s.cursor] + log[s.cursor..];
    PendingsConcat(log[a..s.cursor], log[s.cursor..]);
  }

  lemma SequencerBegins(cfg: Config, log: seq<Entry>, s: SequencerState, closedAt: nat)
    requires SequencerInv(cfg, log, s) && s.outbox == []
    ensures SequencerInv(cfg, log, BeginClose(cfg, s, closedAt))
  {
    var full := CloseEntries(cfg, s.buffer, s.nextSlot, s.cursor, closedAt);
    assert full[0..] == full;
  }

  lemma ExpiryJustified(cfg: Config, log: seq<Entry>, upTo: nat, t: nat, k: nat)
    requires Consumed(log) <= upTo <= |log|
    requires var misses := Misses(cfg.guarantee, Filter(Dead(cfg.Window(), t), Taken(log, upTo))); k < |misses|
    ensures var misses := Misses(cfg.guarantee, Filter(Dead(cfg.Window(), t), Taken(log, upTo)));
      Justified(cfg, log, IntentExpired(misses[k].0, misses[k].1, t))
  {
    var dead := Filter(Dead(cfg.Window(), t), Taken(log, upTo));
    assert dead[k] in dead;
    var p := InTaken(log, upTo, dead[k]);
    assert ReceivedAs(log, p, dead[k].id);
  }

  lemma OverdueIsDropped(cfg: Config, log: seq<Entry>, upTo: nat, t: nat, p: nat)
    requires Consumed(log) <= p < upTo <= |log| && OverdueAt(cfg, log, p, t)
    requires var misses := Misses(cfg.guarantee, Filter(Dead(cfg.Window(), t), Taken(log, upTo)));
      forall k :: 0 <= k < |misses| ==> ExpiryEntries(misses, t)[k] in log
    ensures Dropped(log, log[p].intentId)
  {
    var x, dead := PendingOf(log[p]), Filter(Dead(cfg.Window(), t), Taken(log, upTo));
    PendingAt(log, Consumed(log), upTo, p);
    FilterKeeps(Dead(cfg.Window(), t), Taken(log, upTo), x);
    var k :| 0 <= k < |dead| && dead[k] == x;
    var e := ExpiryEntries(Misses(cfg.guarantee, dead), t)[k];
    assert e in log;
    var d :| 0 <= d < |log| && log[d] == e;
    assert log[d].IntentExpired? && log[d].intentId == x.id;
  }

  lemma SlotJustified(cfg: Config, log: seq<Entry>, upTo: nat, t: nat)
    requires Consumed(log) <= upTo <= |log|
    requires var misses := Misses(cfg.guarantee, Filter(Dead(cfg.Window(), t), Taken(log, upTo)));
      forall k :: 0 <= k < |misses| ==> ExpiryEntries(misses, t)[k] in log
    ensures Justified(cfg, log,
      SlotEntry(cfg, Filter(Live(cfg.Window(), t), Taken(log, upTo)), |Of(Commits, log)|, upTo, t))
  {
    forall p | Consumed(log) <= p < upTo && OverdueAt(cfg, log, p, t)
      ensures Dropped(log, log[p].intentId)
    {
      OverdueIsDropped(cfg, log, upTo, t, p);
    }
  }

  lemma LastJustified(cfg: Config, log: seq<Entry>, s: SequencerState)
    requires SequencerInv(cfg, log, s) && |s.outbox| == 1
    ensures Justified(cfg, log, s.outbox[0])
    ensures s.outbox[0].SlotCommitted? && s.outbox[0].consumedUpTo == s.cursor
  {
    var t := s.outbox[0].committedAt;
    var misses := Misses(cfg.guarantee, Filter(Dead(cfg.Window(), t), Taken(log, s.cursor)));
    var full := CloseEntries(cfg, Taken(log, s.cursor), s.nextSlot, s.cursor, t);
    forall k | 0 <= k < |misses|
      ensures ExpiryEntries(misses, t)[k] in log
    {
      assert full[k] == ExpiryEntries(misses, t)[k];
    }
    SlotJustified(cfg, log, s.cursor, t);
    assert s.outbox[0] == full[|misses|];
  }

  lemma AfterSlot(cfg: Config, log: seq<Entry>, cursor: nat, e: Entry)
    requires cursor <= |log| && e.SlotCommitted? && e.consumedUpTo == cursor
    ensures SequencerInv(cfg, log + [e], SequencerState([], cursor, |Of(Commits, log)| + 1, []))
  {
    OfSnoc(Commits, log, e);
    ConsumedSnoc(log, e);
    assert (log + [e])[cursor..cursor] == [];
  }

  lemma EarlierAppend(cfg: Config, log: seq<Entry>, s: SequencerState)
    requires SequencerInv(cfg, log, s) && |s.outbox| > 1
    ensures Justified(cfg, log, s.outbox[0]) && s.outbox[0].IntentExpired?
    ensures SequencerInv(cfg, log + [s.outbox[0]], AfterAppend(s))
  {
    var t := s.outbox[|s.outbox| - 1].committedAt;
    var misses := Misses(cfg.guarantee, Filter(Dead(cfg.Window(), t), Taken(log, s.cursor)));
    var full := CloseEntries(cfg, Taken(log, s.cursor), s.nextSlot, s.cursor, t);
    var k := |full| - |s.outbox|;
    assert s.outbox[0] == full[k] == ExpiryEntries(misses, t)[k];
    ExpiryJustified(cfg, log, s.cursor, t, k);
    TakenStays(log, s.outbox[0], s.cursor);
    OfSnoc(Commits, log, s.outbox[0]);
    RemainingStays(log, s.outbox, full, s.outbox[0]);
  }

  /** Each append of a close is justified when it is made, whatever others appended meanwhile. */
  lemma SequencerAppends(cfg: Config, log: seq<Entry>, s: SequencerState)
    requires SequencerInv(cfg, log, s) && s.outbox != []
    ensures Justified(cfg, log, s.outbox[0])
    ensures SequencerInv(cfg, log + [s.outbox[0]], AfterAppend(s))
  {
    if |s.outbox| == 1 {
      assert s.outbox[1..] == [] && s.buffer == [];
      LastJustified(cfg, log, s);
      AfterSlot(cfg, log, s.cursor, s.outbox[0]);
    } else {
      EarlierAppend(cfg, log, s);
    }
  }

  // ----- the stage as it runs -----

  datatype Recovery = Recovered | CorruptLog(cursor: nat, head: nat)

  class Sequencer {
    const cfg: Config
    var buffer: seq<Pending>
    var cursor: nat
    var nextSlot: nat

    constructor (cfg: Config)
      ensures this.cfg == cfg && buffer == []
    {
      this.cfg := cfg;
      buffer, cursor, nextSlot := [], 0, 0;
    }

    function State(): SequencerState
      reads this
    {
      SequencerState(buffer, cursor, nextSlot, [])
    }

    method Recover(log: MemLog) returns (r: Recovery)
      modifies this
      ensures State() == SequencerResume(log.entries).(buffer := old(buffer))
      ensures r == if Consumed(log.entries) > |log.entries|
        then CorruptLog(Consumed(log.entries), |log.entries|)
        else Recovered
    {
      cursor, nextSlot := 0, 0;
      var tail := log.ReadFrom(0);
      ghost var entries := log.entries;
      for i := 0 to |tail|
        invariant log.entries == entries && buffer == old(buffer)
        invariant cursor == SequencerResume(entries[..i]).cursor && nextSlot == SequencerResume(entries[..i]).nextSlot
      {
        var entry := tail[i].1;
        ResumeStep(entries, i);
        if entry.SlotCommitted? {
          cursor := entry.consumedUpTo;
          nextSlot := entry.slot + 1;
        }
      }
      assert entries[..|tail|] == entries;
      r := if cursor > log.Head() then CorruptLog(cursor, log.Head()) else Recovered;
    }

    method OnDoorbell(log: MemLog)
      requires cursor <= |log.entries|
      modifies this
      ensures State() == ReadAll(log.entries, old(State()))
    {
      var tail := log.ReadFrom(cursor);
      ghost var entries, from := log.entries, cursor;
      for i := 0 to |tail|
        invariant log.entries == entries && nextSlot == old(nextSlot) && cursor == from + i <= |entries|
        invariant buffer == old(buffer) + Pendings(entries[from..from + i])
      {
        var entry := tail[i].1;
        ReadStep(old(buffer), entries, from, from + i);
        if entry.IntentReceived? {
          buffer := buffer + [NewPending(entry.intentId, entry.intent, entry.receivedAt)];
        }
        cursor := tail[i].0 + 1;
      }
      assert entries[from..from + |tail|] == entries[from..];
    }

    method AppendMisses(log: MemLog, expired: seq<(IntentId, nat)>, closedAt: nat)
      modifies log
      ensures log.entries == old(log.entries) + ExpiryEntries(expired, closedAt)
    {
      for i := 0 to |expired|
        invariant log.entries == old(log.entries) + ExpiryEntries(expired[..i], closedAt)
      {
        var _ := log.Append(IntentExpired(expired[i].0, expired[i].1, closedAt));
      }
      assert expired[..|expired|] == expired;
    }

    method AppendSlot(log: MemLog, live: seq<Pending>, closedAt: nat)
      modifies this, log
      ensures log.entries == old(log.entries) + [SlotEntry(cfg, live, old(nextSlot), old(cursor), closedAt)]
      ensures State() == old(State()).(nextSlot := old(nextSlot) + 1)
    {
      var intents := OrderSlot(live);
      var commitment := Commit(cfg.keccak, nextSlot, intents);
      var _ := log.Append(SlotCommitted(nextSlot, intents, cursor, commitment, closedAt));
      nextSlot := nextSlot + 1;
    }

    /** One close, undisturbed: the log gains the misses and then the slot. */
    method OnTick(log: MemLog, closedAt: nat)
      modifies this, log
      ensures log.entries == old(log.entries) + CloseEntries(cfg, old(buffer), old(nextSlot), old(cursor), closedAt)
      ensures State() == SequencerState([], old(cursor), old(nextSlot) + 1, [])
    {
      var live, expired := PartitionExpired(buffer, closedAt, cfg.guarantee);
      buffer := [];
      AppendMisses(log, expired, closedAt);
      AppendSlot(log, live, closedAt);
      ghost var slot := SlotEntry(cfg, live, old(nextSlot), old(cursor), closedAt);
      Assoc(old(log.entries), ExpiryEntries(expired, closedAt), [slot]);
    }
  }
}
