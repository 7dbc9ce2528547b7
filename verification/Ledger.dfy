/** What every log guarantees about the intents and slots it records. */
module Ledger {
  import opened Bytes
  import opened Intents
  import opened Logs
  import opened Seqs
  import opened Buffers
  import opened Domains
  import opened Ordering
  import opened Slots
  import opened Guarantees
  import opened Attestation
  import opened Proofs
  import opened History

  // ----- admission facts -----

  /** No id is admitted twice, and a submitter's nonces strictly ascend in log order. */
  lemma ReceivedOnce(cfg: Config, log: seq<Entry>, p: nat, q: nat)
    requires Orderly(cfg, log) && p < q < |log| && log[p].IntentReceived? && log[q].IntentReceived?
    ensures log[p].intentId != log[q].intentId
    ensures log[p].intent.submitter == log[q].intent.submitter ==> log[p].intent.nonce < log[q].intent.nonce
  {
    AdmittedAt(cfg, log, q);
    assert log[..q][p] == log[p];
  }

  lemma SameSource(cfg: Config, log: seq<Entry>, p: nat, q: nat, id: IntentId)
    requires Orderly(cfg, log) && ReceivedAs(log, p, id) && ReceivedAs(log, q, id)
    ensures p == q
  {
    if p < q {
      ReceivedOnce(cfg, log, p, q);
    } else if q < p {
      ReceivedOnce(cfg, log, q, p);
    }
  }

  lemma PendingFrom(log: seq<Entry>, a: nat, b: nat, u: nat) returns (p: nat)
    requires a <= b <= |log| && u < |Pendings(log[a..b])|
    ensures a <= p < b && log[p].IntentReceived? && PendingOf(log[p]) == Pendings(log[a..b])[u]
    ensures |Of(Receipts, log[a..b][..p - a])| == u
  {
    var i := OfFrom(Receipts, log[a..b], u);
    p := a + i;
  }

  lemma PendingAt(log: seq<Entry>, a: nat, b: nat, p: nat)
    requires a <= p < b <= |log| && log[p].IntentReceived?
    ensures PendingOf(log[p]) in Pendings(log[a..b])
  {
    OfAt(Receipts, log[a..b], p - a);
    assert Pendings(log[a..b])[|Of(Receipts, log[a..b][..p - a])|] == PendingOf(log[p]);
  }

  /** Whatever stretch of the log is buffered, admission made its nonces distinct per submitter. */
  lemma BufferedNonces(cfg: Config, log: seq<Entry>, a: nat, b: nat)
    requires Orderly(cfg, log) && a <= b <= |log|
    ensures NoncesUnique(Pendings(log[a..b])) && DistinctNonces(Pendings(log[a..b]))
  {
    var s := Pendings(log[a..b]);
    forall u, v | 0 <= u < v < |s| && s[u].submitter == s[v].submitter
      ensures s[u].nonce != s[v].nonce
    {
      var p := PendingFrom(log, a, b, u);
      var q := PendingFrom(log, a, b, v);
      if q < p {
        OfMonotone(Receipts, log[a..b], q - a, p - a);
      }
      ReceivedOnce(cfg, log, p, q);
    }
  }

  // ----- committed intents -----

  /** The live part of what the slot at position `i` consumed, in slot order. */
  ghost function SlotPendings(cfg: Config, log: seq<Entry>, i: nat): (s: seq<Pending>)
    requires Orderly(cfg, log) && i < |log| && log[i].SlotCommitted?
    ensures log[i].intents == Ids(s)
  {
    FairAt(cfg, log, i);
    LiveOrder(cfg, log[..i], log[i].consumedUpTo, log[i].committedAt)
  }

  predicate CommittedAt(log: seq<Entry>, i: nat, u: nat, id: IntentId) {
    i < |log| && log[i].SlotCommitted? && u < |log[i].intents| && log[i].intents[u] == id
  }

  lemma InTaken(log: seq<Entry>, upTo: nat, x: Pending) returns (p: nat)
    requires Consumed(log) <= upTo <= |log| && x in Taken(log, upTo)
    ensures Consumed(log) <= p < upTo && log[p].IntentReceived? && PendingOf(log[p]) == x
  {
    var taken := Taken(log, upTo);
    var v :| 0 <= v < |taken| && taken[v] == x;
    p := PendingFrom(log, Consumed(log), upTo, v);
  }

  lemma SlotOfLive(s: seq<Pending>, w: nat, t: nat, u: nat)
    requires u < |SlotOrder(Filter(Live(w, t), s))|
    ensures SlotOrder(Filter(Live(w, t), s))[u] in s && t <= SlotOrder(Filter(Live(w, t), s))[u].receivedAt + w
  {
    var live := Filter(Live(w, t), s);
    InSlot(live, SlotOrder(live)[u]);
  }

  lemma LiveInSlot(s: seq<Pending>, w: nat, t: nat, x: Pending) returns (u: nat)
    requires x in s && t <= x.receivedAt + w
    ensures u < |SlotOrder(Filter(Live(w, t), s))| && SlotOrder(Filter(Live(w, t), s))[u] == x
  {
    FilterKeeps(Live(w, t), s, x);
    InSlot(Filter(Live(w, t), s), x);
    u :| u < |SlotOrder(Filter(Live(w, t), s))| && SlotOrder(Filter(Live(w, t), s))[u] == x;
  }

  lemma LiveSource(cfg: Config, log: seq<Entry>, upTo: nat, t: nat, u: nat) returns (p: nat)
    requires Consumed(log) <= upTo <= |log| && u < |LiveOrder(cfg, log, upTo, t)|
    ensures Consumed(log) <= p < upTo && log[p].IntentReceived?
    ensures PendingOf(log[p]) == LiveOrder(cfg, log, upTo, t)[u] && t <= log[p].receivedAt + cfg.Window()
  {
    SlotOfLive(Taken(log, upTo), cfg.Window(), t, u);
    p := InTaken(log, upTo, LiveOrder(cfg, log, upTo, t)[u]);
  }

  lemma LivePlace(cfg: Config, log: seq<Entry>, upTo: nat, t: nat, p: nat) returns (u: nat)
    requires Consumed(log) <= p < upTo <= |log| && log[p].IntentReceived? && t <= log[p].receivedAt + cfg.Window()
    ensures u < |LiveOrder(cfg, log, upTo, t)| && LiveOrder(cfg, log, upTo, t)[u] == PendingOf(log[p])
  {
    PendingAt(log, Consumed(log), upTo, p);
    u := LiveInSlot(Taken(log, upTo), cfg.Window(), t, PendingOf(log[p]));
  }

  /** A committed intent was received in the stretch its slot consumed, and its window was still open. */
  lemma SlotSource(cfg: Config, log: seq<Entry>, i: nat, u: nat) returns (p: nat)
    requires Orderly(cfg, log) && i < |log| && log[i].SlotCommitted? && u < |log[i].intents|
    ensures Consumed(log[..i]) <= p < log[i].consumedUpTo <= i
    ensures ReceivedAs(log, p, log[i].intents[u]) && PendingOf(log[p]) == SlotPendings(cfg, log, i)[u]
    ensures log[i].committedAt <= log[p].receivedAt + cfg.Window()
  {
    FairAt(cfg, log, i);
    p := LiveSource(cfg, log[..i], log[i].consumedUpTo, log[i].committedAt, u);
  }

  lemma {:induction false} ConsumedGrows(cfg: Config, log: seq<Entry>, i: nat, j: nat)
    requires Orderly(cfg, log) && i <= j <= |log|
    ensures Consumed(log[..i]) <= Consumed(log[..j]) <= j
    decreases j
  {
    if j > 0 {
      var k := j - 1;
      assert log[..j] == log[..k] + [log[k]];
      ConsumedSnoc(log[..k], log[k]);
      if log[k].SlotCommitted? {
        FairAt(cfg, log, k);
      }
      ConsumedGrows(cfg, log, if i < j then i else k, k);
    }
  }

  lemma LaterSlotsStart(cfg: Config, log: seq<Entry>, i: nat, j: nat)
    requires Orderly(cfg, log) && i < j <= |log| && log[i].SlotCommitted?
    ensures log[i].consumedUpTo <= Consumed(log[..j])
  {
    hide Orderly, Consumed, JustifiedAt;
    assert log[..i + 1] == log[..i] + [log[i]];
    ConsumedSnoc(log[..i], log[i]);
    ConsumedGrows(cfg, log, i + 1, j);
  }

  lemma NoPendingTwice(cfg: Config, log: seq<Entry>, i: nat, u: nat, v: nat)
    requires Orderly(cfg, log) && i < |log| && log[i].SlotCommitted? && u < v < |log[i].intents|
    ensures SlotPendings(cfg, log, i)[u] != SlotPendings(cfg, log, i)[v]
  {
    var s := SlotPendings(cfg, log, i);
    if s[u] == s[v] {
      FairAt(cfg, log, i);
      var taken := Taken(log[..i], log[i].consumedUpTo);
      var live := Filter(Live(cfg.Window(), log[i].committedAt), taken);
      TwiceCounts(s, u, v);
      SlotElements(live);
      var x, y := CountsTwice(live, s[u]);
      var x', y' := PairFromFilter(Live(cfg.Window(), log[i].committedAt), taken, x, y);
      PrefixOrderly(cfg, log, i);
      BufferedNonces(cfg, log[..i], Consumed(log[..i]), log[i].consumedUpTo);
    }
  }

  /** No duplicate inclusion: an id is in at most one slot, at one index. */
  lemma CommittedOnce(cfg: Config, log: seq<Entry>, id: IntentId, i: nat, u: nat, j: nat, v: nat)
    requires Orderly(cfg, log) && CommittedAt(log, i, u, id) && CommittedAt(log, j, v, id)
    ensures i == j && u == v
  {
    var p := SlotSource(cfg, log, i, u);
    var q := SlotSource(cfg, log, j, v);
    SameSource(cfg, log, p, q, id);
    if i < j {
      LaterSlotsStart(cfg, log, i, j);
    } else if j < i {
      LaterSlotsStart(cfg, log, j, i);
    } else if u < v {
      NoPendingTwice(cfg, log, i, u, v);
    } else if v < u {
      NoPendingTwice(cfg, log, i, v, u);
    }
  }

  // ----- conservation -----

  ghost predicate Committed(log: seq<Entry>, id: IntentId) {
    exists i: nat, u: nat :: CommittedAt(log, i, u, id)
  }

  /** A slot closed by the rules includes or has dropped everything it consumes. */
  lemma FairAccounts(cfg: Config, log: seq<Entry>, e: Entry, p: nat)
    requires e.SlotCommitted? && FairSlot(cfg, log, e)
    requires Consumed(log) <= p < e.consumedUpTo && log[p].IntentReceived?
    ensures log[p].intentId in e.intents || Dropped(log, log[p].intentId)
  {
    if e.committedAt <= log[p].receivedAt + cfg.Window() {
      var u := LivePlace(cfg, log, e.consumedUpTo, e.committedAt, p);
      assert e.intents[u] == log[p].intentId;
    }
  }

  lemma SlotAccounts(cfg: Config, log: seq<Entry>, i: nat, p: nat)
    requires Orderly(cfg, log) && i < |log| && log[i].SlotCommitted?
    requires Consumed(log[..i]) <= p < log[i].consumedUpTo && p < i && log[p].IntentReceived?
    ensures Dropped(log, log[p].intentId) || Committed(log, log[p].intentId)
  {
    FairAt(cfg, log, i);
    FairAccounts(cfg, log[..i], log[i], p);
    if Dropped(log[..i], log[p].intentId) {
      DroppedStays(log, i, log[p].intentId);
    } else {
      var u: nat :| u < |log[i].intents| && log[i].intents[u] == log[p].intentId;
      assert CommittedAt(log, i, u, log[p].intentId);
    }
  }

  lemma DroppedStays(log: seq<Entry>, n: nat, id: IntentId)
    requires n <= |log| && Dropped(log[..n], id)
    ensures Dropped(log, id)
  {
    var d :| 0 <= d < n && log[..n][d].IntentExpired? && log[..n][d].intentId == id;
    assert log[d].IntentExpired? && log[d].intentId == id;
  }

  /** Nothing consumed is lost: every intent before the last `consumed_up_to` is in a slot or recorded as dropped. */
  lemma {:induction false} Accounted(cfg: Config, log: seq<Entry>, n: nat, p: nat)
    requires Orderly(cfg, log) && n <= |log| && p < Consumed(log[..n]) && p < n && log[p].IntentReceived?
    ensures Dropped(log, log[p].intentId) || Committed(log, log[p].intentId)
    decreases n
  {
    var m := n - 1;
    assert log[..n] == log[..m] + [log[m]];
    ConsumedSnoc(log[..m], log[m]);
    ConsumedGrows(cfg, log, m, m);
    if p < Consumed(log[..m]) {
      Accounted(cfg, log, m, p);
    } else {
      SlotAccounts(cfg, log, m, p);
    }
  }

  /** What no slot has consumed is in no slot. */
  lemma UnconsumedUncommitted(cfg: Config, log: seq<Entry>, p: nat)
    requires Orderly(cfg, log) && Consumed(log) <= p < |log| && log[p].IntentReceived?
    ensures !Committed(log, log[p].intentId)
  {
    assert log[..|log|] == log;
    if Committed(log, log[p].intentId) {
      var i: nat, u: nat :| CommittedAt(log, i, u, log[p].intentId);
      var q := SlotSource(cfg, log, i, u);
      SameSource(cfg, log, p, q, log[p].intentId);
      LaterSlotsStart(cfg, log, i, |log|);
    }
  }

  function CloseTime(e: Entry): Option<nat> {
    match e
    case IntentExpired(_, _, at) => Some(at)
    case SlotCommitted(_, _, _, _, at) => Some(at)
    case _ => None
  }

  /** The sequencer's clock never reads earlier at a later close. */
  ghost predicate ClosesForward(log: seq<Entry>) {
    forall i, j :: 0 <= i < j < |log| && CloseTime(log[i]).Some? && CloseTime(log[j]).Some?
      ==> CloseTime(log[i]).value <= CloseTime(log[j]).value
  }

  /** If an id is both dropped and committed, the drop came first and the slot closed at an earlier reading. */
  lemma BothMeansBackwards(cfg: Config, log: seq<Entry>, d: nat, i: nat, u: nat)
    requires Orderly(cfg, log) && d < |log| && log[d].IntentExpired? && CommittedAt(log, i, u, log[d].intentId)
    ensures d < i && log[i].committedAt <= log[d].guaranteeDeadline < log[d].atMs
  {
    MissedAt(cfg, log, d);
    var p :| Consumed(log[..d]) <= p < |log[..d]| && ReceivedAs(log[..d], p, log[d].intentId) &&
      log[d].guaranteeDeadline == cfg.guarantee.DeadlineFor(log[..d][p].receivedAt);
    var q := SlotSource(cfg, log, i, u);
    SameSource(cfg, log, p, q, log[d].intentId);
    if i < d {
      LaterSlotsStart(cfg, log, i, d);
    }
  }

  /** Conservation: consumed exactly once, either way, as long as the close clock never runs backwards. */
  lemma Conservation(cfg: Config, log: seq<Entry>, p: nat)
    requires Orderly(cfg, log) && ClosesForward(log)
    requires p < |log| && log[p].IntentReceived? && p < Consumed(log)
    ensures Committed(log, log[p].intentId) <==> !Dropped(log, log[p].intentId)
  {
    var id := log[p].intentId;
    assert log[..|log|] == log;
    Accounted(cfg, log, |log|, p);
    if Dropped(log, id) && Committed(log, id) {
      var d :| 0 <= d < |log| && log[d].IntentExpired? && log[d].intentId == id;
      var i: nat, u: nat :| CommittedAt(log, i, u, id);
      BothMeansBackwards(cfg, log, d, i, u);
      assert false;
    }
  }

  /** A drop already on record names an intent about to be reconsidered, and is not yet late at `now`. */
  ghost predicate DropStillOpen(log: seq<Entry>, upTo: nat, now: nat) {
    exists d: nat, p: nat :: d < |log| && log[d].IntentExpired? && Consumed(log) <= p < upTo &&
      ReceivedAs(log, p, log[d].intentId) && now <= log[d].guaranteeDeadline
  }

  lemma OpenDropIsCommitted(cfg: Config, log: seq<Entry>, e: Entry, d: nat, p: nat)
    requires Orderly(cfg, log) && e.SlotCommitted? && FairSlot(cfg, log, e)
    requires d < |log| && log[d].IntentExpired? && Consumed(log) <= p < e.consumedUpTo
    requires ReceivedAs(log, p, log[d].intentId) && e.committedAt <= log[d].guaranteeDeadline
    ensures log[d].intentId in e.intents
  {
    var q := DroppedLate(cfg, log, d);
    SameSource(cfg, log, p, q, log[d].intentId);
    var u := LivePlace(cfg, log, e.consumedUpTo, e.committedAt, p);
    assert e.intents[u] == log[p].intentId;
  }

  lemma CommittedDropIsOpen(cfg: Config, log: seq<Entry>, e: Entry, u: nat)
    requires Orderly(cfg, log) && e.SlotCommitted? && FairSlot(cfg, log, e)
    requires u < |e.intents| && Dropped(log, e.intents[u])
    ensures DropStillOpen(log, e.consumedUpTo, e.committedAt)
  {
    var d: nat :| d < |log| && log[d].IntentExpired? && log[d].intentId == e.intents[u];
    var q := DroppedLate(cfg, log, d);
    var p := LiveSource(cfg, log, e.consumedUpTo, e.committedAt, u);
    SameSource(cfg, log, p, q, e.intents[u]);
  }

  /**
   * A close commits an intent already dropped exactly when some drop of an unconsumed intent is
   * on record whose deadline the closing clock has not passed: what a crash leaves behind when
   * the clock is then set back.
   */
  lemma CloseConflictsExactly(cfg: Config, log: seq<Entry>, e: Entry)
    requires Orderly(cfg, log) && e.SlotCommitted? && FairSlot(cfg, log, e)
    ensures (exists id :: id in e.intents && Dropped(log, id)) <==> DropStillOpen(log, e.consumedUpTo, e.committedAt)
  {
    if DropStillOpen(log, e.consumedUpTo, e.committedAt) {
      var d: nat, p: nat :| d < |log| && log[d].IntentExpired? && Consumed(log) <= p < e.consumedUpTo &&
        ReceivedAs(log, p, log[d].intentId) && e.committedAt <= log[d].guaranteeDeadline;
      OpenDropIsCommitted(cfg, log, e, d, p);
      assert Dropped(log, log[d].intentId);
    }
    if exists id :: id in e.intents && Dropped(log, id) {
      var id :| id in e.intents && Dropped(log, id);
      var u: nat :| u < |e.intents| && e.intents[u] == id;
      CommittedDropIsOpen(cfg, log, e, u);
    }
  }

  // ----- the inclusion guarantee -----

  lemma CommittedInTime(cfg: Config, log: seq<Entry>, i: nat, u: nat) returns (p: nat)
    requires Orderly(cfg, log) && i < |log| && log[i].SlotCommitted? && u < |log[i].intents|
    ensures p < i && ReceivedAs(log, p, log[i].intents[u])
    ensures log[i].committedAt <= cfg.guarantee.DeadlineFor(log[p].receivedAt) <= log[p].intent.deadlineMs
  {
    p := SlotSource(cfg, log, i, u);
    AdmittedAt(cfg, log, p);
  }

  lemma DroppedLate(cfg: Config, log: seq<Entry>, d: nat) returns (p: nat)
    requires Orderly(cfg, log) && d < |log| && log[d].IntentExpired?
    ensures p < d && ReceivedAs(log, p, log[d].intentId)
    ensures cfg.guarantee.DeadlineFor(log[p].receivedAt) == log[d].guaranteeDeadline < log[d].atMs
  {
    MissedAt(cfg, log, d);
    p :| Consumed(log[..d]) <= p < |log[..d]| && ReceivedAs(log[..d], p, log[d].intentId) &&
      log[d].guaranteeDeadline == cfg.guarantee.DeadlineFor(log[..d][p].receivedAt);
  }

  /**
   * Of the intents a slot consumes it commits exactly those that arrived no more than `maxSlots`
   * slot lengths before it closed, and every other was dropped before it.
   */
  lemma KeptExactly(cfg: Config, log: seq<Entry>, i: nat, p: nat)
    requires Orderly(cfg, log) && i < |log| && log[i].SlotCommitted?
    requires Consumed(log[..i]) <= p < log[i].consumedUpTo && p < i && log[p].IntentReceived?
    requires SlotLengths(cfg.guarantee.slotMs, cfg.guarantee.maxSlots) < U64
    ensures var window := SlotLengths(cfg.guarantee.slotMs, cfg.guarantee.maxSlots);
      var late := log[p].receivedAt + window < log[i].committedAt;
      (log[p].intentId in log[i].intents <==> !late) && (late ==> Dropped(log[..i], log[p].intentId))
  {
    hide Orderly;
    var wraps := WindowIs(cfg.guarantee);
    FairAt(cfg, log, i);
    if log[i].committedAt <= log[p].receivedAt + cfg.Window() {
      var u := LivePlace(cfg, log[..i], log[i].consumedUpTo, log[i].committedAt, p);
      assert log[i].intents[u] == log[p].intentId;
    } else {
      assert OverdueAt(cfg, log[..i], p, log[i].committedAt);
    }
    if log[p].intentId in log[i].intents {
      var u: nat :| u < |log[i].intents| && log[i].intents[u] == log[p].intentId;
      var q := SlotSource(cfg, log, i, u);
      SameSource(cfg, log, p, q, log[p].intentId);
    }
  }

  /** No deadline of an admitted intent overflows 64 bits: only the gate's own sum can. */
  lemma DeadlinesFit(cfg: Config, log: seq<Entry>, p: nat)
    requires Orderly(cfg, log) && p < |log| && log[p].IntentReceived?
    ensures cfg.guarantee.DeadlineFor(log[p].receivedAt) <= log[p].intent.deadlineMs < U64
  {
    AdmittedAt(cfg, log, p);
  }

  // ----- nonce order over whole runs -----

  /**
   * For one submitter, an earlier slot's nonces lie below a later slot's, on every market;
   * within one slot, nonces ascend on each market.
   */
  lemma NonceOrderOverRuns(cfg: Config, log: seq<Entry>, i: nat, u: nat, j: nat, v: nat)
    requires Orderly(cfg, log)
    requires i < |log| && log[i].SlotCommitted? && u < |log[i].intents|
    requires j < |log| && log[j].SlotCommitted? && v < |log[j].intents|
    requires var p, q := SlotPendings(cfg, log, i)[u], SlotPendings(cfg, log, j)[v];
      p.submitter == q.submitter && (i < j || (i == j && u < v && p.market == q.market))
    ensures SlotPendings(cfg, log, i)[u].nonce < SlotPendings(cfg, log, j)[v].nonce
  {
    if i < j {
      var p := SlotSource(cfg, log, i, u);
      var q := SlotSource(cfg, log, j, v);
      LaterSlotsStart(cfg, log, i, j);
      ReceivedOnce(cfg, log, p, q);
    } else {
      FairAt(cfg, log, i);
      PrefixOrderly(cfg, log, i);
      BufferedNonces(cfg, log[..i], Consumed(log[..i]), log[i].consumedUpTo);
      LiveStaysDistinct(Taken(log[..i], log[i].consumedUpTo), cfg.Window(), log[i].committedAt);
      SlotNonceOrder(Filter(Live(cfg.Window(), log[i].committedAt), Taken(log[..i], log[i].consumedUpTo)), u, v);
    }
  }

  /** The same of the nonces as they were submitted. */
  lemma SubmittedNoncesAscend(cfg: Config, log: seq<Entry>, i: nat, u: nat, j: nat, v: nat) returns (p: nat, q: nat)
    requires Orderly(cfg, log)
    requires i < |log| && log[i].SlotCommitted? && u < |log[i].intents|
    requires j < |log| && log[j].SlotCommitted? && v < |log[j].intents|
    ensures ReceivedAs(log, p, log[i].intents[u]) && ReceivedAs(log, q, log[j].intents[v])
    ensures var x, y := log[p].intent, log[q].intent;
      x.submitter == y.submitter && (i < j || (i == j && u < v && x.market == y.market)) ==> x.nonce < y.nonce
  {
    hide Orderly;
    p := SlotSource(cfg, log, i, u);
    q := SlotSource(cfg, log, j, v);
    var x, y := log[p].intent, log[q].intent;
    if x.submitter == y.submitter && (i < j || (i == j && u < v && x.market == y.market)) {
      NonceOrderOverRuns(cfg, log, i, u, j, v);
    }
  }

  lemma LiveStaysDistinct(s: seq<Pending>, w: nat, t: nat)
    requires DistinctNonces(s)
    ensures DistinctNonces(Filter(Live(w, t), s))
  {
    var f := Filter(Live(w, t), s);
    forall u, v | 0 <= u < v < |f| && f[u].submitter == f[v].submitter && f[u].market == f[v].market
      ensures f[u].nonce != f[v].nonce
    {
      var i, j := PairFromFilter(Live(w, t), s, u, v);
    }
  }

  // ----- the policy over runs, in the fields the submitters signed for -----

  /** The intent of `x` bids more than that of `y`, or as much and came earlier, or has the smaller id or address. */
  ghost predicate Outbids(x: Entry, y: Entry)
    requires x.IntentReceived? && y.IntentReceived?
  {
    var f, g := x.intent.priorityFee, y.intent.priorityFee;
    f > g || (f == g && x.receivedAt < y.receivedAt) ||
    (f == g && x.receivedAt == y.receivedAt && Precedes(x.intentId, y.intentId)) ||
    (f == g && x.receivedAt == y.receivedAt && x.intentId == y.intentId &&
     Precedes(x.intent.submitter, y.intent.submitter))
  }

  /** Where two ids of one slot were received, in slot order. */
  lemma TwoSources(cfg: Config, log: seq<Entry>, i: nat, u: nat, v: nat) returns (p: nat, q: nat)
    requires Orderly(cfg, log) && i < |log| && log[i].SlotCommitted? && u < v < |log[i].intents|
    ensures ReceivedAs(log, p, log[i].intents[u]) && ReceivedAs(log, q, log[i].intents[v])
    ensures exists s ::
      v < |SlotOrder(s)| && SlotOrder(s)[u] == PendingOf(log[p]) && SlotOrder(s)[v] == PendingOf(log[q])
  {
    p := SlotSource(cfg, log, i, u);
    q := SlotSource(cfg, log, i, v);
    FairAt(cfg, log, i);
    var s := Filter(Live(cfg.Window(), log[i].committedAt), Taken(log[..i], log[i].consumedUpTo));
    assert SlotOrder(s) == SlotPendings(cfg, log, i);
  }

  /** Of two neighbours in a committed slot, on one market and by different submitters, the first outbids the second. */
  lemma NeighboursOutbid(cfg: Config, log: seq<Entry>, i: nat, u: nat) returns (p: nat, q: nat)
    requires Orderly(cfg, log) && i < |log| && log[i].SlotCommitted? && u + 1 < |log[i].intents|
    ensures ReceivedAs(log, p, log[i].intents[u]) && ReceivedAs(log, q, log[i].intents[u + 1])
    ensures var x, y := log[p], log[q];
      x.intent.market == y.intent.market && x.intent.submitter != y.intent.submitter ==> Outbids(x, y)
  {
    hide Orderly, SlotOrder, Precedes;
    p, q := TwoSources(cfg, log, i, u, u + 1);
    var s :| u + 1 < |SlotOrder(s)| && SlotOrder(s)[u] == PendingOf(log[p]) && SlotOrder(s)[u + 1] == PendingOf(log[q]);
    if log[p].intent.market == log[q].intent.market && log[p].intent.submitter != log[q].intent.submitter {
      SlotNeighboursRank(s, u);
    }
  }

  /** Along a committed slot the markets of its intents ascend, base before quote. */
  lemma MarketsAscendInSlot(cfg: Config, log: seq<Entry>, i: nat, u: nat, v: nat) returns (p: nat, q: nat)
    requires Orderly(cfg, log) && i < |log| && log[i].SlotCommitted? && u < v < |log[i].intents|
    ensures ReceivedAs(log, p, log[i].intents[u]) && ReceivedAs(log, q, log[i].intents[v])
    ensures var m, n := log[p].intent.market, log[q].intent.market;
      m == n || Precedes(m.base, n.base) || (m.base == n.base && Precedes(m.quote, n.quote))
  {
    hide Orderly, SlotOrder, Precedes;
    p, q := TwoSources(cfg, log, i, u, v);
    var s :| v < |SlotOrder(s)| && SlotOrder(s)[u] == PendingOf(log[p]) && SlotOrder(s)[v] == PendingOf(log[q]);
    SlotAscendsInFields(s, u, v);
  }

  // ----- outcome ranges -----

  predicate Covers(e: Entry, k: nat) {
    (e.SlotsProven? || e.ProveFailed?) && e.fromSlot <= k <= e.toSlot
  }

  /** Outcome ranges are non-empty, at most a batch long, all attested, and only failed slots are skipped. */
  lemma OutcomeRange(cfg: Config, log: seq<Entry>, n: nat)
    requires WellFormed(cfg, log) && n < |Of(Outcomes, log)|
    ensures var e := Of(Outcomes, log)[n];
      var start := if n == 0 then 0 else Of(Outcomes, log)[n - 1].toSlot + 1;
      && start <= e.fromSlot <= e.toSlot && e.toSlot + 1 - e.fromSlot <= cfg.batchSize
      && (forall k :: start <= k < e.fromSlot ==> FailedIn(log, k))
      && (forall k :: e.fromSlot <= k <= e.toSlot ==> AttestedIn(log, k))
  {
    var i := OfFrom(Outcomes, log, n);
    RangeAt(cfg, log, i);
    OfMonotone(Outcomes, log, i, i);
    assert n > 0 ==> Of(Outcomes, log[..i])[n - 1] == Of(Outcomes, log)[n - 1];
    forall k: nat | k < |Of(Rulings, log[..i])|
      ensures AttestedIn(log, k) == AttestedIn(log[..i], k) && FailedIn(log, k) == FailedIn(log[..i], k)
    {
      RulingStays(log, i, k);
    }
  }

  lemma RulingStays(log: seq<Entry>, n: nat, k: nat)
    requires n <= |log| && k < |Of(Rulings, log[..n])|
    ensures k < |Of(Rulings, log)| && Of(Rulings, log)[k] == Of(Rulings, log[..n])[k]
  {
    OfPrefix(Rulings, log, n);
  }

  lemma {:induction false} RangesAscend(cfg: Config, log: seq<Entry>, m: nat, n: nat)
    requires WellFormed(cfg, log) && m < n < |Of(Outcomes, log)|
    ensures Of(Outcomes, log)[m].toSlot < Of(Outcomes, log)[n].fromSlot
  {
    OutcomeRange(cfg, log, n);
    if m < n - 1 {
      RangesAscend(cfg, log, m, n - 1);
      OutcomeRange(cfg, log, n - 1);
    }
  }

  ghost predicate Settled(log: seq<Entry>, k: nat) {
    exists n :: 0 <= n < |Of(Outcomes, log)| && Covers(Of(Outcomes, log)[n], k)
  }

  lemma {:induction false} PassedSlot(cfg: Config, log: seq<Entry>, n: nat, k: nat)
    requires WellFormed(cfg, log) && n < |Of(Outcomes, log)| && k <= Of(Outcomes, log)[n].toSlot
    ensures FailedIn(log, k) || (AttestedIn(log, k) && Settled(log, k))
  {
    OutcomeRange(cfg, log, n);
    if Of(Outcomes, log)[n].fromSlot <= k {
      assert Covers(Of(Outcomes, log)[n], k);
    } else if n > 0 && k <= Of(Outcomes, log)[n - 1].toSlot {
      PassedSlot(cfg, log, n - 1, k);
    }
  }

  /** Every slot the outcomes have passed is attest-failed or in an outcome range, never both. */
  lemma PassedExactlyOne(cfg: Config, log: seq<Entry>, k: nat)
    requires WellFormed(cfg, log)
    ensures Settled(log, k) <==> k < OutcomeNext(log) && AttestedIn(log, k)
    ensures k < OutcomeNext(log) ==> (FailedIn(log, k) <==> !Settled(log, k))
  {
    var outcomes := Of(Outcomes, log);
    if k < OutcomeNext(log) {
      PassedSlot(cfg, log, |outcomes| - 1, k);
    }
    if Settled(log, k) {
      var n :| 0 <= n < |outcomes| && Covers(outcomes[n], k);
      OutcomeRange(cfg, log, n);
      if n < |outcomes| - 1 {
        RangesAscend(cfg, log, n, |outcomes| - 1);
        OutcomeRange(cfg, log, |outcomes| - 1);
      }
    }
  }

  /** And in only one range. */
  lemma SettledOnce(cfg: Config, log: seq<Entry>, k: nat, m: nat, n: nat)
    requires WellFormed(cfg, log) && m < |Of(Outcomes, log)| && n < |Of(Outcomes, log)|
    requires Covers(Of(Outcomes, log)[m], k) && Covers(Of(Outcomes, log)[n], k)
    ensures m == n
  {
    if m < n {
      RangesAscend(cfg, log, m, n);
    } else if n < m {
      RangesAscend(cfg, log, n, m);
    }
  }

  // ----- evidence -----

  /** Every attestation in the log passes the holder's check against its slot's committed ids. */
  lemma AttestationsVerify(cfg: Config, log: seq<Entry>, k: nat)
    requires WellFormed(cfg, log) && AttestedIn(log, k) && k < U64
    ensures k < |Of(Commits, log)|
    ensures var c, a := Of(Commits, log)[k], Of(Rulings, log)[k];
      VerifyPreconf(cfg.keccak, cfg.measurement, PreconfClaim(k, c.commitment, a.quote, a.signature), c.intents)
      == Accepted
  {
    var i := OfFrom(Rulings, log, k);
    RuledAt(cfg, log, i);
    OfPrefix(Commits, log, i);
    CommitsNumbered(cfg, log, k);
    var c, a := Of(Commits, log)[k], Of(Rulings, log)[k];
    AcceptedExactly(cfg.keccak, cfg.measurement, PreconfClaim(k, c.commitment, a.quote, a.signature), c.intents);
  }

  /** Every recorded proof is valid for the slots its range names, as the log committed them. */
  lemma ProofsVerify(cfg: Config, log: seq<Entry>, n: nat)
    requires WellFormed(cfg, log) && n < |Of(Outcomes, log)| && Of(Outcomes, log)[n].SlotsProven?
    ensures var e := Of(Outcomes, log)[n];
      e.fromSlot <= e.toSlot < |Of(Commits, log)| &&
      MockVerify(cfg.keccak, e.proof, Batch(log, e.fromSlot, e.toSlot)) == Valid
  {
    var i := OfFrom(Outcomes, log, n);
    RangeAt(cfg, log, i);
    OfPrefix(Commits, log, i);
    var e := log[i];
    assert Batch(log[..i], e.fromSlot, e.toSlot) == Batch(log, e.fromSlot, e.toSlot);
  }
}
