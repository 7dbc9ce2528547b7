/**
 * The doorbell (src/log.rs) and a consumer of the log, as a step system. Pushing an entry and
 * ringing are separate steps, so any number of rings may be outstanding and reads fall between.
 */
module Wakeups {

  /** Where a consumer's loop is: not subscribed, between start-up steps, blocked in `changed`, or busy. */
  datatype Phase =
    | Down
    | Subscribed
    | Marked
    | Listening
    | Woken
    | Reading(bound: nat)

  /** `version` counts rings; `seen` is the version the consumer's receiver last saw. */
  datatype Bell = Bell(length: nat, outstanding: nat, version: int, cursor: nat, seen: int, phase: Phase)

  datatype Event =
    | Push(count: nat)
    | Ring
    | Subscribe
    | MarkChanged
    | Resume(cursor: nat)
    | Wake
    | Read
    | ReadFails
    | Finish
    | Crash

  const SILENT: Bell := Bell(0, 0, 0, 0, 0, Down)

  /** One event; `skipMark` is a consumer that does not arm its first wake-up. */
  function Next(b: Bell, e: Event, skipMark: bool): Bell {
    match e
    case Push(count) => if count > 0 then b.(length := b.length + count, outstanding := b.outstanding + 1) else b
    case Ring => if b.outstanding > 0 then b.(outstanding := b.outstanding - 1, version := b.version + 1) else b
    case Subscribe => if b.phase.Down? then b.(seen := b.version, phase := Subscribed) else b
    case MarkChanged =>
      if b.phase.Subscribed? then b.(seen := if skipMark then b.seen else b.seen - 1, phase := Marked) else b
    case Resume(cursor) => if b.phase.Marked? && cursor <= b.length then b.(cursor := cursor, phase := Listening) else b
    case Wake => if b.phase.Listening? && b.seen != b.version then b.(seen := b.version, phase := Woken) else b
    case Read => if b.phase.Woken? then b.(phase := Reading(b.length)) else b
    // the wake-up is spent and the loop listens again, as `run_projector` does when the log cannot be read
    case ReadFails => if b.phase.Woken? then b.(phase := Listening) else b
    case Finish =>
      if b.phase.Reading?
      then b.(cursor := if b.cursor < b.phase.bound then b.phase.bound else b.cursor, phase := Listening)
      else b
    case Crash => b.(phase := Down)
  }

  function After(b: Bell, events: seq<Event>, skipMark: bool): Bell {
    if events == [] then b
    else Next(After(b, events[..|events| - 1], skipMark), events[|events| - 1], skipMark)
  }

  /** How much of the log the consumer has read or is about to have read; all of it, if it has yet to look. */
  function Covered(b: Bell): nat {
    match b.phase
    case Listening => b.cursor
    case Reading(bound) => bound
    case _ => b.length
  }

  /** What lies past that is announced: by a ring still to come, or by one the consumer has not seen. */
  predicate Announced(b: Bell) {
    Covered(b) < b.length ==> b.outstanding > 0 || b.seen != b.version
  }

  predicate BellInv(b: Bell) {
    b.seen <= b.version && (b.phase.Marked? ==> b.seen < b.version) && b.cursor <= b.length &&
    (b.phase.Reading? ==> b.cursor <= b.length && b.phase.bound <= b.length) && Announced(b)
  }

  lemma NextKeeps(b: Bell, e: Event)
    requires BellInv(b) && !e.ReadFails?
    ensures BellInv(Next(b, e, false))
  {
  }

  /** A failed read loses nothing if and only if there was nothing to read, or a ring is to come or unseen. */
  lemma FailedReadExactly(b: Bell)
    requires BellInv(b) && b.phase.Woken?
    ensures BellInv(Next(b, ReadFails, false)) <==> b.cursor == b.length || b.outstanding > 0 || b.seen != b.version
  {
  }

  predicate Readable(events: seq<Event>) {
    forall e :: e in events ==> !e.ReadFails?
  }

  /** No lost wake-up: as long as reads succeed, an unread entry is announced at every moment, crashes included. */
  lemma {:induction false} NoLostWakeup(events: seq<Event>)
    requires Readable(events)
    ensures BellInv(After(SILENT, events, false))
  {
    if events != [] {
      assert events[|events| - 1] in events;
      NoLostWakeup(events[..|events| - 1]);
      NextKeeps(After(SILENT, events[..|events| - 1], false), events[|events| - 1]);
    }
  }

  /** Asleep, with nothing to wake it. */
  predicate Asleep(b: Bell) {
    b.phase.Listening? && b.seen == b.version && b.outstanding == 0
  }

  /** A consumer sleeps for good only when it has read the whole log. */
  lemma SleepsOnlyWhenDone(events: seq<Event>)
    requires Readable(events)
    ensures var b := After(SILENT, events, false); Asleep(b) ==> b.cursor == b.length
  {
    NoLostWakeup(events);
  }

  lemma AfterSnoc(b: Bell, events: seq<Event>, e: Event)
    ensures After(b, events + [e], false) == Next(After(b, events, false), e, false)
  {
    assert (events + [e])[..|events|] == events;
  }

  /** Up and marked on a log of one entry, nothing outstanding. */
  lemma ComesUp() returns (events: seq<Event>)
    ensures After(SILENT, events, false) == Bell(1, 0, 1, 0, 0, Marked)
  {
    hide After;
    assert After(SILENT, [], false) == SILENT by {
      EmptyRun(SILENT);
    }
    AfterSnoc(SILENT, [], Push(1));
    AfterSnoc(SILENT, [] + [Push(1)], Ring);
    AfterSnoc(SILENT, [] + [Push(1)] + [Ring], Subscribe);
    AfterSnoc(SILENT, [] + [Push(1)] + [Ring] + [Subscribe], MarkChanged);
    events := [] + [Push(1)] + [Ring] + [Subscribe] + [MarkChanged];
  }

  lemma EmptyRun(b: Bell)
    ensures After(b, [], false) == b
  {
  }

  /** A consumer that comes up, wakes and fails to read sleeps on an entry until the next ring. */
  lemma FailedReadSleeps() returns (events: seq<Event>)
    ensures var b := After(SILENT, events, false); Asleep(b) && b.cursor < b.length
  {
    hide After;
    events := ComesUp();
    AfterSnoc(SILENT, events, Resume(0));
    AfterSnoc(SILENT, events + [Resume(0)], Wake);
    AfterSnoc(SILENT, events + [Resume(0)] + [Wake], ReadFails);
    events := events + [Resume(0)] + [Wake] + [ReadFails];
  }

  /**
   * Coming up without arming the first wake-up leaves the consumer asleep on unread entries exactly
   * when it resumes short of the head, every ring was in before it subscribed, and none came since.
   */
  lemma SkippedMarkExactly(b: Bell, rings: nat, cursor: nat)
    requires b.phase.Down? && rings <= b.outstanding && cursor <= b.length
    ensures var up := After(b, [Subscribe, MarkChanged] + seq(rings, _ => Ring) + [Resume(cursor)], true);
      Asleep(up) && up.cursor < up.length <==> cursor < b.length && b.outstanding == 0
  {
    var start := [Subscribe, MarkChanged];
    var all := start + seq(rings, _ => Ring) + [Resume(cursor)];
    assert start[..1] == [Subscribe] && start[..1][..0] == [];
    assert After(b, start[..1], true) == Next(b, Subscribe, true);
    assert After(b, start, true) == b.(seen := b.version, phase := Marked);
    RingsIn(b, start, rings);
    assert all[..|all| - 1] == start + seq(rings, _ => Ring);
  }

  lemma {:induction false} RingsIn(b: Bell, start: seq<Event>, rings: nat)
    requires rings <= After(b, start, true).outstanding
    ensures var s := After(b, start, true);
      After(b, start + seq(rings, _ => Ring), true)
      == s.(outstanding := s.outstanding - rings, version := s.version + rings)
  {
    var events := start + seq(rings, _ => Ring);
    if rings == 0 {
      assert events == start;
    } else {
      assert events[..|events| - 1] == start + seq(rings - 1, _ => Ring);
      RingsIn(b, start, rings - 1);
    }
  }
}
