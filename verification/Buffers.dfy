/** What the sequencer buffers, and the parts of a buffer selected by one field. */
module Buffers {
  import opened Intents

  datatype Pending = Pending(
    id: IntentId, market: Market, submitter: Address, nonce: nat, priorityFee: nat, receivedAt: nat)

  function NewPending(id: IntentId, intent: Intent, receivedAt: nat): Pending {
    Pending(id, intent.market, intent.submitter, intent.nonce, intent.priorityFee, receivedAt)
  }

  function Ids(s: seq<Pending>): (r: seq<IntentId>)
    ensures |r| == |s| && forall i :: 0 <= i < |s| ==> r[i] == s[i].id
  {
    seq(|s|, i requires 0 <= i < |s| => s[i].id)
  }

  lemma IdsAppend(out: seq<IntentId>, x: seq<Pending>, y: seq<Pending>)
    ensures out + Ids(x + y) == out + Ids(x) + Ids(y)
  {
  }

  /** The ways the sequencer splits a buffer. */
  datatype Selector =
    | From(submitter: Address)
    | NotFrom(gone: set<Address>)
    | WithNonce(nonce: nat)
    | In(market: Market)
    | NotIn(market: Market)
    | Live(window: nat, now: nat)
    | Dead(window: nat, now: nat)
  {
    predicate Keeps(p: Pending) {
      match this
      case From(a) => p.submitter == a
      case NotFrom(gone) => p.submitter !in gone
      case WithNonce(n) => p.nonce == n
      case In(m) => p.market == m
      case NotIn(m) => p.market != m
      case Live(w, t) => t <= p.receivedAt + w
      case Dead(w, t) => p.receivedAt + w < t
    }
  }

  function Filter(f: Selector, s: seq<Pending>): (r: seq<Pending>)
    ensures |r| <= |s|
    ensures forall x :: x in r ==> x in s && f.Keeps(x)
  {
    if s == [] then []
    else if f.Keeps(s[0]) then [s[0]] + Filter(f, s[1..])
    else Filter(f, s[1..])
  }

  lemma {:induction false} FilterConcat(f: Selector, x: seq<Pending>, y: seq<Pending>)
    ensures Filter(f, x + y) == Filter(f, x) + Filter(f, y)
  {
    if x == [] {
      assert x + y == y;
    } else {
      assert (x + y)[1..] == x[1..] + y;
      FilterConcat(f, x[1..], y);
    }
  }

  lemma {:induction false} FilterKeeps(f: Selector, s: seq<Pending>, x: Pending)
    requires x in s && f.Keeps(x)
    ensures x in Filter(f, s)
  {
    if s[0] != x {
      FilterKeeps(f, s[1..], x);
    }
  }

  lemma {:induction false} FilterCommutes(f: Selector, g: Selector, s: seq<Pending>)
    ensures Filter(f, Filter(g, s)) == Filter(g, Filter(f, s))
  {
    if s != [] {
      FilterCommutes(f, g, s[1..]);
      FilterConcat(f, Filter(g, [s[0]]), Filter(g, s[1..]));
      FilterConcat(g, Filter(f, [s[0]]), Filter(f, s[1..]));
    }
  }

  lemma {:induction false} FilterAll(f: Selector, s: seq<Pending>)
    requires forall x :: x in s ==> f.Keeps(x)
    ensures Filter(f, s) == s
  {
    if s != [] {
      FilterAll(f, s[1..]);
    }
  }

  lemma {:induction false} FilterNone(f: Selector, s: seq<Pending>)
    requires forall x :: x in s ==> !f.Keeps(x)
    ensures Filter(f, s) == []
  {
    if s != [] {
      FilterNone(f, s[1..]);
    }
  }

  /** Elements the first filter drops do not matter to a second one that drops them too. */
  lemma {:induction false} FilterSubsumes(f: Selector, g: Selector, s: seq<Pending>)
    requires forall x :: x in s && f.Keeps(x) ==> g.Keeps(x)
    ensures Filter(f, Filter(g, s)) == Filter(f, s)
  {
    if s != [] {
      FilterSubsumes(f, g, s[1..]);
      FilterConcat(f, Filter(g, [s[0]]), Filter(g, s[1..]));
    }
  }

  lemma {:induction false} FilterCount(f: Selector, s: seq<Pending>, x: Pending)
    ensures multiset(Filter(f, s))[x] == if f.Keeps(x) then multiset(s)[x] else 0
  {
    if s != [] {
      FilterCount(f, s[1..], x);
      assert s == [s[0]] + s[1..];
    }
  }

  lemma FilterAt(f: Selector, s: seq<Pending>, i: nat)
    requires i < |s| && f.Keeps(s[i])
    ensures |Filter(f, s[..i])| < |Filter(f, s)| && Filter(f, s)[|Filter(f, s[..i])|] == s[i]
  {
    assert s == s[..i] + s[i..];
    FilterConcat(f, s[..i], s[i..]);
  }

  /** Two kept elements keep their order through a filter. */
  lemma PairInFilter(f: Selector, s: seq<Pending>, i: nat, j: nat) returns (u: nat, v: nat)
    requires i < j < |s| && f.Keeps(s[i]) && f.Keeps(s[j])
    ensures u < v < |Filter(f, s)| && Filter(f, s)[u] == s[i] && Filter(f, s)[v] == s[j]
  {
    u, v := |Filter(f, s[..i])|, |Filter(f, s[..j])|;
    FilterAt(f, s, i);
    FilterAt(f, s, j);
    assert s[..j][..i] == s[..i];
    FilterAt(f, s[..j], i);
  }

  /** And every ordered pair of a filter comes from an ordered pair of the whole. */
  lemma {:induction false} PairFromFilter(f: Selector, s: seq<Pending>, u: nat, v: nat) returns (i: nat, j: nat)
    requires u < v < |Filter(f, s)|
    ensures i < j < |s| && Filter(f, s)[u] == s[i] && Filter(f, s)[v] == s[j]
  {
    if !f.Keeps(s[0]) {
      i, j := PairFromFilter(f, s[1..], u, v);
      i, j := i + 1, j + 1;
    } else if u > 0 {
      i, j := PairFromFilter(f, s[1..], u - 1, v - 1);
      i, j := i + 1, j + 1;
    } else {
      assert Filter(f, s)[v] == Filter(f, s[1..])[v - 1];
      assert Filter(f, s)[v] in s[1..];
      j :| 0 <= j < |s[1..]| && s[1..][j] == Filter(f, s)[v];
      i, j := 0, j + 1;
    }
  }

}
