/**
 * The sequencing policy of one ordering domain (src/sequencer.rs), as a merge of per-submitter
 * queues, and what the merge means. A buffer is a sequence; a submitter's queue is the
 * subsequence it contributed.
 */
module Ordering {
  import opened Bytes
  import opened Intents
  import opened Buffers

  // ----- rank: fee descending, arrival, id; the submitter's address breaks what is left -----

  predicate Before(p: Pending, q: Pending) {
    p.priorityFee > q.priorityFee ||
    (p.priorityFee == q.priorityFee &&
     (p.receivedAt < q.receivedAt ||
      (p.receivedAt == q.receivedAt &&
       (Less(p.id, q.id) || (p.id == q.id && Less(p.submitter, q.submitter))))))
  }

  lemma BeforeTransitive(p: Pending, q: Pending, r: Pending)
    requires Before(p, q) && Before(q, r)
    ensures Before(p, r)
  {
    if Less(p.id, q.id) && Less(q.id, r.id) {
      LessTransitive(p.id, q.id, r.id);
    }
    if Less(p.submitter, q.submitter) && Less(q.submitter, r.submitter) {
      LessTransitive(p.submitter, q.submitter, r.submitter);
    }
  }

  lemma BeforeTotal(p: Pending, q: Pending)
    ensures !(Before(p, q) && Before(q, p)) && !Before(p, p)
    ensures p.submitter != q.submitter || p.id != q.id ==> Before(p, q) || Before(q, p)
  {
    LessTotal(p.id, q.id);
    LessTotal(p.submitter, q.submitter);
  }

  /** The policy, field by field: the higher fee, then the earlier arrival, then the smaller id and address. */
  ghost predicate Outranks(p: Pending, q: Pending) {
    p.priorityFee > q.priorityFee ||
    (p.priorityFee == q.priorityFee && p.receivedAt < q.receivedAt) ||
    (p.priorityFee == q.priorityFee && p.receivedAt == q.receivedAt && Precedes(p.id, q.id)) ||
    (p.priorityFee == q.priorityFee && p.receivedAt == q.receivedAt && p.id == q.id &&
     Precedes(p.submitter, q.submitter))
  }

  lemma RankInFields(p: Pending, q: Pending)
    ensures Before(p, q) <==> Outranks(p, q)
  {
    hide Less, Precedes;
    LessIsPrecedes(p.id, q.id);
    LessIsPrecedes(p.submitter, q.submitter);
  }

  // ----- queues -----

  function Queue(r: seq<Pending>, a: Address): (q: seq<Pending>)
    ensures forall p :: p in q ==> p in r && p.submitter == a
  {
    Filter(From(a), r)
  }

  ghost predicate SameQueues(l: seq<Pending>, r: seq<Pending>) {
    forall a: Address :: Queue(l, a) == Queue(r, a)
  }

  lemma QueueSnoc(r: seq<Pending>, p: Pending, a: Address)
    ensures Queue(r + [p], a) == if p.submitter == a then Queue(r, a) + [p] else Queue(r, a)
  {
    FilterConcat(From(a), r, [p]);
  }

  lemma QueueCons(r: seq<Pending>, a: Address)
    requires r != []
    ensures Queue(r, a) == if r[0].submitter == a then [r[0]] + Queue(r[1..], a) else Queue(r[1..], a)
  {
  }

  lemma NonEmptyQueue(r: seq<Pending>, p: Pending)
    requires p in r
    ensures p in Queue(r, p.submitter)
  {
    FilterKeeps(From(p.submitter), r, p);
  }

  /** The buffer without the first intent of submitter `a`. */
  function Take(r: seq<Pending>, a: Address): (t: seq<Pending>)
    requires Queue(r, a) != []
    ensures |t| == |r| - 1
  {
    if r[0].submitter == a then r[1..] else [r[0]] + Take(r[1..], a)
  }

  lemma {:induction false} QueueOfTake(r: seq<Pending>, a: Address, b: Address)
    requires Queue(r, a) != []
    ensures Queue(Take(r, a), b) == if a == b then Queue(r, a)[1..] else Queue(r, b)
  {
    if r[0].submitter != a {
      QueueOfTake(r[1..], a, b);
      assert Take(r, a)[1..] == Take(r[1..], a);
    }
  }

  lemma {:induction false} TakeElements(r: seq<Pending>, a: Address)
    requires Queue(r, a) != []
    ensures multiset(r) == multiset(Take(r, a)) + multiset{Queue(r, a)[0]}
  {
    assert r == [r[0]] + r[1..];
    if r[0].submitter != a {
      TakeElements(r[1..], a);
    }
  }

  // ----- the merge -----

  ghost predicate IsBest(r: seq<Pending>, a: Address) {
    Queue(r, a) != [] &&
    forall b: Address :: b != a && Queue(r, b) != [] ==> Before(Queue(r, a)[0], Queue(r, b)[0])
  }

  /** The submitter whose queue head currently wins. */
  function Best(r: seq<Pending>): (a: Address)
    requires r != []
    ensures IsBest(r, a)
  {
    var n := |r| - 1;
    var x := r[n];
    assert r == r[..n] + [x];
    assert forall b: Address ::
        Queue(r, b) == if x.submitter == b then Queue(r[..n], b) + [x] else Queue(r[..n], b) by {
      forall b: Address {
        QueueSnoc(r[..n], x, b);
      }
    }
    if n == 0 then
      x.submitter
    else
      var a := Best(r[..n]);
      var head := Queue(r[..n], a)[0];
      BestStep(r[..n], x, a);
      if Queue(r[..n], x.submitter) == [] && Before(x, head) then x.submitter else a
  }

  lemma BestStep(r: seq<Pending>, x: Pending, a: Address)
    requires IsBest(r, a)
    ensures Queue(r, x.submitter) == [] && Before(x, Queue(r, a)[0]) ==> IsBest(r + [x], x.submitter)
    ensures !(Queue(r, x.submitter) == [] && Before(x, Queue(r, a)[0])) ==> IsBest(r + [x], a)
  {
    var head := Queue(r, a)[0];
    forall b: Address {
      QueueSnoc(r, x, b);
    }
    BeforeTotal(x, head);
    if Before(x, head) {
      forall b: Address | b != a && Queue(r, b) != []
        ensures Before(x, Queue(r, b)[0])
      {
        BeforeTransitive(x, head, Queue(r, b)[0]);
      }
    }
  }

  lemma BestIsUnique(r: seq<Pending>, a: Address, b: Address)
    requires IsBest(r, a) && IsBest(r, b)
    ensures a == b
  {
    if a != b {
      BeforeTotal(Queue(r, a)[0], Queue(r, b)[0]);
    }
  }

  /** Take whichever head wins, until every queue is empty. */
  function Merge(r: seq<Pending>): (m: seq<Pending>)
    ensures |m| == |r|
    decreases |r|
  {
    if r == [] then [] else var a := Best(r); [Queue(r, a)[0]] + Merge(Take(r, a))
  }

  lemma MergeCons(r: seq<Pending>)
    requires r != []
    ensures Merge(r) == [Queue(r, Best(r))[0]] + Merge(Take(r, Best(r)))
  {
  }

  lemma {:induction false} MergeElements(r: seq<Pending>)
    ensures multiset(Merge(r)) == multiset(r)
    decreases |r|
  {
    if r != [] {
      TakeElements(r, Best(r));
      MergeElements(Take(r, Best(r)));
    }
  }

  lemma {:induction false} QueueOfMerge(r: seq<Pending>, b: Address)
    ensures Queue(Merge(r), b) == Queue(r, b)
    decreases |r|
  {
    if r != [] {
      var a := Best(r);
      QueueOfTake(r, a, b);
      QueueOfMerge(Take(r, a), b);
      assert Merge(r)[1..] == Merge(Take(r, a));
      if a == b {
        assert Queue(r, a) == [Queue(r, a)[0]] + Queue(r, a)[1..];
      }
    }
  }

  // ----- greedy optimality -----

  predicate LexBefore(x: seq<Pending>, y: seq<Pending>) {
    x != [] && y != [] && (Before(x[0], y[0]) || (x[0] == y[0] && LexBefore(x[1..], y[1..])))
  }

  lemma {:induction false} LexAsymmetric(x: seq<Pending>, y: seq<Pending>)
    requires LexBefore(x, y)
    ensures x != y && !LexBefore(y, x)
  {
    BeforeTotal(x[0], y[0]);
    if x[0] == y[0] {
      LexAsymmetric(x[1..], y[1..]);
    }
  }

  lemma {:induction false} MergeIsLeast(r: seq<Pending>, l: seq<Pending>)
    requires SameQueues(l, r)
    ensures l == Merge(r) || LexBefore(Merge(r), l)
    decreases |r|
  {
    if r == [] {
      if l != [] {
        NonEmptyQueue(l, l[0]);
        assert false;
      }
    } else {
      var a := Best(r);
      assert Queue(l, a) == Queue(r, a);
      var b := l[0].submitter;
      QueueCons(l, b);
      assert Queue(l, b) == Queue(r, b);
      if a == b {
        var rest := Take(r, a);
        forall c: Address
          ensures Queue(l[1..], c) == Queue(rest, c)
        {
          QueueCons(l, c);
          QueueOfTake(r, a, c);
          assert Queue(l, c) == Queue(r, c);
        }
        MergeIsLeast(rest, l[1..]);
        assert l == [l[0]] + l[1..];
        assert Merge(r)[1..] == Merge(rest);
      }
    }
  }

  /** The least among the sequences that keep every submitter's queue intact. */
  ghost predicate IsLeastMerge(m: seq<Pending>, r: seq<Pending>) {
    SameQueues(m, r) && forall l :: SameQueues(l, r) ==> l == m || LexBefore(m, l)
  }

  /** The greedy merge is the one lexicographically least interleaving of the queues. */
  lemma MergeCharacterised(r: seq<Pending>, m: seq<Pending>)
    ensures m == Merge(r) <==> IsLeastMerge(m, r)
  {
    forall a: Address {
      QueueOfMerge(r, a);
    }
    forall l | SameQueues(l, r) {
      MergeIsLeast(r, l);
    }
    if IsLeastMerge(m, r) && m != Merge(r) {
      LexAsymmetric(m, Merge(r));
    }
  }

  /** The merge sees nothing of a buffer but its queues. */
  lemma MergeSeesQueues(r: seq<Pending>, r': seq<Pending>)
    requires SameQueues(r, r')
    ensures Merge(r) == Merge(r')
  {
    MergeCharacterised(r, Merge(r));
    MergeCharacterised(r', Merge(r));
    forall l
      ensures SameQueues(l, r) <==> SameQueues(l, r')
    {
    }
  }

  // ----- independence -----

  function Without(gone: set<Address>, r: seq<Pending>): seq<Pending> {
    Filter(NotFrom(gone), r)
  }

  lemma QueueWithout(gone: set<Address>, r: seq<Pending>, a: Address)
    ensures Queue(Without(gone, r), a) == if a in gone then [] else Queue(r, a)
  {
    if a in gone {
      FilterNone(From(a), Without(gone, r));
    } else {
      FilterSubsumes(From(a), NotFrom(gone), r);
    }
  }

  lemma WithoutQueues(gone: set<Address>, r: seq<Pending>)
    ensures forall a: Address :: Queue(Without(gone, r), a) == if a in gone then [] else Queue(r, a)
  {
    forall a: Address {
      QueueWithout(gone, r, a);
    }
  }

  /** A submitter that stays and wins the whole buffer wins what is left, with the same head. */
  lemma BestWithout(gone: set<Address>, r: seq<Pending>)
    requires r != [] && Best(r) !in gone
    ensures Without(gone, r) != [] && Best(Without(gone, r)) == Best(r)
  {
    var a, w := Best(r), Without(gone, r);
    WithoutQueues(gone, r);
    assert Queue(w, a) == Queue(r, a);
    assert IsBest(w, a);
    BestIsUnique(w, a, Best(w));
  }

  lemma TakeWithout(gone: set<Address>, r: seq<Pending>, a: Address)
    requires Queue(r, a) != []
    ensures a in gone ==> SameQueues(Without(gone, Take(r, a)), Without(gone, r))
    ensures a !in gone ==> Queue(Without(gone, r), a) == Queue(r, a)
    ensures a !in gone ==> SameQueues(Without(gone, Take(r, a)), Take(Without(gone, r), a))
  {
    var w := Without(gone, r);
    QueueWithout(gone, r, a);
    forall b: Address
      ensures Queue(Without(gone, Take(r, a)), b) == if a in gone then Queue(w, b) else Queue(Take(w, a), b)
    {
      QueueWithout(gone, Take(r, a), b);
      QueueWithout(gone, r, b);
      QueueOfTake(r, a, b);
      if a !in gone {
        QueueOfTake(w, a, b);
      }
    }
  }

  lemma {:induction false} MergeIndependent(gone: set<Address>, r: seq<Pending>)
    ensures Without(gone, Merge(r)) == Merge(Without(gone, r))
    decreases |r|
  {
    if r != [] {
      var a := Best(r);
      var rest, w := Take(r, a), Without(gone, r);
      MergeIndependent(gone, rest);
      assert Merge(r)[1..] == Merge(rest);
      TakeWithout(gone, r, a);
      if a in gone {
        MergeSeesQueues(Without(gone, rest), w);
      } else {
        BestWithout(gone, r);
        MergeSeesQueues(Without(gone, rest), Take(w, a));
      }
    }
  }

  // ----- raising a bid -----

  /** How many intents the merge takes before the `k`th of submitter `a`. */
  function Place(r: seq<Pending>, a: Address, k: nat): (n: nat)
    requires k < |Queue(r, a)|
    decreases |r|
  {
    var b := Best(r);
    QueueOfTake(r, b, a);
    if b != a then 1 + Place(Take(r, b), a, k)
    else if k == 0 then 0
    else 1 + Place(Take(r, b), a, k - 1)
  }

  /** While another head wins, or an earlier one of the same queue, the intent waits one more turn. */
  lemma PlaceStep(r: seq<Pending>, a: Address, k: nat) returns (t: seq<Pending>, k': nat)
    requires k < |Queue(r, a)| && !(Best(r) == a && k == 0)
    ensures t == Take(r, Best(r)) && k' < |Queue(t, a)|
    ensures Queue(t, a)[k'] == Queue(r, a)[k] && Place(r, a, k) == 1 + Place(t, a, k')
  {
    t := Take(r, Best(r));
    k' := if Best(r) == a then k - 1 else k;
    QueueOfTake(r, Best(r), a);
  }

  lemma {:induction false} PlaceLocates(r: seq<Pending>, a: Address, k: nat)
    requires k < |Queue(r, a)|
    ensures Place(r, a, k) < |r| && Merge(r)[Place(r, a, k)] == Queue(r, a)[k]
    decreases |r|
  {
    hide IsBest;
    MergeCons(r);
    if !(Best(r) == a && k == 0) {
      var t, k' := PlaceStep(r, a, k);
      PlaceLocates(t, a, k');
    }
  }

  /** `raised` differs from `r` in one intent, the `k`th of submitter `a`, which now ranks higher. */
  ghost predicate Raised(r: seq<Pending>, raised: seq<Pending>, a: Address, k: nat) {
    k < |Queue(r, a)| == |Queue(raised, a)| &&
    Before(Queue(raised, a)[k], Queue(r, a)[k]) &&
    Queue(raised, a) == Queue(r, a)[k := Queue(raised, a)[k]] &&
    forall b: Address :: b != a ==> Queue(raised, b) == Queue(r, b)
  }

  lemma RaisedBest(r: seq<Pending>, raised: seq<Pending>, a: Address, k: nat)
    requires Raised(r, raised, a, k)
    ensures Best(raised) == Best(r) || (k == 0 && Best(raised) == a)
  {
    var b, c := Best(r), Best(raised);
    if k == 0 && b == a {
      forall d: Address | d != a && Queue(raised, d) != []
        ensures Before(Queue(raised, a)[0], Queue(raised, d)[0])
      {
        BeforeTransitive(Queue(raised, a)[0], Queue(r, a)[0], Queue(r, d)[0]);
      }
      BestIsUnique(raised, a, c);
    } else if k > 0 {
      assert Queue(raised, a)[0] == Queue(r, a)[0];
      assert IsBest(raised, b);
      BestIsUnique(raised, b, c);
    } else if c != a && c != b {
      BeforeTotal(Queue(raised, b)[0], Queue(raised, c)[0]);
    }
  }

  lemma RaisedTake(r: seq<Pending>, raised: seq<Pending>, a: Address, k: nat, b: Address)
    requires Raised(r, raised, a, k) && Queue(r, b) != [] && !(b == a && k == 0)
    ensures Queue(raised, b) != []
    ensures Raised(Take(r, b), Take(raised, b), a, if b == a then k - 1 else k)
  {
    hide Before, Queue, Take;
    if b == a {
      assert Queue(raised, a) != [];
    }
    QueueOfTake(r, b, a);
    QueueOfTake(raised, b, a);
    forall c: Address | c != a
      ensures Queue(Take(raised, b), c) == Queue(Take(r, b), c)
    {
      QueueOfTake(r, b, c);
      QueueOfTake(raised, b, c);
    }
  }

  lemma {:induction false} RaisedNeverLater(r: seq<Pending>, raised: seq<Pending>, a: Address, k: nat)
    requires Raised(r, raised, a, k)
    ensures Place(raised, a, k) <= Place(r, a, k)
    decreases |r|
  {
    var b := Best(r);
    RaisedBest(r, raised, a, k);
    if Best(raised) == b && !(b == a && k == 0) {
      RaisedTake(r, raised, a, k, b);
      RaisedNeverLater(Take(r, b), Take(raised, b), a, if b == a then k - 1 else k);
    }
  }

  // ----- the flat sort -----

  predicate InRankOrder(s: seq<Pending>) {
    forall i, j :: 0 <= i < j < |s| ==> Before(s[i], s[j])
  }

  predicate RanksFollowQueues(r: seq<Pending>) {
    forall i, j :: 0 <= i < j < |r| && r[i].submitter == r[j].submitter ==> Before(r[i], r[j])
  }

  /** With no submitter's ranks against its queue, the best head beats everything behind it too. */
  lemma BestBeatsAll(r: seq<Pending>, p: Pending)
    requires r != [] && RanksFollowQueues(r) && p in Take(r, Best(r))
    ensures Before(Queue(r, Best(r))[0], p)
  {
    var a, b := Best(r), p.submitter;
    QueueOfTake(r, a, b);
    NonEmptyQueue(Take(r, a), p);
    var t := Queue(Take(r, a), b);
    var k :| 0 <= k < |t| && t[k] == p;
    var u := if a == b then k + 1 else k;
    assert Queue(r, b)[u] == p;
    if u > 0 {
      var i, j := PairFromFilter(From(b), r, 0, u);
      assert Before(Queue(r, b)[0], p);
      if a != b {
        BeforeTransitive(Queue(r, a)[0], Queue(r, b)[0], p);
      }
    }
  }

  lemma {:induction false} TakeFollows(r: seq<Pending>, a: Address)
    requires Queue(r, a) != [] && RanksFollowQueues(r)
    ensures RanksFollowQueues(Take(r, a))
  {
    if r[0].submitter == a {
    } else {
      var t := Take(r[1..], a);
      TakeFollows(r[1..], a);
      TakeElements(r[1..], a);
      forall j | 0 <= j < |t| && t[j].submitter == r[0].submitter
        ensures Before(r[0], t[j])
      {
        assert t[j] in multiset(r[1..]);
      }
    }
  }

  /** The merge is the flat sort by rank exactly when no submitter's ranks run against its queue. */
  lemma {:induction false} FlatSortExactly(r: seq<Pending>)
    ensures InRankOrder(Merge(r)) <==> RanksFollowQueues(r)
  {
    if RanksFollowQueues(r) {
      FollowingMergesFlat(r);
    }
    if InRankOrder(Merge(r)) {
      forall i, j | 0 <= i < j < |r| && r[i].submitter == r[j].submitter
        ensures Before(r[i], r[j])
      {
        var a := r[i].submitter;
        var u, v := PairInFilter(From(a), r, i, j);
        QueueOfMerge(r, a);
        var i', j' := PairFromFilter(From(a), Merge(r), u, v);
      }
    }
  }

  lemma {:induction false} FollowingMergesFlat(r: seq<Pending>)
    requires RanksFollowQueues(r)
    ensures InRankOrder(Merge(r))
    decreases |r|
  {
    if r != [] {
      var a := Best(r);
      var rest := Take(r, a);
      TakeFollows(r, a);
      FollowingMergesFlat(rest);
      MergeElements(rest);
      forall j | 0 <= j < |rest|
        ensures Before(Merge(r)[0], Merge(rest)[j])
      {
        assert Merge(rest)[j] in multiset(Merge(rest));
        BestBeatsAll(r, Merge(rest)[j]);
      }
    }
  }

  lemma RankFirst(x: seq<Pending>, p: Pending)
    requires InRankOrder(x) && p in multiset(x)
    ensures p == x[0] || Before(x[0], p)
  {
    assert p in x;
  }

  lemma SameRankFirst(x: seq<Pending>, y: seq<Pending>)
    requires InRankOrder(x) && InRankOrder(y) && multiset(x) == multiset(y) && x != [] && y != []
    ensures x[0] == y[0]
  {
    assert x[0] in multiset(x) && y[0] in multiset(y);
    RankFirst(x, y[0]);
    RankFirst(y, x[0]);
    BeforeTotal(x[0], y[0]);
  }

  lemma RankedTail(x: seq<Pending>)
    requires InRankOrder(x) && x != []
    ensures InRankOrder(x[1..]) && multiset(x[1..]) == multiset(x) - multiset{x[0]}
  {
    hide Before;
    assert x == [x[0]] + x[1..];
  }

  /** Two rank-ordered arrangements of the same intents are one arrangement. */
  lemma {:induction false} FlatSortUnique(x: seq<Pending>, y: seq<Pending>)
    requires InRankOrder(x) && InRankOrder(y) && multiset(x) == multiset(y)
    ensures x == y
  {
    hide InRankOrder;
    assert |multiset(x)| == |x| && |multiset(y)| == |y|;
    if x != [] {
      SameRankFirst(x, y);
      RankedTail(x);
      RankedTail(y);
      FlatSortUnique(x[1..], y[1..]);
      assert x == [x[0]] + x[1..] && y == [y[0]] + y[1..];
    }
  }

  // ----- what every take obeys, in the policy's own terms -----

  /** When `m[u]` is taken, `m[v]` is the next intent of another submitter. */
  ghost predicate Waits(m: seq<Pending>, u: nat, v: nat) {
    u < v < |m| && forall w: nat :: u <= w < v ==> m[w].submitter != m[v].submitter
  }

  /** Whatever is taken outranks every other submitter's next intent. */
  ghost predicate TakesWinners(m: seq<Pending>) {
    forall u: nat, v: nat :: Waits(m, u, v) ==> Outranks(m[u], m[v])
  }

  lemma {:induction false} FirstOf(m: seq<Pending>, a: Address) returns (v: nat)
    requires Queue(m, a) != []
    ensures v < |m| && m[v] == Queue(m, a)[0] && forall w: nat :: w < v ==> m[w].submitter != a
  {
    QueueCons(m, a);
    if m[0].submitter == a {
      v := 0;
    } else {
      v := FirstOf(m[1..], a);
      v := v + 1;
      assert m[v] == m[1..][v - 1];
    }
  }

  lemma WaitsShifts(m: seq<Pending>, u: nat, v: nat)
    requires m != []
    ensures Waits(m[1..], u, v) <==> Waits(m, u + 1, v + 1)
  {
    if Waits(m[1..], u, v) {
      forall w: nat | u + 1 <= w < v + 1
        ensures m[w].submitter != m[v + 1].submitter
      {
        assert m[1..][w - 1] == m[w];
      }
    }
    if Waits(m, u + 1, v + 1) {
      forall w: nat | u <= w < v
        ensures m[1..][w].submitter != m[1..][v].submitter
      {
        assert m[1..][w] == m[w + 1];
      }
    }
  }

  /** The waiting intent is the head of its submitter's queue. */
  lemma {:induction false} WaitingHead(m: seq<Pending>, v: nat)
    requires Waits(m, 0, v)
    ensures Queue(m, m[v].submitter) != [] && Queue(m, m[v].submitter)[0] == m[v]
  {
    var a := m[v].submitter;
    assert m == m[..v] + ([m[v]] + m[v + 1..]);
    FilterConcat(From(a), m[..v], [m[v]] + m[v + 1..]);
    FilterConcat(From(a), [m[v]], m[v + 1..]);
    FilterNone(From(a), m[..v]);
  }

  lemma FirstTaken(r: seq<Pending>, v: nat)
    requires Waits(Merge(r), 0, v)
    ensures Outranks(Merge(r)[0], Merge(r)[v])
  {
    var m := Merge(r);
    MergeCons(r);
    WaitingHead(m, v);
    hide Outranks, Before, Merge;
    QueueOfMerge(r, m[v].submitter);
    RankInFields(m[0], m[v]);
  }

  lemma {:induction false} MergeTakesWinners(r: seq<Pending>)
    ensures TakesWinners(Merge(r))
    decreases |r|
  {
    hide Outranks, Before, Queue, Take;
    if r != [] {
      var m := Merge(r);
      MergeCons(r);
      var a := Best(r);
      MergeTakesWinners(Take(r, a));
      assert m[1..] == Merge(Take(r, a));
      forall u: nat, v: nat | Waits(m, u, v)
        ensures Outranks(m[u], m[v])
      {
        if u == 0 {
          FirstTaken(r, v);
        } else {
          WaitsShifts(m, u - 1, v - 1);
          assert m[1..][u - 1] == m[u] && m[1..][v - 1] == m[v];
        }
      }
    }
  }

  lemma WinnerIsBest(m: seq<Pending>, r: seq<Pending>)
    requires m != [] && SameQueues(m, r) && TakesWinners(m)
    ensures r != [] && m[0] == Queue(r, m[0].submitter)[0] && Best(r) == m[0].submitter
  {
    hide Outranks, Before;
    var a := m[0].submitter;
    NonEmptyQueue(m, m[0]);
    QueueCons(m, a);
    forall b: Address | b != a && Queue(r, b) != []
      ensures Before(m[0], Queue(r, b)[0])
    {
      var v := FirstOf(m, b);
      assert Waits(m, 0, v);
      RankInFields(m[0], m[v]);
    }
    assert IsBest(r, a);
    BestIsUnique(r, Best(r), a);
  }

  lemma NothingQueued(r: seq<Pending>)
    requires SameQueues([], r)
    ensures r == []
  {
    if r != [] {
      NonEmptyQueue(r, r[0]);
    }
  }

  lemma {:induction false} WinnersAreMerge(m: seq<Pending>, r: seq<Pending>)
    requires SameQueues(m, r) && TakesWinners(m)
    ensures m == Merge(r)
    decreases |m|
  {
    hide Outranks, Before;
    if m == [] {
      NothingQueued(r);
    } else {
      WinnerIsBest(m, r);
      var a := m[0].submitter;
      MergeCons(r);
      forall b: Address
        ensures Queue(m[1..], b) == Queue(Take(r, a), b)
      {
        QueueCons(m, b);
        QueueOfTake(r, a, b);
      }
      forall u: nat, v: nat | Waits(m[1..], u, v)
        ensures Outranks(m[1..][u], m[1..][v])
      {
        WaitsShifts(m, u, v);
      }
      WinnersAreMerge(m[1..], Take(r, a));
      assert m == [m[0]] + m[1..];
    }
  }

  /** The merge is the one interleaving in which whatever is taken outranks every other submitter's next intent. */
  lemma MergeTakesWinnersExactly(r: seq<Pending>, m: seq<Pending>)
    ensures m == Merge(r) <==> SameQueues(m, r) && TakesWinners(m)
  {
    hide TakesWinners;
    if m == Merge(r) {
      MergeTakesWinners(r);
      forall b: Address {
        QueueOfMerge(r, b);
      }
    }
    if SameQueues(m, r) && TakesWinners(m) {
      WinnersAreMerge(m, r);
    }
  }
}
