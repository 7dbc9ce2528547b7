/**
 * One ordering domain: the merge of its nonce-sorted queues
 * (`order_domain`, src/sequencer.rs).
 */
module Domains {
  import opened Intents
  import opened Seqs
  import opened Buffers
  import opened Ordering

  // ----- the stable sort by nonce -----

  predicate NonceSorted(s: seq<Pending>) {
    forall i, j :: 0 <= i < j < |s| ==> s[i].nonce <= s[j].nonce
  }

  function Insert(p: Pending, s: seq<Pending>): seq<Pending> {
    if s == [] || p.nonce <= s[0].nonce then [p] + s else [s[0]] + Insert(p, s[1..])
  }

  /** `sort_by_key(|p| p.nonce)`: equal nonces keep their arrival order. */
  function StableSort(s: seq<Pending>): seq<Pending> {
    if s == [] then [] else Insert(s[0], StableSort(s[1..]))
  }

  lemma {:induction false} InsertElements(p: Pending, s: seq<Pending>)
    ensures multiset(Insert(p, s)) == multiset{p} + multiset(s)
  {
    if !(s == [] || p.nonce <= s[0].nonce) {
      InsertElements(p, s[1..]);
      assert s == [s[0]] + s[1..];
    }
  }

  lemma {:induction false} InsertSorted(p: Pending, s: seq<Pending>)
    requires NonceSorted(s)
    ensures NonceSorted(Insert(p, s))
  {
    if !(s == [] || p.nonce <= s[0].nonce) {
      InsertSorted(p, s[1..]);
      InsertElements(p, s[1..]);
      forall q | q in Insert(p, s[1..])
        ensures s[0].nonce <= q.nonce
      {
        assert q in multiset(Insert(p, s[1..]));
      }
    }
  }

  lemma {:induction false} StableSortSorts(s: seq<Pending>)
    ensures NonceSorted(StableSort(s)) && multiset(StableSort(s)) == multiset(s)
  {
    if s != [] {
      StableSortSorts(s[1..]);
      InsertSorted(s[0], StableSort(s[1..]));
      InsertElements(s[0], StableSort(s[1..]));
      assert s == [s[0]] + s[1..];
    }
  }

  lemma {:induction false} FilterOfInsert(f: Selector, p: Pending, s: seq<Pending>)
    requires NonceSorted(s)
    ensures Filter(f, Insert(p, s)) == if f.Keeps(p) then Insert(p, Filter(f, s)) else Filter(f, s)
  {
    if s == [] || p.nonce <= s[0].nonce {
      assert ([p] + s)[1..] == s;
      var t := Filter(f, s);
      if t != [] {
        assert t[0] in t;
      }
    } else {
      FilterOfInsert(f, p, s[1..]);
      var rest := Insert(p, s[1..]);
      assert ([s[0]] + rest)[1..] == rest;
      if f.Keeps(s[0]) {
        assert Filter(f, s) == [s[0]] + Filter(f, s[1..]);
        assert Filter(f, s)[1..] == Filter(f, s[1..]);
      }
    }
  }

  lemma StableSortCons(p: Pending, s: seq<Pending>)
    ensures StableSort([p] + s) == Insert(p, StableSort(s))
  {
    assert ([p] + s)[1..] == s;
  }

  /** Sorting a part is the part of the sort. */
  lemma {:induction false} FilterOfStableSort(f: Selector, s: seq<Pending>)
    ensures Filter(f, StableSort(s)) == StableSort(Filter(f, s))
  {
    if s != [] {
      FilterOfStableSort(f, s[1..]);
      StableSortSorts(s[1..]);
      FilterOfInsert(f, s[0], StableSort(s[1..]));
      if f.Keeps(s[0]) {
        StableSortCons(s[0], Filter(f, s[1..]));
      }
    }
  }

  lemma {:induction false} SortedIsFixed(s: seq<Pending>)
    requires NonceSorted(s)
    ensures StableSort(s) == s
  {
    if s != [] {
      SortedIsFixed(s[1..]);
    }
  }

  ghost predicate IsStableSort(t: seq<Pending>, s: seq<Pending>) {
    NonceSorted(t) && forall n: nat :: Filter(WithNonce(n), t) == Filter(WithNonce(n), s)
  }

  lemma FilterTail(f: Selector, t: seq<Pending>, u: seq<Pending>)
    requires t != [] && u != [] && t[0] == u[0] && Filter(f, t) == Filter(f, u)
    ensures Filter(f, t[1..]) == Filter(f, u[1..])
  {
    if f.Keeps(t[0]) {
      assert Filter(f, t)[1..] == Filter(f, t[1..]) && Filter(f, u)[1..] == Filter(f, u[1..]);
    }
  }

  lemma SameHead(t: seq<Pending>, u: seq<Pending>)
    requires NonceSorted(t) && IsStableSort(u, t)
    ensures t == [] <==> u == []
    ensures t != [] ==> t[0] == u[0]
  {
    if t != [] {
      FilterKeeps(WithNonce(t[0].nonce), t, t[0]);
      assert Filter(WithNonce(t[0].nonce), u)[0] in u;
    }
    if u != [] {
      FilterKeeps(WithNonce(u[0].nonce), u, u[0]);
      assert Filter(WithNonce(u[0].nonce), t)[0] in t;
    }
  }

  lemma {:induction false} StableSortUnique(t: seq<Pending>, u: seq<Pending>)
    requires NonceSorted(t) && IsStableSort(u, t)
    ensures t == u
  {
    SameHead(t, u);
    if t != [] {
      forall n: nat
        ensures Filter(WithNonce(n), t[1..]) == Filter(WithNonce(n), u[1..])
      {
        FilterTail(WithNonce(n), t, u);
      }
      StableSortUnique(t[1..], u[1..]);
    }
  }

  lemma SortKeepsNonceGroups(s: seq<Pending>, n: nat)
    ensures Filter(WithNonce(n), StableSort(s)) == Filter(WithNonce(n), s)
  {
    FilterOfStableSort(WithNonce(n), s);
    var g := Filter(WithNonce(n), s);
    forall i, j | 0 <= i < j < |g|
      ensures g[i].nonce <= g[j].nonce
    {
      assert g[i] in g && g[j] in g;
    }
    SortedIsFixed(g);
  }

  /** What the library sort promises pins it down: sorted, and equal keys as they came. */
  lemma StableSortCharacterised(s: seq<Pending>, t: seq<Pending>)
    ensures t == StableSort(s) <==> IsStableSort(t, s)
  {
    StableSortSorts(s);
    forall n: nat
      ensures Filter(WithNonce(n), StableSort(s)) == Filter(WithNonce(n), s)
    {
      SortKeepsNonceGroups(s, n);
    }
    if IsStableSort(t, s) {
      StableSortUnique(StableSort(s), t);
    }
  }

  // ----- one domain -----

  function DomainOrder(s: seq<Pending>): seq<Pending> {
    Merge(StableSort(s))
  }

  predicate DistinctNonces(s: seq<Pending>) {
    forall i, j :: 0 <= i < j < |s| && s[i].submitter == s[j].submitter && s[i].market == s[j].market
      ==> s[i].nonce != s[j].nonce
  }

  predicate OneMarket(s: seq<Pending>) {
    forall i, j :: 0 <= i < j < |s| ==> s[i].market == s[j].market
  }

  lemma DistinctNoncesOfPermutation(s: seq<Pending>, l: seq<Pending>)
    requires DistinctNonces(s) && multiset(l) == multiset(s)
    ensures DistinctNonces(l)
  {
    forall i, j | 0 <= i < j < |l| && l[i].submitter == l[j].submitter && l[i].market == l[j].market
      ensures l[i].nonce != l[j].nonce
    {
      if l[i] == l[j] {
        TwiceCounts(l, i, j);
        var u, v := CountsTwice(s, l[i]);
      } else {
        assert l[i] in multiset(s) && l[j] in multiset(s);
      }
    }
  }

  lemma OneMarketOfPermutation(s: seq<Pending>, l: seq<Pending>)
    requires OneMarket(s) && multiset(l) == multiset(s)
    ensures OneMarket(l)
  {
    forall i, j | 0 <= i < j < |l|
      ensures l[i].market == l[j].market
    {
      assert l[i] in multiset(s) && l[j] in multiset(s);
    }
  }

  lemma SmallBag(x: seq<Pending>, y: seq<Pending>)
    requires |x| <= 1 && multiset(x) == multiset(y)
    ensures x == y
  {
    assert |multiset(x)| == |x| && |multiset(y)| == |y|;
    if |x| == 1 {
      assert x[0] in multiset(x) && x[0] in multiset(y);
    }
  }

  lemma NonceOnce(s: seq<Pending>, a: Address, n: nat)
    requires DistinctNonces(s) && OneMarket(s)
    ensures |Filter(WithNonce(n), Queue(s, a))| <= 1
  {
    var x := Queue(s, a);
    if |Filter(WithNonce(n), x)| > 1 {
      var u, v := PairFromFilter(WithNonce(n), x, 0, 1);
      assert x[u] in x && x[v] in x && x[u].nonce == n == x[v].nonce by {
        assert Filter(WithNonce(n), x)[0] in Filter(WithNonce(n), x);
        assert Filter(WithNonce(n), x)[1] in Filter(WithNonce(n), x);
      }
      var i, j := PairFromFilter(From(a), s, u, v);
      assert false;
    }
  }

  lemma SameNonceGroups(s: seq<Pending>, t: seq<Pending>, a: Address, n: nat)
    requires DistinctNonces(s) && OneMarket(s) && multiset(s) == multiset(t)
    ensures Filter(WithNonce(n), Queue(s, a)) == Filter(WithNonce(n), Queue(t, a))
  {
    var f, g := Filter(WithNonce(n), Queue(s, a)), Filter(WithNonce(n), Queue(t, a));
    NonceOnce(s, a, n);
    forall p
      ensures multiset(f)[p] == multiset(g)[p]
    {
      FilterCount(WithNonce(n), Queue(s, a), p);
      FilterCount(WithNonce(n), Queue(t, a), p);
      FilterCount(From(a), s, p);
      FilterCount(From(a), t, p);
    }
    SmallBag(f, g);
  }

  /** Sorted by nonce, a queue of distinct nonces does not depend on how it arrived. */
  lemma SortedQueueDetermined(s: seq<Pending>, t: seq<Pending>, a: Address)
    requires DistinctNonces(s) && OneMarket(s) && multiset(s) == multiset(t)
    ensures Queue(StableSort(s), a) == Queue(StableSort(t), a)
  {
    var x, y := Queue(s, a), Queue(t, a);
    StableSortCharacterised(x, StableSort(x));
    forall n: nat
      ensures Filter(WithNonce(n), StableSort(x)) == Filter(WithNonce(n), y)
    {
      SameNonceGroups(s, t, a, n);
    }
    StableSortCharacterised(y, StableSort(x));
    FilterOfStableSort(From(a), s);
    FilterOfStableSort(From(a), t);
  }

  /** The domain is a function of the set buffered, not of its arrival order. */
  lemma DomainDeterministic(s: seq<Pending>, t: seq<Pending>)
    requires DistinctNonces(s) && OneMarket(s) && multiset(s) == multiset(t)
    ensures DomainOrder(s) == DomainOrder(t)
  {
    forall a: Address
      ensures Queue(StableSort(s), a) == Queue(StableSort(t), a)
    {
      SortedQueueDetermined(s, t, a);
    }
    MergeSeesQueues(StableSort(s), StableSort(t));
  }

  predicate NonceOrdered(l: seq<Pending>) {
    forall i, j :: 0 <= i < j < |l| && l[i].submitter == l[j].submitter ==> l[i].nonce < l[j].nonce
  }

  /** The orders the policy admits: permutations that keep each submitter's nonce order. */
  ghost predicate LegalOrder(l: seq<Pending>, s: seq<Pending>) {
    multiset(l) == multiset(s) && NonceOrdered(l)
  }

  lemma KeepingQueuesIsLegal(s: seq<Pending>, l: seq<Pending>)
    requires DistinctNonces(s) && OneMarket(s) && SameQueues(l, StableSort(s))
    ensures LegalOrder(l, s)
  {
    StableSortSorts(s);
    forall p: Pending
      ensures multiset(l)[p] == multiset(s)[p]
    {
      FilterCount(From(p.submitter), l, p);
      FilterCount(From(p.submitter), StableSort(s), p);
      assert Queue(l, p.submitter) == Queue(StableSort(s), p.submitter);
    }
    DistinctNoncesOfPermutation(s, l);
    OneMarketOfPermutation(s, l);
    forall i, j | 0 <= i < j < |l| && l[i].submitter == l[j].submitter
      ensures l[i].nonce < l[j].nonce
    {
      var a := l[i].submitter;
      var u, v := PairInFilter(From(a), l, i, j);
      assert Queue(l, a) == Queue(StableSort(s), a);
      var i', j' := PairFromFilter(From(a), StableSort(s), u, v);
    }
  }

  lemma LegalKeepsQueues(s: seq<Pending>, l: seq<Pending>)
    requires DistinctNonces(s) && OneMarket(s) && LegalOrder(l, s)
    ensures SameQueues(l, StableSort(s))
  {
    forall a: Address
      ensures Queue(l, a) == Queue(StableSort(s), a)
    {
      forall u, v | 0 <= u < v < |Queue(l, a)|
        ensures Queue(l, a)[u].nonce <= Queue(l, a)[v].nonce
      {
        var i, j := PairFromFilter(From(a), l, u, v);
      }
      SortedIsFixed(Queue(l, a));
      FilterOfStableSort(From(a), l);
      SortedQueueDetermined(s, l, a);
    }
  }

  /** Among all legal orders, the least by rank: what a domain's order is, without saying how it is found. */
  ghost predicate IsLeastLegal(m: seq<Pending>, s: seq<Pending>) {
    LegalOrder(m, s) && forall l :: LegalOrder(l, s) ==> l == m || LexBefore(m, l)
  }

  /** Greedy optimality: `order_domain` is the one lexicographically least legal order. */
  lemma DomainOptimal(s: seq<Pending>, m: seq<Pending>)
    requires DistinctNonces(s) && OneMarket(s)
    ensures m == DomainOrder(s) <==> IsLeastLegal(m, s)
  {
    forall l
      ensures LegalOrder(l, s) <==> SameQueues(l, StableSort(s))
    {
      if LegalOrder(l, s) {
        LegalKeepsQueues(s, l);
      }
      if SameQueues(l, StableSort(s)) {
        KeepingQueuesIsLegal(s, l);
      }
    }
    MergeCharacterised(StableSort(s), m);
  }

  predicate RanksFollowNonces(s: seq<Pending>) {
    forall p, q :: p in s && q in s && p.submitter == q.submitter && p.nonce < q.nonce ==> Before(p, q)
  }

  /** The domain is the flat sort by rank exactly when no submitter's ranks run against its nonces. */
  lemma DomainIsFlatExactly(s: seq<Pending>)
    requires DistinctNonces(s) && OneMarket(s)
    ensures InRankOrder(DomainOrder(s)) <==> RanksFollowNonces(s)
  {
    var t := StableSort(s);
    StableSortSorts(s);
    DistinctNoncesOfPermutation(s, t);
    OneMarketOfPermutation(s, t);
    forall p
      ensures p in s <==> p in t
    {
      assert p in multiset(s) <==> p in multiset(t);
    }
    assert RanksFollowNonces(s) ==> RanksFollowQueues(t);
    if RanksFollowQueues(t) {
      forall p, q | p in s && q in s && p.submitter == q.submitter && p.nonce < q.nonce
        ensures Before(p, q)
      {
        var u :| 0 <= u < |t| && t[u] == p;
        var v :| 0 <= v < |t| && t[v] == q;
      }
    }
    FlatSortExactly(t);
  }

  lemma DomainElements(s: seq<Pending>)
    ensures multiset(DomainOrder(s)) == multiset(s)
  {
    StableSortSorts(s);
    MergeElements(StableSort(s));
  }

  /** Removing submitters leaves everyone else's relative order as it was. */
  lemma DomainIndependent(gone: set<Address>, s: seq<Pending>)
    ensures DomainOrder(Without(gone, s)) == Without(gone, DomainOrder(s))
  {
    FilterOfStableSort(NotFrom(gone), s);
    MergeIndependent(gone, StableSort(s));
  }

  // ----- raising a bid -----

  /** One submitter's intent at one nonce on one market, put differently. */
  predicate SamePlaceInLine(p: Pending, p': Pending) {
    p'.submitter == p.submitter && p'.nonce == p.nonce && p'.market == p.market
  }

  lemma {:induction false} InsertRaised(q: Pending, s: seq<Pending>, j: nat, p': Pending) returns (k: nat)
    requires j < |s| && p'.nonce == s[j].nonce
    ensures k < |Insert(q, s)| && Insert(q, s)[k] == s[j] && Insert(q, s[j := p']) == Insert(q, s)[k := p']
  {
    if q.nonce <= s[0].nonce {
      k := j + 1;
    } else if j == 0 {
      k := 0;
      assert s[0 := p'][1..] == s[1..];
    } else {
      k := InsertRaised(q, s[1..], j - 1, p');
      assert s[j := p'][1..] == s[1..][j - 1 := p'];
      k := k + 1;
    }
  }

  lemma {:induction false} InsertReplaced(p: Pending, p': Pending, s: seq<Pending>) returns (k: nat)
    requires p'.nonce == p.nonce
    ensures k < |Insert(p, s)| && Insert(p, s)[k] == p && Insert(p', s) == Insert(p, s)[k := p']
  {
    if s == [] || p.nonce <= s[0].nonce {
      k := 0;
    } else {
      k := InsertReplaced(p, p', s[1..]);
      k := k + 1;
    }
  }

  lemma {:induction false} StableSortRaised(s: seq<Pending>, i: nat, p': Pending) returns (k: nat)
    requires i < |s| && p'.nonce == s[i].nonce
    ensures k < |StableSort(s)| && StableSort(s)[k] == s[i] && StableSort(s[i := p']) == StableSort(s)[k := p']
  {
    if i == 0 {
      assert s[0 := p'][1..] == s[1..];
      k := InsertReplaced(s[0], p', StableSort(s[1..]));
    } else {
      assert s[i := p'][1..] == s[1..][i - 1 := p'];
      var j := StableSortRaised(s[1..], i - 1, p');
      k := InsertRaised(s[0], StableSort(s[1..]), j, p');
    }
  }

  lemma QueueAround(r: seq<Pending>, i: nat, p: Pending, b: Address)
    requires i < |r|
    ensures b == p.submitter ==> Queue(r[i := p], b) == Queue(r[..i], b) + ([p] + Queue(r[i + 1..], b))
    ensures b != p.submitter ==> Queue(r[i := p], b) == Queue(r[..i], b) + Queue(r[i + 1..], b)
  {
    assert r[i := p] == r[..i] + ([p] + r[i + 1..]);
    FilterConcat(From(b), r[..i], [p] + r[i + 1..]);
    assert ([p] + r[i + 1..])[1..] == r[i + 1..];
  }

  lemma QueueRaised(r: seq<Pending>, i: nat, p': Pending) returns (k: nat)
    requires i < |r| && p'.submitter == r[i].submitter && Before(p', r[i])
    ensures Raised(r, r[i := p'], p'.submitter, k)
    ensures Queue(r, p'.submitter)[k] == r[i] && Queue(r[i := p'], p'.submitter)[k] == p'
  {
    k := |Queue(r[..i], p'.submitter)|;
    assert r[i := r[i]] == r;
    forall b: Address
      ensures b != p'.submitter ==> Queue(r[i := p'], b) == Queue(r, b)
    {
      QueueAround(r, i, r[i], b);
      QueueAround(r, i, p', b);
    }
    QueueAround(r, i, r[i], p'.submitter);
    QueueAround(r, i, p', p'.submitter);
  }

  lemma OnlyPlace(m: seq<Pending>, u: nat, v: nat)
    requires DistinctNonces(m) && u < |m| && v < |m| && m[u] == m[v]
    ensures u == v
  {
  }

  lemma DomainPlace(s: seq<Pending>, a: Address, k: nat, u: nat)
    requires DistinctNonces(s) && k < |Queue(StableSort(s), a)|
    requires u < |DomainOrder(s)| && DomainOrder(s)[u] == Queue(StableSort(s), a)[k]
    ensures u == Place(StableSort(s), a, k)
  {
    PlaceLocates(StableSort(s), a, k);
    DomainElements(s);
    DistinctNoncesOfPermutation(s, DomainOrder(s));
    OnlyPlace(DomainOrder(s), u, Place(StableSort(s), a, k));
  }

  lemma RankedHigherNeverLater(s: seq<Pending>, i: nat, p': Pending, u: nat, v: nat)
    requires DistinctNonces(s) && i < |s| && SamePlaceInLine(s[i], p') && Before(p', s[i])
    requires u < |DomainOrder(s)| && DomainOrder(s)[u] == s[i]
    requires v < |DomainOrder(s[i := p'])| && DomainOrder(s[i := p'])[v] == p'
    ensures v <= u
  {
    var raised := s[i := p'];
    var j := StableSortRaised(s, i, p');
    var k := QueueRaised(StableSort(s), j, p');
    var a := p'.submitter;
    RaisedNeverLater(StableSort(s), StableSort(raised), a, k);
    DomainPlace(s, a, k, u);
    assert DistinctNonces(raised);
    DomainPlace(raised, a, k, v);
  }

  /** Bidding strictly more never moves an intent later in its domain, whatever id and arrival the new bid has. */
  lemma RaisedBidNeverLater(s: seq<Pending>, i: nat, p': Pending, u: nat, v: nat)
    requires DistinctNonces(s) && i < |s| && SamePlaceInLine(s[i], p') && p'.priorityFee > s[i].priorityFee
    requires u < |DomainOrder(s)| && DomainOrder(s)[u] == s[i]
    requires v < |DomainOrder(s[i := p'])| && DomainOrder(s[i := p'])[v] == p'
    ensures v <= u
  {
    RankedHigherNeverLater(s, i, p', u, v);
  }

  /** Nor does arriving earlier at the same bid. */
  lemma EarlierArrivalNeverLater(s: seq<Pending>, i: nat, p': Pending, u: nat, v: nat)
    requires DistinctNonces(s) && i < |s| && SamePlaceInLine(s[i], p')
    requires p'.priorityFee == s[i].priorityFee && p'.receivedAt < s[i].receivedAt
    requires u < |DomainOrder(s)| && DomainOrder(s)[u] == s[i]
    requires v < |DomainOrder(s[i := p'])| && DomainOrder(s[i := p'])[v] == p'
    ensures v <= u
  {
    RankedHigherNeverLater(s, i, p', u, v);
  }

  // ----- the policy, in the fields of the intents -----

  /**
   * A domain is in its order if and only if each submitter's nonces are, and whatever is taken
   * bids more than every other submitter's next intent, or as much and arrived earlier, or has the
   * smaller id.
   */
  lemma DomainTakesWinners(s: seq<Pending>, m: seq<Pending>)
    requires DistinctNonces(s) && OneMarket(s)
    ensures m == DomainOrder(s) <==> LegalOrder(m, s) && TakesWinners(m)
  {
    hide TakesWinners, LegalOrder;
    MergeTakesWinnersExactly(StableSort(s), m);
    if LegalOrder(m, s) {
      LegalKeepsQueues(s, m);
    }
    if SameQueues(m, StableSort(s)) {
      KeepingQueuesIsLegal(s, m);
    }
  }

  /** In particular, of two neighbours of different submitters the first outranks the second. */
  lemma NeighboursRank(s: seq<Pending>, u: nat)
    requires u + 1 < |DomainOrder(s)| && DomainOrder(s)[u].submitter != DomainOrder(s)[u + 1].submitter
    ensures Outranks(DomainOrder(s)[u], DomainOrder(s)[u + 1])
  {
    hide Outranks, StableSort, Merge;
    MergeTakesWinners(StableSort(s));
    assert Waits(DomainOrder(s), u, u + 1);
  }
}
