/** One slot: its domains laid out in market order (`order_slot`, src/sequencer.rs). */
module Slots {
  import opened Bytes
  import opened Intents
  import opened Buffers
  import opened Ordering
  import opened Domains

  predicate MarketLess(m: Market, n: Market) {
    Less(m.base, n.base) || (m.base == n.base && Less(m.quote, n.quote))
  }

  lemma MarketTotal(m: Market, n: Market)
    ensures MarketLess(m, n) || m == n || MarketLess(n, m)
    ensures !(MarketLess(m, n) && MarketLess(n, m)) && !MarketLess(m, m)
  {
    LessTotal(m.base, n.base);
    LessTotal(m.quote, n.quote);
  }

  lemma MarketTransitive(m: Market, n: Market, o: Market)
    requires !MarketLess(n, m) && !MarketLess(o, n)
    ensures !MarketLess(o, m)
  {
    MarketTotal(m, n);
    MarketTotal(n, o);
    if MarketLess(m, n) && MarketLess(n, o) {
      if Less(m.base, n.base) && Less(n.base, o.base) {
        LessTransitive(m.base, n.base, o.base);
      }
      if Less(m.quote, n.quote) && Less(n.quote, o.quote) {
        LessTransitive(m.quote, n.quote, o.quote);
      }
      assert MarketLess(m, o);
      MarketTotal(m, o);
    }
  }

  function MinMarket(s: seq<Pending>): (m: Market)
    requires s != []
    ensures exists p :: p in s && p.market == m
    ensures forall p :: p in s ==> !MarketLess(p.market, m)
  {
    MarketTotal(s[0].market, s[0].market);
    assert s[0] in s;
    if |s| == 1 then
      s[0].market
    else
      var m := MinMarket(s[1..]);
      MarketTotal(s[0].market, m);
      if MarketLess(s[0].market, m) then
        assert forall p :: p in s[1..] ==> !MarketLess(p.market, s[0].market) by {
          forall p | p in s[1..]
            ensures !MarketLess(p.market, s[0].market)
          {
            MarketTransitive(s[0].market, m, p.market);
          }
        }
        s[0].market
      else
        m
  }

  lemma {:induction false} FilterShrinks(m: Market, s: seq<Pending>)
    requires exists p :: p in s && p.market == m
    ensures |Filter(NotIn(m), s)| < |s|
  {
    if s[0].market != m {
      FilterShrinks(m, s[1..]);
    }
  }

  /** `order_slot`, on whole pending intents; the slot lists their ids. */
  function SlotOrder(s: seq<Pending>): seq<Pending>
    decreases |s|
  {
    if s == [] then
      []
    else
      var m := MinMarket(s);
      FilterShrinks(m, s);
      DomainOrder(Filter(In(m), s)) + SlotOrder(Filter(NotIn(m), s))
  }

  lemma SlotCons(s: seq<Pending>)
    requires s != []
    ensures |Filter(NotIn(MinMarket(s)), s)| < |s|
    ensures SlotOrder(s) == DomainOrder(Filter(In(MinMarket(s)), s)) + SlotOrder(Filter(NotIn(MinMarket(s)), s))
  {
    FilterShrinks(MinMarket(s), s);
  }

  lemma {:induction false} SlotElements(s: seq<Pending>)
    ensures multiset(SlotOrder(s)) == multiset(s)
    decreases |s|
  {
    if s != [] {
      var m := MinMarket(s);
      FilterShrinks(m, s);
      DomainElements(Filter(In(m), s));
      SlotElements(Filter(NotIn(m), s));
      forall p: Pending
        ensures multiset(SlotOrder(s))[p] == multiset(s)[p]
      {
        FilterCount(In(m), s, p);
        FilterCount(NotIn(m), s, p);
      }
    }
  }

  lemma InSlot(s: seq<Pending>, p: Pending)
    ensures p in SlotOrder(s) <==> p in s
  {
    SlotElements(s);
    assert p in multiset(SlotOrder(s)) <==> p in multiset(s);
  }

  lemma InDomain(s: seq<Pending>, p: Pending)
    ensures p in DomainOrder(s) <==> p in s
  {
    DomainElements(s);
    assert p in multiset(DomainOrder(s)) <==> p in multiset(s);
  }

  predicate MarketsAscend(o: seq<Pending>) {
    forall i, j :: 0 <= i < j < |o| ==> !MarketLess(o[j].market, o[i].market)
  }

  lemma {:induction false} SlotAscends(s: seq<Pending>)
    ensures MarketsAscend(SlotOrder(s))
    decreases |s|
  {
    if s != [] {
      var m := MinMarket(s);
      FilterShrinks(m, s);
      var d, rest := DomainOrder(Filter(In(m), s)), SlotOrder(Filter(NotIn(m), s));
      SlotAscends(Filter(NotIn(m), s));
      forall i, j | 0 <= i < j < |SlotOrder(s)|
        ensures !MarketLess(SlotOrder(s)[j].market, SlotOrder(s)[i].market)
      {
        MarketTotal(m, m);
        if i < |d| {
          InDomain(Filter(In(m), s), d[i]);
          if j < |d| {
            InDomain(Filter(In(m), s), d[j]);
          } else {
            InSlot(Filter(NotIn(m), s), rest[j - |d|]);
          }
        }
      }
    }
  }

  /** Each market's part of the slot is that domain's own order. */
  lemma {:induction false} SlotDomain(s: seq<Pending>, m: Market)
    ensures Filter(In(m), SlotOrder(s)) == DomainOrder(Filter(In(m), s))
    decreases |s|
  {
    if s != [] {
      var n := MinMarket(s);
      FilterShrinks(n, s);
      var d, rest := DomainOrder(Filter(In(n), s)), SlotOrder(Filter(NotIn(n), s));
      forall p
        ensures p in d ==> p.market == n
        ensures p in rest ==> p.market != n
      {
        InDomain(Filter(In(n), s), p);
        InSlot(Filter(NotIn(n), s), p);
      }
      FilterConcat(In(m), d, rest);
      if m == n {
        FilterAll(In(m), d);
        FilterNone(In(m), rest);
      } else {
        FilterNone(In(m), d);
        SlotDomain(Filter(NotIn(n), s), m);
        FilterSubsumes(In(m), NotIn(n), s);
      }
    }
  }

  ghost predicate SameDomains(o: seq<Pending>, u: seq<Pending>) {
    forall m: Market :: Filter(In(m), o) == Filter(In(m), u)
  }

  lemma SameFirst(o: seq<Pending>, u: seq<Pending>)
    requires MarketsAscend(o) && MarketsAscend(u) && SameDomains(o, u)
    ensures o == [] <==> u == []
    ensures o != [] ==> o[0] == u[0]
  {
    if o != [] {
      FilterKeeps(In(o[0].market), o, o[0]);
      assert Filter(In(o[0].market), u)[0] in u;
    }
    if u != [] {
      FilterKeeps(In(u[0].market), u, u[0]);
      assert Filter(In(u[0].market), o)[0] in o;
      MarketTotal(o[0].market, u[0].market);
    }
  }

  lemma {:induction false} AscendingUnique(o: seq<Pending>, u: seq<Pending>)
    requires MarketsAscend(o) && MarketsAscend(u) && SameDomains(o, u)
    ensures o == u
  {
    SameFirst(o, u);
    if o != [] {
      forall m: Market
        ensures Filter(In(m), o[1..]) == Filter(In(m), u[1..])
      {
        FilterTail(In(m), o, u);
      }
      AscendingUnique(o[1..], u[1..]);
    }
  }

  ghost predicate LaysOutDomains(o: seq<Pending>, s: seq<Pending>) {
    MarketsAscend(o) && forall m: Market :: Filter(In(m), o) == DomainOrder(Filter(In(m), s))
  }

  /** A slot is the one arrangement with markets ascending and every domain in its own order. */
  lemma SlotCharacterised(s: seq<Pending>, o: seq<Pending>)
    ensures o == SlotOrder(s) <==> LaysOutDomains(o, s)
  {
    SlotAscends(s);
    forall m: Market
      ensures Filter(In(m), SlotOrder(s)) == DomainOrder(Filter(In(m), s))
    {
      SlotDomain(s, m);
    }
    if LaysOutDomains(o, s) {
      AscendingUnique(o, SlotOrder(s));
    }
  }

  // ----- determinism -----

  lemma DomainOfDistinct(s: seq<Pending>, m: Market)
    requires DistinctNonces(s)
    ensures DistinctNonces(Filter(In(m), s)) && OneMarket(Filter(In(m), s))
  {
    var f := Filter(In(m), s);
    forall u, v | 0 <= u < v < |f|
      ensures f[u].market == f[v].market
      ensures f[u].submitter == f[v].submitter ==> f[u].nonce != f[v].nonce
    {
      assert f[u] in f && f[v] in f;
      var i, j := PairFromFilter(In(m), s, u, v);
    }
  }

  /** Determinism: the slot is a function of the buffered set, whatever order it was buffered in. */
  lemma SlotDeterministic(s: seq<Pending>, t: seq<Pending>)
    requires DistinctNonces(s) && multiset(s) == multiset(t)
    ensures SlotOrder(s) == SlotOrder(t)
  {
    forall m: Market
      ensures Filter(In(m), SlotOrder(s)) == DomainOrder(Filter(In(m), t))
    {
      DomainOfDistinct(s, m);
      forall p: Pending
        ensures multiset(Filter(In(m), s))[p] == multiset(Filter(In(m), t))[p]
      {
        FilterCount(In(m), s, p);
        FilterCount(In(m), t, p);
      }
      DomainDeterministic(Filter(In(m), s), Filter(In(m), t));
      SlotDomain(s, m);
    }
    SlotAscends(s);
    SlotCharacterised(t, SlotOrder(s));
  }

  /** Independence: removing submitters removes their intents from the slot and nothing else. */
  lemma SlotIndependent(gone: set<Address>, s: seq<Pending>)
    ensures Without(gone, SlotOrder(s)) == SlotOrder(Without(gone, s))
  {
    var o := Without(gone, SlotOrder(s));
    SlotAscends(s);
    forall u, v | 0 <= u < v < |o|
      ensures !MarketLess(o[v].market, o[u].market)
    {
      var i, j := PairFromFilter(NotFrom(gone), SlotOrder(s), u, v);
    }
    forall m: Market
      ensures Filter(In(m), o) == DomainOrder(Filter(In(m), Without(gone, s)))
    {
      FilterCommutes(In(m), NotFrom(gone), SlotOrder(s));
      FilterCommutes(In(m), NotFrom(gone), s);
      SlotDomain(s, m);
      DomainIndependent(gone, Filter(In(m), s));
    }
    SlotCharacterised(Without(gone, s), o);
  }

  // ----- nonce order -----

  /** Inside one slot a submitter's nonces ascend within each market. */
  lemma SlotNonceOrder(s: seq<Pending>, i: nat, j: nat)
    requires DistinctNonces(s) && i < j < |SlotOrder(s)|
    requires SlotOrder(s)[i].submitter == SlotOrder(s)[j].submitter
    requires SlotOrder(s)[i].market == SlotOrder(s)[j].market
    ensures SlotOrder(s)[i].nonce < SlotOrder(s)[j].nonce
  {
    var m := SlotOrder(s)[i].market;
    var d := Filter(In(m), s);
    var u, v := PairInFilter(In(m), SlotOrder(s), i, j);
    SlotDomain(s, m);
    DomainOfDistinct(s, m);
    DomainOptimal(d, DomainOrder(d));
  }

  predicate NoncesUnique(s: seq<Pending>) {
    forall i, j :: 0 <= i < j < |s| && s[i].submitter == s[j].submitter ==> s[i].nonce != s[j].nonce
  }

  predicate MarketsFollowNonces(s: seq<Pending>) {
    forall p, q :: p in s && q in s && p.submitter == q.submitter && p.nonce < q.nonce
      ==> !MarketLess(q.market, p.market)
  }

  lemma OrderedSlotFollows(s: seq<Pending>, p: Pending, q: Pending)
    requires NonceOrdered(SlotOrder(s)) && p in s && q in s && p.submitter == q.submitter && p.nonce < q.nonce
    ensures !MarketLess(q.market, p.market)
  {
    var o := SlotOrder(s);
    SlotAscends(s);
    InSlot(s, p);
    InSlot(s, q);
    var u :| 0 <= u < |o| && o[u] == p;
    var v :| 0 <= v < |o| && o[v] == q;
    MarketTotal(p.market, q.market);
  }

  lemma FollowingSlotIsOrdered(s: seq<Pending>, i: nat, j: nat)
    requires NoncesUnique(s) && MarketsFollowNonces(s)
    requires i < j < |SlotOrder(s)| && SlotOrder(s)[i].submitter == SlotOrder(s)[j].submitter
    ensures SlotOrder(s)[i].nonce < SlotOrder(s)[j].nonce
  {
    hide SlotOrder, MarketLess;
    var p, q := SlotOrder(s)[i], SlotOrder(s)[j];
    if p.market == q.market {
      SlotNonceOrder(s, i, j);
    } else {
      SlotAscends(s);
      MarketTotal(p.market, q.market);
      InSlot(s, p);
      InSlot(s, q);
    }
  }

  /**
   * A submitter's own nonces come out ascending across the whole slot exactly when no later
   * nonce of its names an earlier market: domains are laid out market by market.
   */
  lemma WholeSlotNonceOrderExactly(s: seq<Pending>)
    requires NoncesUnique(s)
    ensures NonceOrdered(SlotOrder(s)) <==> MarketsFollowNonces(s)
  {
    if NonceOrdered(SlotOrder(s)) {
      forall p, q | p in s && q in s && p.submitter == q.submitter && p.nonce < q.nonce
        ensures !MarketLess(q.market, p.market)
      {
        OrderedSlotFollows(s, p, q);
      }
    }
    if MarketsFollowNonces(s) {
      var o := SlotOrder(s);
      forall i, j | 0 <= i < j < |o| && o[i].submitter == o[j].submitter
        ensures o[i].nonce < o[j].nonce
      {
        FollowingSlotIsOrdered(s, i, j);
      }
    }
  }

  lemma LoneDomain(s: seq<Pending>)
    requires |s| <= 1
    ensures DomainOrder(s) == s
  {
    DomainElements(s);
    SmallBag(s, DomainOrder(s));
  }

  /** Two intents on different markets come out in market order, one submitter's own included, whatever its nonces. */
  lemma CrossMarketReverses(p: Pending, q: Pending)
    requires MarketLess(q.market, p.market)
    ensures SlotOrder([p, q]) == [q, p]
    ensures p.submitter == q.submitter && p.nonce < q.nonce ==> NoncesUnique([p, q]) && !NonceOrdered(SlotOrder([p, q]))
  {
    hide DomainOrder, SlotOrder;
    MarketTotal(p.market, q.market);
    forall m: Market
      ensures Filter(In(m), [q, p]) == DomainOrder(Filter(In(m), [p, q]))
    {
      assert [p, q] == [p] + [q] && [q, p] == [q] + [p];
      FilterConcat(In(m), [p], [q]);
      FilterConcat(In(m), [q], [p]);
      LoneDomain(Filter(In(m), [p, q]));
    }
    assert LaysOutDomains([q, p], [p, q]);
    SlotCharacterised([p, q], [q, p]);
    assert [q, p][0] == q && [q, p][1] == p;
  }

  // ----- the layout, in the fields of the intents -----

  lemma MarketInFields(m: Market, n: Market)
    ensures MarketLess(m, n) <==> Precedes(m.base, n.base) || (m.base == n.base && Precedes(m.quote, n.quote))
  {
    hide Less, Precedes;
    LessIsPrecedes(m.base, n.base);
    LessIsPrecedes(m.quote, n.quote);
  }

  /** Along a slot the base asset ascends, and the quote asset within one base. */
  lemma SlotAscendsInFields(s: seq<Pending>, u: nat, v: nat)
    requires u < v < |SlotOrder(s)|
    ensures var m, n := SlotOrder(s)[u].market, SlotOrder(s)[v].market;
      m == n || Precedes(m.base, n.base) || (m.base == n.base && Precedes(m.quote, n.quote))
  {
    hide SlotOrder, MarketLess, Precedes;
    var m, n := SlotOrder(s)[u].market, SlotOrder(s)[v].market;
    SlotAscends(s);
    MarketTotal(m, n);
    MarketInFields(m, n);
  }

  /** Of two neighbours on one market by different submitters, the first outranks the second. */
  lemma SlotNeighboursRank(s: seq<Pending>, u: nat)
    requires u + 1 < |SlotOrder(s)| && SlotOrder(s)[u].market == SlotOrder(s)[u + 1].market
    requires SlotOrder(s)[u].submitter != SlotOrder(s)[u + 1].submitter
    ensures Outranks(SlotOrder(s)[u], SlotOrder(s)[u + 1])
  {
    hide SlotOrder, DomainOrder, Outranks;
    var o := SlotOrder(s);
    var f := In(o[u].market);
    SlotDomain(s, o[u].market);
    FilterAt(f, o, u);
    FilterAt(f, o, u + 1);
    assert o[..u + 1] == o[..u] + [o[u]];
    FilterConcat(f, o[..u], [o[u]]);
    NeighboursRank(Filter(f, s), |Filter(f, o[..u])|);
  }

  // ----- a higher bid, seen from the slot -----

  lemma {:induction false} FilterRaised(f: Selector, s: seq<Pending>, i: nat, p': Pending) returns (k: nat)
    requires i < |s| && f.Keeps(s[i]) && f.Keeps(p')
    ensures k < |Filter(f, s)| && Filter(f, s)[k] == s[i] && Filter(f, s[i := p']) == Filter(f, s)[k := p']
  {
    if i == 0 {
      k := 0;
    } else {
      assert s[i := p'][1..] == s[1..][i - 1 := p'];
      k := FilterRaised(f, s[1..], i - 1, p');
      k := if f.Keeps(s[0]) then k + 1 else k;
    }
  }

  lemma {:induction false} FilterBlind(f: Selector, s: seq<Pending>, i: nat, p': Pending)
    requires i < |s| && !f.Keeps(s[i]) && !f.Keeps(p')
    ensures Filter(f, s[i := p']) == Filter(f, s)
  {
    if i > 0 {
      assert s[i := p'][1..] == s[1..][i - 1 := p'];
      FilterBlind(f, s[1..], i - 1, p');
    }
  }

  lemma SameMin(s: seq<Pending>, i: nat, p': Pending)
    requires i < |s| && p'.market == s[i].market
    ensures MinMarket(s[i := p']) == MinMarket(s)
  {
    var t := s[i := p'];
    var m, n := MinMarket(s), MinMarket(t);
    var p :| p in s && p.market == m;
    var j :| 0 <= j < |s| && s[j] == p;
    assert t[j].market == m && t[j] in t;
    var q :| q in t && q.market == n;
    var k :| 0 <= k < |t| && t[k] == q;
    assert s[k].market == n && s[k] in s;
    MarketTotal(m, n);
  }

  lemma RankedHigherFirstDomain(s: seq<Pending>, i: nat, p': Pending, u: nat, v: nat)
    requires DistinctNonces(s) && i < |s| && SamePlaceInLine(s[i], p') && Before(p', s[i])
    requires s[i].market == MinMarket(s)
    requires u < |SlotOrder(s)| && SlotOrder(s)[u] == s[i]
    requires v < |SlotOrder(s[i := p'])| && SlotOrder(s[i := p'])[v] == p'
    ensures v <= u
  {
    hide Before, DomainOrder, DistinctNonces;
    var t, m := s[i := p'], MinMarket(s);
    SameMin(s, i, p');
    SlotCons(s);
    SlotCons(t);
    var k := FilterRaised(In(m), s, i, p');
    InFirst(s, u);
    InFirst(t, v);
    DistinctFilter(In(m), s);
    RankedHigherNeverLater(Filter(In(m), s), k, p', u, v);
  }

  /** What sits in the first market of a slot sits in its first domain. */
  lemma InFirst(s: seq<Pending>, u: nat)
    requires s != [] && u < |SlotOrder(s)| && SlotOrder(s)[u].market == MinMarket(s)
    ensures var first := DomainOrder(Filter(In(MinMarket(s)), s)); u < |first| && first[u] == SlotOrder(s)[u]
  {
    hide DomainOrder;
    SlotCons(s);
    var first, rest := DomainOrder(Filter(In(MinMarket(s)), s)), SlotOrder(Filter(NotIn(MinMarket(s)), s));
    if u >= |first| {
      assert rest[u - |first|] in rest;
      InSlot(Filter(NotIn(MinMarket(s)), s), SlotOrder(s)[u]);
    }
  }

  lemma DomainLength(s: seq<Pending>)
    ensures |DomainOrder(s)| == |s|
  {
    DomainElements(s);
    assert |multiset(DomainOrder(s))| == |DomainOrder(s)| && |multiset(s)| == |s|;
  }

  /** And what does not sits in the rest of the slot, after that whole domain. */
  lemma InLater(s: seq<Pending>, u: nat)
    requires s != [] && u < |SlotOrder(s)| && SlotOrder(s)[u].market != MinMarket(s)
    ensures var n := |Filter(In(MinMarket(s)), s)|; var rest := SlotOrder(Filter(NotIn(MinMarket(s)), s));
      n <= u && u - n < |rest| && rest[u - n] == SlotOrder(s)[u]
  {
    hide DomainOrder, SlotOrder;
    SlotCons(s);
    var domain := Filter(In(MinMarket(s)), s);
    DomainLength(domain);
    if u < |domain| {
      assert DomainOrder(domain)[u] in DomainOrder(domain);
      InDomain(domain, DomainOrder(domain)[u]);
    }
  }

  lemma DistinctFilter(f: Selector, s: seq<Pending>)
    requires DistinctNonces(s)
    ensures DistinctNonces(Filter(f, s))
  {
    var t := Filter(f, s);
    forall u, v | 0 <= u < v < |t| && t[u].submitter == t[v].submitter && t[u].market == t[v].market
      ensures t[u].nonce != t[v].nonce
    {
      var i, j := PairFromFilter(f, s, u, v);
    }
  }

  lemma {:induction false} RankedHigherInSlot(s: seq<Pending>, i: nat, p': Pending, u: nat, v: nat)
    requires DistinctNonces(s) && i < |s| && SamePlaceInLine(s[i], p') && Before(p', s[i])
    requires u < |SlotOrder(s)| && SlotOrder(s)[u] == s[i]
    requires v < |SlotOrder(s[i := p'])| && SlotOrder(s[i := p'])[v] == p'
    ensures v <= u
    decreases |s|
  {
    hide Before, DistinctNonces, SlotOrder;
    var t, m := s[i := p'], MinMarket(s);
    SameMin(s, i, p');
    if s[i].market == m {
      RankedHigherFirstDomain(s, i, p', u, v);
    } else {
      SlotCons(s);
      InLater(s, u);
      InLater(t, v);
      FilterBlind(In(m), s, i, p');
      var k := FilterRaised(NotIn(m), s, i, p');
      DistinctFilter(NotIn(m), s);
      var n := |Filter(In(m), s)|;
      RankedHigherInSlot(Filter(NotIn(m), s), k, p', u - n, v - n);
    }
  }

  /** Bidding strictly more never moves an intent to a later index of its slot: what a receipt reports. */
  lemma RaisedBidNeverLaterInSlot(s: seq<Pending>, i: nat, p': Pending, u: nat, v: nat)
    requires DistinctNonces(s) && i < |s| && SamePlaceInLine(s[i], p') && p'.priorityFee > s[i].priorityFee
    requires u < |SlotOrder(s)| && SlotOrder(s)[u] == s[i]
    requires v < |SlotOrder(s[i := p'])| && SlotOrder(s[i := p'])[v] == p'
    ensures v <= u
  {
    RankedHigherInSlot(s, i, p', u, v);
  }
}
