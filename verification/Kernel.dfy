/** The ordering kernel as it runs: maps of queues, pushed, sorted and popped (src/sequencer.rs). */
module Kernel {
  import opened Intents
  import opened Buffers
  import opened Ordering
  import opened Domains
  import opened Slots
  import opened Guarantees

  type Queues = map<Address, seq<Pending>>

  /** The map holds exactly the non-empty queues of `r`. */
  ghost predicate Holds(queues: Queues, r: seq<Pending>) {
    (forall a: Address :: a in queues <==> Queue(r, a) != []) &&
    (forall a: Address :: a in queues ==> queues[a] == Queue(r, a))
  }

  method GroupBySubmitter(intents: seq<Pending>) returns (queues: Queues)
    ensures Holds(queues, intents)
  {
    queues := map[];
    for i := 0 to |intents|
      invariant Holds(queues, intents[..i])
    {
      var p := intents[i];
      assert intents[..i + 1] == intents[..i] + [p];
      forall a: Address
        ensures Queue(intents[..i + 1], a)
             == if p.submitter == a then Queue(intents[..i], a) + [p] else Queue(intents[..i], a)
      {
        QueueSnoc(intents[..i], p, a);
      }
      var q := if p.submitter in queues then queues[p.submitter] else [];
      queues := queues[p.submitter := q + [p]];
    }
    assert intents[..|intents|] == intents;
  }

  lemma SortedQueue(r: seq<Pending>, a: Address)
    ensures Queue(StableSort(r), a) == StableSort(Queue(r, a))
    ensures Queue(r, a) == [] <==> StableSort(Queue(r, a)) == []
  {
    FilterOfStableSort(From(a), r);
    StableSortSorts(Queue(r, a));
    assert |multiset(StableSort(Queue(r, a)))| == |multiset(Queue(r, a))|;
  }

  method SortQueues(grouped: Queues, ghost r: seq<Pending>) returns (queues: Queues)
    requires Holds(grouped, r)
    ensures Holds(queues, StableSort(r))
  {
    queues := grouped;
    var todo := grouped.Keys;
    while todo != {}
      invariant queues.Keys == grouped.Keys && todo <= grouped.Keys
      invariant forall a: Address :: a in grouped ==>
        queues[a] == if a in todo then grouped[a] else StableSort(grouped[a])
      decreases |todo|
    {
      var a :| a in todo;
      queues := queues[a := StableSort(queues[a])];
      todo := todo - {a};
    }
    forall a: Address
      ensures Queue(StableSort(r), a) == StableSort(Queue(r, a))
      ensures Queue(r, a) == [] <==> StableSort(Queue(r, a)) == []
    {
      SortedQueue(r, a);
    }
  }

  /** The linear scan over the heads, in whatever order the map is walked. */
  method WinningHead(queues: Queues, ghost r: seq<Pending>) returns (a: Address)
    requires Holds(queues, r) && queues != map[]
    ensures r != [] && a == Best(r) && a in queues
  {
    a :| a in queues;
    var todo := queues.Keys - {a};
    while todo != {}
      invariant todo <= queues.Keys && a in queues && a !in todo
      invariant forall b: Address :: b in queues && b != a && b !in todo ==> Before(queues[a][0], queues[b][0])
      decreases |todo|
    {
      var b :| b in todo;
      todo := todo - {b};
      BeforeTotal(queues[a][0], queues[b][0]);
      if Before(queues[b][0], queues[a][0]) {
        forall c: Address | c in queues && c != a && c != b && c !in todo
          ensures Before(queues[b][0], queues[c][0])
        {
          BeforeTransitive(queues[b][0], queues[a][0], queues[c][0]);
        }
        a := b;
      }
    }
    assert Queue(r, a) != [];
    BestIsUnique(r, a, Best(r));
  }

  /** Pop the head of one queue; an emptied queue leaves the map. */
  function Pop(queues: Queues, a: Address): Queues
    requires a in queues && queues[a] != []
  {
    if queues[a][1..] == [] then queues - {a} else queues[a := queues[a][1..]]
  }

  lemma PopHolds(queues: Queues, r: seq<Pending>, a: Address)
    requires Holds(queues, r) && a in queues
    ensures Holds(Pop(queues, a), Take(r, a))
  {
    forall b: Address
      ensures Queue(Take(r, a), b) == if a == b then Queue(r, a)[1..] else Queue(r, b)
    {
      QueueOfTake(r, a, b);
    }
  }

  method MergeQueues(sorted: Queues, ghost r: seq<Pending>) returns (out: seq<IntentId>)
    requires Holds(sorted, r)
    ensures out == Ids(Merge(r))
  {
    var queues := sorted;
    ghost var rest := r;
    out := [];
    while queues != map[]
      invariant Holds(queues, rest)
      invariant out + Ids(Merge(rest)) == Ids(Merge(r))
      decreases |rest|
    {
      var a := WinningHead(queues, rest);
      MergeCons(rest);
      IdsAppend(out, [queues[a][0]], Merge(Take(rest, a)));
      assert Ids([queues[a][0]]) == [queues[a][0].id];
      PopHolds(queues, rest, a);
      out := out + [queues[a][0].id];
      queues := Pop(queues, a);
      rest := Take(rest, a);
    }
    assert rest == [];
  }

  method OrderDomain(intents: seq<Pending>) returns (out: seq<IntentId>)
    ensures out == Ids(DomainOrder(intents))
  {
    var grouped := GroupBySubmitter(intents);
    var sorted := SortQueues(grouped, intents);
    out := MergeQueues(sorted, StableSort(intents));
  }

  // ----- domains -----

  ghost predicate HoldsDomains(domains: map<Market, seq<Pending>>, s: seq<Pending>) {
    (forall m: Market :: m in domains <==> Filter(In(m), s) != []) &&
    (forall m: Market :: m in domains ==> domains[m] == Filter(In(m), s))
  }

  method GroupByMarket(pending: seq<Pending>) returns (domains: map<Market, seq<Pending>>)
    ensures HoldsDomains(domains, pending)
  {
    domains := map[];
    for i := 0 to |pending|
      invariant HoldsDomains(domains, pending[..i])
    {
      var p := pending[i];
      assert pending[..i + 1] == pending[..i] + [p];
      forall m: Market
        ensures Filter(In(m), pending[..i + 1])
             == if p.market == m then Filter(In(m), pending[..i]) + [p] else Filter(In(m), pending[..i])
      {
        FilterConcat(In(m), pending[..i], [p]);
      }
      var d := if p.market in domains then domains[p.market] else [];
      domains := domains[p.market := d + [p]];
    }
    assert pending[..|pending|] == pending;
  }

  /** The ordered map's first key. */
  method FirstMarket(domains: map<Market, seq<Pending>>, ghost s: seq<Pending>) returns (m: Market)
    requires HoldsDomains(domains, s) && domains != map[]
    ensures s != [] && m == MinMarket(s) && m in domains
  {
    m :| m in domains;
    MarketTotal(m, m);
    var todo := domains.Keys - {m};
    while todo != {}
      invariant todo <= domains.Keys && m in domains
      invariant forall n: Market :: n in domains && n !in todo ==> !MarketLess(n, m)
      decreases |todo|
    {
      var n :| n in todo;
      todo := todo - {n};
      MarketTotal(m, n);
      if MarketLess(n, m) {
        forall o: Market | o in domains && o !in todo
          ensures !MarketLess(o, n)
        {
          if o == n {
            MarketTotal(n, n);
          } else {
            MarketTransitive(n, m, o);
          }
        }
        m := n;
      }
    }
    assert Filter(In(m), s)[0] in s;
    FilterKeeps(In(MinMarket(s)), s, (var p :| p in s && p.market == MinMarket(s); p));
    MarketTotal(m, MinMarket(s));
  }

  lemma NextDomains(domains: map<Market, seq<Pending>>, s: seq<Pending>, m: Market)
    requires HoldsDomains(domains, s)
    ensures HoldsDomains(domains - {m}, Filter(NotIn(m), s))
  {
    forall n: Market
      ensures Filter(In(n), Filter(NotIn(m), s)) == if m == n then [] else Filter(In(n), s)
    {
      if m == n {
        FilterNone(In(n), Filter(NotIn(m), s));
      } else {
        FilterSubsumes(In(n), NotIn(m), s);
      }
    }
  }

  method OrderSlot(pending: seq<Pending>) returns (out: seq<IntentId>)
    ensures out == Ids(SlotOrder(pending))
  {
    var domains := GroupByMarket(pending);
    ghost var rest := pending;
    out := [];
    while domains != map[]
      invariant HoldsDomains(domains, rest)
      invariant out + Ids(SlotOrder(rest)) == Ids(SlotOrder(pending))
      decreases |rest|
    {
      var m := FirstMarket(domains, rest);
      var ordered := OrderDomain(domains[m]);
      SlotCons(rest);
      IdsAppend(out, DomainOrder(Filter(In(m), rest)), SlotOrder(Filter(NotIn(m), rest)));
      NextDomains(domains, rest, m);
      out := out + ordered;
      domains := domains - {m};
      rest := Filter(NotIn(m), rest);
    }
    if rest != [] {
      FilterKeeps(In(rest[0].market), rest, rest[0]);
    }
  }

  // ----- the guarantee window -----

  /** The misses recorded at a slot close, as (id, deadline). */
  function Misses(g: GuaranteeConfig, dead: seq<Pending>): seq<(IntentId, nat)> {
    seq(|dead|, i requires 0 <= i < |dead| => (dead[i].id, g.DeadlineFor(dead[i].receivedAt)))
  }

  lemma PartitionStep(buffer: seq<Pending>, i: nat, now: nat, g: GuaranteeConfig)
    requires i < |buffer|
    ensures var p, w := buffer[i], g.WindowSize();
      var live, dead := Filter(Live(w, now), buffer[..i]), Filter(Dead(w, now), buffer[..i]);
      && Filter(Live(w, now), buffer[..i + 1]) == (if now <= g.DeadlineFor(p.receivedAt) then live + [p] else live)
      && Misses(g, Filter(Dead(w, now), buffer[..i + 1]))
         == if now <= g.DeadlineFor(p.receivedAt) then Misses(g, dead)
            else Misses(g, dead) + [(p.id, g.DeadlineFor(p.receivedAt))]
  {
    var p, w := buffer[i], g.WindowSize();
    assert buffer[..i + 1] == buffer[..i] + [p];
    FilterConcat(Live(w, now), buffer[..i], [p]);
    FilterConcat(Dead(w, now), buffer[..i], [p]);
    var dead := Filter(Dead(w, now), buffer[..i]);
    assert Misses(g, dead + [p]) == Misses(g, dead) + [(p.id, g.DeadlineFor(p.receivedAt))];
  }

  method PartitionExpired(buffer: seq<Pending>, now: nat, g: GuaranteeConfig)
    returns (keep: seq<Pending>, expired: seq<(IntentId, nat)>)
    ensures keep == Filter(Live(g.WindowSize(), now), buffer)
    ensures expired == Misses(g, Filter(Dead(g.WindowSize(), now), buffer))
  {
    keep, expired := [], [];
    for i := 0 to |buffer|
      invariant keep == Filter(Live(g.WindowSize(), now), buffer[..i])
      invariant expired == Misses(g, Filter(Dead(g.WindowSize(), now), buffer[..i]))
    {
      PartitionStep(buffer, i, now, g);
      var p := buffer[i];
      var deadline := g.DeadlineFor(p.receivedAt);
      if deadline < now {
        expired := expired + [(p.id, deadline)];
      } else {
        keep := keep + [p];
      }
    }
    assert buffer[..|buffer|] == buffer;
  }
}
