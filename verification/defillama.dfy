/** The DeFiLlama overview scraper: global TVL, the top yield pools and the
    stablecoin supply, each from its own request, gathered into one record. */
module DefiLlama {
  import opened Wrappers
  import opened Seqs
  import opened Ranking
  import opened Http

  /** A yield pool as the API reports it; an absent field is `None`. */
  datatype Pool = Pool(
    project: Option<string>,
    symbol: Option<string>,
    chain: Option<string>,
    apy: Option<real>,
    tvlUsd: Option<real>)

  /** One row of the `yields` list. */
  datatype YieldRow = YieldRow(
    project: Option<string>,
    symbol: Option<string>,
    chain: Option<string>,
    apy: Option<real>,
    tvl: Option<real>)

  /** The record `scrape` returns. */
  datatype Overview = Overview(tvl: real, yieldRows: seq<YieldRow>, stablecoins: real)

  /** Pools at or below this TVL are not listed. */
  const MinPoolTvl: real := 1000000.0

  /** The values, a missing one counting as 0. */
  function OrZero(xs: seq<Option<real>>): (ys: seq<real>)
    ensures |ys| == |xs|
    ensures forall i :: 0 <= i < |xs| ==> ys[i] == xs[i].GetOr(0.0)
  {
    seq(|xs|, i requires 0 <= i < |xs| => xs[i].GetOr(0.0))
  }

  /** The sum of the values, a missing one counting as 0. */
  function Total(xs: seq<Option<real>>): real {
    Sum(OrZero(xs))
  }

  /** Appending a value adds it to the total; a missing one adds nothing. */
  lemma TotalSnoc(xs: seq<Option<real>>, x: Option<real>)
    ensures Total(xs + [x]) == Total(xs) + x.GetOr(0.0)
  {
    assert OrZero(xs + [x])[..|xs|] == OrZero(xs);
  }

  /** The pool is large enough to be listed. */
  predicate Large(p: Pool) {
    p.tvlUsd.GetOr(0.0) > MinPoolTvl
  }

  /** Sort key: APY descending, a missing APY counting as 0. */
  function ApyKey(p: Pool): Rank {
    Rank(0, p.apy.GetOr(0.0))
  }

  function RowOf(p: Pool): YieldRow {
    YieldRow(p.project, p.symbol, p.chain, p.apy, p.tvlUsd)
  }

  /** The listed pools: the large ones by APY, highest first, at most `limit`. */
  function TopPools(pools: seq<Pool>, limit: int): seq<Pool> {
    Prefix(SortByRank(Filter(pools, Large), ApyKey), limit)
  }

  /** The `yields` list (field `yieldRows`): one row per listed pool. */
  function Yields(pools: seq<Pool>, limit: int): (rows: seq<YieldRow>)
    ensures |rows| == |TopPools(pools, limit)|
    ensures forall i :: 0 <= i < |rows| ==> rows[i] == RowOf(TopPools(pools, limit)[i])
  {
    var top := TopPools(pools, limit);
    seq(|top|, i requires 0 <= i < |top| => RowOf(top[i]))
  }

  /** `scrape`: the three requests in order. A non-200 status leaves its field
      at the default; an exception leaves its field and every later one at the
      default. The record always comes back as a one-element list. */
  function Scrape(chains: Response<seq<Option<real>>>, pools: Response<seq<Pool>>,
                  stables: Response<seq<Option<real>>>, limit: int): (out: seq<Overview>)
    ensures |out| == 1
  {
    var start := Overview(0.0, [], 0.0);
    if chains.Failed? then [start]
    else
      var r1 := if IsOk(chains) then start.(tvl := Total(chains.body)) else start;
      if pools.Failed? then [r1]
      else
        var r2 := if IsOk(pools) then r1.(yieldRows := Yields(pools.body, limit)) else r1;
        if stables.Failed? then [r2]
        else [if IsOk(stables) then r2.(stablecoins := Total(stables.body)) else r2]
  }

  /** tvl is the total of the chains' TVLs on a 200 response and 0 otherwise. */
  lemma TvlRule(chains: Response<seq<Option<real>>>, pools: Response<seq<Pool>>,
                stables: Response<seq<Option<real>>>, limit: int)
    ensures Scrape(chains, pools, stables, limit)[0].tvl ==
            if IsOk(chains) then Total(chains.body) else 0.0
  {
  }

  /** The yield rows are the listed pools on a 200 response to the pools
      request, when the chains request did not raise; otherwise none. */
  lemma YieldsRule(chains: Response<seq<Option<real>>>, pools: Response<seq<Pool>>,
                   stables: Response<seq<Option<real>>>, limit: int)
    ensures Scrape(chains, pools, stables, limit)[0].yieldRows ==
            if !chains.Failed? && IsOk(pools) then Yields(pools.body, limit) else []
  {
  }

  /** The stablecoin figure is the total of the pegged-USD supplies on a 200
      response, when neither earlier request raised; otherwise 0. */
  lemma StablecoinsRule(chains: Response<seq<Option<real>>>, pools: Response<seq<Pool>>,
                        stables: Response<seq<Option<real>>>, limit: int)
    ensures Scrape(chains, pools, stables, limit)[0].stablecoins ==
            if !chains.Failed? && !pools.Failed? && IsOk(stables) then Total(stables.body) else 0.0
  {
  }

  /** An exception on a request leaves every later field at its default. */
  lemma FailureStopsLaterSteps(chains: Response<seq<Option<real>>>, pools: Response<seq<Pool>>,
                               stables: Response<seq<Option<real>>>, limit: int)
    ensures chains.Failed? ==> Scrape(chains, pools, stables, limit) == [Overview(0.0, [], 0.0)]
    ensures pools.Failed? ==> Scrape(chains, pools, stables, limit)[0].yieldRows == []
    ensures pools.Failed? || stables.Failed? ==> Scrape(chains, pools, stables, limit)[0].stablecoins == 0.0
  {
  }

  /** The listed pools are large ones from the response, ordered by APY
      (highest first), at most `limit` of them, and as many as there are large
      pools when `limit` allows. */
  lemma TopPoolsRule(pools: seq<Pool>, limit: int)
    requires limit >= 0
    ensures var top := TopPools(pools, limit);
            var large := Filter(pools, Large);
            (forall p :: p in top ==> p in pools && Large(p)) &&
            |top| == (if limit < |large| then limit else |large|) &&
            SortedByRank(top, ApyKey)
  {
    var large := Filter(pools, Large);
    var sorted := SortByRank(large, ApyKey);
    var top := TopPools(pools, limit);
    SortIsSorted(large, ApyKey);
    assert top == sorted[..|top|];
    forall p | p in top ensures p in pools && Large(p) {
      assert p in multiset(sorted);
    }
    forall i, j | 0 <= i < j < |top| ensures RankLe(ApyKey(top[i]), ApyKey(top[j])) {
      assert top[i] == sorted[i] && top[j] == sorted[j];
    }
  }

  /** Pools with equal APY keep their response order. */
  lemma TopPoolsStable(pools: seq<Pool>, k: Rank)
    ensures Filter(SortByRank(Filter(pools, Large), ApyKey), SameRank(ApyKey, k)) ==
            Filter(Filter(pools, Large), SameRank(ApyKey, k))
  {
    SortIsStable(Filter(pools, Large), ApyKey, k);
  }

  /** Every large pool is listed when `limit` covers them all. */
  lemma AllLargePoolsListed(pools: seq<Pool>, limit: int, p: Pool)
    requires limit >= |Filter(pools, Large)|
    requires p in pools && Large(p)
    ensures p in TopPools(pools, limit)
  {
    var large := Filter(pools, Large);
    assert p in multiset(large);
  }

  /** A missing supply figure adds nothing to the stablecoin total. */
  lemma MissingSupplyAddsNothing(pegged: seq<Option<real>>)
    ensures Total(pegged + [None]) == Total(pegged)
  {
    TotalSnoc(pegged, None);
  }

  /** `scrape` as written: the record is updated field by field, and an
      exception returns it as it stands. */
  method ScrapeOverview(chains: Response<seq<Option<real>>>, pools: Response<seq<Pool>>,
                        stables: Response<seq<Option<real>>>, limit: int)
    returns (out: seq<Overview>)
    ensures out == Scrape(chains, pools, stables, limit)
  {
    var results := Overview(0.0, [], 0.0);
    if chains.Failed? {
      return [results];
    }
    if chains.status == 200 {
      var total := 0.0;
      for i := 0 to |chains.body|
        invariant total == Total(chains.body[..i])
      {
        TotalSnoc(chains.body[..i], chains.body[i]);
        assert chains.body[..i + 1] == chains.body[..i] + [chains.body[i]];
        total := total + chains.body[i].GetOr(0.0);
      }
      assert chains.body[..|chains.body|] == chains.body;
      results := results.(tvl := total);
    }
    if pools.Failed? {
      return [results];
    }
    if pools.status == 200 {
      results := results.(yieldRows := Yields(pools.body, limit));
    }
    if stables.Failed? {
      return [results];
    }
    if stables.status == 200 {
      var total := 0.0;
      for i := 0 to |stables.body|
        invariant total == Total(stables.body[..i])
      {
        TotalSnoc(stables.body[..i], stables.body[i]);
        assert stables.body[..i + 1] == stables.body[..i] + [stables.body[i]];
        total := total + stables.body[i].GetOr(0.0);
      }
      assert stables.body[..|stables.body|] == stables.body;
      results := results.(stablecoins := total);
    }
    return [results];
  }
}
