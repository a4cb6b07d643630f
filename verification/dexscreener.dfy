/** The DexScreener search scraper: keeps the pairs whose base symbol is the
    query, orders them by chain priority and liquidity, and turns the first
    `limit` of them into result entries. */
module DexScreener {
  import opened Wrappers
  import opened Seqs
  import opened Text
  import opened Ranking
  import opened Http

  /** A trading pair as the search API reports it; an absent field is `None`. */
  datatype Pair = Pair(
    symbol: Option<string>,
    name: Option<string>,
    tokenAddress: Option<string>,
    chainId: Option<string>,
    liquidityUsd: Option<real>,
    priceUsd: Option<string>,
    url: Option<string>,
    imageUrl: Option<string>,
    fdv: Option<real>,
    pairAddress: Option<string>,
    h1: Option<real>,
    h6: Option<real>,
    h24: Option<real>,
    buys: Option<int>,
    sells: Option<int>)

  datatype PriceChange = PriceChange(h1: real, h6: real, h24: real)

  /** One result entry. */
  datatype Entry = Entry(
    platform: string,
    ticker: Option<string>,
    name: Option<string>,
    logo: Option<string>,
    price: Option<string>,
    priceChange: PriceChange,
    buys: int,
    sells: int,
    url: Option<string>,
    chainId: Option<string>,
    tokenAddress: Option<string>,
    liquidity: Option<real>,
    fdv: Option<real>,
    pairAddress: Option<string>)

  /** The pair's base symbol matches the query, ignoring case; a missing
      symbol reads as "". */
  predicate Matches(query: string, p: Pair) {
    Upper(p.symbol.GetOr("")) == Upper(query)
  }

  /** Rank of a chain: solana, ethereum, base and bsc first, in that order,
      every other chain after them. */
  function ChainPriority(chain: string): (prio: int)
    ensures 1 <= prio <= 4 || prio == 99
    ensures Lower(chain) == "solana" ==> prio == 1
    ensures Lower(chain) == "ethereum" ==> prio == 2
    ensures Lower(chain) == "base" ==> prio == 3
    ensures Lower(chain) == "bsc" ==> prio == 4
    ensures prio == 99 <==> Lower(chain) !in {"solana", "ethereum", "base", "bsc"}
  {
    var c := Lower(chain);
    if c == "solana" then 1
    else if c == "ethereum" then 2
    else if c == "base" then 3
    else if c == "bsc" then 4
    else 99
  }

  /** Liquidity in USD, a missing value counting as 0. */
  function Liquidity(p: Pair): real {
    p.liquidityUsd.GetOr(0.0)
  }

  /** The sort key: chain priority ascending, then liquidity descending. */
  function SortKey(p: Pair): Rank {
    Rank(ChainPriority(p.chainId.GetOr("")), Liquidity(p))
  }

  /** The entry built from one pair; missing price changes and transaction
      counts default to 0. */
  function EntryOf(p: Pair): Entry {
    Entry("dexscreener", p.symbol, p.name, p.imageUrl, p.priceUsd,
          PriceChange(p.h1.GetOr(0.0), p.h6.GetOr(0.0), p.h24.GetOr(0.0)),
          p.buys.GetOr(0), p.sells.GetOr(0),
          p.url, p.chainId, p.tokenAddress, p.liquidityUsd, p.fdv, p.pairAddress)
  }

  /** `_process_pairs`: one entry for each of the first `limit` pairs. */
  function Process(pairs: seq<Pair>, limit: int): (entries: seq<Entry>)
    ensures |entries| == |Prefix(pairs, limit)|
    ensures forall i :: 0 <= i < |entries| ==> entries[i] == EntryOf(pairs[i])
  {
    var kept := Prefix(pairs, limit);
    seq(|kept|, i requires 0 <= i < |kept| => EntryOf(kept[i]))
  }

  /** The pairs matching the query, in response order. */
  function Kept(query: string, pairs: seq<Pair>): seq<Pair> {
    Filter(pairs, p => Matches(query, p))
  }

  /** The kept pairs after the stable sort on `SortKey`. */
  function Ranked(query: string, pairs: seq<Pair>): seq<Pair> {
    SortByRank(Kept(query, pairs), SortKey)
  }

  /** `scrape`: the entries of the best `limit` matching pairs on a 200
      response, and nothing on any other status or on an exception. */
  function Scrape(query: string, limit: int, response: Response<seq<Pair>>): seq<Entry> {
    match response
    case Failed(_) => []
    case Response(status, pairs) =>
      if status == 200 then Process(Ranked(query, pairs), limit) else []
  }

  /** `get_token_boosts`: the decoded body on a 200 response, else nothing. */
  function TokenBoosts<T>(response: Response<seq<T>>): (boosts: seq<T>)
    ensures boosts != [] ==> IsOk(response)
    ensures IsOk(response) ==> boosts == response.body
  {
    if IsOk(response) then response.body else []
  }

  /** A kept pair matches the query and every matching pair is kept. */
  lemma KeptAreExactlyMatches(query: string, pairs: seq<Pair>, p: Pair)
    ensures p in Kept(query, pairs) <==> p in pairs && Matches(query, p)
  {
  }

  /** A pair without a symbol never matches a non-empty query. */
  lemma MissingSymbolNeverMatches(query: string, p: Pair)
    requires p.symbol.None? && query != []
    ensures !Matches(query, p)
  {
    assert |Upper(query)| > 0;
  }

  /** On a 200 response the output holds min(limit, matches) entries, each
      built from the pair at the same place in the ranked list. */
  lemma ScrapeTakesBestPairs(query: string, limit: int, pairs: seq<Pair>)
    requires limit >= 0
    ensures var out := Scrape(query, limit, Response(200, pairs));
            var kept := Kept(query, pairs);
            |out| == (if limit < |kept| then limit else |kept|) &&
            forall i :: 0 <= i < |out| ==> out[i] == EntryOf(Ranked(query, pairs)[i])
  {
  }

  /** The ranked pairs are ordered by chain priority, then by descending
      liquidity, and any prefix of them is too. */
  lemma RankedIsOrdered(query: string, pairs: seq<Pair>, limit: int)
    ensures SortedByRank(Prefix(Ranked(query, pairs), limit), SortKey)
  {
    var ranked := Ranked(query, pairs);
    SortIsSorted(Kept(query, pairs), SortKey);
    var front := Prefix(ranked, limit);
    assert front == ranked[..|front|];
    forall i, j | 0 <= i < j < |front| ensures RankLe(SortKey(front[i]), SortKey(front[j])) {
      assert front[i] == ranked[i] && front[j] == ranked[j];
    }
  }

  /** Pairs with equal keys keep their response order. */
  lemma RankedIsStable(query: string, pairs: seq<Pair>, k: Rank)
    ensures Filter(Ranked(query, pairs), SameRank(SortKey, k)) ==
            Filter(Kept(query, pairs), SameRank(SortKey, k))
  {
    SortIsStable(Kept(query, pairs), SortKey, k);
  }

  /** The ranked list holds exactly the kept pairs. */
  lemma RankedIsPermutation(query: string, pairs: seq<Pair>)
    ensures multiset(Ranked(query, pairs)) == multiset(Kept(query, pairs))
  {
  }

  /** A failed request or a non-200 status yields no entries. */
  lemma ErrorsYieldNothing(query: string, limit: int, response: Response<seq<Pair>>)
    requires response.Failed? || response.status != 200
    ensures Scrape(query, limit, response) == []
  {
  }

  /** Missing price changes and transaction counts read as 0 in the entry. */
  lemma MissingMetricsAreZero(p: Pair)
    requires p.h1.None? && p.h6.None? && p.h24.None? && p.buys.None? && p.sells.None?
    ensures EntryOf(p).priceChange == PriceChange(0.0, 0.0, 0.0)
    ensures EntryOf(p).buys == 0 && EntryOf(p).sells == 0
  {
  }

  /** `_process_pairs` as written: an append loop over `pairs[:limit]`. */
  method ProcessPairs(pairs: seq<Pair>, limit: int) returns (results: seq<Entry>)
    ensures results == Process(pairs, limit)
  {
    var kept := Prefix(pairs, limit);
    results := [];
    for i := 0 to |kept|
      invariant results == Process(kept[..i], i)
    {
      assert kept[..i + 1][..i] == kept[..i];
      results := results + [EntryOf(kept[i])];
    }
    assert kept[..|kept|] == kept;
  }

  /** `scrape` as written: the filtering append loop, the in-place sort, then
      `_process_pairs`. */
  method ScrapePairs(query: string, limit: int, response: Response<seq<Pair>>)
    returns (results: seq<Entry>)
    ensures results == Scrape(query, limit, response)
  {
    if response.Failed? || response.status != 200 {
      return [];
    }
    var pairs := response.body;
    var keep := p => Matches(query, p);
    var filtered: seq<Pair> := [];
    for k := 0 to |pairs|
      invariant filtered == Filter(pairs[..k], keep)
    {
      FilterAppend(pairs[..k], [pairs[k]], keep);
      assert pairs[..k + 1] == pairs[..k] + [pairs[k]];
      if Matches(query, pairs[k]) {
        filtered := filtered + [pairs[k]];
      }
    }
    assert pairs[..|pairs|] == pairs;
    filtered := SortByRank(filtered, SortKey);
    results := ProcessPairs(filtered, limit);
  }
}
