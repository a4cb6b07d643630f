/** The whale watcher: searches the web for the ticker next to each
    market-maker phrase and reports the results that mention the ticker. */
module WhaleWatcher {
  import opened Wrappers
  import opened Seqs
  import opened Text
  import opened WebSearch

  /** The market-maker phrases searched for, in order. */
  const MarketMakerKeywords: seq<string> := [
    "Wintermute investment",
    "Jump Crypto investment",
    "DWF Labs partnership",
    "Jane Street backing",
    "market maker accumulation",
    "whale buying"
  ]

  const MentionPrefix := "Found mention: "
  const AlertPrefix := "WHALE ALERT: "
  const NoAlert := "No obvious whale news."

  /** The ticker without its `$`. */
  function Clean(ticker: string): (c: string)
    ensures '$' !in c
  {
    RemoveChar(ticker, '$')
  }

  /** The result's lower-cased title or body contains the lower-cased ticker. */
  predicate MentionsTicker(clean: string, res: SearchResult) {
    Contains(Lower(res.title.GetOr("")), Lower(clean)) ||
    Contains(Lower(res.body.GetOr("")), Lower(clean))
  }

  /** The entry reported for a result that mentions the ticker. */
  function MentionEntry(res: SearchResult): string {
    MentionPrefix + Shown(res.title)
  }

  /** One entry for each result that mentions the ticker, in result order. */
  function Hits(clean: string, results: seq<SearchResult>): (hits: seq<string>)
    ensures |hits| <= |results|
  {
    if results == [] then []
    else Hits(clean, results[..|results| - 1]) +
         (var res := results[|results| - 1];
          if MentionsTicker(clean, res) then [MentionEntry(res)] else [])
  }

  /** The entries of the searches in keyword order, up to the first search
      that raised. */
  function Signals(clean: string, outcomes: seq<Search>): seq<string> {
    if outcomes == [] then []
    else match outcomes[0]
      case SearchFailed(_) => []
      case Found(results) => Hits(clean, results) + Signals(clean, outcomes[1..])
  }

  /** The query for one phrase. */
  function Query(clean: string, keyword: string): string {
    clean + " " + keyword
  }

  /** The outcome of each phrase's search, in keyword order. */
  function Outcomes(clean: string, search: Engine): (outs: seq<Search>)
    ensures |outs| == |MarketMakerKeywords|
    ensures forall k :: 0 <= k < |outs| ==> outs[k] == search(Query(clean, MarketMakerKeywords[k]), 2)
  {
    seq(|MarketMakerKeywords|, k requires 0 <= k < |MarketMakerKeywords| =>
      search(Query(clean, MarketMakerKeywords[k]), 2))
  }

  /** The report: the first three entries after the alert prefix, or the
      all-clear message when there are none. */
  function Alert(signals: seq<string>): string {
    if signals != [] then AlertPrefix + Join(Prefix(signals, 3), " | ") else NoAlert
  }

  /** `check_whale_activity`. */
  function CheckWhaleActivity(ticker: string, search: Engine): string {
    var clean := Clean(ticker);
    Alert(Signals(clean, Outcomes(clean, search)))
  }

  /** `analyze_holders`: a fixed placeholder whatever the holders. */
  function AnalyzeHolders<T>(holders: seq<T>): (r: string)
    ensures r == "Holder analysis pending API."
  {
    "Holder analysis pending API."
  }

  /** Every result that mentions the ticker yields one entry, `Found mention: `
      followed by that result's title, and no other result yields one; the
      entries keep the order of the results. */
  lemma {:induction false} HitsRule(clean: string, results: seq<SearchResult>)
    ensures var f := Filter(results, r => MentionsTicker(clean, r));
            Hits(clean, results) == seq(|f|, k requires 0 <= k < |f| => MentionEntry(f[k]))
  {
    var keep := r => MentionsTicker(clean, r);
    if results != [] {
      var n := |results| - 1;
      var last := results[n];
      HitsRule(clean, results[..n]);
      assert results == results[..n] + [last];
      FilterAppend(results[..n], [last], keep);
      assert [last][1..] == [];
      if keep(last) {
        EntriesSnoc(Filter(results[..n], keep), last);
      }
    }
  }

  /** The entries of `f + [x]` are those of `f` followed by the entry of `x`. */
  lemma EntriesSnoc(f: seq<SearchResult>, x: SearchResult)
    ensures seq(|f + [x]|, k requires 0 <= k < |f + [x]| => MentionEntry((f + [x])[k])) ==
            seq(|f|, k requires 0 <= k < |f| => MentionEntry(f[k])) + [MentionEntry(x)]
  {
  }

  /** The searches before a failure contribute their entries in order. */
  lemma {:induction false} SignalsSplit(clean: string, outcomes: seq<Search>, k: nat)
    requires k <= |outcomes|
    requires forall j :: 0 <= j < k ==> outcomes[j].Found?
    ensures Signals(clean, outcomes) == Signals(clean, outcomes[..k]) + Signals(clean, outcomes[k..])
  {
    if k > 0 {
      SignalsSplit(clean, outcomes[1..], k - 1);
      assert outcomes[1..][..k - 1] == outcomes[..k][1..];
      assert outcomes[1..][k - 1..] == outcomes[k..];
    }
  }

  /** A search that raises drops every later search but keeps the entries
      found before it. */
  lemma FailureKeepsEarlierEntries(clean: string, outcomes: seq<Search>, k: nat)
    requires k < |outcomes| && outcomes[k].SearchFailed?
    requires forall j :: 0 <= j < k ==> outcomes[j].Found?
    ensures Signals(clean, outcomes) == Signals(clean, outcomes[..k])
  {
    SignalsSplit(clean, outcomes, k);
  }

  /** An alert is raised exactly when there is an entry, and it lists at most
      the first three. */
  lemma AlertRule(signals: seq<string>)
    ensures Alert(signals) == NoAlert <==> signals == []
    ensures signals != [] ==> Alert(signals) == AlertPrefix + Join(signals[..if |signals| < 3 then |signals| else 3], " | ")
  {
    if signals != [] {
      assert Alert(signals)[..|AlertPrefix|] == AlertPrefix;
      assert NoAlert[..|AlertPrefix|] != AlertPrefix;
    }
  }

  lemma SignalsStep(clean: string, outcomes: seq<Search>, k: nat)
    requires k < |outcomes| && forall j :: 0 <= j <= k ==> outcomes[j].Found?
    ensures Signals(clean, outcomes[..k + 1]) ==
            Signals(clean, outcomes[..k]) + Hits(clean, outcomes[k].results)
  {
    SignalsSplit(clean, outcomes[..k + 1], k);
    assert outcomes[..k + 1][..k] == outcomes[..k];
    assert outcomes[..k + 1][k..] == [outcomes[k]];
  }

  /** The inner loop as written: one entry per result mentioning the ticker. */
  method MentionsIn(clean: string, results: seq<SearchResult>) returns (hits: seq<string>)
    ensures hits == Hits(clean, results)
  {
    hits := [];
    for r := 0 to |results|
      invariant hits == Hits(clean, results[..r])
    {
      assert results[..r + 1][..r] == results[..r];
      var res := results[r];
      if MentionsTicker(clean, res) {
        hits := hits + [MentionEntry(res)];
      }
    }
    assert results[..|results|] == results;
  }

  /** `check_whale_activity` as written: the keyword loop with its inner result
      loop, stopped by the first search that raises. */
  method CheckWhaleActivityLoop(ticker: string, search: Engine) returns (alert: string)
    ensures alert == CheckWhaleActivity(ticker, search)
  {
    var clean := Clean(ticker);
    ghost var outcomes := Outcomes(clean, search);
    var keywords := MarketMakerKeywords;
    var signals: seq<string> := [];
    var k := 0;
    while k < |keywords|
      invariant 0 <= k <= |keywords|
      invariant forall j :: 0 <= j < k ==> outcomes[j].Found?
      invariant signals == Signals(clean, outcomes[..k])
    {
      var outcome := search(Query(clean, keywords[k]), 2);
      assert outcome == outcomes[k];
      if outcome.SearchFailed? {
        break;
      }
      var hits := MentionsIn(clean, outcome.results);
      SignalsStep(clean, outcomes, k);
      signals := signals + hits;
      k := k + 1;
    }
    if k < |keywords| {
      FailureKeepsEarlierEntries(clean, outcomes, k);
    } else {
      assert outcomes[..k] == outcomes;
    }
    if signals != [] {
      alert := AlertPrefix + Join(Prefix(signals, 3), " | ");
    } else {
      alert := NoAlert;
    }
  }
}
