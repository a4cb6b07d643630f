/** The web researcher: looks for warning words in the titles of search results
    about a ticker and grades the risk. */
module Researcher {
  import opened Wrappers
  import opened Seqs
  import opened Text
  import opened WebSearch

  datatype RiskLevel = Unknown | Low | Medium | High

  /** The verdict `verify_signal` returns. */
  datatype Research = Research(verified: bool, risk: RiskLevel, notes: string)

  const RiskKeywords: seq<string> := ["scam", "rug", "exploit", "honeypot", "steal", "drain"]

  const WarningPrefix := "Found warning in title: "

  /** The ticker without its `$`, followed by the words of the risk query. */
  function RiskQuery(ticker: string): string {
    RemoveChar(ticker, '$') + " token crypto scam rug pull"
  }

  function NewsQuery(ticker: string): string {
    RemoveChar(ticker, '$') + " crypto token news"
  }

  /** The lower-cased title, an absent one reading as "". */
  function LowTitle(res: SearchResult): string {
    Lower(res.title.GetOr(""))
  }

  /** One warning for each of `words` found in the result's title. */
  function TitleWarnings(res: SearchResult, words: seq<string>): (ws: seq<string>)
    ensures |ws| <= |words|
  {
    if words == [] then []
    else TitleWarnings(res, words[..|words| - 1]) +
         (if Contains(LowTitle(res), words[|words| - 1]) then [WarningPrefix + Shown(res.title)] else [])
  }

  /** The warnings of all results, result by result. */
  function Warnings(results: seq<SearchResult>): seq<string> {
    if results == [] then []
    else Warnings(results[..|results| - 1]) + TitleWarnings(results[|results| - 1], RiskKeywords)
  }

  /** `verify_signal`: unavailable without a search client; HIGH risk with the
      first two warnings when any title holds a risk word, and then the news
      search is not made; MEDIUM when neither search finds anything; LOW
      otherwise; an exception fails open as UNKNOWN. */
  function VerifySignal(available: bool, ticker: string, search: Engine): Research {
    if !available then Research(true, Unknown, "Researcher unavailable")
    else match search(RiskQuery(ticker), 3)
      case SearchFailed(e) => Research(true, Unknown, "Error: " + e)
      case Found(results) =>
        var warnings := Warnings(results);
        if warnings != [] then Research(false, High, Join(Prefix(warnings, 2), "; "))
        else match search(NewsQuery(ticker), 2)
          case SearchFailed(e) => Research(true, Unknown, "Error: " + e)
          case Found(news) =>
            if results == [] && news == [] then Research(true, Medium, "No web presence found")
            else Research(true, Low, "No immediate red flags found on web")
  }

  /** A title holds a risk word exactly when its result yields a warning. */
  lemma {:induction false} TitleWarningsRule(res: SearchResult, words: seq<string>)
    ensures TitleWarnings(res, words) != [] <==> exists w :: w in words && Contains(LowTitle(res), w)
  {
    if words != [] {
      var front := words[..|words| - 1];
      TitleWarningsRule(res, front);
      assert forall w :: w in words <==> w in front || w == words[|words| - 1];
    }
  }

  /** The result's lower-cased title holds a risk word. */
  predicate Warns(res: SearchResult) {
    exists w :: w in RiskKeywords && Contains(LowTitle(res), w)
  }

  /** There is a warning exactly when some result's title holds some risk
      word. */
  lemma {:induction false} WarningsRule(results: seq<SearchResult>)
    ensures Warnings(results) != [] <==> exists i :: 0 <= i < |results| && Warns(results[i])
  {
    if results != [] {
      var n := |results| - 1;
      WarningsRule(results[..n]);
      TitleWarningsRule(results[n], RiskKeywords);
      assert forall i :: 0 <= i < n ==> results[..n][i] == results[i];
    }
  }

  /** The empty title holds no risk word, so a result without a title never
      warns. */
  lemma UntitledNeverWarns(res: SearchResult)
    requires res.title.None?
    ensures TitleWarnings(res, RiskKeywords) == []
  {
    TitleWarningsRule(res, RiskKeywords);
    forall w | w in RiskKeywords ensures !Contains(LowTitle(res), w) {
      EmptyContainsNothing(w);
    }
  }

  lemma EmptyContainsNothing(w: string)
    requires w != []
    ensures !Contains("", w)
  {
    assert !OccursAt("", w, 0);
  }

  /** Bodies play no part: results with the same titles give the same
      warnings. */
  lemma {:induction false} BodiesAreIgnored(a: seq<SearchResult>, b: seq<SearchResult>)
    requires |a| == |b| && forall i :: 0 <= i < |a| ==> a[i].title == b[i].title
    ensures Warnings(a) == Warnings(b)
  {
    if a != [] {
      var n := |a| - 1;
      BodiesAreIgnored(a[..n], b[..n]);
      TitlesDecide(a[n], b[n], RiskKeywords);
    }
  }

  lemma {:induction false} TitlesDecide(x: SearchResult, y: SearchResult, words: seq<string>)
    requires x.title == y.title
    ensures TitleWarnings(x, words) == TitleWarnings(y, words)
  {
    if words != [] {
      TitlesDecide(x, y, words[..|words| - 1]);
    }
  }

  /** HIGH risk, and only HIGH risk, is unverified; it arises exactly when the
      risk search finds a warning, and then the notes are the first two
      warnings and the news search plays no part. */
  lemma HighRiskRule(available: bool, ticker: string, search: Engine, other: Engine)
    requires other(RiskQuery(ticker), 3) == search(RiskQuery(ticker), 3)
    ensures var r := VerifySignal(available, ticker, search);
            (!r.verified <==> r.risk == High) &&
            (r.risk == High <==> available && search(RiskQuery(ticker), 3).Found? &&
                                 Warnings(search(RiskQuery(ticker), 3).results) != []) &&
            (r.risk == High ==> r.notes == Join(Prefix(Warnings(search(RiskQuery(ticker), 3).results), 2), "; ") &&
                                VerifySignal(available, ticker, other) == r)
  {
  }

  /** Without warnings, MEDIUM means both searches came back empty. */
  lemma MediumMeansNoPresence(available: bool, ticker: string, search: Engine)
    requires VerifySignal(available, ticker, search).risk == Medium
    ensures search(RiskQuery(ticker), 3) == Found([])
    ensures search(NewsQuery(ticker), 2) == Found([])
  {
  }

  /** The nested warning loop as written: for each result, for each risk word
      in its lower-cased title, one warning. */
  method FoundRisks(results: seq<SearchResult>) returns (found: seq<string>)
    ensures found == Warnings(results)
  {
    found := [];
    for i := 0 to |results|
      invariant found == Warnings(results[..i])
    {
      var res := results[i];
      var title := Lower(res.title.GetOr(""));
      assert results[..i + 1][..i] == results[..i];
      ghost var before := found;
      for k := 0 to |RiskKeywords|
        invariant found == before + TitleWarnings(res, RiskKeywords[..k])
      {
        assert RiskKeywords[..k + 1][..k] == RiskKeywords[..k];
        if Contains(title, RiskKeywords[k]) {
          found := found + [WarningPrefix + Shown(res.title)];
        }
      }
      assert RiskKeywords[..|RiskKeywords|] == RiskKeywords;
    }
    assert results[..|results|] == results;
  }

  /** `verify_signal` as written, with the warning loop. */
  method VerifySignalWith(available: bool, ticker: string, search: Engine) returns (r: Research)
    ensures r == VerifySignal(available, ticker, search)
  {
    if !available {
      return Research(true, Unknown, "Researcher unavailable");
    }
    var outcome := search(RiskQuery(ticker), 3);
    if outcome.SearchFailed? {
      return Research(true, Unknown, "Error: " + outcome.error);
    }
    var results := outcome.results;
    var found := FoundRisks(results);
    if found != [] {
      return Research(false, High, Join(Prefix(found, 2), "; "));
    }
    var news := search(NewsQuery(ticker), 2);
    if news.SearchFailed? {
      return Research(true, Unknown, "Error: " + news.error);
    }
    if results == [] && news.results == [] {
      return Research(true, Medium, "No web presence found");
    }
    return Research(true, Low, "No immediate red flags found on web");
  }
}
