/** The tweet listener: cashtag extraction with the pattern `$` followed by two
    to six upper-case letters and a word boundary, the capped tweet stream, and
    the ranking of the most mentioned tags. */
module Listener {
  import opened Wrappers
  import opened Seqs
  import opened Ranking

  predicate IsUpper(c: char) {
    'A' <= c <= 'Z'
  }

  /** A regular-expression word character (ASCII letters, digits and `_`). */
  predicate IsWordChar(c: char) {
    'A' <= c <= 'Z' || 'a' <= c <= 'z' || '0' <= c <= '9' || c == '_'
  }

  /** `\b` at position `j` of `s`: a word character on exactly one side. */
  predicate Boundary(s: string, j: nat)
    requires j <= |s|
  {
    (j > 0 && IsWordChar(s[j - 1])) != (j < |s| && IsWordChar(s[j]))
  }

  /** The pattern matches at `i` taking exactly `n` letters. */
  predicate MatchesWith(s: string, i: nat, n: nat) {
    2 <= n <= 6 && i + 1 + n <= |s| && s[i] == '$' &&
    (forall k :: i + 1 <= k < i + 1 + n ==> IsUpper(s[k])) &&
    Boundary(s, i + 1 + n)
  }

  /** The greedy letter count: the engine tries `n` letters, then fewer, down
      to two. */
  function TryFrom(s: string, i: nat, n: nat): (r: Option<nat>)
    ensures r.Some? ==> MatchesWith(s, i, r.value) && r.value <= n
    ensures r.None? ==> forall m :: 0 <= m <= n ==> !MatchesWith(s, i, m)
  {
    if n < 2 then None
    else if MatchesWith(s, i, n) then Some(n)
    else TryFrom(s, i, n - 1)
  }

  /** The number of letters the pattern takes at `i`, if it matches there. */
  function TagLengthAt(s: string, i: nat): Option<nat> {
    TryFrom(s, i, 6)
  }

  /** `CASHTAG_RE.findall`: the tags, without the `$`, of the non-overlapping
      matches found scanning from `i` to the right. */
  function CashtagsFrom(s: string, i: nat): seq<string>
    decreases |s| - i
  {
    if i >= |s| then []
    else match TagLengthAt(s, i)
      case Some(n) => [s[i + 1..i + 1 + n]] + CashtagsFrom(s, i + 1 + n)
      case None => CashtagsFrom(s, i + 1)
  }

  /** `extract_cashtags`. */
  function Cashtags(text: string): seq<string> {
    CashtagsFrom(text, 0)
  }

  /** A well-formed tag: two to six upper-case letters. */
  predicate IsTag(t: string) {
    2 <= |t| <= 6 && forall k :: 0 <= k < |t| ==> IsUpper(t[k])
  }

  /** Every extracted tag has two to six upper-case letters. */
  lemma {:induction false} CashtagsAreTags(s: string, i: nat)
    ensures forall t :: t in CashtagsFrom(s, i) ==> IsTag(t)
    decreases |s| - i
  {
    if i < |s| {
      match TagLengthAt(s, i)
      case Some(n) =>
        CashtagsAreTags(s, i + 1 + n);
        var t := s[i + 1..i + 1 + n];
        assert forall k :: 0 <= k < |t| ==> t[k] == s[i + 1 + k];
      case None =>
        CashtagsAreTags(s, i + 1);
    }
  }

  /** Length of the run of upper-case letters starting at `j`. */
  function UpperRun(s: string, j: nat): (n: nat)
    ensures j + n <= |s| || n == 0
    ensures forall k :: j <= k < j + n ==> IsUpper(s[k])
    ensures j + n < |s| ==> !IsUpper(s[j + n])
    decreases |s| - j
  {
    if j < |s| && IsUpper(s[j]) then 1 + UpperRun(s, j + 1) else 0
  }

  /** The character after the run does not continue a word. */
  predicate EndsWord(s: string, j: nat) {
    j >= |s| || !IsWordChar(s[j])
  }

  lemma {:induction false} TryFromRun(s: string, i: nat, n: nat)
    requires n <= 6
    ensures TryFrom(s, i, n) ==
      var run := UpperRun(s, i + 1);
      if i < |s| && s[i] == '$' && 2 <= run <= n && EndsWord(s, i + 1 + run)
      then Some(run) else None
  {
    var run := UpperRun(s, i + 1);
    if n >= 2 {
      TryFromRun(s, i, n - 1);
      if n < run {
        assert !MatchesWith(s, i, n) by {
          assert IsUpper(s[i + 1 + n]);
        }
      } else if n > run {
        assert !MatchesWith(s, i, n) by {
          if i + 1 + n <= |s| {
            assert !IsUpper(s[i + 1 + run]);
          }
        }
      }
    }
  }

  /** The pattern matches at a `$` exactly when the run of upper-case letters
      after it has two to six letters and is not followed by another word
      character; it then takes the whole run. So a run of seven or more
      letters, or letters followed by a lower-case letter, a digit or `_`,
      yields no tag. */
  lemma TagLengthRule(s: string, i: nat)
    ensures TagLengthAt(s, i) ==
      var run := UpperRun(s, i + 1);
      if i < |s| && s[i] == '$' && 2 <= run <= 6 && EndsWord(s, i + 1 + run)
      then Some(run) else None
  {
    TryFromRun(s, i, 6);
  }

  /** A tweet with its content; the other fields play no part here. */
  datatype Tweet = Tweet(content: string)

  /** How many tweets `fetch_tweets` yields from a stream of `available`. */
  function FetchCount(limit: int, available: nat): (n: nat)
    ensures n <= available
    ensures limit >= 0 ==> n <= limit
  {
    if limit <= 0 then 0 else if limit < available then limit else available
  }

  /** `fetch_tweets` as written: enumerate the stream and stop at index
      `limit`. */
  method FetchTweets(stream: seq<Tweet>, limit: int) returns (tweets: seq<Tweet>)
    ensures tweets == stream[..FetchCount(limit, |stream|)]
  {
    tweets := [];
    var i := 0;
    while i < |stream|
      invariant 0 <= i <= |stream| && tweets == stream[..i]
      invariant limit <= 0 ==> i == 0
      invariant limit > 0 ==> i <= limit
    {
      if i >= limit {
        break;
      }
      tweets := tweets + [stream[i]];
      i := i + 1;
    }
  }

  /** The exploded tag column: one entry per tag occurrence, tweet by tweet. */
  function Exploded(records: seq<seq<string>>): seq<string> {
    if records == [] then [] else Exploded(records[..|records| - 1]) + records[|records| - 1]
  }

  /** Mentions add up tweet by tweet, so a tweet naming a tag twice counts
      twice. */
  lemma MentionsAdd(records: seq<seq<string>>, tags: seq<string>, t: string)
    ensures Count(Exploded(records + [tags]), t) == Count(Exploded(records), t) + Count(tags, t)
  {
    assert (records + [tags])[..|records|] == records;
  }

  /** One row of the summary table. */
  datatype Summary = Summary(tag: string, count: nat)

  /** The tags in order of their last occurrence, each once. */
  function Dedup(xs: seq<string>): (r: seq<string>)
    ensures forall x :: x in r <==> x in xs
    ensures Distinct(r)
  {
    if xs == [] then []
    else if xs[0] in xs[1..] then Dedup(xs[1..])
    else [xs[0]] + Dedup(xs[1..])
  }

  predicate Distinct<T(==)>(xs: seq<T>) {
    forall i, j :: 0 <= i < j < |xs| ==> xs[i] != xs[j]
  }

  /** The group-by: one row per distinct tag with its number of mentions. */
  function Grouped(mentions: seq<string>): (rows: seq<Summary>)
    ensures forall r :: r in rows <==> r.tag in mentions && r.count == Count(mentions, r.tag)
    ensures forall i, j :: 0 <= i < j < |rows| ==> rows[i].tag != rows[j].tag
  {
    var tags := Dedup(mentions);
    var rows := seq(|tags|, i requires 0 <= i < |tags| => Summary(tags[i], Count(mentions, tags[i])));
    assert forall r :: r in rows ==> r.tag in tags;
    assert forall t :: t in tags ==> Summary(t, Count(mentions, t)) in rows by {
      forall t | t in tags ensures Summary(t, Count(mentions, t)) in rows {
        var i :| 0 <= i < |tags| && tags[i] == t;
        assert rows[i] == Summary(t, Count(mentions, t));
      }
    }
    rows
  }

  /** Tags with fewer mentions are dropped. */
  const MinMentions: nat := 5

  /** How many tags are reported. */
  const TopCount: nat := 3

  predicate Frequent(r: Summary) {
    r.count >= MinMentions
  }

  /** Sort key: mention count descending. */
  function CountKey(r: Summary): Rank {
    Rank(0, r.count as real)
  }

  /** The summary rows of the frequent tags, most mentioned first. */
  function Ranked(mentions: seq<string>): seq<Summary> {
    SortByRank(Filter(Grouped(mentions), Frequent), CountKey)
  }

  /** `rank_new_tickers` on the exploded mentions: the first three rows. */
  function TopTickers(mentions: seq<string>): seq<Summary> {
    Prefix(Ranked(mentions), TopCount)
  }

  function TagsOf(rows: seq<Summary>): set<string> {
    set r | r in rows :: r.tag
  }

  /** At most three rows, each a tag with its true mention count of at least
      five, in non-increasing count order. */
  lemma TopTickersSound(mentions: seq<string>)
    ensures var top := TopTickers(mentions);
            |top| <= TopCount &&
            (forall r :: r in top ==> r.tag in mentions && r.count == Count(mentions, r.tag) &&
                                      r.count >= MinMentions) &&
            (forall i, j :: 0 <= i < j < |top| ==> top[i].count >= top[j].count)
  {
    var kept := Filter(Grouped(mentions), Frequent);
    var sorted := Ranked(mentions);
    var top := TopTickers(mentions);
    SortIsSorted(kept, CountKey);
    assert top == sorted[..|top|];
    forall r | r in top
      ensures r.tag in mentions && r.count == Count(mentions, r.tag) && r.count >= MinMentions
    {
      assert r in multiset(sorted);
    }
    forall i, j | 0 <= i < j < |top| ensures top[i].count >= top[j].count {
      assert RankLe(CountKey(sorted[i]), CountKey(sorted[j]));
    }
  }

  /** A frequent tag is missing from the result only when three rows with at
      least as many mentions fill it. */
  lemma TopTickersComplete(mentions: seq<string>, t: string)
    requires Count(mentions, t) >= MinMentions
    requires t !in TagsOf(TopTickers(mentions))
    ensures |TopTickers(mentions)| == TopCount
    ensures TopTickers(mentions)[TopCount - 1].count >= Count(mentions, t)
  {
    var row := Summary(t, Count(mentions, t));
    var kept := Filter(Grouped(mentions), Frequent);
    var sorted := Ranked(mentions);
    var top := TopTickers(mentions);
    assert t in mentions;
    assert row in kept;
    assert row in multiset(sorted);
    var j :| 0 <= j < |sorted| && sorted[j] == row;
    assert j >= |top|;
    SortIsSorted(kept, CountKey);
    assert RankLe(CountKey(sorted[TopCount - 1]), CountKey(sorted[j]));
  }

  /** Tweets without a tag leave no mention after `dropna`, and no mentions
      give no rows. */
  lemma {:induction false} NoMentionsNoTickers(records: seq<seq<string>>)
    requires forall i :: 0 <= i < |records| ==> records[i] == []
    ensures Exploded(records) == []
    ensures TopTickers(Exploded(records)) == []
  {
    if records != [] {
      NoMentionsNoTickers(records[..|records| - 1]);
    }
  }

  /** `rank_new_tickers` as written: the record loop over the fetched tweets,
      then the declarative group-by, filter, sort and head. With no tweet
      fetched the record frame has no `cashtags` column and `explode` raises
      `KeyError`, modelled as `None`; with tweets but no tags the frame is
      empty after `dropna` and no rows are reported. */
  method RankNewTickers(stream: seq<Tweet>, limit: int) returns (top: Option<seq<Summary>>)
    ensures top.None? <==> limit <= 0 || stream == []
    ensures top.Some? ==>
              top.value == TopTickers(Exploded(TweetTags(stream[..FetchCount(limit, |stream|)])))
  {
    var tweets := FetchTweets(stream, limit);
    var records: seq<seq<string>> := [];
    for k := 0 to |tweets|
      invariant records == TweetTags(tweets[..k])
    {
      assert tweets[..k + 1][..k] == tweets[..k];
      records := records + [Cashtags(tweets[k].content)];
    }
    assert tweets[..|tweets|] == tweets;
    if records == [] {
      return None;  // KeyError: 'cashtags'
    }
    top := Some(TopTickers(Exploded(records)));
  }

  /** The tags of each tweet, tweet by tweet. */
  function TweetTags(tweets: seq<Tweet>): (records: seq<seq<string>>)
    ensures |records| == |tweets|
  {
    if tweets == [] then []
    else TweetTags(tweets[..|tweets| - 1]) + [Cashtags(tweets[|tweets| - 1].content)]
  }
}
