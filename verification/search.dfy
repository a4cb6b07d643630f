/** The web search the agents rely on, as an input: each query either returns
    a list of results or raises. */
module WebSearch {
  import opened Wrappers

  /** One search hit; an absent field is `None`. */
  datatype SearchResult = SearchResult(title: Option<string>, body: Option<string>)

  /** The outcome of one query. */
  datatype Search = Found(results: seq<SearchResult>) | SearchFailed(error: string)

  /** A query and its maximum number of results, answered by the search
      engine. */
  type Engine = (string, nat) -> Search

  /** Python's rendering of an optional string in an f-string. */
  function Shown(s: Option<string>): string {
    s.GetOr("None")
  }
}
