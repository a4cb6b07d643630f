/** The RugCheck safety report: a risk score, the named risks, and whether the
    score is below the safety threshold. */
module RugCheck {
  import opened Wrappers
  import opened Http

  /** One risk entry of a report; its name may be absent. */
  datatype Risk = Risk(name: Option<string>)

  /** A report as the API returns it; an absent score is `None`. */
  datatype Report = Report(score: Option<int>, risks: seq<Risk>)

  /** The result of `check_token`: a parsed report, or a fallback without a
      safety verdict. */
  datatype Check =
    | Parsed(score: int, riskCount: nat, riskNames: seq<Option<string>>, isSafe: bool)
    | Fallback(score: int, status: string)

  /** Scores below this are safe. */
  const SafeBelow: int := 5000

  /** `_parse_report`: an absent score counts as 0; the risks are counted and
      listed by name in report order; safe exactly when the score is below the
      threshold. */
  function ParseReport(data: Report): (c: Check)
    ensures c.Parsed?
    ensures c.score == data.score.GetOr(0)
    ensures c.riskCount == |data.risks| == |c.riskNames|
    ensures forall i :: 0 <= i < |data.risks| ==> c.riskNames[i] == data.risks[i].name
    ensures c.isSafe <==> c.score < SafeBelow
  {
    Parsed(data.score.GetOr(0), |data.risks|,
           seq(|data.risks|, i requires 0 <= i < |data.risks| => data.risks[i].name),
           data.score.GetOr(0) < SafeBelow)
  }

  /** `check_token`: the parsed report on a 200 response, score -1 with status
      "unknown" on another status, and score -1 with status "error" when the
      request raised. */
  function CheckToken(response: Response<Report>): (c: Check)
    ensures c.Fallback? <==> !IsOk(response)
    ensures c.Fallback? ==> c.score == -1
    ensures c.Fallback? ==> (c.status == "error" <==> response.Failed?)
  {
    match response
    case Failed(_) => Fallback(-1, "error")
    case Response(status, data) =>
      if status == 200 then ParseReport(data) else Fallback(-1, "unknown")
  }

  /** A report without a score is safe. */
  lemma MissingScoreIsSafe(risks: seq<Risk>)
    ensures ParseReport(Report(None, risks)).isSafe
  {
  }

  /** Safety depends on the score alone and is kept by lowering it. */
  lemma SafetyIsMonotone(a: Report, b: Report)
    requires a.score.GetOr(0) <= b.score.GetOr(0)
    ensures ParseReport(b).isSafe ==> ParseReport(a).isSafe
  {
  }

  /** The risk names, in order, are those of the report. */
  lemma RiskNamesFollowReport(data: Report, more: seq<Risk>)
    ensures ParseReport(Report(data.score, data.risks + more)).riskNames ==
            ParseReport(data).riskNames + ParseReport(Report(data.score, more)).riskNames
  {
    var whole := ParseReport(Report(data.score, data.risks + more)).riskNames;
    var front := ParseReport(data).riskNames;
    var back := ParseReport(Report(data.score, more)).riskNames;
    assert |whole| == |front| + |back|;
    forall i | 0 <= i < |whole| ensures whole[i] == (front + back)[i] {
      if i >= |front| {
        assert (data.risks + more)[i] == more[i - |front|];
      }
    }
  }
}
