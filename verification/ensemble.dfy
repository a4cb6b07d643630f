/** The council (`EnsembleAnalyst`): up to three roles give their view of a
    signal, the Analyst turns the views into a verdict, and the verdict is
    read as a confidence and a one-line decision. The backends' answers are
    inputs. */
module Ensemble {
  import opened Wrappers
  import opened Seqs
  import opened Text
  import opened Replies

  datatype Role = Analyst | Critic | Strategist

  /** The order in which the roles are asked. */
  const RoleOrder: seq<Role> := [Analyst, Critic, Strategist]

  /** The environment variable whose key configures a role. */
  function KeyVariable(role: Role): string {
    match role
    case Analyst => "GEMINI_API_KEY"
    case Critic => "HUGGINGFACE_API_TOKEN"
    case Strategist => "GROQ_API_KEY"
  }

  /** A role is configured when its key is set and non-empty. */
  predicate HasKey(env: map<string, string>, role: Role) {
    KeyVariable(role) in env && env[KeyVariable(role)] != ""
  }

  /** The roles that are asked, in the fixed order. */
  function ActiveRoles(providers: set<Role>): (roles: seq<Role>)
    ensures forall r :: r in roles <==> r in providers
  {
    var roles := (if Analyst in providers then [Analyst] else []) +
                 (if Critic in providers then [Critic] else []) +
                 (if Strategist in providers then [Strategist] else []);
    assert forall r :: r in providers ==> r in roles by {
      forall r | r in providers ensures r in roles {
        assert r == Analyst || r == Critic || r == Strategist;
      }
    }
    roles
  }

  /** The position of a role in the asking order. */
  function Rank(r: Role): nat {
    match r
    case Analyst => 0
    case Critic => 1
    case Strategist => 2
  }

  /** The active roles are asked each once, in the order Analyst, Critic,
      Strategist. */
  lemma ActiveRolesOrdered(providers: set<Role>)
    ensures forall i, j :: 0 <= i < j < |ActiveRoles(providers)| ==>
              Rank(ActiveRoles(providers)[i]) < Rank(ActiveRoles(providers)[j])
  {
  }

  /** A role's view: the answer's text, or "Error: " and the exception. */
  function ViewOf(reply: Reply): string {
    match reply
    case Answer(text) => text
    case Raised(message) => "Error: " + message
  }

  /** The views of the asked roles, `results[i]` being the answer of
      `roles[i]`. */
  function Views(roles: seq<Role>, results: seq<Reply>): (views: map<Role, string>)
    requires |roles| == |results|
    ensures forall r :: r in views <==> r in roles
  {
    if roles == [] then map[]
    else
      var n := |roles| - 1;
      Views(roles[..n], results[..n])[roles[n] := ViewOf(results[n])]
  }

  /** Each asked role's view is built from its own answer. */
  lemma {:induction false} ViewOfRole(roles: seq<Role>, results: seq<Reply>, i: nat)
    requires |roles| == |results| && i < |roles|
    requires forall j :: i < j < |roles| ==> roles[j] != roles[i]
    ensures Views(roles, results)[roles[i]] == ViewOf(results[i])
  {
    var n := |roles| - 1;
    if i < n {
      var m := Views(roles[..n], results[..n]);
      assert Views(roles, results) == m[roles[n] := ViewOf(results[n])];
      assert roles[..n][i] == roles[i] && results[..n][i] == results[i];
      ViewOfRole(roles[..n], results[..n], i);
    }
  }

  lemma ViewsStep(roles: seq<Role>, results: seq<Reply>, i: nat)
    requires |roles| == |results| && i < |roles|
    ensures Views(roles[..i + 1], results[..i + 1]) ==
            Views(roles[..i], results[..i])[roles[i] := ViewOf(results[i])]
  {
    assert roles[..i + 1][..i] == roles[..i] && results[..i + 1][..i] == results[..i];
  }

  /** The synthesis is asked for only when the Analyst gave a view that does
      not start with "Error". */
  predicate Synthesizes(views: map<Role, string>) {
    Analyst in views && !StartsWith(views[Analyst], "Error")
  }

  /** A role's case in the report: its first 200 characters and "...". */
  function Excerpt(views: map<Role, string>, role: Role): (s: string)
    ensures |s| <= 203
    ensures role in views ==> s == Prefix(views[role], 200) + "..."
    ensures role !in views ==> s == "..."
  {
    Prefix(if role in views then views[role] else "", 200) + "..."
  }

  /** The report `analyze_signal` returns: the short one when no role is
      configured, otherwise the verdict and the three cases. */
  datatype Analysis =
    | Inactive(confidence: int, rationale: string)
    | Report(confidence: int, rationale: string, bullCase: string, bearCase: string, narrative: string)

  /** The verdict text: the Analyst's synthesis when it is asked for, the
      fallback verdict otherwise; `None` when the synthesis request raised
      (nothing catches it). */
  function Conclusion(views: map<Role, string>, synthesis: Reply): Option<string> {
    if Synthesizes(views) then
      match synthesis
      case Answer(text) => Some(text)
      case Raised(_) => None
    else Some(FallbackVerdict)
  }

  /** The full report for a verdict text. */
  function ReportOf(views: map<Role, string>, verdict: string): Analysis {
    var v := ParseVerdict(verdict);
    Report(v.confidence, v.decision, Excerpt(views, Analyst),
           Excerpt(views, Critic), Excerpt(views, Strategist))
  }

  /** The whole call, given the roles' answers in asking order and the
      Analyst's answer to the synthesis request. */
  function AnalysisSpec(providers: set<Role>, results: seq<Reply>, synthesis: Reply): Option<Analysis>
    requires |results| == |ActiveRoles(providers)|
  {
    if providers == {} then Some(Inactive(0, "No AI models active."))
    else
      var views := Views(ActiveRoles(providers), results);
      match Conclusion(views, synthesis)
      case None => None
      case Some(text) => Some(ReportOf(views, text))
  }

  /** With no role configured the call answers at once, without asking any
      backend. */
  lemma NoProvidersInactive(results: seq<Reply>, synthesis: Reply)
    requires |results| == 0
    ensures AnalysisSpec({}, results, synthesis) == Some(Inactive(0, "No AI models active."))
  {
  }

  /** Without a usable Analyst view the fallback verdict applies: confidence
      50, decision "Consensus failed.", whatever the synthesis would say. */
  lemma FallbackWithoutAnalyst(providers: set<Role>, results: seq<Reply>, synthesis: Reply)
    requires |results| == |ActiveRoles(providers)| && providers != {}
    requires !Synthesizes(Views(ActiveRoles(providers), results))
    ensures var views := Views(ActiveRoles(providers), results);
            AnalysisSpec(providers, results, synthesis) ==
              Some(Report(50, "Consensus failed.", Excerpt(views, Analyst),
                          Excerpt(views, Critic), Excerpt(views, Strategist)))
  {
    var views := Views(ActiveRoles(providers), results);
    assert Conclusion(views, synthesis) == Some(FallbackVerdict);
    FallbackReport(views);
  }

  lemma FallbackReport(views: map<Role, string>)
    ensures ReportOf(views, FallbackVerdict) ==
            Report(50, "Consensus failed.", Excerpt(views, Analyst),
                   Excerpt(views, Critic), Excerpt(views, Strategist))
  {
    FallbackVerdictParse();
  }

  /** A failed Analyst call (an exception, or an answer starting with
      "Error") always leads to the fallback. */
  lemma FailedAnalystIsNoSynthesis(providers: set<Role>, results: seq<Reply>)
    requires |results| == |ActiveRoles(providers)| && Analyst in providers
    requires results[0].Raised? || StartsWith(results[0].text, "Error")
    ensures !Synthesizes(Views(ActiveRoles(providers), results))
  {
    var roles := ActiveRoles(providers);
    assert roles[0] == Analyst;
    ViewOfRole(roles, results, 0);
    if results[0].Raised? {
      var v := ViewOf(results[0]);
      assert v[..5] == "Error";
    }
  }

  /** A synthesis request that raises makes the whole call raise. */
  lemma SynthesisFailureRaises(providers: set<Role>, results: seq<Reply>, message: string)
    requires |results| == |ActiveRoles(providers)| && providers != {}
    requires Synthesizes(Views(ActiveRoles(providers), results))
    ensures AnalysisSpec(providers, results, Raised(message)) == None
  {
  }

  /** The council with its configured roles. */
  class EnsembleAnalyst {
    var providers: set<Role>

    /** Configures each role whose key is set. */
    constructor (env: map<string, string>)
      ensures forall r :: r in providers <==> HasKey(env, r)
    {
      providers := {};
      if HasKey(env, Analyst) {
        providers := providers + {Analyst};
      }
      if HasKey(env, Critic) {
        providers := providers + {Critic};
      }
      if HasKey(env, Strategist) {
        providers := providers + {Strategist};
      }
    }

    /** The roles `analyze_signal` asks, in order. */
    function Asked(): seq<Role>
      reads this
    {
      ActiveRoles(providers)
    }

    /** `analyze_signal`, given the answers of the asked roles in order and the
        Analyst's answer to the synthesis request. */
    method AnalyzeSignal(results: seq<Reply>, synthesis: Reply) returns (r: Option<Analysis>)
      requires |results| == |Asked()|
      ensures r == AnalysisSpec(providers, results, synthesis)
    {
      if providers == {} {
        return Some(Inactive(0, "No AI models active."));
      }
      var roles := ActiveRoles(providers);  // Analyst, Critic, Strategist, each if configured
      var views: map<Role, string> := map[];
      for i := 0 to |roles|
        invariant views == Views(roles[..i], results[..i])
      {
        ViewsStep(roles, results, i);
        views := views[roles[i] := ViewOf(results[i])];
      }
      assert roles[..|roles|] == roles && results[..|results|] == results;
      assert Analyst in views <==> Analyst in providers;
      var verdict: Option<string>;
      if Analyst in providers && !StartsWith(views[Analyst], "Error") {
        match synthesis
        case Raised(_) =>
          verdict := None;
        case Answer(text) =>
          verdict := Some(text);
      } else {
        verdict := Some(FallbackVerdict);
      }
      assert verdict == Conclusion(views, synthesis);
      if verdict.None? {
        return None;  // the synthesis request raised
      }
      r := Some(ReportOf(views, verdict.value));
    }
  }
}
