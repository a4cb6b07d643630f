/** The bot registry of the trader: the `strategies` table with one row per
    bot, the backends the environment's keys allow, the bots' decisions read
    from their replies, and the learning loop that rewrites a bot's prompt
    after a large win or loss. */
module Strategies {
  import opened Wrappers
  import opened Seqs
  import opened Text
  import opened Replies
  import opened Ledger

  /** A default bot: its id, provider type and model name. */
  datatype BotDefault = BotDefault(botId: string, provider: string, model: string)

  /** A bot's system prompt: the default prompt of a bot, or a text written
      later. Defaults are kept symbolic so that the long texts stay out of the
      proofs; `PromptText` gives the words. */
  datatype Prompt = DefaultPrompt(bot: string) | Written(text: string)

  /** The default prompts' texts. */
  const TrendPrompt := "You are a Trend Follower and an expert in Pine Script v5. You are a top-tier Quantitative Trader. You buy when Price > EMA and Volume is rising. Use your Pine Script knowledge to mentally backtest signals. If 'WHALE ALERT' appears, you take it as a confirmation of volume."
  const SniperPrompt := "You are a Mean Reversion Sniper and a Pine Script v5 expert. You are a top-tier Quantitative Trader. You buy fear (RSI < 30). You are skeptical. BUT if 'WHALE ALERT' confirms smart money accumulation, you front-run them. Use your quant skills to assess risk."
  const NarrativePrompt := "You are a Narrative Trader and a Pine Script v5 expert. You are a top-tier Quantitative Trader. You love HYPE. If you see 'WHALE ALERT', you BUY AGGRESSIVELY. Use your coding skills to validate if a narrative has backing data."
  const InternPrompt := "You are the Intern, but you are also a Pine Script v5 wizard and a budding Quantitative Trader. You take risks. If you see specific fund names in 'WHALE DATA', you assume it's alpha and follow it. Verify with code."
  const ObserverPrompt := "You are the Observer. You are a senior Quantitative Trader and Pine Script v5 expert. Your job is to WATCH other bots. If the signal looks risky or the other bots missed something (like a Pine Script logic error), call it out."
  const CommanderPrompt := "You are the Strategic Commander. You are an elite Quantitative Trader and Pine Script v5 Architect. You synthesize data from all sources. You prioritize MACD crossovers and Whale movements. Ensure all signals are quantitatively sound."

  /** The six default bots, in the order the code walks them. */
  const Defaults: seq<BotDefault> := [
    BotDefault("Gemini_Trend", "gemini", "gemini-2.5-flash"),
    BotDefault("Cerebras_Sniper", "cerebras", "zai-glm-4.7"),
    BotDefault("Kimi_Narrative", "groq", "moonshotai/kimi-k2-instruct-0905"),
    BotDefault("Phi_Intern", "github", "gpt-4o"),
    BotDefault("Llama_Observer", "groq", "llama-3.3-70b-versatile"),
    BotDefault("Cohere_Commander", "cohere", "command-r-plus-08-2024")
  ]

  /** The text of a prompt (a bot without a default prompt of its own is not
      seeded, so its default text is never read). */
  function PromptText(p: Prompt): string {
    match p
    case Written(text) => text
    case DefaultPrompt(bot) =>
      if bot == "Gemini_Trend" then TrendPrompt
      else if bot == "Cerebras_Sniper" then SniperPrompt
      else if bot == "Kimi_Narrative" then NarrativePrompt
      else if bot == "Phi_Intern" then InternPrompt
      else if bot == "Llama_Observer" then ObserverPrompt
      else if bot == "Cohere_Commander" then CommanderPrompt
      else ""
  }

  /** The bot whose backend also serves as the prompt optimizer. */
  const Optimizer := "Gemini_Trend"

  predicate DistinctIds(ds: seq<BotDefault>) {
    forall i, j :: 0 <= i < j < |ds| ==> ds[i].botId != ds[j].botId
  }

  lemma DefaultsDistinct()
    ensures DistinctIds(Defaults)
  {
  }

  /** A row of the `strategies` table (statistics columns are not modelled). */
  datatype Strategy = Strategy(botId: string, name: string, provider: string,
                               prompt: Prompt, active: bool)

  /** `bot_id` is the table's primary key. */
  predicate UniqueBots(rows: seq<Strategy>) {
    forall i, j :: 0 <= i < j < |rows| ==> rows[i].botId != rows[j].botId
  }

  function BotIds(rows: seq<Strategy>): set<string> {
    set r | r in rows :: r.botId
  }

  // ---- seeding (`_initialize_bots`) ----

  /** The row seeding writes for a default bot: its name is the id with
      underscores turned into spaces, and it starts active. */
  function NewRow(d: BotDefault): Strategy {
    Strategy(d.botId, ReplaceChar(d.botId, '_', ' '), d.provider, DefaultPrompt(d.botId), true)
  }

  /** The rows seeding appends for the defaults `ds` whose id is not among the
      `existing` ids, in the order of `ds`. */
  function Seeds(ds: seq<BotDefault>, existing: set<string>): seq<Strategy> {
    if ds == [] then []
    else
      var d := ds[|ds| - 1];
      Seeds(ds[..|ds| - 1], existing) + (if d.botId in existing then [] else [NewRow(d)])
  }

  /** Every row seeding adds carries its own bot's default prompt text, and
      none of those texts is empty. */
  lemma SeededPromptTexts(existing: set<string>)
    ensures forall r :: r in Seeds(Defaults, existing) ==> PromptText(r.prompt) != ""
    ensures forall r :: r in Seeds(Defaults, existing) ==>
              (r.botId == "Gemini_Trend" ==> PromptText(r.prompt) == TrendPrompt) &&
              (r.botId == "Cerebras_Sniper" ==> PromptText(r.prompt) == SniperPrompt) &&
              (r.botId == "Kimi_Narrative" ==> PromptText(r.prompt) == NarrativePrompt) &&
              (r.botId == "Phi_Intern" ==> PromptText(r.prompt) == InternPrompt) &&
              (r.botId == "Llama_Observer" ==> PromptText(r.prompt) == ObserverPrompt) &&
              (r.botId == "Cohere_Commander" ==> PromptText(r.prompt) == CommanderPrompt)
  {
    SeedsAreMissingDefaults(Defaults, existing);
    forall r | r in Seeds(Defaults, existing)
      ensures r.prompt == DefaultPrompt(r.botId) && r.botId in DefaultIds()
    {
      var d :| d in Defaults && d.botId !in existing && r == NewRow(d);
    }
  }

  /** The ids of the default bots. */
  function DefaultIds(): set<string> {
    {"Gemini_Trend", "Cerebras_Sniper", "Kimi_Narrative", "Phi_Intern", "Llama_Observer", "Cohere_Commander"}
  }

  /** The table after seeding: the old rows, untouched, then the missing
      default bots. */
  function Seeded(rows: seq<Strategy>): seq<Strategy> {
    rows + Seeds(Defaults, BotIds(rows))
  }

  /** The seeded rows are exactly the defaults whose id was missing. */
  lemma {:induction false} SeedsAreMissingDefaults(ds: seq<BotDefault>, existing: set<string>)
    ensures forall r :: r in Seeds(ds, existing) <==>
              exists d :: d in ds && d.botId !in existing && r == NewRow(d)
  {
    if ds != [] {
      var init, d := ds[..|ds| - 1], ds[|ds| - 1];
      assert ds == init + [d];
      SeedsAreMissingDefaults(init, existing);
      var tail := if d.botId in existing then [] else [NewRow(d)];
      assert Seeds(ds, existing) == Seeds(init, existing) + tail;
      forall r ensures r in Seeds(ds, existing) <==>
                       exists e :: e in ds && e.botId !in existing && r == NewRow(e)
      {
        if r in Seeds(ds, existing) && r !in Seeds(init, existing) {
          assert r == NewRow(d) && d in ds;
        }
        if exists e :: e in ds && e.botId !in existing && r == NewRow(e) {
          var e :| e in ds && e.botId !in existing && r == NewRow(e);
          if e == d { assert r in tail; } else { assert e in init; }
        }
      }
    }
  }

  /** Seeding never changes or removes an existing row, and afterwards every
      default bot has a row. */
  lemma SeedingKeepsRowsAndAddsDefaults(rows: seq<Strategy>)
    ensures Seeded(rows)[..|rows|] == rows
    ensures forall d :: d in Defaults ==> d.botId in BotIds(Seeded(rows))
    ensures forall r :: r in Seeded(rows)[|rows|..] <==>
              exists d :: d in Defaults && d.botId !in BotIds(rows) && r == NewRow(d)
  {
    SeedsAreMissingDefaults(Defaults, BotIds(rows));
    var s := Seeded(rows);
    assert s[|rows|..] == Seeds(Defaults, BotIds(rows));
    forall d | d in Defaults ensures d.botId in BotIds(s) {
      if d.botId !in BotIds(rows) {
        assert NewRow(d) in s[|rows|..];
        assert NewRow(d) in s;
      } else {
        var r :| r in rows && r.botId == d.botId;
        assert r in s;
      }
    }
  }

  lemma {:induction false} SeedsNoneMissing(ds: seq<BotDefault>, existing: set<string>)
    requires forall d :: d in ds ==> d.botId in existing
    ensures Seeds(ds, existing) == []
  {
    if ds != [] {
      SeedsNoneMissing(ds[..|ds| - 1], existing);
    }
  }

  /** Seeding is first-write-wins, so a second run changes nothing. */
  lemma SeedingIdempotent(rows: seq<Strategy>)
    ensures Seeded(Seeded(rows)) == Seeded(rows)
  {
    SeedingKeepsRowsAndAddsDefaults(rows);
    SeedsNoneMissing(Defaults, BotIds(Seeded(rows)));
  }

  lemma {:induction false} SeedsUnique(ds: seq<BotDefault>, existing: set<string>)
    requires DistinctIds(ds)
    ensures UniqueBots(Seeds(ds, existing))
  {
    if ds != [] {
      var init, d := ds[..|ds| - 1], ds[|ds| - 1];
      SeedsUnique(init, existing);
      SeedsAreMissingDefaults(init, existing);
      if d.botId !in existing {
        forall r | r in Seeds(init, existing) ensures r.botId != d.botId {
          var e :| e in init && e.botId !in existing && r == NewRow(e);
          var k :| 0 <= k < |init| && init[k] == e;
          assert ds[k] == e;
        }
      }
    }
  }

  /** Seeding keeps the primary key unique. */
  lemma SeedingKeepsKeysUnique(rows: seq<Strategy>)
    requires UniqueBots(rows)
    ensures UniqueBots(Seeded(rows))
  {
    DefaultsDistinct();
    SeedsUnique(Defaults, BotIds(rows));
    SeedsAreMissingDefaults(Defaults, BotIds(rows));
    var s := Seeded(rows);
    forall i, j | 0 <= i < j < |s| ensures s[i].botId != s[j].botId {
      if j >= |rows| && i < |rows| {
        assert s[j] in Seeds(Defaults, BotIds(rows));
        assert s[i] in rows;
      } else if i >= |rows| {
        assert s[i] == Seeds(Defaults, BotIds(rows))[i - |rows|];
        assert s[j] == Seeds(Defaults, BotIds(rows))[j - |rows|];
      }
    }
  }

  // ---- backends (`_load_providers`) ----

  /** The environment variable that holds the key for a provider type. */
  function KeyVariable(provider: string): Option<string> {
    if provider == "gemini" then Some("GEMINI_API_KEY")
    else if provider == "huggingface" then Some("HUGGINGFACE_API_TOKEN")
    else if provider == "groq" then Some("GROQ_API_KEY")
    else if provider == "github" then Some("GITHUB_TOKEN")
    else if provider == "cerebras" then Some("CEREBRAS_API_KEY")
    else if provider == "cohere" then Some("COHERE_API_KEY")
    else None
  }

  /** The key a provider type gets: the variable's value when it is set and
      non-empty (`os.getenv` is truthy). */
  function KeyFor(env: map<string, string>, provider: string): Option<string> {
    match KeyVariable(provider)
    case None => None
    case Some(name) => if name in env && env[name] != "" then Some(env[name]) else None
  }

  /** A constructed backend client (its calls are inputs of the model). */
  datatype Backend = Backend(provider: string, model: string, key: string)

  /** The backends built for the defaults `ds`. */
  function Backends(ds: seq<BotDefault>, env: map<string, string>): map<string, Backend> {
    if ds == [] then map[]
    else
      var d := ds[|ds| - 1];
      var m := Backends(ds[..|ds| - 1], env);
      match KeyFor(env, d.provider)
      case None => m
      case Some(key) => m[d.botId := Backend(d.provider, d.model, key)]
  }

  lemma BackendsStep(ds: seq<BotDefault>, k: nat, env: map<string, string>)
    requires k < |ds|
    ensures Backends(ds[..k + 1], env) ==
            match KeyFor(env, ds[k].provider)
            case None => Backends(ds[..k], env)
            case Some(key) => Backends(ds[..k], env)[ds[k].botId := Backend(ds[k].provider, ds[k].model, key)]
  {
    assert ds[..k + 1][..k] == ds[..k];
  }

  lemma MergeUpdate<K, V>(m: map<K, V>, n: map<K, V>, id: K, v: V)
    ensures m + n[id := v] == (m + n)[id := v]
  {
  }

  /** A bot gets a backend exactly when its provider type has a key, and the
      backend is built from that bot's provider type, model and key. */
  lemma {:induction false} BackendsRule(ds: seq<BotDefault>, env: map<string, string>)
    requires DistinctIds(ds)
    ensures forall id :: id in Backends(ds, env) <==>
              exists k :: 0 <= k < |ds| && ds[k].botId == id && KeyFor(env, ds[k].provider).Some?
    ensures forall k :: 0 <= k < |ds| && KeyFor(env, ds[k].provider).Some? ==>
              Backends(ds, env)[ds[k].botId] ==
                Backend(ds[k].provider, ds[k].model, KeyFor(env, ds[k].provider).value)
  {
    if ds != [] {
      var init := ds[..|ds| - 1];
      assert DistinctIds(init);
      BackendsRule(init, env);
      forall k | 0 <= k < |init| ensures init[k] == ds[k] { }
    }
  }

  // ---- decisions (`get_decisions`) ----

  /** The bots `get_decisions` asks, in table order: the active rows that
      have a backend. */
  function Queried(rows: seq<Strategy>, bots: map<string, Backend>): seq<string> {
    if rows == [] then []
    else
      var r := rows[|rows| - 1];
      Queried(rows[..|rows| - 1], bots) + (if r.active && r.botId in bots then [r.botId] else [])
  }

  lemma {:induction false} QueriedRule(rows: seq<Strategy>, bots: map<string, Backend>)
    ensures forall id :: id in Queried(rows, bots) <==>
              exists r :: r in rows && r.active && r.botId == id && id in bots
  {
    if rows != [] {
      var init := rows[..|rows| - 1];
      QueriedRule(init, bots);
      assert rows == init + [rows[|rows| - 1]];
    }
  }

  /** A reply yields a decision only when it is text not starting with
      "Error" (the backends report ordinary failures that way). */
  predicate Accepted(r: Reply) {
    r.Answer? && !StartsWith(r.text, "Error")
  }

  datatype Decision = Decision(botId: string, action: string, confidence: int,
                               reason: string, rawOutput: string)

  function DecisionFor(botId: string, text: string): Decision {
    var f := ParseDecision(text);
    Decision(botId, f.action, f.confidence, f.reason, text)
  }

  /** The decisions from the replies (one per queried bot, in query order). */
  function Decisions(ids: seq<string>, replies: seq<Reply>): (ds: seq<Decision>)
    requires |ids| == |replies|
    ensures |ds| <= |ids|
  {
    if ids == [] then []
    else
      var n := |ids| - 1;
      Decisions(ids[..n], replies[..n]) + DecisionOf(ids[n], replies[n])
  }

  /** The decision one reply contributes: none, or the parsed one. */
  function DecisionOf(botId: string, r: Reply): seq<Decision> {
    if Accepted(r) then [DecisionFor(botId, r.text)] else []
  }

  /** Decisions keep query order: the decisions of a longer query are those
      of its first part followed by those of the rest. */
  lemma {:induction false} DecisionsKeepOrder(i1: seq<string>, r1: seq<Reply>, i2: seq<string>, r2: seq<Reply>)
    requires |i1| == |r1| && |i2| == |r2|
    ensures Decisions(i1 + i2, r1 + r2) == Decisions(i1, r1) + Decisions(i2, r2)
    decreases |i2|
  {
    if i2 == [] {
      assert i1 + i2 == i1 && r1 + r2 == r1;
    } else {
      var n := |i2| - 1;
      assert (i1 + i2)[..|i1| + n] == i1 + i2[..n];
      assert (r1 + r2)[..|r1| + n] == r1 + r2[..n];
      assert (i1 + i2)[|i1| + n] == i2[n] && (r1 + r2)[|r1| + n] == r2[n];
      DecisionsKeepOrder(i1, r1, i2[..n], r2[..n]);
      var tail := DecisionOf(i2[n], r2[n]);
      assert Decisions(i1 + i2, r1 + r2) == Decisions(i1 + i2[..n], r1 + r2[..n]) + tail;
      assert Decisions(i2, r2) == Decisions(i2[..n], r2[..n]) + tail;
    }
  }

  /** Every accepted reply gives its parsed decision. */
  lemma {:induction false} DecisionsComplete(ids: seq<string>, replies: seq<Reply>)
    requires |ids| == |replies|
    ensures forall k :: 0 <= k < |ids| && Accepted(replies[k]) ==>
              DecisionFor(ids[k], replies[k].text) in Decisions(ids, replies)
  {
    if ids != [] {
      var n := |ids| - 1;
      DecisionsComplete(ids[..n], replies[..n]);
      forall k | 0 <= k < n && Accepted(replies[k])
        ensures DecisionFor(ids[k], replies[k].text) in Decisions(ids, replies)
      {
        assert ids[..n][k] == ids[k] && replies[..n][k] == replies[k];
      }
    }
  }

  /** Every decision comes from an accepted reply of a queried bot. */
  lemma {:induction false} DecisionsSound(ids: seq<string>, replies: seq<Reply>)
    requires |ids| == |replies|
    ensures forall d :: d in Decisions(ids, replies) ==>
              exists k :: 0 <= k < |ids| && Accepted(replies[k]) &&
                          d == DecisionFor(ids[k], replies[k].text)
  {
    if ids != [] {
      var n := |ids| - 1;
      DecisionsSound(ids[..n], replies[..n]);
      forall d | d in Decisions(ids, replies)
        ensures exists k :: 0 <= k < |ids| && Accepted(replies[k]) &&
                            d == DecisionFor(ids[k], replies[k].text)
      {
        if d in Decisions(ids[..n], replies[..n]) {
          var k :| 0 <= k < n && Accepted(replies[..n][k]) &&
                   d == DecisionFor(ids[..n][k], replies[..n][k].text);
          assert ids[..n][k] == ids[k] && replies[..n][k] == replies[k];
        } else {
          assert Accepted(replies[n]) && d == DecisionFor(ids[n], replies[n].text);
        }
      }
    }
  }

  /** Replies that all failed give no decision. */
  lemma {:induction false} NoAcceptedNoDecisions(ids: seq<string>, replies: seq<Reply>)
    requires |ids| == |replies|
    requires forall k :: 0 <= k < |replies| ==> !Accepted(replies[k])
    ensures Decisions(ids, replies) == []
  {
    if ids != [] {
      NoAcceptedNoDecisions(ids[..|ids| - 1], replies[..|ids| - 1]);
    }
  }

  // ---- the learning loop (`run_learning_loop`) ----

  /** Closed trades that name their bot. */
  predicate Reviewable(t: Trade) {
    t.status == Closed && t.botId.Some?
  }

  /** The trades the loop reviews: of the trades ordered by exit time, newest
      first, the first five reviewable ones. */
  function Window(recent: seq<Trade>): (w: seq<Trade>)
    ensures |w| <= 5
    ensures forall t :: t in w ==> t in recent && Reviewable(t)
  {
    Prefix(Filter(recent, Reviewable), 5)
  }

  /** A PnL percentage too small to learn from. */
  predicate InDeadband(pnlPct: real) {
    -5.0 <= pnlPct <= 10.0
  }

  const PromptMarker := "NEW_PROMPT:"

  /** The new prompt in an optimizer reply: the stripped text after the
      first marker, up to a second one. */
  function EvolvedPrompt(reply: string): string
    requires Contains(reply, PromptMarker)
  {
    SplitHasSecond(reply, PromptMarker);
    Strip(Split(reply, PromptMarker)[1])
  }

  /** The stripped second piece of a split holds no separator. */
  lemma StrippedSecondFree(reply: string, sep: string)
    requires |sep| > 0 && Contains(reply, sep)
    ensures |Split(reply, sep)| >= 2
    ensures !Contains(Strip(Split(reply, sep)[1]), sep)
  {
    SplitSecond(reply, sep);
    var seg := Split(reply, sep)[1];
    var r, a := Strip(seg), |seg| - |StripLeft(seg)|;
    StripInfix(seg);
    if Contains(r, sep) {
      ContainsInfix(seg, a, r, sep);
    }
  }

  /** The new prompt is stripped and holds no marker. */
  lemma EvolvedPromptClean(reply: string)
    requires Contains(reply, PromptMarker)
    ensures Strip(EvolvedPrompt(reply)) == EvolvedPrompt(reply)
    ensures !Contains(EvolvedPrompt(reply), PromptMarker)
  {
    StrippedSecondFree(reply, PromptMarker);
    StripIdempotent(Split(reply, PromptMarker)[1]);
  }

  /** `UPDATE strategies SET system_prompt=? WHERE bot_id=?`. */
  function SetPrompt(rows: seq<Strategy>, botId: string, prompt: Prompt): (r: seq<Strategy>)
    ensures |r| == |rows|
    ensures forall i :: 0 <= i < |rows| ==>
              r[i] == if rows[i].botId == botId then rows[i].(prompt := prompt) else rows[i]
  {
    seq(|rows|, i requires 0 <= i < |rows| =>
      if rows[i].botId == botId then rows[i].(prompt := prompt) else rows[i])
  }

  /** One reviewed trade. The flag is set when the step raised, which ends the
      loop: the bot has no row (the prompt lookup fails), or the optimizer call
      raised. */
  function LearnStep(rows: seq<Strategy>, t: Trade, reply: Reply): (seq<Strategy>, bool)
    requires t.botId.Some?
  {
    var bot := t.botId.value;
    if bot !in BotIds(rows) then (rows, true)
    else if InDeadband(t.pnlPct) then (rows, false)
    else match reply
      case Raised(_) => (rows, true)
      case Answer(text) =>
        if Contains(text, PromptMarker) then (SetPrompt(rows, bot, Written(EvolvedPrompt(text))), false)
        else (rows, false)
  }

  /** The loop over the reviewed trades, `replies[k]` being the optimizer's
      answer about `window[k]` (asked only outside the deadband). */
  function Learn(rows: seq<Strategy>, window: seq<Trade>, replies: seq<Reply>): (seq<Strategy>, bool)
    requires |replies| == |window| && forall t :: t in window ==> t.botId.Some?
    decreases |window|
  {
    if window == [] then (rows, false)
    else
      var (next, raised) := LearnStep(rows, window[0], replies[0]);
      if raised then (next, true) else Learn(next, window[1..], replies[1..])
  }

  /** The whole loop: nothing happens without the optimizer's backend. */
  function LearningLoop(rows: seq<Strategy>, bots: map<string, Backend>,
                        recent: seq<Trade>, replies: seq<Reply>): (seq<Strategy>, bool)
    requires |replies| == |Window(recent)|
  {
    if Optimizer !in bots then (rows, false) else Learn(rows, Window(recent), replies)
  }

  /** The optimizer's `reply` about trade `t` rewrites `bot`'s prompt to `p`:
      the trade is the bot's, outside the deadband, and the reply is an answer
      holding the marker whose evolved prompt is `p`. */
  predicate Rewrites(t: Trade, reply: Reply, bot: string, p: Prompt) {
    t.botId == Some(bot) && !InDeadband(t.pnlPct) &&
    reply.Answer? && Contains(reply.text, PromptMarker) &&
    p == Written(EvolvedPrompt(reply.text))
  }

  /** The text a rewrite stores is the optimizer's stripped text after the
      marker, and it never holds the marker itself. */
  lemma RewrittenPromptText(t: Trade, reply: Reply, bot: string, p: Prompt)
    requires Rewrites(t, reply, bot, p)
    ensures PromptText(p) == Strip(PromptText(p))
    ensures !Contains(PromptText(p), PromptMarker)
  {
    EvolvedPromptClean(reply.text);
  }

  /** A step rewrites at most the prompt of the trade's own bot, only outside
      the deadband and only from an answer holding the marker, and then to the
      evolved prompt of that answer; every other column and row stays. */
  lemma LearnStepTouchesOwnPrompt(rows: seq<Strategy>, t: Trade, reply: Reply)
    requires t.botId.Some?
    ensures var (after, raised) := LearnStep(rows, t, reply);
            |after| == |rows| &&
            forall i :: 0 <= i < |rows| ==>
              after[i] == rows[i].(prompt := after[i].prompt) &&
              (after[i].prompt != rows[i].prompt ==>
                 !raised && Rewrites(t, reply, rows[i].botId, after[i].prompt))
  {
  }

  /** When a step rewrites: a known bot's trade outside the deadband and an
      answer holding the marker set that bot's prompt to the evolved prompt.
      An answer without the marker changes nothing. */
  lemma LearnStepRewrites(rows: seq<Strategy>, t: Trade, reply: Reply)
    requires t.botId.Some?
    ensures var bot := t.botId.value;
            bot in BotIds(rows) && !InDeadband(t.pnlPct) &&
            reply.Answer? && Contains(reply.text, PromptMarker) ==>
              LearnStep(rows, t, reply) == (SetPrompt(rows, bot, Written(EvolvedPrompt(reply.text))), false)
    ensures reply.Answer? && !Contains(reply.text, PromptMarker) ==>
              LearnStep(rows, t, reply) == (rows, t.botId.value !in BotIds(rows))
  {
  }

  /** The loop rewrites only prompts; a changed prompt is the evolved prompt of
      an answer holding the marker, about a reviewed trade of that bot outside
      the deadband. */
  lemma {:induction false} LearnTouchesOnlyPrompts(rows: seq<Strategy>, window: seq<Trade>, replies: seq<Reply>)
    requires |replies| == |window| && forall t :: t in window ==> t.botId.Some?
    ensures var after := Learn(rows, window, replies).0;
            |after| == |rows| &&
            forall i :: 0 <= i < |rows| ==>
              after[i] == rows[i].(prompt := after[i].prompt) &&
              (after[i].prompt != rows[i].prompt ==>
                 exists k :: 0 <= k < |window| && Rewrites(window[k], replies[k], rows[i].botId, after[i].prompt))
    decreases |window|
  {
    if window != [] {
      var (next, raised) := LearnStep(rows, window[0], replies[0]);
      LearnStepTouchesOwnPrompt(rows, window[0], replies[0]);
      if !raised {
        assert forall t :: t in window[1..] ==> t in window;
        LearnTouchesOnlyPrompts(next, window[1..], replies[1..]);
        var after := Learn(rows, window, replies).0;
        assert after == Learn(next, window[1..], replies[1..]).0;
        forall i | 0 <= i < |rows| && after[i].prompt != rows[i].prompt
          ensures exists k :: 0 <= k < |window| && Rewrites(window[k], replies[k], rows[i].botId, after[i].prompt)
        {
          if after[i].prompt != next[i].prompt {
            var k :| 0 <= k < |window| - 1 &&
                     Rewrites(window[1..][k], replies[1..][k], next[i].botId, after[i].prompt);
            assert window[1..][k] == window[k + 1] && replies[1..][k] == replies[k + 1];
            assert Rewrites(window[k + 1], replies[k + 1], rows[i].botId, after[i].prompt);
          } else {
            assert Rewrites(window[0], replies[0], rows[i].botId, after[i].prompt);
          }
        }
      }
    }
  }

  /** Answers without the marker never change the table. */
  lemma NoMarkerNoRewrite(rows: seq<Strategy>, window: seq<Trade>, replies: seq<Reply>)
    requires |replies| == |window| && forall t :: t in window ==> t.botId.Some?
    requires forall k :: 0 <= k < |replies| ==> !(replies[k].Answer? && Contains(replies[k].text, PromptMarker))
    ensures Learn(rows, window, replies).0 == rows
  {
    LearnTouchesOnlyPrompts(rows, window, replies);
    var after := Learn(rows, window, replies).0;
    forall i | 0 <= i < |rows| ensures after[i] == rows[i] {
      assert forall k :: 0 <= k < |window| ==> !Rewrites(window[k], replies[k], rows[i].botId, after[i].prompt);
    }
  }

  /** Trades inside the deadband never change the table. */
  lemma {:induction false} DeadbandIsIgnored(rows: seq<Strategy>, window: seq<Trade>, replies: seq<Reply>)
    requires |replies| == |window| && forall t :: t in window ==> t.botId.Some?
    requires forall t :: t in window ==> InDeadband(t.pnlPct) && t.botId.value in BotIds(rows)
    ensures Learn(rows, window, replies) == (rows, false)
    decreases |window|
  {
    if window != [] {
      assert window[0] in window;
      assert forall t :: t in window[1..] ==> t in window;
      DeadbandIsIgnored(rows, window[1..], replies[1..]);
    }
  }

  /** The whole loop keeps every row and column but the prompts, and a changed
      prompt is the evolved prompt of an answer holding the marker, about one
      of the five reviewed trades of that bot outside the deadband. */
  lemma LearningLoopRewrites(rows: seq<Strategy>, bots: map<string, Backend>,
                             recent: seq<Trade>, replies: seq<Reply>)
    requires |replies| == |Window(recent)|
    ensures var after := LearningLoop(rows, bots, recent, replies).0;
            |after| == |rows| &&
            forall i :: 0 <= i < |rows| ==>
              after[i] == rows[i].(prompt := after[i].prompt) &&
              (after[i].prompt != rows[i].prompt ==>
                 Optimizer in bots &&
                 exists k :: 0 <= k < |replies| && Rewrites(Window(recent)[k], replies[k], rows[i].botId, after[i].prompt))
  {
    if Optimizer in bots {
      LearnTouchesOnlyPrompts(rows, Window(recent), replies);
    }
  }

  /** Without the optimizer's backend the loop leaves the table as it is. */
  lemma NoOptimizerNoLearning(rows: seq<Strategy>, bots: map<string, Backend>,
                              recent: seq<Trade>, replies: seq<Reply>)
    requires |replies| == |Window(recent)| && Optimizer !in bots
    ensures LearningLoop(rows, bots, recent, replies) == (rows, false)
  {
  }

  /** The registry: the `strategies` table and the backends built from the
      environment. */
  class StrategyManager {
    var table: seq<Strategy>
    var bots: map<string, Backend>

    predicate Valid()
      reads this
    {
      UniqueBots(table)
    }

    /** Opening the registry on a table that has the rows `existing`: it seeds
        the missing default bots and builds the backends the keys in `env`
        allow. */
    constructor (existing: seq<Strategy>, env: map<string, string>)
      requires UniqueBots(existing)
      ensures Valid()
      ensures table == Seeded(existing)
      ensures bots == Backends(Defaults, env)
    {
      table := existing;
      bots := map[];
      new;
      InitializeBots(env);
      assert bots == map[] + Backends(Defaults, env);
    }

    /** `_initialize_bots`: inserts each default bot that has no row, then
        loads the backends. */
    method InitializeBots(env: map<string, string>)
      modifies this
      requires Valid()
      ensures Valid()
      ensures table == Seeded(old(table))
      ensures bots == old(bots) + Backends(Defaults, env)
    {
      var existing := BotIds(table);
      ghost var before := table;
      for k := 0 to |Defaults|
        invariant bots == old(bots)
        invariant table == before + Seeds(Defaults[..k], existing)
      {
        var d := Defaults[k];
        assert Defaults[..k + 1][..k] == Defaults[..k];
        if d.botId !in existing {
          table := table + [NewRow(d)];
        }
      }
      assert Defaults[..|Defaults|] == Defaults;
      SeedingKeepsKeysUnique(before);
      LoadProviders(env);
    }

    /** `_load_providers`: one backend per default bot whose provider type
        has a key. */
    method LoadProviders(env: map<string, string>)
      modifies this
      requires Valid()
      ensures Valid() && table == old(table)
      ensures bots == old(bots) + Backends(Defaults, env)
    {
      for k := 0 to |Defaults|
        invariant table == old(table)
        invariant bots == old(bots) + Backends(Defaults[..k], env)
      {
        var d := Defaults[k];
        BackendsStep(Defaults, k, env);
        match KeyFor(env, d.provider)
        case None =>
        case Some(key) =>
          MergeUpdate(old(bots), Backends(Defaults[..k], env), d.botId, Backend(d.provider, d.model, key));
          bots := bots[d.botId := Backend(d.provider, d.model, key)];
      }
      assert Defaults[..|Defaults|] == Defaults;
    }

    /** The bots that `get_decisions` asks. */
    function QueriedBots(): seq<string>
      reads this
    {
      Queried(table, bots)
    }

    /** `get_decisions`, given the replies of the queried bots in query
        order. */
    method GetDecisions(replies: seq<Reply>) returns (decisions: seq<Decision>)
      requires Valid() && |replies| == |QueriedBots()|
      ensures decisions == Decisions(QueriedBots(), replies)
    {
      var ids: seq<string> := [];
      for i := 0 to |table|
        invariant ids == Queried(table[..i], bots)
      {
        assert table[..i + 1][..i] == table[..i];
        if table[i].active && table[i].botId in bots {
          ids := ids + [table[i].botId];
        }
      }
      assert table[..|table|] == table;
      if ids == [] {
        return [];
      }
      decisions := [];
      for i := 0 to |ids|
        invariant decisions == Decisions(ids[..i], replies[..i])
      {
        assert ids[..i + 1][..i] == ids[..i];
        assert replies[..i + 1][..i] == replies[..i];
        if Accepted(replies[i]) {
          decisions := decisions + [DecisionFor(ids[i], replies[i].text)];
        }
      }
      assert ids[..|ids|] == ids && replies[..|replies|] == replies;
    }

    /** `run_learning_loop`, given the trades ordered by exit time (newest
        first) and the optimizer's reply for each reviewed trade. The flag is
        set when the loop raised. */
    method RunLearningLoop(recent: seq<Trade>, replies: seq<Reply>) returns (raised: bool)
      modifies this
      requires Valid() && |replies| == |Window(recent)|
      ensures Valid() && bots == old(bots)
      ensures (table, raised) == LearningLoop(old(table), old(bots), recent, replies)
      ensures |table| == |old(table)|
      ensures forall i :: 0 <= i < |table| ==>
                table[i] == old(table)[i].(prompt := table[i].prompt) &&
                (table[i].prompt != old(table)[i].prompt ==>
                   exists k :: 0 <= k < |replies| &&
                     Rewrites(Window(recent)[k], replies[k], old(table)[i].botId, table[i].prompt))
    {
      LearningLoopRewrites(table, bots, recent, replies);
      var window := Window(recent);
      raised := false;
      if Optimizer !in bots {
        return;
      }
      ghost var start := table;
      var k := 0;
      while k < |window|
        invariant 0 <= k <= |window|
        invariant bots == old(bots)
        invariant forall t :: t in window ==> t.botId.Some?
        invariant Learn(table, window[k..], replies[k..]) == Learn(start, window, replies)
      {
        var t := window[k];
        assert t in window;
        assert window[k..][0] == t && window[k..][1..] == window[k + 1..];
        assert replies[k..][0] == replies[k] && replies[k..][1..] == replies[k + 1..];
        var bot := t.botId.value;
        if bot !in BotIds(table) {
          raised := true;
          return;
        }
        if !InDeadband(t.pnlPct) {
          match replies[k]
          case Raised(_) =>
            raised := true;
            return;
          case Answer(text) =>
            if Contains(text, PromptMarker) {
              table := SetPrompt(table, bot, Written(EvolvedPrompt(text)));
            }
        }
        k := k + 1;
      }
    }
  }
}
