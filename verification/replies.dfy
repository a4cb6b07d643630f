/** Reading the line-oriented answers of the text-generation backends: a trader
    bot's `ACTION:` / `CONFIDENCE:` / `REASON:` reply and the council's
    `CONFIDENCE:` / `DECISION:` verdict. Both are read by one scan over the
    reply's lines that sets fields from defaults, and that `int()` rejecting a
    confidence ends early. */
module Replies {
  import opened Wrappers
  import opened Text

  /** What one backend call gave: its text, or the exception it raised. */
  datatype Reply = Answer(text: string) | Raised(message: string)

  lemma MarkerHasColon(line: string, marker: string)
    requires |marker| > 0 && marker[|marker| - 1] == ':' && Contains(line, marker)
    ensures Contains(line, ":")
  {
    var j := Find(line, marker).value;
    assert line[j..j + |marker|][|marker| - 1] == ':';
    assert OccursAt(line, ":", j + |marker| - 1);
    OccursContains(line, ":", j + |marker| - 1);
  }

  /** `marker in line`, for a marker that ends in a colon. */
  predicate Marked(line: string, marker: string)
    requires |marker| > 0 && marker[|marker| - 1] == ':'
    ensures Marked(line, marker) ==> Contains(line, ":")
  {
    if Contains(line, marker) then MarkerHasColon(line, marker); true else false
  }

  /** `line.split(":")[1]`: the text between the first colon and the next one
      (or the end of the line). */
  function SecondField(line: string): string
    requires Contains(line, ":")
  {
    SplitHasSecond(line, ":");
    Split(line, ":")[1]
  }

  lemma SecondFieldOf(line: string, a: string, b: string)
    requires ':' !in a && ':' !in b && line == a + ":" + b
    ensures Contains(line, ":") && SecondField(line) == b
  {
    SplitFirst(line, ':', |a|);
    assert line[..|a|] == a;
    assert line[|a| + 1..] == b;
    SplitNone(b, ':');
  }

  /** The scan over the lines of a reply, from the field values `f`. `step`
      reads one line; its flag is set when the line raised, which ends the scan
      with the fields as they were set so far. The flag of the result says
      whether the scan ended that way. */
  function Scan<F>(lines: seq<string>, f: F, step: (F, string) -> (F, bool)): (F, bool)
  {
    if lines == [] then (f, false)
    else
      var (g, stop) := step(f, lines[0]);
      if stop then (g, true) else Scan(lines[1..], g, step)
  }

  /** Lines after the one that raised are never read. */
  lemma {:induction false} ScanStops<F>(a: seq<string>, b: seq<string>, f: F,
                                        step: (F, string) -> (F, bool))
    requires Scan(a, f, step).1
    ensures Scan(a + b, f, step) == Scan(a, f, step)
  {
    assert a != [];
    var (g, stop) := step(f, a[0]);
    assert (a + b)[0] == a[0];
    if !stop {
      assert (a + b)[1..] == a[1..] + b;
      ScanStops(a[1..], b, g, step);
    }
  }

  /** The last line is read on top of what the earlier lines left, unless
      they ended the scan. */
  lemma {:induction false} ScanLast<F>(a: seq<string>, line: string, f: F,
                                       step: (F, string) -> (F, bool))
    ensures Scan(a + [line], f, step) ==
            (if Scan(a, f, step).1 then Scan(a, f, step) else step(Scan(a, f, step).0, line))
  {
    if a == [] {
      assert [] + [line] == [line];
      assert [line][1..] == [];
    } else {
      var (g, stop) := step(f, a[0]);
      assert (a + [line])[0] == a[0];
      if !stop {
        assert (a + [line])[1..] == a[1..] + [line];
        ScanLast(a[1..], line, g, step);
      }
    }
  }

  /** A field that line `k` sets and no later line touches ends with the value
      line `k` gave it, when the scan runs to the end. */
  lemma {:induction false} ScanLastSetter<F(!new), A>(lines: seq<string>, f: F,
                                                step: (F, string) -> (F, bool),
                                                k: nat, get: F -> A, v: A)
    requires !Scan(lines, f, step).1 && k < |lines|
    requires forall g :: get(step(g, lines[k]).0) == v
    requires forall g, m :: k < m < |lines| ==> get(step(g, lines[m]).0) == get(g)
    ensures get(Scan(lines, f, step).0) == v
    decreases |lines|
  {
    var init, last := lines[..|lines| - 1], lines[|lines| - 1];
    assert lines == init + [last];
    ScanLast(init, last, f, step);
    var before := Scan(init, f, step);
    assert !before.1;
    if k < |lines| - 1 {
      ScanLastSetter(init, f, step, k, get, v);
      assert get(step(before.0, lines[|lines| - 1]).0) == get(before.0);
    } else {
      assert get(step(before.0, lines[k]).0) == v;
    }
  }

  /** A line that raises whatever the fields are makes the whole scan raise. */
  lemma {:induction false} ScanRaisesAt<F>(lines: seq<string>, f: F,
                                           step: (F, string) -> (F, bool), k: nat)
    requires k < |lines|
    requires forall g :: step(g, lines[k]).1
    ensures Scan(lines, f, step).1
    decreases |lines|
  {
    var (g, stop) := step(f, lines[0]);
    if !stop {
      assert lines[1..][k - 1] == lines[k];
      ScanRaisesAt(lines[1..], g, step, k - 1);
    }
  }

  lemma ScanTwo<F>(a: string, b: string, f: F, g: F, h: F, step: (F, string) -> (F, bool))
    requires step(f, a) == (g, false) && step(g, b) == (h, false)
    ensures Scan([a, b], f, step) == (h, false)
  {
    assert [b][1..] == [];
    assert Scan([b], g, step) == (h, false);
    assert [a, b][1..] == [b];
  }

  /** Lines a step leaves alone leave the fields alone. */
  lemma {:induction false} ScanUnread<F>(lines: seq<string>, f: F,
                                         step: (F, string) -> (F, bool))
    requires forall k :: 0 <= k < |lines| ==> step(f, lines[k]) == (f, false)
    ensures Scan(lines, f, step) == (f, false)
  {
    if lines != [] {
      assert step(f, lines[0]) == (f, false);
      ScanUnread(lines[1..], f, step);
    }
  }

  // ---- a trader bot's reply (`get_decisions`) ----

  datatype Fields = Fields(action: string, confidence: int, reason: string)

  function WithReason(f: Fields, line: string): Fields {
    if Marked(line, "REASON:") then f.(reason := Strip(SecondField(line))) else f
  }

  /** One line of the reply: `ACTION:` sets the upper-cased action, then
      `CONFIDENCE:` the integer confidence (or raises), then `REASON:` the
      reason. */
  function DecisionLine(f: Fields, line: string): (Fields, bool) {
    var f1 := if Marked(line, "ACTION:") then f.(action := Upper(Strip(SecondField(line)))) else f;
    if Marked(line, "CONFIDENCE:") then
      match ParseInt(Strip(SecondField(line)))
      case None => (f1, true)
      case Some(c) => (WithReason(f1.(confidence := c), line), false)
    else (WithReason(f1, line), false)
  }

  /** Action `HOLD`, confidence 0 and the whole reply as reason, unless its
      lines say otherwise. */
  function DecisionDefaults(reply: string): Fields {
    Fields("HOLD", 0, reply)
  }

  function ParseDecision(reply: string): Fields {
    Scan(Split(reply, "\n"), DecisionDefaults(reply), DecisionLine).0
  }

  /** A reply that names none of the fields keeps every default. */
  lemma ParseDecisionDefaults(reply: string)
    requires !Contains(reply, "ACTION:") && !Contains(reply, "CONFIDENCE:") && !Contains(reply, "REASON:")
    ensures ParseDecision(reply) == Fields("HOLD", 0, reply)
  {
    var lines := Split(reply, "\n");
    var f := DecisionDefaults(reply);
    forall k | 0 <= k < |lines| ensures DecisionLine(f, lines[k]) == (f, false) {
      if Contains(lines[k], "ACTION:") { SplitPartContains(reply, "\n", k, "ACTION:"); }
      if Contains(lines[k], "CONFIDENCE:") { SplitPartContains(reply, "\n", k, "CONFIDENCE:"); }
      if Contains(lines[k], "REASON:") { SplitPartContains(reply, "\n", k, "REASON:"); }
    }
    ScanUnread(lines, f, DecisionLine);
  }

  /** A line that names an action sets it, whatever follows on the line. */
  lemma DecisionLineSetsAction(f: Fields, line: string)
    requires Marked(line, "ACTION:")
    ensures DecisionLine(f, line).0.action == Upper(Strip(SecondField(line)))
  {
  }

  /** A line whose confidence `int()` rejects ends the scan; the confidence
      and the reason keep the values earlier lines gave them. */
  lemma DecisionLineRaises(f: Fields, line: string)
    requires Marked(line, "CONFIDENCE:") && ParseInt(Strip(SecondField(line))).None?
    ensures DecisionLine(f, line).1
    ensures DecisionLine(f, line).0.confidence == f.confidence
    ensures DecisionLine(f, line).0.reason == f.reason
  {
  }

  /** A line that names no action keeps it. */
  lemma DecisionLineKeepsAction(f: Fields, line: string)
    requires !Contains(line, "ACTION:")
    ensures DecisionLine(f, line).0.action == f.action
  {
  }

  /** Later lines override earlier ones: when the scan runs to the end, the
      action is the one named on the last line that names an action. */
  lemma LastActionWins(lines: seq<string>, f: Fields, k: nat)
    requires !Scan(lines, f, DecisionLine).1
    requires k < |lines| && Marked(lines[k], "ACTION:")
    requires forall m :: k < m < |lines| ==> !Contains(lines[m], "ACTION:")
    ensures Scan(lines, f, DecisionLine).0.action == Upper(Strip(SecondField(lines[k])))
  {
    var get := (g: Fields) => g.action;
    forall g: Fields ensures get(DecisionLine(g, lines[k]).0) == Upper(Strip(SecondField(lines[k]))) {
      DecisionLineSetsAction(g, lines[k]);
    }
    forall g: Fields, m | k < m < |lines| ensures get(DecisionLine(g, lines[m]).0) == get(g) {
      DecisionLineKeepsAction(g, lines[m]);
    }
    ScanLastSetter(lines, f, DecisionLine, k, get, Upper(Strip(SecondField(lines[k]))));
  }

  /** A line with an integer confidence sets it and does not raise. */
  lemma DecisionLineSetsConfidence(f: Fields, line: string, c: int)
    requires Marked(line, "CONFIDENCE:") && ParseInt(Strip(SecondField(line))) == Some(c)
    ensures DecisionLine(f, line).0.confidence == c && !DecisionLine(f, line).1
  {
  }

  /** A line that names no confidence keeps it and does not raise. */
  lemma DecisionLineKeepsConfidence(f: Fields, line: string)
    requires !Contains(line, "CONFIDENCE:")
    ensures DecisionLine(f, line).0.confidence == f.confidence && !DecisionLine(f, line).1
  {
  }

  /** A line that names a reason sets the stripped reason, unless the line's
      confidence raised first. */
  lemma DecisionLineSetsReason(f: Fields, line: string)
    requires Marked(line, "REASON:")
    requires !(Marked(line, "CONFIDENCE:") && ParseInt(Strip(SecondField(line))).None?)
    ensures DecisionLine(f, line).0.reason == Strip(SecondField(line))
  {
  }

  /** A line that names no reason keeps it. */
  lemma DecisionLineKeepsReason(f: Fields, line: string)
    requires !Contains(line, "REASON:")
    ensures DecisionLine(f, line).0.reason == f.reason
  {
  }

  /** When the scan runs to the end, the confidence is the integer on the
      last line that names a confidence. */
  lemma LastConfidenceWins(lines: seq<string>, f: Fields, k: nat)
    requires !Scan(lines, f, DecisionLine).1
    requires k < |lines| && Marked(lines[k], "CONFIDENCE:")
    requires forall m :: k < m < |lines| ==> !Contains(lines[m], "CONFIDENCE:")
    ensures ParseInt(Strip(SecondField(lines[k]))) == Some(Scan(lines, f, DecisionLine).0.confidence)
  {
    var parsed := ParseInt(Strip(SecondField(lines[k])));
    assert parsed.Some? by {
      if parsed.None? {
        forall g: Fields ensures DecisionLine(g, lines[k]).1 {
          DecisionLineRaises(g, lines[k]);
        }
        ScanRaisesAt(lines, f, DecisionLine, k);
      }
    }
    var get := (g: Fields) => g.confidence;
    forall g: Fields ensures get(DecisionLine(g, lines[k]).0) == parsed.value {
      DecisionLineSetsConfidence(g, lines[k], parsed.value);
    }
    forall g: Fields, m | k < m < |lines| ensures get(DecisionLine(g, lines[m]).0) == get(g) {
      DecisionLineKeepsConfidence(g, lines[m]);
    }
    ScanLastSetter(lines, f, DecisionLine, k, get, parsed.value);
  }

  /** When the scan runs to the end, the reason is the stripped text of the
      last line that names a reason. */
  lemma LastReasonWins(lines: seq<string>, f: Fields, k: nat)
    requires !Scan(lines, f, DecisionLine).1
    requires k < |lines| && Marked(lines[k], "REASON:")
    requires forall m :: k < m < |lines| ==> !Contains(lines[m], "REASON:")
    ensures Scan(lines, f, DecisionLine).0.reason == Strip(SecondField(lines[k]))
  {
    var line := lines[k];
    assert !(Marked(line, "CONFIDENCE:") && ParseInt(Strip(SecondField(line))).None?) by {
      if Marked(line, "CONFIDENCE:") && ParseInt(Strip(SecondField(line))).None? {
        forall g: Fields ensures DecisionLine(g, line).1 {
          DecisionLineRaises(g, line);
        }
        ScanRaisesAt(lines, f, DecisionLine, k);
      }
    }
    var get := (g: Fields) => g.reason;
    forall g: Fields ensures get(DecisionLine(g, line).0) == Strip(SecondField(line)) {
      DecisionLineSetsReason(g, line);
    }
    forall g: Fields, m | k < m < |lines| ensures get(DecisionLine(g, lines[m]).0) == get(g) {
      DecisionLineKeepsReason(g, lines[m]);
    }
    ScanLastSetter(lines, f, DecisionLine, k, get, Strip(SecondField(line)));
  }

  // ---- the council's verdict (`analyze_signal`) ----

  datatype Verdict = Verdict(confidence: int, decision: string)

  function WithDecision(v: Verdict, line: string): Verdict {
    if Marked(line, "DECISION:") then v.(decision := Strip(SecondField(line))) else v
  }

  /** One line of the verdict: `CONFIDENCE:` sets the confidence (or raises),
      then `DECISION:` the decision. */
  function VerdictLine(v: Verdict, line: string): (Verdict, bool) {
    if Marked(line, "CONFIDENCE:") then
      match ParseInt(Strip(SecondField(line)))
      case None => (v, true)
      case Some(c) => (WithDecision(v.(confidence := c), line), false)
    else (WithDecision(v, line), false)
  }

  function ParseVerdict(verdict: string): Verdict {
    Scan(Split(verdict, "\n"), Verdict(50, verdict), VerdictLine).0
  }

  /** A verdict that names neither field: confidence 50, the whole verdict as
      the decision. */
  lemma ParseVerdictDefaults(verdict: string)
    requires !Contains(verdict, "CONFIDENCE:") && !Contains(verdict, "DECISION:")
    ensures ParseVerdict(verdict) == Verdict(50, verdict)
  {
    var lines := Split(verdict, "\n");
    var v := Verdict(50, verdict);
    forall k | 0 <= k < |lines| ensures VerdictLine(v, lines[k]) == (v, false) {
      if Contains(lines[k], "CONFIDENCE:") { SplitPartContains(verdict, "\n", k, "CONFIDENCE:"); }
      if Contains(lines[k], "DECISION:") { SplitPartContains(verdict, "\n", k, "DECISION:"); }
    }
    ScanUnread(lines, v, VerdictLine);
  }

  /** The verdict used when no synthesis was asked for. */
  const FallbackVerdict := "CONFIDENCE: 50\nDECISION: Consensus failed."

  lemma VerdictConfidenceLine(v: Verdict, line: string, c: int)
    requires Marked(line, "CONFIDENCE:") && !Contains(line, "DECISION:")
    requires ParseInt(Strip(SecondField(line))) == Some(c)
    ensures VerdictLine(v, line) == (v.(confidence := c), false)
  {
  }

  lemma VerdictDecisionLine(v: Verdict, line: string)
    requires Marked(line, "DECISION:") && !Contains(line, "CONFIDENCE:")
    ensures VerdictLine(v, line) == (v.(decision := Strip(SecondField(line))), false)
  {
  }

  lemma ParseFifty()
    ensures ParseInt("50") == Some(50)
  {
    var d := "50";
    assert IsDigitRun(d);
    assert d[..1] == "5";
    assert DigitValue(d) == DigitValue("5") * 10;
  }

  lemma FallbackConfidenceLine(v: Verdict, line: string, b: string)
    requires b == " 50" && line == "CONFIDENCE" + ":" + b
    ensures VerdictLine(v, line) == (v.(confidence := 50), false)
  {
    SecondFieldOf(line, "CONFIDENCE", b);
    StartsWithContains(line, "CONFIDENCE:");
    AbsentCharNotContained(line, "DECISION:", 'S');
    StripOneSpace(b);
    ParseFifty();
    VerdictConfidenceLine(v, line, 50);
  }

  lemma StripConsensus()
    ensures Strip(" Consensus failed.") == "Consensus failed."
  {
    StripOneSpace(" Consensus failed.");
  }

  lemma FallbackDecisionLine(v: Verdict, line: string, b: string)
    requires b == " Consensus failed." && line == "DECISION" + ":" + b
    ensures VerdictLine(v, line) == (v.(decision := "Consensus failed."), false)
  {
    SecondFieldOf(line, "DECISION", b);
    StartsWithContains(line, "DECISION:");
    AbsentCharNotContained(line, "CONFIDENCE:", 'F');
    StripConsensus();
    VerdictDecisionLine(v, line);
  }

  lemma ParseTwoLineVerdict(verdict: string, l1: string, l2: string, g: Verdict, h: Verdict)
    requires '\n' !in l1 && '\n' !in l2 && verdict == l1 + "\n" + l2
    requires VerdictLine(Verdict(50, verdict), l1) == (g, false)
    requires VerdictLine(g, l2) == (h, false)
    ensures ParseVerdict(verdict) == h
  {
    SplitInTwo(verdict, '\n', l1, l2);
    ScanTwo(l1, l2, Verdict(50, verdict), g, h, VerdictLine);
  }

  lemma FallbackLineSteps(verdict: string, l1: string, l2: string, b1: string, b2: string)
    requires b1 == " 50" && b2 == " Consensus failed."
    requires l1 == "CONFIDENCE" + ":" + b1 && l2 == "DECISION" + ":" + b2
    requires verdict == l1 + "\n" + l2
    ensures VerdictLine(Verdict(50, verdict), l1) == (Verdict(50, verdict), false)
    ensures VerdictLine(Verdict(50, verdict), l2) == (Verdict(50, "Consensus failed."), false)
  {
    var v := Verdict(50, verdict);
    FallbackConfidenceLine(v, l1, b1);
    FallbackDecisionLine(v, l2, b2);
  }

  lemma FallbackLinesUnbroken(l1: string, l2: string, b1: string, b2: string)
    requires b1 == " 50" && b2 == " Consensus failed."
    requires l1 == "CONFIDENCE" + ":" + b1 && l2 == "DECISION" + ":" + b2
    ensures '\n' !in l1 && '\n' !in l2
  {
  }

  lemma FallbackParse(verdict: string, l1: string, l2: string, b1: string, b2: string)
    requires b1 == " 50" && b2 == " Consensus failed."
    requires l1 == "CONFIDENCE" + ":" + b1 && l2 == "DECISION" + ":" + b2
    requires verdict == l1 + "\n" + l2
    ensures ParseVerdict(verdict) == Verdict(50, "Consensus failed.")
  {
    FallbackLineSteps(verdict, l1, l2, b1, b2);
    FallbackLinesUnbroken(l1, l2, b1, b2);
    ParseTwoLineVerdict(verdict, l1, l2, Verdict(50, verdict), Verdict(50, "Consensus failed."));
  }

  lemma FallbackConfidencePiece()
    ensures "CONFIDENCE: 50" == "CONFIDENCE" + ":" + " 50"
  {
  }

  lemma FallbackDecisionPiece()
    ensures "DECISION: Consensus failed." == "DECISION" + ":" + " Consensus failed."
  {
  }

  lemma FallbackLines()
    ensures FallbackVerdict == "CONFIDENCE: 50" + "\n" + "DECISION: Consensus failed."
  {
  }

  /** The fallback verdict reads as confidence 50, decision "Consensus failed.". */
  lemma FallbackVerdictParse()
    ensures ParseVerdict(FallbackVerdict) == Verdict(50, "Consensus failed.")
  {
    FallbackConfidencePiece();
    FallbackDecisionPiece();
    FallbackLines();
    FallbackParse(FallbackVerdict, "CONFIDENCE: 50", "DECISION: Consensus failed.",
                  " 50", " Consensus failed.");
  }
}
