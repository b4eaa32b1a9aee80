/**
  The JSON-parsing debug tool: a copy of the extractor that also reports what it
  tried, and an analysis that replays the agent's cleanup and retry on a reply
  and records the issues it meets along the way.
*/
module DebugTool {
  import opened Wrappers
  import opened Text
  import opened PyJson
  import Extractor
  import Repair

  /** `json.loads`: the value a text decodes to, of any JSON type, or the decoder's message. */
  type Loads = string -> Result<Json, string>

  /** `loads` decodes every text it accepts to an object. */
  ghost predicate ObjectsOnly(loads: Loads) {
    forall s :: loads(s).Ok? ==> loads(s).value.JObj?
  }

  /** The agent's parser over `loads`: an object's entries, any other value refused. */
  function ObjectEntries(loads: Loads): Repair.Parser {
    (s: string) =>
      match loads(s)
      case Ok(JObj(d)) => Ok(d)
      case Ok(_) => Err("not an object")
      case Err(e) => Err(e)
  }

  /** The description recorded for each of the four patterns, in the order they are tried. */
  const Descriptions := ["标准代码块格式", "无语言标识代码块", "仅开始标记", "直接JSON内容"]

  const ScanMethod := "查找完整JSON对象"
  const WholeTextMethod := "返回原字符串"

  /** The `debug_info` dict. */
  datatype DebugInfo = DebugInfo(
    originalLength: nat,
    hasMarkdownBlocks: bool,
    patternsTried: seq<string>,
    extractionMethod: string,
    issuesFound: seq<string>)

  /** The `analysis` dict. */
  datatype Analysis = Analysis(
    responseLength: nat,
    responsePreview: string,
    hasJsonBlocks: bool,
    hasJsonContent: bool,
    extractionSuccess: bool,
    parsingSuccess: bool,
    extractedContent: string,
    jsonObject: Option<Json>,
    issues: seq<string>,
    suggestions: seq<string>,
    extractionDebug: DebugInfo)

  // ---------------------------------------------------------------------------
  // extract_data_debug

  /** The method the brace scan records: its own name when it returns, else the whole-text fallback. */
  function FallbackMethod(s: string): string {
    var start := FindChar(s, '{', 0);
    if start != -1 && Extractor.ScanClose(s, start, 0).Some? then ScanMethod else WholeTextMethod
  }

  lemma SliceStep<T>(s: seq<T>, k: nat)
    requires k < |s|
    ensures s[..k + 1] == s[..k] + [s[k]]
  {
  }

  /** The report `extract_data_debug` returns beside the content. */
  function Info(s: string): DebugInfo {
    if s == [] then DebugInfo(0, false, [], "none", ["Empty or non-string input"])
    else
      var markdown := Contains(s, "```");
      match Extractor.FirstStage(s, 0)
      case Some((k, _)) => DebugInfo(|s|, markdown, Descriptions[..k + 1], Descriptions[k], [])
      case None => DebugInfo(|s|, markdown, Descriptions, FallbackMethod(s), [])
  }

  /**
    `extract_data_debug` as the source runs it. The content is exactly what the
    agent's extractor returns for the same text.
  */
  method ExtractDataDebug(s: string) returns (content: string, info: DebugInfo)
    ensures content == Extractor.Extracted(s)
    ensures info == Info(s)
  {
    if |s| == 0 {
      var issues := ["Empty or non-string input"];
      return "", DebugInfo(0, false, [], "none", issues);
    }
    var markdown := false;
    if Contains(s, "```") {
      markdown := true;
    }
    var found, tried := TryStagesRecording(s);
    if found.Some? {
      return found.value.1, DebugInfo(|s|, markdown, tried, Descriptions[found.value.0], []);
    }
    var how;
    content, how := BraceScan(s);
    info := DebugInfo(|s|, markdown, tried, how, []);
  }

  /** The pattern loop of `extract_data_debug`, which records each description before trying its pattern. */
  method TryStagesRecording(s: string) returns (found: Option<(nat, string)>, tried: seq<string>)
    ensures found == Extractor.FirstStage(s, 0)
    ensures found.Some? ==> tried == Descriptions[..found.value.0 + 1]
    ensures found.None? ==> tried == Descriptions
  {
    tried := [];
    var k := 0;
    while k < |Extractor.Stages|
      invariant 0 <= k <= |Extractor.Stages|
      invariant Extractor.FirstStage(s, 0) == Extractor.FirstStage(s, k)
      invariant tried == Descriptions[..k]
    {
      SliceStep(Descriptions, k);
      tried := tried + [Descriptions[k]];
      Extractor.ResultsAt(s, k);
      var m := Extractor.StageResult(Extractor.Stages[k], s);
      if m.Some? {
        return Some((k, m.value)), tried;
      }
      k := k + 1;
    }
    assert Descriptions[..4] == Descriptions;
    return None, tried;
  }

  /**
    The fallback of `extract_data_debug`: the brace-counting scan from the first
    `{`, which records its own name before it starts and the whole-text name when
    it does not return.
  */
  method BraceScan(s: string) returns (content: string, how: string)
    ensures var sp := Extractor.ScanSpan(s); content == Strip(s[sp.lo..sp.hi])
    ensures how == FallbackMethod(s)
  {
    how := "none";
    var start := FindChar(s, '{', 0);
    if start != -1 {
      how := ScanMethod;
      var close := Extractor.CountToClose(s, start);
      if close.Some? {
        assert Extractor.ScanSpan(s) == Extractor.Span(start, close.value + 1);
        return Strip(s[start..close.value + 1]), how;
      }
    }
    how := WholeTextMethod;
    assert Extractor.ScanSpan(s) == Extractor.Span(0, |s|);
    assert s[0..|s|] == s;
    return Strip(s), how;
  }

  /**
    The patterns tried are the descriptions up to and including the one that
    matched, which is the recorded method; all four when none matched. The
    markdown flag says whether the text holds three backticks.
  */
  lemma PatternsTriedInOrder(s: string)
    requires s != []
    ensures Info(s).hasMarkdownBlocks <==> Contains(s, "```")
    ensures Info(s).issuesFound == [] && Info(s).originalLength == |s|
    ensures var n := |Info(s).patternsTried|;
      && 1 <= n <= 4 && Info(s).patternsTried == Descriptions[..n]
      && (Extractor.FirstStage(s, 0).Some? ==> (Info(s).extractionMethod == Descriptions[n - 1]
            && Extractor.StageResult(Extractor.Stages[n - 1], s).Some?
            && forall j :: 0 <= j < n - 1 ==> Extractor.StageResult(Extractor.Stages[j], s).None?))
      && (Extractor.FirstStage(s, 0).None? ==> n == 4)
  {
    assert Descriptions[..4] == Descriptions;
    match Extractor.FirstStage(s, 0)
    case Some((k, _)) =>
      Extractor.ResultsAt(s, k);
      forall j | 0 <= j < k ensures Extractor.StageResult(Extractor.Stages[j], s).None? {
        Extractor.ResultsAt(s, j);
      }
    case None =>
  }

  /**
    The brace scan's own method name is never reported: when it is reached, no
    `}` follows the first `{`, so it never returns and the whole-text fallback
    overwrites the name.
  */
  lemma NeverReportsScan(s: string)
    ensures Info(s).extractionMethod != ScanMethod
    ensures s != [] && Extractor.FirstStage(s, 0).None? ==> Info(s).extractionMethod == WholeTextMethod
  {
    if s != [] {
      match Extractor.FirstStage(s, 0)
      case Some((k, _)) =>
        assert |Descriptions[k]| < |ScanMethod|;
      case None =>
        Extractor.DepthScanNeverReturns(s);
    }
  }

  /** The empty text reports one issue and no method. */
  lemma EmptyInputReport()
    ensures Info("") == DebugInfo(0, false, [], "none", ["Empty or non-string input"])
    ensures Extractor.Extracted("") == ""
  {
  }

  // ---------------------------------------------------------------------------
  // analyze_json_parsing_issues

  /** The first 200 characters and "..." for a longer reply, else the reply itself. */
  function Preview(response: string): (r: string)
    ensures |response| <= 200 ==> r == response
    ensures |response| > 200 ==> |r| == 203 && StartsWith(response, r[..200]) && EndsWith(r, "...")
  {
    if |response| > 200 then response[..200] + "..." else response
  }

  /** The structural issue of a cleaned text, at most one, by precedence: empty, no `{` first, no `}` last. */
  function StructuralIssues(c: string): (r: seq<string>)
    ensures |r| <= 1
    ensures r == [] <==> c != [] && StartsWith(c, "{") && EndsWith(c, "}")
  {
    if c == [] then ["提取后的JSON内容为空"]
    else if !StartsWith(c, "{") then ["JSON内容不以大括号开始"]
    else if !EndsWith(c, "}") then ["JSON内容不以大括号结束"]
    else []
  }

  const SyntaxSuggestion := "检查JSON语法，特别是逗号、引号和括号匹配"
  const RepairedSuggestion := "通过自动修复成功解析"
  const NoContentIssue := "无法从响应中提取JSON内容"
  const NoContentSuggestion := "检查响应是否包含有效的JSON代码块"

  /**
    The two parse attempts on the cleaned text `c`, recorded into `a`: a parse
    error adds an issue and a suggestion, then the repaired text is tried and
    its outcome adds a second suggestion.
  */
  function Attempts(a: Analysis, c: string, loads: Loads): Analysis {
    match loads(c)
    case Ok(d) => a.(parsingSuccess := true, jsonObject := Some(d))
    case Err(e) =>
      var a' := a.(issues := a.issues + ["JSON解析错误: " + e], suggestions := a.suggestions + [SyntaxSuggestion]);
      match loads(Repair.RetryText(c))
      case Ok(d) => a'.(parsingSuccess := true, jsonObject := Some(d), suggestions := a'.suggestions + [RepairedSuggestion])
      case Err(e2) => a'.(suggestions := a'.suggestions + ["自动修复也失败: " + e2])
  }

  /** What `analyze_json_parsing_issues` returns for a reply, with `loads` standing for `json.loads`. */
  function Analyze(response: string, loads: Loads): (a: Analysis)
    ensures a.responseLength == |response| && a.responsePreview == Preview(response)
    ensures a.extractedContent == Extractor.Extracted(response) && a.extractionDebug == Info(response)
    ensures a.extractionSuccess <==> Extractor.Extracted(response) != []
    ensures !a.hasJsonBlocks && !a.hasJsonContent
  {
    var t := Extractor.Extracted(response);
    if t == [] then
      Base(response).(issues := [NoContentIssue], suggestions := [NoContentSuggestion])
    else
      Attempts(Checked(response), Repair.Cleanup(t), loads)
  }

  /** The report before anything is judged: sizes, preview, extracted content and its debug record. */
  function Base(response: string): Analysis {
    Analysis(|response|, Preview(response), false, false, false, false, Extractor.Extracted(response), None, [], [], Info(response))
  }

  /** The report once content was extracted and its shape checked, before parsing. */
  function Checked(response: string): Analysis {
    Base(response).(extractionSuccess := true, issues := StructuralIssues(Repair.Cleanup(Extractor.Extracted(response))))
  }

  /** A parse attempt adds one issue exactly when the first parse fails. */
  lemma AttemptsIssues(a: Analysis, c: string, loads: Loads)
    ensures loads(c).Ok? ==> Attempts(a, c, loads).issues == a.issues
    ensures loads(c).Err? ==> Attempts(a, c, loads).issues == a.issues + ["JSON解析错误: " + loads(c).error]
  {
  }

  lemma AppendedPrefix(s: seq<string>, x: string)
    ensures (s + [x])[..|s|] == s && (s + [x])[|s|] == x
  {
  }

  /** Without extracted content nothing is parsed, and one issue and one suggestion say so. */
  lemma NothingExtractedReport(response: string, loads: Loads)
    requires Extractor.Extracted(response) == []
    ensures var a := Analyze(response, loads);
      && a.issues == [NoContentIssue] && a.suggestions == [NoContentSuggestion]
      && !a.parsingSuccess && a.jsonObject == None
  {
  }

  /**
    With extracted content, parsing succeeds exactly when the cleaned text or its
    repair parses, and the object is the first of the two that does. Suggestions
    appear exactly when the first parse fails: the syntax hint, then whether the
    repair rescued it.
  */
  lemma ParsingSuccessIff(response: string, loads: Loads)
    requires Extractor.Extracted(response) != []
    ensures var a := Analyze(response, loads); var c := Repair.Cleanup(Extractor.Extracted(response));
      && (a.parsingSuccess <==> loads(c).Ok? || loads(Repair.RetryText(c)).Ok?)
      && (a.parsingSuccess <==> a.jsonObject.Some?)
      && (loads(c).Ok? ==> a.jsonObject == Some(loads(c).value) && a.suggestions == [])
      && (loads(c).Err? ==> (|a.suggestions| == 2 && a.suggestions[0] == SyntaxSuggestion
            && (a.suggestions[1] == RepairedSuggestion <==> loads(Repair.RetryText(c)).Ok?)))
  {
    var c := Repair.Cleanup(Extractor.Extracted(response));
    if loads(c).Err? && loads(Repair.RetryText(c)).Err? {
      var e2 := loads(Repair.RetryText(c)).error;
      assert ("自动修复也失败: " + e2)[0] != RepairedSuggestion[0];
    }
  }

  /**
    With extracted content the issues begin with the one structural issue of the
    cleaned text, if any, in the order empty, no leading `{`, no trailing `}`;
    a failed first parse adds exactly one more, naming the parser's error.
  */
  lemma IssuesInOrder(response: string, loads: Loads)
    requires Extractor.Extracted(response) != []
    ensures var a := Analyze(response, loads); var c := Repair.Cleanup(Extractor.Extracted(response));
      var n := |StructuralIssues(c)|;
      && n <= |a.issues| && a.issues[..n] == StructuralIssues(c)
      && (loads(c).Ok? ==> |a.issues| == n)
      && (loads(c).Err? ==> |a.issues| == n + 1 && a.issues[n] == "JSON解析错误: " + loads(c).error)
  {
    var c := Repair.Cleanup(Extractor.Extracted(response));
    var s := StructuralIssues(c);
    AttemptsIssues(Checked(response), c, loads);
    if loads(c).Err? {
      AppendedPrefix(s, "JSON解析错误: " + loads(c).error);
    } else {
      assert s[..|s|] == s;
    }
  }

  /** `analyze_json_parsing_issues` as the source runs it, appending to the issue and suggestion lists. */
  method AnalyzeJsonParsingIssues(response: string, loads: Loads) returns (a: Analysis)
    ensures a == Analyze(response, loads)
  {
    a := Analysis(|response|, Preview(response), false, false, false, false, "", None, [], [], DebugInfo(0, false, [], "none", []));
    var extracted, info := ExtractDataDebug(response);
    a := a.(extractionDebug := info, extractedContent := extracted);
    if extracted != [] {
      a := a.(extractionSuccess := true);
      var cleaned := Repair.Cleanup(extracted);
      if cleaned == [] {
        a := a.(issues := a.issues + ["提取后的JSON内容为空"]);
      } else if !StartsWith(cleaned, "{") {
        a := a.(issues := a.issues + ["JSON内容不以大括号开始"]);
      } else if !EndsWith(cleaned, "}") {
        a := a.(issues := a.issues + ["JSON内容不以大括号结束"]);
      }
      assert a.issues == StructuralIssues(cleaned);
      a := RecordAttempts(a, cleaned, loads);
    } else {
      a := a.(issues := a.issues + [NoContentIssue]);
      a := a.(suggestions := a.suggestions + [NoContentSuggestion]);
    }
  }

  /** The two parse attempts of `analyze_json_parsing_issues`, step by step. */
  method RecordAttempts(a0: Analysis, cleaned: string, loads: Loads) returns (a: Analysis)
    ensures a == Attempts(a0, cleaned, loads)
  {
    a := a0;
    match loads(cleaned) {
      case Ok(d) =>
        a := a.(parsingSuccess := true, jsonObject := Some(d));
      case Err(e) =>
        a := a.(issues := a.issues + ["JSON解析错误: " + e]);
        a := a.(suggestions := a.suggestions + [SyntaxSuggestion]);
        match loads(Repair.RetryText(cleaned)) {
          case Ok(d) =>
            a := a.(parsingSuccess := true, jsonObject := Some(d));
            a := a.(suggestions := a.suggestions + [RepairedSuggestion]);
          case Err(e2) =>
            a := a.(suggestions := a.suggestions + ["自动修复也失败: " + e2]);
        }
    }
  }

  /**
    The analysis agrees with the agent whenever the cleaned text is not empty
    and the decoder yields objects: it parses exactly when the agent does not
    fall back, and then reports the very directive the agent goes on with. On
    an empty cleaned text the agent takes its default without parsing, while
    the analysis still calls the decoder.
  */
  lemma AnalysisAgreesWithAgent(response: string, loads: Loads)
    requires ObjectsOnly(loads)
    requires Repair.StripFences(Extractor.Extracted(response)) != []
    ensures var a := Analyze(response, loads); var t := Extractor.Extracted(response);
      var parse := ObjectEntries(loads);
      && a.extractionSuccess
      && (a.parsingSuccess ==> a.jsonObject == Some(JObj(Repair.Decide(t, parse))))
      && (!a.parsingSuccess ==> Repair.Decide(t, parse) == Repair.FallbackDirective(Repair.FailureReason(Repair.Cleanup(t))))
  {
    var t := Extractor.Extracted(response);
    var parse := ObjectEntries(loads);
    Repair.EmptyShortCircuit(t, parse);
    assert t != [] by {
      assert t == [] ==> Repair.StripFences(t) == [];
    }
    ParsingSuccessIff(response, loads);
    var c := Repair.Cleanup(t);
    EntriesOf(c, loads);
    EntriesOf(Repair.RetryText(c), loads);
  }

  /** Over a decoder that yields objects, the agent's parser succeeds exactly when `loads` does, with the object's entries. */
  lemma EntriesOf(c: string, loads: Loads)
    requires ObjectsOnly(loads)
    ensures loads(c).Ok? ==> loads(c).value.JObj? && ObjectEntries(loads)(c) == Ok(loads(c).value.fields)
    ensures loads(c).Err? ==> ObjectEntries(loads)(c).Err?
  {
  }

  /**
    A text that decodes to a value other than an object still counts as parsed,
    and that value is reported.
  */
  lemma NonObjectReported(response: string, loads: Loads)
    requires Extractor.Extracted(response) != []
    requires var c := Repair.Cleanup(Extractor.Extracted(response)); loads(c).Ok? && !loads(c).value.JObj?
    ensures var a := Analyze(response, loads); var c := Repair.Cleanup(Extractor.Extracted(response));
      a.parsingSuccess && a.jsonObject == Some(loads(c).value) && a.suggestions == []
  {
    ParsingSuccessIff(response, loads);
  }
}
