/**
  One reply followed through the whole pipeline: a labelled fence holding an
  object with a trailing comma and a Box ID, on an 800 by 600 screen whose
  element 5 covers the whole screen, gives a cursor move to (400, 300) and a
  `left_click`.
*/
module Scenario {
  import opened Wrappers
  import opened Text
  import opened PyJson
  import Extractor
  import Repair
  import Actions
  import Agent

  /** The object as the model wrote it, up to the trailing comma. */
  const Head := "{\"Reasoning\":\"x\"," + "\"Next Action\":\"left_click\"," + "\"Box ID\":5"

  /** The object without the trailing comma: what the parser is given. */
  const Clean := Head + "}"

  /** The raw reply: a labelled fence around the object with its trailing comma. */
  const Reply := "```json" + Body + "```"

  /** What the fence holds. */
  const Body := "\n" + Head + ",}\n"

  /** The dict `json.loads` makes of `Clean`. */
  const Parsed: Dict := [Field("Reasoning", JStr("x")), Field("Next Action", JStr("left_click")), Field("Box ID", JInt(5))]

  const Coordinate := JList([JInt(400), JInt(300)])

  /** The plan string the step shows for this reply. */
  const PlanText := "x" + ("\n" + "Next Action" + ": " + "left_click") + ("\n" + "Box ID" + ": " + "5")
    + ("\n" + Actions.CoordinateKey + ": " + "[400, 300]")

  lemma BodyHasNoBacktick()
    ensures forall k :: 0 <= k < |Body| ==> Body[k] != '`'
  {
    assert '`' !in Body;
    forall k | 0 <= k < |Body| ensures Body[k] != '`' {
      assert Body[k] in Body;
    }
  }

  lemma BodyStrips()
    ensures Strip(Body) == Head + ",}"
  {
    assert Body[0] == '\n' && Body[|Body| - 1] == '\n';
    assert Body[1] == '{' && Body[|Body| - 2] == '}';
    StripIsSlice(Body, 1, |Body| - 1);
    assert Body[1..|Body| - 1] == Head + ",}";
  }

  lemma ExtractsFencedObject()
    ensures Extractor.Extracted(Reply) == Head + ",}"
  {
    assert Reply == "" + "```json" + Body + "```" + "";
    BodyHasNoBacktick();
    Extractor.LabelledFenceWins("", Body, "");
    BodyStrips();
  }

  lemma CleanShape()
    ensures |Clean| >= 2 && Clean[|Clean| - 1] == '}' && Clean[|Clean| - 2] == '5'
    ensures forall j :: 0 <= j < |Clean| - 1 ==> Clean[j] != '}' && Clean[j] != ']'
  {
    assert '}' !in Head && ']' !in Head;
    forall j | 0 <= j < |Clean| - 1 ensures Clean[j] != '}' && Clean[j] != ']' {
      assert Clean[j] == Head[j] && Head[j] in Head;
    }
  }

  lemma NoCommaDroppedAt(k: nat)
    requires k < |Clean|
    ensures !Repair.Dropped(Clean, k, true)
  {
    CleanShape();
    var last := |Clean| - 1;
    if Clean[k] == ',' {
      assert k + 1 <= last - 1;
      assert !IsSpace(Clean[last - 1]);
      SkipSpaceStopsBy(Clean, k + 1, last - 1);
    }
  }

  lemma CleanHasNoTrailingComma()
    ensures Repair.DropCommas(Clean, true) == Clean
  {
    forall k | 0 <= k < |Clean| ensures !Repair.Dropped(Clean, k, true) {
      NoCommaDroppedAt(k);
    }
    Repair.CommaCleanIff(Clean, true);
  }

  lemma HeadOpens()
    ensures |Head| > 0 && Head[0] == '{'
  {
  }

  lemma CloserFollowsHead()
    ensures var t := Head + "}"; |Head| < |t| && SkipSpace(t, |Head|) == |Head| && t[|Head|] == '}'
  {
    var t := Head + "}";
    assert t[|Head|] == '}';
    SkipSpaceAt(t, |Head|, |Head|);
  }

  lemma CommaBeforeBrace(h: string)
    ensures h + [','] + "}" == h + ",}"
  {
  }

  lemma CommaToleratedHere(parse: Repair.Parser)
    ensures Repair.Decide(Head + ",}", parse) == Repair.Decide(Clean, parse)
  {
    CleanHasNoTrailingComma();
    HeadOpens();
    CloserFollowsHead();
    Repair.TrailingCommaTolerated(Head, "}", parse);
    CommaBeforeBrace(Head);
  }

  lemma CleanIsClean()
    ensures Repair.Cleanup(Clean) == Clean
  {
    CleanHasNoTrailingComma();
    Repair.StripFencesOfObjectText(Clean);
  }

  lemma DecidesParsedObject(parse: Repair.Parser)
    requires parse(Clean) == Ok(Parsed)
    ensures Repair.Decide(Head + ",}", parse) == Parsed
  {
    CommaToleratedHere(parse);
    CleanIsClean();
    assert !AllSpace(Clean) by { assert !IsSpace(Clean[0]); }
  }

  lemma ResolvesWholeScreenBox(elements: seq<Actions.Element>)
    requires |elements| > 5 && elements[5].bbox == Some(Actions.BBox(0.0, 0.0, 1.0, 1.0))
    ensures Actions.WithCoordinate(Parsed, elements, 800, 600) == Parsed + [Field(Actions.CoordinateKey, Coordinate)]
  {
    assert KeyIndex(Parsed, "Box ID") == 2;
    assert Actions.Centroid(Actions.BBox(0.0, 0.0, 1.0, 1.0), 800, 600) == (400, 300);
    assert KeyIndex(Parsed, Actions.CoordinateKey) == -1;
  }

  lemma ShowsNumbers()
    ensures Display(JInt(5)) == "5"
    ensures Repr(Coordinate) == "[400, 300]"
  {
    assert Digits(400) == "400" by { assert Digits(40) == "40"; assert Digits(4) == "4"; }
    assert Digits(300) == "300" by { assert Digits(30) == "30"; assert Digits(3) == "3"; }
    assert ReprItems([JInt(300)]) == "300";
  }

  lemma ReasoningPiece()
    ensures Actions.PlanPiece(Parsed[0]) == "x"
  {
  }

  lemma ActionPiece()
    ensures Actions.PlanPiece(Parsed[1]) == "\n" + "Next Action" + ": " + "left_click"
  {
    assert Parsed[1].key != "Reasoning";
  }

  lemma BoxPiece()
    ensures Actions.PlanPiece(Parsed[2]) == "\n" + "Box ID" + ": " + "5"
  {
    assert Parsed[2].key != "Reasoning";
    ShowsNumbers();
  }

  lemma CoordinatePiece()
    ensures Actions.PlanPiece(Field(Actions.CoordinateKey, Coordinate)) == "\n" + Actions.CoordinateKey + ": " + "[400, 300]"
  {
    assert Actions.CoordinateKey[0] != "Reasoning"[0];
    ShowsNumbers();
  }

  lemma ScenarioPlan()
    ensures Actions.Plan(Parsed + [Field(Actions.CoordinateKey, Coordinate)]) == PlanText
  {
    var f0, f1, f2, f3 := Parsed[0], Parsed[1], Parsed[2], Field(Actions.CoordinateKey, Coordinate);
    Actions.PlanOfPair(f0, f1);
    assert Parsed == [f0, f1] + [f2];
    Actions.PlanSnoc([f0, f1], f2);
    Actions.PlanSnoc(Parsed, f3);
    ReasoningPiece();
    ActionPiece();
    BoxPiece();
    CoordinatePiece();
  }

  lemma ScenarioKeys()
    ensures var d := Parsed + [Field(Actions.CoordinateKey, Coordinate)];
      && HasKey(d, Actions.CoordinateKey) && Get(d, Actions.CoordinateKey) == Coordinate
      && HasKey(d, "Next Action") && Get(d, "Next Action") == JStr("left_click")
  {
    var d := Parsed + [Field(Actions.CoordinateKey, Coordinate)];
    assert d[0].key != Actions.CoordinateKey && d[1].key != Actions.CoordinateKey && d[2].key != Actions.CoordinateKey;
    KeyIndexAt(d, Actions.CoordinateKey, 3);
    assert d[0].key != "Next Action";
    KeyIndexAt(d, "Next Action", 1);
  }

  lemma ScenarioBlocks()
    ensures var d := Parsed + [Field(Actions.CoordinateKey, Coordinate)];
      Actions.BlocksFor(d, PlanText) == Ok([
        Actions.TextBlock(PlanText),
        Actions.ToolUse(Actions.MouseMove(Coordinate)),
        Actions.ToolUse([Field("action", JStr("left_click"))])])
  {
    var d := Parsed + [Field(Actions.CoordinateKey, Coordinate)];
    ScenarioKeys();
    var move := Actions.ToolUse(Actions.MouseMove(Coordinate));
    var click := Actions.ToolUse([Field("action", JStr("left_click"))]);
    assert [Actions.TextBlock(PlanText)] + [move] + [click] == [Actions.TextBlock(PlanText), move, click];
  }

  lemma RespondsWithMoveAndClick()
    ensures var d := Parsed + [Field(Actions.CoordinateKey, Coordinate)];
      Actions.Respond(d) == Ok([
        Actions.TextBlock(PlanText),
        Actions.ToolUse(Actions.MouseMove(Coordinate)),
        Actions.ToolUse([Field("action", JStr("left_click"))])])
  {
    ScenarioPlan();
    ScenarioBlocks();
  }

  /** The whole step after the provider call, for this reply. */
  lemma TrailingCommaClick(parse: Repair.Parser, elements: seq<Actions.Element>)
    requires parse(Clean) == Ok(Parsed)
    requires |elements| > 5 && elements[5].bbox == Some(Actions.BBox(0.0, 0.0, 1.0, 1.0))
    ensures Agent.Outcome(Reply, parse, elements, 800, 600) == Ok(([
        Actions.TextBlock(PlanText),
        Actions.ToolUse(Actions.MouseMove(Coordinate)),
        Actions.ToolUse([Field("action", JStr("left_click"))])],
      Parsed + [Field(Actions.CoordinateKey, Coordinate)]))
  {
    ExtractsFencedObject();
    DecidesParsedObject(parse);
    ResolvesWholeScreenBox(elements);
    RespondsWithMoveAndClick();
  }
}
