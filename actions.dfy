/**
  Action materialisation: the decided directive dict becomes a pixel coordinate
  (from its "Box ID"), a plan string and the ordered list of content blocks the
  executor runs, as `VLMAgent.__call__` builds them after parsing.
*/
module Actions {
  import opened Wrappers
  import opened Text
  import opened PyJson
  import Repair

  /** The normalised bounding box `[x0, y0, x1, y1]` of a detected screen element. */
  datatype BBox = BBox(x0: real, y0: real, x1: real, y1: real)

  /** An entry of `parsed_content_list`; `bbox` is None when the entry has no usable box. */
  datatype Element = Element(bbox: Option<BBox>)

  /** A block of the assistant message: the plan text, or a `computer` tool use with its input dict. */
  datatype Block =
    | TextBlock(text: string)
    | ToolUse(input: Dict)

  const CoordinateKey := "box_centroid_coordinate"

  // ---------------------------------------------------------------------------
  // The coordinate

  /** Python's `int()` of a float: truncation toward zero. */
  function Trunc(r: real): (n: int)
    ensures r >= 0.0 ==> n as real <= r < n as real + 1.0
    ensures r < 0.0 ==> n as real - 1.0 < r <= n as real
  {
    if r >= 0.0 then r.Floor else -((-r).Floor)
  }

  /** `[int((x0 + x1) / 2 * W), int((y0 + y1) / 2 * H)]` for a screen of `w` by `h` pixels. */
  function Centroid(b: BBox, w: int, h: int): (int, int) {
    (Scale((b.x0 + b.x1) / 2.0, w), Scale((b.y0 + b.y1) / 2.0, h))
  }

  /** `int(m * side)`: a fraction of a screen side in pixels. */
  function Scale(m: real, side: int): int {
    Trunc(m * side as real)
  }

  /**
    The coordinate the "Box ID" resolves to, or None when any step of the lookup
    raises (absent key aside): `int()` refuses the value, the index is outside
    the list, or the element has no box. Negative indices count from the end.
  */
  function ResolveBox(d: Dict, elements: seq<Element>, w: int, h: int): (r: Option<(int, int)>)
    ensures r.Some? <==>
      && HasKey(d, "Box ID") && PyInt(Get(d, "Box ID")).Some?
      && PyIndex(PyInt(Get(d, "Box ID")).value, |elements|).Some?
      && elements[PyIndex(PyInt(Get(d, "Box ID")).value, |elements|).value].bbox.Some?
    ensures r.Some? ==>
      r.value == Centroid(elements[PyIndex(PyInt(Get(d, "Box ID")).value, |elements|).value].bbox.value, w, h)
  {
    if !HasKey(d, "Box ID") then None
    else match PyInt(Get(d, "Box ID"))
      case None => None
      case Some(k) =>
        match PyIndex(k, |elements|)
        case None => None
        case Some(i) =>
          match elements[i].bbox
          case None => None
          case Some(b) => Some(Centroid(b, w, h))
  }

  /** The directive with `box_centroid_coordinate` set when the Box ID resolves, unchanged otherwise. */
  function WithCoordinate(d: Dict, elements: seq<Element>, w: int, h: int): (r: Dict)
    ensures ResolveBox(d, elements, w, h).None? ==> r == d
    ensures ResolveBox(d, elements, w, h).Some? ==>
      var (x, y) := ResolveBox(d, elements, w, h).value;
      HasKey(r, CoordinateKey) && Get(r, CoordinateKey) == JList([JInt(x), JInt(y)])
    ensures forall k :: k != CoordinateKey ==> (HasKey(r, k) <==> HasKey(d, k))
    ensures forall k :: k != CoordinateKey && HasKey(d, k) ==> Get(r, k) == Get(d, k)
    ensures ResolveBox(d, elements, w, h).Some? && !HasKey(d, CoordinateKey) ==>
      var (x, y) := ResolveBox(d, elements, w, h).value;
      r == d + [Field(CoordinateKey, JList([JInt(x), JInt(y)]))]
    ensures HasKey(d, CoordinateKey) ==>
      && |r| == |d|
      && forall j :: 0 <= j < |d| ==> r[j].key == d[j].key && (j != KeyIndex(d, CoordinateKey) ==> r[j] == d[j])
  {
    match ResolveBox(d, elements, w, h)
    case None => d
    case Some((x, y)) => Set(d, CoordinateKey, JList([JInt(x), JInt(y)]))
  }

  // ---------------------------------------------------------------------------
  // The plan string

  /** What one entry adds to the plan: the Reasoning value bare, any other entry as "\nkey: value". */
  function PlanPiece(f: Field): string {
    if f.key == "Reasoning" then Display(f.value) else "\n" + f.key + ": " + Display(f.value)
  }

  /** The plan string: the pieces of all entries, in dict order. */
  function Plan(d: Dict): string {
    if d == [] then "" else Plan(d[..|d| - 1]) + PlanPiece(d[|d| - 1])
  }

  /** The loop that accumulates the plan string over the dict's items. */
  method PlanText(d: Dict) returns (plan: string)
    ensures plan == Plan(d)
  {
    plan := "";
    var i := 0;
    while i < |d|
      invariant 0 <= i <= |d|
      invariant plan == Plan(d[..i])
    {
      assert d[..i + 1][..i] == d[..i];
      plan := plan + PlanPiece(d[i]);
      i := i + 1;
    }
    assert d[..|d|] == d;
  }

  /** Appending an entry appends its piece. */
  lemma PlanSnoc(d: Dict, f: Field)
    ensures Plan(d + [f]) == Plan(d) + PlanPiece(f)
  {
    assert (d + [f])[..|d|] == d;
  }

  /** The plan of a split dict is the plan of each part, one after the other. */
  lemma {:induction false} PlanConcat(d: Dict, e: Dict)
    ensures Plan(d + e) == Plan(d) + Plan(e)
    decreases |e|
  {
    if e == [] {
      assert d + e == d;
    } else {
      var e', f := e[..|e| - 1], e[|e| - 1];
      assert e == e' + [f];
      assert d + e == (d + e') + [f];
      PlanSnoc(d + e', f);
      PlanSnoc(e', f);
      PlanConcat(d, e');
      AppendAssoc(Plan(d), Plan(e'), PlanPiece(f));
    }
  }

  lemma AppendAssoc(a: string, b: string, c: string)
    ensures a + b + c == a + (b + c)
  {
  }

  /** The plan of a two-entry dict. */
  lemma PlanOfPair(f: Field, g: Field)
    ensures Plan([f, g]) == PlanPiece(f) + PlanPiece(g)
  {
    assert [f, g][..1] == [f] && [f][..0] == [];
    assert Plan([f]) == "" + PlanPiece(f) == PlanPiece(f);
    assert Plan([f, g]) == Plan([f]) + PlanPiece(g);
  }

  /** Every entry shows in the plan as its piece: the Reasoning text, or "\nkey: value". */
  lemma {:induction false} PlanShowsEntry(d: Dict, i: nat)
    requires i < |d|
    ensures OccursAt(Plan(d), PlanPiece(d[i]), |Plan(d[..i])|)
    ensures Contains(Plan(d), PlanPiece(d[i]))
    decreases |d|
  {
    var d' := d[..|d| - 1];
    assert d == d' + [d[|d| - 1]];
    PlanSnoc(d', d[|d| - 1]);
    if i == |d| - 1 {
      assert d[..i] == d';
      OccursAtEnd(Plan(d'), PlanPiece(d[i]));
    } else {
      PlanShowsEntry(d', i);
      assert d'[..i] == d[..i] && d'[i] == d[i];
      OccursInLonger(Plan(d'), PlanPiece(d[|d| - 1]), PlanPiece(d[i]), |Plan(d[..i])|);
    }
    OccursGivesContains(Plan(d), PlanPiece(d[i]), |Plan(d[..i])|);
  }

  lemma OccursAtEnd(s: string, p: string)
    ensures OccursAt(s + p, p, |s|)
  {
    assert (s + p)[|s|..|s| + |p|] == p;
  }

  lemma OccursGivesContains(s: string, p: string, k: nat)
    requires OccursAt(s, p, k)
    ensures Contains(s, p)
  {
  }

  lemma OccursInLonger(s: string, t: string, p: string, k: nat)
    requires OccursAt(s, p, k)
    ensures OccursAt(s + t, p, k)
  {
    assert (s + t)[k..k + |p|] == s[k..k + |p|];
  }

  // ---------------------------------------------------------------------------
  // The block list

  /** The `mouse_move` tool input for a coordinate value. */
  function MouseMove(coordinate: Json): Dict {
    [Field("action", JStr("mouse_move")), Field("coordinate", coordinate)]
  }

  /**
    The blocks of the response, given the directive and its plan string, or the
    `KeyError` that escapes when "Next Action" is missing, or when it is "type"
    and "value" is missing.
  */
  function BlocksFor(d: Dict, plan: string): Result<seq<Block>, PyError> {
    var head := [TextBlock(plan)] + (if HasKey(d, CoordinateKey) then [ToolUse(MouseMove(Get(d, CoordinateKey)))] else []);
    if !HasKey(d, "Next Action") then Err(KeyError("Next Action"))
    else
      var action := Get(d, "Next Action");
      if action == JStr("None") then Ok(head)
      else if action == JStr("type") then
        if !HasKey(d, "value") then Err(KeyError("value"))
        else Ok(head + [ToolUse([Field("action", action), Field("text", Get(d, "value"))])])
      else Ok(head + [ToolUse([Field("action", action)])])
  }

  /**
    The response content for directive `d`: the plan first; a `mouse_move` to the
    stored coordinate exactly when the key is present; then one action block
    carrying "Next Action" as it is (no name is checked), none for "None", and
    the typed text for "type".
  */
  function Respond(d: Dict): (r: Result<seq<Block>, PyError>)
    ensures r.Err? <==> !HasKey(d, "Next Action") || (Get(d, "Next Action") == JStr("type") && !HasKey(d, "value"))
    ensures r.Err? ==> r.error == (if HasKey(d, "Next Action") then KeyError("value") else KeyError("Next Action"))
    ensures r.Ok? ==>
      var blocks := r.value;
      var moves := if HasKey(d, CoordinateKey) then 1 else 0;
      var acts := if Get(d, "Next Action") == JStr("None") then 0 else 1;
      && |blocks| == 1 + moves + acts
      && blocks[0] == TextBlock(Plan(d))
      && (moves == 1 ==> blocks[1] == ToolUse(MouseMove(Get(d, CoordinateKey))))
      && (acts == 1 ==> blocks[|blocks| - 1].ToolUse? && |blocks[|blocks| - 1].input| > 0 && blocks[|blocks| - 1].input[0] == Field("action", Get(d, "Next Action")))
      && (acts == 1 && Get(d, "Next Action") == JStr("type") ==> blocks[|blocks| - 1].input == [Field("action", JStr("type")), Field("text", Get(d, "value"))])
      && (acts == 1 && Get(d, "Next Action") != JStr("type") ==> blocks[|blocks| - 1] == ToolUse([Field("action", Get(d, "Next Action"))]))
  {
    BlocksFor(d, Plan(d))
  }

  /** Builds the response content by appending blocks, as the agent does. */
  method BuildResponse(d: Dict) returns (r: Result<seq<Block>, PyError>)
    ensures r == BlocksFor(d, Plan(d))
  {
    var plan := PlanText(d);
    var content := [TextBlock(plan)];
    if HasKey(d, CoordinateKey) {
      content := content + [ToolUse(MouseMove(Get(d, CoordinateKey)))];
    }
    assert content == [TextBlock(Plan(d))] + (if HasKey(d, CoordinateKey) then [ToolUse(MouseMove(Get(d, CoordinateKey)))] else []);
    if !HasKey(d, "Next Action") {
      return Err(KeyError("Next Action"));
    }
    var action := Get(d, "Next Action");
    if action == JStr("None") {
    } else if action == JStr("type") {
      if !HasKey(d, "value") {
        return Err(KeyError("value"));
      }
      content := content + [ToolUse([Field("action", action), Field("text", Get(d, "value"))])];
    } else {
      content := content + [ToolUse([Field("action", action)])];
    }
    r := Ok(content);
  }

  // ---------------------------------------------------------------------------
  // Properties

  /** With a box inside the unit square, the coordinate lies on the screen. */
  lemma CentroidOnScreen(b: BBox, w: nat, h: nat)
    requires 0.0 <= b.x0 <= 1.0 && 0.0 <= b.x1 <= 1.0 && 0.0 <= b.y0 <= 1.0 && 0.0 <= b.y1 <= 1.0
    ensures 0 <= Centroid(b, w, h).0 <= w && 0 <= Centroid(b, w, h).1 <= h
  {
    ScaledWithin((b.x0 + b.x1) / 2.0, w);
    ScaledWithin((b.y0 + b.y1) / 2.0, h);
  }

  /** A fraction of a side, scaled and truncated, lies on that side. */
  lemma ScaledWithin(m: real, w: nat)
    requires 0.0 <= m <= 1.0
    ensures 0 <= Scale(m, w) <= w
  {
    var x := m * w as real;
    assert 0.0 <= x <= w as real by {
      assert (1.0 - m) * w as real >= 0.0;
    }
    var n := Trunc(x);
    assert n as real <= w as real;
  }

  /** The box (0.1, 0.2, 0.3, 0.4) on a 1000 by 500 screen resolves to (200, 150). */
  lemma CentroidExample()
    ensures Centroid(BBox(0.1, 0.2, 0.3, 0.4), 1000, 500) == (200, 150)
  {
    assert (0.1 + 0.3) / 2.0 * 1000.0 == 200.0;
    assert (0.2 + 0.4) / 2.0 * 500.0 == 150.0;
  }

  /** Truncation, not rounding: a centre at 99.9 pixels becomes 99, and -0.5 becomes 0. */
  lemma TruncatesTowardZero()
    ensures Trunc(99.9) == 99 && Trunc(-0.5) == 0 && Trunc(-1.5) == -1
  {
    assert (0.5).Floor == 0;
    assert (1.5).Floor == 1;
  }

  /** A negative Box ID picks an element counted from the end: -1 is the last one. */
  lemma NegativeBoxIdFromEnd(d: Dict, elements: seq<Element>, w: int, h: int)
    requires HasKey(d, "Box ID") && Get(d, "Box ID") == JInt(-1)
    requires |elements| > 0 && elements[|elements| - 1].bbox.Some?
    ensures ResolveBox(d, elements, w, h) == Some(Centroid(elements[|elements| - 1].bbox.value, w, h))
  {
  }

  /** An integer Box ID within the list picks that element, counted from the end when negative. */
  lemma IntBoxIdPicks(d: Dict, k: int, elements: seq<Element>, w: int, h: int)
    requires HasKey(d, "Box ID") && Get(d, "Box ID") == JInt(k)
    requires -|elements| <= k < |elements|
    ensures var e := elements[if k >= 0 then k else |elements| + k];
      ResolveBox(d, elements, w, h) == if e.bbox.Some? then Some(Centroid(e.bbox.value, w, h)) else None
  {
  }

  /** A Box ID given as the decimal text of an index resolves like the integer itself. */
  lemma {:induction false} TextualBoxId(d: Dict, e: Dict, k: int, elements: seq<Element>, w: int, h: int)
    requires HasKey(d, "Box ID") && Get(d, "Box ID") == JInt(k)
    requires HasKey(e, "Box ID") && Get(e, "Box ID") == JStr(Decimal(k))
    ensures ResolveBox(d, elements, w, h) == ResolveBox(e, elements, w, h)
  {
    IntOfDecimal(k);
  }

  /** An index outside the list (either side) leaves the directive without a coordinate. */
  lemma OutOfRangeBoxIdIgnored(d: Dict, elements: seq<Element>, w: int, h: int)
    requires HasKey(d, "Box ID") && Get(d, "Box ID").JInt?
    requires var k := Get(d, "Box ID").i; k >= |elements| || k < -(|elements| as int)
    ensures WithCoordinate(d, elements, w, h) == d
  {
  }

  /** The fallback directive yields its plan and a single `screenshot` action. */
  lemma FallbackTakesScreenshot(reason: string)
    ensures var text := "JSON parsing failed (" + reason + "), taking screenshot to assess current state";
      Respond(Repair.FallbackDirective(reason)) ==
        Ok([TextBlock(text + "\nNext Action: screenshot"), ToolUse([Field("action", JStr("screenshot"))])])
  {
    var text := "JSON parsing failed (" + reason + "), taking screenshot to assess current state";
    FallbackPlan(reason);
    FallbackBlocks(reason, text + "\nNext Action: screenshot");
  }

  lemma FallbackPlan(reason: string)
    ensures Plan(Repair.FallbackDirective(reason))
      == "JSON parsing failed (" + reason + "), taking screenshot to assess current state" + "\nNext Action: screenshot"
  {
    var text := "JSON parsing failed (" + reason + "), taking screenshot to assess current state";
    var f, g := Field("Reasoning", JStr(text)), Field("Next Action", JStr("screenshot"));
    assert Repair.FallbackDirective(reason) == [f, g];
    PlanOfPair(f, g);
    ScreenshotPiece();
  }

  lemma ScreenshotPiece()
    ensures PlanPiece(Field("Next Action", JStr("screenshot"))) == "\nNext Action: screenshot"
  {
    assert "Next Action" != "Reasoning";
    assert "\n" + "Next Action" + ": " + "screenshot" == "\nNext Action: screenshot";
  }

  lemma FallbackBlocks(reason: string, plan: string)
    ensures BlocksFor(Repair.FallbackDirective(reason), plan) == Ok([TextBlock(plan), ToolUse([Field("action", JStr("screenshot"))])])
  {
    var d := Repair.FallbackDirective(reason);
    assert d[0].key != CoordinateKey && d[1].key != CoordinateKey;
    assert !HasKey(d, CoordinateKey);
    assert d[0].key != "Next Action";
    KeyIndexAt(d, "Next Action", 1);
    var act := ToolUse([Field("action", JStr("screenshot"))]);
    assert [TextBlock(plan)] + [] + [act] == [TextBlock(plan), act];
  }

  /** "None" pauses: the response is the plan, plus the cursor move when one was resolved. */
  lemma NoneAddsNoAction(d: Dict)
    requires HasKey(d, "Next Action") && Get(d, "Next Action") == JStr("None")
    ensures Respond(d).Ok?
    ensures forall b :: b in Respond(d).value && b.ToolUse? ==> b.input == MouseMove(Get(d, CoordinateKey))
  {
  }
}
