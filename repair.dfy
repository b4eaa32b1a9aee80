/**
  The cleanup, repair and fallback the agent applies to the extracted text
  before it trusts it as an action directive: fence stripping, one pass of
  trailing-comma removal, a parse, a second repair and parse, and a synthetic
  "screenshot" directive when both parses fail.
*/
module Repair {
  import opened Wrappers
  import opened Text
  import opened PyJson

  /** `json.loads` restricted to objects: the decoded dict, or the decode error's message. */
  type Parser = string -> Result<Dict, string>

  /**
    Trim, drop a leading "```json" and then a leading "```", drop a trailing
    "```", trim again.
  */
  function StripFences(t: string): (r: string)
    ensures |r| <= |t|
    ensures Strip(r) == r
  {
    var d := CutFences(Strip(t));
    StripIdempotent(d);
    Strip(d)
  }

  /** The three fence cuts of the cleanup: a leading "```json", else a leading "```", then a trailing "```". */
  function CutFences(a: string): (d: string)
    ensures |d| <= |a|
  {
    var b := if StartsWith(a, "```json") then a[7..] else a;
    var c := if StartsWith(b, "```") then b[3..] else b;
    if EndsWith(c, "```") then c[..|c| - 3] else c
  }

  /** The closing characters a comma pass looks for: `}` always, `]` in the first pass only. */
  predicate Closer(c: char, bracketsToo: bool) {
    c == '}' || (bracketsToo && c == ']')
  }

  /** The comma at `i` is followed by optional spaces and then a closer. */
  predicate Dropped(s: string, i: nat, bracketsToo: bool)
    requires i < |s|
  {
    s[i] == ',' && var j := SkipSpace(s, i + 1); j < |s| && Closer(s[j], bracketsToo)
  }

  /**
    One left-to-right `re.sub` pass of `,(\s*[}\]])` -> `\1` (with `bracketsToo`)
    or of `,(\s*)(?=})` -> `\1` (without), over `s[i..]`: each comma followed,
    in the input, by spaces and a closer is deleted; every other character stays.
  */
  function DropCommasFrom(s: string, i: nat, bracketsToo: bool): (r: string)
    requires i <= |s|
    ensures |r| <= |s| - i
    decreases |s| - i
  {
    if i == |s| then []
    else (if Dropped(s, i, bracketsToo) then [] else [s[i]]) + DropCommasFrom(s, i + 1, bracketsToo)
  }

  function DropCommas(s: string, bracketsToo: bool): string {
    DropCommasFrom(s, 0, bracketsToo)
  }

  /** The first-pass cleanup: fences, spaces, then trailing commas before `}` or `]`. */
  function Cleanup(t: string): string {
    DropCommas(StripFences(t), true)
  }

  /**
    `re.sub(r'^[^{]*({.*})[^}]*$', r'\1', s, flags=re.DOTALL)`: keep the span from
    the first `{` to the last `}` when the last `}` lies after the first `{`.
  */
  function CutToBraces(s: string): (r: string)
    ensures r == s || (|r| >= 2 && r[0] == '{' && r[|r| - 1] == '}')
    ensures Contains(s, r)
    ensures BracePair(s) ==> exists a, b :: CutAt(s, a, b) && r == s[a..b + 1]
    ensures !BracePair(s) ==> r == s
  {
    var a := FindChar(s, '{', 0);
    var b := FindLastChar(s, '}');
    if a >= 0 && b > a then
      assert OccursAt(s, s[a..b + 1], a);
      assert CutAt(s, a, b);
      s[a..b + 1]
    else
      assert OccursAt(s, s, 0);
      PairFound(s);
      s
  }

  /** A `{` before a `}` is seen by the two scans. */
  lemma PairFound(s: string)
    ensures BracePair(s) ==> 0 <= FindChar(s, '{', 0) < FindLastChar(s, '}')
  {
    if BracePair(s) {
      var i, j :| 0 <= i < j < |s| && s[i] == '{' && s[j] == '}';
      assert FindChar(s, '{', 0) <= i && j <= FindLastChar(s, '}');
    }
  }

  /** Some `{` comes before some `}`: the pattern matches. */
  predicate BracePair(s: string) {
    exists i, j :: 0 <= i < j < |s| && s[i] == '{' && s[j] == '}'
  }

  /** `a` is the first `{` of `s` and `b` its last `}`, after it. */
  predicate CutAt(s: string, a: int, b: int) {
    && 0 <= a < b < |s| && s[a] == '{' && s[b] == '}'
    && (forall k :: 0 <= k < a ==> s[k] != '{')
    && (forall k :: b < k < |s| ==> s[k] != '}')
  }

  /** The second attempt: commas before `}` removed, then the brace span cut out. */
  function RetryText(c: string): string {
    CutToBraces(DropCommas(c, false))
  }

  /** The diagnosis recorded when both parses fail, from the text of the first attempt. */
  function FailureReason(c: string): string {
    if |c| == 0 then "Empty response"
    else if !StartsWith(Strip(c), "{") then "Response doesn't start with '{'"
    else if !EndsWith(Strip(c), "}") then "Response doesn't end with '}'"
    else "Invalid JSON syntax"
  }

  const EmptyReasoning := "Empty response received, taking screenshot to assess current state"

  /** The directive used when the cleaned text is empty. */
  const EmptyDirective: Dict := [Field("Reasoning", JStr(EmptyReasoning)), Field("Next Action", JStr("screenshot"))]

  /** The directive used when both parses fail. */
  function FallbackDirective(reason: string): (d: Dict)
    ensures HasKey(d, "Next Action") && Get(d, "Next Action") == JStr("screenshot")
    ensures !HasKey(d, "Box ID")
  {
    var d := [Field("Reasoning", JStr("JSON parsing failed (" + reason + "), taking screenshot to assess current state")),
              Field("Next Action", JStr("screenshot"))];
    assert d[0].key != "Next Action" && d[0].key != "Box ID" && d[1].key != "Box ID";
    assert KeyIndex(d, "Next Action") == 1;
    d
  }

  /** The directive dict the agent goes on with, given the extracted text `t`. */
  function Decide(t: string, parse: Parser): Dict {
    DecideCleaned(Cleanup(t), parse)
  }

  /** The decision on an already cleaned text `c`. */
  function DecideCleaned(c: string, parse: Parser): Dict {
    if AllSpace(c) then EmptyDirective
    else match parse(c)
      case Ok(d) => d
      case Err(_) =>
        match parse(RetryText(c))
        case Ok(d) => d
        case Err(_) => FallbackDirective(FailureReason(c))
  }

  // ---------------------------------------------------------------------------
  // The comma pass

  /** A comma can only be deleted with a closer after it, so the last character always survives. */
  lemma {:induction false} DropCommasKeepsLast(s: string, i: nat, bracketsToo: bool)
    requires i < |s|
    ensures var r := DropCommasFrom(s, i, bracketsToo); |r| > 0 && r[|r| - 1] == s[|s| - 1]
    decreases |s| - i
  {
    if i + 1 < |s| {
      DropCommasKeepsLast(s, i + 1, bracketsToo);
    } else {
      assert !Dropped(s, i, bracketsToo);
    }
  }

  /** Without deletable commas the pass is the identity. */
  lemma {:induction false} DropCommasIdentity(s: string, i: nat, bracketsToo: bool)
    requires i <= |s|
    requires forall k :: i <= k < |s| ==> !Dropped(s, k, bracketsToo)
    ensures DropCommasFrom(s, i, bracketsToo) == s[i..]
    decreases |s| - i
  {
    if i < |s| {
      DropCommasIdentity(s, i + 1, bracketsToo);
      assert s[i..] == [s[i]] + s[i + 1..];
    }
  }

  /** A deletable comma makes the result shorter than the input. */
  lemma {:induction false} DropCommasShortens(s: string, i: nat, k: nat, bracketsToo: bool)
    requires i <= k < |s| && Dropped(s, k, bracketsToo)
    ensures |DropCommasFrom(s, i, bracketsToo)| < |s| - i
    decreases k - i
  {
    if i < k { DropCommasShortens(s, i + 1, k, bracketsToo); }
  }

  /** The pass leaves a text unchanged exactly when no comma in it is followed by spaces and a closer. */
  lemma CommaCleanIff(s: string, bracketsToo: bool)
    ensures DropCommas(s, bracketsToo) == s <==> forall k :: 0 <= k < |s| ==> !Dropped(s, k, bracketsToo)
  {
    if forall k :: 0 <= k < |s| ==> !Dropped(s, k, bracketsToo) {
      DropCommasIdentity(s, 0, bracketsToo);
    } else {
      var k :| 0 <= k < |s| && Dropped(s, k, bracketsToo);
      DropCommasShortens(s, 0, k, bracketsToo);
    }
  }

  /** A character the pass keeps comes first in what the pass returns from its position on. */
  lemma KeepStep(s: string, i: nat, bracketsToo: bool)
    requires i < |s| && !Dropped(s, i, bracketsToo)
    ensures DropCommasFrom(s, i, bracketsToo) == [s[i]] + DropCommasFrom(s, i + 1, bracketsToo)
  { }

  /** A comma the pass deletes contributes nothing. */
  lemma DropStep(s: string, i: nat, bracketsToo: bool)
    requires i < |s| && Dropped(s, i, bracketsToo)
    ensures DropCommasFrom(s, i, bracketsToo) == DropCommasFrom(s, i + 1, bracketsToo)
  { }

  lemma SliceCons(s: string, i: nat, p: nat)
    requires i < p <= |s|
    ensures s[i..p] == [s[i]] + s[i + 1..p]
  { }

  /** With exactly one deletable comma, at `p`, the pass deletes that character and nothing else. */
  lemma {:induction false} DropCommasSkipsOne(s: string, i: nat, p: nat, bracketsToo: bool)
    requires i <= p < |s| && Dropped(s, p, bracketsToo)
    requires forall k :: i <= k < |s| && k != p ==> !Dropped(s, k, bracketsToo)
    ensures DropCommasFrom(s, i, bracketsToo) == s[i..p] + s[p + 1..]
    decreases p - i
  {
    if i < p {
      DropCommasSkipsOne(s, i + 1, p, bracketsToo);
      KeepStep(s, i, bracketsToo);
      SliceCons(s, i, p);
    } else {
      DropCommasIdentity(s, p + 1, bracketsToo);
      DropStep(s, p, bracketsToo);
      assert s[p..p] == [];
    }
  }

  /** Past an inserted character, the space scan runs one position later. */
  lemma {:induction false} SkipSpaceAfterInsert(pre: string, c: char, post: string, k: nat)
    requires |pre| < k <= |pre| + 1 + |post|
    ensures SkipSpace(pre + [c] + post, k) == SkipSpace(pre + post, k - 1) + 1
    decreases |pre| + 1 + |post| - k
  {
    var u, t := pre + [c] + post, pre + post;
    if k < |u| {
      assert u[k] == t[k - 1];
      if IsSpace(u[k]) { SkipSpaceAfterInsert(pre, c, post, k + 1); }
    }
  }

  /** Before an inserted non-space character, the space scan stops where it did or at the insertion. */
  lemma {:induction false} SkipSpaceBeforeInsert(pre: string, c: char, post: string, k: nat)
    requires k <= |pre| && !IsSpace(c)
    ensures var j := SkipSpace(pre + post, k);
      SkipSpace(pre + [c] + post, k) == if j < |pre| then j else |pre|
    decreases |pre| - k
  {
    var u, t := pre + [c] + post, pre + post;
    if k < |pre| {
      assert u[k] == t[k];
      if IsSpace(u[k]) { SkipSpaceBeforeInsert(pre, c, post, k + 1); }
    }
  }

  lemma NoDropBeforeInsert(pre: string, post: string, k: nat, bracketsToo: bool)
    requires k < |pre| && !Dropped(pre + post, k, bracketsToo)
    ensures !Dropped(pre + [','] + post, k, bracketsToo)
  {
    var u, t := pre + [','] + post, pre + post;
    assert u[k] == t[k];
    SkipSpaceBeforeInsert(pre, ',', post, k + 1);
    var j := SkipSpace(t, k + 1);
    assert j < |pre| ==> u[j] == t[j];
  }

  lemma NoDropAfterInsert(pre: string, post: string, k: nat, bracketsToo: bool)
    requires |pre| < k < |pre| + 1 + |post| && !Dropped(pre + post, k - 1, bracketsToo)
    ensures !Dropped(pre + [','] + post, k, bracketsToo)
  {
    var u, t := pre + [','] + post, pre + post;
    assert u[k] == t[k - 1];
    SkipSpaceAfterInsert(pre, ',', post, k + 1);
    var j := SkipSpace(t, k);
    assert j < |t| ==> u[j + 1] == t[j];
  }

  /**
    One trailing comma before a closer is repaired: inserting a comma in front of
    the spaces and closer of a text that has no deletable comma, the pass gives
    back exactly that text.
  */
  lemma {:induction false} TrailingCommaRemoved(pre: string, post: string, bracketsToo: bool)
    requires DropCommas(pre + post, bracketsToo) == pre + post
    requires var j := SkipSpace(pre + post, |pre|); j < |pre + post| && Closer((pre + post)[j], bracketsToo)
    ensures DropCommas(pre + [','] + post, bracketsToo) == pre + post
  {
    var u, t, p := pre + [','] + post, pre + post, |pre|;
    CommaCleanIff(t, bracketsToo);
    SkipSpaceAfterInsert(pre, ',', post, p + 1);
    assert Dropped(u, p, bracketsToo) by {
      assert u[SkipSpace(u, p + 1)] == t[SkipSpace(t, p)];
    }
    forall k | 0 <= k < |u| && k != p ensures !Dropped(u, k, bracketsToo) {
      if k < p {
        NoDropBeforeInsert(pre, post, k, bracketsToo);
      } else {
        NoDropAfterInsert(pre, post, k, bracketsToo);
      }
    }
    DropCommasSkipsOne(u, 0, p, bracketsToo);
    assert u[0..p] == pre && u[p + 1..] == post;
  }

  /** ",,}" keeps one comma after the first pass; the retry's pass removes it. */
  lemma SinglePassLeavesOneComma()
    ensures DropCommas(",,}", true) == ",}"
    ensures DropCommas(",}", false) == "}"
  {
    var s := ",,}";
    assert SkipSpace(s, 1) == 1 && SkipSpace(s, 2) == 2;
    assert !Dropped(s, 0, true) && Dropped(s, 1, true) && !Dropped(s, 2, true);
    assert DropCommasFrom(s, 2, true) == "}";
    assert DropCommasFrom(s, 1, true) == "}";
    var t := ",}";
    assert SkipSpace(t, 1) == 1;
    assert Dropped(t, 0, false) && !Dropped(t, 1, false);
    assert DropCommasFrom(t, 1, false) == "}";
  }

  // ---------------------------------------------------------------------------
  // Fences and the brace cut

  /** A text that neither starts nor ends with a backtick carries no fence marker. */
  lemma NoFenceMarkers(a: string)
    requires a == [] || (a[0] != '`' && a[|a| - 1] != '`')
    ensures !StartsWith(a, "```json") && !StartsWith(a, "```") && !EndsWith(a, "```")
  {
    assert |a| >= 7 ==> a[..7][0] == a[0];
    assert |a| >= 3 ==> a[..3][0] == a[0] && a[|a| - 3..][2] == a[|a| - 1];
  }

  /** Fence stripping of a text whose trimmed form has no marker at either end is plain trimming. */
  lemma StripFencesUnmarked(t: string)
    requires Strip(t) == [] || (Strip(t)[0] != '`' && Strip(t)[|Strip(t)| - 1] != '`')
    ensures StripFences(t) == Strip(t)
  {
    NoFenceMarkers(Strip(t));
    StripIdempotent(t);
  }

  /** Without backticks, fence stripping is plain trimming. */
  lemma StripFencesWithoutBackticks(t: string)
    requires forall k :: 0 <= k < |t| ==> t[k] != '`'
    ensures StripFences(t) == Strip(t)
  {
    var a := Strip(t);
    if a != [] {
      assert a[0] == t[StripStart(t)];
      assert a[|a| - 1] == t[StripStart(t) + |a| - 1];
    }
    StripFencesUnmarked(t);
  }

  /** A trimmed object text passes fence stripping unchanged. */
  lemma StripFencesOfObjectText(t: string)
    requires |t| >= 2 && t[0] == '{' && t[|t| - 1] == '}'
    ensures StripFences(t) == t
  {
    StripOfStripped(t);
    StripFencesUnmarked(t);
  }

  /** Cutting to the brace span twice is cutting once. */
  lemma CutToBracesIdempotent(s: string)
    ensures CutToBraces(CutToBraces(s)) == CutToBraces(s)
  {
    var r := CutToBraces(s);
    if r != s {
      assert FindChar(r, '{', 0) == 0;
      assert FindLastChar(r, '}') == |r| - 1;
      assert r[0..|r|] == r;
    }
  }

  // ---------------------------------------------------------------------------
  // The decision

  /**
    The cleaned text is empty (or only spaces) exactly when the fence-stripped
    text is empty; then the default directive is produced without consulting
    the parser, and otherwise a first successful parse is taken as it is.
  */
  lemma {:induction false} EmptyShortCircuit(t: string, parse: Parser)
    ensures AllSpace(Cleanup(t)) <==> StripFences(t) == []
    ensures StripFences(t) == [] ==> Decide(t, parse) == EmptyDirective
    ensures StripFences(t) != [] && parse(Cleanup(t)).Ok? ==> Decide(t, parse) == parse(Cleanup(t)).value
  {
    var f := StripFences(t);
    if f != [] {
      DropCommasKeepsLast(f, 0, true);
      var c := Cleanup(t);
      assert !IsSpace(c[|c| - 1]);
    }
  }

  /**
    After two failed parses the directive is the "screenshot" fallback, and its
    reason is read off the first attempt's text: never "Empty response" (that
    text is not empty), and "Invalid JSON syntax" exactly when the trimmed text
    starts with `{` and ends with `}`.
  */
  lemma {:induction false} FallbackAfterTwoFailures(t: string, parse: Parser)
    requires StripFences(t) != []
    requires parse(Cleanup(t)).Err? && parse(RetryText(Cleanup(t))).Err?
    ensures Decide(t, parse) == FallbackDirective(FailureReason(Cleanup(t)))
    ensures FailureReason(Cleanup(t)) != "Empty response"
    ensures FailureReason(Cleanup(t)) == "Invalid JSON syntax"
      <==> StartsWith(Strip(Cleanup(t)), "{") && EndsWith(Strip(Cleanup(t)), "}")
  {
    EmptyShortCircuit(t, parse);
  }

  /**
    One trailing comma before the closing `}` of an object text changes nothing:
    the directive is the one the comma-free text gives, parsed or not.
  */
  lemma {:induction false} TrailingCommaTolerated(pre: string, post: string, parse: Parser)
    requires |pre| > 0 && pre[0] == '{' && |post| > 0 && post[|post| - 1] == '}'
    requires DropCommas(pre + post, true) == pre + post
    requires var j := SkipSpace(pre + post, |pre|); j < |pre + post| && (pre + post)[j] == '}'
    ensures Decide(pre + [','] + post, parse) == Decide(pre + post, parse)
  {
    var u, t := pre + [','] + post, pre + post;
    assert u[0] == '{' && u[|u| - 1] == '}';
    assert t[0] == '{' && t[|t| - 1] == '}';
    StripFencesOfObjectText(u);
    StripFencesOfObjectText(t);
    TrailingCommaRemoved(pre, post, true);
    assert Cleanup(u) == Cleanup(t);
  }
}
