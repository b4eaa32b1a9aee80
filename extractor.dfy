/**
  `extract_data(input_string, "json")`: pull the JSON payload out of a free-text
  model response. Four regular expressions are tried in a fixed order and the
  first one with any match wins; each is written here as a hand-made matcher
  that, like `re.findall(...)[0]`, reports the leftmost position where the
  pattern matches and the span its capture group takes there.
*/
module Extractor {
  import opened Wrappers
  import opened Text

  /** The four patterns, in the order they are tried. */
  datatype Stage =
    | LabelledFence  // ```json\s*(.*?)\s*```
    | BareFence      // ```\s*({.*?})\s*```
    | OpenFence      // ```json\s*(.*?)$
    | BareObject     // (\{[^{}]*(?:\{[^{}]*\}[^{}]*)*\})

  const Stages: seq<Stage> := [LabelledFence, BareFence, OpenFence, BareObject]

  /** The capture group of a match: `s[lo..hi]`. */
  datatype Span = Span(lo: nat, hi: nat)

  /** Three backticks start at `i`. */
  predicate FenceAt(s: string, i: nat) {
    i + 3 <= |s| && s[i] == '`' && s[i + 1] == '`' && s[i + 2] == '`'
  }

  /** The label `json` under `re.IGNORECASE` starts at `i` (`s` also matches U+017F, LATIN SMALL LETTER LONG S). */
  predicate LabelAt(s: string, i: nat) {
    i + 4 <= |s|
    && (s[i] == 'j' || s[i] == 'J')
    && (s[i + 1] == 's' || s[i + 1] == 'S' || s[i + 1] == '\U{17F}')
    && (s[i + 2] == 'o' || s[i + 2] == 'O')
    && (s[i + 3] == 'n' || s[i + 3] == 'N')
  }

  /** The opening marker ```json starts at `i`. */
  predicate LabelledOpenerAt(s: string, i: nat) {
    FenceAt(s, i) && LabelAt(s, i + 3)
  }

  /** The tail `\s*```` matches from `e`. */
  predicate ClosingTailAt(s: string, e: nat)
    requires e <= |s|
  {
    FenceAt(s, SkipSpace(s, e))
  }

  /** A lazy `(.*?)` followed by `\s*````: the least end `e >= i` from which the tail matches. */
  function LazyToFence(s: string, i: nat): (r: Option<nat>)
    requires i <= |s|
    ensures r.Some? ==> i <= r.value <= |s| && ClosingTailAt(s, r.value)
    ensures r.Some? ==> forall k :: i <= k < r.value ==> !ClosingTailAt(s, k)
    ensures r.None? ==> forall k :: i <= k <= |s| ==> !ClosingTailAt(s, k)
    decreases |s| - i
  {
    if ClosingTailAt(s, i) then Some(i)
    else if i == |s| then None
    else LazyToFence(s, i + 1)
  }

  /** A lazy `.*?` followed by `}\s*````: the least index `e >= i` of a `}` from which the tail matches. */
  function LazyToBraceFence(s: string, i: nat): (r: Option<nat>)
    requires i <= |s|
    ensures r.Some? ==> i <= r.value < |s| && s[r.value] == '}' && ClosingTailAt(s, r.value + 1)
    ensures r.Some? ==> forall k :: i <= k < r.value ==> !(s[k] == '}' && ClosingTailAt(s, k + 1))
    ensures r.None? ==> forall k :: i <= k < |s| ==> !(s[k] == '}' && ClosingTailAt(s, k + 1))
    decreases |s| - i
  {
    if i == |s| then None
    else if s[i] == '}' && ClosingTailAt(s, i + 1) then Some(i)
    else LazyToBraceFence(s, i + 1)
  }

  /**
    Where a lazy `(.*?)` followed by `$` stops: `$` (no MULTILINE) matches at the
    end of the text and just before a newline that ends it.
  */
  function DollarEnd(s: string, i: nat): (e: nat)
    requires i <= |s|
    ensures i <= e <= |s|
    ensures e == |s| || (e == |s| - 1 && s[e] == '\n')
  {
    if i < |s| && s[|s| - 1] == '\n' then |s| - 1 else |s|
  }

  /**
    The body of `\{[^{}]*(?:\{[^{}]*\}[^{}]*)*\}` after its first `{`: scanning
    from `i` at nesting `nested` (inside the one inner pair allowed), the index of
    the closing `}` of the outer pair, or None when a second level of nesting or
    the end of the text comes first.
  */
  function ObjectClose(s: string, i: nat, nested: bool): (r: Option<nat>)
    requires i <= |s|
    ensures r.Some? ==> i <= r.value < |s| && s[r.value] == '}'
    decreases |s| - i
  {
    if i == |s| then None
    else if s[i] == '{' then (if nested then None else ObjectClose(s, i + 1, true))
    else if s[i] == '}' then (if nested then ObjectClose(s, i + 1, false) else Some(i))
    else ObjectClose(s, i + 1, nested)
  }

  /** The capture group of `stage`'s pattern when a match starts at position `p`. */
  function MatchAt(stage: Stage, s: string, p: nat): (r: Option<Span>)
    requires p <= |s|
    ensures r.Some? ==> p <= r.value.lo <= r.value.hi <= |s|
  {
    match stage
    case LabelledFence => LabelledMatch(s, p)
    case BareFence => BareFenceMatch(s, p)
    case OpenFence => OpenFenceMatch(s, p)
    case BareObject => ObjectMatch(s, p)
  }

  function LabelledMatch(s: string, p: nat): (r: Option<Span>)
    requires p <= |s|
    ensures r.Some? ==> p <= r.value.lo <= r.value.hi <= |s|
  {
    if !LabelledOpenerAt(s, p) then None
    else
      var q := SkipSpace(s, p + 7);
      match LazyToFence(s, q)
      case Some(e) => Some(Span(q, e))
      case None => None
  }

  function BareFenceMatch(s: string, p: nat): (r: Option<Span>)
    requires p <= |s|
    ensures r.Some? ==> p <= r.value.lo <= r.value.hi <= |s|
  {
    if !FenceAt(s, p) then None
    else
      var q := SkipSpace(s, p + 3);
      if q == |s| || s[q] != '{' then None
      else
        match LazyToBraceFence(s, q + 1)
        case Some(e) => Some(Span(q, e + 1))
        case None => None
  }

  function OpenFenceMatch(s: string, p: nat): (r: Option<Span>)
    requires p <= |s|
    ensures r.Some? ==> p <= r.value.lo <= r.value.hi <= |s|
  {
    if !LabelledOpenerAt(s, p) then None
    else
      var q := SkipSpace(s, p + 7);
      Some(Span(q, DollarEnd(s, q)))
  }

  function ObjectMatch(s: string, p: nat): (r: Option<Span>)
    requires p <= |s|
    ensures r.Some? ==> p <= r.value.lo <= r.value.hi <= |s|
  {
    if p == |s| || s[p] != '{' then None
    else
      match ObjectClose(s, p + 1, false)
      case Some(e) => Some(Span(p, e + 1))
      case None => None
  }

  /** The leftmost position at or after `p` where `stage`'s pattern matches. */
  function FirstMatch(stage: Stage, s: string, p: nat): (r: Option<nat>)
    requires p <= |s|
    ensures r.Some? ==> p <= r.value <= |s| && MatchAt(stage, s, r.value).Some?
    ensures r.Some? ==> forall k :: p <= k < r.value ==> MatchAt(stage, s, k).None?
    ensures r.None? ==> forall k :: p <= k <= |s| ==> MatchAt(stage, s, k).None?
    decreases |s| - p
  {
    if MatchAt(stage, s, p).Some? then Some(p)
    else if p == |s| then None
    else FirstMatch(stage, s, p + 1)
  }

  /** `re.findall(pattern, s)[0].strip()` when the pattern matches at all. */
  function StageResult(stage: Stage, s: string): (r: Option<string>)
    ensures r.Some? ==> Contains(s, r.value) && Strip(r.value) == r.value
  {
    match FirstMatch(stage, s, 0)
    case None => None
    case Some(p) =>
      var sp := MatchAt(stage, s, p).value;
      StripIsSubstring(s, sp.lo, sp.hi);
      StripIdempotent(s[sp.lo..sp.hi]);
      Some(Strip(s[sp.lo..sp.hi]))
  }

  /** What each of the four patterns yields on `s`, in the order they are tried. */
  function Results(s: string): seq<Option<string>> {
    [StageResult(LabelledFence, s), StageResult(BareFence, s), StageResult(OpenFence, s), StageResult(BareObject, s)]
  }

  lemma ResultsAt(s: string, k: nat)
    requires k < |Stages|
    ensures |Results(s)| == |Stages| && Results(s)[k] == StageResult(Stages[k], s)
  {
  }

  /** The first of `rs[k..]` that is a result, with its index. */
  function FirstIn(rs: seq<Option<string>>, k: nat): (r: Option<(nat, string)>)
    requires k <= |rs|
    ensures r.Some? ==> k <= r.value.0 < |rs| && rs[r.value.0] == Some(r.value.1)
    ensures r.Some? ==> forall j :: k <= j < r.value.0 ==> rs[j].None?
    ensures r.None? ==> forall j :: k <= j < |rs| ==> rs[j].None?
    decreases |rs| - k
  {
    if k == |rs| then None
    else match rs[k]
      case Some(c) => Some((k, c))
      case None => FirstIn(rs, k + 1)
  }

  /** The first of `Stages[k..]` that matches, with its result. */
  function FirstStage(s: string, k: nat): (r: Option<(nat, string)>)
    requires k <= |Stages|
  {
    FirstIn(Results(s), k)
  }

  /**
    The fallback depth scan from `json_start`: walking from `i` with `depth`
    open braces, the index of the `}` that brings the count back to zero.
  */
  function ScanClose(s: string, i: nat, depth: int): (r: Option<nat>)
    requires i <= |s|
    ensures r.Some? ==> i <= r.value < |s| && s[r.value] == '}'
    decreases |s| - i
  {
    if i == |s| then None
    else if s[i] == '{' then ScanClose(s, i + 1, depth + 1)
    else if s[i] == '}' then (if depth - 1 == 0 then Some(i) else ScanClose(s, i + 1, depth - 1))
    else ScanClose(s, i + 1, depth)
  }

  /** The span the depth scan settles on: from the first `{` to the `}` that closes it, else the whole text. */
  function ScanSpan(s: string): (sp: Span)
    ensures sp.lo <= sp.hi <= |s|
  {
    var start := FindChar(s, '{', 0);
    if start == -1 then Span(0, |s|)
    else match ScanClose(s, start, 0)
      case Some(i) => Span(start, i + 1)
      case None => Span(0, |s|)
  }

  /** What `extract_data(s, "json")` returns. */
  function Extracted(s: string): string {
    if s == [] then []
    else match FirstStage(s, 0)
      case Some((_, c)) => c
      case None => var sp := ScanSpan(s); Strip(s[sp.lo..sp.hi])
  }

  /** `extract_data` as the source runs it: the stage loop, then the brace-counting scan. */
  method ExtractData(s: string) returns (r: string)
    ensures r == Extracted(s)
  {
    if |s| == 0 {
      return "";
    }
    var found := TryStages(s);
    if found.Some? {
      return found.value.1;
    }
    var start := FindChar(s, '{', 0);
    if start != -1 {
      var close := CountToClose(s, start);
      if close.Some? {
        assert ScanSpan(s) == Span(start, close.value + 1);
        return Strip(s[start..close.value + 1]);
      }
    }
    assert ScanSpan(s) == Span(0, |s|);
    assert s[0..|s|] == s;
    return Strip(s);
  }

  /** The loop over the four patterns: the first that matches, with its stripped first match. */
  method TryStages(s: string) returns (r: Option<(nat, string)>)
    ensures r == FirstStage(s, 0)
  {
    var k := 0;
    while k < |Stages|
      invariant 0 <= k <= |Stages|
      invariant FirstStage(s, 0) == FirstStage(s, k)
    {
      ResultsAt(s, k);
      var m := StageResult(Stages[k], s);
      if m.Some? {
        return Some((k, m.value));
      }
      k := k + 1;
    }
    return None;
  }

  /** The depth-counting walk from `start`: the index of the `}` that brings the count back to zero. */
  method CountToClose(s: string, start: nat) returns (r: Option<nat>)
    requires start <= |s|
    ensures r == ScanClose(s, start, 0)
  {
    var count := 0;
    var i := start;
    while i < |s|
      invariant start <= i <= |s|
      invariant ScanClose(s, start, 0) == ScanClose(s, i, count)
    {
      if s[i] == '{' {
        count := count + 1;
      } else if s[i] == '}' {
        count := count - 1;
        if count == 0 {
          return Some(i);
        }
      }
      i := i + 1;
    }
    return None;
  }

  // ---------------------------------------------------------------------------
  // Properties

  lemma StripIsSubstring(s: string, lo: nat, hi: nat)
    requires lo <= hi <= |s|
    ensures Contains(s, Strip(s[lo..hi]))
  {
    var t := s[lo..hi];
    var a, b := StripStart(t), StripEnd(t);
    assert Strip(t) == t[a..b];
    assert t[a..b] == s[lo + a..lo + b] by {
      forall k | 0 <= k < b - a ensures t[a..b][k] == s[lo + a..lo + b][k] {
        assert t[a..b][k] == t[a + k] == s[lo + a + k];
      }
    }
    assert OccursAt(s, Strip(t), lo + a);
  }

  /** The result is always a stripped slice of the input; "" for "". */
  lemma ExtractedIsStrippedSlice(s: string)
    ensures Contains(s, Extracted(s))
    ensures Strip(Extracted(s)) == Extracted(s)
    ensures s == [] ==> Extracted(s) == []
  {
    if s == [] {
      assert OccursAt(s, [], 0);
    } else if FirstStage(s, 0).None? {
      var sp := ScanSpan(s);
      StripIsSubstring(s, sp.lo, sp.hi);
      StripIdempotent(s[sp.lo..sp.hi]);
    }
  }

  /** With no brace in `s[i..c]` and a `}` at `c`, the pattern body closes the outer pair at `c`. */
  lemma ObjectCloseAtFirstBrace(s: string, i: nat, c: nat)
    requires i <= c < |s| && s[c] == '}'
    requires forall k :: i <= k < c ==> s[k] != '{' && s[k] != '}'
    ensures ObjectClose(s, i, false) == Some(c)
    decreases c - i
  {
    if i < c { ObjectCloseAtFirstBrace(s, i + 1, c); }
  }

  /**
    The bare-object pattern matches somewhere as soon as some `}` follows some `{`:
    the last `{` before the first such `}` opens a pair with no brace inside.
  */
  lemma {:induction false} BareObjectMatchesIfClosed(s: string, i: nat, j: nat)
    requires i < j < |s| && s[i] == '{' && s[j] == '}'
    ensures FirstMatch(BareObject, s, 0).Some?
    ensures FirstStage(s, 0).Some?
  {
    var c := FindChar(s, '}', i);
    assert i < c <= j;
    var p := FindLastChar(s[..c], '{');
    assert s[..c][i] == '{';
    assert i <= p < c;
    forall k | p + 1 <= k < c ensures s[k] != '{' && s[k] != '}' {
      assert s[..c][k] == s[k];
    }
    ObjectCloseAtFirstBrace(s, p + 1, c);
    assert MatchAt(BareObject, s, p).Some?;
    assert Results(s)[3].Some?;
  }

  /** The depth scan finds nothing to close when no `}` lies ahead. */
  lemma {:induction false} ScanCloseWithoutCloser(s: string, i: nat, depth: int)
    requires i <= |s|
    requires forall k :: i <= k < |s| ==> s[k] != '}'
    ensures ScanClose(s, i, depth).None?
    decreases |s| - i
  {
    if i < |s| {
      ScanCloseWithoutCloser(s, i + 1, if s[i] == '{' then depth + 1 else depth);
    }
  }

  /**
    When no pattern matches, no `}` follows the first `{`, so the brace-counting
    scan never returns (its early return is dead code) and the result is `s.strip()`.
  */
  lemma {:induction false} DepthScanNeverReturns(s: string)
    requires s != [] && FirstStage(s, 0).None?
    ensures FindChar(s, '{', 0) != -1 ==> ScanClose(s, FindChar(s, '{', 0), 0).None?
    ensures ScanSpan(s) == Span(0, |s|)
    ensures Extracted(s) == Strip(s)
  {
    var start := FindChar(s, '{', 0);
    if start != -1 {
      forall k | start <= k < |s| ensures s[k] != '}' {
        if s[k] == '}' {
          assert start < k;
          BareObjectMatchesIfClosed(s, start, k);
        }
      }
      ScanCloseWithoutCloser(s, start, 0);
    }
    assert s[0..|s|] == s;
  }

  /** A text with no `{` and no three backticks is returned stripped. */
  lemma {:induction false} PlainTextIsStripped(s: string)
    requires forall k :: 0 <= k < |s| ==> s[k] != '{'
    requires !Contains(s, "```")
    ensures Extracted(s) == Strip(s)
  {
    if s != [] {
      forall stage: Stage, p: nat | p <= |s| ensures MatchAt(stage, s, p).None? {
        assert FenceAt(s, p) ==> OccursAt(s, "```", p);
      }
      DepthScanNeverReturns(s);
    }
  }

  /**
    Between an opener ending at `b0` and a closing fence at `f`, with no backtick
    in between, the lazy group is the text in between with its spaces trimmed.
  */
  lemma FencedGroupIsStripped(s: string, b0: nat, f: nat)
    requires b0 <= f && FenceAt(s, f)
    requires forall k :: b0 <= k < f ==> s[k] != '`'
    ensures LazyToFence(s, SkipSpace(s, b0)).Some?
    ensures s[SkipSpace(s, b0)..LazyToFence(s, SkipSpace(s, b0)).value] == Strip(s[b0..f])
  {
    var q := SkipSpace(s, b0);
    SkipSpaceStopsBy(s, b0, f);
    LazyStopsBeforeFence(s, q, f);
    var e := LazyToFence(s, q).value;
    SpacedGroupIsStripped(s, b0, q, e, f);
  }

  /** Without a backtick before the fence at `f`, the lazy group ends where the spaces before `f` begin. */
  lemma LazyStopsBeforeFence(s: string, q: nat, f: nat)
    requires q <= f && FenceAt(s, f)
    requires forall k :: q <= k < f ==> s[k] != '`'
    ensures LazyToFence(s, q).Some?
    ensures var e := LazyToFence(s, q).value;
      && e <= f
      && (forall k :: e <= k < f ==> IsSpace(s[k]))
      && (q < e ==> !IsSpace(s[e - 1]))
  {
    SkipSpaceAt(s, f, f);
    assert ClosingTailAt(s, f);
    var e := LazyToFence(s, q).value;
    assert e <= f;
    var g := SkipSpace(s, e);
    SkipSpaceStopsBy(s, e, f);
    assert FenceAt(s, g);
    assert g == f;
    assert q < e ==> !ClosingTailAt(s, e - 1);
  }

  /** A slice with only spaces around `s[q..e]`, which starts and ends with a non-space, strips to it. */
  lemma SpacedGroupIsStripped(s: string, b0: nat, q: nat, e: nat, f: nat)
    requires b0 <= q <= e <= f <= |s|
    requires forall k :: b0 <= k < q ==> IsSpace(s[k])
    requires forall k :: e <= k < f ==> IsSpace(s[k])
    requires q < e ==> !IsSpace(s[q]) && !IsSpace(s[e - 1])
    ensures s[q..e] == Strip(s[b0..f])
  {
    var body := s[b0..f];
    var a, b := q - b0, e - b0;
    SliceOfSlice(s, b0, f, a, b);
    forall k | 0 <= k < a ensures IsSpace(body[k]) { assert body[k] == s[b0 + k]; }
    forall k | b <= k < |body| ensures IsSpace(body[k]) { assert body[k] == s[b0 + k]; }
    StripIsSlice(body, a, b);
  }

  /** A match at `p` with none before it is the leftmost one. */
  lemma FirstMatchAt(stage: Stage, s: string, p: nat)
    requires p <= |s| && MatchAt(stage, s, p).Some?
    requires forall k :: 0 <= k < p ==> MatchAt(stage, s, k).None?
    ensures FirstMatch(stage, s, 0) == Some(p)
  {
  }

  lemma FencedShape(pre: string, body: string, post: string)
    ensures var s := pre + "```json" + body + "```" + post;
      && s[..|pre|] == pre
      && s[|pre| + 7..|pre| + 7 + |body|] == body
      && LabelledOpenerAt(s, |pre|)
      && FenceAt(s, |pre| + 7 + |body|)
  {
    var s := pre + "```json" + body + "```" + post;
    var p0, f := |pre|, |pre| + 7 + |body|;
    assert s[p0..p0 + 7] == "```json";
    assert s[f..f + 3] == "```";
  }

  lemma StageResultAt(stage: Stage, s: string, p: nat)
    requires p <= |s| && FirstMatch(stage, s, 0) == Some(p)
    ensures StageResult(stage, s) == Some(Strip(s[MatchAt(stage, s, p).value.lo..MatchAt(stage, s, p).value.hi]))
  {
  }

  /** The labelled-fence stage on a text whose first fence is a ```json opener at `p0` closed at `f`. */
  lemma {:induction false} LabelledFenceAt(s: string, p0: nat, f: nat)
    requires p0 + 7 <= f && LabelledOpenerAt(s, p0) && FenceAt(s, f)
    requires forall k :: 0 <= k < p0 ==> !FenceAt(s, k)
    requires forall k :: p0 + 7 <= k < f ==> s[k] != '`'
    ensures Extracted(s) == Strip(s[p0 + 7..f])
  {
    var b0 := p0 + 7;
    FencedGroupIsStripped(s, b0, f);
    var q := SkipSpace(s, b0);
    var e := LazyToFence(s, q).value;
    assert MatchAt(LabelledFence, s, p0) == Some(Span(q, e));
    FirstMatchAt(LabelledFence, s, p0);
    StageResultAt(LabelledFence, s, p0);
    StripIdempotent(s[b0..f]);
    assert FirstStage(s, 0) == Some((0, Strip(s[b0..f])));
  }

  /**
    A ```json fence wins: when nothing before it and nothing inside it is a
    backtick, the result is exactly the fenced text, trimmed, whatever follows.
  */
  lemma {:induction false} LabelledFenceWins(pre: string, body: string, post: string)
    requires forall k :: 0 <= k < |pre| ==> pre[k] != '`'
    requires forall k :: 0 <= k < |body| ==> body[k] != '`'
    ensures Extracted(pre + "```json" + body + "```" + post) == Strip(body)
  {
    var s := pre + "```json" + body + "```" + post;
    var p0 := |pre|;
    var b0 := p0 + 7;
    var f := b0 + |body|;
    FencedShape(pre, body, post);
    forall k | 0 <= k < p0 ensures !FenceAt(s, k) {
      assert s[k] == s[..p0][k];
    }
    forall k | b0 <= k < f ensures s[k] != '`' { assert s[k] == s[b0..f][k - b0]; }
    LabelledFenceAt(s, p0, f);
    assert s[b0..f] == body;
    assert Extracted(s) == Strip(body);
  }
}
