/**
  The Python values a decoded action directive is made of (what `json.loads`
  yields for a JSON object), with the three Python built-ins the agent applies
  to them: dictionary access, `str()` and `int()`, plus list indexing.
*/
module PyJson {
  import opened Wrappers
  import opened Text

  /** A JSON value as Python holds it; numbers are integers only (see README). */
  datatype Json =
    | JNull
    | JBool(b: bool)
    | JInt(i: int)
    | JStr(s: string)
    | JList(items: seq<Json>)
    | JObj(fields: Dict)

  datatype Field = Field(key: string, value: Json)

  /** A Python `dict`: its entries in insertion order. */
  type Dict = seq<Field>

  // ---------------------------------------------------------------------------
  // Dictionaries

  /** Position of key `k` in `d`, or -1. */
  function KeyIndex(d: Dict, k: string): (r: int)
    ensures -1 <= r < |d|
    ensures r >= 0 ==> d[r].key == k
    ensures forall j :: 0 <= j < |d| && (r == -1 || j < r) ==> d[j].key != k
  {
    if |d| == 0 then -1
    else if d[0].key == k then 0
    else var r := KeyIndex(d[1..], k); if r == -1 then -1 else r + 1
  }

  /** `k in d` */
  predicate HasKey(d: Dict, k: string) {
    KeyIndex(d, k) >= 0
  }

  /** The first entry with key `k` is the one at `i`. */
  lemma KeyIndexAt(d: Dict, k: string, i: nat)
    requires i < |d| && d[i].key == k
    requires forall j :: 0 <= j < i ==> d[j].key != k
    ensures KeyIndex(d, k) == i
  {
  }

  /** `d[k]` */
  function Get(d: Dict, k: string): Json
    requires HasKey(d, k)
  {
    d[KeyIndex(d, k)].value
  }

  /** Every key occurs once, as in any Python `dict`. */
  predicate UniqueKeys(d: Dict) {
    forall i, j :: 0 <= i < j < |d| ==> d[i].key != d[j].key
  }

  /** `d[k] = v`: an existing key keeps its place and takes the new value; a new key goes last. */
  function Set(d: Dict, k: string, v: Json): (r: Dict)
    ensures HasKey(r, k) && Get(r, k) == v
    ensures forall k' :: k' != k ==> (HasKey(r, k') <==> HasKey(d, k'))
    ensures forall k' :: k' != k && HasKey(d, k') ==> Get(r, k') == Get(d, k')
    ensures HasKey(d, k) ==> |r| == |d| && forall j :: 0 <= j < |d| ==> r[j].key == d[j].key
    ensures HasKey(d, k) ==> forall j :: 0 <= j < |d| && j != KeyIndex(d, k) ==> r[j] == d[j]
    ensures !HasKey(d, k) ==> r == d + [Field(k, v)]
    ensures UniqueKeys(d) ==> UniqueKeys(r)
  {
    var i := KeyIndex(d, k);
    if i >= 0 then
      var r := d[i := Field(k, v)];
      assert forall k' :: KeyIndex(r, k') == KeyIndex(d, k') by {
        forall k' ensures KeyIndex(r, k') == KeyIndex(d, k') {
          KeyIndexSameKeys(d, r, k');
        }
      }
      r
    else
      var r := d + [Field(k, v)];
      assert forall k' :: k' != k ==> KeyIndex(r, k') == KeyIndex(d, k') by {
        forall k' | k' != k ensures KeyIndex(r, k') == KeyIndex(d, k') {
          KeyIndexAppend(d, Field(k, v), k');
        }
      }
      KeyIndexAppend(d, Field(k, v), k);
      r
  }

  lemma KeyIndexSameKeys(d: Dict, e: Dict, k: string)
    requires |d| == |e| && forall j :: 0 <= j < |d| ==> d[j].key == e[j].key
    ensures KeyIndex(d, k) == KeyIndex(e, k)
  {
    if |d| > 0 { KeyIndexSameKeys(d[1..], e[1..], k); }
  }

  lemma KeyIndexAppend(d: Dict, f: Field, k: string)
    ensures KeyIndex(d + [f], k) == if KeyIndex(d, k) >= 0 then KeyIndex(d, k) else if f.key == k then |d| else -1
  {
    if |d| > 0 {
      assert (d + [f])[1..] == d[1..] + [f];
      KeyIndexAppend(d[1..], f, k);
    }
  }

  // ---------------------------------------------------------------------------
  // str()

  function DigitChar(n: nat): char
    requires n < 10
  {
    "0123456789"[n]
  }

  predicate IsDigit(c: char) {
    '0' <= c <= '9'
  }

  /** The decimal digits of `n`, most significant first. */
  function Digits(n: nat): (r: string)
    ensures |r| > 0 && forall k :: 0 <= k < |r| ==> IsDigit(r[k])
  {
    if n < 10 then [DigitChar(n)] else Digits(n / 10) + [DigitChar(n % 10)]
  }

  /** `str(i)` for a Python `int`. */
  function Decimal(i: int): string {
    if i < 0 then "-" + Digits(-i) else Digits(i)
  }

  /** `repr(v)`, as a value shows inside a list or dict. */
  function Repr(v: Json): string
    decreases v
  {
    match v
    case JNull => "None"
    case JBool(b) => if b then "True" else "False"
    case JInt(i) => Decimal(i)
    case JStr(s) => "'" + s + "'"
    case JList(items) => "[" + ReprItems(items) + "]"
    case JObj(fields) => "{" + ReprFields(fields) + "}"
  }

  function ReprItems(items: seq<Json>): string
    decreases items
  {
    if |items| == 0 then ""
    else Repr(items[0]) + (if |items| == 1 then "" else ", " + ReprItems(items[1..]))
  }

  function ReprFields(fields: seq<Field>): string
    decreases fields
  {
    if |fields| == 0 then ""
    else ("'" + fields[0].key + "': " + Repr(fields[0].value)
      + (if |fields| == 1 then "" else ", " + ReprFields(fields[1..])))
  }

  /** `str(v)` (what an f-string shows): a string shows bare, everything else as its `repr`. */
  function Display(v: Json): string {
    if v.JStr? then v.s else Repr(v)
  }

  /** The Python exceptions the agent lets escape to its caller. */
  datatype PyError =
    | ValueError(message: string)
    | KeyError(key: string)
    | IndexError

  // ---------------------------------------------------------------------------
  // int()

  /** Digits with single underscores between them, as `int()` accepts in base 10. */
  predicate DigitRun(u: string) {
    && |u| > 0 && IsDigit(u[0]) && IsDigit(u[|u| - 1])
    && (forall k :: 0 <= k < |u| ==> IsDigit(u[k]) || u[k] == '_')
    && (forall k :: 0 <= k < |u| - 1 ==> !(u[k] == '_' && u[k + 1] == '_'))
  }

  /** The number a digit run spells, underscores ignored. */
  function RunValue(u: string): nat {
    if |u| == 0 then 0
    else if IsDigit(u[|u| - 1]) then 10 * RunValue(u[..|u| - 1]) + (u[|u| - 1] as int - '0' as int)
    else RunValue(u[..|u| - 1])
  }

  /** `int(t)` for a `str`: surrounding spaces, an optional sign, then a digit run; None is the `ValueError`. */
  function IntOfText(t: string): (r: Option<int>)
    ensures r.Some? ==> Strip(t) != []
  {
    var u := Strip(t);
    if |u| > 0 && (u[0] == '-' || u[0] == '+') then
      if DigitRun(u[1..]) then Some(if u[0] == '-' then 0 - RunValue(u[1..]) else RunValue(u[1..])) else None
    else if DigitRun(u) then Some(RunValue(u))
    else None
  }

  /** `int(v)`; None stands for the `TypeError` or `ValueError` it raises. */
  function PyInt(v: Json): Option<int> {
    match v
    case JInt(i) => Some(i)
    case JBool(b) => Some(if b then 1 else 0)
    case JStr(s) => IntOfText(s)
    case _ => None
  }

  /** `xs[k]` on a Python list of length `n`: the position it reads, or None for the `IndexError`. */
  function PyIndex(k: int, n: nat): (r: Option<nat>)
    ensures r.Some? <==> -(n as int) <= k < n
    ensures r.Some? ==> r.value < n && (if k >= 0 then r.value == k else r.value == n + k)
  {
    if 0 <= k < n then Some(k) else if -(n as int) <= k < 0 then Some(n + k) else None
  }

  // ---------------------------------------------------------------------------
  // Properties

  lemma {:induction false} DigitsValue(n: nat)
    ensures DigitRun(Digits(n)) && RunValue(Digits(n)) == n
  {
    if n >= 10 {
      DigitsValue(n / 10);
      var p := Digits(n / 10);
      assert (p + [DigitChar(n % 10)])[..|p|] == p;
    }
  }

  lemma SignedRunValue(t: string, m: nat)
    requires |t| > 1 && t[0] == '-' && DigitRun(t[1..]) && RunValue(t[1..]) == m
    ensures IntOfText(t) == Some(0 - m)
  {
    StripOfStripped(t);
  }

  lemma UnsignedRunValue(t: string, m: nat)
    requires DigitRun(t) && RunValue(t) == m
    ensures IntOfText(t) == Some(m)
  {
    StripOfStripped(t);
  }

  /** `int(str(i)) == i` for every Python `int`. */
  lemma {:induction false} IntOfDecimal(i: int)
    ensures IntOfText(Decimal(i)) == Some(i)
    ensures PyInt(JStr(Decimal(i))) == Some(i)
  {
    var t := Decimal(i);
    if i < 0 {
      var m: nat := -i;
      DigitsValue(m);
      assert t[1..] == Digits(m);
      SignedRunValue(t, m);
    } else {
      DigitsValue(i);
      UnsignedRunValue(t, i);
    }
  }
}
