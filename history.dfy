/**
  History hygiene: the agent edits the caller's message list in place before
  each model call. It drops annotated ("som") screenshots, keeps only the most
  recent images, and appends the two paths of the new screenshot to the last
  message. Which strings are image paths is decided by a predicate the agent
  imports; it is a parameter here.
*/
module History {
  import opened Wrappers
  import opened Text
  import opened PyJson

  /** An entry of a `tool_result` item's content: an `{"type": "image"}` dict, or anything else. */
  datatype Entry = ImageEntry(source: string) | OtherEntry(payload: string)

  /** An element of a message's content list: a string, a `tool_result` dict, or any other value. */
  datatype Item = Str(s: string) | ToolResult(entries: seq<Entry>) | OtherItem(payload: string)

  /** A message's `"content"`: a plain string, or a list of items. */
  datatype Content = Text(text: string) | Items(items: seq<Item>)

  datatype Message = Message(role: string, content: Content)

  /** An image the trimming pass can remove, in the order it meets them. */
  datatype Image = PathImage(path: string) | EntryImage(entry: Entry)

  const OutputDir := "./tmp/outputs"

  // ---------------------------------------------------------------------------
  // Images and what is left without them

  /** The image entries of a `tool_result`, in order. */
  function EntryImages(es: seq<Entry>): seq<Image> {
    if es == [] then []
    else EntryImages(es[..|es| - 1]) + (if es[|es| - 1].ImageEntry? then [EntryImage(es[|es| - 1])] else [])
  }

  function ItemImages(x: Item, isImg: string -> bool): seq<Image> {
    match x
    case Str(s) => if isImg(s) then [PathImage(s)] else []
    case ToolResult(es) => EntryImages(es)
    case OtherItem(_) => []
  }

  /** The removable images of a content list: image-path strings and image entries of `tool_result`s. */
  function ItemsImages(xs: seq<Item>, isImg: string -> bool): seq<Image> {
    if xs == [] then [] else ItemsImages(xs[..|xs| - 1], isImg) + ItemImages(xs[|xs| - 1], isImg)
  }

  function ContentImages(c: Content, isImg: string -> bool): seq<Image> {
    match c
    case Text(_) => []
    case Items(xs) => ItemsImages(xs, isImg)
  }

  /** Every removable image of the history, oldest first. */
  function Images(ms: seq<Message>, isImg: string -> bool): seq<Image> {
    if ms == [] then [] else Images(ms[..|ms| - 1], isImg) + ContentImages(ms[|ms| - 1].content, isImg)
  }

  function EntrySkeleton(es: seq<Entry>): seq<Entry> {
    if es == [] then []
    else EntrySkeleton(es[..|es| - 1]) + (if es[|es| - 1].ImageEntry? then [] else [es[|es| - 1]])
  }

  /** A content list with its images taken out (each `tool_result` stays, minus its image entries). */
  function ItemsSkeleton(xs: seq<Item>, isImg: string -> bool): seq<Item> {
    if xs == [] then [] else ItemsSkeleton(xs[..|xs| - 1], isImg) + ItemSkeleton(xs[|xs| - 1], isImg)
  }

  function ItemSkeleton(x: Item, isImg: string -> bool): seq<Item> {
    match x
    case Str(s) => if isImg(s) then [] else [x]
    case ToolResult(es) => [ToolResult(EntrySkeleton(es))]
    case OtherItem(_) => [x]
  }

  function ContentSkeleton(c: Content, isImg: string -> bool): Content {
    match c
    case Text(_) => c
    case Items(xs) => Items(ItemsSkeleton(xs, isImg))
  }

  /** The history with its removable images taken out: roles, texts and every other item in place. */
  function Skeleton(ms: seq<Message>, isImg: string -> bool): seq<Message> {
    if ms == [] then []
    else
      var m := ms[|ms| - 1];
      Skeleton(ms[..|ms| - 1], isImg) + [Message(m.role, ContentSkeleton(m.content, isImg))]
  }

  // ---------------------------------------------------------------------------
  // The count the agent takes first

  /**
    A string content is iterated character by character when counting, so each
    character that is by itself an image path counts (and can never be removed).
  */
  function CharImages(s: string, isImg: string -> bool): nat {
    if s == [] then 0 else CharImages(s[..|s| - 1], isImg) + (if isImg([s[|s| - 1]]) then 1 else 0)
  }

  function ContentCount(c: Content, isImg: string -> bool): nat {
    match c
    case Text(s) => CharImages(s, isImg)
    case Items(xs) => |ItemsImages(xs, isImg)|
  }

  /** `total_images`: what the first pass counts over the whole history. */
  function TotalImages(ms: seq<Message>, isImg: string -> bool): nat {
    if ms == [] then 0 else TotalImages(ms[..|ms| - 1], isImg) + ContentCount(ms[|ms| - 1].content, isImg)
  }

  /** No single character is an image path (as for any extension-based test). */
  predicate NoCharImages(isImg: string -> bool) {
    forall c: char :: !isImg([c])
  }

  // ---------------------------------------------------------------------------
  // The removal pass, with its decrementing counter

  /** How many of `avail` images a counter starting at `n` removes. */
  function Removed(n: int, avail: nat): nat {
    if n <= 0 then 0 else if n <= avail then n else avail
  }

  /** The entries that stay, and the counter after them. */
  function TrimEntries(es: seq<Entry>, n: int): (seq<Entry>, int) {
    if es == [] then ([], n)
    else
      var (p, m) := TrimEntries(es[..|es| - 1], n);
      var e := es[|es| - 1];
      if e.ImageEntry? && m > 0 then (p, m - 1) else (p + [e], m)
  }

  /** The items that stay, and the counter after them; a `tool_result` keeps its place with trimmed entries. */
  function TrimItems(xs: seq<Item>, n: int, isImg: string -> bool): (seq<Item>, int) {
    if xs == [] then ([], n)
    else
      var (p, m) := TrimItems(xs[..|xs| - 1], n, isImg);
      var (q, m') := TrimItem(xs[|xs| - 1], m, isImg);
      (p + q, m')
  }

  /** What one item leaves (nothing, or the item with its `tool_result` entries trimmed), and the counter after it. */
  function TrimItem(x: Item, m: int, isImg: string -> bool): (seq<Item>, int) {
    match x
    case Str(s) => if isImg(s) && m > 0 then ([], m - 1) else ([x], m)
    case ToolResult(es) => var (es', m') := TrimEntries(es, m); ([ToolResult(es')], m')
    case OtherItem(_) => ([x], m)
  }

  /** A string content is left as it is. */
  function TrimContent(c: Content, n: int, isImg: string -> bool): (Content, int) {
    match c
    case Text(_) => (c, n)
    case Items(xs) => var (xs', m) := TrimItems(xs, n, isImg); (Items(xs'), m)
  }

  /** The history after the removal pass started with counter `n`, and the counter at its end. */
  function TrimMessages(ms: seq<Message>, n: int, isImg: string -> bool): (seq<Message>, int) {
    if ms == [] then ([], n)
    else
      var (p, m) := TrimMessages(ms[..|ms| - 1], n, isImg);
      var msg := ms[|ms| - 1];
      var (c, m') := TrimContent(msg.content, m, isImg);
      (p + [Message(msg.role, c)], m')
  }

  // ---------------------------------------------------------------------------
  // The removal pass removes the oldest images and nothing else

  /** Removing from `a` then `b` with one counter removes a prefix of `a + b`. */
  lemma RemovedCompose<T>(a: seq<T>, b: seq<T>, n: int)
    ensures var ka := Removed(n, |a|); var kb := Removed(n - ka, |b|);
      && ka + kb == Removed(n, |a| + |b|)
      && a[ka..] + b[kb..] == (a + b)[ka + kb..]
  {
    var ka := Removed(n, |a|);
    var kb := Removed(n - ka, |b|);
    if n - ka > 0 {
      assert ka == |a|;
      assert (a + b)[|a| + kb..] == b[kb..];
    } else {
      assert kb == 0;
      assert (a + b)[ka..] == a[ka..] + b;
    }
  }

  lemma {:induction false} TrimEntriesSpec(es: seq<Entry>, n: int)
    ensures var (r, m) := TrimEntries(es, n); var k := Removed(n, |EntryImages(es)|);
      && EntryImages(r) == EntryImages(es)[k..]
      && m == n - k
      && EntrySkeleton(r) == EntrySkeleton(es)
    decreases |es|
  {
    if es != [] {
      var p, e := es[..|es| - 1], es[|es| - 1];
      TrimEntriesSpec(p, n);
      var (rp, mp) := TrimEntries(p, n);
      var b := if e.ImageEntry? then [EntryImage(e)] else [];
      RemovedCompose(EntryImages(p), b, n);
      assert (rp + [e])[..|rp|] == rp;
      if e.ImageEntry? && mp > 0 {
        assert b[1..] == [];
      }
    }
  }

  /** One item through the removal pass loses its oldest images and nothing else. */
  lemma TrimItemSpec(x: Item, m: int, isImg: string -> bool)
    ensures var (q, m') := TrimItem(x, m, isImg); var k := Removed(m, |ItemImages(x, isImg)|);
      && |q| <= 1
      && ItemsImages(q, isImg) == ItemImages(x, isImg)[k..]
      && m' == m - k
      && ItemsSkeleton(q, isImg) == ItemSkeleton(x, isImg)
  {
    var (q, _) := TrimItem(x, m, isImg);
    if q != [] {
      ItemsSingle(q[0], isImg);
      assert q == [q[0]];
    }
    if x.ToolResult? {
      TrimEntriesSpec(x.entries, m);
    }
  }

  /** Images and skeleton of a content list with one more item. */
  lemma ItemsSnoc(p: seq<Item>, x: Item, isImg: string -> bool)
    ensures ItemsImages(p + [x], isImg) == ItemsImages(p, isImg) + ItemImages(x, isImg)
    ensures ItemsSkeleton(p + [x], isImg) == ItemsSkeleton(p, isImg) + ItemSkeleton(x, isImg)
  {
    assert (p + [x])[..|p|] == p;
  }

  /** Images and skeleton of a content list with at most one more item. */
  lemma ItemsAppend(p: seq<Item>, q: seq<Item>, isImg: string -> bool)
    requires |q| <= 1
    ensures ItemsImages(p + q, isImg) == ItemsImages(p, isImg) + ItemsImages(q, isImg)
    ensures ItemsSkeleton(p + q, isImg) == ItemsSkeleton(p, isImg) + ItemsSkeleton(q, isImg)
  {
    if q == [] {
      assert p + q == p;
    } else {
      var y := q[0];
      assert q == [y];
      ItemsSnoc(p, y, isImg);
      ItemsSingle(y, isImg);
    }
  }

  lemma ItemsSingle(y: Item, isImg: string -> bool)
    ensures ItemsImages([y], isImg) == ItemImages(y, isImg)
    ensures ItemsSkeleton([y], isImg) == ItemSkeleton(y, isImg)
  {
    assert [y][..0] == [];
  }

  /** Removal over `a` then `b` with one counter, stated over what each part leaves. */
  lemma RemovalStep<T>(a: seq<T>, b: seq<T>, ra: seq<T>, rb: seq<T>, n: int, ma: int, mb: int)
    requires ra == a[Removed(n, |a|)..] && ma == n - Removed(n, |a|)
    requires rb == b[Removed(ma, |b|)..] && mb == ma - Removed(ma, |b|)
    ensures ra + rb == (a + b)[Removed(n, |a + b|)..] && mb == n - Removed(n, |a + b|)
  {
    RemovedCompose(a, b, n);
  }

  lemma {:induction false} TrimItemsImages(xs: seq<Item>, n: int, isImg: string -> bool)
    ensures var t := TrimItems(xs, n, isImg); var k := Removed(n, |ItemsImages(xs, isImg)|);
      ItemsImages(t.0, isImg) == ItemsImages(xs, isImg)[k..] && t.1 == n - k
    decreases |xs|
  {
    if xs != [] {
      var p, x := xs[..|xs| - 1], xs[|xs| - 1];
      TrimItemsImages(p, n, isImg);
      var t := TrimItems(p, n, isImg);
      var u := TrimItem(x, t.1, isImg);
      assert TrimItems(xs, n, isImg) == (t.0 + u.0, u.1);
      TrimItemSpec(x, t.1, isImg);
      ItemsAppend(t.0, u.0, isImg);
      RemovalStep(ItemsImages(p, isImg), ItemImages(x, isImg), ItemsImages(t.0, isImg), ItemsImages(u.0, isImg), n, t.1, u.1);
    }
  }

  lemma {:induction false} TrimItemsSkeleton(xs: seq<Item>, n: int, isImg: string -> bool)
    ensures ItemsSkeleton(TrimItems(xs, n, isImg).0, isImg) == ItemsSkeleton(xs, isImg)
    decreases |xs|
  {
    if xs != [] {
      var p, x := xs[..|xs| - 1], xs[|xs| - 1];
      TrimItemsSkeleton(p, n, isImg);
      var t := TrimItems(p, n, isImg);
      var u := TrimItem(x, t.1, isImg);
      assert TrimItems(xs, n, isImg) == (t.0 + u.0, u.1);
      TrimItemSpec(x, t.1, isImg);
      ItemsAppend(t.0, u.0, isImg);
    }
  }

  /** The removal pass over a content list takes out its oldest images and nothing else. */
  lemma TrimItemsSpec(xs: seq<Item>, n: int, isImg: string -> bool)
    ensures var (r, m) := TrimItems(xs, n, isImg); var k := Removed(n, |ItemsImages(xs, isImg)|);
      && ItemsImages(r, isImg) == ItemsImages(xs, isImg)[k..]
      && m == n - k
      && ItemsSkeleton(r, isImg) == ItemsSkeleton(xs, isImg)
  {
    TrimItemsImages(xs, n, isImg);
    TrimItemsSkeleton(xs, n, isImg);
  }

  lemma TrimContentSpec(c: Content, n: int, isImg: string -> bool)
    ensures var (r, m) := TrimContent(c, n, isImg); var k := Removed(n, |ContentImages(c, isImg)|);
      && ContentImages(r, isImg) == ContentImages(c, isImg)[k..]
      && m == n - k
      && ContentSkeleton(r, isImg) == ContentSkeleton(c, isImg)
  {
    if c.Items? {
      TrimItemsSpec(c.items, n, isImg);
    }
  }

  /** Images and skeleton of a history with one more message. */
  lemma MessagesSnoc(p: seq<Message>, m: Message, isImg: string -> bool)
    ensures Images(p + [m], isImg) == Images(p, isImg) + ContentImages(m.content, isImg)
    ensures Skeleton(p + [m], isImg) == Skeleton(p, isImg) + [Message(m.role, ContentSkeleton(m.content, isImg))]
  {
    assert (p + [m])[..|p|] == p;
  }

  lemma {:induction false} TrimMessagesImages(ms: seq<Message>, n: int, isImg: string -> bool)
    ensures var t := TrimMessages(ms, n, isImg); var k := Removed(n, |Images(ms, isImg)|);
      Images(t.0, isImg) == Images(ms, isImg)[k..] && t.1 == n - k
    decreases |ms|
  {
    if ms != [] {
      var p, msg := ms[..|ms| - 1], ms[|ms| - 1];
      TrimMessagesImages(p, n, isImg);
      var t := TrimMessages(p, n, isImg);
      var u := TrimContent(msg.content, t.1, isImg);
      assert TrimMessages(ms, n, isImg) == (t.0 + [Message(msg.role, u.0)], u.1);
      TrimContentSpec(msg.content, t.1, isImg);
      MessagesSnoc(t.0, Message(msg.role, u.0), isImg);
      RemovalStep(Images(p, isImg), ContentImages(msg.content, isImg), Images(t.0, isImg), ContentImages(u.0, isImg), n, t.1, u.1);
    }
  }

  lemma {:induction false} TrimMessagesSkeleton(ms: seq<Message>, n: int, isImg: string -> bool)
    ensures Skeleton(TrimMessages(ms, n, isImg).0, isImg) == Skeleton(ms, isImg)
    decreases |ms|
  {
    if ms != [] {
      var p, msg := ms[..|ms| - 1], ms[|ms| - 1];
      TrimMessagesSkeleton(p, n, isImg);
      var t := TrimMessages(p, n, isImg);
      var u := TrimContent(msg.content, t.1, isImg);
      assert TrimMessages(ms, n, isImg) == (t.0 + [Message(msg.role, u.0)], u.1);
      TrimContentSpec(msg.content, t.1, isImg);
      MessagesSnoc(t.0, Message(msg.role, u.0), isImg);
    }
  }

  /**
    The removal pass with counter `n` removes the oldest `Removed(n, total)`
    removable images, and only them: what is left of the images is a suffix, and
    everything that is not a removable image stays where it was.
  */
  lemma TrimMessagesSpec(ms: seq<Message>, n: int, isImg: string -> bool)
    ensures var (r, m) := TrimMessages(ms, n, isImg); var k := Removed(n, |Images(ms, isImg)|);
      && Images(r, isImg) == Images(ms, isImg)[k..]
      && m == n - k
      && Skeleton(r, isImg) == Skeleton(ms, isImg)
  {
    TrimMessagesImages(ms, n, isImg);
    TrimMessagesSkeleton(ms, n, isImg);
  }

  /** With no one-character image path, the first pass counts exactly the removable images. */
  lemma {:induction false} CountIsImages(ms: seq<Message>, isImg: string -> bool)
    requires NoCharImages(isImg)
    ensures TotalImages(ms, isImg) == |Images(ms, isImg)|
    decreases |ms|
  {
    if ms != [] {
      CountIsImages(ms[..|ms| - 1], isImg);
      if ms[|ms| - 1].content.Text? {
        NoImageChars(ms[|ms| - 1].content.text, isImg);
      }
    }
  }

  lemma {:induction false} NoImageChars(s: string, isImg: string -> bool)
    requires NoCharImages(isImg)
    ensures CharImages(s, isImg) == 0
    decreases |s|
  {
    if s != [] {
      NoImageChars(s[..|s| - 1], isImg);
      assert !isImg([s[|s| - 1]]);
    }
  }

  /** What `_maybe_filter_to_n_most_recent_images` leaves: untouched for None, else the pass with `total - keep`. */
  function KeepRecent(ms: seq<Message>, keep: Option<int>, isImg: string -> bool): seq<Message> {
    match keep
    case None => ms
    case Some(k) => TrimMessages(ms, TotalImages(ms, isImg) - k, isImg).0
  }

  /**
    Keeping `keep >= 0` images leaves exactly `min(total, keep)` of them, the
    most recent ones, with every other part of the history as it was.
  */
  lemma KeepsMostRecent(ms: seq<Message>, keep: nat, isImg: string -> bool)
    requires NoCharImages(isImg)
    ensures var r := KeepRecent(ms, Some(keep), isImg); var total := |Images(ms, isImg)|;
      && TotalImages(r, isImg) == (if total <= keep then total else keep)
      && Images(r, isImg) == Images(ms, isImg)[total - TotalImages(r, isImg)..]
      && Skeleton(r, isImg) == Skeleton(ms, isImg)
  {
    KeepRecentSome(ms, keep, isImg);
    KeptImages(ms, KeepRecent(ms, Some(keep), isImg), TotalImages(ms, isImg) - keep, keep, isImg);
  }


  /**
    Keeping the most recent images only deletes: message by message, image
    paths and image entries go, and every other item keeps its place.
  */
  lemma KeepRecentOnlyDeletes(ms: seq<Message>, keep: Option<int>, isImg: string -> bool)
    ensures MessagesThinned(KeepRecent(ms, keep, isImg), ms, PathGone(isImg), ItemStays)
  {
    match keep
    case None =>
      forall i | 0 <= i < |ms|
        ensures ContentThinned(ms[i].content, ms[i].content, PathGone(isImg), ItemStays)
      {
        if ms[i].content.Items? {
          ThinnedSelf(ms[i].content.items, PathGone(isImg), ItemStays);
        }
      }
    case Some(k) =>
      TrimMessagesThins(ms, TotalImages(ms, isImg) - k, isImg);
  }

  /** Deleting nothing is a thinning. */
  lemma {:induction false} ThinnedSelf(xs: seq<Item>, gone: Item -> bool, stays: (Item, Item) -> bool)
    requires forall x :: stays(x, x)
    ensures Thinned(xs, xs, gone, stays)
    decreases |xs|
  {
    if xs != [] {
      ThinnedSelf(xs[..|xs| - 1], gone, stays);
    }
  }

  lemma KeepRecentSome(ms: seq<Message>, keep: int, isImg: string -> bool)
    ensures KeepRecent(ms, Some(keep), isImg) == TrimMessages(ms, TotalImages(ms, isImg) - keep, isImg).0
  { }

  lemma KeptImages(ms: seq<Message>, r: seq<Message>, n: int, keep: nat, isImg: string -> bool)
    requires NoCharImages(isImg)
    requires n == TotalImages(ms, isImg) - keep && r == TrimMessages(ms, n, isImg).0
    ensures var total := |Images(ms, isImg)|;
      && TotalImages(r, isImg) == (if total <= keep then total else keep)
      && Images(r, isImg) == Images(ms, isImg)[total - TotalImages(r, isImg)..]
      && Skeleton(r, isImg) == Skeleton(ms, isImg)
  {
    TrimMessagesSkeleton(ms, n, isImg);
    CountIsImages(ms, isImg);
    TrimMessagesImages(ms, n, isImg);
    CountIsImages(r, isImg);
    KeepsSuffix(Images(ms, isImg), Images(r, isImg), TotalImages(r, isImg), n, keep);
  }

  /** Removing all but `keep` of `a` leaves its last `min(|a|, keep)` elements. */
  lemma KeepsSuffix<T>(a: seq<T>, rest: seq<T>, count: nat, n: int, keep: nat)
    requires n == |a| - keep && rest == a[Removed(n, |a|)..] && count == |rest|
    ensures count == (if |a| <= keep then |a| else keep) && rest == a[|a| - count..]
  { }

  /** A negative `keep` removes every removable image. */
  lemma NegativeKeepRemovesAll(ms: seq<Message>, keep: int, isImg: string -> bool)
    requires keep < 0
    ensures Images(KeepRecent(ms, Some(keep), isImg), isImg) == []
    ensures Skeleton(KeepRecent(ms, Some(keep), isImg), isImg) == Skeleton(ms, isImg)
  {
    var n := TotalImages(ms, isImg) - keep;
    var r := KeepRecent(ms, Some(keep), isImg);
    KeepRecentSome(ms, keep, isImg);
    TrimmedAll(ms, r, n, isImg);
  }

  /** A counter at least the count removes every removable image. */
  lemma TrimmedAll(ms: seq<Message>, r: seq<Message>, n: int, isImg: string -> bool)
    requires TotalImages(ms, isImg) <= n && r == TrimMessages(ms, n, isImg).0
    ensures Images(r, isImg) == [] && Skeleton(r, isImg) == Skeleton(ms, isImg)
  {
    TrimMessagesImages(ms, n, isImg);
    TrimMessagesSkeleton(ms, n, isImg);
    TotalCoversImages(ms, isImg);
    RemovesAll(Images(ms, isImg), n);
  }

  /** A counter at least the number of images removes them all. */
  lemma RemovesAll<T>(a: seq<T>, n: int)
    requires |a| <= n
    ensures a[Removed(n, |a|)..] == []
  { }

  /** The count is never below the number of removable images. */
  lemma {:induction false} TotalCoversImages(ms: seq<Message>, isImg: string -> bool)
    ensures |Images(ms, isImg)| <= TotalImages(ms, isImg)
    decreases |ms|
  {
    if ms != [] {
      TotalCoversImages(ms[..|ms| - 1], isImg);
    }
  }

  // ---------------------------------------------------------------------------
  // Both passes only delete

  /**
    `r` is `xs` with some elements deleted, each of them `gone`; every other
    element keeps its place in the order and is replaced at most by one that
    `stays` for it.
  */
  predicate Thinned<T>(r: seq<T>, xs: seq<T>, gone: T -> bool, stays: (T, T) -> bool)
    decreases |xs|
  {
    if xs == [] then r == []
    else
      (|r| > 0 && stays(r[|r| - 1], xs[|xs| - 1]) && Thinned(r[..|r| - 1], xs[..|xs| - 1], gone, stays))
      || (gone(xs[|xs| - 1]) && Thinned(r, xs[..|xs| - 1], gone, stays))
  }

  predicate Same<T(==)>(a: T, b: T) {
    a == b
  }

  predicate IsImageEntry(e: Entry) {
    e.ImageEntry?
  }

  /** What the trimming pass may delete from a content list: an image-path string. */
  function PathGone(isImg: string -> bool): Item -> bool {
    (x: Item) => x.Str? && isImg(x.s)
  }

  /** What `_remove_som_images` deletes: an image-path string containing "som". */
  function SomGone(isImg: string -> bool): Item -> bool {
    (x: Item) => SomImage(x, isImg)
  }

  /** An item left as it was, or a `tool_result` that only lost image entries. */
  predicate ItemStays(y: Item, x: Item) {
    y == x || (x.ToolResult? && y.ToolResult? && Thinned(y.entries, x.entries, IsImageEntry, Same<Entry>))
  }

  /** A string content stays as it is; a list content is thinned. */
  predicate ContentThinned(c': Content, c: Content, gone: Item -> bool, stays: (Item, Item) -> bool) {
    match c
    case Text(_) => c' == c
    case Items(xs) => c'.Items? && Thinned(c'.items, xs, gone, stays)
  }

  /** Message by message, the same roles and thinned contents. */
  predicate MessagesThinned(r: seq<Message>, ms: seq<Message>, gone: Item -> bool, stays: (Item, Item) -> bool) {
    |r| == |ms| && forall i :: 0 <= i < |ms| ==> r[i].role == ms[i].role && ContentThinned(r[i].content, ms[i].content, gone, stays)
  }

  /** Trimming a `tool_result` only deletes image entries; the others keep their order. */
  lemma {:induction false} TrimEntriesThins(es: seq<Entry>, n: int)
    ensures Thinned(TrimEntries(es, n).0, es, IsImageEntry, Same<Entry>)
    decreases |es|
  {
    if es != [] {
      var p := es[..|es| - 1];
      TrimEntriesThins(p, n);
      var (rp, m) := TrimEntries(p, n);
      var r := TrimEntries(es, n).0;
      if !(es[|es| - 1].ImageEntry? && m > 0) {
        assert r[..|r| - 1] == rp;
      }
    }
  }

  /**
    Trimming a content list only deletes image-path strings and image entries
    inside `tool_result`s: every other item, image or not, keeps its place in
    the order.
  */
  lemma {:induction false} TrimItemsThins(xs: seq<Item>, n: int, isImg: string -> bool)
    ensures Thinned(TrimItems(xs, n, isImg).0, xs, PathGone(isImg), ItemStays)
    decreases |xs|
  {
    if xs != [] {
      var p, x := xs[..|xs| - 1], xs[|xs| - 1];
      TrimItemsThins(p, n, isImg);
      var (rp, m) := TrimItems(p, n, isImg);
      var (q, _) := TrimItem(x, m, isImg);
      var r := rp + q;
      if x.ToolResult? {
        TrimEntriesThins(x.entries, m);
      }
      if q != [] {
        assert r[..|r| - 1] == rp;
        assert ItemStays(r[|r| - 1], x);
      } else {
        assert r == rp && PathGone(isImg)(x);
      }
    }
  }

  /** The removal pass over the history only deletes, message by message. */
  lemma {:induction false} TrimMessagesThins(ms: seq<Message>, n: int, isImg: string -> bool)
    ensures MessagesThinned(TrimMessages(ms, n, isImg).0, ms, PathGone(isImg), ItemStays)
    decreases |ms|
  {
    if ms != [] {
      var p, msg := ms[..|ms| - 1], ms[|ms| - 1];
      TrimMessagesThins(p, n, isImg);
      var (rp, m) := TrimMessages(p, n, isImg);
      var (c, _) := TrimContent(msg.content, m, isImg);
      if msg.content.Items? {
        TrimItemsThins(msg.content.items, m, isImg);
      }
      var r := rp + [Message(msg.role, c)];
      forall i | 0 <= i < |ms|
        ensures r[i].role == ms[i].role && ContentThinned(r[i].content, ms[i].content, PathGone(isImg), ItemStays)
      {
        if i < |p| {
          assert r[i] == rp[i] && ms[i] == p[i];
        }
      }
    }
  }

  // ---------------------------------------------------------------------------
  // Annotated screenshots

  /** A string item that contains "som" and is an image path. */
  predicate SomImage(x: Item, isImg: string -> bool) {
    x.Str? && Contains(x.s, "som") && isImg(x.s)
  }

  /** The list comprehension of `_remove_som_images`. */
  function DropSomItems(xs: seq<Item>, isImg: string -> bool): (r: seq<Item>)
    ensures forall x :: x in r <==> x in xs && !SomImage(x, isImg)
    ensures |r| <= |xs|
  {
    if xs == [] then []
    else
      var x := xs[|xs| - 1];
      DropSomItems(xs[..|xs| - 1], isImg) + (if SomImage(x, isImg) then [] else [x])
  }

  /** A string content is left as it is. */
  function DropSomContent(c: Content, isImg: string -> bool): Content {
    match c
    case Text(_) => c
    case Items(xs) => Items(DropSomItems(xs, isImg))
  }

  function DropSom(ms: seq<Message>, isImg: string -> bool): (r: seq<Message>)
    ensures |r| == |ms|
  {
    if ms == [] then []
    else
      var m := ms[|ms| - 1];
      DropSom(ms[..|ms| - 1], isImg) + [Message(m.role, DropSomContent(m.content, isImg))]
  }

  /** Items that are not annotated screenshots keep their order: the comprehension is a filter. */
  lemma {:induction false} DropSomKeepsOthersInOrder(xs: seq<Item>, i: nat, j: nat, isImg: string -> bool)
    requires i < j < |xs| && !SomImage(xs[i], isImg) && !SomImage(xs[j], isImg)
    ensures exists i', j' :: (0 <= i' < j' < |DropSomItems(xs, isImg)|
      && DropSomItems(xs, isImg)[i'] == xs[i] && DropSomItems(xs, isImg)[j'] == xs[j])
    decreases |xs|
  {
    var p := xs[..|xs| - 1];
    var rp := DropSomItems(p, isImg);
    if j == |xs| - 1 {
      assert xs[i] == p[i] && xs[i] in p;
      var i' :| 0 <= i' < |rp| && rp[i'] == xs[i];
      var r := DropSomItems(xs, isImg);
      assert r == rp + [xs[j]];
      assert r[i'] == xs[i] && r[|rp|] == xs[j];
    } else {
      DropSomKeepsOthersInOrder(p, i, j, isImg);
      var i', j' :| 0 <= i' < j' < |rp| && rp[i'] == p[i] && rp[j'] == p[j];
      var r := DropSomItems(xs, isImg);
      assert r[..|rp|] == rp;
      assert r[i'] == xs[i] && r[j'] == xs[j];
    }
  }

  /** Dropping annotated screenshots twice is dropping them once. */
  lemma {:induction false} DropSomIdempotent(ms: seq<Message>, isImg: string -> bool)
    ensures DropSom(DropSom(ms, isImg), isImg) == DropSom(ms, isImg)
    decreases |ms|
  {
    if ms != [] {
      var r := DropSom(ms, isImg);
      DropSomIdempotent(ms[..|ms| - 1], isImg);
      assert r[..|r| - 1] == DropSom(ms[..|ms| - 1], isImg);
      var c := ms[|ms| - 1].content;
      if c.Items? {
        DropSomItemsIdempotent(c.items, isImg);
      }
    }
  }

  lemma {:induction false} DropSomItemsIdempotent(xs: seq<Item>, isImg: string -> bool)
    ensures DropSomItems(DropSomItems(xs, isImg), isImg) == DropSomItems(xs, isImg)
    decreases |xs|
  {
    if xs != [] {
      var p, x := xs[..|xs| - 1], xs[|xs| - 1];
      DropSomItemsIdempotent(p, isImg);
      var rp := DropSomItems(p, isImg);
      if !SomImage(x, isImg) {
        var r := rp + [x];
        assert DropSomItems(xs, isImg) == r;
        assert r[..|r| - 1] == rp && r[|r| - 1] == x;
        assert DropSomItems(r, isImg) == DropSomItems(rp, isImg) + [x];
      } else {
        assert DropSomItems(xs, isImg) == rp;
      }
    }
  }

  /**
    The comprehension deletes exactly the annotated screenshots: each item it
    drops is one, none is left, and every other item keeps its place.
  */
  lemma {:induction false} DropSomThins(xs: seq<Item>, isImg: string -> bool)
    ensures var r := DropSomItems(xs, isImg);
      && Thinned(r, xs, SomGone(isImg), Same<Item>)
      && forall k :: 0 <= k < |r| ==> !SomImage(r[k], isImg)
    decreases |xs|
  {
    if xs != [] {
      var p, x := xs[..|xs| - 1], xs[|xs| - 1];
      DropSomThins(p, isImg);
      var rp := DropSomItems(p, isImg);
      var r := DropSomItems(xs, isImg);
      if SomImage(x, isImg) {
        assert r == rp && SomGone(isImg)(x);
      } else {
        assert r == rp + [x];
        assert r[..|r| - 1] == rp;
      }
    }
  }

  /** Message by message, `_remove_som_images` only deletes annotated screenshots. */
  lemma {:induction false} DropSomOnlyDeletes(ms: seq<Message>, isImg: string -> bool)
    ensures MessagesThinned(DropSom(ms, isImg), ms, SomGone(isImg), Same<Item>)
    decreases |ms|
  {
    if ms != [] {
      var p, msg := ms[..|ms| - 1], ms[|ms| - 1];
      DropSomOnlyDeletes(p, isImg);
      var rp := DropSom(p, isImg);
      if msg.content.Items? {
        DropSomThins(msg.content.items, isImg);
      }
      var r := DropSom(ms, isImg);
      assert r == rp + [Message(msg.role, DropSomContent(msg.content, isImg))];
      forall i | 0 <= i < |ms|
        ensures r[i].role == ms[i].role && ContentThinned(r[i].content, ms[i].content, SomGone(isImg), Same<Item>)
      {
        if i < |p| {
          assert r[i] == rp[i] && ms[i] == p[i];
        }
      }
    }
  }

  // ---------------------------------------------------------------------------
  // The new screenshot

  function ScreenshotPath(uuid: string): string {
    OutputDir + "/screenshot_" + uuid + ".png"
  }

  function SomScreenshotPath(uuid: string): string {
    OutputDir + "/screenshot_som_" + uuid + ".png"
  }

  /** The last message with both paths appended; a string content is first wrapped into a list. */
  function WithScreenshots(m: Message, uuid: string): Message {
    var shots := [Str(ScreenshotPath(uuid)), Str(SomScreenshotPath(uuid))];
    match m.content
    case Text(s) => Message(m.role, Items([Str(s)] + shots))
    case Items(xs) => Message(m.role, Items(xs + shots))
  }

  /** The annotated path always contains "som": it is dropped at the start of the next step. */
  lemma {:induction false} SomShotDroppedNextStep(ms: seq<Message>, uuid: string, isImg: string -> bool)
    requires |ms| > 0 && isImg(SomScreenshotPath(uuid))
    ensures var after := ms[..|ms| - 1] + [WithScreenshots(ms[|ms| - 1], uuid)];
      var last := DropSom(after, isImg)[|ms| - 1];
      last.content.Items? && Str(SomScreenshotPath(uuid)) !in last.content.items
  {
    var path := SomScreenshotPath(uuid);
    assert OccursAt(path, "som", 25);
    var after := ms[..|ms| - 1] + [WithScreenshots(ms[|ms| - 1], uuid)];
    assert after[..|after| - 1] == ms[..|ms| - 1];
  }

  /** A uuid without the letter 's' (as a hex uuid) gives a plain path without "som". */
  lemma PlainShotHasNoSom(uuid: string)
    requires forall k :: 0 <= k < |uuid| ==> uuid[k] != 's'
    ensures !Contains(ScreenshotPath(uuid), "som")
  {
    var path := ScreenshotPath(uuid);
    var pre := OutputDir + "/screenshot_";
    assert path == pre + uuid + ".png";
    assert forall i | 0 <= i < |pre| - 1 :: !(pre[i] == 's' && pre[i + 1] == 'o');
    forall i | 0 <= i < |path| - 1 ensures !(path[i] == 's' && path[i + 1] == 'o') {
      if i < |pre| - 1 {
        assert path[i] == pre[i] && path[i + 1] == pre[i + 1];
      } else if i == |pre| - 1 {
        assert path[i] == '_';
      } else if i < |pre| + |uuid| {
        assert path[i] == uuid[i - |pre|];
      } else {
        assert path[i] == ".png"[i - |pre| - |uuid|];
      }
    }
    forall i: nat | i <= |path| ensures !OccursAt(path, "som", i) {
      assert i + 3 <= |path| ==> path[i..i + 3][0] == path[i] && path[i..i + 3][1] == path[i + 1];
    }
  }

  /** The plain screenshot path survives the next step's removal of annotated images. */
  lemma PlainShotKept(ms: seq<Message>, uuid: string, isImg: string -> bool)
    requires |ms| > 0
    requires forall k :: 0 <= k < |uuid| ==> uuid[k] != 's'
    ensures var after := ms[..|ms| - 1] + [WithScreenshots(ms[|ms| - 1], uuid)];
      var last := DropSom(after, isImg)[|ms| - 1];
      last.content.Items? && Str(ScreenshotPath(uuid)) in last.content.items
  {
    PlainShotHasNoSom(uuid);
    var after := ms[..|ms| - 1] + [WithScreenshots(ms[|ms| - 1], uuid)];
    assert after[..|after| - 1] == ms[..|ms| - 1];
    assert Str(ScreenshotPath(uuid)) in WithScreenshots(ms[|ms| - 1], uuid).content.items;
  }

  // ---------------------------------------------------------------------------
  // The loops

  /** One more message through the removal pass. */
  lemma TrimMessagesPrefix(ms: seq<Message>, i: nat, n: int, isImg: string -> bool)
    requires i < |ms|
    ensures var (p, m) := TrimMessages(ms[..i], n, isImg); var (c, m') := TrimContent(ms[i].content, m, isImg);
      TrimMessages(ms[..i + 1], n, isImg) == (p + [Message(ms[i].role, c)], m')
  {
    assert ms[..i + 1][..i] == ms[..i];
  }

  /** One more message through the removal pass, from the state after the first `i`. */
  lemma TrimMessagesStep(ms: seq<Message>, i: nat, n: int, isImg: string -> bool,
                         done: seq<Message>, m: int, c: Content, m': int)
    requires i < |ms| && (done, m) == TrimMessages(ms[..i], n, isImg)
    requires (c, m') == TrimContent(ms[i].content, m, isImg)
    ensures (done + [Message(ms[i].role, c)], m') == TrimMessages(ms[..i + 1], n, isImg)
  {
    TrimMessagesPrefix(ms, i, n, isImg);
  }

  /** Replacing the first unprocessed message extends the processed prefix by one. */
  lemma UpdateAt(done: seq<Message>, ms: seq<Message>, i: nat, x: Message)
    requires |done| == i < |ms|
    ensures (done + ms[i..])[i := x] == (done + [x]) + ms[i + 1..]
  {
    assert ms[i..] == [ms[i]] + ms[i + 1..];
  }

  /** One more item through the removal pass of a content list. */
  lemma TrimItemsPrefix(xs: seq<Item>, j: nat, n: int, isImg: string -> bool)
    requires j < |xs|
    ensures var t := TrimItems(xs[..j], n, isImg); var u := TrimItem(xs[j], t.1, isImg);
      TrimItems(xs[..j + 1], n, isImg) == (t.0 + u.0, u.1)
  {
    assert xs[..j + 1][..j] == xs[..j];
  }

  /** The counting loop over the characters of a string content. */
  method CountCharImages(s: string, isImg: string -> bool) returns (n: nat)
    ensures n == CharImages(s, isImg)
  {
    n := 0;
    var j := 0;
    while j < |s|
      invariant 0 <= j <= |s|
      invariant n == CharImages(s[..j], isImg)
    {
      assert s[..j + 1][..j] == s[..j];
      if isImg([s[j]]) {
        n := n + 1;
      }
      j := j + 1;
    }
    assert s[..|s|] == s;
  }

  /** The counting loop over the entries of a `tool_result`. */
  method CountEntryImages(es: seq<Entry>) returns (n: nat)
    ensures n == |EntryImages(es)|
  {
    n := 0;
    var j := 0;
    while j < |es|
      invariant 0 <= j <= |es|
      invariant n == |EntryImages(es[..j])|
    {
      assert es[..j + 1][..j] == es[..j];
      if es[j].ImageEntry? {
        n := n + 1;
      }
      j := j + 1;
    }
    assert es[..|es|] == es;
  }

  /** The counting loop over a content list. */
  method CountItemImages(xs: seq<Item>, isImg: string -> bool) returns (n: nat)
    ensures n == |ItemsImages(xs, isImg)|
  {
    n := 0;
    var j := 0;
    while j < |xs|
      invariant 0 <= j <= |xs|
      invariant n == |ItemsImages(xs[..j], isImg)|
    {
      assert xs[..j + 1][..j] == xs[..j];
      match xs[j] {
        case Str(s) =>
          if isImg(s) {
            n := n + 1;
          }
        case ToolResult(es) =>
          var k := CountEntryImages(es);
          n := n + k;
        case OtherItem(_) =>
      }
      j := j + 1;
    }
    assert xs[..|xs|] == xs;
  }

  /** The inner removal loop over a `tool_result`'s entries. */
  method TrimEntryList(es: seq<Entry>, n: int) returns (kept: seq<Entry>, left: int)
    ensures (kept, left) == TrimEntries(es, n)
  {
    kept, left := [], n;
    var j := 0;
    while j < |es|
      invariant 0 <= j <= |es|
      invariant (kept, left) == TrimEntries(es[..j], n)
    {
      assert es[..j + 1][..j] == es[..j];
      if es[j].ImageEntry? && left > 0 {
        left := left - 1;
      } else {
        kept := kept + [es[j]];
      }
      j := j + 1;
    }
    assert es[..|es|] == es;
  }

  /** The removal loop over one message's content list. */
  method TrimItemList(xs: seq<Item>, n: int, isImg: string -> bool) returns (kept: seq<Item>, left: int)
    ensures (kept, left) == TrimItems(xs, n, isImg)
  {
    kept, left := [], n;
    var j := 0;
    while j < |xs|
      invariant 0 <= j <= |xs|
      invariant (kept, left) == TrimItems(xs[..j], n, isImg)
    {
      TrimItemsPrefix(xs, j, n, isImg);
      ghost var piece := TrimItem(xs[j], left, isImg);
      ghost var kept0 := kept;
      match xs[j] {
        case Str(s) =>
          if isImg(s) && left > 0 {
            left := left - 1;
          } else {
            kept := kept + [xs[j]];
          }
        case ToolResult(es) =>
          var entries, rest := TrimEntryList(es, left);
          kept := kept + [ToolResult(entries)];
          left := rest;
        case OtherItem(_) =>
          kept := kept + [xs[j]];
      }
      assert kept == kept0 + piece.0 && left == piece.1;
      j := j + 1;
    }
    assert xs[..|xs|] == xs;
  }

  /** The caller's message list, which the agent edits in place. */
  class Conversation {
    var messages: seq<Message>

    constructor(ms: seq<Message>)
      ensures messages == ms
    {
      messages := ms;
    }

    /** `_remove_som_images`: every list content rebuilt without its annotated screenshots. */
    method RemoveSomImages(isImg: string -> bool)
      modifies this
      ensures messages == DropSom(old(messages), isImg)
    {
      var i := 0;
      while i < |messages|
        invariant 0 <= i <= |messages| == |old(messages)|
        invariant messages[..i] == DropSom(old(messages)[..i], isImg)
        invariant messages[i..] == old(messages)[i..]
      {
        assert old(messages)[..i + 1][..i] == old(messages)[..i];
        var m := messages[i];
        messages := messages[i := Message(m.role, DropSomContent(m.content, isImg))];
        i := i + 1;
      }
      assert old(messages)[..i] == old(messages);
    }

    /** The first pass: `total_images` over the whole history. */
    method CountImages(isImg: string -> bool) returns (total: nat)
      ensures total == TotalImages(messages, isImg)
    {
      total := 0;
      var i := 0;
      while i < |messages|
        invariant 0 <= i <= |messages|
        invariant total == TotalImages(messages[..i], isImg)
      {
        assert messages[..i + 1][..i] == messages[..i];
        var k;
        match messages[i].content {
          case Text(s) =>
            k := CountCharImages(s, isImg);
          case Items(xs) =>
            k := CountItemImages(xs, isImg);
        }
        total := total + k;
        i := i + 1;
      }
      assert messages[..i] == messages;
    }

    /**
      `_maybe_filter_to_n_most_recent_images`: nothing for None; otherwise count,
      then remove `total - keep` images oldest first with one decrementing counter
      across all messages and `tool_result`s.
    */
    method FilterToNMostRecentImages(keep: Option<int>, isImg: string -> bool)
      modifies this
      ensures messages == KeepRecent(old(messages), keep, isImg)
    {
      if keep.None? {
        return;
      }
      var total := CountImages(isImg);
      var toRemove := total - keep.value;
      ghost var n := toRemove;
      ghost var ms := messages;
      ghost var done: seq<Message> := [];
      var i := 0;
      while i < |messages|
        invariant 0 <= i <= |ms| && |messages| == |ms|
        invariant ms == old(messages)
        invariant (done, toRemove) == TrimMessages(ms[..i], n, isImg)
        invariant messages == done + ms[i..]
      {
        var m := messages[i];
        assert m == ms[i];
        var c, left := m.content, toRemove;
        if m.content.Items? {
          var kept;
          kept, left := TrimItemList(m.content.items, toRemove, isImg);
          c := Items(kept);
        }
        TrimMessagesStep(ms, i, n, isImg, done, toRemove, c, left);
        UpdateAt(done, ms, i, Message(m.role, c));
        messages := messages[i := Message(m.role, c)];
        done := done + [Message(m.role, c)];
        toRemove := left;
        i := i + 1;
      }
      assert ms[..i] == ms && ms[i..] == [];
      assert messages == done;
    }

    /**
      The two paths of the new screenshot appended to the last message (a string
      content wrapped into a list first); `IndexError` on an empty history.
    */
    method AppendScreenshots(uuid: string) returns (err: Option<PyError>)
      modifies this
      ensures old(messages) == [] ==> err == Some(IndexError) && messages == old(messages)
      ensures old(messages) != [] ==> (err == None
        && messages == old(messages)[..|old(messages)| - 1] + [WithScreenshots(old(messages)[|old(messages)| - 1], uuid)])
    {
      if messages == [] {
        return Some(IndexError);
      }
      var last := |messages| - 1;
      var m := messages[last];
      var items := match m.content case Text(s) => [Str(s)] case Items(xs) => xs;
      items := items + [Str(ScreenshotPath(uuid))];
      items := items + [Str(SomScreenshotPath(uuid))];
      assert Message(m.role, Items(items)) == WithScreenshots(m, uuid) by {
        match m.content {
          case Text(s) =>
            assert items == [Str(s)] + [Str(ScreenshotPath(uuid)), Str(SomScreenshotPath(uuid))];
          case Items(xs) =>
            assert items == xs + [Str(ScreenshotPath(uuid)), Str(SomScreenshotPath(uuid))];
        }
      }
      messages := messages[last := Message(m.role, Items(items))];
      assert messages == old(messages)[..last] + [messages[last]];
      return None;
    }
  }
}
