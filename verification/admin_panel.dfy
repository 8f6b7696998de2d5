/** The list logic of `components/AdminPanel.tsx`: the drag-and-drop move and
    the order updates it sends, the local visibility toggle and delete, the
    dashboard totals, and `formatDuration`. */
module AdminPanel {
  import opened Seqs
  import opened StableSort
  import opened JsStrings
  import opened VideoTypes
  import opened MockVideos

  // ---- drag and drop ----

  /** The two splices of `handleDragEnd`: the item at `src` is taken out and
      put back in at `dst`. */
  function Move<T>(s: seq<T>, src: nat, dst: nat): (r: seq<T>)
    requires src < |s| && dst < |s|
    ensures |r| == |s|
    ensures multiset(r) == multiset(s)
    ensures r[dst] == s[src]
    ensures RemoveAt(r, dst) == RemoveAt(s, src)
  {
    var rest := RemoveAt(s, src);
    RemoveAtMultiset(s, src);
    InsertAtMultiset(rest, dst, s[src]);
    RemoveInsertInverse(rest, dst, s[src]);
    InsertAt(rest, dst, s[src])
  }

  /** Dragging the item back where it came from undoes the move. */
  lemma MoveBack<T>(s: seq<T>, src: nat, dst: nat)
    requires src < |s| && dst < |s|
    ensures Move(Move(s, src, dst), dst, src) == s
  {
    InsertRemoveInverse(s, src);
  }

  /** `handleDragEnd`'s new list: a drop outside the list changes nothing. */
  function DragEnd(videos: seq<Video>, src: nat, dst: Option<nat>): (r: seq<Video>)
    requires src < |videos| && (dst.Some? ==> dst.value < |videos|)
    ensures |r| == |videos|
    ensures dst.None? ==> r == videos
    ensures dst.Some? ==> multiset(r) == multiset(videos) && r[dst.value] == videos[src]
    ensures dst.Some? ==> RemoveAt(r, dst.value) == RemoveAt(videos, src)
  {
    match dst
    case None => videos
    case Some(d) => Move(videos, src, d)
  }

  /** The updates the drag sends: each item's id paired with its position. */
  function OrderUpdates(items: seq<Video>): (r: seq<OrderUpdate>)
    ensures |r| == |items|
    ensures forall i :: 0 <= i < |r| ==> r[i].id == items[i].id && r[i].feedOrder == i
  {
    seq(|items|, i requires 0 <= i < |items| => OrderUpdate(items[i].id, i))
  }

  /** Saving the panel's list makes the store's feed order exactly that list.
      The list only has to hold the store's videos up to their orders: the
      panel keeps the orders it loaded while the store renumbers on every
      save and delete, so from the second drag on they differ. Each video's
      order becomes its position, and `getMockVideos` returns the list as the
      admin arranged it. */
  lemma SaveOrder(store: seq<Video>, items: seq<Video>)
    requires SameButOrder(items, store)
    requires NoDup(MapKey(store, IdOf))
    ensures GetMockVideos(BatchUpdateOrders(store, OrderUpdates(items))) == Renumber(items)
  {
    var st := BatchUpdateOrders(store, OrderUpdates(items));
    var numbered := Renumber(items);
    SameButOrderIds(items, store);
    PermutationNoDup(MapKey(items, IdOf), MapKey(store, IdOf));
    NoDupMapKey(items, IdOf);
    assert MapKey(st, IdOf) == MapKey(store, IdOf);
    NoDupMapKey(st, IdOf);
    assert StrictlySortedBy(numbered, OrderKey);
    SavedMembers(store, items);
    NoDupSameMembers(st, numbered);
    SortOfStrict(st, numbered, OrderKey);
  }

  /** Lists that agree up to orders hold the same ids. */
  lemma SameButOrderIds(a: seq<Video>, b: seq<Video>)
    requires SameButOrder(a, b)
    ensures multiset(MapKey(a, IdOf)) == multiset(MapKey(b, IdOf))
  {
    MapKeyPermutation(MapKey(a, WithoutOrder), MapKey(b, WithoutOrder), IdOf);
    assert MapKey(MapKey(a, WithoutOrder), IdOf) == MapKey(a, IdOf);
    assert MapKey(MapKey(b, WithoutOrder), IdOf) == MapKey(b, IdOf);
  }

  /** After the save the store holds exactly the renumbered items. */
  lemma SavedMembers(store: seq<Video>, items: seq<Video>)
    requires SameButOrder(items, store)
    requires NoDup(MapKey(items, IdOf))
    ensures forall x :: x in BatchUpdateOrders(store, OrderUpdates(items)) <==> x in Renumber(items)
  {
    forall x
      ensures x in BatchUpdateOrders(store, OrderUpdates(items)) <==> x in Renumber(items)
    {
      if x in BatchUpdateOrders(store, OrderUpdates(items)) {
        SavedIsRenumbered(store, items, x);
      }
      if x in Renumber(items) {
        RenumberedIsSaved(store, items, x);
      }
    }
  }

  lemma SavedIsRenumbered(store: seq<Video>, items: seq<Video>, x: Video)
    requires SameButOrder(items, store)
    requires NoDup(MapKey(items, IdOf))
    requires x in BatchUpdateOrders(store, OrderUpdates(items))
    ensures x in Renumber(items)
  {
    var st := BatchUpdateOrders(store, OrderUpdates(items));
    var p :| 0 <= p < |st| && st[p] == x;
    var q := SavedAt(store, items, p);
  }

  lemma RenumberedIsSaved(store: seq<Video>, items: seq<Video>, x: Video)
    requires SameButOrder(items, store)
    requires NoDup(MapKey(items, IdOf))
    requires x in Renumber(items)
    ensures x in BatchUpdateOrders(store, OrderUpdates(items))
  {
    var numbered := Renumber(items);
    var q :| 0 <= q < |numbered| && numbered[q] == x;
    var w := WithoutOrder(items[q]);
    assert w in multiset(MapKey(store, WithoutOrder)) by {
      assert MapKey(items, WithoutOrder)[q] == w;
    }
    var p :| 0 <= p < |store| && MapKey(store, WithoutOrder)[p] == w;
    var q' := SavedAt(store, items, p);
    assert q' == q by {
      assert MapKey(items, IdOf)[q] == MapKey(items, IdOf)[q'];
    }
  }

  /** Where the `p`th stored video ends up: at the position `q` its
      counterpart has among the saved items, with `q` as its order. */
  lemma SavedAt(store: seq<Video>, items: seq<Video>, p: nat) returns (q: nat)
    requires SameButOrder(items, store)
    requires NoDup(MapKey(items, IdOf))
    requires p < |store|
    ensures q < |items| && WithoutOrder(items[q]) == WithoutOrder(store[p])
    ensures BatchUpdateOrders(store, OrderUpdates(items))[p] == Renumber(items)[q]
  {
    var ups := OrderUpdates(items);
    var id := store[p].id;
    var w := WithoutOrder(store[p]);
    assert w in multiset(MapKey(items, WithoutOrder)) by {
      assert MapKey(store, WithoutOrder)[p] == w;
    }
    q :| 0 <= q < |items| && MapKey(items, WithoutOrder)[q] == w;
    forall m | 0 <= m < |ups| && q < m
      ensures ups[m].id != id
    {
      assert MapKey(items, IdOf)[m] != MapKey(items, IdOf)[q];
    }
    BatchUpdateNamed(store, ups, p, q);
    SameButOrderRenumber(BatchUpdateOrders(store, ups)[p], store[p], items[q], q);
  }

  /** Two videos that agree up to their orders are equal once both carry
      the same order. */
  lemma SameButOrderRenumber(saved: Video, stored: Video, item: Video, q: nat)
    requires saved.(feedOrder := stored.feedOrder) == stored && saved.feedOrder == Some(q)
    requires WithoutOrder(item) == WithoutOrder(stored)
    ensures saved == item.(feedOrder := Some(q))
  {
  }

  /** The save leaves the store and the panel's list agreeing up to orders
      again, with the ids still distinct, so the next drag's save is covered
      by `SaveOrder` too. */
  lemma SaveKeepsAgreement(store: seq<Video>, items: seq<Video>)
    requires SameButOrder(items, store)
    requires NoDup(MapKey(store, IdOf))
    ensures SameButOrder(items, BatchUpdateOrders(store, OrderUpdates(items)))
    ensures NoDup(MapKey(BatchUpdateOrders(store, OrderUpdates(items)), IdOf))
  {
    var st := BatchUpdateOrders(store, OrderUpdates(items));
    SaveOrder(store, items);
    MapKeyPermutation(GetMockVideos(st), st, WithoutOrder);
    assert MapKey(Renumber(items), WithoutOrder) == MapKey(items, WithoutOrder);
    assert MapKey(st, IdOf) == MapKey(store, IdOf);
  }

  /** The list the panel loads is the store's own feed, which agrees with
      the store up to orders. */
  lemma LoadedAgrees(store: seq<Video>)
    ensures SameButOrder(GetMockVideos(store), store)
  {
    MapKeyPermutation(GetMockVideos(store), store, WithoutOrder);
  }

  /** A drag followed by its save, on any list the panel may hold: the feed
      shows the dragged order, and the list still agrees with the store for
      the drag after it. */
  lemma DragThenSave(store: seq<Video>, local: seq<Video>, src: nat, dst: nat)
    requires SameButOrder(local, store)
    requires NoDup(MapKey(store, IdOf))
    requires src < |local| && dst < |local|
    ensures var items := Move(local, src, dst);
      && GetMockVideos(BatchUpdateOrders(store, OrderUpdates(items))) == Renumber(items)
      && SameButOrder(items, BatchUpdateOrders(store, OrderUpdates(items)))
  {
    var items := Move(local, src, dst);
    MapKeyPermutation(items, local, WithoutOrder);
    SaveOrder(store, items);
    SaveKeepsAgreement(store, items);
  }

  // ---- visibility toggle and delete on the local list ----

  /** `handleToggleVisibility`'s new list, given the flag the row showed. */
  function ToggleVisibility(videos: seq<Video>, id: string, current: bool): (r: seq<Video>)
    ensures |r| == |videos|
    ensures forall i :: 0 <= i < |r| ==> r[i].(isVisible := videos[i].isVisible) == videos[i]
    ensures forall i :: 0 <= i < |r| ==>
      r[i].isVisible == if videos[i].id == id then Some(!current) else videos[i].isVisible
  {
    seq(|videos|, i requires 0 <= i < |videos| =>
      if videos[i].id == id then videos[i].(isVisible := Some(!current)) else videos[i])
  }

  /** The local list agrees with what the store does with the same request. */
  lemma ToggleMatchesStore(videos: seq<Video>, id: string, current: bool)
    ensures ToggleVisibility(videos, id, current) == UpdateVisibility(videos, id, !current)
  {
  }

  /** The toggle on one video: the flag set to the negation of the shown one
      when the id matches. */
  function ToggleOne(id: string, current: bool): Video -> Video {
    (v: Video) => if v.id == id then v.(isVisible := Some(!current)) else v
  }

  /** A toggle, done on the panel's list and in the store alike, keeps them
      agreeing up to orders and keeps the store's ids, so a drag after it is
      still covered by `SaveOrder`. */
  lemma ToggleKeepsAgreement(store: seq<Video>, local: seq<Video>, id: string, current: bool)
    requires SameButOrder(local, store)
    ensures SameButOrder(ToggleVisibility(local, id, current), UpdateVisibility(store, id, !current))
    ensures MapKey(UpdateVisibility(store, id, !current), IdOf) == MapKey(store, IdOf)
  {
    var t := ToggleOne(id, current);
    MapKeyPermutation(MapKey(local, WithoutOrder), MapKey(store, WithoutOrder), t);
    assert MapKey(ToggleVisibility(local, id, current), WithoutOrder) == MapKey(MapKey(local, WithoutOrder), t);
    assert MapKey(UpdateVisibility(store, id, !current), WithoutOrder) == MapKey(MapKey(store, WithoutOrder), t);
  }

  /** When the row showed the true flag, toggling twice restores the list. */
  lemma ToggleTwice(videos: seq<Video>, id: string, current: bool)
    requires forall i :: 0 <= i < |videos| && videos[i].id == id ==> videos[i].isVisible == Some(current)
    ensures ToggleVisibility(ToggleVisibility(videos, id, current), id, !current) == videos
  {
  }

  /** The test for the video with the given id. */
  function HasId(id: string): Video -> bool {
    (v: Video) => v.id == id
  }

  /** `handleDeleteVideo`'s new list: the videos whose id differs, in order. */
  function DeleteFromList(videos: seq<Video>, id: string): (r: seq<Video>)
    ensures |r| <= |videos|
    ensures forall i :: 0 <= i < |r| ==> r[i].id != id
  {
    FilterKeyMembers(videos, HasId(id), false);
    FilterKey(videos, HasId(id), false)
  }

  /** Every video with the id goes, every other stays, in list order. */
  lemma DeleteFromListExact(videos: seq<Video>, id: string, v: Video)
    ensures IsSubseq(DeleteFromList(videos, id), videos)
    ensures multiset(DeleteFromList(videos, id))[v] == if v.id == id then 0 else multiset(videos)[v]
  {
    FilterKeySubseq(videos, HasId(id), false);
    FilterKeyCount(videos, HasId(id), false, v);
  }

  // ---- dashboard totals ----

  datatype PanelStats = PanelStats(totalViews: int, totalUniqueViews: int, avgEngagement: real)

  function ViewsOf(a: VideoAnalytics): int { a.totalViews }
  function UniqueOf(a: VideoAnalytics): int { a.uniqueViews }
  function EngagementOf(a: VideoAnalytics): real { a.engagementRate }

  /** The three reductions over the analytics list. */
  function Stats(analytics: seq<VideoAnalytics>): (r: PanelStats)
    ensures |analytics| == 0 ==> r == PanelStats(0, 0, 0.0)
    ensures |analytics| > 0 ==> r.avgEngagement * |analytics| as real == SumReal(analytics, EngagementOf)
  {
    PanelStats(SumOf(analytics, ViewsOf), SumOf(analytics, UniqueOf),
               Average(SumReal(analytics, EngagementOf), |analytics|))
  }

  /** Unique views never exceed views per video, so not in total either. */
  lemma UniqueWithinTotal(analytics: seq<VideoAnalytics>)
    requires forall i :: 0 <= i < |analytics| ==> analytics[i].uniqueViews <= analytics[i].totalViews
    ensures Stats(analytics).totalUniqueViews <= Stats(analytics).totalViews
  {
    SumOfMonotone(analytics, UniqueOf, ViewsOf);
  }

  // ---- formatDuration ----

  /** `Math.trunc`. */
  function Trunc(x: real): (n: int)
    ensures x >= 0.0 ==> n as real <= x < n as real + 1.0
    ensures x < 0.0 ==> n as real - 1.0 < x <= n as real
  {
    if x >= 0.0 then x.Floor else -((-x).Floor)
  }

  /** `y` is a whole multiple of 60. */
  predicate MultipleOf60(y: real) {
    (y / 60.0).Floor as real == y / 60.0
  }

  /** `x % 60` on JavaScript numbers: what is left after taking away a whole
      multiple of 60, with the sign of `x` and less than 60 in size. */
  function Rem60(x: real): (r: real)
    ensures MultipleOf60(x - r)
    ensures x >= 0.0 ==> 0.0 <= r < 60.0
    ensures x < 0.0 ==> -60.0 < r <= 0.0
  {
    var k := Trunc(x / 60.0);
    assert (x - (x - 60.0 * k as real)) / 60.0 == k as real;
    x - 60.0 * k as real
  }

  /** `formatDuration(seconds)`. */
  function FormatDuration(seconds: real): string {
    var mins := (seconds / 60.0).Floor;
    var secs := Rem60(seconds).Floor;
    IntToString(mins) + ":" + PadStart(IntToString(secs), 2, '0')
  }

  /** On a whole number of seconds: the minutes, a colon and the remaining
      seconds padded to two digits. */
  lemma FormatWholeSeconds(s: nat)
    ensures FormatDuration(s as real) == NatToString(s / 60) + ":" + PadStart(NatToString(s % 60), 2, '0')
  {
    var x := s as real;
    var q := s / 60;
    var r := s % 60;
    assert x / 60.0 == q as real + r as real / 60.0;
    assert (x / 60.0).Floor == q;
    assert Rem60(x) == r as real;
  }

  /** A fractional number of seconds, such as an average, is shown as its
      whole seconds: both `Math.floor`s drop the fraction. */
  lemma FormatFractional(x: real)
    requires x >= 0.0
    ensures FormatDuration(x) == FormatDuration(x.Floor as real)
  {
    var n := x.Floor;
    var q := n / 60;
    var r := n % 60;
    FloorParts(x, n, q, r);
    FloorParts(n as real, n, q, r);
  }

  /** The minutes and the seconds of a non-negative `x` whose whole part is
      `n == 60 * q + r`. */
  lemma FloorParts(x: real, n: int, q: int, r: int)
    requires 0 <= n && n as real <= x < n as real + 1.0
    requires n == 60 * q + r && 0 <= r < 60
    ensures (x / 60.0).Floor == q
    ensures Rem60(x).Floor == r
  {
    assert q as real <= x / 60.0 < q as real + 1.0;
    assert Trunc(x / 60.0) == q;
    assert Rem60(x) == x - 60.0 * q as real;
  }

  /** Reads `m:ss` back; the seconds must be two digits below 60. */
  function ParseDuration(t: string): (r: Option<nat>)
    ensures r.Some? ==> ':' in t
  {
    var i := IndexOf(t, ':');
    if i == |t| then None
    else
      match (ParseNat(t[..i]), ParseNat(t[i + 1..]))
      case (Some(m), Some(sec)) =>
        if |t[i + 1..]| == 2 && sec < 60 then Some(m * 60 + sec) else None
      case _ => None
  }

  /** Reading back what `formatDuration` writes for a whole number of seconds
      gives that number. */
  lemma ParseFormat(s: nat)
    ensures ParseDuration(FormatDuration(s as real)) == Some(s)
  {
    FormatWholeSeconds(s);
    ParseWhole(s);
  }

  lemma ParseWhole(s: nat)
    ensures ParseDuration(NatToString(s / 60) + ":" + PadStart(NatToString(s % 60), 2, '0')) == Some(s)
  {
    PaddedSeconds(s % 60);
    DivMod60(s);
    ParseJoined(s / 60, PadStart(NatToString(s % 60), 2, '0'), s % 60, s);
  }

  lemma DivMod60(s: nat)
    ensures (s / 60) * 60 + s % 60 == s
  {
  }

  lemma ParseJoined(m: nat, b: string, r: nat, total: nat)
    requires |b| == 2 && ParseNat(b) == Some(r) && r < 60 && m * 60 + r == total
    ensures ParseDuration(NatToString(m) + ":" + b) == Some(total)
  {
    ColonSplit(NatToString(m), b);
    ParseNatToString(m);
  }

  /** The first colon after a run of digits is the one that follows it. */
  lemma ColonSplit(a: string, b: string)
    requires forall i :: 0 <= i < |a| ==> IsDigit(a[i])
    ensures var t := a + ":" + b;
      IndexOf(t, ':') == |a| && t[..|a|] == a && t[|a| + 1..] == b
  {
    var t := a + ":" + b;
    IndexOfUnique(t, ':', |a|);
    assert t[..|a|] == a && t[|a| + 1..] == b;
  }

  /** The padded seconds are two digits that read back as the seconds. */
  lemma PaddedSeconds(r: nat)
    requires r < 60
    ensures |PadStart(NatToString(r), 2, '0')| == 2
    ensures ParseNat(PadStart(NatToString(r), 2, '0')) == Some(r)
  {
    var d := NatToString(r);
    Utf16LengthBmp(d);
    ParseNatToString(r);
    if r < 10 {
      var p := PadStart(d, 2, '0');
      var k :| 0 <= k <= |p| && p == Repeat('0', k) + d;
      assert p == ['0', DigitChar(r)];
      assert p[..1] == ['0'];
      assert DigitsValue(p[..1]) == 0;
      assert DigitsValue(p) == r;
    } else {
      assert |d| == |NatToString(r / 10)| + 1;
    }
  }
}
