/** The video half of `firebase/mockDataStore.ts`: an in-memory list of videos
    with a feed order and a visibility flag. The module-level `mockVideos`
    variable becomes a value passed in and returned; every operation is a
    function from the old list to the new one. */
module MockVideos {
  import opened Seqs
  import opened StableSort
  import opened VideoTypes

  /** `(v.feedOrder || 0)`: an absent order sorts as 0. */
  function OrderKey(v: Video): int {
    v.feedOrder.GetOr(0)
  }

  /** `isVisible !== false`: an absent flag counts as visible. */
  predicate IsShown(v: Video) {
    v.isVisible != Some(false)
  }

  function IdOf(v: Video): string { v.id }

  /** `getMockVideos`: a copy of the store, stably sorted by ascending order. */
  function GetMockVideos(store: seq<Video>): (r: seq<Video>)
    ensures |r| == |store|
    ensures multiset(r) == multiset(store)
    ensures forall i, j :: 0 <= i < j < |r| ==> OrderKey(r[i]) <= OrderKey(r[j])
  {
    var r := SortBy(store, OrderKey);
    SortedPairwise(r, OrderKey);
    r
  }

  /** Videos sharing an order value come out in store order. */
  lemma GetMockVideosStable(store: seq<Video>, k: int)
    ensures FilterKey(GetMockVideos(store), OrderKey, k) == FilterKey(store, OrderKey, k)
  {
    SortByStable(store, OrderKey, k);
  }

  /** `getVisibleMockVideos`: the shown videos, sorted the same way. */
  function GetVisibleMockVideos(store: seq<Video>): (r: seq<Video>)
    ensures forall i :: 0 <= i < |r| ==> IsShown(r[i])
    ensures forall i, j :: 0 <= i < j < |r| ==> OrderKey(r[i]) <= OrderKey(r[j])
  {
    var shown := FilterKey(store, IsShown, true);
    FilterKeyMembers(store, IsShown, true);
    var r := SortBy(shown, OrderKey);
    SortedPairwise(r, OrderKey);
    PermutationMembers(r, shown);
    r
  }

  lemma PermutationMembers<T>(r: seq<T>, s: seq<T>)
    requires multiset(r) == multiset(s)
    ensures forall i :: 0 <= i < |r| ==> r[i] in s
  {
    forall i | 0 <= i < |r|
      ensures r[i] in s
    {
      assert r[i] in multiset(r);
    }
  }

  /** Exactly the shown videos, each as often as it is stored, and videos
      with equal order keep their store order. */
  lemma VisibleExact(store: seq<Video>, v: Video, k: int)
    ensures multiset(GetVisibleMockVideos(store))[v] == if IsShown(v) then multiset(store)[v] else 0
    ensures FilterKey(GetVisibleMockVideos(store), OrderKey, k)
         == FilterKey(FilterKey(store, IsShown, true), OrderKey, k)
  {
    FilterKeyCount(store, IsShown, true, v);
    SortByStable(FilterKey(store, IsShown, true), OrderKey, k);
  }

  /** `updateMockVideoVisibility`: every video with the id gets the flag. */
  function UpdateVisibility(store: seq<Video>, id: string, visible: bool): (r: seq<Video>)
    ensures |r| == |store|
    ensures forall i :: 0 <= i < |r| ==> r[i].(isVisible := store[i].isVisible) == store[i]
    ensures forall i :: 0 <= i < |r| ==> r[i].isVisible == if store[i].id == id then Some(visible) else store[i].isVisible
  {
    seq(|store|, i requires 0 <= i < |store| =>
      if store[i].id == id then store[i].(isVisible := Some(visible)) else store[i])
  }

  /** An id no video carries changes nothing. */
  lemma UpdateVisibilityUnknown(store: seq<Video>, id: string, visible: bool)
    requires id !in MapKey(store, IdOf)
    ensures UpdateVisibility(store, id, visible) == store
  {
    var r := UpdateVisibility(store, id, visible);
    forall i | 0 <= i < |store|
      ensures r[i] == store[i]
    {
      assert IdOf(store[i]) == MapKey(store, IdOf)[i];
    }
  }

  /** Setting the same flag twice is setting it once; setting it again to the
      value it had restores nothing else either. */
  lemma UpdateVisibilityIdempotent(store: seq<Video>, id: string, visible: bool)
    ensures UpdateVisibility(UpdateVisibility(store, id, visible), id, visible) == UpdateVisibility(store, id, visible)
  {
  }

  // ---- batch order update ----

  datatype OrderUpdate = OrderUpdate(id: string, feedOrder: int)

  /** The order a `Map` built from the updates gives for `id`: a later entry for the same id
      overwrites an earlier one, so the last one is found. */
  function OrderLookup(updates: seq<OrderUpdate>, id: string): (r: Option<int>)
    ensures r.None? <==> forall i :: 0 <= i < |updates| ==> updates[i].id != id
    ensures r.Some? ==> exists i :: 0 <= i < |updates| && updates[i].id == id && updates[i].feedOrder == r.value
                          && LastWithId(updates, id, i)
  {
    if updates == [] then None
    else if Last(updates).id == id then Some(Last(updates).feedOrder)
    else
      var r := OrderLookup(Init(updates), id);
      assert forall i :: 0 <= i < |Init(updates)| ==> Init(updates)[i] == updates[i];
      r
  }

  /** `updates[i]` is the last entry for `id`. */
  ghost predicate LastWithId(updates: seq<OrderUpdate>, id: string, i: int) {
    forall j :: 0 <= j < |updates| && i < j ==> updates[j].id != id
  }

  /** `batchUpdateMockVideoOrders`. */
  function BatchUpdateOrders(store: seq<Video>, updates: seq<OrderUpdate>): (r: seq<Video>)
    ensures |r| == |store|
    ensures forall i :: 0 <= i < |r| ==> r[i].(feedOrder := store[i].feedOrder) == store[i]
  {
    seq(|store|, i requires 0 <= i < |store| =>
      match OrderLookup(updates, store[i].id)
      case Some(n) => store[i].(feedOrder := Some(n))
      case None => store[i])
  }

  /** A video named by the updates gets the order of the last entry naming it. */
  lemma BatchUpdateNamed(store: seq<Video>, updates: seq<OrderUpdate>, i: nat, j: nat)
    requires i < |store| && j < |updates|
    requires updates[j].id == store[i].id && LastWithId(updates, store[i].id, j)
    ensures BatchUpdateOrders(store, updates)[i].feedOrder == Some(updates[j].feedOrder)
  {
    var id := store[i].id;
    var k :| 0 <= k < |updates| && updates[k].id == id && updates[k].feedOrder == OrderLookup(updates, id).value
      && LastWithId(updates, id, k);
    assert LastWithId(updates, id, k);
    assert forall m :: 0 <= m < |updates| && k < m ==> updates[m].id != id;
  }

  /** A video no update names is left exactly as it was. */
  lemma BatchUpdateUnnamed(store: seq<Video>, updates: seq<OrderUpdate>, i: nat)
    requires i < |store|
    requires forall j :: 0 <= j < |updates| ==> updates[j].id != store[i].id
    ensures BatchUpdateOrders(store, updates)[i] == store[i]
  {
  }

  // ---- add, update, delete ----

  /** `Omit<Video, 'id' | 'createdAt' | 'feedOrder'>`. */
  datatype VideoInput = VideoInput(
    url: string,
    caption: string,
    likes: int,
    comments: int,
    shares: int,
    username: string,
    userAvatar: string,
    isVisible: Option<bool>)

  /** Every video carries its position as its order. */
  ghost predicate IsNumbered(store: seq<Video>) {
    forall i :: 0 <= i < |store| ==> store[i].feedOrder == Some(i)
  }

  /** `addMockVideo`, with the generated id and the clock as parameters.
      Returns the new store and the video added. */
  function AddMockVideo(store: seq<Video>, input: VideoInput, freshId: string, now: int): (r: (seq<Video>, Video))
    ensures r.0 == store + [r.1]
    ensures r.1.id == freshId && r.1.createdAt == now
    ensures r.1.feedOrder == Some(|store|)
    ensures r.1.isVisible == Some(input.isVisible.GetOr(true))
    ensures r.1.url == input.url && r.1.caption == input.caption && r.1.username == input.username
    ensures r.1.userAvatar == input.userAvatar
    ensures r.1.likes == input.likes && r.1.comments == input.comments && r.1.shares == input.shares
  {
    var v := Video(freshId, input.url, input.caption, input.likes, input.comments, input.shares,
                   input.username, input.userAvatar, now,
                   Some(if input.isVisible.Some? then input.isVisible.value else true),
                   Some(|store|));
    (store + [v], v)
  }

  /** Adding to a numbered store keeps it numbered, and the new video sorts
      last. */
  lemma AddKeepsNumbering(store: seq<Video>, input: VideoInput, freshId: string, now: int)
    requires IsNumbered(store)
    ensures IsNumbered(AddMockVideo(store, input, freshId, now).0)
    ensures GetMockVideos(AddMockVideo(store, input, freshId, now).0) == AddMockVideo(store, input, freshId, now).0
  {
    var s := AddMockVideo(store, input, freshId, now).0;
    NumberedSorted(s);
  }

  /** A numbered store is already in feed order, so `getMockVideos` returns
      it as it is. */
  lemma NumberedSorted(store: seq<Video>)
    requires IsNumbered(store)
    ensures GetMockVideos(store) == store
  {
    SortOfStrict(store, store, OrderKey);
  }

  /** `findIndex` on the id: the first position with the id. */
  function FindVideo(store: seq<Video>, id: string): (r: Option<nat>)
    ensures r.None? <==> id !in MapKey(store, IdOf)
    ensures r.Some? ==> r.value < |store| && store[r.value].id == id
    ensures r.Some? ==> forall j :: 0 <= j < r.value ==> store[j].id != id
  {
    if store == [] then None
    else if store[0].id == id then
      assert IdOf(store[0]) == MapKey(store, IdOf)[0];
      Some(0)
    else
      var r := FindVideo(store[1..], id);
      FindShift(store, id);
      if r.Some? then Some(r.value + 1) else None
  }

  lemma FindShift(store: seq<Video>, id: string)
    requires store != [] && store[0].id != id
    ensures id in MapKey(store, IdOf) <==> id in MapKey(store[1..], IdOf)
  {
    assert MapKey(store, IdOf) == [IdOf(store[0])] + MapKey(store[1..], IdOf);
  }

  /** `Partial<Omit<Video, 'id' | 'createdAt'>>`: the fields an update may
      carry. An absent field is `None`. */
  datatype VideoPatch = VideoPatch(
    url: Option<string>,
    caption: Option<string>,
    likes: Option<int>,
    comments: Option<int>,
    shares: Option<int>,
    username: Option<string>,
    userAvatar: Option<string>,
    isVisible: Option<bool>,
    feedOrder: Option<int>)

  /** `{ ...v, ...patch }`: present fields replace, absent ones keep. */
  function ApplyPatch(v: Video, p: VideoPatch): (r: Video)
    ensures r.id == v.id && r.createdAt == v.createdAt
  {
    Video(v.id, p.url.GetOr(v.url), p.caption.GetOr(v.caption),
          p.likes.GetOr(v.likes), p.comments.GetOr(v.comments), p.shares.GetOr(v.shares),
          p.username.GetOr(v.username), p.userAvatar.GetOr(v.userAvatar), v.createdAt,
          if p.isVisible.Some? then p.isVisible else v.isVisible,
          if p.feedOrder.Some? then p.feedOrder else v.feedOrder)
  }

  function EmptyPatch(): VideoPatch {
    VideoPatch(None, None, None, None, None, None, None, None, None)
  }

  /** Patching with nothing changes nothing, and a patch applied twice has
      the effect of applying it once. */
  lemma ApplyPatchLaws(v: Video, p: VideoPatch)
    ensures ApplyPatch(v, EmptyPatch()) == v
    ensures ApplyPatch(ApplyPatch(v, p), p) == ApplyPatch(v, p)
  {
  }

  /** `updateMockVideo`: the first video with the id is patched and returned;
      an unknown id gives `null` and changes nothing. */
  function UpdateMockVideo(store: seq<Video>, id: string, p: VideoPatch): (r: (seq<Video>, Option<Video>))
    ensures id !in MapKey(store, IdOf) <==> r.1.None?
    ensures r.1.None? ==> r.0 == store
    ensures r.1.Some? ==> r.1.value.id == id && |r.0| == |store|
    ensures r.1.Some? ==> (exists i :: 0 <= i < |store| && FirstWithId(store, id, i)
                             && r.0 == store[i := r.1.value] && r.1.value == ApplyPatch(store[i], p))
  {
    match FindVideo(store, id)
    case None => (store, None)
    case Some(i) =>
      var v := ApplyPatch(store[i], p);
      (store[i := v], Some(v))
  }

  /** `store[i]` is the first video with `id`. */
  ghost predicate FirstWithId(store: seq<Video>, id: string, i: int)
    requires 0 <= i < |store|
  {
    store[i].id == id && forall j :: 0 <= j < i ==> store[j].id != id
  }

  /** `Renumber(s)` is `s` with every video's order set to its position. */
  function Renumber(s: seq<Video>): (r: seq<Video>)
    ensures |r| == |s| && IsNumbered(r)
    ensures forall i :: 0 <= i < |s| ==> r[i].(feedOrder := s[i].feedOrder) == s[i]
  {
    seq(|s|, i requires 0 <= i < |s| => s[i].(feedOrder := Some(i)))
  }

  /** A video with its order left out, for comparing lists whose orders
      have drifted apart. */
  function WithoutOrder(v: Video): Video {
    v.(feedOrder := None)
  }

  /** `a` holds the videos of `b`, in any arrangement, up to their orders. */
  ghost predicate SameButOrder(a: seq<Video>, b: seq<Video>) {
    multiset(MapKey(a, WithoutOrder)) == multiset(MapKey(b, WithoutOrder))
  }

  /** Renumbering a store whose orders are already its positions does nothing. */
  lemma RenumberNumbered(s: seq<Video>)
    requires IsNumbered(s)
    ensures Renumber(s) == s
  {
  }

  /** `deleteMockVideo`: the first video with the id is removed and the rest
      are renumbered from 0; an unknown id gives `false` and changes nothing. */
  function DeleteMockVideo(store: seq<Video>, id: string): (r: (seq<Video>, bool))
    ensures r.1 <==> id in MapKey(store, IdOf)
    ensures !r.1 ==> r.0 == store
    ensures r.1 ==> |r.0| == |store| - 1 && IsNumbered(r.0)
    ensures r.1 ==> exists i :: 0 <= i < |store| && FirstWithId(store, id, i) && r.0 == Renumber(RemoveAt(store, i))
  {
    match FindVideo(store, id)
    case None => (store, false)
    case Some(i) => (Renumber(RemoveAt(store, i)), true)
  }

  /** After a delete the survivors keep their relative order: apart from the
      order field, the store is the old one with one video taken out. */
  lemma DeleteKeepsOthers(store: seq<Video>, id: string, i: nat, j: nat)
    requires i < |store| && FirstWithId(store, id, i)
    requires j < |store| - 1
    ensures DeleteMockVideo(store, id).0[j].(feedOrder := None)
         == (if j < i then store[j] else store[j + 1]).(feedOrder := None)
  {
    var k := FindVideo(store, id).value;
    assert k == i;
  }
}
