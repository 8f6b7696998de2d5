/** `services/analyticsService.ts`: an append-only log of interaction events
    kept in one `localStorage` slot, and the reduction `getAnalyticsSummary`
    over it (counts per kind, distinct users, watch time, per-video statistics
    with a top-ten cut, per-user activity).

    The slot is a value passed in and returned. Generated ids, clock readings
    and browser facts are fields of a `Stamp` supplied by the caller. Whether
    `setItem` succeeded is a parameter, because it can throw and the source
    swallows the error. */
module AnalyticsService {
  import opened Seqs
  import opened Grouping
  import opened StableSort
  import VideoTypes

  datatype EventKind = View | Like | Comment | Share | Play | Pause | Complete

  datatype BrowserInfo = BrowserInfo(userAgent: string, platform: string, screenWidth: int, screenHeight: int)

  /** One logged interaction (`UserInteractionEvent`). */
  datatype Event = Event(
    id: string,
    username: string,
    sessionId: string,
    videoId: string,
    videoCaption: string,
    kind: EventKind,
    timestamp: string,
    watchDuration: Option<real>,
    deviceInfo: BrowserInfo)

  /** What the storage slot can hold: text that parses as a list of events, or
      text that does not parse (which includes the empty string). */
  datatype Stored = Parsed(events: seq<Event>) | Unreadable

  /** The values `trackInteraction` takes from the environment: the generated
      id, the clock as an ISO string, and the browser facts. */
  datatype Stamp = Stamp(id: string, timestamp: string, device: BrowserInfo)

  function KindOf(e: Event): EventKind { e.kind }
  function UsernameOf(e: Event): string { e.username }
  function VideoIdOf(e: Event): string { e.videoId }
  function EventWatch(e: Event): real { VideoTypes.WatchOf(e.watchDuration) }

  /** `getAllInteractions`: an absent or unreadable slot reads as no events. */
  function ReadLog(slot: Option<Stored>): (log: seq<Event>)
    ensures slot.None? || slot == Some(Unreadable) ==> log == []
  {
    match slot
    case Some(Parsed(events)) => events
    case _ => []
  }

  /** `clearAnalyticsData`: the slot is removed. */
  function Clear(): (slot: Option<Stored>)
    ensures ReadLog(slot) == []
  {
    None
  }

  /** The record `trackInteraction` builds. */
  function NewEvent(username: string, sessionId: string, videoId: string, caption: string,
                    kind: EventKind, watchDuration: Option<real>, stamp: Stamp): (e: Event)
    ensures e.username == username && e.sessionId == sessionId && e.videoId == videoId
    ensures e.videoCaption == caption && e.kind == kind && e.watchDuration == watchDuration
  {
    Event(stamp.id, username, sessionId, videoId, caption, kind, stamp.timestamp, watchDuration, stamp.device)
  }

  /** Read the log, push one event, write the log back; a failed write leaves
      the slot as it was. */
  function Append(slot: Option<Stored>, e: Event, saved: bool): (slot': Option<Stored>)
    ensures saved ==> ReadLog(slot') == ReadLog(slot) + [e]
    ensures !saved ==> slot' == slot
  {
    if saved then Some(Parsed(ReadLog(slot) + [e])) else slot
  }

  /** `trackInteraction`. */
  function Track(slot: Option<Stored>, username: string, sessionId: string, videoId: string, caption: string,
                 kind: EventKind, watchDuration: Option<real>, stamp: Stamp, saved: bool): (slot': Option<Stored>)
    ensures saved ==> |ReadLog(slot')| == |ReadLog(slot)| + 1
    ensures saved ==> ReadLog(slot')[..|ReadLog(slot)|] == ReadLog(slot)
    ensures saved ==> Last(ReadLog(slot')) == NewEvent(username, sessionId, videoId, caption, kind, watchDuration, stamp)
    ensures !saved ==> slot' == slot
  {
    var e := NewEvent(username, sessionId, videoId, caption, kind, watchDuration, stamp);
    assert (ReadLog(slot) + [e])[..|ReadLog(slot)|] == ReadLog(slot);
    Append(slot, e, saved)
  }

  /** Appending events one at a time, every write succeeding. */
  function AppendAll(slot: Option<Stored>, es: seq<Event>): Option<Stored>
  {
    if es == [] then slot else Append(AppendAll(slot, Init(es)), Last(es), true)
  }

  /** The log is exactly what was tracked, in tracking order: nothing is lost,
      reordered or duplicated. */
  lemma {:induction false} LogKeepsEverything(slot: Option<Stored>, es: seq<Event>)
    ensures ReadLog(AppendAll(slot, es)) == ReadLog(slot) + es
  {
    if es != [] {
      LogKeepsEverything(slot, Init(es));
      assert es == Init(es) + [Last(es)];
    }
  }

  /** After clearing, whatever is tracked is all there is. */
  lemma ClearThenTrack(es: seq<Event>)
    ensures ReadLog(AppendAll(Clear(), es)) == es
  {
    LogKeepsEverything(Clear(), es);
  }

  // ---- the summary ----

  /** The per-video record of `getAnalyticsSummary`. */
  datatype VideoStats = VideoStats(videoId: string, caption: string, views: nat, likes: nat, comments: nat, shares: nat)

  /** The per-user record while it is being accumulated. */
  datatype UserStats = UserStats(username: string, sessionId: string, interactions: nat, videosWatched: set<string>, totalWatchTime: real)

  /** The per-user row of the summary. */
  datatype UserActivity = UserActivity(username: string, sessionId: string, interactions: nat, videosWatched: nat, totalWatchTime: real)

  datatype AnalyticsSummary = AnalyticsSummary(
    totalViews: nat,
    totalLikes: nat,
    totalComments: nat,
    totalShares: nat,
    totalUsers: nat,
    totalWatchTime: real,
    averageWatchTime: real,
    topVideos: seq<VideoStats>,
    userActivity: seq<UserActivity>)

  /** The number of events of kind `k`. */
  function CountKind(log: seq<Event>, k: EventKind): nat {
    |FilterKey(log, KindOf, k)|
  }

  function Indicator(b: bool): nat {
    if b then 1 else 0
  }

  /** The record created the first time a video id is seen. */
  function NewVideoStats(e: Event): VideoStats {
    VideoStats(e.videoId, e.videoCaption, 0, 0, 0, 0)
  }

  /** The update every event applies to its video's record. */
  function CountVideo(st: VideoStats, e: Event): VideoStats {
    st.(views := st.views + Indicator(e.kind == View),
        likes := st.likes + Indicator(e.kind == Like),
        comments := st.comments + Indicator(e.kind == Comment),
        shares := st.shares + Indicator(e.kind == Share))
  }

  /** `Array.from(videoStats.values())`. */
  function VideoStatsOf(log: seq<Event>): seq<VideoStats> {
    Accs(GroupBy(log, VideoIdOf, NewVideoStats, CountVideo))
  }

  /** The comparator `(a, b) => b.views - a.views` as an ascending key. */
  function ByViewsDesc(v: VideoStats): int {
    -(v.views as int)
  }

  /** The ten most-viewed records: a stable sort by descending views, cut to
      its first ten. */
  function TopVideos(stats: seq<VideoStats>): seq<VideoStats> {
    var sorted := SortBy(stats, ByViewsDesc);
    sorted[..Min(10, |sorted|)]
  }

  function NewUserStats(e: Event): UserStats {
    UserStats(e.username, e.sessionId, 0, {}, 0.0)
  }

  function CountUser(st: UserStats, e: Event): UserStats {
    st.(interactions := st.interactions + 1,
        videosWatched := if e.kind == View then st.videosWatched + {e.videoId} else st.videosWatched,
        totalWatchTime := VideoTypes.AddWatch(st.totalWatchTime, e.watchDuration))
  }

  function ToActivity(st: UserStats): UserActivity {
    UserActivity(st.username, st.sessionId, st.interactions, |st.videosWatched|, st.totalWatchTime)
  }

  function UserActivityOf(log: seq<Event>): seq<UserActivity> {
    MapKey(Accs(GroupBy(log, UsernameOf, NewUserStats, CountUser)), ToActivity)
  }

  predicate HasWatch(e: Event) {
    e.watchDuration.Some? && e.watchDuration.value != 0.0
  }

  /** The sum of the durations that are present and non-zero, over events of
      every kind. */
  function TotalWatchTime(log: seq<Event>): real {
    SumReal(FilterKey(log, HasWatch, true), EventWatch)
  }

  /** The summary record, with the average watch time per view computed from
      the total. */
  function Assemble(views: nat, likes: nat, comments: nat, shares: nat, users: nat, total: real,
                    top: seq<VideoStats>, activity: seq<UserActivity>): (s: AnalyticsSummary)
    ensures s.totalViews == views && s.totalWatchTime == total
    ensures views > 0 ==> s.averageWatchTime == total / views as real
    ensures views == 0 ==> s.averageWatchTime == 0.0
  {
    AnalyticsSummary(views, likes, comments, shares, users, total, Average(total, views), top, activity)
  }

  /** `getAnalyticsSummary` over the log as read. The average watch time is
      the exact quotient of the total by the number of views, and 0 without
      views. */
  function Summarize(log: seq<Event>): (s: AnalyticsSummary)
    ensures s.totalViews > 0 ==> s.averageWatchTime == s.totalWatchTime / s.totalViews as real
    ensures s.totalViews == 0 ==> s.averageWatchTime == 0.0
  {
    var views := CountKind(log, View);
    var total := TotalWatchTime(log);
    var users := Dedup(MapKey(log, UsernameOf));
    Assemble(
      views,
      CountKind(log, Like),
      CountKind(log, Comment),
      CountKind(log, Share),
      |users|,
      total,
      TopVideos(VideoStatsOf(log)),
      UserActivityOf(log))
  }

  function GetAnalyticsSummary(slot: Option<Stored>): AnalyticsSummary {
    Summarize(ReadLog(slot))
  }

  /** Each of the four totals is the number of events of its kind; play, pause
      and complete events are counted by none of them, and the seven kinds
      together account for every event. */
  lemma {:induction false} KindTotals(log: seq<Event>)
    ensures var s := Summarize(log);
      && s.totalViews == multiset(MapKey(log, KindOf))[View]
      && s.totalLikes == multiset(MapKey(log, KindOf))[Like]
      && s.totalComments == multiset(MapKey(log, KindOf))[Comment]
      && s.totalShares == multiset(MapKey(log, KindOf))[Share]
      && s.totalViews + s.totalLikes + s.totalComments + s.totalShares
         + CountKind(log, Play) + CountKind(log, Pause) + CountKind(log, Complete) == |log|
  {
    FilterKeyLength(log, KindOf, View);
    FilterKeyLength(log, KindOf, Like);
    FilterKeyLength(log, KindOf, Comment);
    FilterKeyLength(log, KindOf, Share);
    KindsPartition(log);
  }

  lemma {:induction false} KindsPartition(log: seq<Event>)
    ensures CountKind(log, View) + CountKind(log, Like) + CountKind(log, Comment) + CountKind(log, Share)
      + CountKind(log, Play) + CountKind(log, Pause) + CountKind(log, Complete) == |log|
  {
    if log != [] {
      KindsPartition(Init(log));
      CountKindSnoc(log, View);
      CountKindSnoc(log, Like);
      CountKindSnoc(log, Comment);
      CountKindSnoc(log, Share);
      CountKindSnoc(log, Play);
      CountKindSnoc(log, Pause);
      CountKindSnoc(log, Complete);
    }
  }

  lemma CountKindSnoc(log: seq<Event>, k: EventKind)
    requires log != []
    ensures CountKind(log, k) == CountKind(Init(log), k) + Indicator(Last(log).kind == k)
  {
  }

  /** `totalUsers` is the number of distinct usernames, and there is one
      activity row per distinct username. */
  lemma DistinctUsers(log: seq<Event>)
    ensures Summarize(log).totalUsers == |set u | u in MapKey(log, UsernameOf)|
    ensures |Summarize(log).userActivity| == Summarize(log).totalUsers
  {
    DedupCard(MapKey(log, UsernameOf));
    assert Keys(GroupBy(log, UsernameOf, NewUserStats, CountUser)) == Dedup(MapKey(log, UsernameOf));
  }

  /** Filtering out events without a duration does not change the sum: the
      watch time is the sum over every event, of any kind. */
  lemma {:induction false} WatchTimeOverAllEvents(log: seq<Event>)
    ensures TotalWatchTime(log) == SumReal(log, EventWatch)
  {
    if log != [] {
      WatchTimeOverAllEvents(Init(log));
      var f := FilterKey(Init(log), HasWatch, true);
      var x := Last(log);
      if HasWatch(x) {
        assert FilterKey(log, HasWatch, true) == f + [x];
        assert Init(f + [x]) == f;
      } else {
        assert FilterKey(log, HasWatch, true) == f;
        assert EventWatch(x) == 0.0;
      }
    }
  }

  // ---- per-video statistics ----

  /** A video's record computed without the loop: its id, the caption of its
      first event, and the number of its events of each counted kind. */
  function StatsOfVideo(log: seq<Event>, id: string): VideoStats
    requires id in MapKey(log, VideoIdOf)
  {
    FilterKeyPresent(log, VideoIdOf, id);
    var f := FilterKey(log, VideoIdOf, id);
    VideoStats(id, f[0].videoCaption, CountKind(f, View), CountKind(f, Like), CountKind(f, Comment), CountKind(f, Share))
  }

  /** The update loop over one video's events adds that video's counts. */
  lemma {:induction false} CountVideoFold(a: VideoStats, f: seq<Event>)
    ensures FoldL(CountVideo, a, f)
      == a.(views := a.views + CountKind(f, View), likes := a.likes + CountKind(f, Like),
            comments := a.comments + CountKind(f, Comment), shares := a.shares + CountKind(f, Share))
  {
    if f != [] {
      CountVideoFold(a, Init(f));
      CountKindSnoc(f, View);
      CountKindSnoc(f, Like);
      CountKindSnoc(f, Comment);
      CountKindSnoc(f, Share);
    }
  }

  /** One record per distinct video id, in first-appearance order, each equal
      to the loop-free `StatsOfVideo`: the caption is the one its first event
      carried. */
  lemma VideoStatsEntries(log: seq<Event>, i: nat)
    requires i < |Dedup(MapKey(log, VideoIdOf))|
    ensures |VideoStatsOf(log)| == |Dedup(MapKey(log, VideoIdOf))|
    ensures Dedup(MapKey(log, VideoIdOf))[i] in MapKey(log, VideoIdOf)
    ensures VideoStatsOf(log)[i] == StatsOfVideo(log, Dedup(MapKey(log, VideoIdOf))[i])
  {
    var g := GroupBy(log, VideoIdOf, NewVideoStats, CountVideo);
    var id := Dedup(MapKey(log, VideoIdOf))[i];
    assert Keys(g)[i] == g[i].key == id;
    FilterKeyPresent(log, VideoIdOf, id);
    var f := FilterKey(log, VideoIdOf, id);
    CountVideoFold(NewVideoStats(f[0]), f);
    FilterKeyMembers(log, VideoIdOf, id);
    assert VideoIdOf(f[0]) == id;
  }

  function StatViews(v: VideoStats): int { v.views }
  function StatLikes(v: VideoStats): int { v.likes }
  function StatComments(v: VideoStats): int { v.comments }
  function StatShares(v: VideoStats): int { v.shares }
  function ViewMark(e: Event): int { Indicator(e.kind == View) }
  function LikeMark(e: Event): int { Indicator(e.kind == Like) }
  function CommentMark(e: Event): int { Indicator(e.kind == Comment) }
  function ShareMark(e: Event): int { Indicator(e.kind == Share) }

  /** Every counted event lands in exactly one video's record: summed over all
      records, each count equals the matching global total. */
  lemma VideoStatsTotals(log: seq<Event>)
    ensures SumOf(VideoStatsOf(log), StatViews) == Summarize(log).totalViews
    ensures SumOf(VideoStatsOf(log), StatLikes) == Summarize(log).totalLikes
    ensures SumOf(VideoStatsOf(log), StatComments) == Summarize(log).totalComments
    ensures SumOf(VideoStatsOf(log), StatShares) == Summarize(log).totalShares
  {
    GroupSum(log, VideoIdOf, NewVideoStats, CountVideo, StatViews, ViewMark);
    SumIndicator(log, KindOf, View, ViewMark);
    GroupSum(log, VideoIdOf, NewVideoStats, CountVideo, StatLikes, LikeMark);
    SumIndicator(log, KindOf, Like, LikeMark);
    GroupSum(log, VideoIdOf, NewVideoStats, CountVideo, StatComments, CommentMark);
    SumIndicator(log, KindOf, Comment, CommentMark);
    GroupSum(log, VideoIdOf, NewVideoStats, CountVideo, StatShares, ShareMark);
    SumIndicator(log, KindOf, Share, ShareMark);
  }

  /** The top list: at most ten records, the first ones of the stable
      descending sort by views, which is a reordering of all records in which
      views never increase and records with equal views keep their
      first-appearance order. */
  lemma TopVideosOrder(stats: seq<VideoStats>)
    ensures var sorted := SortBy(stats, ByViewsDesc);
      && |TopVideos(stats)| == Min(10, |stats|)
      && TopVideos(stats) == sorted[..|TopVideos(stats)|]
      && multiset(sorted) == multiset(stats)
      && (forall i, j :: 0 <= i < j < |sorted| ==> sorted[i].views >= sorted[j].views)
      && (forall n :: FilterKey(sorted, ByViewsDesc, n) == FilterKey(stats, ByViewsDesc, n))
  {
    var sorted := SortBy(stats, ByViewsDesc);
    SortedPairwise(sorted, ByViewsDesc);
    forall n
      ensures FilterKey(sorted, ByViewsDesc, n) == FilterKey(stats, ByViewsDesc, n)
    {
      SortByStable(stats, ByViewsDesc, n);
    }
  }

  // ---- per-user activity ----

  /** The distinct ids of the videos among the view events of `f`. */
  function ViewedIds(f: seq<Event>): set<string> {
    set id | id in MapKey(FilterKey(f, KindOf, View), VideoIdOf)
  }

  lemma {:induction false} CountUserFold(a: UserStats, f: seq<Event>)
    ensures FoldL(CountUser, a, f)
      == a.(interactions := a.interactions + |f|,
            videosWatched := a.videosWatched + ViewedIds(f),
            totalWatchTime := a.totalWatchTime + SumReal(f, EventWatch))
  {
    if f != [] {
      CountUserFold(a, Init(f));
      ViewedIdsSnoc(f);
    }
  }

  lemma ViewedIdsSnoc(f: seq<Event>)
    requires f != []
    ensures ViewedIds(f) == ViewedIds(Init(f)) + (if Last(f).kind == View then {Last(f).videoId} else {})
  {
    var p := Init(f);
    var x := Last(f);
    var v := FilterKey(p, KindOf, View);
    if x.kind == View {
      assert FilterKey(f, KindOf, View) == v + [x];
      MapKeyInit(v + [x], VideoIdOf);
      assert Init(v + [x]) == v;
    } else {
      assert FilterKey(f, KindOf, View) == v;
    }
  }

  /** A user's row computed without the loop: the session id of their first
      event, their number of events, the number of distinct videos they viewed
      and their summed watch time. */
  function RowOfUser(log: seq<Event>, u: string): UserActivity
    requires u in MapKey(log, UsernameOf)
  {
    FilterKeyPresent(log, UsernameOf, u);
    var f := FilterKey(log, UsernameOf, u);
    UserActivity(u, f[0].sessionId, |f|, |ViewedIds(f)|, SumReal(f, EventWatch))
  }

  /** One row per distinct username, in first-appearance order, each equal to
      the loop-free `RowOfUser`. */
  lemma UserActivityEntries(log: seq<Event>, i: nat)
    requires i < |Dedup(MapKey(log, UsernameOf))|
    ensures |UserActivityOf(log)| == |Dedup(MapKey(log, UsernameOf))|
    ensures Dedup(MapKey(log, UsernameOf))[i] in MapKey(log, UsernameOf)
    ensures UserActivityOf(log)[i] == RowOfUser(log, Dedup(MapKey(log, UsernameOf))[i])
  {
    var g := GroupBy(log, UsernameOf, NewUserStats, CountUser);
    var u := Dedup(MapKey(log, UsernameOf))[i];
    assert Keys(g)[i] == g[i].key == u;
    FilterKeyPresent(log, UsernameOf, u);
    var f := FilterKey(log, UsernameOf, u);
    CountUserFold(NewUserStats(f[0]), f);
    FilterKeyMembers(log, UsernameOf, u);
    assert UsernameOf(f[0]) == u;
  }

  function StatsInteractions(st: UserStats): int { st.interactions }
  function StatsWatch(st: UserStats): real { st.totalWatchTime }
  function RowInteractions(r: UserActivity): int { r.interactions }
  function RowWatch(r: UserActivity): real { r.totalWatchTime }

  /** Every event belongs to exactly one user's row: the rows' interaction
      counts add up to the length of the log, and their watch times to the
      summary's total watch time. */
  lemma UserActivityTotals(log: seq<Event>)
    ensures SumOf(UserActivityOf(log), RowInteractions) == |log|
    ensures SumReal(UserActivityOf(log), RowWatch) == Summarize(log).totalWatchTime
  {
    var accs := Accs(GroupBy(log, UsernameOf, NewUserStats, CountUser));
    SumOfMapKey(accs, ToActivity, RowInteractions, StatsInteractions);
    GroupSum(log, UsernameOf, NewUserStats, CountUser, StatsInteractions, One);
    SumOfOne(log);
    SumRealMapKey(accs, ToActivity, RowWatch, StatsWatch);
    GroupSumReal(log, UsernameOf, NewUserStats, CountUser, StatsWatch, EventWatch);
    WatchTimeOverAllEvents(log);
  }

  // ---- queries ----

  /** `getInteractionsByUser`. */
  function InteractionsByUser(slot: Option<Stored>, u: string): (r: seq<Event>)
    ensures forall i :: 0 <= i < |r| ==> r[i].username == u
  {
    FilterKeyMembers(ReadLog(slot), UsernameOf, u);
    FilterKey(ReadLog(slot), UsernameOf, u)
  }

  /** `getInteractionsByVideo`. */
  function InteractionsByVideo(slot: Option<Stored>, id: string): (r: seq<Event>)
    ensures forall i :: 0 <= i < |r| ==> r[i].videoId == id
  {
    FilterKeyMembers(ReadLog(slot), VideoIdOf, id);
    FilterKey(ReadLog(slot), VideoIdOf, id)
  }

  /** Exactly the user's events, each as often as it was logged, in log order. */
  lemma ByUserExact(slot: Option<Stored>, u: string, e: Event)
    ensures IsSubseq(InteractionsByUser(slot, u), ReadLog(slot))
    ensures multiset(InteractionsByUser(slot, u))[e] == if e.username == u then multiset(ReadLog(slot))[e] else 0
  {
    FilterKeySubseq(ReadLog(slot), UsernameOf, u);
    FilterKeyCount(ReadLog(slot), UsernameOf, u, e);
  }

  /** Exactly the video's events, each as often as it was logged, in log order. */
  lemma ByVideoExact(slot: Option<Stored>, id: string, e: Event)
    ensures IsSubseq(InteractionsByVideo(slot, id), ReadLog(slot))
    ensures multiset(InteractionsByVideo(slot, id))[e] == if e.videoId == id then multiset(ReadLog(slot))[e] else 0
  {
    FilterKeySubseq(ReadLog(slot), VideoIdOf, id);
    FilterKeyCount(ReadLog(slot), VideoIdOf, id, e);
  }
}
