/** The interaction half of `firebase/mockDataStore.ts`: the in-memory list of
    `UserInteraction`s, the per-video analytics computed from it, and the
    reconstruction of user sessions. As with the video list, the module-level
    variable becomes a value passed in and returned. */
module MockAnalytics {
  import opened Seqs
  import opened Grouping
  import opened StableSort
  import opened JsStrings
  import opened VideoTypes

  function VideoOf(i: UserInteraction): string { i.videoId }
  function SessionOf(i: UserInteraction): string { i.sessionId }
  function KindOf(i: UserInteraction): InteractionKind { i.kind }
  function TimeOf(i: UserInteraction): int { i.timestamp }
  function WatchOfEvent(i: UserInteraction): real { WatchOf(i.watchDuration) }

  /** `getMockInteractionsForVideo`. */
  function InteractionsForVideo(log: seq<UserInteraction>, id: string): (r: seq<UserInteraction>)
    ensures forall i :: 0 <= i < |r| ==> r[i].videoId == id
  {
    FilterKeyMembers(log, VideoOf, id);
    FilterKey(log, VideoOf, id)
  }

  /** Exactly the video's interactions, each as often as it is stored, in
      store order. */
  lemma InteractionsForVideoExact(log: seq<UserInteraction>, id: string, x: UserInteraction)
    ensures IsSubseq(InteractionsForVideo(log, id), log)
    ensures multiset(InteractionsForVideo(log, id))[x] == if x.videoId == id then multiset(log)[x] else 0
  {
    FilterKeySubseq(log, VideoOf, id);
    FilterKeyCount(log, VideoOf, id, x);
  }

  /** `Omit<UserInteraction, 'id' | 'timestamp'>`. */
  datatype InteractionInput = InteractionInput(
    videoId: string,
    sessionId: string,
    userId: Option<string>,
    kind: InteractionKind,
    watchDuration: Option<real>,
    deviceInfo: ClientInfo,
    location: Option<Location>,
    referrer: Option<string>)

  /** `trackMockInteraction`, with the generated id and the clock as
      parameters. */
  function TrackMockInteraction(log: seq<UserInteraction>, input: InteractionInput, freshId: string, now: int): (r: seq<UserInteraction>)
    ensures |r| == |log| + 1 && r[..|log|] == log
    ensures Last(r).id == freshId && Last(r).timestamp == now
    ensures Last(r).videoId == input.videoId && Last(r).sessionId == input.sessionId && Last(r).kind == input.kind
    ensures Last(r).userId == input.userId && Last(r).watchDuration == input.watchDuration
    ensures Last(r).deviceInfo == input.deviceInfo && Last(r).location == input.location && Last(r).referrer == input.referrer
  {
    var x := UserInteraction(freshId, input.videoId, input.sessionId, input.userId, now, input.kind,
                             input.watchDuration, input.deviceInfo, input.location, input.referrer);
    assert (log + [x])[..|log|] == log;
    log + [x]
  }

  /** A tracked interaction shows up at the end of its own video's list and
      in no other. */
  lemma TrackThenQuery(log: seq<UserInteraction>, input: InteractionInput, freshId: string, now: int, id: string)
    ensures var r := TrackMockInteraction(log, input, freshId, now);
      InteractionsForVideo(r, id)
        == InteractionsForVideo(log, id) + (if input.videoId == id then [Last(r)] else [])
  {
    var r := TrackMockInteraction(log, input, freshId, now);
    assert r == log + [Last(r)];
    FilterKeySnoc(log, Last(r), VideoOf, id);
  }

  // ---- device breakdown ----

  datatype DeviceClass = Mobile | Tablet | Desktop

  /** The platform test: a lower-cased platform mentioning iOS or Android is
      mobile, otherwise one mentioning iPad is a tablet, anything else a
      desktop. */
  function Classify(platform: string): (c: DeviceClass)
    ensures c == Mobile <==> Occurs(ToLowerAscii(platform), "ios") || Occurs(ToLowerAscii(platform), "android")
    ensures c == Tablet <==> !Occurs(ToLowerAscii(platform), "ios") && !Occurs(ToLowerAscii(platform), "android")
                              && Occurs(ToLowerAscii(platform), "ipad")
  {
    var p := ToLowerAscii(platform);
    if Contains(p, "ios") || Contains(p, "android") then Mobile
    else if Contains(p, "ipad") then Tablet
    else Desktop
  }

  function ClassOf(i: UserInteraction): DeviceClass { Classify(i.deviceInfo.platform) }

  function CountDevice(b: DeviceBreakdown, i: UserInteraction): DeviceBreakdown {
    match ClassOf(i)
    case Mobile => b.(mobile := b.mobile + 1)
    case Tablet => b.(tablet := b.tablet + 1)
    case Desktop => b.(desktop := b.desktop + 1)
  }

  /** The `deviceBreakdown` loop. */
  function Devices(f: seq<UserInteraction>): DeviceBreakdown {
    FoldL(CountDevice, DeviceBreakdown(0, 0, 0), f)
  }

  /** Each counter is the number of interactions of its class, so the three
      together count every interaction once. */
  lemma {:induction false} DevicesCount(f: seq<UserInteraction>)
    ensures Devices(f).mobile == |FilterKey(f, ClassOf, Mobile)|
    ensures Devices(f).tablet == |FilterKey(f, ClassOf, Tablet)|
    ensures Devices(f).desktop == |FilterKey(f, ClassOf, Desktop)|
    ensures Devices(f).mobile + Devices(f).tablet + Devices(f).desktop == |f|
  {
    if f != [] {
      DevicesCount(Init(f));
    }
  }

  // ---- countries ----

  /** `i.location?.country` is truthy: present and not empty. */
  predicate HasCountry(i: UserInteraction) {
    i.location.Some? && i.location.value.country.Some? && i.location.value.country.value != ""
  }

  function CountryName(i: UserInteraction): string {
    if HasCountry(i) then i.location.value.country.value else ""
  }

  function NewCountry(i: UserInteraction): CountryViews { CountryViews(CountryName(i), 0) }

  function CountCountry(c: CountryViews, i: UserInteraction): CountryViews { c.(views := c.views + 1) }

  /** `Array.from(countryMap.entries())`: one row per country, in
      first-appearance order. */
  function CountryTable(f: seq<UserInteraction>): seq<CountryViews> {
    Accs(GroupBy(FilterKey(f, HasCountry, true), CountryName, NewCountry, CountCountry))
  }

  function ByViewsDesc(c: CountryViews): int { -(c.views as int) }

  /** The five most-viewed countries: a stable sort by descending count, cut
      to its first five. */
  function TopCountries(f: seq<UserInteraction>): seq<CountryViews> {
    var sorted := SortBy(CountryTable(f), ByViewsDesc);
    sorted[..Min(5, |sorted|)]
  }

  lemma {:induction false} CountCountryFold(a: CountryViews, g: seq<UserInteraction>)
    ensures FoldL(CountCountry, a, g) == a.(views := a.views + |g|)
  {
    if g != [] {
      CountCountryFold(a, Init(g));
    }
  }

  /** One row per distinct non-empty country name, holding that name and the
      number of interactions from it. */
  lemma CountryRow(f: seq<UserInteraction>, j: nat)
    requires j < |CountryTable(f)|
    ensures var c := FilterKey(f, HasCountry, true);
      && |CountryTable(f)| == |Dedup(MapKey(c, CountryName))|
      && CountryTable(f)[j].country == Dedup(MapKey(c, CountryName))[j]
      && CountryTable(f)[j].views == |FilterKey(c, CountryName, CountryTable(f)[j].country)|
  {
    var c := FilterKey(f, HasCountry, true);
    var g := GroupBy(c, CountryName, NewCountry, CountCountry);
    var k := g[j].key;
    assert Keys(g)[j] == k;
    FilterKeyPresent(c, CountryName, k);
    var h := FilterKey(c, CountryName, k);
    CountCountryFold(NewCountry(h[0]), h);
    FilterKeyMembers(c, CountryName, k);
    assert CountryName(h[0]) == k;
  }

  function CountryViewsOf(c: CountryViews): int { c.views }

  /** Every interaction with a country is counted in exactly one row. */
  lemma CountryTableTotal(f: seq<UserInteraction>)
    ensures SumOf(CountryTable(f), CountryViewsOf) == |FilterKey(f, HasCountry, true)|
  {
    var c := FilterKey(f, HasCountry, true);
    GroupSum(c, CountryName, NewCountry, CountCountry, CountryViewsOf, One);
    SumOfOne(c);
  }

  /** At most five rows, the first ones of the stable descending sort of the
      table: counts never increase, and rows with equal counts keep their
      first-appearance order. */
  lemma TopCountriesOrder(f: seq<UserInteraction>)
    ensures var sorted := SortBy(CountryTable(f), ByViewsDesc);
      && |TopCountries(f)| == Min(5, |CountryTable(f)|)
      && TopCountries(f) == sorted[..|TopCountries(f)|]
      && multiset(sorted) == multiset(CountryTable(f))
      && (forall i, j :: 0 <= i < j < |sorted| ==> sorted[i].views >= sorted[j].views)
      && (forall n :: FilterKey(sorted, ByViewsDesc, n) == FilterKey(CountryTable(f), ByViewsDesc, n))
  {
    var sorted := SortBy(CountryTable(f), ByViewsDesc);
    SortedPairwise(sorted, ByViewsDesc);
    forall n
      ensures FilterKey(sorted, ByViewsDesc, n) == FilterKey(CountryTable(f), ByViewsDesc, n)
    {
      SortByStable(CountryTable(f), ByViewsDesc, n);
    }
  }

  // ---- per-video analytics ----

  /** `n` as a percentage of the views, or 0 without views. */
  function Rate(n: nat, views: nat): (r: real)
    ensures views == 0 ==> r == 0.0
    ensures views > 0 ==> r * views as real == 100.0 * n as real
  {
    Average(n as real, views) * 100.0
  }

  /** `getMockVideoAnalytics` without `viewsByHour`. */
  function VideoAnalyticsOf(log: seq<UserInteraction>, id: string): (a: VideoAnalytics)
    ensures a.videoId == id
  {
    var f := InteractionsForVideo(log, id);
    var views := FilterKey(f, KindOf, View);
    var total := SumReal(views, WatchOfEvent);
    var likes := |FilterKey(f, KindOf, Like)|;
    var shares := |FilterKey(f, KindOf, Share)|;
    var comments := |FilterKey(f, KindOf, Comment)|;
    VideoAnalytics(
      id,
      |views|,
      |Dedup(MapKey(views, SessionOf))|,
      total,
      Average(total, |views|),
      Rate(|FilterKey(f, KindOf, WatchComplete)|, |views|),
      likes,
      shares,
      comments,
      Rate(likes + shares + comments, |views|),
      Devices(f),
      TopCountries(f))
  }

  /** Unique viewers are distinct session ids among the views, so there are
      never more of them than views; without views every quotient is 0. */
  lemma VideoAnalyticsBounds(log: seq<UserInteraction>, id: string)
    ensures var a := VideoAnalyticsOf(log, id);
      && a.totalViews == |FilterKey(InteractionsForVideo(log, id), KindOf, View)|
      && a.uniqueViews == |set s | s in MapKey(FilterKey(InteractionsForVideo(log, id), KindOf, View), SessionOf)|
      && a.uniqueViews <= a.totalViews
      && (a.totalViews == 0 ==> a.averageWatchTime == 0.0 && a.completionRate == 0.0 && a.engagementRate == 0.0)
  {
    DedupCard(MapKey(FilterKey(InteractionsForVideo(log, id), KindOf, View), SessionOf));
  }

  /** A view's duration; any other kind of event weighs nothing. */
  function ViewWatch(x: UserInteraction): real {
    if x.kind == View then WatchOfEvent(x) else 0.0
  }

  /** A view's duration if it is of video `id`, otherwise nothing. */
  function ViewWatchFor(id: string): UserInteraction -> real {
    (x: UserInteraction) => if x.videoId == id then ViewWatch(x) else 0.0
  }

  /** The watch time counts view events only, summed over the whole log with
      every event of another video or another kind weighing nothing:
      durations on completions or other kinds are ignored. */
  lemma WatchTimeFromViews(log: seq<UserInteraction>, id: string)
    ensures VideoAnalyticsOf(log, id).totalWatchTime == SumReal(log, ViewWatchFor(id))
  {
    var f := InteractionsForVideo(log, id);
    SumRealRestrict(f, KindOf, View, WatchOfEvent, ViewWatch);
    SumRealRestrict(log, VideoOf, id, ViewWatch, ViewWatchFor(id));
  }

  /** The device breakdown counts each of the video's interactions once, and
      at most five countries are reported, most-viewed first. */
  lemma VideoAnalyticsBreakdowns(log: seq<UserInteraction>, id: string)
    ensures var a := VideoAnalyticsOf(log, id);
      && a.deviceBreakdown.mobile + a.deviceBreakdown.tablet + a.deviceBreakdown.desktop
         == |InteractionsForVideo(log, id)|
      && |a.topCountries| <= 5
      && (forall i, j :: 0 <= i < j < |a.topCountries| ==> a.topCountries[i].views >= a.topCountries[j].views)
  {
    var f := InteractionsForVideo(log, id);
    AnalyticsParts(log, id);
    DevicesCount(f);
    var d := Devices(f);
    assert d.mobile + d.tablet + d.desktop == |f|;
    TopCountriesOrder(f);
    var t := TopCountries(f);
    assert |t| <= 5;
    assert forall i, j :: 0 <= i < j < |t| ==> t[i].views >= t[j].views;
  }

  lemma AnalyticsParts(log: seq<UserInteraction>, id: string)
    ensures VideoAnalyticsOf(log, id).deviceBreakdown == Devices(InteractionsForVideo(log, id))
    ensures VideoAnalyticsOf(log, id).topCountries == TopCountries(InteractionsForVideo(log, id))
  {
  }

  /** `getAllMockVideoAnalytics`: one record per stored video, in store
      order, each the analytics of that video's id. */
  function AllMockVideoAnalytics(store: seq<Video>, log: seq<UserInteraction>): (r: seq<VideoAnalytics>)
    ensures |r| == |store|
    ensures forall i :: 0 <= i < |r| ==> r[i].videoId == store[i].id
    ensures forall i :: 0 <= i < |r| ==> r[i] == VideoAnalyticsOf(log, store[i].id)
  {
    seq(|store|, i requires 0 <= i < |store| => VideoAnalyticsOf(log, store[i].id))
  }

  /** Every stored video's record counts exactly the log's views of that
      video, never has more unique viewers than views, and its watch time
      is the sum of those views' durations. */
  lemma AllAnalyticsPerVideo(store: seq<Video>, log: seq<UserInteraction>, i: nat)
    requires i < |store|
    ensures var a := AllMockVideoAnalytics(store, log)[i];
      && a.videoId == store[i].id
      && a.totalViews == |FilterKey(InteractionsForVideo(log, store[i].id), KindOf, View)|
      && a.uniqueViews <= a.totalViews
      && a.totalWatchTime == SumReal(log, ViewWatchFor(store[i].id))
  {
    VideoAnalyticsBounds(log, store[i].id);
    WatchTimeFromViews(log, store[i].id);
  }

  // ---- user sessions ----

  /** The session record created at a session's first interaction. */
  function NewSession(i: UserInteraction): UserSession {
    UserSession(i.sessionId, i.userId, i.timestamp, i.timestamp, [], 0.0, 0, i.deviceInfo, i.location)
  }

  /** The update every interaction applies to its session. */
  function StepSession(s: UserSession, i: UserInteraction): UserSession {
    s.(lastActivity := if i.timestamp > s.lastActivity then i.timestamp else s.lastActivity,
       startTime := if i.timestamp < s.startTime then i.timestamp else s.startTime,
       videosWatched := if i.kind == View && i.videoId !in s.videosWatched then s.videosWatched + [i.videoId]
                        else s.videosWatched,
       totalWatchTime := AddWatch(s.totalWatchTime, i.watchDuration),
       interactions := s.interactions + 1)
  }

  function ByLastActivityDesc(s: UserSession): int { -s.lastActivity }

  function SessionTable(log: seq<UserInteraction>): seq<UserSession> {
    Accs(GroupBy(log, SessionOf, NewSession, StepSession))
  }

  /** `getMockUserSessions`: the sessions, most recently active first. */
  function UserSessions(log: seq<UserInteraction>): seq<UserSession> {
    SortBy(SessionTable(log), ByLastActivityDesc)
  }

  /** The earliest timestamp in `f`. */
  function Earliest(f: seq<UserInteraction>): (t: int)
    requires f != []
    ensures forall i :: 0 <= i < |f| ==> t <= f[i].timestamp
    ensures exists i :: 0 <= i < |f| && t == f[i].timestamp
  {
    if |f| == 1 then f[0].timestamp
    else
      var t := Earliest(Init(f));
      if Last(f).timestamp < t then Last(f).timestamp else t
  }

  /** The latest timestamp in `f`. */
  function Latest(f: seq<UserInteraction>): (t: int)
    requires f != []
    ensures forall i :: 0 <= i < |f| ==> f[i].timestamp <= t
    ensures exists i :: 0 <= i < |f| && t == f[i].timestamp
  {
    if |f| == 1 then f[0].timestamp
    else
      var t := Latest(Init(f));
      if Last(f).timestamp > t then Last(f).timestamp else t
  }

  /** The ids of the videos viewed in `f`, in order, with repeats. */
  function ViewIds(f: seq<UserInteraction>): seq<string> {
    MapKey(FilterKey(f, KindOf, View), VideoOf)
  }

  /** The session loop over one session's interactions `f`, started from the
      record built from `f[0]`: the earliest and latest timestamps, the
      distinct viewed ids in first-view order, the summed watch time and the
      number of interactions. */
  lemma SessionFold(x: UserInteraction, f: seq<UserInteraction>)
    requires f != [] && f[0].timestamp == x.timestamp
    ensures var s := FoldL(StepSession, NewSession(x), f);
      && s.startTime == Earliest(f) && s.lastActivity == Latest(f)
      && s.videosWatched == Dedup(ViewIds(f))
      && s.totalWatchTime == SumReal(f, WatchOfEvent)
      && s.interactions == |f|
      && s.sessionId == x.sessionId && s.userId == x.userId
      && s.deviceInfo == x.deviceInfo && s.location == x.location
  {
    SessionFoldTimes(x, f);
    SessionFoldWatched(x, f);
    SessionFoldCounts(x, f);
  }

  lemma {:induction false} SessionFoldTimes(x: UserInteraction, f: seq<UserInteraction>)
    requires f != [] && f[0].timestamp == x.timestamp
    ensures FoldL(StepSession, NewSession(x), f).startTime == Earliest(f)
    ensures FoldL(StepSession, NewSession(x), f).lastActivity == Latest(f)
  {
    if |f| > 1 {
      var p := Init(f);
      assert p[0] == f[0];
      SessionFoldTimes(x, p);
    } else {
      assert Init(f) == [];
    }
  }

  lemma {:induction false} SessionFoldWatched(x: UserInteraction, f: seq<UserInteraction>)
    ensures FoldL(StepSession, NewSession(x), f).videosWatched == Dedup(ViewIds(f))
  {
    if f != [] {
      var prev := FoldL(StepSession, NewSession(x), Init(f));
      SessionFoldWatched(x, Init(f));
      ViewIdsSnoc(f);
      var y := Last(f);
      assert FoldL(StepSession, NewSession(x), f) == StepSession(prev, y);
      if y.kind == View {
        DedupSnoc(ViewIds(Init(f)), y.videoId);
      } else {
        assert ViewIds(f) == ViewIds(Init(f));
      }
    }
  }

  lemma {:induction false} SessionFoldCounts(x: UserInteraction, f: seq<UserInteraction>)
    ensures var s := FoldL(StepSession, NewSession(x), f);
      && s.totalWatchTime == SumReal(f, WatchOfEvent)
      && s.interactions == |f|
      && s.sessionId == x.sessionId && s.userId == x.userId
      && s.deviceInfo == x.deviceInfo && s.location == x.location
  {
    if f != [] {
      SessionFoldCounts(x, Init(f));
    }
  }

  lemma ViewIdsSnoc(f: seq<UserInteraction>)
    requires f != []
    ensures ViewIds(f) == ViewIds(Init(f)) + (if Last(f).kind == View then [Last(f).videoId] else [])
  {
    assert f == Init(f) + [Last(f)];
    FilterKeySnoc(Init(f), Last(f), KindOf, View);
    var v := FilterKey(Init(f), KindOf, View);
    if Last(f).kind == View {
      MapKeyInit(v + [Last(f)], VideoOf);
      assert Init(v + [Last(f)]) == v;
    }
  }

  /** One session per distinct session id, in first-appearance order, equal
      to the loop-free description: its first interaction's user, device and
      location, its earliest and latest timestamps, its distinct viewed
      videos, its watch time and its number of interactions. */
  lemma SessionEntry(log: seq<UserInteraction>, j: nat)
    requires j < |SessionTable(log)|
    ensures |SessionTable(log)| == |Dedup(MapKey(log, SessionOf))|
    ensures var sid := Dedup(MapKey(log, SessionOf))[j];
      var f := FilterKey(log, SessionOf, sid);
      var s := SessionTable(log)[j];
      && f != []
      && s.sessionId == sid
      && s.userId == f[0].userId && s.deviceInfo == f[0].deviceInfo && s.location == f[0].location
      && s.startTime == Earliest(f) && s.lastActivity == Latest(f)
      && s.videosWatched == Dedup(ViewIds(f))
      && s.totalWatchTime == SumReal(f, WatchOfEvent)
      && s.interactions == |f|
  {
    var g := GroupBy(log, SessionOf, NewSession, StepSession);
    var sid := g[j].key;
    assert Keys(g)[j] == sid;
    FilterKeyPresent(log, SessionOf, sid);
    var f := FilterKey(log, SessionOf, sid);
    FilterKeyMembers(log, SessionOf, sid);
    assert SessionOf(f[0]) == sid;
    SessionFold(f[0], f);
  }

  /** What holds of every reported session: it starts no later than it was
      last active, and its watched list has no repeats and only ids of videos
      viewed in that session. */
  lemma SessionsWellFormed(log: seq<UserInteraction>, s: UserSession)
    requires s in UserSessions(log)
    ensures s.startTime <= s.lastActivity
    ensures NoDup(s.videosWatched)
    ensures forall v :: v in s.videosWatched <==>
      exists i :: 0 <= i < |log| && log[i].sessionId == s.sessionId && log[i].kind == View && log[i].videoId == v
  {
    var t := SessionTable(log);
    assert s in multiset(UserSessions(log));
    var j :| 0 <= j < |t| && t[j] == s;
    SessionRowWellFormed(log, j);
  }

  lemma SessionRowWellFormed(log: seq<UserInteraction>, j: nat)
    requires j < |SessionTable(log)|
    ensures var s := SessionTable(log)[j];
      && s.startTime <= s.lastActivity
      && NoDup(s.videosWatched)
      && forall v :: v in s.videosWatched <==>
        exists i :: 0 <= i < |log| && log[i].sessionId == s.sessionId && log[i].kind == View && log[i].videoId == v
  {
    var s := SessionTable(log)[j];
    SessionEntry(log, j);
    forall v
      ensures v in s.videosWatched <==>
        exists i :: 0 <= i < |log| && log[i].sessionId == s.sessionId && log[i].kind == View && log[i].videoId == v
    {
      ViewedInSession(log, s.sessionId, v);
    }
  }

  /** An id is among a session's viewed ids exactly when some view in that
      session was of it. */
  lemma ViewedInSession(log: seq<UserInteraction>, sid: string, v: string)
    ensures v in ViewIds(FilterKey(log, SessionOf, sid)) <==>
      exists i :: 0 <= i < |log| && log[i].sessionId == sid && log[i].kind == View && log[i].videoId == v
  {
    if v in ViewIds(FilterKey(log, SessionOf, sid)) {
      ViewedFromLog(log, sid, v);
    }
    if exists i :: 0 <= i < |log| && log[i].sessionId == sid && log[i].kind == View && log[i].videoId == v {
      var i :| 0 <= i < |log| && log[i].sessionId == sid && log[i].kind == View && log[i].videoId == v;
      ViewedToIds(log, sid, i);
    }
  }

  lemma ViewedFromLog(log: seq<UserInteraction>, sid: string, v: string)
    requires v in ViewIds(FilterKey(log, SessionOf, sid))
    ensures exists i :: 0 <= i < |log| && log[i].sessionId == sid && log[i].kind == View && log[i].videoId == v
  {
    var f := FilterKey(log, SessionOf, sid);
    var w := FilterKey(f, KindOf, View);
    var k :| 0 <= k < |w| && VideoOf(w[k]) == v;
    var x := w[k];
    FilterKeyElem(f, KindOf, View, k);
    var m :| 0 <= m < |f| && f[m] == x;
    FilterKeyElem(log, SessionOf, sid, m);
    var i :| 0 <= i < |log| && log[i] == x;
  }

  lemma ViewedToIds(log: seq<UserInteraction>, sid: string, i: nat)
    requires i < |log| && log[i].sessionId == sid && log[i].kind == View
    ensures log[i].videoId in ViewIds(FilterKey(log, SessionOf, sid))
  {
    var f := FilterKey(log, SessionOf, sid);
    var w := FilterKey(f, KindOf, View);
    FilterKeyCount(log, SessionOf, sid, log[i]);
    assert log[i] in multiset(log);
    FilterKeyCount(f, KindOf, View, log[i]);
    assert log[i] in w;
    var k :| 0 <= k < |w| && w[k] == log[i];
    assert ViewIds(f)[k] == log[i].videoId;
  }

  /** The output is ordered by last activity, newest first, sessions with
      equal last activity keep first-appearance order, and the interaction
      counts of all sessions add up to the number of interactions. */
  lemma UserSessionsOrder(log: seq<UserInteraction>, n: int)
    ensures var r := UserSessions(log);
      && multiset(r) == multiset(SessionTable(log))
      && (forall i, j :: 0 <= i < j < |r| ==> r[i].lastActivity >= r[j].lastActivity)
      && FilterKey(r, ByLastActivityDesc, n) == FilterKey(SessionTable(log), ByLastActivityDesc, n)
      && SumOf(r, SessionInteractions) == |log|
  {
    var r := UserSessions(log);
    SortedPairwise(r, ByLastActivityDesc);
    SortByStable(SessionTable(log), ByLastActivityDesc, n);
    SortKeepsSum(SessionTable(log), ByLastActivityDesc, SessionInteractions);
    GroupSum(log, SessionOf, NewSession, StepSession, SessionInteractions, One);
    SumOfOne(log);
  }

  function SessionInteractions(s: UserSession): int { s.interactions }
}
