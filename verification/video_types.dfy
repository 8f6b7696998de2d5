/** The records of `types/video.ts`. Dates are milliseconds since the epoch,
    JavaScript numbers that only ever hold counts are `int`s, and the watch
    durations and rates that are divided are exact `real`s. An optional field
    (`field?: T`) is an `Option`. */
module VideoTypes {
  import opened Seqs

  datatype Video = Video(
    id: string,
    url: string,
    caption: string,
    likes: int,
    comments: int,
    shares: int,
    username: string,
    userAvatar: string,
    createdAt: int,
    isVisible: Option<bool>,
    feedOrder: Option<int>)

  /** The browser facts recorded with a mock interaction. */
  datatype ClientInfo = ClientInfo(
    userAgent: string,
    platform: string,
    language: string,
    screenResolution: string,
    viewport: string)

  datatype Location = Location(country: Option<string>, city: Option<string>, timezone: string)

  datatype InteractionKind = View | Like | Share | Comment | WatchComplete

  datatype UserInteraction = UserInteraction(
    id: string,
    videoId: string,
    sessionId: string,
    userId: Option<string>,
    timestamp: int,
    kind: InteractionKind,
    watchDuration: Option<real>,
    deviceInfo: ClientInfo,
    location: Option<Location>,
    referrer: Option<string>)

  datatype DeviceBreakdown = DeviceBreakdown(mobile: nat, desktop: nat, tablet: nat)

  datatype CountryViews = CountryViews(country: string, views: nat)

  /** `VideoAnalytics` without `viewsByHour`, which depends on the local time
      zone. */
  datatype VideoAnalytics = VideoAnalytics(
    videoId: string,
    totalViews: nat,
    uniqueViews: nat,
    totalWatchTime: real,
    averageWatchTime: real,
    completionRate: real,
    likes: nat,
    shares: nat,
    comments: nat,
    engagementRate: real,
    deviceBreakdown: DeviceBreakdown,
    topCountries: seq<CountryViews>)

  datatype UserSession = UserSession(
    sessionId: string,
    userId: Option<string>,
    startTime: int,
    lastActivity: int,
    videosWatched: seq<string>,
    totalWatchTime: real,
    interactions: nat,
    deviceInfo: ClientInfo,
    location: Option<Location>)

  /** `x || 0` for an optional duration: absent counts as nothing. */
  function WatchOf(d: Option<real>): real {
    d.GetOr(0.0)
  }

  /** `if (x.watchDuration) total += x.watchDuration`: an absent or zero
      duration adds nothing, any other is added. */
  function AddWatch(total: real, d: Option<real>): (r: real)
    ensures r == total + WatchOf(d)
  {
    if d.Some? && d.value != 0.0 then total + d.value else total
  }
}
