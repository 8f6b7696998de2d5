# A verified model of the TikTok-clone web app's core logic

This project models, in Dafny, the pure logic at the heart of a TypeScript
short-video web app:

- **The interaction log** (`services/analyticsService.ts`). This is an append-only list of
  events kept in one `localStorage` slot. `getAnalyticsSummary` folds it into:
  - counts per interaction kind;
  - the number of distinct users;
  - total and average watch time;
  - per-video statistics with a top-ten cut;
  - per-user activity rows.
- **The mock data store** (`firebase/mockDataStore.ts`). This is a list of videos with:
  - the feed-order sort and the visible-only view;
  - visibility and batch order updates;
  - add, update, and delete with renumbering.

  It also holds a list of mock interactions with two reductions:
  - per-video analytics: counts, rates, a device breakdown and the top countries;
  - reconstruction of user sessions.
- **The admin panel's list logic** (`components/AdminPanel.tsx`):
  - the drag-and-drop move and the order it saves;
  - the visibility toggle and the local delete;
  - the three summary statistics;
  - `formatDuration`.
- **The two input forms.** The display-name check of `components/SignIn.tsx`,
  and the add/edit form of `components/VideoUploadModal.tsx`: its state at
  mount and how that state lives on across openings, the file-type check,
  the ordered validation, the payload it sends and the reset that follows.

Everything is an immutable value. A mutable module-level list becomes a
`seq` passed in and returned. Whatever the code takes from the environment
becomes a parameter: generated ids, the clock, browser facts, whether a
storage write or the parent's save succeeded.

`Array.prototype.sort` is stable (section 22.1.3.27 of ECMA-262, 10th edition). The
model's sort (`StableSort.SortBy`) is an insertion sort on an integer key,
and two of its properties are proved:
- the result is ordered;
- for every key, the elements with that key appear in their original order.

A descending comparator `(a, b) => b.x - a.x` is an ascending sort on `-x`.

The model follows the code where a reading of the design could differ:
- The summary's total watch time sums the durations of events of every kind, not only views (analyticsService.ts:83-85).
  - The average divides that total by the number of views.
  - The per-video analytics of the mock store, by contrast, sum view events only (mockDataStore.ts:271-272).
- A name of exactly 50 code units is accepted, although the message says "less than 50".

Other representation choices:
- Watch durations and rates are exact `real`s, so averages are exact quotients.
- Timestamps are milliseconds as `int`.
- String lengths count UTF-16 code units, as JavaScript's `length` does.

Modules:

| module | file | models |
|---|---|---|
| `Seqs` | seqs.dfy | `Option`, first-occurrence dedup (`new Set` order), `filter`, `map`, sums, splice helpers, exact averages |
| `Grouping` | group_by.dfy | the `Map`-based group-by loop, characterised without the loop |
| `StableSort` | stable_sort.dfy | the stable sort and the facts about it |
| `JsStrings` | js_strings.dfy | `trim`, `length`, `startsWith`, `includes`, ASCII `toLowerCase`, integer `toString`, `padStart` |
| `VideoTypes` | video_types.dfy | the records of `types/video.ts` |
| `AnalyticsService` | analytics_service.dfy | `services/analyticsService.ts` |
| `MockVideos` | mock_videos.dfy | the video list of `firebase/mockDataStore.ts` |
| `MockAnalytics` | mock_analytics.dfy | the interaction list, per-video analytics and sessions of `firebase/mockDataStore.ts` |
| `AdminPanel` | admin_panel.dfy | the list logic of `components/AdminPanel.tsx` |
| `SignIn` | sign_in.dfy | `components/SignIn.tsx` |
| `UploadModal` | video_upload_modal.dfy | `components/VideoUploadModal.tsx` |

## Model

| member | source | states |
|---|---|---|
| AnalyticsService.ReadLog | webapp/src/services/analyticsService.ts:21-30 | an absent slot or text that does not parse reads as the empty log |
| AnalyticsService.Clear | webapp/src/services/analyticsService.ts:198-200 | after clearing, the log reads as empty |
| AnalyticsService.Track | webapp/src/services/analyticsService.ts:42-67 | a successful write grows the log by exactly one event, at the end, carrying the given fields; earlier events are unchanged and in order; a failed write changes nothing |
| AnalyticsService.LogKeepsEverything | webapp/src/services/analyticsService.ts:62-64 | a run of tracked events is appended in tracking order: nothing lost, reordered or duplicated |
| AnalyticsService.ClearThenTrack | webapp/src/services/analyticsService.ts:198-200 | after a clear, the log is exactly what was tracked since |
| AnalyticsService.Summarize | webapp/src/services/analyticsService.ts:83-87 | the average watch time is the exact quotient of total watch time by the number of views, and exactly 0 without views |
| AnalyticsService.KindTotals | webapp/src/services/analyticsService.ts:74-77 | each of the four totals is the number of events of that kind; the seven kinds together account for every event, so play, pause and complete events count toward none of the four |
| AnalyticsService.KindsPartition | webapp/src/services/analyticsService.ts:74-77 | the per-kind counts add up to the log length |
| AnalyticsService.DistinctUsers | webapp/src/services/analyticsService.ts:80 | `totalUsers` is the size of the set of usernames, and there is one activity row per distinct username |
| AnalyticsService.WatchTimeOverAllEvents | webapp/src/services/analyticsService.ts:83-85 | filtering out events without a duration does not change the sum: the total is the sum of durations over events of every kind |
| AnalyticsService.CountVideoFold | webapp/src/services/analyticsService.ts:99-117 | running the per-video update over a video's events adds exactly that video's number of views, likes, comments and shares |
| AnalyticsService.VideoStatsEntries | webapp/src/services/analyticsService.ts:90-117 | one record per distinct video id in first-appearance order; each record's caption comes from that video's first event, and its counts are that video's per-kind counts |
| AnalyticsService.VideoStatsTotals | webapp/src/services/analyticsService.ts:99-117 | summed over all records, views, likes, comments and shares equal the global totals |
| AnalyticsService.TopVideosOrder | webapp/src/services/analyticsService.ts:119-121 | the top list has min(10, number of videos) entries and is a prefix of a reordering of all records; views never increase along it, and records with equal views keep first-appearance order |
| AnalyticsService.CountUserFold | webapp/src/services/analyticsService.ts:132-160 | running the per-user update over a user's events adds their count, the ids of their viewed videos and their summed watch time |
| AnalyticsService.UserActivityEntries | webapp/src/services/analyticsService.ts:124-160 | one row per distinct username in first-appearance order; its session id comes from the user's first event; `videosWatched` is the number of distinct ids among the user's view events |
| AnalyticsService.UserActivityTotals | webapp/src/services/analyticsService.ts:132-160 | the rows' interaction counts add up to the log length, and their watch times add up to the total watch time |
| AnalyticsService.InteractionsByUser | webapp/src/services/analyticsService.ts:203-206 | every returned event belongs to the user |
| AnalyticsService.ByUserExact | webapp/src/services/analyticsService.ts:203-206 | the result is a subsequence of the log, and keeps each of the user's events as often as it occurs and nothing else |
| AnalyticsService.InteractionsByVideo | webapp/src/services/analyticsService.ts:209-212 | every returned event is about the video |
| AnalyticsService.ByVideoExact | webapp/src/services/analyticsService.ts:209-212 | the result is a subsequence of the log, and keeps each of the video's events as often as it occurs and nothing else |
| Grouping.GroupBy | webapp/src/services/analyticsService.ts:99-117 | the keys of the `Map` loop are the distinct keys in first-appearance order, and each record is its first element's initial record updated by every element with that key, in order |
| Grouping.GroupSum | webapp/src/services/analyticsService.ts:99-117 | a per-record measure that each update raises by a per-element weight sums, over all records, to the total weight |
| StableSort.SortBy | webapp/src/firebase/mockDataStore.ts:118 | the result is a reordering of the input, ordered by key |
| StableSort.SortByStable | webapp/src/firebase/mockDataStore.ts:118 | elements with equal keys keep their original relative order |
| StableSort.SortedPairwise | webapp/src/firebase/mockDataStore.ts:118 | in a sorted list, every earlier element's key is at most every later one's |
| StableSort.SortOfStrict | webapp/src/firebase/mockDataStore.ts:118 | sorting a permutation of a list with strictly increasing keys yields that list |
| MockVideos.GetMockVideos | webapp/src/firebase/mockDataStore.ts:117-119 | a reordering of the store, ascending by `feedOrder`, with a missing order counting as 0 |
| MockVideos.GetMockVideosStable | webapp/src/firebase/mockDataStore.ts:117-119 | videos with equal order keep their store order |
| MockVideos.GetVisibleMockVideos | webapp/src/firebase/mockDataStore.ts:124-128 | only videos not marked invisible, ascending by order |
| MockVideos.VisibleExact | webapp/src/firebase/mockDataStore.ts:124-128 | every shown video is kept as often as it is stored and every hidden one dropped; for each order key, the kept videos appear in store order |
| MockVideos.UpdateVisibility | webapp/src/firebase/mockDataStore.ts:133-137 | same length; only `isVisible` changes, and only on videos with the given id |
| MockVideos.UpdateVisibilityUnknown | webapp/src/firebase/mockDataStore.ts:133-137 | an id not in the store changes nothing |
| MockVideos.UpdateVisibilityIdempotent | webapp/src/firebase/mockDataStore.ts:133-137 | applying the same update twice equals applying it once |
| MockVideos.OrderLookup | webapp/src/firebase/mockDataStore.ts:143-146 | finds nothing exactly when no update names the id; otherwise the value of the last update naming it |
| MockVideos.BatchUpdateOrders | webapp/src/firebase/mockDataStore.ts:142-149 | same length, and only `feedOrder` can change |
| MockVideos.BatchUpdateNamed | webapp/src/firebase/mockDataStore.ts:142-149 | a video named by the updates gets the order of the last update naming it |
| MockVideos.BatchUpdateUnnamed | webapp/src/firebase/mockDataStore.ts:142-149 | a video no update names is unchanged |
| MockVideos.AddMockVideo | webapp/src/firebase/mockDataStore.ts:161-171 | the store grows by one video at the end, with the fresh id and the current time; its order is the old length, its visibility defaults to true, and the other fields come from the input |
| MockVideos.AddKeepsNumbering | webapp/src/firebase/mockDataStore.ts:161-171 | adding to a store whose orders are the positions keeps it so, and the new video sorts last |
| MockVideos.NumberedSorted | webapp/src/firebase/mockDataStore.ts:117-119 | a store whose orders are the positions is returned by the sort unchanged |
| MockVideos.FindVideo | webapp/src/firebase/mockDataStore.ts:177 | `findIndex`: the first position with the id, and nothing exactly when the id is absent |
| MockVideos.ApplyPatchLaws | webapp/src/firebase/mockDataStore.ts:180-183 | an empty patch changes nothing, and applying a patch twice equals applying it once |
| MockVideos.UpdateMockVideo | webapp/src/firebase/mockDataStore.ts:176-185 | an unknown id returns nothing and changes nothing; otherwise only the first video with the id is patched, keeping its id and creation time |
| MockVideos.Renumber | webapp/src/firebase/mockDataStore.ts:196-198 | every video's order becomes its position, and nothing else changes |
| MockVideos.RenumberNumbered | webapp/src/firebase/mockDataStore.ts:196-198 | renumbering an already numbered list changes nothing |
| MockVideos.DeleteMockVideo | webapp/src/firebase/mockDataStore.ts:190-200 | reports success exactly when the id is present; an unknown id changes nothing; otherwise only the first match is removed and the rest renumbered to 0..n-2 |
| MockVideos.DeleteKeepsOthers | webapp/src/firebase/mockDataStore.ts:190-200 | apart from their order, the remaining videos are those before the match, then those after it |
| MockAnalytics.InteractionsForVideo | webapp/src/firebase/mockDataStore.ts:240-242 | every returned interaction is about the video |
| MockAnalytics.InteractionsForVideoExact | webapp/src/firebase/mockDataStore.ts:240-242 | the result is a subsequence of the list, keeping each of the video's interactions as often as it occurs and nothing else |
| MockAnalytics.TrackMockInteraction | webapp/src/firebase/mockDataStore.ts:254-260 | the list grows by one interaction at the end, with the fresh id and time and the given fields; earlier entries are unchanged |
| MockAnalytics.TrackThenQuery | webapp/src/firebase/mockDataStore.ts:240-260 | after tracking, the video's interactions are the earlier ones plus the new one exactly when it is about that video |
| MockAnalytics.Classify | webapp/src/firebase/mockDataStore.ts:281-287 | mobile exactly when the lower-cased platform contains "ios" or "android"; tablet exactly when it contains neither but contains "ipad"; desktop otherwise |
| MockAnalytics.DevicesCount | webapp/src/firebase/mockDataStore.ts:279-289 | each counter is the number of interactions of its class, and the three add up to the number of interactions |
| MockAnalytics.CountryRow | webapp/src/firebase/mockDataStore.ts:299-305 | one row per distinct country among the interactions that name one, in first-appearance order, counting that country's interactions |
| MockAnalytics.CountryTableTotal | webapp/src/firebase/mockDataStore.ts:299-305 | the country counts add up to the number of interactions that name a country |
| MockAnalytics.TopCountriesOrder | webapp/src/firebase/mockDataStore.ts:306-308 | at most five rows, a prefix of a stable reordering of the table in which counts never increase |
| MockAnalytics.Rate | webapp/src/firebase/mockDataStore.ts:316-320 | the rate times the number of views is 100 times the count, and 0 without views |
| MockAnalytics.VideoAnalyticsBounds | webapp/src/firebase/mockDataStore.ts:265-324 | unique views are the number of distinct session ids among the video's views, and never exceed total views; without views, the average, completion and engagement are 0 |
| MockAnalytics.WatchTimeFromViews | webapp/src/firebase/mockDataStore.ts:266-272 | the watch time equals a sum over the whole log in which every event of another video or of another kind than a view counts 0 |
| MockAnalytics.VideoAnalyticsBreakdowns | webapp/src/firebase/mockDataStore.ts:279-308 | mobile + tablet + desktop equals the video's interaction count; at most five countries, with counts never increasing |
| MockAnalytics.AllMockVideoAnalytics | webapp/src/firebase/mockDataStore.ts:330-332 | one record per stored video, in store order, each equal to the single-video analytics of that video's id |
| MockAnalytics.AllAnalyticsPerVideo | webapp/src/firebase/mockDataStore.ts:330-332 | each stored video's record counts exactly the log's views of it, has no more unique viewers than views, and sums those views' durations |
| MockAnalytics.Earliest | webapp/src/firebase/mockDataStore.ts:361-363 | the smallest timestamp: at most every timestamp, and attained |
| MockAnalytics.Latest | webapp/src/firebase/mockDataStore.ts:358-360 | the largest timestamp: at least every timestamp, and attained |
| MockAnalytics.SessionFoldTimes | webapp/src/firebase/mockDataStore.ts:341-363 | folding a session's interactions gives the earliest timestamp as start and the latest as last activity |
| MockAnalytics.SessionFoldWatched | webapp/src/firebase/mockDataStore.ts:365-367 | the watched list is the distinct viewed ids in first-view order |
| MockAnalytics.SessionFoldCounts | webapp/src/firebase/mockDataStore.ts:369-373 | the session counts its interactions and sums their durations |
| MockAnalytics.SessionEntry | webapp/src/firebase/mockDataStore.ts:337-374 | one session per distinct session id; user, device and location come from its first interaction; the rest is characterised without the loop |
| MockAnalytics.SessionsWellFormed | webapp/src/firebase/mockDataStore.ts:337-376 | every reported session starts no later than its last activity; its watched list has no repeats and holds exactly the ids viewed in that session |
| MockAnalytics.ViewedInSession | webapp/src/firebase/mockDataStore.ts:365-367 | an id is among a session's viewed ids exactly when some view in that session was of it |
| MockAnalytics.UserSessionsOrder | webapp/src/firebase/mockDataStore.ts:376 | the output reorders the sessions by last activity, newest first; ties keep first-appearance order; interaction counts add up to the number of interactions |
| AdminPanel.Move | webapp/src/components/AdminPanel.tsx:85-87 | same length and the same items; the moved item lands at the destination, and removing it leaves the others in their old relative order |
| AdminPanel.MoveBack | webapp/src/components/AdminPanel.tsx:85-87 | moving back from the destination to the source undoes the move |
| AdminPanel.DragEnd | webapp/src/components/AdminPanel.tsx:82-88 | a drop without destination changes nothing; otherwise the list is the move |
| AdminPanel.OrderUpdates | webapp/src/components/AdminPanel.tsx:95-98 | each item's id paired with its position, so the orders sent are exactly 0..n-1 |
| AdminPanel.SaveOrder | webapp/src/components/AdminPanel.tsx:95-99 | saving a list that holds the store's videos up to their orders (the panel's orders go stale after the first save), with distinct ids, makes the feed show exactly that list, renumbered |
| AdminPanel.SaveKeepsAgreement | webapp/src/firebase/mockDataStore.ts:142-148 | after the batch update the store still agrees with the panel's list up to orders and still has distinct ids, so the next save is covered too |
| AdminPanel.LoadedAgrees | webapp/src/components/AdminPanel.tsx:34-39 | the list the panel loads agrees with the store up to orders |
| AdminPanel.DragThenSave | webapp/src/components/AdminPanel.tsx:82-99 | for any list the panel may hold, after a drag and the batch update `getMockVideos` returns exactly the dragged order, and list and store agree again |
| AdminPanel.ToggleVisibility | webapp/src/components/AdminPanel.tsx:70-80 | same length; nothing but `isVisible` changes; it becomes the negated shown flag on videos with the id and stays as it was on the others |
| AdminPanel.ToggleKeepsAgreement | webapp/src/components/AdminPanel.tsx:70-80 | a toggle done in the store and on the panel's list keeps them agreeing up to orders and keeps the store's ids |
| AdminPanel.ToggleMatchesStore | webapp/src/components/AdminPanel.tsx:73-75 | the local toggle is the store's visibility update with the negated flag |
| AdminPanel.ToggleTwice | webapp/src/components/AdminPanel.tsx:73-75 | toggling and toggling back restores the list |
| AdminPanel.DeleteFromList | webapp/src/components/AdminPanel.tsx:128 | no video with the id remains |
| AdminPanel.DeleteFromListExact | webapp/src/components/AdminPanel.tsx:128 | the result is a subsequence of the list that keeps every other video as often as it occurs |
| AdminPanel.Stats | webapp/src/components/AdminPanel.tsx:197-201 | all zero for an empty list; otherwise the mean engagement times the number of records is the summed engagement |
| AdminPanel.UniqueWithinTotal | webapp/src/components/AdminPanel.tsx:197-198 | when each record has no more unique views than views, neither do the totals |
| AdminPanel.Trunc | webapp/src/components/AdminPanel.tsx:183 | truncation toward zero, as JavaScript's `%` needs |
| AdminPanel.Rem60 | webapp/src/components/AdminPanel.tsx:183 | the JavaScript remainder by 60: the dividend minus it is a whole multiple of 60, and it takes the dividend's sign and is smaller than 60 in size, which fixes it uniquely |
| AdminPanel.FormatWholeSeconds | webapp/src/components/AdminPanel.tsx:181-185 | for whole seconds s, the text is s div 60, a colon, then s mod 60 padded to two digits |
| AdminPanel.FormatFractional | webapp/src/components/AdminPanel.tsx:181-185 | a non-negative fractional number of seconds, such as an average, shows as its whole seconds |
| AdminPanel.ParseFormat | webapp/src/components/AdminPanel.tsx:181-185 | reading the text back as minutes and two-digit seconds gives back s |
| SignIn.Submit | webapp/src/components/SignIn.tsx:12-34 | blank input gets the first message, too short the second, too long the third, each exactly when the earlier checks pass; success exactly when the trimmed length is 2 to 50, signing in the trimmed name |
| SignIn.AcceptsPadded | webapp/src/components/SignIn.tsx:15-32 | any whitespace around a trimmed name of 2 to 50 code units is ignored, and exactly 50 is accepted |
| SignIn.SubmitIdempotent | webapp/src/components/SignIn.tsx:15-32 | submitting the accepted name again accepts the same name |
| UploadModal.InitialForm | webapp/src/components/VideoUploadModal.tsx:14-23 | the `useState` initialisers: blank with the default avatar without a video, the video's values with one; the avatar is never empty; visible unless the video says false |
| UploadModal.Mount | webapp/src/components/AdminPanel.tsx:498-506 | the modal mounts closed, with no video, on a blank form with the default avatar |
| UploadModal.Open | webapp/src/components/AdminPanel.tsx:110-118 | adding or editing opens the modal with the new props and leaves the form as it was |
| UploadModal.Close | webapp/src/components/AdminPanel.tsx:500-503 | closing clears the edited video and keeps the form, error line included |
| UploadModal.SubmitOpen | webapp/src/components/VideoUploadModal.tsx:116-264 | an empty `required` field (the URL only while its input is rendered), a count below the inputs' `min` of 0, or a URL the browser rejects stops the submit and changes nothing; otherwise it sends what `Submit` sends for the form and the edit flag, and the modal stays open exactly when nothing was saved |
| UploadModal.SetSource | webapp/src/components/VideoUploadModal.tsx:119-134 | the toggle changes the input source and nothing else |
| UploadModal.FileModeAsksForUrl | webapp/src/components/VideoUploadModal.tsx:46-49 | in file mode an empty URL gets past the browser, so with no negative count the form reports the missing URL; with one the browser refuses the submit; nothing is sent either way |
| UploadModal.EditOpensBlank | webapp/src/components/VideoUploadModal.tsx:14-21 | as written, editing any video right after mount shows a blank form, which the browser refuses to submit in either input mode: nothing is sent and nothing changes |
| UploadModal.AddAfterEditKeepsValues | webapp/src/components/VideoUploadModal.tsx:78-89 | as written, after a saved edit the add form opens on the edited values |
| UploadModal.OpenPrefilled | webapp/src/components/VideoUploadModal.tsx:14-21 | the intended opening: blank for a new video, the video's URL and caption for an edit |
| UploadModal.FileChange | webapp/src/components/VideoUploadModal.tsx:27-41 | no file changes nothing; a non-video type sets the error and keeps the URL; a video file sets the URL and clears the error; nothing else changes |
| UploadModal.Submit | webapp/src/components/VideoUploadModal.tsx:43-96 | the three blank checks in order, each reported exactly when the earlier ones pass, and nothing sent; the payload otherwise; the modal closes exactly when the save succeeds; a failed save is reported and the form kept; a successful add resets everything but the avatar; an edit keeps the values |
| UploadModal.AddThenResubmit | webapp/src/components/VideoUploadModal.tsx:79-87 | after a successful add the caption is empty, so a second submit in either mode is refused by the browser and sends nothing |
| UploadModal.EditUnchanged | webapp/src/components/VideoUploadModal.tsx:14-21 | with the intended opening, a well-formed video saved unchanged sends back its editable fields, with visibility made explicit, whenever the browser accepts its URLs and its counts are not negative; otherwise nothing is sent |
| UploadModal.FileThenSubmit | webapp/src/components/VideoUploadModal.tsx:36-38 | a chosen video file's local URL is the URL that gets sent |
| JsStrings.Trim | webapp/src/components/SignIn.tsx:15 | `trim` leaves a string with no whitespace at either end |
| JsStrings.TrimPadded | webapp/src/components/SignIn.tsx:15 | trimming whitespace-padded trimmed text gives that text back |
| JsStrings.TrimEmpty | webapp/src/components/SignIn.tsx:17 | trimming leaves nothing exactly when the input is all whitespace |
| Seqs.Average | webapp/src/services/analyticsService.ts:86-87 | a quotient guarded against zero: times the count it gives the total, and 0 without a count |

## Findings

| source | as written | input that shows it | evidently intended | confidence | as-written member | corrected member |
|---|---|---|---|---|---|---|
| webapp/src/components/VideoUploadModal.tsx:14-21 | the form is filled from `editingVideo` only by the `useState` initialisers, which run once at mount, and the admin panel mounts the modal with `editingVideo` null and keeps it mounted (AdminPanel.tsx:498-506) | after the panel loads, click Edit on any video and press Save: the form is blank, the browser refuses to submit it because the URL and caption fields are required, and nothing is sent | opening the modal for a video shows that video's values, and saving them unchanged sends them back | high (not executed) | UploadModal.Open, UploadModal.EditOpensBlank | UploadModal.OpenPrefilled, UploadModal.EditUnchanged |

## Left out

- Storage as text: `localStorage`, `JSON.parse` and `JSON.stringify` are abstracted. The slot holds either a parsed list or unreadable text, and a failed write is a parameter.
- `exportAnalyticsData`: it builds a `Blob` and starts a download, which is browser I/O.
- The Firestore wrappers and config (`firebase/adminService.ts`, `firebase/videoService.ts`, `firebase/config.ts`) call a library that is not part of this model.
- Random generation of device info, locations and mock interactions (mockDataStore.ts:9-40, 205-235). Ids and session ids built from `Date.now()` and `Math.random()` are fresh parameters instead.
- `viewsByHour` depends on the local time zone through `getHours`.
- `resetMockVideos`, and the shallow-copy aliasing by which `deleteMockVideo` changes the objects the reset would restore: the store is modelled with value semantics.
- `getAllMockInteractions` returns a copy, which is the identity on values.
- `handleModalSubmit` (AdminPanel.tsx:137-161) is outside the modelled list logic: it calls the add and update wrappers, patches or extends the local list, and closes the modal.
- The `loading` flag of the upload form and of the sign-in form, and React's rendering and effect scheduling.
- The video player's watch timer, rendering of every component, `toFixed`, `toLocaleString` and `formatNumber`.
- MockAnalytics.Classify: `toLowerCase` is modelled on ASCII letters only. It is only used to look for "ios", "android" and "ipad", and lower-casing non-ASCII text cannot produce those ASCII words.
- JsStrings: Dafny strings are sequences of Unicode scalar values. `length` is modelled in UTF-16 code units, but lone surrogates cannot be represented.
- `NaN` and infinite numbers, and fields spread explicitly as `undefined` by `updateMockVideo`, are not modelled. Counts are integers and durations exact reals.
- AdminPanel.DragEnd: requires the source and destination indices to lie in the list, which the drag-and-drop library guarantees and the handler does not check.
- AdminPanel.SaveOrder: requires distinct ids in the store and a list that holds the store's videos up to their orders. The panel's list meets this from its load on, through saves and visibility toggles (`LoadedAgrees`, `SaveKeepsAgreement`, `ToggleKeepsAgreement`); local deletes and modal saves are not covered. Duplicate ids would let one update override another.
- AdminPanel.FormatWholeSeconds: `FormatDuration` is defined for every real, but its text is characterised for whole non-negative seconds, and through `FormatFractional` for non-negative reals; negative durations are not characterised.
- MockAnalytics.VideoAnalyticsBounds: the average watch time and the engagement rate are related to their totals through `Rate` and `Seqs.Average`, not restated per field.
- UploadModal.SubmitOpen: the browser's constraint check is modelled for the `required` fields and the `min="0"` range of the three counts; whether a non-empty `type=url` value is a valid URL, and the value sanitisation of those inputs, are the parameter `urlsValid`. `Submit`'s blank-field branches are therefore reachable only with whitespace-only input, or with an empty URL in file mode.
