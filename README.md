# wiliwili: DLNA relay, hot-history list and weekly presenter

wiliwili is a Bilibili client. This project models three of its pieces in Dafny and proves properties of them.

- **The DLNA activity (`DLNAActivity`)**, module `Dlna`. It turns the console into a DLNA media renderer.
  - When it is built, it resets the player and resolves the renderer's address and identity.
  - It configures and starts the renderer library, then subscribes two handlers.
  - It announces an initial UPnP state.
  - From then on, it relays in both directions:
    - actions from a remote control point become player commands and view updates;
    - player events become UPnP state-variable updates sent back out.
  - When it is destroyed, it unsubscribes both handlers and stops the renderer and the player view.
- **The hot-history data source (`DataSourceHotsHistoryVideoList`)**, module `HotsHistory`. It holds the video list behind a recycler grid.
  - Videos of banned uploaders are erased in place when it is built, and skipped for every page appended to it.
  - It binds each cell to a card. A `.gif` cover has every `.webp` of the thumbnail suffix replaced by `.jpg`.
- **The weekly must-watch presenter (`HomeHotsWeeklyRequest`)**, module `HotsWeekly`.
  - It fetches the list of weekly issues and caches it.
  - It automatically loads the newest issue.
  - It loads a cached issue by its position; a position past the end is ignored.
  - It produces the labels of the issue selector, headed by a refresh entry.

Two small support modules:

- `PyString`: the two pystring helpers the cover rule uses, `endswith` and `replace`.
- `Wrappers`: an `Option` type for settings that may be unset.

Collaborators are modelled as follows:

- **Player, view, renderer library and the two event buses.** Each becomes a constructor of `Dlna.Effect`. The activity appends effects to an `EffectLog` in the order it issues them.
- **Bilibili API client.** Its requests and the view callbacks become `HotsWeekly.Event` entries of the presenter's `log`. The client's success and error continuations are methods that the client calls later with the response.
- **External inputs, passed as parameters.** They are:
  - the settings;
  - the player's state (duration, progress, volume);
  - the UUID generator `genUUID`;
  - the time formatter `sec2TimeDLNA`;
  - the subscription ids;
  - the ban list (`HasBanUser`, a set of uploader ids);
  - the thumbnail suffix `ImageHelper::h_ext`.

An outbound update names its UPnP state variable by a constructor of `StateVariable` rather than by a string. Its untyped `void*` payload becomes a `Payload` that is either a string or an integer.

## Model

| member | source | states |
|---|---|---|
| Dlna.OnDlnaEvent | wiliwili/source/activity/dlna_activity.cpp:51-94 | An action yields effects exactly when its name is one of the eight handled ones. The only outbound update it yields is a TransportState, and only for Play and Pause. Every other effect is a player command or a view update, the work posted to the UI thread. |
| Dlna.ActionTable | wiliwili/source/activity/dlna_activity.cpp:52-93 | The exact ordered effects of each action: CurrentURI, CurrentURIMetaData, Stop, Play, Pause, Seek, SetVolume and Error. Any other action name yields nothing. |
| Dlna.EchoMatchesPlayerReport | wiliwili/source/activity/dlna_activity.cpp:70-105 | A remote Play is a player resume followed by exactly the update the player reports on MPV_RESUME. Pause likewise matches MPV_PAUSE. So both relay directions send the same TransportState. |
| Dlna.TruncateToInt | wiliwili/source/activity/dlna_activity.cpp:133 | The C++ `(int)` cast of the volume truncates toward zero. For x >= 0 the result n satisfies n <= x < n+1. For x < 0 it satisfies n-1 < x <= n. |
| Dlna.OnMpvEvent | wiliwili/source/activity/dlna_activity.cpp:96-140 | Every result of a player event is an outbound update. Every TransportState value sent is allowed by section 2.2.1 of the UPnP AVTransport:1 Service Template. The result is empty exactly for VIDEO_SPEED_CHANGE and for unlisted events. |
| Dlna.ReportedTransportState | wiliwili/source/activity/dlna_activity.cpp:98-118 | A batch reports a TransportState exactly when it contains a TransportState update. The reported value is that of the first such update. |
| Dlna.TransportStateTable | wiliwili/source/activity/dlna_activity.cpp:98-118 | MPV_RESUME reports PLAYING, MPV_PAUSE reports PAUSED_PLAYBACK, START_FILE reports TRANSITIONING, and END_OF_FILE and MPV_STOP report STOPPED. No other event reports a TransportState. |
| Dlna.PositionAndVolumeUpdates | wiliwili/source/activity/dlna_activity.cpp:119-136 | UPDATE_PROGRESS fires AbsoluteTimePosition and then RelativeTimePosition with the same formatted progress. UPDATE_DURATION fires only CurrentTrackDuration. A volume change fires the truncated volume. A speed change fires nothing. |
| Dlna.TransportStatesConform | wiliwili/source/activity/dlna_activity.cpp:70-118 | Whatever the activity sends, whether from an inbound echo, a player event or the initial announcement, every TransportState value is one that AVTransport:1 allows. |
| Dlna.InitialAnnouncement | wiliwili/source/activity/dlna_activity.cpp:142-160 | The initial batch consists only of outbound updates. |
| Dlna.InitialAnnouncementContents | wiliwili/source/activity/dlna_activity.cpp:143-160 | The ten updates are: TransportState STOPPED, speed "1", status "OK", the two positions and the duration "0:00:00", both counters 2147483647, the volume, and the capability list. Only the volume entry depends on the player's state. |
| Dlna.DeviceSetup | wiliwili/source/activity/dlna_activity.cpp:41-49 | The renderer is created from ip, port and uuid first and started last. Each of the seven calls in between sets one device-info entry, among them the friendly name and the application version as model number. |
| Dlna.Startup | wiliwili/source/activity/dlna_activity.cpp:23-160 | The constructor's whole effect sequence, 23 effects long. What it contains is stated by `Dlna.StartupNeverTearsDown` and its order by `Dlna.StartupOrder`. |
| Dlna.StartupNeverTearsDown | wiliwili/source/activity/dlna_activity.cpp:23-160 | Start-up never unsubscribes or stops anything. It opens with the player reset and closes with the ten-entry initial announcement, carrying the truncated volume. |
| Dlna.DlnaActivity.constructor | wiliwili/source/activity/dlna_activity.cpp:20-161 | The ip is the stored setting, else the platform address. The port is the stored setting, else 9958. The uuid is "uuid:" + genUUID(client id). Both subscription ids are kept. The log grows by exactly the start-up effects. |
| Dlna.StartupOrder | wiliwili/source/activity/dlna_activity.cpp:23-160 | Start-up begins with the player reset, then the aspect setting ("-1" when unset), then the nine device-setup effects for the configured ip, port, uuid, name and version, the first of which builds the renderer. The renderer is started before either handler is subscribed, and the initial state is announced after both subscriptions. |
| Dlna.DlnaActivity.HandleDlnaEvent | wiliwili/source/activity/dlna_activity.cpp:51-94 | Delivering a renderer action to the subscribed handler appends exactly that action's effects. |
| Dlna.DlnaActivity.HandleMpvEvent | wiliwili/source/activity/dlna_activity.cpp:96-140 | Delivering a player event to the subscribed handler appends exactly that event's updates. |
| Dlna.Teardown | wiliwili/source/activity/dlna_activity.cpp:206-211 | Tear-down is four steps. Each one either stops a service or unsubscribes a handler with the given id. |
| Dlna.DlnaActivity.Destroy | wiliwili/source/activity/dlna_activity.cpp:206-211 | Both handlers are unsubscribed with their stored ids, the player's first. Then the renderer is stopped, then the view. The activity is left unsubscribed and its other fields are unchanged. |
| Dlna.TeardownOrder | wiliwili/source/activity/dlna_activity.cpp:206-211 | Every unsubscription comes before every stop. Each of the four tear-down steps happens exactly once. |
| Dlna.BuildAndDestroy | wiliwili/source/activity/dlna_activity.cpp:20-211 | An activity built and destroyed at once still logs its full start-up, then both unsubscriptions and both stops. |
| PyString.EndsWithSplit | wiliwili/source/fragment/home_hots_history.cpp:40 | `endswith(s, suffix)` holds exactly when `s` is some prefix of itself followed by `suffix`. |
| PyString.ReplaceAllLength | wiliwili/source/fragment/home_hots_history.cpp:42 | Of `replace`, which scans left to right without overlap: a replacement no shorter than the pattern never shortens the text, one no longer never lengthens it, and empty text stays empty. |
| PyString.ReplaceAllUnchanged | wiliwili/source/fragment/home_hots_history.cpp:42 | `replace` leaves text in which the pattern does not occur unchanged. |
| PyString.ReplaceAllTrailing | wiliwili/source/fragment/home_hots_history.cpp:42 | Replacing in `x + pat` is replacing in `x` followed by the replacement, when the pattern's first character does not recur in it (as for ".webp"). |
| PyString.NoWebpAfterReplace | wiliwili/source/fragment/home_hots_history.cpp:42 | After `replace(s, ".webp", ".jpg")`, no ".webp" is left in the result. |
| HotsHistory.Unbanned | wiliwili/source/fragment/home_hots_history.cpp:20-32 | The filtered list is no longer than the input, and it contains a video exactly when the input does and its uploader is not banned. |
| HotsHistory.UnbannedIsSubsequence | wiliwili/source/fragment/home_hots_history.cpp:22-31 | Filtering keeps the relative order of the entries it keeps. |
| HotsHistory.UnbannedAppend | wiliwili/source/fragment/home_hots_history.cpp:53-61 | Filtering a concatenation is the concatenation of the filtered parts. |
| HotsHistory.UnbannedIdentity | wiliwili/source/fragment/home_hots_history.cpp:22-31 | A list is left as it is exactly when none of its entries is banned. |
| HotsHistory.UnbannedIdempotent | wiliwili/source/fragment/home_hots_history.cpp:22-31 | Filtering twice with the same ban list is filtering once. |
| HotsHistory.CoverUrl | wiliwili/source/fragment/home_hots_history.cpp:39-44 | For a picture that does not end with ".gif", the URL is `pic + h_ext`. In every case the URL starts with `pic`. For a ".gif" picture, no ".webp" is left after `pic`. A suffix without ".webp" is kept as it is. A suffix ending in ".webp" makes the URL end in ".jpg". A suffix whose only ".webp" is at its end keeps everything before it, followed by ".jpg". For any suffix whose first ".webp" starts at `k`, the URL is `pic`, then the suffix up to `k`, then ".jpg", then the rest of the suffix with every ".webp" replaced. |
| PyString.ReplaceAllFirst | wiliwili/source/fragment/home_hots_history.cpp:42 | `replace` copies the text before the first occurrence, turns that occurrence into the replacement and continues after it. |
| HotsHistory.HotsHistoryDataSource.constructor | wiliwili/source/fragment/home_hots_history.cpp:20-32 | After the in-place erase loop, `videoList` is exactly the unbanned entries of the result, in order. The loop terminates, because each step either erases an entry or advances. |
| HotsHistory.HotsHistoryDataSource.GetItemCount | wiliwili/source/fragment/home_hots_history.cpp:49 | The item count is the length of `videoList`. |
| HotsHistory.HotsHistoryDataSource.OnItemSelected | wiliwili/source/fragment/home_hots_history.cpp:51 | Selecting index i < size opens the bvid of entry i. |
| HotsHistory.HotsHistoryDataSource.CellForRow | wiliwili/source/fragment/home_hots_history.cpp:34-47 | Cell i is bound to the cover URL of entry i and to its title, uploader name, date, views, danmaku, duration and achievement. |
| HotsHistory.HotsHistoryDataSource.AppendData | wiliwili/source/fragment/home_hots_history.cpp:53-61 | The existing entries are kept, followed by exactly the unbanned entries of the batch, in order. |
| HotsHistory.HotsHistoryDataSource.ClearData | wiliwili/source/fragment/home_hots_history.cpp:63 | After clearing, the list is empty, so the item count is 0. |
| HotsWeekly.BucketLabel | wiliwili/source/presenter/home_hots_weekly.cpp:43 | An issue's label starts with its name and ends with its subject, with exactly four spaces between them. |
| HotsWeekly.HomeHotsWeeklyRequest.RequestData | wiliwili/source/presenter/home_hots_weekly.cpp:9-11 | It issues exactly the list request, as `requestHotsWeeklyList` does, and leaves the cache unchanged. |
| HotsWeekly.HomeHotsWeeklyRequest.RequestHotsWeeklyList | wiliwili/source/presenter/home_hots_weekly.cpp:13-14 | It issues one list request and leaves the cache unchanged. |
| HotsWeekly.HomeHotsWeeklyRequest.OnWeeklyListSuccess | wiliwili/source/presenter/home_hots_weekly.cpp:15-22 | The view receives the result while the old list is still cached. The cache then becomes the result. Exactly one request for the first issue's number follows if the result is non-empty, and none if it is empty. |
| HotsWeekly.HomeHotsWeeklyRequest.OnWeeklyListError | wiliwili/source/presenter/home_hots_weekly.cpp:23-24 | A failed list fetch changes neither the cache nor the log. |
| HotsWeekly.HomeHotsWeeklyRequest.RequestHotsWeeklyVideoList | wiliwili/source/presenter/home_hots_weekly.cpp:27-28 | It issues one request for the given issue number. |
| HotsWeekly.HomeHotsWeeklyRequest.OnWeeklyVideosSuccess | wiliwili/source/presenter/home_hots_weekly.cpp:29-30 | The issue's videos, label and reminder are forwarded to the view unchanged. |
| HotsWeekly.HomeHotsWeeklyRequest.OnWeeklyVideosError | wiliwili/source/presenter/home_hots_weekly.cpp:31-32 | A failed issue fetch changes neither the cache nor the log. |
| HotsWeekly.HomeHotsWeeklyRequest.RequestHotsWeeklyVideoListByIndex | wiliwili/source/presenter/home_hots_weekly.cpp:35-38 | An index past the end issues nothing. Otherwise exactly one request is issued, for the number of the cached issue at that index. The cache is never changed. |
| HotsWeekly.HomeHotsWeeklyRequest.GetWeeklyList | wiliwili/source/presenter/home_hots_weekly.cpp:40-46 | The result has one more label than the cache. Label 0 is "刷新", and label k+1 is the name and subject of cached issue k, four spaces apart. |
| HotsWeekly.LoadThenSelectFirst | wiliwili/source/presenter/home_hots_weekly.cpp:9-38 | A page load whose list fetch succeeds with a non-empty list logs, in order: the list request, the view callback, the automatic request for the newest issue, and a second request for it when position 0 is selected. |

## Left out

- **Borealis user interface.** Not modelled: `onContentAvailable` (button hiding, the address shown as online count, key and click actions, focus), `dismiss` and its dialog, and the `HomeHotsHistory` fragment (constructor, `onCreate`, `create`, `onHotsHistoryList`, `onError`). They are widget plumbing. Title, on-screen display and player commands appear only as effects.
- **Thread marshalling.** `brls::sync` and `Threading::sync` queue a closure to the UI thread, and the model appends its effects in place. For that reason the model logs a remote Play as the player resume followed by the outbound TransportState update. In the program, the update can be fired before the queued resume runs.
- **Start-up order.** The code starts the renderer (`dlna->start()`, wiliwili/source/activity/dlna_activity.cpp:49) before it subscribes either handler (:51 and :96). So an action sent between the start and the subscription reaches no handler. The model follows the code, and `Dlna.StartupOrder` states the order as the code has it.
- **Foreign libraries.** The internals of the renderer library `pdr::DLNA`, the MPV player and the HTTP client `BilibiliClient` are not modelled. Their requests are log entries and their responses are method parameters.
- **Helpers.** `sec2TimeDLNA`, `genUUID`, `HasBanUser` and the settings store are defined elsewhere and are not part of this model. They are uninterpreted parameters: function values, a ban set, and a `Settings` value whose `Option` fields hold stored settings.
- **i18n.** The i18n lookup of the two view titles is not modelled. Titles carry their i18n keys.
- **Analytics and logging.** The analytics call `GA("open_dlna")` and all log lines are not modelled.
- **SinkProtocolInfo value.** The announced capability list is an opaque string constant. Its literal text is not reproduced or parsed.
- **Log line after erase.** The log line after `erase` in the constructor (wiliwili/source/fragment/home_hots_history.cpp:27) is not modelled. It reads the owner of the element after the erased one. When the erased entry is the last one, that iterator is `end()`, so the dereference is undefined behaviour: a defect of the source.
- **Ban list timing.** The ban list is an input of each filtering call, so a change of the list between calls is the caller's choice of argument.
- **Integer widths.** `size_t` indices are `nat` and issue numbers are `int`. Neither wraps, because no arithmetic is done on them. The counter constant 2147483647 is stated as the 32-bit maximum.
- **pystring edge cases.** pystring's behaviour for an empty pattern is not modelled, because the pattern here is always ".webp". The ".gif" test is case-sensitive, as in the code.
