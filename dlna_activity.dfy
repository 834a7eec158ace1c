/**
 * The DLNA renderer activity (DLNAActivity). It bridges two event buses:
 *   - inbound, the actions a remote control point sends to the DLNA renderer library
 *     (pdr::DLNA), which become player commands and view updates;
 *   - outbound, the playback events of the player (MPVCore), which become UPnP
 *     state-variable updates fired back into the renderer library.
 * It also configures and starts the renderer when built, announces an initial state, and
 * tears both subscriptions and both services down when destroyed.
 *
 * Every collaborator is replaced by the effects it receives: a player command, a view
 * update, a renderer call, an outbound update or a bus (un)subscription, in the order the
 * activity issues them. Settings, the player's state, the UUID generator, the time
 * formatter and the subscription ids are inputs.
 */
module Dlna {
  import opened Wrappers

  /** The value of an outbound update (the untyped `void*` of PLAYER_EVENT.fire). */
  datatype Payload = Str(s: string) | Int(n: int)

  /** A view title: an i18n key the UI translates, or literal text. */
  datatype Title = Localized(key: string) | Literal(text: string)

  datatype Effect =
    // commands to the player (MPVCore)
    | PlayerReset
    | PlayerSetAspect(aspect: string)
    | PlayerSetUrl(url: string)
    | PlayerPause
    | PlayerResume
    | PlayerSeek(position: string)
    | PlayerSetVolume(volume: string)
    | PlayerShowOsdText(text: string)
    // updates of the video view
    | ViewSetTitle(title: Title)
    | ViewShowOsd(visible: bool)
    | ViewStop
    // calls into the renderer library (pdr::DLNA)
    | DlnaCreate(ip: string, port: int, uuid: string)
    | DlnaSetDeviceInfo(key: string, info: string)
    | DlnaStart
    | DlnaStop
    // an outbound UPnP state-variable update (PLAYER_EVENT.fire)
    | Fire(variable: StateVariable, value: Payload)
    // the two event buses
    | SubscribeDlnaEvents
    | SubscribeMpvEvents
    | UnsubscribeMpvEvents(id: int)
    | UnsubscribeDlnaEvents(id: int)

  /** The effects the inbound handler posts to the UI thread: player commands and view updates. */
  predicate IsUiEffect(e: Effect) {
    e.PlayerReset? || e.PlayerSetUrl? || e.PlayerPause? || e.PlayerResume? || e.PlayerSeek?
    || e.PlayerSetVolume? || e.PlayerShowOsdText? || e.ViewSetTitle? || e.ViewShowOsd?
  }

  /**
   * The outbound state variables of the AVTransport, RenderingControl and ConnectionManager
   * services that the activity fires, each named as its UPnP state variable.
   */
  datatype StateVariable =
    | TransportState
    | TransportPlaySpeed
    | TransportStatus
    | AbsoluteTimePosition
    | RelativeTimePosition
    | CurrentTrackDuration
    | AbsoluteCounterPosition
    | RelativeCounterPosition
    | Volume
    | SinkProtocolInfoVariable

  /**
   * The allowed values of TransportState, section 2.2.1 of the UPnP AVTransport:1 Service
   * Template.
   */
  predicate IsTransportStateValue(s: string) {
    s in {"STOPPED", "PLAYING", "TRANSITIONING", "PAUSED_PLAYBACK", "PAUSED_RECORDING",
          "RECORDING", "NO_MEDIA_PRESENT"}
  }

  /** The largest 32-bit signed integer, announced for both counter positions. */
  const CounterPositionUnknown := 0x7FFF_FFFF

  /**
   * The renderer's capability list: a fixed comma-separated list of
   * `http-get:*:<mime type>:<DLNA profile>` entries. It is an opaque constant here.
   */
  const SinkProtocolInfo: string

  // i18n keys of the view titles
  const DlnaTitleKey := "wiliwili/setting/tools/others/dlna"
  const WaitingTitleKey := "wiliwili/setting/tools/others/dlna_waiting"

  /** The action names the inbound handler acts on. */
  const KnownActions: set<string> :=
    {"CurrentURI", "CurrentURIMetaData", "Stop", "Play", "Pause", "Seek", "SetVolume", "Error"}

  /**
   * The inbound handler: what an action of the renderer library, with its string payload,
   * makes the activity do. Player and view effects are those of the closure posted to the
   * UI thread; Play and Pause also echo the new TransportState.
   */
  function OnDlnaEvent(event: string, data: string): (effects: seq<Effect>)
    ensures effects == [] <==> event !in KnownActions
    ensures forall e | e in effects && e.Fire? ::
              e.variable == TransportState && (event == "Play" || event == "Pause")
    ensures forall e | e in effects && !e.Fire? :: IsUiEffect(e)
  {
    if event == "CurrentURI" then
      [PlayerReset, ViewSetTitle(Localized(DlnaTitleKey)), ViewShowOsd(true), PlayerSetUrl(data)]
    else if event == "CurrentURIMetaData" then
      [ViewSetTitle(Literal(data))]
    else if event == "Stop" then
      [PlayerPause, ViewShowOsd(false), ViewSetTitle(Localized(WaitingTitleKey))]
    else if event == "Play" then
      [PlayerResume, Fire(TransportState, Str("PLAYING"))]
    else if event == "Pause" then
      [PlayerPause, Fire(TransportState, Str("PAUSED_PLAYBACK"))]
    else if event == "Seek" then
      [PlayerSeek(data)]
    else if event == "SetVolume" then
      [PlayerSetVolume(data), PlayerShowOsdText("Volume: " + data)]
    else if event == "Error" then
      [ViewShowOsd(false), ViewSetTitle(Literal("[Error] " + data))]
    else
      []
  }

  /** The player events (MpvEventEnum) the outbound handler distinguishes. */
  datatype MpvEvent =
    | MpvResume
    | MpvPause
    | StartFile
    | EndOfFile
    | MpvStop
    | UpdateDuration
    | UpdateProgress
    | VideoSpeedChange
    | VideoVolumeChange
    /** Any member of MpvEventEnum not listed above. */
    | OtherMpvEvent

  /** The player state the outbound handler reads: duration and progress in seconds, volume. */
  datatype PlayerStatus = PlayerStatus(duration: int, progress: int, volume: real)

  /** The C++ conversion `(int)x`: truncation toward zero. */
  function TruncateToInt(x: real): (n: int)
    ensures x >= 0.0 ==> n as real <= x < n as real + 1.0
    ensures x < 0.0 ==> n as real - 1.0 < x <= n as real
  {
    if x >= 0.0 then x.Floor else -((-x).Floor)
  }

  /**
   * The outbound handler: the state-variable updates a player event is reported as.
   * `sec2Time` formats seconds as a UPnP time (wiliwili::sec2TimeDLNA).
   */
  function OnMpvEvent(event: MpvEvent, player: PlayerStatus, sec2Time: int -> string): (updates: seq<Effect>)
    ensures forall u | u in updates :: u.Fire?
    ensures forall u | u in updates && u.variable == TransportState ::
              u.value.Str? && IsTransportStateValue(u.value.s)
    ensures updates == [] <==> event == VideoSpeedChange || event.OtherMpvEvent?
  {
    match event
    case MpvResume => [Fire(TransportState, Str("PLAYING"))]
    case MpvPause => [Fire(TransportState, Str("PAUSED_PLAYBACK"))]
    case StartFile => [Fire(TransportState, Str("TRANSITIONING"))]
    case EndOfFile => [Fire(TransportState, Str("STOPPED"))]
    case MpvStop => [Fire(TransportState, Str("STOPPED"))]
    case UpdateDuration => [Fire(CurrentTrackDuration, Str(sec2Time(player.duration)))]
    case UpdateProgress =>
      var value := sec2Time(player.progress);
      [Fire(AbsoluteTimePosition, Str(value)), Fire(RelativeTimePosition, Str(value))]
    case VideoSpeedChange => []
    case VideoVolumeChange => [Fire(Volume, Int(TruncateToInt(player.volume)))]
    case OtherMpvEvent => []
  }

  predicate IsTransportStateUpdate(e: Effect) {
    e.Fire? && e.variable == TransportState
  }

  /** The TransportState reported by the first TransportState update of `updates`, if any. */
  function ReportedTransportState(updates: seq<Effect>): (r: Option<Payload>)
    ensures r.Some? <==> exists i | 0 <= i < |updates| :: IsTransportStateUpdate(updates[i])
    ensures r.Some? ==> Fire(TransportState, r.value) in updates
    ensures r.Some? ==> exists i | 0 <= i < |updates| ::
              updates[i] == Fire(TransportState, r.value)
              && forall j | 0 <= j < i :: !IsTransportStateUpdate(updates[j])
  {
    if updates == [] then None
    else if IsTransportStateUpdate(updates[0]) then Some(updates[0].value)
    else
      var rest := ReportedTransportState(updates[1..]);
      if rest.Some? then
        var i :| 0 <= i < |updates[1..]| && updates[1..][i] == Fire(TransportState, rest.value)
                 && forall j | 0 <= j < i :: !IsTransportStateUpdate(updates[1..][j]);
        assert updates[i + 1] == Fire(TransportState, rest.value)
               && forall j | 0 <= j < i + 1 :: !IsTransportStateUpdate(updates[j]);
        rest
      else rest
  }

  /** The state a freshly connecting control point sees, announced once at start-up. */
  function InitialAnnouncement(volume: int): (updates: seq<Effect>)
    ensures forall u | u in updates :: u.Fire?
  {
    [ Fire(TransportState, Str("STOPPED")),
      Fire(TransportPlaySpeed, Str("1")),
      Fire(TransportStatus, Str("OK")),
      Fire(AbsoluteTimePosition, Str("0:00:00")),
      Fire(RelativeTimePosition, Str("0:00:00")),
      Fire(CurrentTrackDuration, Str("0:00:00")),
      Fire(AbsoluteCounterPosition, Int(CounterPositionUnknown)),
      Fire(RelativeCounterPosition, Int(CounterPositionUnknown)),
      Fire(Volume, Int(volume)),
      Fire(SinkProtocolInfoVariable, Str(SinkProtocolInfo)) ]
  }

  /** The settings and platform facts the activity reads when it is built. */
  datatype Settings = Settings(
    platformIp: string,             // Platform::getIpAddress
    dlnaIp: Option<string>,         // SettingItem::DLNA_IP
    dlnaPort: Option<int>,          // SettingItem::DLNA_PORT
    dlnaName: Option<string>,       // SettingItem::DLNA_NAME
    playerAspect: Option<string>,   // SettingItem::PLAYER_ASPECT
    clientId: string,               // ProgramConfig::getClientID
    appPlatform: string,            // APPVersion::getPlatform
    appVersion: string)             // APPVersion::getVersionStr

  const DefaultPort := 9958

  /** A handler is removed from its bus. */
  predicate IsUnsubscribe(e: Effect) {
    e.UnsubscribeMpvEvents? || e.UnsubscribeDlnaEvents?
  }

  /** A service is stopped: the renderer library or the player view. */
  predicate IsStop(e: Effect) {
    e.DlnaStop? || e.ViewStop?
  }

  /** No effect of `s` unsubscribes a handler or stops a service. */
  predicate NeverTearsDown(s: seq<Effect>) {
    forall e | e in s :: !IsUnsubscribe(e) && !IsStop(e)
  }

  /** How the start-up batches combine: no tear-down, the reset first, the announcement last. */
  lemma StartupParts(reset: seq<Effect>, setup: seq<Effect>, subscribe: seq<Effect>, announcement: seq<Effect>)
    requires NeverTearsDown(reset) && NeverTearsDown(setup) && NeverTearsDown(subscribe)
    requires forall e | e in announcement :: e.Fire?
    requires |reset| > 0 && |announcement| == 10
    ensures var r := reset + setup + subscribe + announcement;
      NeverTearsDown(r) && |r| > 10 && r[0] == reset[0] && r[|r| - 10..] == announcement
  {
    var r := reset + setup + subscribe + announcement;
    assert r[|r| - 10..] == announcement;
  }

  /**
   * The renderer's device description, then its start: the renderer is created first and
   * started last, and everything in between sets one device-info entry, among them the
   * friendly name and the model number.
   */
  function DeviceSetup(ip: string, port: int, uuid: string, name: string, version: string): (r: seq<Effect>)
    ensures |r| == 9 && r[0] == DlnaCreate(ip, port, uuid) && r[|r| - 1] == DlnaStart
    ensures forall i | 0 < i < |r| - 1 :: r[i].DlnaSetDeviceInfo?
    ensures NeverTearsDown(r)
    ensures DlnaSetDeviceInfo("friendlyName", name) in r
    ensures DlnaSetDeviceInfo("modelNumber", version) in r
  {
    [ DlnaCreate(ip, port, uuid),
      DlnaSetDeviceInfo("friendlyName", name),
      DlnaSetDeviceInfo("manufacturer", "xfangfang"),
      DlnaSetDeviceInfo("manufacturerURL", "https://github.com/xfangfang"),
      DlnaSetDeviceInfo("modelDescription", "wiliwili DMR"),
      DlnaSetDeviceInfo("modelName", "wiliwili"),
      DlnaSetDeviceInfo("modelNumber", version),
      DlnaSetDeviceInfo("modelURL", "https://github.com/xfangfang/wiliwili"),
      DlnaStart ]
  }

  /**
   * Everything the activity does when it is built, in order: 23 effects. That it never
   * unsubscribes or stops anything, opens with the player reset and closes with the initial
   * announcement is `StartupNeverTearsDown`; the order of the steps is `StartupOrder`.
   */
  function Startup(settings: Settings, volume: real, genUuid: string -> string): (r: seq<Effect>)
    ensures |r| == 23
  {
    var ip := settings.dlnaIp.GetOr(settings.platformIp);
    var port := settings.dlnaPort.GetOr(DefaultPort);
    var uuid := "uuid:" + genUuid(settings.clientId);
    var name := settings.dlnaName.GetOr("wiliwili " + settings.appPlatform);
    [PlayerReset, PlayerSetAspect(settings.playerAspect.GetOr("-1"))]
    + DeviceSetup(ip, port, uuid, name, settings.appVersion)
    + [SubscribeDlnaEvents, SubscribeMpvEvents]
    + InitialAnnouncement(TruncateToInt(volume))
  }

  /**
   * Start-up never unsubscribes or stops anything; it opens with the player reset and
   * closes with the initial announcement.
   */
  lemma StartupNeverTearsDown(settings: Settings, volume: real, genUuid: string -> string)
    ensures var r := Startup(settings, volume, genUuid);
      NeverTearsDown(r) && |r| > 10 && r[0] == PlayerReset
      && r[|r| - 10..] == InitialAnnouncement(TruncateToInt(volume))
  {
    var name := settings.dlnaName.GetOr("wiliwili " + settings.appPlatform);
    StartupParts([PlayerReset, PlayerSetAspect(settings.playerAspect.GetOr("-1"))],
                 DeviceSetup(settings.dlnaIp.GetOr(settings.platformIp), settings.dlnaPort.GetOr(DefaultPort),
                             "uuid:" + genUuid(settings.clientId), name, settings.appVersion),
                 [SubscribeDlnaEvents, SubscribeMpvEvents],
                 InitialAnnouncement(TruncateToInt(volume)));
  }

  /**
   * Everything the activity does when it is destroyed, in order: it only unsubscribes the
   * two handlers, with the given ids, and stops the two services.
   */
  function Teardown(mpvSubscription: int, dlnaSubscription: int): (r: seq<Effect>)
    ensures |r| == 4
    ensures forall e | e in r :: IsStop(e) || e == UnsubscribeMpvEvents(mpvSubscription)
                                          || e == UnsubscribeDlnaEvents(dlnaSubscription)
  {
    [UnsubscribeMpvEvents(mpvSubscription), UnsubscribeDlnaEvents(dlnaSubscription), DlnaStop, ViewStop]
  }

  /** Start-up emitted batch by batch, as the constructor does, appends exactly `Startup`. */
  lemma StartupInSteps(settings: Settings, volume: real, genUuid: string -> string, log: seq<Effect>)
    ensures var name := settings.dlnaName.GetOr("wiliwili " + settings.appPlatform);
      log + [PlayerReset, PlayerSetAspect(settings.playerAspect.GetOr("-1"))]
      + DeviceSetup(settings.dlnaIp.GetOr(settings.platformIp), settings.dlnaPort.GetOr(DefaultPort),
                    "uuid:" + genUuid(settings.clientId), name, settings.appVersion)
      + [SubscribeDlnaEvents] + [SubscribeMpvEvents] + InitialAnnouncement(TruncateToInt(volume))
      == log + Startup(settings, volume, genUuid)
  {
  }

  /** The log the collaborators' effects are appended to. */
  class EffectLog {
    var entries: seq<Effect>

    constructor ()
      ensures entries == []
    {
      entries := [];
    }

    method Emit(batch: seq<Effect>)
      modifies this
      ensures entries == old(entries) + batch
    {
      entries := entries + batch;
    }
  }

  class DlnaActivity {
    const sink: EffectLog
    var ip: string
    var port: int
    var uuid: string
    var dlnaEventSubscribeID: int
    var mpvEventSubscribeID: int
    /** Both handlers are registered with their buses. */
    var subscribed: bool

    /**
     * Resets the player, resolves the renderer's address and identity (a stored setting
     * overrides the platform address and the default port), configures and starts the
     * renderer, subscribes both handlers and announces the initial state.
     */
    constructor (settings: Settings, player: PlayerStatus, genUuid: string -> string,
                 dlnaSubscription: int, mpvSubscription: int, sink: EffectLog)
      modifies sink
      ensures this.sink == sink
      ensures ip == settings.dlnaIp.GetOr(settings.platformIp)
      ensures port == settings.dlnaPort.GetOr(DefaultPort)
      ensures uuid == "uuid:" + genUuid(settings.clientId)
      ensures dlnaEventSubscribeID == dlnaSubscription && mpvEventSubscribeID == mpvSubscription
      ensures subscribed
      ensures sink.entries == old(sink.entries) + Startup(settings, player.volume, genUuid)
    {
      this.sink := sink;
      // the platform address and the default port, each overridden by a stored setting
      var address := settings.platformIp;
      address := settings.dlnaIp.GetOr(address);
      var portNumber := DefaultPort;
      portNumber := settings.dlnaPort.GetOr(portNumber);
      ip, port := address, portNumber;
      uuid := "uuid:" + genUuid(settings.clientId);
      dlnaEventSubscribeID, mpvEventSubscribeID := dlnaSubscription, mpvSubscription;
      subscribed := true;
      new;
      ghost var before := sink.entries;
      sink.Emit([PlayerReset, PlayerSetAspect(settings.playerAspect.GetOr("-1"))]);
      var name := settings.dlnaName.GetOr("wiliwili " + settings.appPlatform);
      sink.Emit(DeviceSetup(address, portNumber, uuid, name, settings.appVersion));
      sink.Emit([SubscribeDlnaEvents]);
      sink.Emit([SubscribeMpvEvents]);
      sink.Emit(InitialAnnouncement(TruncateToInt(player.volume)));
      StartupInSteps(settings, player.volume, genUuid, before);
    }

    /** The bus delivers a renderer action to the subscribed inbound handler. */
    method HandleDlnaEvent(event: string, data: string)
      requires subscribed
      modifies sink
      ensures sink.entries == old(sink.entries) + OnDlnaEvent(event, data)
    {
      sink.Emit(OnDlnaEvent(event, data));
    }

    /** The bus delivers a player event to the subscribed outbound handler. */
    method HandleMpvEvent(event: MpvEvent, player: PlayerStatus, sec2Time: int -> string)
      requires subscribed
      modifies sink
      ensures sink.entries == old(sink.entries) + OnMpvEvent(event, player, sec2Time)
    {
      sink.Emit(OnMpvEvent(event, player, sec2Time));
    }

    /**
     * ~DLNAActivity: unsubscribes the player's bus, then the renderer's, then stops the
     * renderer, then the player view.
     */
    method Destroy()
      requires subscribed
      modifies this, sink
      ensures !subscribed
      ensures unchanged(this`ip, this`port, this`uuid, this`dlnaEventSubscribeID, this`mpvEventSubscribeID)
      ensures sink.entries == old(sink.entries) + Teardown(mpvEventSubscribeID, dlnaEventSubscribeID)
    {
      sink.Emit([UnsubscribeMpvEvents(mpvEventSubscribeID)]);
      sink.Emit([UnsubscribeDlnaEvents(dlnaEventSubscribeID)]);
      subscribed := false;
      sink.Emit([DlnaStop]);
      sink.Emit([ViewStop]);
    }
  }

  /** The eight renderer actions, each with exactly its effects, and nothing for any other name. */
  lemma ActionTable(data: string, other: string)
    requires other !in KnownActions
    ensures OnDlnaEvent("CurrentURI", data) ==
      [PlayerReset, ViewSetTitle(Localized(DlnaTitleKey)), ViewShowOsd(true), PlayerSetUrl(data)]
    ensures OnDlnaEvent("CurrentURIMetaData", data) == [ViewSetTitle(Literal(data))]
    ensures OnDlnaEvent("Stop", data) ==
      [PlayerPause, ViewShowOsd(false), ViewSetTitle(Localized(WaitingTitleKey))]
    ensures OnDlnaEvent("Play", data) == [PlayerResume, Fire(TransportState, Str("PLAYING"))]
    ensures OnDlnaEvent("Pause", data) == [PlayerPause, Fire(TransportState, Str("PAUSED_PLAYBACK"))]
    ensures OnDlnaEvent("Seek", data) == [PlayerSeek(data)]
    ensures OnDlnaEvent("SetVolume", data) == [PlayerSetVolume(data), PlayerShowOsdText("Volume: " + data)]
    ensures OnDlnaEvent("Error", data) == [ViewShowOsd(false), ViewSetTitle(Literal("[Error] " + data))]
    ensures OnDlnaEvent(other, data) == []
  {
  }

  /**
   * A remote Play or Pause echoes exactly the update the player itself reports when it
   * resumes or pauses, so both relay directions agree on TransportState.
   */
  lemma EchoMatchesPlayerReport(data: string, player: PlayerStatus, sec2Time: int -> string)
    ensures OnDlnaEvent("Play", data) == [PlayerResume] + OnMpvEvent(MpvResume, player, sec2Time)
    ensures OnDlnaEvent("Pause", data) == [PlayerPause] + OnMpvEvent(MpvPause, player, sec2Time)
  {
  }

  /** The TransportState each player event reports, and that only these five report one. */
  lemma TransportStateTable(player: PlayerStatus, sec2Time: int -> string)
    ensures ReportedTransportState(OnMpvEvent(MpvResume, player, sec2Time)) == Some(Str("PLAYING"))
    ensures ReportedTransportState(OnMpvEvent(MpvPause, player, sec2Time)) == Some(Str("PAUSED_PLAYBACK"))
    ensures ReportedTransportState(OnMpvEvent(StartFile, player, sec2Time)) == Some(Str("TRANSITIONING"))
    ensures ReportedTransportState(OnMpvEvent(EndOfFile, player, sec2Time)) == Some(Str("STOPPED"))
    ensures ReportedTransportState(OnMpvEvent(MpvStop, player, sec2Time)) == Some(Str("STOPPED"))
    ensures forall e :: ReportedTransportState(OnMpvEvent(e, player, sec2Time)).Some? <==>
              e in {MpvResume, MpvPause, StartFile, EndOfFile, MpvStop}
  {
  }

  /** Progress is reported as both time positions, with one value; duration and volume once. */
  lemma PositionAndVolumeUpdates(player: PlayerStatus, sec2Time: int -> string)
    ensures OnMpvEvent(UpdateProgress, player, sec2Time) ==
      [Fire(AbsoluteTimePosition, Str(sec2Time(player.progress))),
       Fire(RelativeTimePosition, Str(sec2Time(player.progress)))]
    ensures OnMpvEvent(UpdateDuration, player, sec2Time) ==
      [Fire(CurrentTrackDuration, Str(sec2Time(player.duration)))]
    ensures OnMpvEvent(VideoVolumeChange, player, sec2Time) ==
      [Fire(Volume, Int(TruncateToInt(player.volume)))]
    ensures OnMpvEvent(VideoSpeedChange, player, sec2Time) == []
  {
  }

  /** Every TransportState value the activity ever sends is one AVTransport allows. */
  lemma TransportStatesConform(event: string, data: string, mpv: MpvEvent, player: PlayerStatus,
                               sec2Time: int -> string, volume: int)
    ensures forall u | u in OnDlnaEvent(event, data) + OnMpvEvent(mpv, player, sec2Time)
                                + InitialAnnouncement(volume) && u.Fire? && u.variable == TransportState ::
              u.value.Str? && IsTransportStateValue(u.value.s)
  {
    var echo, report, announcement :=
      OnDlnaEvent(event, data), OnMpvEvent(mpv, player, sec2Time), InitialAnnouncement(volume);
    EchoConforms(event, data);
    AnnouncementConforms(volume);
    forall u: Effect | u in echo + report + announcement && u.Fire? && u.variable == TransportState
      ensures u.value.Str? && IsTransportStateValue(u.value.s)
    {
      assert u in echo || u in report || u in announcement;
    }
  }

  /** The TransportState an inbound Play or Pause echoes is an allowed one. */
  lemma EchoConforms(event: string, data: string)
    ensures forall u | u in OnDlnaEvent(event, data) && u.Fire? ::
              u.value.Str? && IsTransportStateValue(u.value.s)
  {
    var echo := OnDlnaEvent(event, data);
    if event == "Play" || event == "Pause" {
      forall u | u in echo && u.Fire? ensures u.value.Str? && IsTransportStateValue(u.value.s) {
        assert u == echo[1];
      }
    }
  }

  /** The initial announcement's only TransportState is STOPPED. */
  lemma AnnouncementConforms(volume: int)
    ensures forall u | u in InitialAnnouncement(volume) && u.variable == TransportState ::
              u == Fire(TransportState, Str("STOPPED"))
  {
  }

  /**
   * The initial announcement: TransportState STOPPED, speed "1", status "OK", positions and
   * duration "0:00:00", both counters at the 32-bit maximum, the volume, the capability
   * list; only the volume depends on the player, nothing on earlier playback.
   */
  lemma InitialAnnouncementContents(volume: int, otherVolume: int)
    ensures ReportedTransportState(InitialAnnouncement(volume)) == Some(Str("STOPPED"))
    ensures |InitialAnnouncement(volume)| == 10
    ensures forall i | 0 <= i < 10 && i != 8 :: InitialAnnouncement(volume)[i] == InitialAnnouncement(otherVolume)[i]
    ensures InitialAnnouncement(volume)[8] == Fire(Volume, Int(volume))
    ensures InitialAnnouncement(volume)[1..6] ==
      [Fire(TransportPlaySpeed, Str("1")), Fire(TransportStatus, Str("OK")),
       Fire(AbsoluteTimePosition, Str("0:00:00")), Fire(RelativeTimePosition, Str("0:00:00")),
       Fire(CurrentTrackDuration, Str("0:00:00"))]
    ensures InitialAnnouncement(volume)[6..8] ==
      [Fire(AbsoluteCounterPosition, Int(2147483647)), Fire(RelativeCounterPosition, Int(2147483647))]
    ensures InitialAnnouncement(volume)[9] == Fire(SinkProtocolInfoVariable, Str(SinkProtocolInfo))
  {
    var a, b := InitialAnnouncement(volume), InitialAnnouncement(otherVolume);
    assert ReportedTransportState(a) == Some(a[0].value);
    assert a[..8] == b[..8] && a[9] == b[9];
    forall i | 0 <= i < 10 && i != 8 ensures a[i] == b[i] {
      if i < 8 {
        assert a[i] == a[..8][i];
      }
    }
  }

  /**
   * Start-up order as the activity issues it: the renderer is started before either
   * handler is subscribed, and the initial state is announced after both subscriptions.
   */
  lemma StartupOrder(settings: Settings, volume: real, genUuid: string -> string)
    ensures var s := Startup(settings, volume, genUuid);
      && |s| == 23
      && s[0] == PlayerReset
      && s[1] == PlayerSetAspect(settings.playerAspect.GetOr("-1"))
      && s[2..11] == DeviceSetup(settings.dlnaIp.GetOr(settings.platformIp), settings.dlnaPort.GetOr(DefaultPort),
                                 "uuid:" + genUuid(settings.clientId),
                                 settings.dlnaName.GetOr("wiliwili " + settings.appPlatform), settings.appVersion)
      && s[2] == DlnaCreate(settings.dlnaIp.GetOr(settings.platformIp),
                            settings.dlnaPort.GetOr(DefaultPort), "uuid:" + genUuid(settings.clientId))
      && s[10] == DlnaStart && s[11] == SubscribeDlnaEvents && s[12] == SubscribeMpvEvents
      && s[13..] == InitialAnnouncement(TruncateToInt(volume))
  {
  }

  /**
   * Tear-down order: both unsubscriptions come before both stops, and each of the four
   * happens once.
   */
  lemma TeardownOrder(mpvSubscription: int, dlnaSubscription: int)
    ensures var t := Teardown(mpvSubscription, dlnaSubscription);
      && (forall i, j | 0 <= i < |t| && 0 <= j < |t| && IsUnsubscribe(t[i]) && IsStop(t[j]) :: i < j)
      && multiset(t)[UnsubscribeMpvEvents(mpvSubscription)] == 1
      && multiset(t)[UnsubscribeDlnaEvents(dlnaSubscription)] == 1
      && multiset(t)[DlnaStop] == 1
      && multiset(t)[ViewStop] == 1
      && |t| == 4
  {
  }

  /** A client: an activity built and destroyed at once still unsubscribes and stops everything. */
  method BuildAndDestroy(settings: Settings, player: PlayerStatus, genUuid: string -> string,
                         dlnaSubscription: int, mpvSubscription: int, sink: EffectLog)
    modifies sink
    ensures sink.entries == old(sink.entries) + Startup(settings, player.volume, genUuid)
                            + Teardown(mpvSubscription, dlnaSubscription)
  {
    var activity := new DlnaActivity(settings, player, genUuid, dlnaSubscription, mpvSubscription, sink);
    activity.Destroy();
  }
}
