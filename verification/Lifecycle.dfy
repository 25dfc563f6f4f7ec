/** The device over restarts: Wi-Fi events, credentials and their backup, provisioning, the broker
    connection, the periodic task and firmware updates. This module says what every event does; the
    class Device carries the events out step by step. */
module Lifecycle {
  import opened Base
  import opened Flash

  const MAXIMUM_RETRY := 10
  const WIFI_MAXIMUM_RETRY := 2
  const PERIOD := 20000
  const REPORT_PERIODS := 20

  datatype Pair = Pair(ssid: string, password: string)

  const DEFAULT_PAIR := Pair("DAMDA_WIFI_TEST", "123456789")
  const NO_PAIR := Pair("", "")

  datatype Radio = AccessPoint | Station(pair: Pair)

  /** Why the station lost the access point; the five authentication reasons count as one. */
  datatype Reason = AuthError | NoApFound | OtherReason

  datatype Cause = NoFreePages | RetriesExhausted | ConnectionRefused | OnRequest

  datatype BrokerError = Tls | Refused | OtherError

  /** What an observer of the device can see. */
  datatype Effect =
    | Booted
    | Associated(pair: Pair)
    | FellBack
    | LostAp
    | GotAddress
    | Erased(cause: Cause)
    | Restarted
    | Ticked
    | BrokerUp
    | BrokerRefused
    | BrokerTls
    | UpdateEnded(ok: bool)
    | Reported

  /** The events: a boot, which may also be a power cycle between two steps; the events of the radio, which go
      to every handler that is registered; and the other handlers, commands and task steps. */
  datatype Event =
    | Boot(noFreePages: bool, junk: Pair, junkBackup: Pair, mac: string)
    | StaStart
    | StaConnected
    | StaDisconnected(reason: Reason)
    | StaGotIp
    | ApStaConnected
    | StaInitDone
    | SoftApOn
    | SoftApOff
    | SoftApOffDone
    | LinkStart(addr: string, port: string, pair: Pair, key: string)
    | LinkSet(pair: Pair)
    | BrokerConnected
    | BrokerFailed(error: BrokerError)
    | Tick
    | UpdateDone(ok: bool, version: string)
    | EraseRequest

  /** What the radio does and who hears it. `listens`: event_handler is registered. `waits`:
      wifi_event_handler is. `joined`: the station has associated since the radio was last started. */
  datatype Link = Link(radio: Radio, listens: bool, waits: bool, joined: bool)

  /** The global variables. */
  datatype Ram = Ram(flash: FlashInfo, cur: Pair, bak: Pair, retry: nat, ip: bool, forced: bool, apOn: bool, link: Link,
                     refusals: nat, errorStatus: bool, mqttStart: bool, milSec: nat, taskCount: nat)

  /** `halted`: esp_restart was called, or the device is off. */
  datatype State = State(nvs: Partition, ram: Ram, halted: bool, log: seq<Effect>)

  const SILENT := Link(AccessPoint, false, false, false)

  function Emit(s: State, e: Effect): State { s.(log := s.log + [e]) }

  /** `nvs_flash_erase(); esp_restart();`. */
  function Wipe(s: State, cause: Cause): State {
    Emit(Emit(s, Erased(cause)), Restarted).(nvs := ERASED, halted := true)
  }

  function Restart(s: State): State { Emit(s, Restarted).(halted := true) }

  /** write_flash(&flash_info). */
  function Persist(s: State): State { s.(nvs := s.nvs.(blob := Some(s.ram.flash))) }

  function SetKeys(s: State, ssidKey: Key, passwordKey: Key, p: Pair): State {
    s.(nvs := s.nvs.(strings := s.nvs.strings[ssidKey := p.ssid][passwordKey := p.password]))
  }

  // ---------------------------------------------------------------- boot

  /** nvs_get_str leaves the fresh buffer as it is when the key is missing. */
  function ReadKey(nvs: Partition, key: Key, junk: string): string {
    if key in nvs.strings then nvs.strings[key] else junk
  }

  function ReadPair(nvs: Partition, junk: Pair): Pair {
    Pair(ReadKey(nvs, ApSsid, junk.ssid), ReadKey(nvs, ApPassword, junk.password))
  }

  function ReadBackup(nvs: Partition, junk: Pair): Pair {
    Pair(ReadKey(nvs, ApSsidB, junk.ssid), ReadKey(nvs, ApPasswordB, junk.password))
  }

  /** The record read_flash leaves in memory, from all-zero memory. */
  function BootRecord(nvs: Partition): FlashInfo {
    if nvs.blob.Some? then nvs.blob.value else FirstBoot(ZERO)
  }

  /** app_main: NVS, the credential buffers, then soft-AP or station mode. */
  function BootStep(s: State, e: Event): State
    requires e.Boot?
  {
    var t := if e.noFreePages then Emit(s, Erased(NoFreePages)).(nvs := ERASED) else s;
    var flash := BootRecord(t.nvs);
    var ram := Ram(flash, ReadPair(t.nvs, e.junk), ReadBackup(t.nvs, e.junkBackup), 0, false, false, false, SILENT,
                   0, false, false, 0, 0);
    Emit(SelectMode(Persist(State(t.nvs, ram, false, t.log)), e.mac), Booted)
  }

  /** Station mode with the stored pair, where only wifi_event_handler is registered; or soft-AP mode with
      event_handler, which records the MAC address. */
  function SelectMode(s: State, mac: string): State {
    if s.ram.flash.bootingMode == NORMAL_MODE then
      var p := if s.ram.cur.ssid != "" then s.ram.cur else DEFAULT_PAIR;
      s.(ram := s.ram.(link := Link(Station(p), false, true, false)))
    else
      Persist(s.(ram := s.ram.(flash := s.ram.flash.(mac := mac), link := Link(AccessPoint, true, false, false))))
  }

  // ---------------------------------------------------------------- Wi-Fi

  /** event_handler, WIFI_EVENT_STA_START. */
  function StaStartStep(s: State): State {
    if s.ram.link.listens then s.(ram := s.ram.(forced := false, apOn := false)) else s
  }

  /** A station with a name can associate. */
  predicate CanJoin(l: Link) { l.radio.Station? && l.radio.pair.ssid != "" }

  /** An association. For event_handler, WIFI_EVENT_STA_CONNECTED, the current pair becomes the backup;
      wifi_event_handler ignores it. */
  function StaConnectedStep(s: State): State {
    if !CanJoin(s.ram.link) then s
    else
      var t := Emit(s, Associated(s.ram.link.radio.pair)).(ram := s.ram.(link := s.ram.link.(joined := true)));
      if s.ram.link.listens then BackupStep(t) else t
  }

  function BackupStep(s: State): State {
    var t := s.(ram := s.ram.(forced := false));
    if s.ram.cur == s.ram.bak then t
    else SetKeys(t.(ram := t.ram.(bak := s.ram.cur)), ApSsidB, ApPasswordB, s.ram.cur)
  }

  /** What esp_nvs_get_backupData restores from: the buffers, or the stored keys. */
  function RestoreSource(s: State): Option<Pair> {
    if s.ram.bak.ssid != "" && s.ram.bak.password != "" then Some(s.ram.bak)
    else if ApSsidB in s.nvs.strings && ApPasswordB in s.nvs.strings then
      Some(Pair(s.nvs.strings[ApSsidB], s.nvs.strings[ApPasswordB]))
    else None
  }

  /** esp_nvs_get_backupData: current := backup, when there is something to restore. */
  function Restored(s: State): State {
    match RestoreSource(s)
    case Some(p) => SetKeys(s.(ram := s.ram.(cur := p, bak := p)), ApSsid, ApPassword, p)
    case None => s
  }

  /** The radio is stopped and started again as a station. */
  function OnAir(l: Link, p: Pair): Link { l.(radio := Station(p), joined := false) }

  /** The fallback to the backup pair, and the station configuration built from it. When nothing could be
      restored, the backup buffers are used if the current name is not empty. */
  function FallbackStep(s: State): State {
    var t := Restored(s);
    var p := if RestoreSource(s).Some? || s.ram.cur.ssid != "" then t.ram.bak else NO_PAIR;
    Emit(t, FellBack).(ram := t.ram.(link := OnAir(s.ram.link, p), retry := s.ram.retry + 1, forced := false))
  }

  /** The retry counter of event_handler. */
  function RetryStep(s: State): State {
    if s.ram.retry < MAXIMUM_RETRY then
      var t := s.(ram := s.ram.(retry := s.ram.retry + 1));
      if s.ram.ip && t.ram.retry == MAXIMUM_RETRY - 1 then Restart(t) else t
    else Wipe(s, RetriesExhausted)
  }

  /** event_handler, WIFI_EVENT_STA_DISCONNECTED. */
  function ListenStep(s: State, reason: Reason): State {
    if s.ram.forced then s
    else if reason == AuthError then
      if s.ram.cur != s.ram.bak && s.ram.retry == 0 then FallbackStep(s)
      else RetryStep(s.(ram := s.ram.(forced := false)))
    else RetryStep(s)
  }

  /** wifi_event_handler, WIFI_EVENT_STA_DISCONNECTED. */
  function WaitStep(s: State): State {
    if s.ram.retry < WIFI_MAXIMUM_RETRY then s.(ram := s.ram.(retry := s.ram.retry + 1)) else Restart(s)
  }

  /** A disconnect goes to the handlers in the order of their registration: wifi_event_handler is registered
      at the start of a station boot, before anything can register event_handler. */
  function StaDisconnectedStep(s: State, reason: Reason): State {
    var t := Emit(s, LostAp);
    var u := if s.ram.link.waits then WaitStep(t) else t;
    if u.halted || !s.ram.link.listens then u else ListenStep(u, reason)
  }

  /** IP_EVENT_STA_GOT_IP, which an association precedes. Both handlers reset the retry counter; event_handler
      also records the address. */
  function StaGotIpStep(s: State): State {
    if !s.ram.link.joined then s
    else if s.ram.link.listens then Emit(s, GotAddress).(ram := s.ram.(retry := 0, ip := true))
    else if s.ram.link.waits then s.(ram := s.ram.(retry := 0))
    else s
  }

  /** event_handler, WIFI_EVENT_AP_STACONNECTED. */
  function ApStaConnectedStep(s: State): State {
    if s.ram.link.listens then s.(ram := s.ram.(apOn := true)) else s
  }

  /** UART command a: soft-AP mode, and event_handler is registered. */
  function SoftApOnStep(s: State): State {
    s.(ram := s.ram.(link := s.ram.link.(radio := AccessPoint, listens := true, joined := false)))
  }

  /** UART command b: station mode with the current pair, and event_handler is registered. */
  function SoftApOffStep(s: State): State {
    var p := if s.ram.cur.ssid != "" then s.ram.cur else NO_PAIR;
    if s.ram.apOn then s.(ram := s.ram.(link := OnAir(s.ram.link, p).(listens := true))) else s
  }

  // ---------------------------------------------------------------- provisioning, broker, tasks

  function Normal(s: State): State { Persist(s.(ram := s.ram.(flash := s.ram.flash.(bootingMode := NORMAL_MODE)))) }

  /** adder_post_handler with a full body. */
  function LinkStartStep(s: State, addr: string, port: string, p: Pair, key: string): State {
    var t := Normal(s);
    var server := t.nvs.strings[ServerAddr := addr][ServerPort := port];
    var strings := server[ApSsid := p.ssid][ApPassword := p.password][AuthKey := key];
    Restart(t.(nvs := t.nvs.(strings := strings)))
  }

  /** adder_set_post_handler with a full body. */
  function LinkSetStep(s: State, p: Pair): State { Restart(SetKeys(Normal(s), ApSsid, ApPassword, p)) }

  /** mqtt_event_handler, MQTT_EVENT_CONNECTED. */
  function BrokerConnectedStep(s: State): State { Emit(s, BrokerUp).(ram := s.ram.(mqttStart := true)) }

  function RefusedStep(s: State): State {
    var t := Emit(s, BrokerRefused);
    if s.ram.refusals + 1 > 5 then t.(ram := t.ram.(refusals := 0, errorStatus := true))
    else t.(ram := t.ram.(refusals := s.ram.refusals + 1))
  }

  function BrokerFailedStep(s: State, error: BrokerError): State {
    match error
    case Tls => Emit(s, BrokerTls).(ram := s.ram.(errorStatus := false))
    case Refused => RefusedStep(s)
    case OtherError => s
  }

  /** OTA_upgrade_fail, then the flag is cleared and persisted. */
  function ReportStep(s: State): State {
    if s.ram.mqttStart && s.ram.flash.otaModeFail && s.ram.taskCount >= REPORT_PERIODS then
      var t := Emit(s, Reported);
      Persist(t.(ram := t.ram.(flash := t.ram.flash.(otaModeFail := false), mqttStart := false, taskCount := 0)))
    else s
  }

  /** One round of the loop of main_task. */
  function TickStep(s: State): State {
    var t := Emit(s, Ticked);
    if s.ram.milSec + 1 < PERIOD then t.(ram := t.ram.(milSec := s.ram.milSec + 1))
    else
      var r := ReportStep(t.(ram := t.ram.(milSec := 0, taskCount := s.ram.taskCount + 1)));
      if r.ram.errorStatus then Wipe(r, ConnectionRefused) else r
  }

  /** The update task, from its decision on. */
  function UpdateDoneStep(s: State, ok: bool, version: string): State {
    var flash := if ok then s.ram.flash.(version := version) else s.ram.flash.(otaModeFail := true);
    Restart(Emit(Persist(s.(ram := s.ram.(flash := flash))), UpdateEnded(ok)))
  }

  // ---------------------------------------------------------------- steps and runs

  function Handle(s: State, e: Event): State {
    match e
    case Boot(_, _, _, _) => s
    case StaStart => StaStartStep(s)
    case StaConnected => StaConnectedStep(s)
    case StaDisconnected(reason) => StaDisconnectedStep(s, reason)
    case StaGotIp => StaGotIpStep(s)
    case ApStaConnected => ApStaConnectedStep(s)
    case StaInitDone => s.(ram := s.ram.(link := s.ram.link.(waits := false)))
    case SoftApOn => SoftApOnStep(s)
    case SoftApOff => SoftApOffStep(s)
    case SoftApOffDone => s.(ram := s.ram.(link := s.ram.link.(listens := false)))
    case LinkStart(addr, port, p, key) => LinkStartStep(s, addr, port, p, key)
    case LinkSet(p) => LinkSetStep(s, p)
    case BrokerConnected => BrokerConnectedStep(s)
    case BrokerFailed(error) => BrokerFailedStep(s, error)
    case Tick => TickStep(s)
    case UpdateDone(ok, version) => UpdateDoneStep(s, ok, version)
    case EraseRequest => Wipe(s, OnRequest)
  }

  /** A boot can follow anything; every other event needs a running device. */
  function Next(s: State, e: Event): State {
    if e.Boot? then BootStep(s, e) else if s.halted then s else Handle(s, e)
  }

  function Run(s: State, events: seq<Event>): State {
    if events == [] then s else Next(Run(s, events[..|events| - 1]), events[|events| - 1])
  }

  /** A device that is off, with what its partition holds. */
  function Off(nvs: Partition): State {
    State(nvs, Ram(ZERO, NO_PAIR, NO_PAIR, 0, false, false, false, SILENT, 0, false, false, 0, 0), true, [])
  }
}
