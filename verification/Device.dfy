/** The handlers and tasks of the device as they run: each method is one handler and is proved to do what
    the step function of module Lifecycle says. */
module Devices {
  import opened Base
  import opened Flash
  import opened Lifecycle

  class Device {
    const store: Store
    var cur: Pair
    var bak: Pair
    var retryNum: nat
    var ipGetFlag: bool
    var isForcedWifiStop: bool
    var apState: bool
    /** The radio, and which of the two Wi-Fi handlers is registered. */
    var link: Link
    var mqttErrCount: nat
    var errorStatus: bool
    var mqttStartFlag: bool
    var milSec: nat
    var taskCount: nat
    /** A restart was requested; nothing runs until the next boot. */
    var halted: bool
    ghost var log: seq<Effect>

    ghost predicate Valid()
      reads this, store
    {
      store.Valid() && (!halted ==> store.ready)
    }

    ghost function Now(): State
      reads this, store
    {
      State(store.nvs,
            Ram(store.info, cur, bak, retryNum, ipGetFlag, isForcedWifiStop, apState, link, mqttErrCount, errorStatus,
                mqttStartFlag, milSec, taskCount),
            halted, log)
    }

    /** A device that is off. */
    constructor (nvs: Partition)
      ensures Valid() && Now() == Off(nvs) && fresh(store)
    {
      store := new Store(nvs);
      cur, bak, retryNum, ipGetFlag, isForcedWifiStop, apState := NO_PAIR, NO_PAIR, 0, false, false, false;
      link, mqttErrCount, errorStatus, mqttStartFlag, milSec, taskCount := SILENT, 0, false, false, 0, 0;
      halted, log := true, [];
    }

    ghost method Observe(e: Effect)
      modifies `log
      ensures log == old(log) + [e]
    {
      log := log + [e];
    }

    method RestartNow()
      modifies `halted, `log
      ensures halted && log == old(log) + [Restarted]
    {
      halted := true;
      Observe(Restarted);
    }

    /** `nvs_flash_init(); nvs_flash_erase(); esp_restart();`, as five places in the firmware do. */
    method EraseAndRestart(ghost cause: Cause)
      requires Valid() && !halted
      modifies this, store
      ensures Valid() && Now() == Wipe(old(Now()), cause)
    {
      store.Erase();
      Observe(Erased(cause));
      RestartNow();
    }

    /** The globals as they are before app_main. */
    method PowerUp()
      requires Valid()
      modifies this, store
      ensures store.Valid() && !store.ready && store.info == ZERO && store.nvs == old(store.nvs) && log == old(log)
      ensures !halted && Now().ram == Off(store.nvs).ram.(cur := cur, bak := bak)
    {
      store.info, store.factory, store.ready := ZERO, FACTORY, false;
      retryNum, ipGetFlag, isForcedWifiStop, apState, link := 0, false, false, false, SILENT;
      mqttErrCount, errorStatus, mqttStartFlag, milSec, taskCount, halted := 0, false, false, 0, 0, false;
    }

    /** damda_nvs_init. */
    method InitStore(noFreePages: bool)
      requires store.Valid() && !halted && store.info == ZERO
      modifies `log, store
      ensures Valid()
      ensures var t := if noFreePages then Emit(old(Now()), Erased(NoFreePages)).(nvs := ERASED) else old(Now());
              Now() == Persist(t.(ram := t.ram.(flash := BootRecord(t.nvs))))
    {
      store.Init(noFreePages);
      if noFreePages {
        Observe(Erased(NoFreePages));
      }
    }

    /** app_main up to the start of the tasks. */
    method Boot(noFreePages: bool, junk: Pair, junkBackup: Pair, mac: string)
      requires Valid()
      modifies this, store
      ensures Valid() && Now() == BootStep(old(Now()), Event.Boot(noFreePages, junk, junkBackup, mac))
    {
      PowerUp();
      InitStore(noFreePages);
      NvsRead(junk, junkBackup);
      SelectMode(junk, junkBackup, mac);
      Observe(Booted);
    }

    /** The choice app_main makes between soft-AP and station mode. */
    method SelectMode(junk: Pair, junkBackup: Pair, mac: string)
      requires Valid() && !halted && store.nvs.blob == Some(store.info)
      requires cur == ReadPair(store.nvs, junk) && bak == ReadBackup(store.nvs, junkBackup)
      modifies `cur, `bak, `link, store`info, store`nvs
      ensures Valid() && Now() == Lifecycle.SelectMode(old(Now()), mac)
    {
      if store.info.bootingMode != NORMAL_MODE {
        link := Link(AccessPoint, true, false, false);
        store.info := store.info.(mac := mac);
        store.WriteFlash();
      } else {
        link := link.(waits := true, listens := false, joined := false);
        NvsRead(junk, junkBackup);
        link := link.(radio := Station(if cur.ssid != "" then cur else DEFAULT_PAIR));
      }
    }

    /** esp_nvs_read, for the credentials. */
    method NvsRead(junk: Pair, junkBackup: Pair)
      modifies `cur, `bak
      ensures cur == ReadPair(store.nvs, junk) && bak == ReadBackup(store.nvs, junkBackup)
    {
      cur := Pair(ReadKey(store.nvs, ApSsid, junk.ssid), ReadKey(store.nvs, ApPassword, junk.password));
      bak := Pair(ReadKey(store.nvs, ApSsidB, junkBackup.ssid), ReadKey(store.nvs, ApPasswordB, junkBackup.password));
    }

    /** esp_compare_bufferData: 0 when both buffers agree, 1 when they differ. */
    method CompareBufferData() returns (r: int)
      ensures r == if cur == bak then 0 else 1
    {
      if cur.ssid == bak.ssid && cur.password == bak.password {
        return 0;
      } else {
        return 1;
      }
    }

    /** esp_nvs_set_backupData. */
    method SetBackupData()
      requires Valid() && !halted
      modifies `bak, store`nvs
      ensures bak == cur
      ensures store.nvs == SetKeys(old(Now()), ApSsidB, ApPasswordB, cur).nvs
    {
      bak := bak.(ssid := cur.ssid);
      bak := bak.(password := cur.password);
      store.SetString(ApSsidB, bak.ssid);
      store.SetString(ApPasswordB, bak.password);
    }

    /** event_handler, WIFI_EVENT_STA_CONNECTED. */
    method OnStaConnected()
      requires Valid() && !halted
      modifies this, store`nvs
      ensures Valid() && Now() == BackupStep(old(Now()))
    {
      isForcedWifiStop := false;
      var differs := CompareBufferData();
      if differs == 1 {
        SetBackupData();
      }
    }

    /** The radio has associated. */
    method Associate()
      requires Valid() && !halted
      modifies this, store`nvs
      ensures Valid() && Now() == StaConnectedStep(old(Now()))
    {
      if !CanJoin(link) {
        return;
      }
      Observe(Associated(link.radio.pair));
      link := link.(joined := true);
      if link.listens {
        OnStaConnected();
      }
    }

    /** esp_nvs_get_backupData: current := backup, from the buffers or from the stored keys. Returns the
        configuration that only the second branch fills in. */
    method GetBackupData() returns (config: Pair)
      requires Valid() && !halted
      modifies `cur, `bak, store`nvs
      ensures Valid() && Now() == Restored(old(Now()))
      ensures if RestoreSource(old(Now())).None? then config == NO_PAIR else cur.ssid == "" ==> config == bak
    {
      config := NO_PAIR;
      if |bak.ssid| > 0 && |bak.password| > 0 {
        cur := cur.(ssid := bak.ssid);
        cur := cur.(password := bak.password);
        store.SetString(ApSsid, cur.ssid);
        store.SetString(ApPassword, cur.password);
      } else {
        if ApSsidB in store.nvs.strings && ApPasswordB in store.nvs.strings {
          bak := Pair(store.nvs.strings[ApSsidB], store.nvs.strings[ApPasswordB]);
          cur := bak;
          store.SetString(ApSsid, cur.ssid);
          store.SetString(ApPassword, cur.password);
          config := bak;
        }
      }
    }

    /** The authentication-error branch of event_handler: reconnect with the backup pair. */
    method FallBack()
      requires Valid() && !halted
      modifies this, store`nvs
      ensures Valid() && Now() == FallbackStep(old(Now()))
    {
      isForcedWifiStop := true;
      retryNum := retryNum + 1;
      var config := GetBackupData();
      if |cur.ssid| > 0 {
        config := Pair(bak.ssid, bak.password);
      }
      isForcedWifiStop := false;
      link := link.(radio := Station(config), joined := false);
      Observe(FellBack);
    }

    /** The tail of the disconnect branch of event_handler. */
    method Retry()
      requires Valid() && !halted
      modifies this, store
      ensures Valid() && Now() == RetryStep(old(Now()))
    {
      if retryNum < MAXIMUM_RETRY {
        retryNum := retryNum + 1;
        if ipGetFlag {
          if retryNum == MAXIMUM_RETRY - 1 {
            RestartNow();
          }
        }
      } else {
        EraseAndRestart(RetriesExhausted);
      }
    }

    /** event_handler, WIFI_EVENT_STA_DISCONNECTED. */
    method OnStaDisconnected(reason: Reason)
      requires Valid() && !halted
      modifies this, store
      ensures Valid() && Now() == ListenStep(old(Now()), reason)
    {
      if isForcedWifiStop {
        return;
      }
      if reason == AuthError {
        var differs := CompareBufferData();
        if differs == 1 && retryNum == 0 {
          FallBack();
          return;
        } else {
          isForcedWifiStop := false;
        }
      }
      Retry();
    }

    /** wifi_event_handler, WIFI_EVENT_STA_DISCONNECTED. */
    method OnWaitDisconnected()
      requires Valid() && !halted
      modifies this
      ensures Valid() && Now() == WaitStep(old(Now()))
    {
      if retryNum < WIFI_MAXIMUM_RETRY {
        retryNum := retryNum + 1;
      } else {
        RestartNow();
      }
    }

    /** The radio has lost the access point: every registered handler runs, in the order of registration. */
    method Disconnect(reason: Reason)
      requires Valid() && !halted
      modifies this, store
      ensures Valid() && Now() == StaDisconnectedStep(old(Now()), reason)
    {
      Observe(LostAp);
      if link.waits {
        OnWaitDisconnected();
      }
      if !halted && link.listens {
        OnStaDisconnected(reason);
      }
    }

    /** IP_EVENT_STA_GOT_IP in both handlers. */
    method OnGotIp()
      requires Valid() && !halted
      modifies this
      ensures Valid() && Now() == StaGotIpStep(old(Now()))
    {
      if !link.joined {
        return;
      }
      if link.waits {
        retryNum := 0;
      }
      if link.listens {
        retryNum := 0;
        ipGetFlag := true;
        Observe(GotAddress);
      }
    }

    /** event_handler, WIFI_EVENT_STA_START. */
    method OnStaStart()
      requires Valid() && !halted
      modifies `isForcedWifiStop, `apState
      ensures Valid() && Now() == StaStartStep(old(Now()))
    {
      if link.listens {
        isForcedWifiStop, apState := false, false;
      }
    }

    /** event_handler, WIFI_EVENT_AP_STACONNECTED. */
    method OnApStaConnected()
      requires Valid() && !halted
      modifies `apState
      ensures Valid() && Now() == ApStaConnectedStep(old(Now()))
    {
      if link.listens {
        apState := true;
      }
    }

    /** UART command a. */
    method SoftApOn()
      requires Valid() && !halted
      modifies `link
      ensures Valid() && Now() == SoftApOnStep(old(Now()))
    {
      link := link.(listens := true);
      link := link.(radio := AccessPoint, joined := false);
    }

    /** UART command b. */
    method SoftApOff()
      requires Valid() && !halted
      modifies `link
      ensures Valid() && Now() == SoftApOffStep(old(Now()))
    {
      if apState {
        link := link.(listens := true);
        link := link.(radio := Station(if cur.ssid != "" then cur else NO_PAIR), joined := false);
      }
    }

    /** adder_post_handler, once a full body has been read. */
    method OnLinkStart(addr: string, port: string, p: Pair, key: string)
      requires Valid() && !halted
      modifies this, store
      ensures Valid() && Now() == LinkStartStep(old(Now()), addr, port, p, key)
    {
      store.info := store.info.(bootingMode := NORMAL_MODE);
      store.WriteFlash();
      store.SetString(ServerAddr, addr);
      store.SetString(ServerPort, port);
      store.SetString(ApSsid, p.ssid);
      store.SetString(ApPassword, p.password);
      store.SetString(AuthKey, key);
      RestartNow();
    }

    /** adder_set_post_handler, once a full body has been read. */
    method OnLinkSet(p: Pair)
      requires Valid() && !halted
      modifies this, store
      ensures Valid() && Now() == LinkSetStep(old(Now()), p)
    {
      store.info := store.info.(bootingMode := NORMAL_MODE);
      store.WriteFlash();
      store.SetString(ApSsid, p.ssid);
      store.SetString(ApPassword, p.password);
      RestartNow();
    }

    /** mqtt_event_handler, MQTT_EVENT_ERROR. */
    method OnBrokerFailed(error: BrokerError)
      requires Valid() && !halted
      modifies this
      ensures Valid() && Now() == BrokerFailedStep(old(Now()), error)
    {
      if error == Tls {
        errorStatus := false;
        Observe(BrokerTls);
      } else if error == Refused {
        mqttErrCount := mqttErrCount + 1;
        if mqttErrCount > 5 {
          mqttErrCount := 0;
          errorStatus := true;
        }
        Observe(BrokerRefused);
      }
    }

    /** One round of the loop of main_task. */
    method MainTaskRound()
      requires Valid() && !halted
      modifies this, store
      ensures Valid() && Now() == TickStep(old(Now()))
    {
      milSec := milSec + 1;
      Observe(Ticked);
      if milSec >= PERIOD {
        milSec := 0;
        taskCount := taskCount + 1;
        if mqttStartFlag && store.info.otaModeFail == true && taskCount >= REPORT_PERIODS {
          Observe(Reported);
          store.info := store.info.(otaModeFail := false);
          store.WriteFlash();
          mqttStartFlag := false;
          taskCount := 0;
        }
        if errorStatus {
          EraseAndRestart(ConnectionRefused);
        }
      }
    }

    /** The update task behind its retry loop. */
    method OnUpdateDone(ok: bool, version: string)
      requires Valid() && !halted
      modifies this, store
      ensures Valid() && Now() == UpdateDoneStep(old(Now()), ok, version)
    {
      if ok {
        store.info := store.info.(version := version);
      } else {
        store.info := store.info.(otaModeFail := true);
      }
      store.WriteFlash();
      Observe(UpdateEnded(ok));
      RestartNow();
    }

    /** Any event but a boot, on a running device. */
    method Dispatch(e: Event)
      requires Valid() && !halted && !e.Boot?
      modifies this, store
      ensures Valid() && Now() == Handle(old(Now()), e)
    {
      match e {
        case Boot(_, _, _, _) =>
        case StaStart => OnStaStart();
        case StaConnected => Associate();
        case StaDisconnected(reason) => Disconnect(reason);
        case StaGotIp => OnGotIp();
        case ApStaConnected => OnApStaConnected();
        case StaInitDone => link := link.(waits := false);
        case SoftApOn => SoftApOn();
        case SoftApOff => SoftApOff();
        case SoftApOffDone => link := link.(listens := false);
        case LinkStart(addr, port, p, key) => OnLinkStart(addr, port, p, key);
        case LinkSet(p) => OnLinkSet(p);
        case BrokerConnected => mqttStartFlag := true; Observe(BrokerUp);
        case BrokerFailed(error) => OnBrokerFailed(error);
        case Tick => MainTaskRound();
        case UpdateDone(ok, version) => OnUpdateDone(ok, version);
        case EraseRequest => EraseAndRestart(OnRequest);
      }
    }

    /** Any event: a boot at any time, everything else only while the device runs. */
    method Step(e: Event)
      requires Valid()
      modifies this, store
      ensures Valid() && Now() == Next(old(Now()), e)
    {
      if e.Boot? {
        Boot(e.noFreePages, e.junk, e.junkBackup, e.mac);
      } else if !halted {
        Dispatch(e);
      }
    }
  }
}
