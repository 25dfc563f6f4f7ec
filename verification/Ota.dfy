/** The firmware update task: a bounded retry loop that ends in exactly one of two persisted outcomes, and in
    one restart. */
module Ota {
  import opened Base
  import opened Flash
  import opened Json
  import opened Lifecycle
  import opened Requests
  import Devices
  import Wire

  const MAX_RETRIES := 5

  /** What esp_https_ota reports. */
  datatype Attempt = Succeeded | PartitionConflict | Failed

  /** Attempt `k` is the first that is not an ordinary failure. */
  ghost predicate DecidedAt(attempts: nat -> Attempt, k: nat) {
    attempts(k) != Failed && forall j: nat :: j < k ==> attempts(j) == Failed
  }

  /** The run updates the firmware: a success among the first five attempts, and no conflict before it. */
  ghost predicate Updates(attempts: nat -> Attempt) {
    exists k: nat :: k < 5 && DecidedAt(attempts, k) && attempts(k) == Succeeded
  }

  /** How many attempts the run makes. */
  ghost predicate Makes(attempts: nat -> Attempt, tries: nat) {
    || (tries == 5 && forall j: nat :: j < 5 ==> attempts(j) == Failed)
    || (1 <= tries <= 5 && DecidedAt(attempts, tries - 1))
  }

  /** simple_ota_example_task. Both ends of the loop persist an outcome and restart, exactly once and as the
      last thing they do; the whole run is the step UpdateDone of the device. Returns the number of attempts. */
  method SimpleOtaTask(device: Devices.Device, requester: Requester, attempts: nat -> Attempt, otaVersion: string,
                       idKnown: bool, clientKnown: bool, printed: bool)
    returns (tries: nat, updated: bool)
    requires requester.Valid() && requester.flash == device.store
    modifies device, device.store, requester
    ensures updated <==> Updates(attempts)
    ensures Makes(attempts, tries) && 1 <= tries <= 5
    ensures device.halted && device.log == old(device.log) + [UpdateEnded(updated), Restarted]
    ensures device.store.info ==
            if updated then old(device.store.info).(version := otaVersion)
            else old(device.store.info).(otaModeFail := true)
    ensures device.store.nvs ==
            if old(device.store.ready) then old(device.store.nvs).(blob := Some(device.store.info))
            else old(device.store.nvs)
    ensures old(device.Valid() && !device.halted) ==>
              device.Valid() && device.Now() == UpdateDoneStep(old(device.Now()), updated, otaVersion)
    ensures updated ==> requester.Did(Update(otaVersion, idKnown, clientKnown, printed))
    ensures !updated ==> requester.outbox == old(requester.outbox) && requester.sequence == old(requester.sequence)
  {
    var flash := device.store;
    var retryCount: nat := 0;
    tries := 0;
    while retryCount < MAX_RETRIES
      invariant retryCount <= MAX_RETRIES && tries == retryCount
      invariant forall j: nat :: j < retryCount ==> attempts(j) == Failed
      invariant unchanged(device) && unchanged(flash) && unchanged(requester)
    {
      var ret := attempts(retryCount);
      tries := tries + 1;
      if ret == Succeeded {
        flash.info := flash.info.(version := otaVersion);
        flash.WriteFlash();
        var _ := requester.UpdateDeviceInfo(idKnown, clientKnown, printed);
        device.Observe(UpdateEnded(true));
        device.RestartNow();
        return tries, true;
      } else {
        if ret == PartitionConflict {
          break;
        }
        retryCount := retryCount + 1;
      }
    }
    flash.info := flash.info.(otaModeFail := true);
    flash.WriteFlash();
    device.Observe(UpdateEnded(false));
    device.RestartNow();
    return tries, false;
  }

  /** The number of attempts is determined by their results, and so is the outcome. */
  lemma {:induction false} MakesOnce(attempts: nat -> Attempt, m: nat, n: nat)
    requires Makes(attempts, m) && Makes(attempts, n)
    ensures m == n
    ensures Updates(attempts) <==> attempts(m - 1) == Succeeded
  {
  }

  /** The task with the handle that damdaSDKCore.c tests. The header gives every source file a handle of its
      own, and only the one of damdaMQTTClient.c is ever set: a success persists the version and takes a
      sequence number, but the server is not told. */
  method TaskWithOwnHandle(device: Devices.Device, requester: Requester, attempts: nat -> Attempt, otaVersion: string,
                           idKnown: bool, printed: bool)
    returns (tries: nat, updated: bool)
    requires requester.Valid() && requester.flash == device.store && device.Valid() && !device.halted
    modifies device, device.store, requester
    ensures updated <==> Updates(attempts)
    ensures device.Valid() && device.Now() == UpdateDoneStep(old(device.Now()), updated, otaVersion)
    ensures requester.outbox == old(requester.outbox)
    ensures requester.sequence == After(old(requester.sequence), if updated && idKnown then 1 else 0)
  {
    tries, updated := SimpleOtaTask(device, requester, attempts, otaVersion, idKnown, false, printed);
  }

  /** With a shared handle the server would read the version that was persisted out of the update message:
      `firmware_version` points into the record the loop has just written. */
  lemma UpdateCarriesVersion(d: Identity, version: string, number: nat)
    ensures var p := Published(d, Update(version, true, true, true), number);
            && |p| == 1
            && ResourceUri(p[0].body, 3) == Some("/3/0/3") && StringValue(p[0].body, 3) == Some(version)
  {
    MessageParts("3", After(number, 1), d.Id(), "up", Arr(InfoTrees(d, version)));
    Wire.InfoTreeReads("/3/0/3", version);
    assert InfoTrees(d, version)[3] == InfoTree("/3/0/3", version);
  }
}
