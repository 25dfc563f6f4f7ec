# DAMDA ESP32 firmware: a verified model

The DAMDA firmware turns an ESP32 into an IoT device. It is provisioned over a soft access point, joins a Wi-Fi
network, talks JSON over MQTT to a server, sends batched notifications and updates itself over the air. What the
device knows across restarts lies in one NVS partition: the record `flash_info` and a handful of string keys.

This project models the stateful parts in Dafny and proves what holds over every input, every run and every
interleaving. Code that works by changing things step by step (the handlers and tasks, the NVS store, the request
builders, `strtok` on a local buffer, `split` on the heap, `messageArrived`, the update loop, the header generator)
is written as classes and methods with loops. Each is proved against a function of the old state, and the theorems
about runs are proved about those functions.

`dafny verify dfyconfig.toml` checks everything.

| file | part of the system |
|---|---|
| `Base.dfy`, `Heap.dfy` | C strings; `malloc` and `free` over addresses |
| `Topics.dfy` | MQTT topics, the subscription filter, the five in-place topic readers |
| `Splitting.dfy` | `getCntSplit`, `split`, `freeSplit` |
| `Json.dfy` | JSON trees with cJSON's lookup rules, printed numbers, message getters |
| `Requests.dfy` | the seven request builders, the sequence counter, batched notification |
| `Messages.dfy` | message classification, firmware lookup |
| `Wire.dfy` | topics, members, operations and entries of every message the device builds, spelled out |
| `Arrival.dfy`, `Dialogue.dfy` | `messageArrived`, its heap and its replies; runs of inbound messages |
| `Exchange.dfy` | which inbound message gets which answer, erases, or starts an update |
| `Flash.dfy`, `FlashRace.dfy` | the NVS store; the record `flash_info` under interleaved tasks |
| `Ota.dfy` | the firmware update task |
| `Lifecycle.dfy`, `Device.dfy` | every event of the device over restarts: as step functions, and as handlers that refine them |
| `Credentials.dfy`, `History.dfy` | invariants and history properties of all runs of the device |
| `Outcomes.dfy` | what every event of the device leads to, by the partition, the log and plain numbers |
| `JsonText.dfy`, `ResourceHeader.dfy` | JSON text inside a C string literal; the generator of `device_rsc.h` |

## Assumptions

- NVS writes succeed and each `write_flash` is atomic. Between `nvs_flash_erase` and the next initialisation
  `nvs_open` fails, as ESP-IDF documents. A restart never returns.
- Handlers of the event loop, the MQTT task and the main task are steps of one state machine (`Lifecycle`). A boot may
  follow any step, so a power cycle between two handlers is covered. A boot, and each UART command, is one step. The
  shared record alone is also modelled with assignment and write as separate steps (`FlashRace`).
- An event of the radio goes to every Wi-Fi handler that is registered, in the order of registration.
  `wifi_event_handler` is registered by a station boot, until its wait for an address ends; `event_handler` by a soft-AP
  boot and by the UART commands `a` and `b`, until the wait of `b` ends (main/damda_esp32_project.c:852, 943-944,
  1009-1010, 1075, 1143-1144, 1198-1199). A repeated registration replaces the first one, as ESP-IDF documents, and the
  calls these commands check succeed.
- The MQTT handle is read as one that all source files share. As written, main/damdaCore.h:115 gives every file its own,
  and only the one of damdaMQTTClient.c is set (line 294), while all builders and responses of damdaSDKCore.c publish with
  theirs. The one builder that tests it, `damda_Req_UpdateDeviceInfo`, is proved for both values.
- A station associates only with a name that is not empty, and gets an address only when it has associated since the
  radio was last started.
- `strlen(&ap_ssid_buffer)` at main/damda_esp32_project.c:662 and 1147 is read as `strlen(ap_ssid_buffer)`, as in
  line 951.
- Printing and parsing with cJSON is the identity on trees. Member lookup is first match without regard to case.
- When no backup is stored, the uninitialised buffer of `ap_ssid_b` and `ap_password_b` that `esp_nvs_read` leaves does not
  hold a name without a password. `Credentials.ProvenIffHarmless` shows exactly what depends on it.
- `esp_https_ota`, the radio, the broker, the UART and available memory are inputs of a step or of a call.
- Fixed buffers and unchecked copies are preconditions (`Topics.Tokenizer.constructor`, `Messages.Readable`,
  `Arrival.Acceptable`, `Arrival.CallbackFits`, `Splitting.Fits`).

## What the proofs show about the code

- `isForcedWifiStop` is never set at a handler boundary, so the guard at main/damda_esp32_project.c:636 never
  suppresses an event (`Credentials.RunInStep`).
- At most one fallback happens in every boot, even when there is nothing to restore: without a restored pair the
  counter stays above 0 until an address comes, and the association in front of it has made the pairs equal
  (`Credentials.OneFallbackPerBoot`). The bound is met by `Credentials.FallbackHappens`, but only after UART command `b`:
  a plain station boot does not register the handler that falls back. Command `b` in turn has to get past its checked
  `esp_event_loop_create_default()` (main/damda_esp32_project.c:1137), which reports an error once a boot has created the
  loop, as lines 919-924 expect; where that check aborts, there is no such run.
- A stored backup is always the one the device began with or a pair that worked, over erases and new provisioning, from
  a factory device too, and whatever names were provisioned (`Credentials.BackupIsProven`). Only uninitialised memory can
  break this: a boot without a stored backup whose buffers hold another name without a password can fall back to it and
  then store the current pair unused (`Credentials.JunkIsStored`).
- A successful update is not reported to the server: damdaSDKCore.c tests a handle that is never set, so the version is
  persisted and a sequence number is used up, but nothing is sent (`Ota.TaskWithOwnHandle`).
- UART command `n` re-reads `flash_info`. Between an assignment and its write it drops the update
  (`FlashRace.ReloadDropsUpdate`); nothing else does (`FlashRace.WriteIsDurable`).
- The filter's `#` also delivers the bare parent topic, for which the operation reader copies from a null pointer
  (`Topics.ParentTopicHasNoOperation`). An empty `+` level shifts what the readers return
  (`Topics.ReadersRecoverLevels` gives the exact condition).
- Firmware messages are recognised by counting occurrences: the version named twice is enough, and the address may be
  missing (`Messages.RepeatedVersionIsFirmware`; `Messages.FirmwareIffBothPresent` gives the exact condition).
- `split` returns no piece at all when the separator does not occur (`Splitting.CountZeroIffAbsent`), and with a
  separator of several characters it does not always undo joining (`Splitting.LongSeparatorCanShift`).
- When an allocation in `messageArrived` fails, everything allocated until then stays allocated
  (`Arrival.Client.MessageArrived`).
- `app_main` starts the MQTT client before it sets the callback. A synchronous request in that window gets no response
  and does not set the busy flag, and a delete request is answered and deregistered but nothing is erased
  (`Dialogues.BusyFromSecondOn`, `Dialogues.DeleteErases`).
- The callback of a synchronous request copies the first value, which is only filled in when it is not empty. This is
  a condition of `Arrival.CallbackFits`.
- The generated header reads back exactly when no field needs an escape (`ResourceHeader.ReadsBackIffClean`).

## Model

| member | source | states |
|---|---|---|
| `Credentials.RunInStep` | main/damda_esp32_project.c:610-692 | In every run with any power cycles, at every handler boundary of a running device: the stored record is the one in memory, every stored credential equals its buffer, and `isForcedWifiStop` is not set |
| `Credentials.RestoresBackup` | main/damda_esp32_project.c:1679-1721 | Both branches of the restore have one effect: current pair, backup pair, radio and all four stored keys become the backup |
| `Credentials.BackupIsProven` | main/damda_esp32_project.c:1655-1677 | In every run, over erases, restarts and new provisioning, from a partition with or without a backup: whenever a backup is stored, it is the one the run began with or a pair the station has associated with |
| `Credentials.ProvenIffHarmless` | main/damda_esp32_project.c:801-807 | For a boot into soft-AP mode, every continuation of the boot stores only proven backups if and only if a backup is stored, or the uninitialised one has no name, has a password, has no current name beside it, or equals the current pair |
| `Credentials.JunkIsStored` | main/damda_esp32_project.c:645-689 | The run in which an uninitialised backup is joined and the current pair is stored unused |
| `Credentials.OneFallbackPerBoot` | main/damda_esp32_project.c:645-692 | In every boot of every run with restarts, with or without a stored backup, there is at most one fallback |
| `Credentials.FallbackHappens` | main/damda_esp32_project.c:1106-1169 | A provisioned device with another backup falls back once, after the commands `a` and `b` |
| `Credentials.FallbackIffGuard` | main/damda_esp32_project.c:629-692 | A disconnect adds a fallback exactly under the guard of the authentication branch, when `event_handler` alone is registered; no other event adds one |
| `Credentials.StationHasCredentials` | main/damda_esp32_project.c:1983-1992 | In every run from factory state, a running device is in normal mode only with `ap_ssid` and `ap_password` in NVS |
| `Credentials.EraseForcesSoftAp` | main/damda_nvs.c:70-102 | Whichever handler erased the partition, it is empty, the device halts, and the next boot comes up as soft-AP in factory mode with memory and partition equal and no keys; so does a boot on a full partition |
| `History.RunAccounted` | main/damda_esp32_project.c:1888-1938 | In every run: retry counter at most 8 once `event_handler` has recorded an address in the boot, elapsed rounds equal 20000 times the period counter plus `_mil_sec`, `mqtt_err_count` is the refusals of the boot modulo 6, and each flag says what its history says; every drastic effect is justified |
| `History.NoRetryEraseAfterAddress` | main/damda_esp32_project.c:701-732 | The erase for lost retries never happens in a boot in which `event_handler` has recorded an address |
| `History.RefusedEraseIsJustified` | main/damda_esp32_project.c:1914-1932 | The erase for refused connections needs at least six refusals in the boot, and no TLS error after the refusal that made the latest multiple of six |
| `History.LatchedIffSixth` | main/damdaMQTTClient.c:237-255 | The error flag, read recursively off the log, is set exactly when some refusal made a multiple of six and no boot or TLS error follows it |
| `History.ReportIsEarned` | main/damda_esp32_project.c:1904-1912 | A failure report needs a broker connection and 400000 rounds of the main task, both in this boot and since the previous report |
| `History.ReportsNeverExceedFailures` | main/damda_esp32_project.c:1904-1912 | Over all runs and restarts, reports plus the one still due never exceed failed updates plus the one due at the start |
| `History.SearchEndsBoot` | main/damda_esp32_project.c:629-733 | The number of disconnects without an address that ends a boot, exactly, for every set of registered handlers: with retry counter r, 11 - r for `event_handler`, 9 - r once it has recorded an address, 3 - r for `wifi_event_handler` |
| `Outcomes.SearchOutcome` | main/damda_esp32_project.c:701-732 | In every run, how a search ends: `event_handler` alone and no address, the disconnect that finds the counter at 10 leaves the partition erased and the log ending in the lost network, the erase and the restart; with an address the one that finds 8, and with `wifi_event_handler` the one that finds 2, leaves the partition as it was and restarts; below these numbers the device runs on |
| `Outcomes.TickOutcome` | main/damda_esp32_project.c:1894-1936 | In every run, a round of the main task adds an erase and a restart if and only if it completes a period of 20000 while the sixth refusal stands, and a report if and only if it completes a period with a broker connection, a stored failure flag and 400000 rounds; log and partition afterwards, exactly, with the stored flag cleared by a report |
| `Outcomes.BootOutcome` | main/damda_esp32_project.c:945-992 | Which mode and network a boot takes, from the partition alone: in mode 0x00 the station joins the stored pair, or the built-in one for an empty name; in any other mode it is a soft-AP with the MAC of the device in the stored record; without a record one is created in mode 0xAA |
| `Outcomes.ProvisioningOutcome` | main/damda_esp32_project.c:415-429 | Both provisioning handlers: every key and value they store, what they leave alone, and the restart |
| `Outcomes.ProvisionedJoins` | main/damda_esp32_project.c:485-498 | End to end, in every run: after either provisioning handler, the next boot puts the provisioned network on the air |
| `Outcomes.AssociationOutcome` | main/damda_esp32_project.c:610-628 | An association makes the current pair the stored backup exactly where `event_handler` listens and the pairs differ |
| `Outcomes.FallbackOutcome` | main/damda_esp32_project.c:645-689 | What a fallback restores, puts on the air and stores, for each of the two sources and for none |
| `Outcomes.AddressOutcome` | main/damda_esp32_project.c:735-770 | An address resets the retry counter for whoever listens, and is recorded by `event_handler` only |
| `Outcomes.CommandOutcome` | main/damda_esp32_project.c:1054-1167 | Commands `a` and `b` and the start of the station: which network is on the air, who listens, and that nothing lasting changes |
| `Outcomes.UnheardOutcome` | main/damda_esp32_project.c:1142-1160 | What the commands and events do where `event_handler` does not listen |
| `Outcomes.BrokerAndUpdateOutcome` | main/damda_ota.c:122-148 | Broker events leave the partition alone and are recorded; an update ends with its version or its failure in the stored record and a restart; a requested erase leaves nothing |
| `Devices.Device.constructor` | main/damda_esp32_project.c:1971-1992 | A device that is off, over a given partition |
| `Devices.Device.Boot` | main/damda_esp32_project.c:1971-1992 | `app_main` takes any state to exactly the state of the boot step |
| `Devices.Device.SelectMode` | main/damda_esp32_project.c:1983-1992 | Soft-AP with the MAC recorded and persisted, or station with the stored pair or the built-in one |
| `Devices.Device.NvsRead` | main/damda_esp32_project.c:775-812 | Each buffer gets the stored value, or stays uninitialised when the key is missing |
| `Devices.Device.CompareBufferData` | main/damda_esp32_project.c:1637-1652 | 0 if and only if both pairs agree |
| `Devices.Device.SetBackupData` | main/damda_esp32_project.c:1655-1677 | The current pair becomes the backup, in memory and in both stored keys, and nothing else changes |
| `Devices.Device.OnStaConnected` | main/damda_esp32_project.c:610-628 | The association handler is the step function's, on the whole state |
| `Devices.Device.Associate` | main/damda_esp32_project.c:610-628 | An association runs the handler only where `event_handler` is registered |
| `Devices.Device.GetBackupData` | main/damda_esp32_project.c:1679-1721 | What is restored from which source, and that nothing changes when there is none |
| `Devices.Device.FallBack` | main/damda_esp32_project.c:645-689 | The fallback is the step function's, on the whole state |
| `Devices.Device.Retry` | main/damda_esp32_project.c:701-732 | Count, restart at nine with an address, or erase at ten, on the whole state |
| `Devices.Device.OnStaDisconnected` | main/damda_esp32_project.c:629-734 | The disconnect handler is the step function's, on the whole state |
| `Devices.Device.Disconnect` | main/damda_esp32_project.c:629-734 | A disconnect runs the registered handlers in order, and the second only when the first did not restart |
| `Devices.Device.OnGotIp` | main/damda_esp32_project.c:735-770 | An address resets the counter in both handlers and is recorded in `event_handler` |
| `Devices.Device.OnStaStart` | main/damda_esp32_project.c:601-609 | `event_handler` clears both flags |
| `Devices.Device.OnApStaConnected` | main/damda_esp32_project.c:579-591 | `event_handler` notes the client |
| `Devices.Device.SoftApOn` | main/damda_esp32_project.c:1054-1099 | Command `a`: soft-AP, and `event_handler` is registered |
| `Devices.Device.SoftApOff` | main/damda_esp32_project.c:1106-1167 | Command `b`: station with the current pair, and `event_handler` is registered, if a client was seen |
| `Devices.Device.InitStore` | main/damda_nvs.c:16-30 | The record is read or created; a full partition is erased first |
| `Devices.Device.OnWaitDisconnected` | main/damda_esp32_project.c:889-900 | The handler of the station boot: two retries, then a restart |
| `Devices.Device.OnLinkStart` | main/damda_esp32_project.c:415-429 | Provisioning persists normal mode and five keys, then restarts |
| `Devices.Device.OnLinkSet` | main/damda_esp32_project.c:485-498 | Re-provisioning persists normal mode and the pair, then restarts |
| `Devices.Device.OnBrokerFailed` | main/damdaMQTTClient.c:237-255 | TLS errors clear the flag; the sixth refusal sets it and resets the counter |
| `Devices.Device.MainTaskRound` | main/damda_esp32_project.c:1894-1936 | One round of the main task is the step function's, on the whole state |
| `Devices.Device.OnUpdateDone` | main/damda_ota.c:122-148 | The outcome of an update is persisted, then the device restarts |
| `Devices.Device.EraseAndRestart` | main/damda_esp32_project.c:1923-1930 | Partition empty, nothing written before the next boot, halted |
| `Devices.Device.Dispatch` | main/damda_esp32_project.c:574-771 | Every handler, on a running device, does what the step function says |
| `Devices.Device.Step` | main/damda_esp32_project.c:574-771 | Any event at any time: boots always, everything else only while the device runs |
| `FlashRace.Carry` | main/damda_nvs.c:16-102 | The steps of the interleaving are those of the firmware on `flash_info` and the partition, the read of command `n` included |
| `FlashRace.RunKeeps` | main/damda_nvs.c:32-60 | After every interleaving of assignments, writes, reads, erases, restarts and power cycles, memory holds all assignments since the record was read, the partition those before the last write, and every other one belongs to a task that has not written yet |
| `FlashRace.EqualWhenIdle` | main/damda_esp32_project.c:1908-1909 | With no task between its assignment and its write, memory and partition are equal |
| `FlashRace.DifferenceIsPending` | main/damda_esp32_project.c:849-851 | Each field that differs was assigned by a task that has not written yet, field by field; the gains never differ |
| `FlashRace.WriteIsDurable` | main/damda_ota.c:146-147 | If the record was not read again since the assignment, then after the write the assigned value is in the partition and survives a restart, unless a later assignment replaced that field |
| `FlashRace.ReloadDropsUpdate` | main/damda_esp32_project.c:1428-1441 | A read by command `n` between an assignment and its write drops the assignment |
| `FlashRace.ErasedUntilBoot` | main/damda_nvs.c:62-102 | After an erase no interleaving brings the record back before the next boot, which re-creates it in factory mode |
| `FlashRace.NothingUntilBoot` | main/damda_ota.c:147-148 | From a restart to the next boot no interleaving changes memory or partition |
| `Flash.Store.constructor` | main/damda_nvs.c:4-14 | The memory image at power-up |
| `Flash.Store.WriteFlash` | main/damda_nvs.c:32-60 | The record is stored; nothing happens when the partition cannot be opened |
| `Flash.Store.ResetFlash` | main/damda_nvs.c:62-68 | Factory values with the gains of the caller |
| `Flash.Store.ReadFlash` | main/damda_nvs.c:70-102 | The stored record, or the factory record in factory mode with the caller's gains, which is then stored |
| `Flash.Store.Erase` | main/damda_nvs.c:22 | Record and keys are gone, and the partition cannot be opened |
| `Flash.Store.Init` | main/damda_nvs.c:16-30 | After initialisation memory and partition agree, erased first when no pages were free |
| `Flash.Store.SetString` | main/damda_esp32_project.c:1691-1695 | One key changes, when the partition can be opened |
| `Ota.SimpleOtaTask` | main/damda_ota.c:113-148 | For every sequence of attempt results: at most five attempts, the version persisted if and only if a success comes among them before any conflict, otherwise only the failure flag; the update message goes out only on success; one restart, as the last thing; the whole run is the device's update step |
| `Ota.MakesOnce` | main/damda_ota.c:118-143 | The number of attempts and the outcome are determined by the results |
| `Ota.TaskWithOwnHandle` | main/damdaSDKCore.c:320-325 | As written, with the handle of damdaSDKCore.c: for every sequence of attempt results a success persists the version and takes a number when the id is known, and nothing is sent |
| `Ota.UpdateCarriesVersion` | main/damdaSDKCore.c:288 | With a shared handle, the server would read the newly persisted version out of the update message |
| `Topics.TokensAreNonEmptyLevels` | main/damdaSDKCore.c:1075-1149 | What `strtok` delivers on a topic is the list of its non-empty MQTT levels |
| `Topics.TokensFrom` | main/damdaSDKCore.c:1083-1098 | What one `strtok` call consumes |
| `Topics.Tokenizer.constructor` | main/damdaSDKCore.c:1083-1098 | The local copy holds the topic |
| `Topics.Tokenizer.Strtok` | main/damdaSDKCore.c:1083-1098 | In place: the token is the C string at the returned position, the rest still holds exactly the remaining tokens |
| `Topics.GetServiceId` | main/damdaSDKCore.c:1075-1081 | The first non-empty level, or the null pointer |
| `Topics.GetLevelAfter` | main/damdaSDKCore.c:1083-1149 | The loop that stops at i returns token i + 1, or ends on the null pointer |
| `Topics.SubscriptionDelivers` | main/damdaMQTTClient.c:290 | The filter lets a topic through if and only if it has at least four levels and levels 0, 2 and 3 are type, `iot-server` and id |
| `Topics.ReadersRecoverLevels` | main/damdaSDKCore.c:1075-1149 | On a delivered topic the readers return type, wildcard level, `iot-server`, id and the first non-empty level behind it if and only if the wildcard level is not empty and some level behind the id is not |
| `Topics.ParentTopicHasNoOperation` | main/damdaSDKCore.c:1134-1149 | The parent topic is delivered and has no fifth token |
| `Topics.PublicationsNeverReturn` | main/damdaSDKCore.c:21 | No topic the device publishes on passes its own filter |
| `Splitting.JoinOfPieces` | main/damda_esp32_project.c:86-120 | Joining the pieces gives the input |
| `Splitting.PiecesAreFree` | main/damda_esp32_project.c:86-120 | No piece holds the separator |
| `Splitting.PiecesOfJoin` | main/damda_esp32_project.c:86-120 | Splitting undoes joining if and only if in every piece followed by the separator the written separator is the first one |
| `Splitting.SingleCharacterSeparable` | main/damda_esp32_project.c:181-218 | For one-character separators, as the firmware uses, every list of pieces without that character qualifies |
| `Splitting.LongSeparatorCanShift` | main/damda_esp32_project.c:86-120 | Pieces without the separator are not enough when it has several characters |
| `Splitting.CountZeroIffAbsent` | main/damda_esp32_project.c:70-84 | The count is 0 if and only if the separator does not occur, and never 1 |
| `Splitting.GetCntSplit` | main/damda_esp32_project.c:70-84 | The counting pass counts the pieces, and terminates |
| `Splitting.Strncpy` | main/damda_esp32_project.c:105-107 | The destination holds the wanted slice, cut at the end of the source |
| `Splitting.NextCut` | main/damda_esp32_project.c:97-115 | Every round cuts the next piece; the last asks for exactly the length of the separator too much and still gets the tail |
| `Splitting.Split` | main/damda_esp32_project.c:86-120 | The rows hold the pieces in order; `strstr` succeeds in every round but the last; no other block changes |
| `Splitting.FreeSplit` | main/damda_esp32_project.c:122-130 | Every row and the table are freed once, and nothing else |
| `Splitting.SplitAndFree` | main/damda_esp32_project.c:122-130 | `split` followed by `freeSplit` leaves the heap as it was |
| `Json.AtoiOfDecimal` | main/damdaSDKCore.c:788-803 | Reading a printed number gives it back |
| `Json.DecimalLength` | main/damdaSDKCore.c:54 | A number prints in at most k digits if and only if it is below 10^k |
| `Json.AtoiReads` | main/damdaSDKCore.c:788-803 | A number is read behind blanks and a sign and up to the first other character |
| `Requests.BatchAt` | main/damdaSDKCore.c:396-419 | There are n/5 + 1 batches, each but the last has exactly five entries, the last n % 5, and batch b starts at entry 5b |
| `Requests.BatchesFlatten` | main/damdaSDKCore.c:407-429 | The batches lose, repeat and reorder nothing; a prefix of them is a prefix of the entries |
| `Requests.DecodeOfNotification` | main/damdaSDKCore.c:855-1072 | The getters read back exactly the entries a notification was built from, in order |
| `Requests.MessageParts` | main/damdaSDKCore.c:771-853 | Sid, operation, entries and number are read back from every message built |
| `Requests.Requester.constructor` | main/damdaSDKCore.c:12 | The counter starts at 0 |
| `Requests.Requester.RegisterDevice` | main/damdaSDKCore.c:34-110 | Counter, publications and result code on every path |
| `Requests.Requester.DeregisterDevice` | main/damdaSDKCore.c:112-175 | Counter, publications and result code on every path |
| `Requests.Requester.DeleteDevice` | main/damdaSDKCore.c:177-241 | Counter, publications and result code on every path |
| `Requests.Requester.UpdateDeviceInfo` | main/damdaSDKCore.c:243-336 | Counter, publications and result code on every path: no number is taken without an id, one is taken even when nothing is sent |
| `Requests.Requester.ServerTimeInfo` | main/damdaSDKCore.c:339-386 | Counter, publications and result code on every path |
| `Requests.Requester.NotifyDeviceStatus` | main/damdaSDKCore.c:388-468 | The loop sends the batches in order with consecutive numbers, stops at the first failed print, and says so |
| `Requests.Requester.NotifyDeviceStatuArr` | main/damdaSDKCore.c:470-538 | One message with all entries |
| `Requests.Requester.BuildEntries` | main/damdaSDKCore.c:421-429 | The trees of a run of parameters, and the index behind it |
| `Requests.BatchedRefinesSingle` | main/damdaSDKCore.c:388-538 | A broker reads out of the batches what it reads out of the single message, or its first five entries per message when memory runs out on the way |
| `Requests.RunNumbered` | main/damdaSDKCore.c:53-55 | Over every run of the seven builders, the number read from a published message is its position among all numbers taken since boot, modulo 10^7 |
| `Requests.PositionsIncrease` | main/damdaSDKCore.c:414-416 | Published messages take later and later positions |
| `Requests.NumbersDiffer` | main/damdaSDKCore.c:53-55 | Two published messages carry the same number if and only if their positions differ by a multiple of 10^7; never when they are closer |
| `Requests.NumberFitsBuffer` | main/damdaSDKCore.c:39 | A printed number and its terminator fit ten bytes |
| `Wire.TopicIs` | main/damdaSDKCore.c:99 | Every publication goes to `<type>/sync/<manufacturer>-<model>-<serial>/iot-server/<operation>/json` |
| `Wire.FirstMemberWins` | main/damdaSDKCore.c:771-786 | A member lookup takes the first member of the name, without regard to case, and finds none only when there is none |
| `Wire.GettersFind` | main/damdaSDKCore.c:771-853 | Each message getter reads the member of its own name |
| `Wire.EntryGettersFind` | main/damdaSDKCore.c:855-1072 | Each entry getter reads its own field of the entry with that index, and each length getter its length |
| `Wire.GettersMiss` | main/damdaSDKCore.c:788-853 | What the getters return for a missing member |
| `Wire.RegisterSays` | main/damdaSDKCore.c:34-110 | What the server reads out of a registration and out of an update: topic, sid, operation, number, id, and the names and values of all entries in order |
| `Wire.DeregisterSays` | main/damdaSDKCore.c:112-241 | The same for the two ways to deregister |
| `Wire.TimeSyncSays` | main/damdaSDKCore.c:339-386 | The same for the question for the time |
| `Wire.NotifyAllSays` | main/damdaSDKCore.c:470-538 | The same for the single notification |
| `Wire.NotifySays` | main/damdaSDKCore.c:388-468 | How many batches are published, and what the server reads out of each: its number and exactly the entries from 5k on |
| `Wire.CallCounts` | main/damdaSDKCore.c:262-268 | How many numbers a call takes and how many messages it sends, on every path |
| `Wire.NumbersWithoutGap` | main/damdaSDKCore.c:53-55 | As long as every call sends all it built, the k-th message of a run takes the k-th position: no number is left out |
| `Messages.IsFirmwareUpdateMessage` | main/damdaSDKCore.c:1199-1229 | True exactly when the occurrences of both names add up to two |
| `Messages.StringValueByResourceUri` | main/damdaSDKCore.c:1231-1260 | The value of the first entry with the name; the buffer is untouched when there is none |
| `Messages.GetMessageType` | main/damdaSDKCore.c:1152-1197 | Firmware first, then topic level and operation: the whole table, with the numbers of the header |
| `Messages.TypeTable` | main/damdaCore.h:19-28 | The whole table on the classification, as equivalences with the numbers of the header |
| `Messages.FirmwareIffBothPresent` | main/damdaSDKCore.c:1199-1229 | Exactly which counts make "classified as firmware" and "both names present" agree |
| `Messages.FirmwareOfDistinct` | main/damdaSDKCore.c:1199-1229 | They agree for every message with distinct names |
| `Messages.LookupFindsFirst` | main/damdaSDKCore.c:1231-1260 | The lookup returns the value of the first entry with the name |
| `Messages.LookupFindsEntry` | main/damdaSDKCore.c:1231-1260 | With distinct names the lookup returns the value of the only entry with the name |
| `Messages.RepeatedVersionIsFirmware` | main/damdaSDKCore.c:1216-1222 | A message with the version twice and no address is taken for firmware |
| `Arrival.FillSlot` | main/damdaMQTTClient.c:103-120 | One round: two neighbouring fresh blocks, the second with the field; on a failure the budget is used up |
| `Arrival.FillSlots` | main/damdaMQTTClient.c:101-125 | Both arrays hold neighbouring fresh blocks with the field of each entry; on a failure exactly the remaining budget is used up |
| `Arrival.DecodeEntries` | main/damdaMQTTClient.c:75-146 | Names are filled for all entries, values and times for all entries when those of entry 0 are not empty, and otherwise their slots stay as they were; it fails exactly when memory is short |
| `Arrival.FreeRound` | main/damdaMQTTClient.c:187-200 | One round frees the blocks of its entry and touches no skipped slot |
| `Arrival.FreeEntries` | main/damdaMQTTClient.c:187-200 | The loop frees exactly what the decoding loops allocated |
| `Arrival.Client.constructor` | main/damdaMQTTClient.c:14 | The state before the first message: no callback |
| `Arrival.Client.SetCallback` | main/damdaMQTTClient.c:16-19 | The callback is set |
| `Arrival.Client.Deregister` | main/damdaMQTTClient.c:149-153 | The deregistration goes out with the next number |
| `Arrival.Client.EraseAndRestart` | main/damda_esp32_project.c:1616-1623 | Erase, then restart, after everything sent so far |
| `Arrival.Client.AnswerSync` | main/damda_esp32_project.c:1563-1580 | A busy response if and only if the flag was set; the flag is set afterwards, by synchronous requests only |
| `Arrival.Client.Callback` | main/damda_esp32_project.c:1540-1628 | Busy response, update start, both erases, on the whole state |
| `Arrival.Client.ReplyBeforeCallback` | main/damdaMQTTClient.c:148-159 | The replies sent before the callback, on the whole state |
| `Arrival.Client.DecodeFirmware` | main/damdaMQTTClient.c:161-179 | Two more blocks with address and version, or the budget is used up |
| `Arrival.Client.Release` | main/damdaMQTTClient.c:186-205 | The heap is what it was before the message |
| `Arrival.Client.MessageArrived` | main/damdaMQTTClient.c:21-206 | For every acceptable message, with or without a callback: the new state is `Receive` of the old one; the heap is unchanged when all allocations succeed and the callback returns, and leaks exactly the blocks allocated so far when one fails |
| `Dialogues.AtMostOneResponse` | main/damdaMQTTClient.c:148-184 | Of all a message makes the device publish, at most one is a response; it comes first, carries the sid of the message and goes out on the topic of the operation the message was classified as |
| `Dialogues.ReceiveSends` | main/damdaMQTTClient.c:148-184 | Everything a message does that leaves the device, as one ordered trace: publications, then erase, then restart |
| `Dialogues.DeleteErases` | main/damda_esp32_project.c:1609-1624 | The trace of a synchronous delete is response, deregistration, erase, restart; that of an asynchronous one the same without the response; without a callback it ends before the erase |
| `Dialogues.BusyIffSyncBefore` | main/damda_esp32_project.c:1563-1580 | In every run, the callback being set at any point, the busy flag says whether a synchronous request ran the callback since boot |
| `Dialogues.BusyFromSecondOn` | main/damda_esp32_project.c:1567-1574 | A synchronous request gets the busy response if and only if an earlier one ran the callback in this boot; otherwise it gets none |
| `Dialogues.FirmwareValues` | main/damda_esp32_project.c:1584-1591 | A firmware message starts the update with exactly the values of its version and address entries |
| `Exchange.RequestAnswer` | main/damda_esp32_project.c:1563-1574 | A synchronous request r, w or e, by its topic levels and its operation: with the flag set, one busy response on `read`, `write` or `execute` that reads as code 600 with one busy entry for each entry asked for; with the flag clear nothing; the flag is set afterwards |
| `Exchange.FirmwareAnswer` | main/damdaMQTTClient.c:155-159 | A firmware message adds exactly one publication, a response on `write` that reads as code 200 with its sid, if the fifth level is "write", and none otherwise |
| `Exchange.DeleteAnswer` | main/damdaMQTTClient.c:148-153 | A delete request is answered with code 200 on `delete` if synchronous, then deregistered under the next number |
| `Exchange.OthersGetNothing` | main/damdaMQTTClient.c:148-184 | Every other message publishes nothing, and sets no flag; neither does one for which memory is short from the start |
| `Exchange.ErasesExactly` | main/damda_esp32_project.c:1593-1624 | The callback erases and restarts if and only if the message is a delete request or carries return code 404 with error code 40443 |
| `Exchange.StartsExactly` | main/damda_esp32_project.c:1584-1591 | An update starts if and only if a firmware message reaches the callback, with the version and address it names |
| `Exchange.ResponseReads` | main/damdaSDKCore.c:608-768 | What the server reads out of the two kinds of response |
| `ResourceHeader.Generate` | sdk_auto_verify.py:109-148 | The two passes write the header text and the total |
| `ResourceHeader.HeaderParts` | sdk_auto_verify.py:109-148 | The header is the declaration, the literal in its quotes, a semicolon and the define with the total |
| `ResourceHeader.RowsEscaped` | sdk_auto_verify.py:126-142 | What the second pass writes is the C-escaped JSON text of the rows, with every comma where the grammar wants one |
| `ResourceHeader.CleanReadsBack` | main/damda_esp32_project.c:132-152 | Compiling the definition in the emitted header and reading the JSON gives exactly the rows when no field holds a quote, backslash or control character |
| `ResourceHeader.ColumnsReadBack` | sdk_auto_verify.py:126-142 | Every row is read back in order, with each column under its own name: oid, rid, count, type, range |
| `ResourceHeader.ReadsBackIffClean` | sdk_auto_verify.py:109-144 | Whatever the escape tables of compiler and reader are, the emitted header reads back as exactly the rows if and only if every field is free of quotes, backslashes and control characters |
| `ResourceHeader.LiteralEnds` | sdk_auto_verify.py:144 | Whatever the fields hold, a literal that a semicolon follows ends at the written closing quote or before, and denotes at most as many characters as are written without quotes |
| `ResourceHeader.InnerWidth` | sdk_auto_verify.py:126-144 | Apart from its quotes the written literal is no longer than the JSON text of the rows |
| `ResourceHeader.TotalReadsBack` | sdk_auto_verify.py:137-148 | The printed total is the sum of the count column, and of the instance counts a reader finds |
| `JsonText.ReadLiteralOf` | main/damda_esp32_project.c:134 | Reading a literal gives back the text escaped into it (section 6.4.5 of C11) |
| `JsonText.ReadArrayOf` | main/damda_esp32_project.c:135 | A printed array of clean objects is read back (sections 4, 5 and 7 of RFC 8259) |
| `JsonText.ReadArrayTight` | main/damda_esp32_project.c:135 | What is read from a text prints in at most its length, and in less when something in it is not clean |
| `JsonText.ReadLiteralWidth` | main/damda_esp32_project.c:134 | Every quote inside a literal costs a backslash |

## Left out

- ESP-IDF (Wi-Fi driver, netif, HTTP server, SNTP, GPIO, TLS, `esp_https_ota`) and the text level of cJSON: their results are inputs, and messages are trees.
- The UART command menu, logging and printing: commands `a` and `b` appear as the events `SoftApOn` and `SoftApOff`.
- `damda_uart.c` and `damda_user_task.c`: idle loops.
- `getRscRandomValue`, `time_now_us`, `Notify_Func`: random values, clocks and the choice of what to notify. The builders are proved for all parameters.
- `damda_Rsp_RemoteControl`: never called. The other response builders are modelled with a print that succeeds.
- The UART commands besides `a` and `b`: of command `n` only the read of `flash_info` appears, in `FlashRace`. In `Lifecycle` it would change nothing, since memory and partition agree between its steps.
- The end of the waits for an address (`StaInitDone`, `SoftApOffDone`) is an event that may come at any time; the event bit it waits for is not modelled.
- Power loss inside a handler of `Lifecycle`: `booting_mode` is written before the credentials, so some invariants hold only at handler boundaries.
- The RAM copies of server address, port and key, which nothing proved here depends on.
- The 200-byte buffers for topics, and strings with an embedded NUL in a message.
- Request bodies that arrive in several pieces: provisioning is modelled with a full body.
- The interleaving of two request builders on the shared counter: each call is one step.
- Splitting.Split: the `char**` table is modelled by the addresses of its rows, which are consecutive; the byte contents of the table block are not.
- ResourceHeader.Generate: rows whose count Python's `int` reads but which are not plain digits, and the error it raises otherwise, because the script then stops before it closes the file.
- JsonText.ReadArrayOf: arrays of objects whose members are strings, as the generator writes them; literals placed side by side and C comments are not read.
- Ota.SimpleOtaTask: the lengths of version and address against their fixed buffers.
- The defines the generator writes in front of the resource table, and the reading of the CSV file itself.
