/** What every event of the device does, said of the partition, the log, the network on the air and plain numbers:
    which history makes a drastic step happen, and what happens when nothing prevents an ordinary one. */
module Outcomes {
  import opened Base
  import opened Flash
  import opened Lifecycle
  import opened Credentials
  import opened History

  // ---------------------------------------------------------------- how a search ends

  /** In every run, the disconnect that ends a search ends it in one way. With event_handler alone it erases the
      partition when it finds the counter at 10; once event_handler has recorded an address it finds 8 and only
      restarts. With wifi_event_handler it finds 2 or more and only restarts. Below these limits the device runs
      on. The counter is what it was before the search, plus one per disconnect and registered handler. */
  lemma {:induction false} SearchOutcome(nvs: Partition, before: seq<Event>, search: seq<Event>, reason: Reason)
    requires !Run(Off(nvs), before).halted && forall e :: e in search ==> Searching(e)
    requires !Run(Run(Off(nvs), before), search).halted
    ensures var s := Run(Off(nvs), before);
            var t := Run(s, search);
            var n := Run(s, search + [StaDisconnected(reason)]);
            var listens, waits, found := s.ram.link.listens, s.ram.link.waits, t.ram.retry;
            && found == s.ram.retry + ((if waits then 1 else 0) + (if listens then 1 else 0)) * Disconnects(search)
            && (listens && !waits && !s.ram.ip ==>
                  if found >= 10 then
                    n.halted && n.nvs == ERASED && n.log == t.log + [LostAp, Erased(RetriesExhausted), Restarted]
                  else !n.halted)
            && (listens && !waits && s.ram.ip ==>
                  if found >= 8 then n.halted && n.nvs == t.nvs && n.log == t.log + [LostAp, Restarted]
                  else !n.halted)
            && (waits ==>
                  if found >= 2 then n.halted && n.nvs == t.nvs && n.log == t.log + [LostAp, Restarted]
                  else !n.halted)
            && (!waits && !listens ==> n.ram == t.ram && n.nvs == t.nvs)
  {
    var s := Run(Off(nvs), before);
    RunInStep(nvs, before);
    RunAccounted(nvs, before);
    SearchEndsBoot(s, search);
    var t := Run(s, search);
    RunOneMore(s, search, StaDisconnected(reason));
    if !s.ram.link.waits { StaysPatient(s, t, search); }
    LastDisconnect(t, reason);
  }

  lemma LastDisconnect(t: State, reason: Reason)
    requires !t.halted && !t.ram.forced
    ensures var n := Next(t, StaDisconnected(reason));
            var listens, waits, found := t.ram.link.listens, t.ram.link.waits, t.ram.retry;
            && (listens && !waits && !t.ram.ip ==>
                  if found >= 10 then
                    n.halted && n.nvs == ERASED && n.log == t.log + [LostAp, Erased(RetriesExhausted), Restarted]
                  else !n.halted)
            && (listens && !waits && t.ram.ip && found <= 8 ==>
                  if found == 8 then n.halted && n.nvs == t.nvs && n.log == t.log + [LostAp, Restarted]
                  else !n.halted)
            && (waits ==>
                  if found >= 2 then n.halted && n.nvs == t.nvs && n.log == t.log + [LostAp, Restarted]
                  else !n.halted)
            && (!waits && !listens ==> n.ram == t.ram && n.nvs == t.nvs)
  {
  }

  // ---------------------------------------------------------------- what a round of the main task does

  lemma PeriodEnds(periods: nat, milSec: nat)
    requires milSec < 20000
    ensures (20000 * periods + milSec + 1) % 20000 == 0 <==> milSec == 19999
    ensures milSec == 19999 ==> (20000 * periods + milSec + 1 >= 400000 <==> periods + 1 >= 20)
  {
    if milSec == 19999 {
      assert 20000 * periods + milSec + 1 == 20000 * (periods + 1);
    } else {
      assert 20000 * periods + milSec + 1 == 20000 * periods + (milSec + 1);
    }
  }

  /** A failed update is due for its report, as the log and the partition tell. */
  predicate ReportDue(s: State) {
    && BrokerSince(s.log) && s.nvs.blob.Some? && s.nvs.blob.value.otaModeFail && TicksSince(s.log) + 1 >= 400000
  }

  /** The stored record with the failure flag cleared. */
  function FlagCleared(nvs: Partition): Partition {
    if nvs.blob.Some? then nvs.(blob := Some(nvs.blob.value.(otaModeFail := false))) else nvs
  }

  /** What one round leaves in the log and in the partition. */
  predicate RoundLeaves(s: State, t: State, reports: bool, erases: bool) {
    && t.log == s.log + [Ticked] + (if reports then [Reported] else [])
                      + (if erases then [Erased(ConnectionRefused), Restarted] else [])
    && t.nvs == (if erases then ERASED else if reports then FlagCleared(s.nvs) else s.nvs)
    && t.halted == erases
  }

  /** In every run, what a round of the main task does is decided by the log and the partition. Only a round that
      completes a period of 20000 does more than count: it reports exactly when a report is due, and the stored
      flag is then clear; and it erases and restarts exactly when the sixth refusal stands. */
  lemma {:induction false} TickOutcome(nvs: Partition, events: seq<Event>)
    requires !Run(Off(nvs), events).halted
    ensures var s := Run(Off(nvs), events);
            var period := (TicksSince(s.log) + 1) % 20000 == 0;
            RoundLeaves(s, Run(Off(nvs), events + [Tick]), period && ReportDue(s), period && Latched(s.log))
  {
    var s := Run(Off(nvs), events);
    RunInStep(nvs, events);
    RunAccounted(nvs, events);
    RunOneMore(Off(nvs), events, Tick);
    RoundByLog(s);
    RoundOutcome(s);
  }

  /** What the task tests, by its counters and flags. */
  predicate Completes(s: State) { s.ram.milSec + 1 >= 20000 }
  predicate Reports(s: State) { s.ram.mqttStart && s.ram.flash.otaModeFail && s.ram.taskCount + 1 >= 20 }

  lemma RoundByLog(s: State)
    requires !s.halted && InStep(s) && Counters(s.ram, s.log)
    requires TicksSince(s.log) == 20000 * s.ram.taskCount + s.ram.milSec
    ensures Completes(s) <==> (TicksSince(s.log) + 1) % 20000 == 0
    ensures Completes(s) ==> (Reports(s) <==> ReportDue(s))
    ensures s.ram.errorStatus <==> Latched(s.log)
  {
    PeriodEnds(s.ram.taskCount, s.ram.milSec);
  }

  lemma RoundOutcome(s: State)
    requires !s.halted && s.nvs.blob == Some(s.ram.flash)
    ensures RoundLeaves(s, Next(s, Tick), Completes(s) && Reports(s), Completes(s) && s.ram.errorStatus)
  {
  }

  // ---------------------------------------------------------------- which network a boot joins

  /** What a station boot puts on the air for a stored pair. */
  function NetworkFor(p: Pair): Pair { if p.ssid != "" then p else Pair("DAMDA_WIFI_TEST", "123456789") }

  /** A boot decides by the stored record, wherever it comes from: in normal mode, 0x00, the station joins the
      stored pair, or the built-in one when the stored name is empty, and wifi_event_handler listens; in any
      other mode the device is a soft-AP, event_handler listens, and the MAC address is in the stored record.
      Without a record it is created, in mode 0xAA with version "1.0". Nothing else in the partition changes. */
  lemma BootOutcome(s: State, e: Event)
    requires e.Boot?
    ensures var t, found := Next(s, e), if e.noFreePages then ERASED else s.nvs;
            && !t.halted && t.nvs.strings == found.strings && !t.ram.apOn
            && (found.blob.Some? && found.blob.value.bootingMode == 0x00 ==>
                  && t.nvs.blob == found.blob && t.ram.link.waits && !t.ram.link.listens
                  && (ApSsid in found.strings && ApPassword in found.strings ==>
                        t.ram.link.radio == Station(NetworkFor(StoredPair(found)))))
            && (found.blob.Some? && found.blob.value.bootingMode != 0x00 ==>
                  && t.nvs.blob == Some(found.blob.value.(mac := e.mac))
                  && t.ram.link == Link(AccessPoint, true, false, false))
            && (found.blob.None? ==>
                  && t.nvs.blob == Some(FlashInfo(0xAA, e.mac, "1.0", false, 0, 0, 0))
                  && t.ram.link == Link(AccessPoint, true, false, false))
            && t.log == s.log + (if e.noFreePages then [Erased(NoFreePages)] else []) + [Booted]
  {
  }

  /** The two provisioning handlers: what is stored, and that the device restarts. */
  lemma ProvisioningOutcome(s: State, addr: string, port: string, p: Pair, key: string)
    requires !s.halted && s.nvs.blob == Some(s.ram.flash)
    ensures var t := Next(s, LinkStart(addr, port, p, key));
            && t.halted && t.log == s.log + [Restarted]
            && t.nvs.blob == Some(s.nvs.blob.value.(bootingMode := 0x00))
            && t.nvs.strings.Keys == s.nvs.strings.Keys + {ServerAddr, ServerPort, ApSsid, ApPassword, AuthKey}
            && t.nvs.strings[ServerAddr] == addr && t.nvs.strings[ServerPort] == port
            && t.nvs.strings[ApSsid] == p.ssid && t.nvs.strings[ApPassword] == p.password
            && t.nvs.strings[AuthKey] == key
            && forall k :: k in s.nvs.strings && (k == ApSsidB || k == ApPasswordB) ==>
                 t.nvs.strings[k] == s.nvs.strings[k]
    ensures var t := Next(s, LinkSet(p));
            && t.halted && t.log == s.log + [Restarted]
            && t.nvs.blob == Some(s.nvs.blob.value.(bootingMode := 0x00))
            && t.nvs.strings.Keys == s.nvs.strings.Keys + {ApSsid, ApPassword}
            && t.nvs.strings[ApSsid] == p.ssid && t.nvs.strings[ApPassword] == p.password
            && forall k :: k in s.nvs.strings && k != ApSsid && k != ApPassword ==> t.nvs.strings[k] == s.nvs.strings[k]
  {
  }

  /** End to end, in every run: a device provisioned by either handler joins the provisioned network on its next
      boot, or the built-in one when it was given an empty name. */
  lemma {:induction false} ProvisionedJoins(nvs: Partition, events: seq<Event>, link: Event, boot: Event, p: Pair)
    requires !Run(Off(nvs), events).halted && boot.Boot? && !boot.noFreePages
    requires (link.LinkStart? || link.LinkSet?) && link.pair == p
    ensures var t := Run(Off(nvs), events + [link] + [boot]);
            !t.halted && t.ram.link.radio == Station(NetworkFor(p)) && t.ram.link.waits
  {
    var s := Run(Off(nvs), events);
    RunInStep(nvs, events);
    RunOneMore(Off(nvs), events, link);
    RunOneMore(Off(nvs), events + [link], boot);
    if link.LinkStart? {
      ProvisioningOutcome(s, link.addr, link.port, p, link.key);
    } else {
      ProvisioningOutcome(s, "", "", p, "");
    }
    BootOutcome(Next(s, link), boot);
  }

  // ---------------------------------------------------------------- the other radio events and commands

  /** An association is seen where the station has a name. Where event_handler listens, the current pair is then
      the backup, and it is stored unless it was the backup before. */
  lemma AssociationOutcome(s: State)
    requires !s.halted && InStep(s)
    ensures var t, l := Next(s, StaConnected), s.ram.link;
            if l.radio == AccessPoint || l.radio.pair.ssid == "" then t == s
            else
              && t.log == s.log + [Associated(l.radio.pair)] && !t.halted
              && t.ram.link == l.(joined := true) && t.ram.cur == s.ram.cur && t.ram.retry == s.ram.retry
              && (if l.listens && s.ram.cur != s.ram.bak then
                    && t.ram.bak == s.ram.cur && StoredBackup(t.nvs) == Some(s.ram.cur)
                    && t.nvs.strings - {ApSsidB, ApPasswordB} == s.nvs.strings - {ApSsidB, ApPasswordB}
                    && t.nvs.blob == s.nvs.blob
                  else t.ram.bak == s.ram.bak && t.nvs == s.nvs)
  {
  }

  /** What a fallback restores from: the buffers when name and password are there, else the stored pair, else
      nothing; and what it puts on the air and into the partition. */
  lemma FallbackOutcome(s: State)
    requires !s.halted && FallsBack(s, AuthError)
    ensures var t := Next(s, StaDisconnected(AuthError));
            var buffered, stored := s.ram.bak.ssid != "" && s.ram.bak.password != "", StoredBackup(s.nvs);
            && !t.halted && t.ram.retry == 1 && t.log == s.log + [LostAp] + [FellBack]
            && (buffered || stored.Some? ==>
                  var p := if buffered then s.ram.bak else stored.value;
                  && t.ram.cur == p && t.ram.bak == p && t.ram.link == Link(Station(p), true, false, false)
                  && ApSsid in t.nvs.strings && ApPassword in t.nvs.strings && StoredPair(t.nvs) == p
                  && t.nvs.strings - {ApSsid, ApPassword} == s.nvs.strings - {ApSsid, ApPassword})
            && (!buffered && stored.None? ==>
                  && t.nvs == s.nvs && t.ram.cur == s.ram.cur && t.ram.bak == s.ram.bak
                  && t.ram.link == Link(Station(if s.ram.cur.ssid == "" then Pair("", "") else s.ram.bak),
                                        true, false, false))
  {
  }

  /** An address after an association resets the retry counter for whoever listens; only event_handler records
      it. Without an association, or with no handler, nothing happens. */
  lemma AddressOutcome(s: State)
    requires !s.halted
    ensures var t, l := Next(s, StaGotIp), s.ram.link;
            if !l.joined || (!l.listens && !l.waits) then t == s
            else
              && t.ram == s.ram.(retry := 0, ip := s.ram.ip || l.listens) && t.nvs == s.nvs && !t.halted
              && t.log == s.log + if l.listens then [GotAddress] else []
  {
  }

  /** Command b puts the current pair on the air after a client was seen, and does nothing once the station has
      started: it needs another client. Command a makes a soft-AP that event_handler listens to. The waits for
      an address end the registrations. */
  lemma CommandOutcome(s: State)
    requires !s.halted && s.ram.link.listens
    ensures var t := Next(Next(s, ApStaConnected), SoftApOff);
            && t.ram.link == Link(Station(if s.ram.cur.ssid == "" then Pair("", "") else s.ram.cur), true,
                                  s.ram.link.waits, false)
            && t.nvs == s.nvs && t.log == s.log && !t.halted
    ensures var t := Next(s, StaStart);
            Next(t, SoftApOff) == t && t.ram.link == s.ram.link && t.nvs == s.nvs && t.log == s.log && !t.halted
    ensures Next(s, SoftApOn) == s.(ram := s.ram.(link := Link(AccessPoint, true, s.ram.link.waits, false)))
    ensures Next(s, SoftApOffDone) == s.(ram := s.ram.(link := s.ram.link.(listens := false)))
    ensures Next(s, StaInitDone) == s.(ram := s.ram.(link := s.ram.link.(waits := false)))
  {
  }

  /** Where event_handler does not listen, its events and a client are not noticed; command a makes it listen, and
      so does command b when a client was seen before. */
  lemma UnheardOutcome(s: State)
    requires !s.halted && !s.ram.link.listens
    ensures var t, p := Next(s, SoftApOff), if s.ram.cur.ssid == "" then Pair("", "") else s.ram.cur;
            t == if s.ram.apOn then s.(ram := s.ram.(link := Link(Station(p), true, s.ram.link.waits, false))) else s
    ensures Next(s, StaStart) == s && Next(s, ApStaConnected) == s
    ensures Next(s, SoftApOn) == s.(ram := s.ram.(link := Link(AccessPoint, true, s.ram.link.waits, false)))
  {
  }

  // ---------------------------------------------------------------- the broker and updates

  /** Each event of the broker is in the log, and changes nothing else that lasts; an update leaves its outcome in
      the stored record and restarts; a requested erase leaves nothing. What the flags and counters then are is
      read off the log. */
  lemma {:induction false} BrokerAndUpdateOutcome(s: State, ok: bool, version: string)
    requires !s.halted && s.nvs.blob == Some(s.ram.flash)
    ensures var t := Next(s, BrokerConnected); t.log == s.log + [BrokerUp] && t.nvs == s.nvs && !t.halted
    ensures var t := Next(s, BrokerFailed(Refused)); t.log == s.log + [BrokerRefused] && t.nvs == s.nvs && !t.halted
    ensures var t := Next(s, BrokerFailed(Tls)); t.log == s.log + [BrokerTls] && t.nvs == s.nvs && !t.halted
    ensures Next(s, BrokerFailed(OtherError)) == s
    ensures var t, record := Next(s, UpdateDone(ok, version)), s.nvs.blob.value;
            && t.halted && t.log == s.log + [UpdateEnded(ok)] + [Restarted] && t.nvs.strings == s.nvs.strings
            && t.nvs.blob == Some(if ok then record.(version := version) else record.(otaModeFail := true))
    ensures var t := Next(s, EraseRequest);
            t.halted && t.nvs.blob.None? && t.nvs.strings == map[] && t.log == s.log + [Erased(OnRequest)] + [Restarted]
  {
  }
}
