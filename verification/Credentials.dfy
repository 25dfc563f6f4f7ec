/** What every run keeps of the credentials: memory and partition agree, the backup is a pair that worked,
    a boot falls back at most once, and station mode has credentials. */
module Credentials {
  import opened Base
  import opened Flash
  import opened Lifecycle

  // ---------------------------------------------------------------- memory and partition agree

  predicate KeyAgrees(nvs: Partition, key: Key, value: string) {
    key in nvs.strings ==> nvs.strings[key] == value
  }

  /** While the device runs, the record in memory is the stored one, every stored credential is the one
      in memory, and the flag that suppresses disconnect events is not set. */
  predicate InStep(s: State) {
    !s.halted ==>
      && s.nvs.blob == Some(s.ram.flash)
      && KeyAgrees(s.nvs, ApSsid, s.ram.cur.ssid) && KeyAgrees(s.nvs, ApPassword, s.ram.cur.password)
      && KeyAgrees(s.nvs, ApSsidB, s.ram.bak.ssid) && KeyAgrees(s.nvs, ApPasswordB, s.ram.bak.password)
      && !s.ram.forced
  }

  lemma BootInStep(s: State, e: Event)
    requires e.Boot?
    ensures InStep(BootStep(s, e))
  {
  }

  lemma ListenInStep(s: State, reason: Reason)
    requires InStep(s) && !s.halted
    ensures InStep(ListenStep(s, reason))
  {
    assert InStep(FallbackStep(s));
    assert InStep(RetryStep(s)) && InStep(RetryStep(s.(ram := s.ram.(forced := false))));
  }

  lemma DisconnectInStep(s: State, reason: Reason)
    requires InStep(s) && !s.halted
    ensures InStep(StaDisconnectedStep(s, reason))
  {
    var t := Emit(s, LostAp);
    ListenInStep(t, reason);
    ListenInStep(t.(ram := t.ram.(retry := t.ram.retry + 1)), reason);
  }

  lemma TickInStep(s: State)
    requires InStep(s) && !s.halted
    ensures InStep(TickStep(s))
  {
  }

  lemma HandleInStep(s: State, e: Event)
    requires InStep(s) && !s.halted
    ensures InStep(Handle(s, e))
  {
    match e
    case StaDisconnected(reason) => DisconnectInStep(s, reason);
    case Tick => TickInStep(s);
    case _ =>
  }

  lemma NextInStep(s: State, e: Event)
    requires InStep(s)
    ensures InStep(Next(s, e))
  {
    if e.Boot? { BootInStep(s, e); } else if !s.halted { HandleInStep(s, e); }
  }

  /** At every handler boundary of every run with any power cycles, memory and partition are in step. So the
      test of `isForcedWifiStop` at the head of the disconnect branch never suppresses an event. */
  lemma {:induction false} RunInStep(nvs: Partition, events: seq<Event>)
    ensures InStep(Run(Off(nvs), events))
  {
    if events != [] {
      RunInStep(nvs, events[..|events| - 1]);
      NextInStep(Run(Off(nvs), events[..|events| - 1]), events[|events| - 1]);
    }
  }

  // ---------------------------------------------------------------- what a step adds to the log

  /** event_handler falls back on this disconnect. While wifi_event_handler is registered it never does: that
      handler comes first and counts. */
  predicate FallsBack(s: State, reason: Reason) {
    && s.ram.link.listens && !s.ram.link.waits && !s.ram.forced
    && reason == AuthError && s.ram.cur != s.ram.bak && s.ram.retry == 0
  }

  /** The effects an event can show. */
  predicate MayShow(s: State, e: Event, x: Effect) {
    match x
    case Booted => false
    case FellBack => e.StaDisconnected? && FallsBack(s, e.reason)
    case Reported => e.Tick?
    case UpdateEnded(ok) => e.UpdateDone? && e.ok == ok
    case _ => true
  }

  predicate Adds(s: State, e: Event, log: seq<Effect>) {
    s.log <= log && forall i :: |s.log| <= i < |log| ==> MayShow(s, e, log[i])
  }

  lemma ListenAdds(s: State, reason: Reason)
    ensures var log := ListenStep(s, reason).log;
            && s.log <= log
            && forall i :: |s.log| <= i < |log| ==>
                 log[i] == Restarted || log[i].Erased? || (log[i] == FellBack && reason == AuthError && s.ram.retry == 0
                                                           && !s.ram.forced && s.ram.cur != s.ram.bak)
  {
  }

  lemma DisconnectAdds(s: State, e: Event)
    requires e.StaDisconnected?
    ensures Adds(s, e, StaDisconnectedStep(s, e.reason).log)
  {
    var t := Emit(s, LostAp);
    ListenAdds(t, e.reason);
    ListenAdds(t.(ram := t.ram.(retry := t.ram.retry + 1)), e.reason);
  }

  lemma TickAdds(s: State, e: Event)
    requires e.Tick?
    ensures Adds(s, e, TickStep(s).log)
  {
  }

  lemma HandleAdds(s: State, e: Event)
    requires !e.Boot?
    ensures Adds(s, e, Handle(s, e).log)
  {
    match e
    case StaDisconnected(_) => DisconnectAdds(s, e);
    case Tick => TickAdds(s, e);
    case _ =>
  }

  lemma LogGrows(s: State, e: Event)
    ensures s.log <= Next(s, e).log
  {
    if !e.Boot? { HandleAdds(s, e); }
  }

  function Count(log: seq<Effect>, e: Effect): nat {
    if log == [] then 0 else Count(log[..|log| - 1], e) + if log[|log| - 1] == e then 1 else 0
  }

  lemma CountEmit(s: State, x: Effect, e: Effect)
    ensures Count(Emit(s, x).log, e) == Count(s.log, e) + if x == e then 1 else 0
  {
    assert (s.log + [x])[..|s.log|] == s.log;
  }

  lemma {:induction false} CountSuffix(log: seq<Effect>, longer: seq<Effect>, x: Effect)
    requires log <= longer && forall i :: |log| <= i < |longer| ==> longer[i] != x
    ensures Count(longer, x) == Count(log, x)
    decreases |longer|
  {
    if |log| < |longer| { CountSuffix(log, longer[..|longer| - 1], x); } else { assert log == longer; }
  }

  /** An event changes the count only of the effects it can show. */
  lemma CountKept(s: State, e: Event, x: Effect)
    requires !e.Boot? && !MayShow(s, e, x)
    ensures Count(Handle(s, e).log, x) == Count(s.log, x)
  {
    HandleAdds(s, e);
    CountSuffix(s.log, Handle(s, e).log, x);
  }

  // ---------------------------------------------------------------- where the backup comes from

  predicate Stored(nvs: Partition) {
    ApSsid in nvs.strings && ApPassword in nvs.strings && ApSsidB in nvs.strings && ApPasswordB in nvs.strings
  }

  function StoredPair(nvs: Partition): Pair
    requires ApSsid in nvs.strings && ApPassword in nvs.strings
  {
    Pair(nvs.strings[ApSsid], nvs.strings[ApPassword])
  }

  /** The two keys of the backup are written together. */
  predicate BackupKeys(nvs: Partition) { ApSsidB in nvs.strings <==> ApPasswordB in nvs.strings }

  function StoredBackup(nvs: Partition): Option<Pair> {
    if ApSsidB in nvs.strings && ApPasswordB in nvs.strings then
      Some(Pair(nvs.strings[ApSsidB], nvs.strings[ApPasswordB]))
    else None
  }

  /** Both branches of esp_nvs_get_backupData restore the backup pair. */
  lemma {:induction false} RestoresBackup(s: State)
    requires InStep(s) && !s.halted && Stored(s.nvs)
    ensures RestoreSource(s) == Some(s.ram.bak)
    ensures var t := FallbackStep(s);
            t.ram.cur == t.ram.bak == s.ram.bak && t.ram.link.radio == Station(s.ram.bak)
            && Some(StoredPair(t.nvs)) == StoredBackup(t.nvs) == Some(s.ram.bak)
  {
  }

  /** The backup the run began with, or a pair the station has associated with. */
  predicate Proven(first: Option<Pair>, log: seq<Effect>, p: Pair) {
    first == Some(p) || Associated(p) in log
  }

  /** Whenever a backup is stored, it is a proven one. */
  predicate BackupProven(first: Option<Pair>, s: State) {
    BackupKeys(s.nvs) && (StoredBackup(s.nvs).Some? ==> Proven(first, s.log, StoredBackup(s.nvs).value))
  }

  /** Pairs with which no fallback can put a name on the air that is not restored: the backup lacks a name or
      has a password, or there is no current name, or the pairs are equal. */
  predicate Harmless(cur: Pair, bak: Pair) { bak.ssid == "" || bak.password != "" || cur.ssid == "" || cur == bak }

  /** What a boot finds in the partition. */
  function Found(nvs: Partition, e: Event): Partition
    requires e.Boot?
  {
    if e.noFreePages then ERASED else nvs
  }

  /** The boot finds a stored backup, or what the uninitialised buffers hold is harmless. */
  predicate HarmlessBoot(nvs: Partition, e: Event)
    requires e.Boot?
  {
    StoredBackup(Found(nvs, e)).Some? || Harmless(ReadPair(Found(nvs, e), e.junk), e.junkBackup)
  }

  /** Where event_handler hears an association, the radio holds the current pair, or nothing it could
      associate with, or the pairs are equal already. Without a stored backup the buffers are harmless. */
  predicate Sourced(s: State) {
    && (s.ram.link.listens && CanJoin(s.ram.link) ==> s.ram.link.radio.pair == s.ram.cur || s.ram.cur == s.ram.bak)
    && (StoredBackup(s.nvs).None? ==> Harmless(s.ram.cur, s.ram.bak))
  }

  predicate Provenance(first: Option<Pair>, s: State) {
    BackupProven(first, s) && (!s.halted ==> Sourced(s))
  }

  lemma ProvenGrows(first: Option<Pair>, s: State, longer: seq<Effect>)
    requires s.log <= longer && BackupProven(first, s)
    ensures BackupProven(first, s.(log := longer))
  {
    if StoredBackup(s.nvs).Some? && first != StoredBackup(s.nvs) {
      var i :| 0 <= i < |s.log| && s.log[i] == Associated(StoredBackup(s.nvs).value);
      assert longer[i] == s.log[i];
    }
  }

  /** The partition is erased and the device waits for its restart. */
  predicate Cleared(s: State) { s.nvs == ERASED && s.halted }

  lemma NextProvenance(first: Option<Pair>, s: State, e: Event)
    requires Provenance(first, s) && InStep(s) && (e.Boot? ==> HarmlessBoot(s.nvs, e))
    ensures Provenance(first, Next(s, e))
  {
    LogGrows(s, e);
    ProvenGrows(first, s, Next(s, e).log);
    if !e.Boot? && !s.halted {
      match e
      case StaConnected => ProvenanceOfConnect(first, s);
      case StaDisconnected(reason) => ProvenanceOfDisconnect(first, s, reason);
      case Tick => ProvenanceOfTick(first, s);
      case _ => ProvenanceOfOthers(first, s, e);
    }
  }

  /** No other handler touches the backup, and command b sets the radio to the current pair. */
  lemma ProvenanceOfOthers(first: Option<Pair>, s: State, e: Event)
    requires Provenance(first, s) && !s.halted && BackupProven(first, s.(log := Handle(s, e).log))
    requires !e.Boot? && !e.StaConnected? && !e.StaDisconnected? && !e.Tick?
    ensures Provenance(first, Handle(s, e))
  {
  }

  lemma ProvenanceOfConnect(first: Option<Pair>, s: State)
    requires Provenance(first, s) && InStep(s) && !s.halted
    requires BackupProven(first, s.(log := StaConnectedStep(s).log))
    ensures Provenance(first, StaConnectedStep(s))
  {
    if CanJoin(s.ram.link) {
      var t := StaConnectedStep(s);
      assert t.log[|s.log|] == Associated(s.ram.link.radio.pair);
    }
  }

  /** Only the counter and the flag change, or the partition is erased. */
  predicate OnlyCounts(s: State, t: State) {
    || (t.nvs == s.nvs && t.ram == s.ram.(retry := t.ram.retry, forced := t.ram.forced))
    || Cleared(t)
  }

  lemma RetryOnlyCounts(s: State)
    ensures OnlyCounts(s, RetryStep(s)) && OnlyCounts(s, RetryStep(s.(ram := s.ram.(forced := false))))
  {
  }

  lemma ListenOnlyCounts(s: State, reason: Reason)
    requires !(reason == AuthError && s.ram.cur != s.ram.bak && s.ram.retry == 0 && !s.ram.forced)
    ensures OnlyCounts(s, ListenStep(s, reason))
  {
    RetryOnlyCounts(s);
  }

  lemma OtherDisconnect(s: State, reason: Reason)
    requires !s.halted && !FallsBack(s, reason)
    ensures OnlyCounts(s, StaDisconnectedStep(s, reason))
  {
    var t := Emit(s, LostAp);
    if s.ram.link.waits {
      ListenOnlyCounts(t.(ram := t.ram.(retry := t.ram.retry + 1)), reason);
    } else if s.ram.link.listens {
      ListenOnlyCounts(t, reason);
    }
  }

  /** A fallback makes the pairs equal, or leaves a radio without a name. */
  lemma FallbackSourced(s: State)
    requires InStep(s) && !s.halted && BackupKeys(s.nvs) && Sourced(s)
    ensures var t := FallbackStep(s);
            && Sourced(t) && !t.halted
            && StoredBackup(t.nvs) == StoredBackup(s.nvs) && BackupKeys(t.nvs)
  {
  }

  lemma ProvenanceOfDisconnect(first: Option<Pair>, s: State, reason: Reason)
    requires Provenance(first, s) && InStep(s) && !s.halted
    requires BackupProven(first, s.(log := StaDisconnectedStep(s, reason).log))
    ensures Provenance(first, StaDisconnectedStep(s, reason))
  {
    if FallsBack(s, reason) {
      FallbackSourced(Emit(s, LostAp));
      assert StaDisconnectedStep(s, reason) == FallbackStep(Emit(s, LostAp));
    } else {
      OtherDisconnect(s, reason);
    }
  }

  lemma ProvenanceOfTick(first: Option<Pair>, s: State)
    requires Provenance(first, s) && !s.halted && BackupProven(first, s.(log := TickStep(s).log))
    ensures Provenance(first, TickStep(s))
  {
  }

  /** An uninitialised backup buffer that is harmless next to every current pair. */
  predicate HarmlessJunk(e: Event) { e.Boot? ==> e.junkBackup.ssid == "" || e.junkBackup.password != "" }

  /** In every run, over erases, restarts and new provisioning, from a partition with or without a backup:
      whenever a backup is stored, it is the one the run began with or a pair the station has associated
      with. */
  lemma {:induction false} BackupIsProven(nvs: Partition, events: seq<Event>)
    requires BackupKeys(nvs) && forall e :: e in events ==> HarmlessJunk(e)
    ensures Provenance(StoredBackup(nvs), Run(Off(nvs), events))
  {
    if events != [] {
      var prefix, last := events[..|events| - 1], events[|events| - 1];
      assert last in events && forall e :: e in prefix ==> e in events;
      BackupIsProven(nvs, prefix);
      RunInStep(nvs, prefix);
      NextProvenance(StoredBackup(nvs), Run(Off(nvs), prefix), last);
    }
  }

  predicate BootFree(events: seq<Event>) { forall e :: e in events ==> !e.Boot? }

  lemma {:induction false} BootKeepsProven(first: Option<Pair>, s: State, events: seq<Event>)
    requires Provenance(first, s) && InStep(s) && BootFree(events)
    ensures Provenance(first, Run(s, events)) && InStep(Run(s, events))
  {
    if events != [] {
      var prefix, last := events[..|events| - 1], events[|events| - 1];
      assert last in events && forall e :: e in prefix ==> e in events;
      BootKeepsProven(first, s, prefix);
      NextProvenance(first, Run(s, prefix), last);
      NextInStep(Run(s, prefix), last);
    }
  }

  /** Command b with a client in sight, and a network that rejects the current name but lets the other one in. */
  const SWITCH: seq<Event> := [ApStaConnected] + [SoftApOff] + [StaStart]
  const JUNK_RUN: seq<Event> := SWITCH + [StaDisconnected(AuthError)] + [StaStart] + [StaConnected]

  lemma RunOneMore(s: State, events: seq<Event>, e: Event)
    ensures Run(s, events + [e]) == Next(Run(s, events), e)
  {
    assert (events + [e])[..|events|] == events;
  }

  /** Command b puts the current pair on the air, for event_handler to hear. */
  lemma SwitchRun(s: State)
    requires !s.halted && s.ram.link == Link(AccessPoint, true, false, false) && s.ram.cur.ssid != "" && !s.ram.forced
    ensures Run(s, SWITCH) == s.(ram := s.ram.(link := Link(Station(s.ram.cur), true, false, false), apOn := false))
  {
    assert [ApStaConnected][..0] == [];
    assert Run(s, [ApStaConnected]) == Next(s, ApStaConnected);
    RunOneMore(s, [ApStaConnected], SoftApOff);
    RunOneMore(s, [ApStaConnected] + [SoftApOff], StaStart);
  }

  /** The fallback puts the uninitialised backup on the air, and its association stores the current pair. */
  lemma JunkIsStored(s: State)
    requires !s.halted && s.ram.link == Link(AccessPoint, true, false, false) && s.ram.retry == 0 && !s.ram.forced
    requires StoredBackup(s.nvs).None? && BackupKeys(s.nvs) && !Harmless(s.ram.cur, s.ram.bak)
    ensures BootFree(JUNK_RUN)
    ensures var t := Run(s, JUNK_RUN);
            StoredBackup(t.nvs) == Some(s.ram.cur) && t.log == s.log + [LostAp] + [FellBack] + [Associated(s.ram.bak)]
  {
    SwitchRun(s);
    RunOneMore(s, SWITCH, StaDisconnected(AuthError));
    RunOneMore(s, SWITCH + [StaDisconnected(AuthError)], StaStart);
    RunOneMore(s, SWITCH + [StaDisconnected(AuthError)] + [StaStart], StaConnected);
    IdleFallback(Run(s, SWITCH));
    JoinStores(Next(Next(Run(s, SWITCH), StaDisconnected(AuthError)), StaStart));
  }

  /** A fallback with nothing to restore puts the backup buffer on the air. */
  lemma IdleFallback(s: State)
    requires !s.halted && FallsBack(s, AuthError) && RestoreSource(s).None? && s.ram.cur.ssid != ""
    ensures var t := Next(Next(s, StaDisconnected(AuthError)), StaStart);
            && !t.halted && t.nvs == s.nvs && t.log == s.log + [LostAp] + [FellBack]
            && t.ram.link == Link(Station(s.ram.bak), true, false, false)
            && t.ram.cur == s.ram.cur && t.ram.bak == s.ram.bak
  {
  }

  lemma JoinStores(s: State)
    requires !s.halted && s.ram.link.listens && CanJoin(s.ram.link) && s.ram.cur != s.ram.bak
    ensures var t := Next(s, StaConnected);
            StoredBackup(t.nvs) == Some(s.ram.cur) && t.log == s.log + [Associated(s.ram.link.radio.pair)]
  {
  }

  /** Exactly what the uninitialised buffers must satisfy, for a boot into soft-AP mode: every continuation of
      the boot stores only proven backups if and only if the boot is harmless. */
  lemma {:induction false} ProvenIffHarmless(nvs: Partition, boot: Event)
    requires boot.Boot? && BackupKeys(nvs) && BootRecord(Found(nvs, boot)).bootingMode != NORMAL_MODE
    ensures (forall events :: BootFree(events) ==>
               BackupProven(StoredBackup(Found(nvs, boot)), Run(BootStep(Off(nvs), boot), events)))
            <==> HarmlessBoot(nvs, boot)
  {
    var s, first := BootStep(Off(nvs), boot), StoredBackup(Found(nvs, boot));
    BootInStep(Off(nvs), boot);
    if HarmlessBoot(nvs, boot) {
      assert Provenance(first, s);
      forall events | BootFree(events)
        ensures BackupProven(first, Run(s, events))
      {
        BootKeepsProven(first, s, events);
      }
    } else {
      JunkIsStored(s);
      assert !BackupProven(first, Run(s, JUNK_RUN));
    }
  }

  // ---------------------------------------------------------------- one fallback per boot

  /** The fallbacks of the current boot. */
  function FallbacksSince(log: seq<Effect>): nat {
    if log == [] || log[|log| - 1] == Booted then 0
    else FallbacksSince(log[..|log| - 1]) + if log[|log| - 1] == FellBack then 1 else 0
  }

  lemma FallbacksEmit(s: State, x: Effect)
    ensures FallbacksSince(Emit(s, x).log) ==
            if x == Booted then 0 else FallbacksSince(s.log) + if x == FellBack then 1 else 0
  {
    assert (s.log + [x])[..|s.log|] == s.log;
  }

  lemma {:induction false} FallbacksSuffix(log: seq<Effect>, longer: seq<Effect>)
    requires log <= longer && forall i :: |log| <= i < |longer| ==> longer[i] != Booted && longer[i] != FellBack
    ensures FallbacksSince(longer) == FallbacksSince(log)
    decreases |longer|
  {
    if |log| < |longer| { FallbacksSuffix(log, longer[..|longer| - 1]); } else { assert log == longer; }
  }

  /** A disconnect adds a fallback exactly under the guard of the authentication branch; nothing else does. */
  lemma {:induction false} FallbackIffGuard(s: State, e: Event)
    requires !e.Boot? && !s.halted
    ensures FallbacksSince(Handle(s, e).log) ==
            FallbacksSince(s.log) + if e.StaDisconnected? && FallsBack(s, e.reason) then 1 else 0
  {
    if e.StaDisconnected? && FallsBack(s, e.reason) {
      var t := Emit(s, LostAp);
      FallbacksEmit(s, LostAp);
      FallbacksEmit(t, FellBack);
      assert FallbackStep(t).log == Emit(t, FellBack).log;
    } else {
      HandleAdds(s, e);
      FallbacksSuffix(s.log, Handle(s, e).log);
    }
  }

  /** What prevents a second fallback after `n` in this boot. While event_handler is registered, an
      association since the radio was started has made the pairs equal. After a fallback either they are
      equal or the counter is not 0; only an address resets it, and that needs an association. */
  predicate Guarded(ram: Ram, n: nat) {
    && (ram.link.listens && ram.link.joined ==> ram.cur == ram.bak)
    && (n > 0 ==> !ram.link.waits && (ram.cur == ram.bak || ram.retry > 0))
  }

  predicate OneFallback(s: State) {
    FallbacksSince(s.log) <= 1 && (!s.halted ==> Guarded(s.ram, FallbacksSince(s.log)))
  }

  lemma BootOneFallback(s: State, e: Event)
    requires e.Boot?
    ensures OneFallback(BootStep(s, e))
  {
    var log := BootStep(s, e).log;
    assert log[|log| - 1] == Booted;
  }

  lemma DisconnectGuarded(s: State, reason: Reason, n: nat)
    requires Guarded(s.ram, n) && !s.halted
    ensures var t := StaDisconnectedStep(s, reason);
            t.halted || Guarded(t.ram, if FallsBack(s, reason) then n + 1 else n)
    ensures n > 0 ==> !FallsBack(s, reason)
  {
  }

  lemma TickGuarded(s: State, n: nat)
    requires Guarded(s.ram, n)
    ensures Guarded(TickStep(s).ram, n)
  {
  }

  lemma HandleGuarded(s: State, e: Event, n: nat)
    requires Guarded(s.ram, n) && !s.halted && !e.Boot? && !e.StaDisconnected?
    ensures Handle(s, e).halted || Guarded(Handle(s, e).ram, n)
  {
    match e
    case Tick => TickGuarded(s, n);
    case _ =>
  }

  lemma HandleOneFallback(s: State, e: Event)
    requires OneFallback(s) && !s.halted && !e.Boot?
    ensures OneFallback(Handle(s, e))
  {
    var n := FallbacksSince(s.log);
    FallbackIffGuard(s, e);
    if e.StaDisconnected? { DisconnectGuarded(s, e.reason, n); } else { HandleGuarded(s, e, n); }
  }

  /** In every boot of every run, with or without a stored backup, there is at most one fallback. */
  lemma {:induction false} OneFallbackPerBoot(nvs: Partition, events: seq<Event>)
    ensures OneFallback(Run(Off(nvs), events))
  {
    if events != [] {
      var prefix, last := events[..|events| - 1], events[|events| - 1];
      OneFallbackPerBoot(nvs, prefix);
      var s := Run(Off(nvs), prefix);
      if last.Boot? { BootOneFallback(s, last); } else if !s.halted { HandleOneFallback(s, last); }
    }
  }

  /** The bound is met: a provisioned device with another backup, whose user switches to soft-AP mode and
      back before the network rejects the stored pair. */
  lemma {:induction false} FallbackHappens(nvs: Partition, junk: Pair, mac: string)
    requires Stored(nvs) && nvs.blob.Some? && nvs.blob.value.bootingMode == NORMAL_MODE
    requires Some(StoredPair(nvs)) != StoredBackup(nvs)
    ensures var linked := [Boot(false, junk, junk, mac)] + [StaConnected] + [StaGotIp] + [StaInitDone];
            var switched := linked + [SoftApOn] + [ApStaConnected] + [SoftApOff] + [StaStart];
            FallbacksSince(Run(Off(nvs), switched + [StaDisconnected(AuthError)]).log) == 1
  {
    var boot := Boot(false, junk, junk, mac);
    var e1 := [boot];
    var s1 := Next(Off(nvs), boot);
    assert e1[..0] == [] && Run(Off(nvs), e1) == s1;
    var e2, e3 := e1 + [StaConnected], e1 + [StaConnected] + [StaGotIp];
    var e4 := e3 + [StaInitDone];
    RunOneMore(Off(nvs), e1, StaConnected);
    RunOneMore(Off(nvs), e2, StaGotIp);
    RunOneMore(Off(nvs), e3, StaInitDone);
    var s4 := Run(Off(nvs), e4);
    SwitchedOver(s1, s4);
    RunOneMore(Off(nvs), e4, SoftApOn);
    RunOneMore(Off(nvs), e4 + [SoftApOn], ApStaConnected);
    RunOneMore(Off(nvs), e4 + [SoftApOn] + [ApStaConnected], SoftApOff);
    RunOneMore(Off(nvs), e4 + [SoftApOn] + [ApStaConnected] + [SoftApOff], StaStart);
    var e8 := e4 + [SoftApOn] + [ApStaConnected] + [SoftApOff] + [StaStart];
    RunOneMore(Off(nvs), e8, StaDisconnected(AuthError));
    FallbackIffGuard(Run(Off(nvs), e8), StaDisconnected(AuthError));
  }

  /** From a station boot through its first address and the two commands to a radio that event_handler hears. */
  lemma SwitchedOver(s: State, linked: State)
    requires !s.halted && s.log == [Booted] && s.ram.retry == 0 && !s.ram.forced && s.ram.cur != s.ram.bak
    requires s.ram.link.waits && !s.ram.link.listens && CanJoin(s.ram.link)
    requires linked == Next(Next(Next(s, StaConnected), StaGotIp), StaInitDone)
    ensures var t := Next(Next(Next(Next(linked, SoftApOn), ApStaConnected), SoftApOff), StaStart);
            !t.halted && FallsBack(t, AuthError) && FallbacksSince(t.log) == 0
  {
    var x := Associated(s.ram.link.radio.pair);
    assert linked.log == [Booted] + [x];
    assert ([Booted] + [x])[..1] == [Booted] && FallbacksSince([Booted]) == 0;
  }

  // ---------------------------------------------------------------- station mode has credentials

  /** A record in normal mode is stored only together with the credentials. */
  predicate ModeNeedsCredentials(nvs: Partition) {
    nvs.blob.Some? && nvs.blob.value.bootingMode == NORMAL_MODE ==> ApSsid in nvs.strings && ApPassword in nvs.strings
  }

  lemma NextModeNeedsCredentials(s: State, e: Event)
    requires ModeNeedsCredentials(s.nvs) && InStep(s)
    ensures ModeNeedsCredentials(Next(s, e).nvs)
  {
    if !e.Boot? && !s.halted {
      match e
      case StaConnected =>
      case StaDisconnected(reason) =>
      case Tick =>
      case _ =>
    }
  }

  /** From factory state, in every run, a boot enters station mode only with stored credentials. */
  lemma {:induction false} StationHasCredentials(nvs: Partition, events: seq<Event>)
    requires ModeNeedsCredentials(nvs)
    ensures var s := Run(Off(nvs), events);
            && ModeNeedsCredentials(s.nvs)
            && (!s.halted && s.ram.flash.bootingMode == NORMAL_MODE ==>
                 ApSsid in s.nvs.strings && ApPassword in s.nvs.strings)
  {
    RunInStep(nvs, events);
    if events != [] {
      var prefix := events[..|events| - 1];
      StationHasCredentials(nvs, prefix);
      RunInStep(nvs, prefix);
      NextModeNeedsCredentials(Run(Off(nvs), prefix), events[|events| - 1]);
    }
  }

  /** The step has just erased the partition and asked for a restart. */
  predicate ErasedNow(s: State) {
    |s.log| >= 2 && s.log[|s.log| - 2].Erased? && s.log[|s.log| - 1] == Restarted
  }

  /** Soft-AP mode with a fresh factory record, memory and partition equal, and no credentials. */
  predicate FactoryAp(s: State) {
    && s.ram.link.radio == AccessPoint && s.ram.flash.bootingMode == FACTORY_MODE && s.nvs.blob == Some(s.ram.flash)
    && s.nvs.strings == map[] && s.ram.flash.igain == 0 && s.ram.flash.vgain == 0 && s.ram.flash.sgain == 0
  }

  /** Whatever erased the partition, and however: the erasing step leaves it empty and halts, and the next
      boot comes up as soft-AP in factory state. So does a boot that finds the partition full. */
  lemma {:induction false} EraseForcesSoftAp(s: State, e: Event, boot: Event)
    requires !e.Boot? && !s.halted && boot.Boot?
    ensures ErasedNow(Next(s, e)) && |Next(s, e).log| >= |s.log| + 2 ==>
              Next(s, e).halted && Next(s, e).nvs == ERASED && FactoryAp(Next(Next(s, e), boot))
    ensures boot.noFreePages ==> FactoryAp(Next(s, boot))
  {
    match e
    case StaConnected =>
    case StaDisconnected(reason) =>
    case BrokerFailed(error) =>
    case Tick =>
    case _ =>
  }
}
