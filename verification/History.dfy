/** What the log of every run says about the drastic steps: an erase for lost retries, a report of a failed
    update and an erase for a refused connection each have a history that justifies them. */
module History {
  import opened Base
  import opened Flash
  import opened Lifecycle
  import opened Credentials

  // ---------------------------------------------------------------- readings of a log

  function Front(log: seq<Effect>): seq<Effect>
    requires log != []
  {
    log[..|log| - 1]
  }

  function Last(log: seq<Effect>): Effect
    requires log != []
  {
    log[|log| - 1]
  }

  /** event_handler recorded an address in this boot. */
  predicate IpSince(log: seq<Effect>) {
    log != [] && Last(log) != Booted && (Last(log) == GotAddress || IpSince(Front(log)))
  }

  /** Rounds of the main task in this boot since the last report. */
  function TicksSince(log: seq<Effect>): nat {
    if log == [] || Last(log) == Booted || Last(log) == Reported then 0
    else TicksSince(Front(log)) + if Last(log) == Ticked then 1 else 0
  }

  /** The broker connected in this boot after the last report. */
  predicate BrokerSince(log: seq<Effect>) {
    log != [] && Last(log) != Booted && Last(log) != Reported && (Last(log) == BrokerUp || BrokerSince(Front(log)))
  }

  /** Refused connections in this boot. */
  function RefusalsSince(log: seq<Effect>): nat {
    if log == [] || Last(log) == Booted then 0
    else RefusalsSince(Front(log)) + if Last(log) == BrokerRefused then 1 else 0
  }

  /** The latest sixth refusal of this boot, with no TLS error after it. */
  predicate Latched(log: seq<Effect>) {
    && log != [] && Last(log) != Booted && Last(log) != BrokerTls
    && ((Last(log) == BrokerRefused && RefusalsSince(log) % 6 == 0) || Latched(Front(log)))
  }

  /** Entry `j` is a refusal that makes a multiple of six in its boot, and no boot or TLS error follows it. */
  predicate LatchAt(log: seq<Effect>, j: nat) {
    && j < |log| && log[j] == BrokerRefused && RefusalsSince(log[..j + 1]) % 6 == 0
    && forall k :: j < k < |log| ==> log[k] != Booted && log[k] != BrokerTls
  }

  lemma {:induction false} LatchedIffSixth(log: seq<Effect>)
    ensures Latched(log) <==> exists j: nat :: LatchAt(log, j)
  {
    if log != [] {
      var n := |log| - 1;
      LatchedIffSixth(Front(log));
      if Latched(log) {
        if Last(log) == BrokerRefused && RefusalsSince(log) % 6 == 0 {
          assert log[..n + 1] == log;
          assert LatchAt(log, n);
        } else {
          var j: nat :| LatchAt(Front(log), j);
          assert log[..j + 1] == Front(log)[..j + 1];
          assert LatchAt(log, j);
        }
      }
      if j: nat :| LatchAt(log, j) {
        assert log[..n + 1] == log;
        if j < n {
          assert log[n] == Last(log);
          assert log[..j + 1] == Front(log)[..j + 1];
          assert LatchAt(Front(log), j);
        }
      }
    }
  }

  lemma {:induction false} LatchedNeedsSix(log: seq<Effect>)
    ensures Latched(log) ==> RefusalsSince(log) >= 6
  {
    if log != [] { LatchedNeedsSix(Front(log)); }
  }

  // ---------------------------------------------------------------- justified logs

  /** What must have happened before such an effect. */
  predicate Justified(before: seq<Effect>, e: Effect) {
    match e
    case Erased(RetriesExhausted) => !IpSince(before)
    case Erased(ConnectionRefused) => Latched(before)
    case Reported => BrokerSince(before) && TicksSince(before) >= 400000
    case _ => true
  }

  predicate AllJustified(log: seq<Effect>) {
    log != [] ==> AllJustified(Front(log)) && Justified(Front(log), Last(log))
  }

  lemma {:induction false} JustifiedAt(log: seq<Effect>, i: nat)
    requires AllJustified(log) && i < |log|
    ensures Justified(log[..i], log[i])
    decreases |log|
  {
    if i < |log| - 1 {
      JustifiedAt(Front(log), i);
      assert Front(log)[..i] == log[..i];
    }
  }

  /** Everything the readings say after one more effect. */
  lemma OneMore(log: seq<Effect>, e: Effect)
    ensures IpSince(log + [e]) <==> e != Booted && (e == GotAddress || IpSince(log))
    ensures TicksSince(log + [e]) ==
            if e == Booted || e == Reported then 0 else TicksSince(log) + if e == Ticked then 1 else 0
    ensures BrokerSince(log + [e]) <==> e != Booted && e != Reported && (e == BrokerUp || BrokerSince(log))
    ensures RefusalsSince(log + [e]) ==
            if e == Booted then 0 else RefusalsSince(log) + if e == BrokerRefused then 1 else 0
    ensures Latched(log + [e]) <==>
            e != Booted && e != BrokerTls && ((e == BrokerRefused && (RefusalsSince(log) + 1) % 6 == 0) || Latched(log))
    ensures AllJustified(log + [e]) <==> AllJustified(log) && Justified(log, e)
  {
    assert Front(log + [e]) == log && Last(log + [e]) == e;
  }

  /** The log is justified, and while the device runs its counters are the readings of the log. */
  predicate Accounted(s: State) {
    && AllJustified(s.log)
    && (!s.halted ==> Counters(s.ram, s.log))
  }

  /** The rounds of so many full periods. */
  function Rounds(periods: nat): nat { if periods == 0 then 0 else Rounds(periods - 1) + PERIOD }

  lemma {:induction false} RoundsAre(periods: nat)
    ensures Rounds(periods) == 20000 * periods
  {
    if periods > 0 { RoundsAre(periods - 1); }
  }

  predicate Counters(ram: Ram, log: seq<Effect>) {
    && (ram.ip <==> IpSince(log))
    && ram.retry <= MAXIMUM_RETRY && (ram.ip ==> ram.retry <= MAXIMUM_RETRY - 2)
    && ram.milSec < PERIOD && TicksSince(log) == Rounds(ram.taskCount) + ram.milSec
    && (ram.mqttStart <==> BrokerSince(log))
    && ram.refusals == RefusalsSince(log) % 6
    && (ram.errorStatus <==> Latched(log))
  }

  /** The effects that change no reading. */
  predicate Silent(e: Effect) {
    || e.Associated? || e == FellBack || e == LostAp || e == Restarted || e.UpdateEnded?
    || e == Erased(OnRequest) || e == Erased(NoFreePages)
  }

  lemma SilentKeeps(ram: Ram, log: seq<Effect>, e: Effect)
    requires Silent(e)
    ensures Counters(ram, log + [e]) <==> Counters(ram, log)
    ensures AllJustified(log + [e]) <==> AllJustified(log)
  {
    OneMore(log, e);
  }

  /** Apart from its limit the counters do not depend on credentials, radio and retry counter. */
  lemma SameCounters(ram: Ram, other: Ram, log: seq<Effect>)
    requires other == ram.(cur := other.cur, bak := other.bak, forced := other.forced, link := other.link,
                               retry := other.retry)
    requires Counters(ram, log) && other.retry <= if ram.ip then MAXIMUM_RETRY - 2 else MAXIMUM_RETRY
    ensures Counters(other, log)
  {
  }

  lemma BootShows(s: State, e: Event)
    requires e.Boot?
    ensures var t := BootStep(s, e);
            && t.log == (if e.noFreePages then s.log + [Erased(NoFreePages)] else s.log) + [Booted]
            && t.ram == Off(t.nvs).ram.(flash := t.ram.flash, cur := t.ram.cur, bak := t.ram.bak, link := t.ram.link)
  {
  }

  lemma BootAccounted(s: State, e: Event)
    requires AllJustified(s.log) && e.Boot?
    ensures Accounted(BootStep(s, e))
  {
    BootShows(s, e);
    var log := if e.noFreePages then s.log + [Erased(NoFreePages)] else s.log;
    OneMore(s.log, Erased(NoFreePages));
    OneMore(log, Booted);
  }

  lemma RestartAccounted(s: State)
    requires AllJustified(s.log)
    ensures Accounted(Restart(s))
  {
    OneMore(s.log, Restarted);
  }

  lemma WipeAccounted(s: State, cause: Cause)
    requires AllJustified(s.log) && Justified(s.log, Erased(cause))
    ensures Accounted(Wipe(s, cause))
  {
    OneMore(s.log, Erased(cause));
    OneMore(s.log + [Erased(cause)], Restarted);
  }

  lemma DisconnectAccounted(s: State, reason: Reason)
    requires Accounted(s) && !s.halted
    ensures Accounted(StaDisconnectedStep(s, reason))
  {
    var t := Emit(s, LostAp);
    SilentKeeps(s.ram, s.log, LostAp);
    if s.ram.link.waits { WaitAccounted(t); }
    var u := if s.ram.link.waits then WaitStep(t) else t;
    if !u.halted && s.ram.link.listens { ListenAccounted(u, reason); }
  }

  lemma WaitAccounted(s: State)
    requires Accounted(s) && !s.halted
    ensures Accounted(WaitStep(s))
  {
    if s.ram.retry < WIFI_MAXIMUM_RETRY {
      SameCounters(s.ram, WaitStep(s).ram, s.log);
    } else {
      RestartAccounted(s);
    }
  }

  lemma ListenAccounted(s: State, reason: Reason)
    requires Accounted(s) && !s.halted
    ensures Accounted(ListenStep(s, reason))
  {
    if reason == AuthError && s.ram.retry == 0 && s.ram.cur != s.ram.bak {
      FallbackAccounted(s);
    } else {
      RetryAccounted(s);
    }
  }

  lemma FallbackAccounted(s: State)
    requires Accounted(s) && !s.halted && s.ram.retry == 0
    ensures Accounted(FallbackStep(s))
  {
    var t := FallbackStep(s);
    SilentKeeps(s.ram, s.log, FellBack);
    assert t.log == s.log + [FellBack];
    SameCounters(s.ram, t.ram, t.log);
  }

  lemma RetryAccounted(s: State)
    requires Accounted(s) && !s.halted
    ensures Accounted(RetryStep(s)) && Accounted(RetryStep(s.(ram := s.ram.(forced := false))))
  {
    if s.ram.retry >= MAXIMUM_RETRY { WipeAccounted(s, RetriesExhausted); } else { RestartAccounted(s); }
  }

  lemma BrokerFailedAccounted(s: State, error: BrokerError)
    requires Accounted(s) && !s.halted
    ensures Accounted(BrokerFailedStep(s, error))
  {
    match error
    case Tls => OneMore(s.log, BrokerTls);
    case Refused => RefusedAccounted(s);
    case OtherError =>
  }

  lemma ModSix(n: nat)
    ensures (n + 1) % 6 == if n % 6 == 5 then 0 else n % 6 + 1
  {
  }

  lemma RefusedAccounted(s: State)
    requires Accounted(s) && !s.halted
    ensures Accounted(RefusedStep(s))
  {
    OneMore(s.log, BrokerRefused);
    ModSix(RefusalsSince(s.log));
  }

  lemma ReportAccounted(s: State)
    requires Accounted(s) && !s.halted && s.ram.milSec == 0
    ensures Accounted(ReportStep(s)) && !ReportStep(s).halted
  {
    OneMore(s.log, Reported);
    RoundsAre(s.ram.taskCount);
  }

  /** The state of the main task behind its counting. */
  function Counting(s: State): State {
    Emit(s, Ticked).(ram := if s.ram.milSec + 1 < PERIOD then s.ram.(milSec := s.ram.milSec + 1)
                            else s.ram.(milSec := 0, taskCount := s.ram.taskCount + 1))
  }

  lemma CountingAccounted(s: State)
    requires Accounted(s) && !s.halted
    ensures Accounted(Counting(s))
  {
    OneMore(s.log, Ticked);
  }

  lemma TickAccounted(s: State)
    requires Accounted(s) && !s.halted
    ensures Accounted(TickStep(s))
  {
    CountingAccounted(s);
    if s.ram.milSec + 1 >= PERIOD {
      ReportAccounted(Counting(s));
      var r := ReportStep(Counting(s));
      if r.ram.errorStatus { WipeAccounted(r, ConnectionRefused); }
    }
  }

  lemma AddressAccounted(s: State)
    requires Accounted(s) && !s.halted
    ensures Accounted(StaGotIpStep(s))
  {
    var other := s.ram.(retry := 0);
    SameCounters(s.ram, other, s.log);
    OneMore(s.log, GotAddress);
  }

  lemma BrokerUpAccounted(s: State)
    requires Accounted(s) && !s.halted
    ensures Accounted(BrokerConnectedStep(s))
  {
    OneMore(s.log, BrokerUp);
  }

  lemma UpdateAccounted(s: State, ok: bool, version: string)
    requires Accounted(s)
    ensures Accounted(UpdateDoneStep(s, ok, version))
  {
    OneMore(s.log, UpdateEnded(ok));
    OneMore(s.log + [UpdateEnded(ok)], Restarted);
  }

  lemma JoinShows(s: State)
    requires CanJoin(s.ram.link)
    ensures var t := StaConnectedStep(s);
            && t.log == s.log + [Associated(s.ram.link.radio.pair)] && t.halted == s.halted
            && t.ram == s.ram.(bak := t.ram.bak, forced := t.ram.forced, link := t.ram.link)
  {
  }

  lemma ConnectAccounted(s: State)
    requires Accounted(s) && !s.halted
    ensures Accounted(StaConnectedStep(s))
  {
    if CanJoin(s.ram.link) {
      JoinShows(s);
      SilentKeeps(s.ram, s.log, Associated(s.ram.link.radio.pair));
      SameCounters(s.ram, StaConnectedStep(s).ram, StaConnectedStep(s).log);
    }
  }

  /** The log of a provisioning handler is that of a restart. */
  lemma LinkAccounted(s: State, addr: string, port: string, p: Pair, key: string)
    requires Accounted(s)
    ensures Accounted(LinkStartStep(s, addr, port, p, key)) && Accounted(LinkSetStep(s, p))
  {
    OneMore(s.log, Restarted);
  }

  lemma HandleAccounted(s: State, e: Event)
    requires Accounted(s) && !s.halted && !e.Boot?
    ensures Accounted(Handle(s, e))
  {
    match e
    case StaConnected => ConnectAccounted(s);
    case StaDisconnected(reason) => DisconnectAccounted(s, reason);
    case StaGotIp => AddressAccounted(s);
    case BrokerConnected => BrokerUpAccounted(s);
    case BrokerFailed(error) => BrokerFailedAccounted(s, error);
    case Tick => TickAccounted(s);
    case UpdateDone(ok, version) => UpdateAccounted(s, ok, version);
    case LinkStart(addr, port, p, key) => LinkAccounted(s, addr, port, p, key);
    case LinkSet(p) => LinkAccounted(s, "", "", p, "");
    case EraseRequest => WipeAccounted(s, OnRequest);
    case _ =>
  }

  /** In every run with any power cycles the log is justified and the counters are readings of the log. */
  lemma {:induction false} RunAccounted(nvs: Partition, events: seq<Event>)
    ensures var s := Run(Off(nvs), events);
            Accounted(s) && (!s.halted ==> TicksSince(s.log) == 20000 * s.ram.taskCount + s.ram.milSec)
  {
    RoundsAre(Run(Off(nvs), events).ram.taskCount);
    if events != [] {
      var prefix, last := events[..|events| - 1], events[|events| - 1];
      RunAccounted(nvs, prefix);
      var s := Run(Off(nvs), prefix);
      if last.Boot? { BootAccounted(s, last); } else if !s.halted { HandleAccounted(s, last); }
    }
  }

  // ---------------------------------------------------------------- what the entries of every log mean

  /** The partition is erased for lost retries only in a boot that never obtained an address. */
  lemma {:induction false} NoRetryEraseAfterAddress(nvs: Partition, events: seq<Event>, i: nat)
    requires var log := Run(Off(nvs), events).log; i < |log| && log[i] == Erased(RetriesExhausted)
    ensures !IpSince(Run(Off(nvs), events).log[..i])
  {
    RunAccounted(nvs, events);
    JustifiedAt(Run(Off(nvs), events).log, i);
  }

  /** The partition is erased for a refused connection only after at least six refusals in the boot, and no
      TLS error came after the refusal that made the latest multiple of six. */
  lemma {:induction false} RefusedEraseIsJustified(nvs: Partition, events: seq<Event>, i: nat)
    requires var log := Run(Off(nvs), events).log; i < |log| && log[i] == Erased(ConnectionRefused)
    ensures var before := Run(Off(nvs), events).log[..i];
            RefusalsSince(before) >= 6 && exists j: nat :: LatchAt(before, j)
  {
    RunAccounted(nvs, events);
    var log := Run(Off(nvs), events).log;
    JustifiedAt(log, i);
    LatchedNeedsSix(log[..i]);
    LatchedIffSixth(log[..i]);
  }

  /** A failed update is reported only after the broker connected and 400000 rounds of the main task passed,
      both in this boot and since the previous report. */
  lemma {:induction false} ReportIsEarned(nvs: Partition, events: seq<Event>, i: nat)
    requires var log := Run(Off(nvs), events).log; i < |log| && log[i] == Reported
    ensures var before := Run(Off(nvs), events).log[..i];
            BrokerSince(before) && TicksSince(before) >= 400000
  {
    RunAccounted(nvs, events);
    JustifiedAt(Run(Off(nvs), events).log, i);
  }

  // ---------------------------------------------------------------- reports against failures

  /** A stored report is still due. */
  function Due(nvs: Partition): nat {
    if nvs.blob.Some? && nvs.blob.value.otaModeFail then 1 else 0
  }

  /** Every report, and the one still due, stands for a failed update or for the one due at the start. */
  predicate Covered(s: State, start: nat) {
    Count(s.log, Reported) + Due(s.nvs) <= Count(s.log, UpdateEnded(false)) + start
  }

  lemma BootCovered(s: State, e: Event, start: nat)
    requires Covered(s, start) && e.Boot?
    ensures Covered(BootStep(s, e), start)
  {
    var t := if e.noFreePages then Emit(s, Erased(NoFreePages)) else s;
    CountEmit(s, Erased(NoFreePages), Reported);
    CountEmit(s, Erased(NoFreePages), UpdateEnded(false));
    CountEmit(t, Booted, Reported);
    CountEmit(t, Booted, UpdateEnded(false));
    assert BootStep(s, e).log == Emit(t, Booted).log;
  }

  /** A report clears what was due. */
  lemma ReportCovered(s: State, start: nat)
    requires Covered(s, start) && s.nvs.blob == Some(s.ram.flash)
    ensures Covered(ReportStep(s), start)
  {
    CountEmit(s, Reported, Reported);
    CountEmit(s, Reported, UpdateEnded(false));
  }

  lemma WipeCovered(s: State, cause: Cause, start: nat)
    requires Covered(s, start)
    ensures Covered(Wipe(s, cause), start)
  {
    var t := Emit(s, Erased(cause));
    CountEmit(s, Erased(cause), Reported);
    CountEmit(s, Erased(cause), UpdateEnded(false));
    CountEmit(t, Restarted, Reported);
    CountEmit(t, Restarted, UpdateEnded(false));
  }

  /** A round of the main task up to its erase. */
  lemma RoundCovered(s: State, start: nat)
    requires Covered(s, start) && s.nvs.blob == Some(s.ram.flash)
    ensures var t := Emit(s, Ticked).(ram := s.ram.(milSec := 0, taskCount := s.ram.taskCount + 1));
            Covered(ReportStep(t), start) && Covered(Emit(s, Ticked), start)
  {
    CountEmit(s, Ticked, Reported);
    CountEmit(s, Ticked, UpdateEnded(false));
    ReportCovered(Emit(s, Ticked).(ram := s.ram.(milSec := 0, taskCount := s.ram.taskCount + 1)), start);
  }

  lemma TickCovered(s: State, start: nat)
    requires Covered(s, start) && InStep(s) && !s.halted
    ensures Covered(TickStep(s), start)
  {
    var t := Emit(s, Ticked).(ram := s.ram.(milSec := 0, taskCount := s.ram.taskCount + 1));
    RoundCovered(s, start);
    WipeCovered(ReportStep(t), ConnectionRefused, start);
  }

  lemma UpdateCovered(s: State, ok: bool, version: string, start: nat)
    requires Covered(s, start) && s.nvs.blob == Some(s.ram.flash)
    ensures Covered(UpdateDoneStep(s, ok, version), start)
  {
    var t := Emit(s, UpdateEnded(ok));
    CountEmit(s, UpdateEnded(ok), Reported);
    CountEmit(s, UpdateEnded(ok), UpdateEnded(false));
    CountEmit(t, Restarted, Reported);
    CountEmit(t, Restarted, UpdateEnded(false));
    assert UpdateDoneStep(s, ok, version).log == Emit(t, Restarted).log;
  }

  /** Apart from the main task and the update task nothing makes a report due. */
  lemma OthersKeepDue(s: State, e: Event)
    requires InStep(s) && !s.halted && !e.Boot? && !e.Tick? && !e.UpdateDone?
    ensures Due(Handle(s, e).nvs) <= Due(s.nvs)
  {
  }

  lemma HandleCovered(s: State, e: Event, start: nat)
    requires Covered(s, start) && InStep(s) && !s.halted && !e.Boot?
    ensures Covered(Handle(s, e), start)
  {
    match e
    case Tick => TickCovered(s, start);
    case UpdateDone(ok, version) => UpdateCovered(s, ok, version, start);
    case _ =>
      CountKept(s, e, Reported);
      CountKept(s, e, UpdateEnded(false));
      OthersKeepDue(s, e);
  }

  /** In every run with any power cycles there are at most as many reports of a failed update as failed
      updates, plus one if a report was due at the start. */
  lemma {:induction false} ReportsNeverExceedFailures(nvs: Partition, events: seq<Event>)
    ensures Covered(Run(Off(nvs), events), Due(nvs))
  {
    if events != [] {
      var prefix, last := events[..|events| - 1], events[|events| - 1];
      ReportsNeverExceedFailures(nvs, prefix);
      RunInStep(nvs, prefix);
      var s := Run(Off(nvs), prefix);
      if last.Boot? { BootCovered(s, last, Due(nvs)); } else if !s.halted { HandleCovered(s, last, Due(nvs)); }
    }
  }

  // ---------------------------------------------------------------- how long a boot survives disconnects

  /** Events of the radio without an address. */
  predicate Searching(e: Event) { e.StaStart? || e.StaConnected? || e.StaDisconnected? || e.ApStaConnected? }

  function Disconnects(events: seq<Event>): nat {
    if events == [] then 0
    else Disconnects(events[..|events| - 1]) + if events[|events| - 1].StaDisconnected? then 1 else 0
  }

  /** How much a disconnect adds to the retry counter: one for each registered handler. */
  function Pace(ram: Ram): nat { (if ram.link.waits then 1 else 0) + if ram.link.listens then 1 else 0 }

  /** The counter at which a disconnect ends the boot: 2 for wifi_event_handler; for event_handler 10 before
      the erase, or, once it has recorded an address, 8 before the plain restart. */
  function Patience(ram: Ram): nat {
    if ram.link.waits then 2 else if ram.ip then 8 else 10
  }

  /** The counter that the last of `n` disconnects finds reaches the limit. */
  predicate Exhausted(ram: Ram, n: nat) { n > 0 && Pace(ram) > 0 && ram.retry + Pace(ram) * (n - 1) >= Patience(ram) }

  /** What a search has done to a running device so far. */
  predicate Counted(s: State, t: State, events: seq<Event>) {
    var n := Disconnects(events);
    && (t.halted <==> Exhausted(s.ram, n))
    && (!t.halted ==>
          && !t.ram.forced && t.ram.ip == s.ram.ip && t.ram.retry == s.ram.retry + Pace(s.ram) * n
          && t.ram.link.waits == s.ram.link.waits && t.ram.link.listens == s.ram.link.listens)
  }

  /** One disconnect: the boot ends, or the counter moves on. */
  lemma DisconnectOnce(s: State, reason: Reason)
    requires !s.halted && !s.ram.forced && (s.ram.link.waits || s.ram.retry <= Patience(s.ram))
    ensures var t := StaDisconnectedStep(s, reason);
            && (t.halted <==> Pace(s.ram) > 0 && s.ram.retry >= Patience(s.ram))
            && (!t.halted ==>
                  && !t.ram.forced && t.ram.ip == s.ram.ip && t.ram.retry == s.ram.retry + Pace(s.ram)
                  && t.ram.link.waits == s.ram.link.waits && t.ram.link.listens == s.ram.link.listens)
  {
  }

  lemma PaceOnce(pace: nat, n: nat)
    requires pace <= 2
    ensures pace * (n + 1) == pace * n + pace
  {
  }

  /** The measure of a search: the boot is over at the first disconnect that finds the limit reached. */
  lemma StillExhausted(ram: Ram, n: nat)
    requires Exhausted(ram, n)
    ensures Exhausted(ram, n + 1)
  {
    PaceOnce(Pace(ram), n - 1);
  }

  lemma DisconnectsOneMore(events: seq<Event>, e: Event)
    ensures Disconnects(events + [e]) == Disconnects(events) + if e.StaDisconnected? then 1 else 0
  {
    assert (events + [e])[..|events|] == events;
  }

  lemma SearchDisconnect(s: State, t: State, prefix: seq<Event>, e: Event)
    requires Counted(s, t, prefix) && e.StaDisconnected? && (s.ram.link.waits || s.ram.retry <= Patience(s.ram))
    requires !t.halted ==> t.ram.link.waits || t.ram.retry <= Patience(s.ram)
    ensures Counted(s, Next(t, e), prefix + [e])
  {
    var n := Disconnects(prefix);
    DisconnectsOneMore(prefix, e);
    PaceOnce(Pace(s.ram), n);
    if t.halted { StillExhausted(s.ram, n); } else { DisconnectOnce(t, e.reason); }
  }

  /** The other events of a search change nothing that counts. */
  lemma SearchOther(s: State, t: State, prefix: seq<Event>, e: Event)
    requires Counted(s, t, prefix) && Searching(e) && !e.StaDisconnected?
    ensures Counted(s, Next(t, e), prefix + [e])
  {
    DisconnectsOneMore(prefix, e);
  }

  /** While event_handler alone counts, the counter does not pass the limit unnoticed. */
  lemma StaysPatient(s: State, t: State, events: seq<Event>)
    requires Counted(s, t, events) && !t.halted && !s.ram.link.waits && s.ram.retry <= Patience(s.ram)
    ensures t.ram.retry <= Patience(s.ram)
  {
    if Disconnects(events) > 0 { PaceOnce(Pace(s.ram), Disconnects(events) - 1); }
  }

  /** From a running device with retry counter r, whichever handlers are registered: a search without an
      address ends the boot exactly when the r + p(n - 1) that its n-th disconnect finds reaches the limit,
      where p handlers count. With event_handler alone that is after 11 - r disconnects, or 9 - r once it
      has recorded an address; with wifi_event_handler alone after 3 - r. */
  lemma {:induction false} SearchEndsBoot(s: State, events: seq<Event>)
    requires !s.halted && !s.ram.forced && (s.ram.link.waits || s.ram.retry <= Patience(s.ram))
    requires forall e :: e in events ==> Searching(e)
    ensures Counted(s, Run(s, events), events)
    ensures Run(s, events).halted <==> Exhausted(s.ram, Disconnects(events))
  {
    if events != [] {
      var prefix, last := events[..|events| - 1], events[|events| - 1];
      assert last in events && forall e :: e in prefix ==> e in events;
      SearchEndsBoot(s, prefix);
      assert events == prefix + [last];
      var t := Run(s, prefix);
      if !last.StaDisconnected? {
        SearchOther(s, t, prefix, last);
      } else {
        if !t.halted && !s.ram.link.waits { StaysPatient(s, t, prefix); }
        SearchDisconnect(s, t, prefix, last);
      }
    }
  }
}
