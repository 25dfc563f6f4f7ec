/** The shared record `flash_info` under interleaving: tasks assign a field in one step and write the whole
    record in a later one, while others erase the partition or restart the device at any point between. */
module FlashRace {
  import opened Base
  import opened Flash

  /** Every firmware message starts an update task of its own; the others exist once. */
  datatype Task = Updater(id: nat) | MainTask | SoftAp | Provisioner

  /** The assignments the tasks make before their write_flash. */
  datatype Assignment = SetMode | SetMac(mac: string) | SetVersion(version: string) | SetFail(fail: bool)

  function Apply(info: FlashInfo, a: Assignment): FlashInfo {
    match a
    case SetMode => info.(bootingMode := NORMAL_MODE)
    case SetMac(mac) => info.(mac := mac)
    case SetVersion(version) => info.(version := version)
    case SetFail(fail) => info.(otaModeFail := fail)
  }

  function ApplyAll(info: FlashInfo, log: seq<Assignment>): FlashInfo {
    if log == [] then info else Apply(ApplyAll(info, log[..|log| - 1]), log[|log| - 1])
  }

  /** Which task makes which assignment. */
  predicate Owns(t: Task, a: Assignment) {
    match a
    case SetMode => t == Provisioner
    case SetMac(_) => t == SoftAp
    case SetVersion(_) => t.Updater?
    case SetFail(fail) => if fail then t.Updater? else t == MainTask
  }

  /** `pending`: the tasks between their assignment and their write, with the position of the assignment in
      `log`, or nothing when the record was read again in between, which drops the assignment. `log`: the
      assignments since the record was read last, `start`, what was read. `durable`: how many of them were made
      before the last write. */
  datatype Shared = Shared(ram: FlashInfo, blob: Option<FlashInfo>, ready: bool, running: bool,
                           start: FlashInfo, log: seq<Assignment>, durable: nat, pending: map<Task, Option<nat>>)

  datatype Move =
    | Assign(task: Task, assignment: Assignment)
    | Write(task: Task)
    | Reload
    | EraseAll
    | Halt
    | PowerOn(noFreePages: bool)

  /** The record is read again: what was assigned and not written is gone. */
  function Reread(s: Shared, info: FlashInfo): Shared {
    s.(ram := info, blob := Some(info), start := info, log := [], durable := 0,
       pending := map t | t in s.pending :: None)
  }

  /** One step of one task. A step whose task is elsewhere, or of a halted device, changes nothing. */
  function Step(s: Shared, m: Move): Shared {
    match m
    case PowerOn(noFreePages) =>
      var blob := if noFreePages then None else s.blob;
      var info := if blob.Some? then blob.value else FirstBoot(ZERO);
      Shared(info, Some(info), true, true, info, [], 0, map[])
    case Assign(t, a) =>
      if !s.running || t in s.pending || !Owns(t, a) then s
      else s.(ram := Apply(s.ram, a), log := s.log + [a], pending := s.pending[t := Some(|s.log|)])
    case Write(t) =>
      if !s.running || t !in s.pending then s
      else if !s.ready then s.(pending := s.pending - {t})
      else s.(blob := Some(s.ram), durable := |s.log|, pending := s.pending - {t})
    case Reload =>
      if s.running && s.ready then Reread(s, if s.blob.Some? then s.blob.value else FirstBoot(s.ram)) else s
    case EraseAll => if s.running then s.(blob := None, ready := false) else s
    case Halt => s.(running := false)
  }

  /** The store holds what the shared state says: the record in memory only while the device runs. */
  ghost predicate Holds(store: Store, s: Shared)
    reads store
  {
    store.Valid() && store.nvs.blob == s.blob && (s.running ==> store.info == s.ram && store.ready == s.ready)
  }

  /** The task is where it can take this step. */
  predicate Enabled(s: Shared, m: Move) {
    match m
    case PowerOn(_) => true
    case Assign(t, a) => s.running && t !in s.pending && Owns(t, a)
    case Write(t) => s.running && t in s.pending
    case Reload => s.running
    case EraseAll => s.running
    case Halt => s.running
  }

  /** The steps as the firmware takes them on `flash_info` and the partition. */
  method Carry(store: Store, m: Move, ghost s: Shared)
    requires Holds(store, s) && Enabled(s, m)
    modifies store
    ensures Holds(store, Step(s, m))
  {
    match m {
      case PowerOn(noFreePages) =>
        store.info, store.factory, store.ready := ZERO, FACTORY, false;
        store.Init(noFreePages);
      case Assign(_, a) => store.info := Apply(store.info, a);
      case Write(_) => store.WriteFlash();
      case Reload => store.ReadFlash();
      case EraseAll => store.Erase();
      case Halt =>
    }
  }

  function Run(s: Shared, moves: seq<Move>): Shared {
    if moves == [] then s else Step(Run(s, moves[..|moves| - 1]), moves[|moves| - 1])
  }

  /** A device that is off. */
  function Off(blob: Option<FlashInfo>): Shared { Shared(ZERO, blob, false, false, ZERO, [], 0, map[]) }

  lemma ApplyOneMore(info: FlashInfo, log: seq<Assignment>, a: Assignment)
    ensures ApplyAll(info, log + [a]) == Apply(ApplyAll(info, log), a)
  {
    assert (log + [a])[..|log|] == log;
  }

  /** Some task made assignment `i` and has not written yet. */
  ghost predicate PendingAt(pending: map<Task, Option<nat>>, i: nat) {
    exists t :: t in pending && pending[t] == Some(i)
  }

  /** Memory holds all assignments of the boot, the partition those up to the last write, and every
      assignment behind that belongs to a task that has not written yet. */
  ghost predicate WriteBehind(s: Shared) {
    && s.durable <= |s.log|
    && (forall t :: t in s.pending && s.pending[t].Some? ==>
          s.pending[t].value < |s.log| && Owns(t, s.log[s.pending[t].value]))
    && (s.running ==> s.ram == ApplyAll(s.start, s.log))
    && (s.ready ==> s.blob == Some(ApplyAll(s.start, s.log[..s.durable])))
    && (s.running && !s.ready ==> s.blob == None)
    && (s.ready ==> forall i :: s.durable <= i < |s.log| ==> PendingAt(s.pending, i))
  }

  lemma AssignKeeps(s: Shared, t: Task, a: Assignment)
    requires WriteBehind(s)
    ensures WriteBehind(Step(s, Assign(t, a)))
  {
    if s.running && t !in s.pending && Owns(t, a) {
      var n := Step(s, Assign(t, a));
      ApplyOneMore(s.start, s.log, a);
      assert n.log[..s.durable] == s.log[..s.durable];
      forall i | n.ready && n.durable <= i < |n.log|
        ensures PendingAt(n.pending, i)
      {
        if i == |s.log| {
          assert t in n.pending && n.pending[t] == Some(i);
        } else {
          assert PendingAt(s.pending, i);
          var u :| u in s.pending && s.pending[u] == Some(i);
          assert u in n.pending && n.pending[u] == Some(i);
        }
      }
    }
  }

  lemma WriteKeeps(s: Shared, t: Task)
    requires WriteBehind(s)
    ensures WriteBehind(Step(s, Write(t)))
  {
    assert s.log[..|s.log|] == s.log;
  }

  lemma StepKeeps(s: Shared, m: Move)
    requires WriteBehind(s)
    ensures WriteBehind(Step(s, m))
  {
    match m
    case Assign(t, a) => AssignKeeps(s, t, a);
    case Write(t) => WriteKeeps(s, t);
    case _ =>
  }

  /** The discipline holds after every interleaving, with erases, restarts and power cycles anywhere. */
  lemma {:induction false} RunKeeps(blob: Option<FlashInfo>, moves: seq<Move>)
    ensures WriteBehind(Run(Off(blob), moves))
  {
    if moves != [] {
      RunKeeps(blob, moves[..|moves| - 1]);
      StepKeeps(Run(Off(blob), moves[..|moves| - 1]), moves[|moves| - 1]);
    }
  }

  // ---------------------------------------------------------------- what follows for memory and partition

  /** The field an assignment sets has this assignment's value. */
  predicate Shows(info: FlashInfo, a: Assignment) {
    match a
    case SetMode => info.bootingMode == 0x00
    case SetMac(mac) => info.mac == mac
    case SetVersion(version) => info.version == version
    case SetFail(fail) => info.otaModeFail == fail
  }

  predicate SameField(a: Assignment, b: Assignment) {
    || (a.SetMode? && b.SetMode?) || (a.SetMac? && b.SetMac?)
    || (a.SetVersion? && b.SetVersion?) || (a.SetFail? && b.SetFail?)
  }

  /** After every interleaving the two copies differ only while some task is between its assignment and its
      write: with no task there, they are equal. */
  lemma {:induction false} EqualWhenIdle(blob: Option<FlashInfo>, moves: seq<Move>)
    ensures var s := Run(Off(blob), moves);
            s.running && s.ready && s.pending == map[] ==> s.blob == Some(s.ram)
  {
    RunKeeps(blob, moves);
    var s := Run(Off(blob), moves);
    if s.running && s.ready && s.pending == map[] {
      assert !PendingAt(s.pending, s.durable);
      assert s.log[..|s.log|] == s.log;
    }
  }

  /** A field keeps its value over assignments to other fields. */
  lemma {:induction false} LastShows(info: FlashInfo, log: seq<Assignment>, i: nat)
    requires i < |log| && forall j :: i < j < |log| ==> !SameField(log[j], log[i])
    ensures Shows(ApplyAll(info, log), log[i])
  {
    if i < |log| - 1 {
      LastShows(info, log[..|log| - 1], i);
    }
  }

  /** No update is lost but by reading the record again: if that did not happen since the assignment, then once
      the writer is done, its assignment is in the partition, unless a later one to the same field replaced
      it, and it stays there over restarts. */
  lemma WriteIsDurable(blob: Option<FlashInfo>, moves: seq<Move>, t: Task)
    requires var s := Run(Off(blob), moves); s.running && s.ready && t in s.pending && s.pending[t].Some?
    ensures var s := Run(Off(blob), moves);
            var n := Step(s, Write(t));
            var i := s.pending[t].value;
            && n.blob == Some(s.ram)
            && i < |s.log| && Owns(t, s.log[i])
            && ((forall j :: i < j < |s.log| ==> !SameField(s.log[j], s.log[i])) ==>
                  Shows(n.blob.value, s.log[i]) && Shows(Step(Step(n, Halt), PowerOn(false)).ram, s.log[i]))
  {
    RunKeeps(blob, moves);
    var s := Run(Off(blob), moves);
    var i := s.pending[t].value;
    if forall j :: i < j < |s.log| ==> !SameField(s.log[j], s.log[i]) {
      LastShows(s.start, s.log, i);
    }
  }

  /** Read again between the assignment and the write, the record is what it was: the write stores the old
      values once more. */
  lemma ReloadDropsUpdate(blob: Option<FlashInfo>, moves: seq<Move>, t: Task, a: Assignment)
    requires var s := Run(Off(blob), moves); s.running && s.ready && t !in s.pending && Owns(t, a)
    ensures var s := Run(Off(blob), moves);
            var r := Step(Step(Step(s, Assign(t, a)), Reload), Write(t));
            s.blob.Some? && r.ram == s.blob.value && r.blob == s.blob
  {
    RunKeeps(blob, moves);
  }

  /** Some update task is between its assignment and its write. */
  predicate UpdaterIn(tasks: set<Task>) { exists t :: t in tasks && t.Updater? }

  /** A field in which the two copies differ was assigned by a task that has not written yet. */
  lemma {:induction false} DifferenceIsPending(blob: Option<FlashInfo>, moves: seq<Move>)
    ensures var s := Run(Off(blob), moves);
            s.running && s.ready ==>
              && s.blob.Some?
              && (s.blob.value.bootingMode != s.ram.bootingMode ==> Provisioner in s.pending)
              && (s.blob.value.mac != s.ram.mac ==> SoftAp in s.pending)
              && (s.blob.value.version != s.ram.version ==> UpdaterIn(s.pending.Keys))
              && (s.blob.value.otaModeFail != s.ram.otaModeFail ==> UpdaterIn(s.pending.Keys) || MainTask in s.pending)
              && s.blob.value.igain == s.ram.igain && s.blob.value.vgain == s.ram.vgain
              && s.blob.value.sgain == s.ram.sgain
  {
    RunKeeps(blob, moves);
    var s := Run(Off(blob), moves);
    if s.running && s.ready {
      assert s.log[..|s.log|] == s.log;
      DifferenceOver(s.start, s.log, s.durable, |s.log|, s.pending.Keys, s);
    }
  }

  lemma {:induction false} DifferenceOver(info: FlashInfo, log: seq<Assignment>, lo: nat, hi: nat,
                                           owners: set<Task>, s: Shared)
    requires WriteBehind(s) && s.running && s.ready && s.log == log && owners == s.pending.Keys
    requires s.durable == lo <= hi <= |log|
    ensures var a, b := ApplyAll(info, log[..lo]), ApplyAll(info, log[..hi]);
            && (a.bootingMode != b.bootingMode ==> Provisioner in owners)
            && (a.mac != b.mac ==> SoftAp in owners)
            && (a.version != b.version ==> UpdaterIn(owners))
            && (a.otaModeFail != b.otaModeFail ==> UpdaterIn(owners) || MainTask in owners)
            && a.igain == b.igain && a.vgain == b.vgain && a.sgain == b.sgain
    decreases hi
  {
    if lo < hi {
      DifferenceOver(info, log, lo, hi - 1, owners, s);
      assert log[..hi][..hi - 1] == log[..hi - 1];
      assert PendingAt(s.pending, hi - 1);
      var t :| t in s.pending && s.pending[t] == Some(hi - 1);
      assert Owns(t, log[hi - 1]) && t in owners;
      assert ApplyAll(info, log[..hi]) == Apply(ApplyAll(info, log[..hi - 1]), log[hi - 1]);
    }
  }

  /** From a restart on, until the next boot, nothing is assigned, written, read or erased. */
  lemma {:induction false} NothingUntilBoot(s: Shared, moves: seq<Move>)
    requires forall m :: m in moves ==> !m.PowerOn?
    ensures Run(Step(s, Halt), moves) == s.(running := false)
  {
    if moves != [] {
      var prefix, last := moves[..|moves| - 1], moves[|moves| - 1];
      assert last in moves && forall m :: m in prefix ==> m in moves;
      NothingUntilBoot(s, prefix);
    }
  }

  /** From an erase on, until the next boot, no interleaving brings the record back; the next boot creates
      it in factory mode, with memory and partition equal and the gains of the zeroed memory. */
  lemma {:induction false} ErasedUntilBoot(s: Shared, moves: seq<Move>)
    requires WriteBehind(s) && s.running
    requires forall m :: m in moves ==> !m.PowerOn?
    ensures var n := Run(Step(s, EraseAll), moves);
            && n.blob == None && !n.ready
            && var b := Step(n, PowerOn(false));
               b.ram == FirstBoot(ZERO) && b.blob == Some(b.ram) && b.ram.bootingMode == FACTORY_MODE
  {
    if moves != [] {
      var prefix, last := moves[..|moves| - 1], moves[|moves| - 1];
      assert last in moves && forall m :: m in prefix ==> m in moves;
      ErasedUntilBoot(s, prefix);
    }
  }
}
