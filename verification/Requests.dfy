/** The request builders of the SDK: sequence numbers, and batched against single notifications. */
module Requests {
  import opened Base
  import opened Json
  import opened Flash
  import Topics

  const MAX_SEQUENCE := 10000000
  const ONE_UNIT := 5

  datatype Entry = Entry(resourceUri: string, stringValue: string, time: string)
  datatype Publication = Publication(topic: string, body: Json)

  /** What damdaSetDeviceInfo stores. The firmware version is an argument of the builders that send it. */
  datatype Identity = Identity(manufacturer: string, model: string, serial: string, deviceType: string) {
    function Id(): string { Topics.DeviceId(manufacturer, model, serial) }
    function Topic(operation: string): string { Topics.PublishTopic(deviceType, Id(), operation) }
  }

  // ---------------------------------------------------------------- message trees

  function EntryTree(e: Entry): Json {
    Obj([("n", Str(e.resourceUri)), ("sv", Str(e.stringValue)), ("ti", Str(e.time))])
  }

  function EntryTrees(entries: seq<Entry>): (trees: seq<Json>)
    ensures |trees| == |entries|
  {
    seq(|entries|, i requires 0 <= i < |entries| => EntryTree(entries[i]))
  }

  function InfoTree(n: string, sv: string): Json { Obj([("n", Str(n)), ("sv", Str(sv))]) }

  function IdentityTrees(d: Identity): seq<Json> {
    [InfoTree("/3/0/0", d.manufacturer), InfoTree("/3/0/1", d.model), InfoTree("/3/0/2", d.serial)]
  }

  function InfoTrees(d: Identity, version: string): seq<Json> {
    IdentityTrees(d) + [InfoTree("/3/0/3", version), InfoTree("/3/0/997", "1.0"),
                        InfoTree("/3/0/998", "1.0"), InfoTree("/3/0/999", "1.0")]
  }

  function Message(sid: string, number: nat, did: string, operation: string, entries: Json): Json {
    Obj([("sid", Str(sid)), ("seq", Str(Decimal(number))), ("did", Str(did)),
         ("msg", Obj([("o", Str(operation)), ("e", entries)]))])
  }

  function TimeSyncMessage(number: nat, did: string): Json {
    Obj([("sid", Str("0")), ("seq", Str(Decimal(number))), ("did", Str(did)), ("msg", Obj([("o", Str("tisyn"))]))])
  }

  function NotifyPublication(d: Identity, sid: string, number: nat, entries: seq<Entry>): Publication {
    Publication(d.Topic("notify"), Message(sid, number, d.Id(), "n", Arr(EntryTrees(entries))))
  }

  // ---------------------------------------------------------------- batches

  /** Full units from the front, then one batch with what is left, which may be nothing. */
  function Batches(entries: seq<Entry>): (batches: seq<seq<Entry>>)
    ensures |batches| >= 1
  {
    if |entries| < ONE_UNIT then [entries] else [entries[..ONE_UNIT]] + Batches(entries[ONE_UNIT..])
  }

  function Flatten(batches: seq<seq<Entry>>): seq<Entry> {
    if batches == [] then [] else batches[0] + Flatten(batches[1..])
  }

  /** Batch `b` is the slice from 5b on: five entries, or the remainder in the last batch. */
  lemma {:induction false} BatchAt(entries: seq<Entry>, b: nat)
    ensures |Batches(entries)| == |entries| / 5 + 1
    ensures b < |entries| / 5 ==> Batches(entries)[b] == entries[5 * b..5 * b + 5]
    ensures b == |entries| / 5 ==>
              Batches(entries)[b] == entries[5 * b..] && |Batches(entries)[b]| == |entries| % 5
    decreases |entries|
  {
    if |entries| < ONE_UNIT {
      assert entries[0..] == entries;
    } else {
      var rest := entries[ONE_UNIT..];
      BatchAt(rest, if b == 0 then 0 else b - 1);
      if 0 < b < |rest| / ONE_UNIT + 1 { assert rest[5 * (b - 1)..5 * (b - 1) + 5] == entries[5 * b..5 * b + 5]; }
      if b == |entries| / ONE_UNIT { assert rest[5 * (b - 1)..] == entries[5 * b..]; }
    }
  }

  /** The batches lose, repeat and reorder nothing; a prefix of the batches is a prefix of the entries. */
  lemma {:induction false} BatchesFlatten(entries: seq<Entry>, k: nat)
    requires k <= |Batches(entries)|
    ensures k < |Batches(entries)| ==> 5 * k <= |entries|
    ensures Flatten(Batches(entries)[..k]) == if k == |Batches(entries)| then entries else entries[..5 * k]
    decreases |entries|
  {
    var batches := Batches(entries);
    BatchAt(entries, 0);
    if k > 0 {
      if |entries| < ONE_UNIT {
        assert batches[..k] == [entries];
        assert Flatten([entries]) == entries + Flatten([]);
      } else {
        var first, rest := entries[..ONE_UNIT], entries[ONE_UNIT..];
        BatchesFlatten(rest, k - 1);
        assert batches[..k] == [first] + Batches(rest)[..k - 1];
        assert ([first] + Batches(rest)[..k - 1])[1..] == Batches(rest)[..k - 1];
        assert entries == first + rest;
      }
    }
  }

  // ---------------------------------------------------------------- decoding what was built

  lemma NamesDiffer()
    ensures !SameName("n", "sv") && !SameName("n", "ti") && !SameName("sv", "ti")
    ensures !SameName("sid", "seq") && !SameName("sid", "msg") && !SameName("seq", "msg") && !SameName("did", "msg")
    ensures !SameName("sid", "did") && !SameName("seq", "did") && !SameName("o", "e")
  {
    assert Lower("sv"[0]) != Lower("ti"[0]);
    assert Lower("sid"[1]) != Lower("seq"[1]);
    assert Lower("sid"[0]) != Lower("msg"[0]);
    assert Lower("seq"[0]) != Lower("msg"[0]);
    assert Lower("did"[0]) != Lower("msg"[0]);
    assert Lower("sid"[0]) != Lower("did"[0]) && Lower("seq"[0]) != Lower("did"[0]);
    assert Lower("o"[0]) != Lower("e"[0]);
  }

  /** The id of the sender, which only the server reads. */
  function DeviceOf(tree: Json): Option<string> { GetString(GetItem(Some(tree), "did")) }

  lemma FirstNamedSkip(members: seq<(string, Json)>, name: string)
    requires members != [] && !SameName(members[0].0, name)
    ensures FirstNamed(members, name) == FirstNamed(members[1..], name)
  {
  }

  lemma MessageParts(sid: string, number: nat, did: string, operation: string, entries: Json)
    ensures var m := Message(sid, number, did, operation, entries);
            && Sid(m) == Some(sid) && Operation(m) == Some(operation) && EntryArray(m) == Some(entries)
            && Seq(m) == number && DeviceOf(m) == Some(did)
  {
    NamesDiffer();
    AtoiOfDecimal(number);
    var m := Message(sid, number, did, operation, entries);
    FirstNamedSkip(m.members, "seq");
    FirstNamedSkip(m.members, "did");
    FirstNamedSkip(m.members[1..], "did");
    FirstNamedSkip(m.members, "msg");
    FirstNamedSkip(m.members[1..], "msg");
    FirstNamedSkip(m.members[2..], "msg");
    var inner := Obj([("o", Str(operation)), ("e", entries)]);
    assert Msg(m) == Some(inner);
    FirstNamedSkip(inner.members, "e");
    assert inner.members[1..][0] == ("e", entries);
  }

  /** The entries the getters read out of a message, one by one. */
  function Decode(tree: Json): seq<(Option<string>, Option<string>, Option<string>)> {
    seq(NArraySize(tree), i requires 0 <= i < NArraySize(tree) =>
      (ResourceUri(tree, i), StringValue(tree, i), Time(tree, i)))
  }

  function Encoded(entries: seq<Entry>): seq<(Option<string>, Option<string>, Option<string>)> {
    seq(|entries|, i requires 0 <= i < |entries| =>
      (Some(entries[i].resourceUri), Some(entries[i].stringValue), Some(entries[i].time)))
  }

  lemma EntryTreeParts(e: Entry)
    ensures var t := Some(EntryTree(e));
            GetString(GetItem(t, "n")) == Some(e.resourceUri) && GetString(GetItem(t, "sv")) == Some(e.stringValue)
            && GetString(GetItem(t, "ti")) == Some(e.time)
  {
    NamesDiffer();
    var members := EntryTree(e).members;
    FirstNamedSkip(members, "sv");
    FirstNamedSkip(members, "ti");
    FirstNamedSkip(members[1..], "ti");
  }

  /** The getters read back exactly the entries a notification was built from. */
  lemma DecodeOfNotification(sid: string, number: nat, did: string, entries: seq<Entry>)
    ensures Decode(Message(sid, number, did, "n", Arr(EntryTrees(entries)))) == Encoded(entries)
  {
    var m := Message(sid, number, did, "n", Arr(EntryTrees(entries)));
    MessageParts(sid, number, did, "n", Arr(EntryTrees(entries)));
    assert Children(EntryArray(m)) == EntryTrees(entries);
    forall i | 0 <= i < |entries|
      ensures Decode(m)[i] == Encoded(entries)[i]
    {
      EntryTreeParts(entries[i]);
    }
  }

  // ---------------------------------------------------------------- the builders

  /** A call of one of the seven builders. `printed`: cJSON_Print found memory. `prints`: how many prints
      succeed before one fails, if one does. `version`: what `firmware_version` points to at that time. */
  datatype Call =
    | Register(version: string, printed: bool)
    | Deregister(printed: bool)
    | Delete(printed: bool)
    | Update(version: string, idKnown: bool, clientKnown: bool, printed: bool)
    | TimeSync(printed: bool)
    | Notify(sid: string, entries: seq<Entry>, prints: nat)
    | NotifyAll(sid: string, entries: seq<Entry>, printed: bool)

  function Min(a: nat, b: nat): nat { if a < b then a else b }

  /** How many sequence numbers a call takes. A number is taken before the print can fail. */
  function Draws(call: Call): nat {
    match call
    case Update(_, idKnown, _, _) => if idKnown then 1 else 0
    case Notify(_, entries, prints) => Min(|Batches(entries)|, prints + 1)
    case _ => 1
  }

  /** Which of the numbers a call takes reach the broker, counted from 1. */
  function Offsets(call: Call): seq<nat> {
    match call
    case Update(_, idKnown, clientKnown, printed) => if idKnown && clientKnown && printed then [1] else []
    case Notify(_, entries, prints) => seq(Min(|Batches(entries)|, prints), b => b + 1)
    case Register(_, printed) => if printed then [1] else []
    case Deregister(printed) => if printed then [1] else []
    case Delete(printed) => if printed then [1] else []
    case TimeSync(printed) => if printed then [1] else []
    case NotifyAll(_, _, printed) => if printed then [1] else []
  }

  /** The number taken by the k-th draw after `number`. */
  function After(number: nat, k: nat): nat { (number + k) % MAX_SEQUENCE }

  lemma AfterAfter(number: nat, j: nat, k: nat)
    ensures After(After(number, j), k) == After(number, j + k)
  {
    var q := (number + j) / MAX_SEQUENCE;
    assert number + j == q * MAX_SEQUENCE + After(number, j);
    var r := (After(number, j) + k) / MAX_SEQUENCE;
    assert After(number, j) + k == r * MAX_SEQUENCE + After(After(number, j), k);
    assert number + (j + k) == (q + r) * MAX_SEQUENCE + After(After(number, j), k);
  }

  lemma AfterBase(base: nat, k: nat)
    ensures After(base % MAX_SEQUENCE, k) == (base + k) % MAX_SEQUENCE
  {
    AfterAfter(0, base, k);
  }

  /** The message of a call that sends at most one, with the number it carries. */
  function SinglePublication(d: Identity, call: Call, number: nat): Publication
    requires !call.Notify?
  {
    match call
    case Register(version, _) =>
      Publication(d.Topic("register"), Message("0", number, d.Id(), "rg", Arr(InfoTrees(d, version))))
    case Deregister(_) =>
      Publication(d.Topic("unregister"), Message("0", number, d.Id(), "urg", Arr(IdentityTrees(d))))
    case Delete(_) =>
      Publication(d.Topic("deregister"), Message("0", number, d.Id(), "drg", Arr(IdentityTrees(d))))
    case Update(version, _, _, _) =>
      Publication(d.Topic("update"), Message("3", number, d.Id(), "up", Arr(InfoTrees(d, version))))
    case TimeSync(_) =>
      Publication(d.Topic("timesync"), TimeSyncMessage(number, d.Id()))
    case NotifyAll(sid, entries, _) =>
      NotifyPublication(d, sid, number, entries)
  }

  /** The publications of the first `n` batches, numbered behind `number`. */
  function BatchPublications(d: Identity, sid: string, batches: seq<seq<Entry>>, n: nat, number: nat):
    (p: seq<Publication>)
    requires n <= |batches|
    ensures |p| == n
  {
    seq(n, b requires 0 <= b < n => NotifyPublication(d, sid, After(number, b + 1), batches[b]))
  }

  /** Everything a call publishes when the counter stands at `number`. */
  function Published(d: Identity, call: Call, number: nat): (p: seq<Publication>)
    ensures |p| == |Offsets(call)|
  {
    if call.Notify? then
      var batches := Batches(call.entries);
      BatchPublications(d, call.sid, batches, Min(|batches|, call.prints), number)
    else if Offsets(call) == [] then []
    else [SinglePublication(d, call, After(number, 1))]
  }

  lemma BatchPublicationsSnoc(d: Identity, sid: string, batches: seq<seq<Entry>>, n: nat, number: nat)
    requires n < |batches|
    ensures BatchPublications(d, sid, batches, n + 1, number) ==
            BatchPublications(d, sid, batches, n, number)
            + [NotifyPublication(d, sid, After(number, n + 1), batches[n])]
  {
  }

  class Requester {
    const device: Identity
    const flash: Store
    var sequence: nat
    var outbox: seq<Publication>

    constructor (device: Identity, flash: Store)
      ensures this.device == device && this.flash == flash && sequence == 0 && outbox == []
    {
      this.device, this.flash, sequence, outbox := device, flash, 0, [];
    }

    ghost predicate Valid()
      reads this
    {
      sequence < MAX_SEQUENCE
    }

    /** What every builder leaves behind. */
    twostate predicate Did(call: Call)
      reads this
    {
      && sequence == After(old(sequence), Draws(call))
      && outbox == old(outbox) + Published(device, call, old(sequence))
    }

    /** `sequence = (sequence + 1) % MAX_SEQUENCE`. */
    method NextNumber()
      modifies `sequence
      ensures sequence == After(old(sequence), 1)
    {
      sequence := (sequence + 1) % MAX_SEQUENCE;
    }

    method Publish(topic: string, body: Json)
      modifies `outbox
      ensures outbox == old(outbox) + [Publication(topic, body)]
    {
      outbox := outbox + [Publication(topic, body)];
    }

    method RegisterDevice(printed: bool) returns (code: int)
      requires Valid()
      modifies this
      ensures Valid() && Did(Register(flash.info.version, printed)) && code == if printed then 1 else -3
    {
      NextNumber();
      if !printed {
        return -3;
      }
      var entries := Arr(InfoTrees(device, flash.info.version));
      Publish(device.Topic("register"), Message("0", sequence, device.Id(), "rg", entries));
      return 1;
    }

    method DeregisterDevice(printed: bool) returns (code: int)
      requires Valid()
      modifies this
      ensures Valid() && Did(Deregister(printed)) && code == if printed then 1 else -3
    {
      NextNumber();
      if !printed {
        return -3;
      }
      Publish(device.Topic("unregister"), Message("0", sequence, device.Id(), "urg", Arr(IdentityTrees(device))));
      return 1;
    }

    method DeleteDevice(printed: bool) returns (code: int)
      requires Valid()
      modifies this
      ensures Valid() && Did(Delete(printed)) && code == if printed then 1 else -3
    {
      NextNumber();
      if !printed {
        return -3;
      }
      Publish(device.Topic("deregister"), Message("0", sequence, device.Id(), "drg", Arr(IdentityTrees(device))));
      return 1;
    }

    method UpdateDeviceInfo(idKnown: bool, clientKnown: bool, printed: bool) returns (code: int)
      requires Valid()
      modifies this
      ensures Valid() && Did(Update(flash.info.version, idKnown, clientKnown, printed))
      ensures code == if !idKnown then -1 else if !printed then -3 else if !clientKnown then -2 else 1
    {
      if !idKnown {
        return -1;
      }
      NextNumber();
      if !printed {
        return -3;
      }
      if !clientKnown {
        return -2;
      }
      var entries := Arr(InfoTrees(device, flash.info.version));
      Publish(device.Topic("update"), Message("3", sequence, device.Id(), "up", entries));
      return 1;
    }

    method ServerTimeInfo(printed: bool) returns (code: int)
      requires Valid()
      modifies this
      ensures Valid() && Did(TimeSync(printed)) && code == if printed then 1 else -3
    {
      NextNumber();
      if !printed {
        return -3;
      }
      Publish(device.Topic("timesync"), TimeSyncMessage(sequence, device.Id()));
      return 1;
    }

    /** The loop that grows the entry array by `count` parameters from index `from` on. */
    method BuildEntries(params: seq<Entry>, from: nat, count: nat) returns (trees: seq<Json>, j: nat)
      requires from + count <= |params|
      ensures trees == EntryTrees(params[from..from + count]) && j == from + count
    {
      trees, j := [], from;
      var i: nat := 0;
      while i < count
        invariant i <= count && j == from + i && trees == EntryTrees(params[from..from + i])
      {
        assert params[from..from + i + 1] == params[from..from + i] + [params[j]];
        trees := trees + [EntryTree(params[j])];
        j := j + 1;
        i := i + 1;
      }
    }

    /** damda_Notify_DeviceStatuArr: everything in one message. */
    method NotifyDeviceStatuArr(sid: string, params: seq<Entry>, arrayCount: nat, printed: bool) returns (code: int)
      requires Valid() && arrayCount <= |params|
      modifies this
      ensures Valid() && Did(NotifyAll(sid, params[..arrayCount], printed)) && code == if printed then 1 else -3
    {
      NextNumber();
      var trees, j := BuildEntries(params, 0, arrayCount);
      assert params[..arrayCount] == params[0..arrayCount];
      if !printed {
        return -3;
      }
      Publish(device.Topic("notify"), Message(sid, sequence, device.Id(), "n", Arr(trees)));
      return 1;
    }

    /** damda_Notify_DeviceStatus: one message per unit of five, and one for the remainder. */
    method NotifyDeviceStatus(sid: string, params: seq<Entry>, arrayCount: nat, prints: nat) returns (code: int)
      requires Valid() && arrayCount <= |params| && arrayCount <= 50
      modifies this
      ensures Valid() && Did(Notify(sid, params[..arrayCount], prints))
      ensures code == if prints < arrayCount / 5 + 1 then -3 else 1
    {
      ghost var entries := params[..arrayCount];
      ghost var batches := Batches(entries);
      BatchAt(entries, 0);
      var iterCount: int, remainder := arrayCount / ONE_UNIT, arrayCount % ONE_UNIT;
      var j: nat := 0;
      var sent: nat := 0;
      while iterCount >= 0
        invariant -1 <= iterCount && sent + iterCount == arrayCount / ONE_UNIT && sent <= prints
        invariant iterCount >= 0 ==> j == 5 * sent
        invariant sequence == After(old(sequence), sent)
        invariant outbox == old(outbox) + BatchPublications(device, sid, batches, sent, old(sequence))
        decreases iterCount
      {
        NextNumber();
        AfterAfter(old(sequence), sent, 1);
        var maxIter := if iterCount > 0 then ONE_UNIT else remainder;
        var trees;
        BatchAt(entries, sent);
        assert params[j..j + maxIter] == batches[sent];
        trees, j := BuildEntries(params, j, maxIter);
        if sent == prints {
          return -3;
        }
        Publish(device.Topic("notify"), Message(sid, sequence, device.Id(), "n", Arr(trees)));
        BatchPublicationsSnoc(device, sid, batches, sent, old(sequence));
        sent := sent + 1;
        iterCount := iterCount - 1;
      }
      return 1;
    }
  }

  // ---------------------------------------------------------------- whole runs

  /** Everything a run of calls publishes, the counter standing at `number` before it. */
  function PublishedInRun(d: Identity, calls: seq<Call>, number: nat): seq<Publication> {
    if calls == [] then []
    else Published(d, calls[0], number) + PublishedInRun(d, calls[1..], After(number, Draws(calls[0])))
  }

  lemma PublishedUnfold(d: Identity, calls: seq<Call>, number: nat)
    requires calls != []
    ensures PublishedInRun(d, calls, number) ==
            Published(d, calls[0], number) + PublishedInRun(d, calls[1..], After(number, Draws(calls[0])))
  {
  }

  function Shift(offsets: seq<nat>, base: nat): (s: seq<nat>)
    ensures |s| == |offsets|
  {
    seq(|offsets|, i requires 0 <= i < |offsets| => base + offsets[i])
  }

  /** The positions of the published messages in the sequence of all numbers taken since boot. */
  function Positions(calls: seq<Call>, base: nat): seq<nat> {
    if calls == [] then []
    else Shift(Offsets(calls[0]), base) + Positions(calls[1..], base + Draws(calls[0]))
  }

  lemma {:induction false} PositionsIncrease(calls: seq<Call>, base: nat)
    ensures forall k :: 0 <= k < |Positions(calls, base)| ==> base < Positions(calls, base)[k]
    ensures forall j, k :: 0 <= j < k < |Positions(calls, base)| ==>
        Positions(calls, base)[j] < Positions(calls, base)[k]
  {
    if calls != [] {
      var first, rest := Shift(Offsets(calls[0]), base), Positions(calls[1..], base + Draws(calls[0]));
      PositionsIncrease(calls[1..], base + Draws(calls[0]));
      assert forall i :: 0 <= i < |first| ==> base < first[i] <= base + Draws(calls[0]);
      assert forall i, j :: 0 <= i < j < |first| ==> first[i] < first[j];
      assert Positions(calls, base) == first + rest;
    }
  }

  lemma CallNumbers(d: Identity, call: Call, number: nat, k: nat)
    requires k < |Offsets(call)|
    ensures Seq(Published(d, call, number)[k].body) == After(number, Offsets(call)[k])
  {
    if call.TimeSync? {
      NamesDiffer();
      AtoiOfDecimal(After(number, 1));
      FirstNamedSkip(TimeSyncMessage(After(number, 1), d.Id()).members, "seq");
    } else {
      match call
      case Register(version, _) => MessageParts("0", After(number, 1), d.Id(), "rg", Arr(InfoTrees(d, version)));
      case Deregister(_) => MessageParts("0", After(number, 1), d.Id(), "urg", Arr(IdentityTrees(d)));
      case Delete(_) => MessageParts("0", After(number, 1), d.Id(), "drg", Arr(IdentityTrees(d)));
      case Update(version, _, _, _) => MessageParts("3", After(number, 1), d.Id(), "up", Arr(InfoTrees(d, version)));
      case TimeSync(_) =>
      case Notify(sid, entries, _) =>
        MessageParts(sid, After(number, k + 1), d.Id(), "n", Arr(EntryTrees(Batches(entries)[k])));
      case NotifyAll(sid, entries, _) => MessageParts(sid, After(number, 1), d.Id(), "n", Arr(EntryTrees(entries)));
    }
  }

  /** Each message carries its position, modulo MAX_SEQUENCE, where getSeq finds it. */
  predicate Numbered(p: seq<Publication>, at: seq<nat>) {
    |p| == |at| && forall k :: 0 <= k < |p| ==> Seq(p[k].body) == at[k] % 10000000
  }

  lemma NumberedAppend(all: seq<Publication>, p: seq<Publication>, q: seq<Publication>,
                       positions: seq<nat>, at: seq<nat>, bt: seq<nat>)
    requires all == p + q && positions == at + bt && Numbered(p, at) && Numbered(q, bt)
    ensures Numbered(all, positions)
  {
  }

  lemma PositionsUnfold(calls: seq<Call>, base: nat)
    requires calls != []
    ensures Positions(calls, base) == Shift(Offsets(calls[0]), base) + Positions(calls[1..], base + Draws(calls[0]))
  {
  }

  lemma CallNumbered(d: Identity, call: Call, base: nat, number: nat)
    requires number == base % MAX_SEQUENCE
    ensures Numbered(Published(d, call, number), Shift(Offsets(call), base))
  {
    var p, at := Published(d, call, number), Shift(Offsets(call), base);
    forall k | 0 <= k < |p|
      ensures Seq(p[k].body) == at[k] % MAX_SEQUENCE
    {
      CallNumbers(d, call, number, k);
      AfterBase(base, Offsets(call)[k]);
    }
  }

  /** The run whose counter stands at `number`, where `base` numbers were taken since boot. */
  lemma {:induction false} RunNumberedFrom(d: Identity, calls: seq<Call>, base: nat, number: nat)
    requires number == base % MAX_SEQUENCE
    ensures Numbered(PublishedInRun(d, calls, number), Positions(calls, base))
  {
    if calls != [] {
      var next, number' := base + Draws(calls[0]), After(number, Draws(calls[0]));
      var p, q := Published(d, calls[0], number), PublishedInRun(d, calls[1..], number');
      var at, bt := Shift(Offsets(calls[0]), base), Positions(calls[1..], next);
      assert Numbered(q, bt) by {
        AfterBase(base, Draws(calls[0]));
        RunNumberedFrom(d, calls[1..], next, number');
      }
      assert Numbered(p, at) by { CallNumbered(d, calls[0], base, number); }
      PublishedUnfold(d, calls, number);
      PositionsUnfold(calls, base);
      NumberedAppend(PublishedInRun(d, calls, number), p, q, Positions(calls, base), at, bt);
    }
  }

  /** Over any run of the seven builders since boot, the number getSeq reads out of a published message is
      its position among all numbers taken, modulo MAX_SEQUENCE. */
  lemma {:induction false} RunNumbered(d: Identity, calls: seq<Call>, base: nat)
    ensures Numbered(PublishedInRun(d, calls, base % MAX_SEQUENCE), Positions(calls, base))
  {
    RunNumberedFrom(d, calls, base, base % MAX_SEQUENCE);
  }

  predicate Increasing(at: seq<nat>) { forall j, k :: 0 <= j < k < |at| ==> at[j] < at[k] }

  lemma RunPositions(d: Identity, calls: seq<Call>)
    ensures Numbered(PublishedInRun(d, calls, 0), Positions(calls, 0)) && Increasing(Positions(calls, 0))
  {
    RunNumbered(d, calls, 0);
    PositionsIncrease(calls, 0);
  }

  lemma NumberedDiffer(p: seq<Publication>, at: seq<nat>, j: nat, k: nat)
    requires Numbered(p, at) && Increasing(at) && j < k < |p|
    ensures at[j] < at[k]
    ensures Seq(p[j].body) == Seq(p[k].body) <==> (at[k] - at[j]) % 10000000 == 0
    ensures at[k] - at[j] < 10000000 ==> Seq(p[j].body) != Seq(p[k].body)
  {
    ModDifference(at[j], at[k], Seq(p[j].body), Seq(p[k].body));
  }

  /** Two published messages carry the same number exactly when a multiple of MAX_SEQUENCE lies between
      their positions; so any two that lie closer together carry different numbers. */
  lemma NumbersDiffer(d: Identity, calls: seq<Call>, p: seq<Publication>, at: seq<nat>, j: nat, k: nat)
    requires p == PublishedInRun(d, calls, 0) && at == Positions(calls, 0) && j < k < |p|
    ensures |at| == |p| && at[j] < at[k]
    ensures Seq(p[j].body) == Seq(p[k].body) <==> (at[k] - at[j]) % 10000000 == 0
    ensures at[k] - at[j] < 10000000 ==> Seq(p[j].body) != Seq(p[k].body)
  {
    RunPositions(d, calls);
    NumberedDiffer(p, at, j, k);
  }

  lemma ModDifference(a: nat, b: nat, x: int, y: int)
    requires a < b && x == a % MAX_SEQUENCE && y == b % MAX_SEQUENCE
    ensures x == y <==> (b - a) % MAX_SEQUENCE == 0
    ensures b - a < MAX_SEQUENCE ==> x != y
  {
  }

  /** A printed sequence number and its terminator fit the 10-byte buffer. */
  lemma NumberFitsBuffer(number: nat, k: nat)
    ensures |Decimal(After(number, k))| + 1 <= 10
  {
    assert Pow10(1) == 10 && Pow10(2) == 100 && Pow10(3) == 1000 && Pow10(4) == 10000;
    assert Pow10(5) == 100000 && Pow10(6) == 1000000 && Pow10(7) == 10000000;
    DecimalLength(After(number, k), 7);
  }

  // ---------------------------------------------------------------- batched against single

  function DecodeAll(p: seq<Publication>): seq<(Option<string>, Option<string>, Option<string>)> {
    if p == [] then [] else Decode(p[0].body) + DecodeAll(p[1..])
  }

  lemma EncodedAppend(first: seq<Entry>, rest: seq<Entry>)
    ensures Encoded(first + rest) == Encoded(first) + Encoded(rest)
  {
  }

  lemma DecodeAllUnfold(p: seq<Publication>, from: nat)
    requires from < |p|
    ensures DecodeAll(p[from..]) == Decode(p[from].body) + DecodeAll(p[from + 1..])
  {
    assert p[from..][1..] == p[from + 1..];
  }

  lemma FlattenUnfold(batches: seq<seq<Entry>>, from: nat, n: nat)
    requires from < n <= |batches|
    ensures Flatten(batches[from..n]) == batches[from] + Flatten(batches[from + 1..n])
  {
    assert batches[from..n][1..] == batches[from + 1..n];
  }

  lemma {:induction false} DecodeOfBatches(d: Identity, sid: string, batches: seq<seq<Entry>>, from: nat, n: nat,
                                            number: nat)
    requires from <= n <= |batches|
    ensures DecodeAll(BatchPublications(d, sid, batches, n, number)[from..]) == Encoded(Flatten(batches[from..n]))
    decreases n - from
  {
    var p := BatchPublications(d, sid, batches, n, number);
    if from < n {
      DecodeOfBatches(d, sid, batches, from + 1, n, number);
      DecodeOfNotification(sid, After(number, from + 1), d.Id(), batches[from]);
      DecodeAllUnfold(p, from);
      FlattenUnfold(batches, from, n);
      EncodedAppend(batches[from], Flatten(batches[from + 1..n]));
    }
  }

  /** What a broker reads out of a batched notification is what it reads out of the single message, or a
      prefix of five entries per message when memory runs out on the way. */
  lemma BatchedRefinesSingle(d: Identity, sid: string, entries: seq<Entry>, prints: nat, number: nat)
    ensures var batched := DecodeAll(Published(d, Notify(sid, entries, prints), number));
            var single := DecodeAll(Published(d, NotifyAll(sid, entries, true), number));
            if prints > |entries| / 5 then batched == single
            else 5 * prints <= |single| && batched == single[..5 * prints]
  {
    var batches := Batches(entries);
    var n := Min(|batches|, prints);
    BatchAt(entries, 0);
    BatchesFlatten(entries, n);
    DecodeOfBatches(d, sid, batches, 0, n, number);
    var p := BatchPublications(d, sid, batches, n, number);
    assert p[0..] == p && batches[0..n] == batches[..n];
    DecodeOfNotification(sid, After(number, 1), d.Id(), entries);
    var one := Published(d, NotifyAll(sid, entries, true), number);
    assert one[1..] == [];
    assert DecodeAll(one) == Encoded(entries);
    if prints <= |entries| / ONE_UNIT {
      assert Encoded(entries[..5 * prints]) == Encoded(entries)[..5 * prints];
    }
  }
}
