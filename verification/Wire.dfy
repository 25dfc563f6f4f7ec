/** What is on the wire, with the names and texts spelled out: topics, members, operations and entries of every
    message the device builds, and what the getters find in a message. */
module Wire {
  import opened Base
  import opened Json
  import opened Requests
  import Topics

  // ---------------------------------------------------------------- topics and ids

  /** `<manufacturer>-<model>-<serial>`. */
  function IdText(d: Identity): string { d.manufacturer + "-" + d.model + "-" + d.serial }

  /** `<type>/sync/<id>/iot-server/<operation>/json`. */
  function TopicText(d: Identity, operation: string): string {
    d.deviceType + "/" + ("sync" + "/" + (IdText(d) + "/" + ("iot-server" + "/" + (operation + "/" + "json"))))
  }

  lemma JoinTwo(head: string, rest: seq<string>)
    requires rest != []
    ensures Topics.Join([head] + rest) == head + "/" + Topics.Join(rest)
  {
    assert ([head] + rest)[1..] == rest;
  }

  lemma TopicIs(d: Identity, operation: string)
    ensures d.Id() == IdText(d) && d.Topic(operation) == TopicText(d, operation)
  {
    var id := IdText(d);
    assert [d.deviceType, "sync", id, "iot-server", operation, "json"] ==
           [d.deviceType] + (["sync"] + ([id] + (["iot-server"] + ([operation] + ["json"]))));
    JoinTwo(operation, ["json"]);
    JoinTwo("iot-server", [operation] + ["json"]);
    JoinTwo(id, ["iot-server"] + ([operation] + ["json"]));
    JoinTwo("sync", [id] + (["iot-server"] + ([operation] + ["json"])));
    JoinTwo(d.deviceType, ["sync"] + ([id] + (["iot-server"] + ([operation] + ["json"]))));
  }

  // ---------------------------------------------------------------- what the getters find

  /** A lookup takes the first member of the name, whatever the case of its letters. */
  lemma {:induction false} FirstMemberWins(members: seq<(string, Json)>, name: string)
    ensures match GetItem(Some(Obj(members)), name)
            case None => forall k :: 0 <= k < |members| ==> !SameName(members[k].0, name)
            case Some(value) =>
              exists k :: 0 <= k < |members| && members[k].1 == value && SameName(members[k].0, name)
                          && forall j :: 0 <= j < k ==> !SameName(members[j].0, name)
    ensures SameName("SeQ", "sEq") && !SameName("seq", "sec") && !SameName("se", "seq")
  {
    assert Lower("seq"[2]) != Lower("sec"[2]);
    if members != [] && !SameName(members[0].0, name) {
      FirstMemberWins(members[1..], name);
      var rest := GetItem(Some(Obj(members[1..])), name);
      if rest.Some? {
        var k :| 0 <= k < |members[1..]| && members[1..][k].1 == rest.value && SameName(members[1..][k].0, name)
                 && forall j :: 0 <= j < k ==> !SameName(members[1..][j].0, name);
        assert members[k + 1] == members[1..][k];
        assert forall j :: 1 <= j < k + 1 ==> members[j] == members[1..][j - 1];
      }
    }
  }

  /** A message with every member the getters know, in any spelling order of the builders. */
  function Sample(sid: string, number: string, did: string, o: string, rc: string, ec: string, e: Json): Json {
    Obj([("sid", Str(sid)), ("seq", Str(number)), ("did", Str(did)),
         ("msg", Obj([("o", Str(o)), ("rc", Str(rc)), ("ec", Str(ec)), ("e", e)]))])
  }

  lemma MoreNamesDiffer()
    ensures !SameName("o", "rc") && !SameName("o", "ec") && !SameName("rc", "ec") && !SameName("rc", "e")
    ensures !SameName("ec", "e") && !SameName("o", "e")
  {
    assert Lower("rc"[0]) != Lower("ec"[0]);
    assert Lower("o"[0]) != Lower("e"[0]);
  }

  /** Each getter reads the member of its name. */
  lemma {:induction false} GettersFind(sid: string, number: string, did: string, o: string, rc: string,
                                        ec: string, e: Json)
    ensures var m := Sample(sid, number, did, o, rc, ec, e);
            && Sid(m) == Some(sid) && Seq(m) == Atoi(number) && DeviceOf(m) == Some(did)
            && Operation(m) == Some(o) && ReturnCode(m) == Atoi(rc) && ErrorCode(m) == Atoi(ec)
            && EntryArray(m) == Some(e)
  {
    NamesDiffer();
    MoreNamesDiffer();
    var ms := Sample(sid, number, did, o, rc, ec, e).members;
    FirstNamedSkip(ms, "seq");
    FirstNamedSkip(ms, "did");
    FirstNamedSkip(ms[1..], "did");
    FirstNamedSkip(ms, "msg");
    FirstNamedSkip(ms[1..], "msg");
    FirstNamedSkip(ms[2..], "msg");
    var inner := ms[3].1.members;
    assert Msg(Sample(sid, number, did, o, rc, ec, e)) == Some(Obj(inner));
    FirstNamedSkip(inner, "rc");
    FirstNamedSkip(inner, "ec");
    FirstNamedSkip(inner[1..], "ec");
    FirstNamedSkip(inner, "e");
    FirstNamedSkip(inner[1..], "e");
    FirstNamedSkip(inner[2..], "e");
  }

  /** What the entry getters read: name, value and time, with their lengths, in the order of the entries. */
  lemma {:induction false} EntryGettersFind(tree: Json, items: seq<Json>, i: nat, n: string, sv: string, ti: string)
    requires EntryArray(tree) == Some(Arr(items)) && i < |items|
    requires items[i] == Obj([("n", Str(n)), ("sv", Str(sv)), ("ti", Str(ti))])
    ensures NArraySize(tree) == |items|
    ensures ResourceUri(tree, i) == Some(n) && StringValue(tree, i) == Some(sv) && Time(tree, i) == Some(ti)
    ensures ResourceUriLength(tree, i) == |n| && StringValueLength(tree, i) == |sv| && TimeLength(tree, i) == |ti|
  {
    EntryTreeParts(Entry(n, sv, ti));
    NamesDiffer();
    FirstNamedSkip(items[i].members, "sv");
    FirstNamedSkip(items[i].members, "ti");
    FirstNamedSkip(items[i].members[1..], "ti");
    assert Children(EntryArray(tree)) == items;
  }

  /** What they return for a member that is missing. */
  lemma GettersMiss()
    ensures var m := Obj([]);
            && Sid(m).None? && Seq(m) == -1 && Operation(m).None? && ReturnCode(m) == -1 && ErrorCode(m) == 0
            && NArraySize(m) == 0
            && ResourceUriLength(m, 0) == 0 && StringValueLength(m, 0) == 0 && TimeLength(m, 0) == 0
  {
  }

  // ---------------------------------------------------------------- what the server reads

  /** The message is on this topic, and says who sends what under which number. */
  predicate Says(p: Publication, d: Identity, topic: string, sid: string, operation: string, number: int) {
    && p.topic == TopicText(d, topic) && DeviceOf(p.body) == Some(IdText(d))
    && Sid(p.body) == Some(sid) && Operation(p.body) == Some(operation) && Seq(p.body) == number
  }

  /** The entries of a message as names and values. */
  function NamesAndValues(tree: Json): seq<(Option<string>, Option<string>)> {
    seq(NArraySize(tree), i requires 0 <= i < NArraySize(tree) => (ResourceUri(tree, i), StringValue(tree, i)))
  }

  function IdentityText(d: Identity): seq<(Option<string>, Option<string>)> {
    [(Some("/3/0/0"), Some(d.manufacturer)), (Some("/3/0/1"), Some(d.model)), (Some("/3/0/2"), Some(d.serial))]
  }

  function InfoText(d: Identity, version: string): seq<(Option<string>, Option<string>)> {
    IdentityText(d) + [(Some("/3/0/3"), Some(version)), (Some("/3/0/997"), Some("1.0")),
                       (Some("/3/0/998"), Some("1.0")), (Some("/3/0/999"), Some("1.0"))]
  }

  lemma InfoTreeReads(n: string, sv: string)
    ensures var t := Some(InfoTree(n, sv));
            GetString(GetItem(t, "n")) == Some(n) && GetString(GetItem(t, "sv")) == Some(sv)
  {
    NamesDiffer();
    FirstNamedSkip(InfoTree(n, sv).members, "sv");
  }

  lemma IdentityReads(d: Identity, tree: Json)
    requires EntryArray(tree) == Some(Arr(IdentityTrees(d)))
    ensures NamesAndValues(tree) == IdentityText(d)
  {
    assert Children(EntryArray(tree)) == IdentityTrees(d);
    InfoTreeReads("/3/0/0", d.manufacturer);
    InfoTreeReads("/3/0/1", d.model);
    InfoTreeReads("/3/0/2", d.serial);
  }

  lemma InfoReads(d: Identity, version: string, tree: Json)
    requires EntryArray(tree) == Some(Arr(InfoTrees(d, version)))
    ensures NamesAndValues(tree) == InfoText(d, version)
  {
    assert Children(EntryArray(tree)) == InfoTrees(d, version);
    InfoTreeReads("/3/0/0", d.manufacturer);
    InfoTreeReads("/3/0/1", d.model);
    InfoTreeReads("/3/0/2", d.serial);
    InfoTreeReads("/3/0/3", version);
    InfoTreeReads("/3/0/997", "1.0");
    InfoTreeReads("/3/0/998", "1.0");
    InfoTreeReads("/3/0/999", "1.0");
  }

  /** Registration and update: identity, firmware version and protocol versions. */
  lemma {:induction false} RegisterSays(d: Identity, version: string, number: nat)
    ensures var p := Published(d, Register(version, true), number);
            && |p| == 1 && Says(p[0], d, "register", "0", "rg", (number + 1) % 10000000)
            && NamesAndValues(p[0].body) == InfoText(d, version)
    ensures var p := Published(d, Update(version, true, true, true), number);
            && |p| == 1 && Says(p[0], d, "update", "3", "up", (number + 1) % 10000000)
            && NamesAndValues(p[0].body) == InfoText(d, version)
  {
    TopicIs(d, "register");
    TopicIs(d, "update");
    MessageParts("0", After(number, 1), d.Id(), "rg", Arr(InfoTrees(d, version)));
    MessageParts("3", After(number, 1), d.Id(), "up", Arr(InfoTrees(d, version)));
    InfoReads(d, version, Message("0", After(number, 1), d.Id(), "rg", Arr(InfoTrees(d, version))));
    InfoReads(d, version, Message("3", After(number, 1), d.Id(), "up", Arr(InfoTrees(d, version))));
  }

  /** The two ways out: the identity alone. */
  lemma {:induction false} DeregisterSays(d: Identity, number: nat)
    ensures var p := Published(d, Deregister(true), number);
            && |p| == 1 && Says(p[0], d, "unregister", "0", "urg", (number + 1) % 10000000)
            && NamesAndValues(p[0].body) == IdentityText(d)
    ensures var p := Published(d, Delete(true), number);
            && |p| == 1 && Says(p[0], d, "deregister", "0", "drg", (number + 1) % 10000000)
            && NamesAndValues(p[0].body) == IdentityText(d)
  {
    TopicIs(d, "unregister");
    TopicIs(d, "deregister");
    MessageParts("0", After(number, 1), d.Id(), "urg", Arr(IdentityTrees(d)));
    MessageParts("0", After(number, 1), d.Id(), "drg", Arr(IdentityTrees(d)));
    IdentityReads(d, Message("0", After(number, 1), d.Id(), "urg", Arr(IdentityTrees(d))));
    IdentityReads(d, Message("0", After(number, 1), d.Id(), "drg", Arr(IdentityTrees(d))));
  }

  /** The question for the server's time, which has no entries. */
  lemma {:induction false} TimeSyncSays(d: Identity, number: nat)
    ensures var p := Published(d, TimeSync(true), number);
            && |p| == 1 && Says(p[0], d, "timesync", "0", "tisyn", (number + 1) % 10000000)
            && NArraySize(p[0].body) == 0
  {
    TopicIs(d, "timesync");
    AtoiOfDecimal(After(number, 1));
    TimeSyncParts(After(number, 1), d.Id());
  }

  lemma TimeSyncParts(number: nat, did: string)
    ensures var m := TimeSyncMessage(number, did);
            && Sid(m) == Some("0") && DeviceOf(m) == Some(did) && Operation(m) == Some("tisyn")
            && GetString(GetItem(Some(m), "seq")) == Some(Decimal(number)) && EntryArray(m).None?
  {
    NamesDiffer();
    var ms := TimeSyncMessage(number, did).members;
    FirstNamedSkip(ms, "seq");
    FirstNamedSkip(ms, "did");
    FirstNamedSkip(ms[1..], "did");
    FirstNamedSkip(ms, "msg");
    FirstNamedSkip(ms[1..], "msg");
    FirstNamedSkip(ms[2..], "msg");
    assert Msg(TimeSyncMessage(number, did)) == Some(Obj([("o", Str("tisyn"))]));
    FirstNamedSkip([("o", Str("tisyn"))], "e");
  }

  /** A single notification says the given sid and the entries it was built from. */
  lemma {:induction false} NotifyAllSays(d: Identity, sid: string, entries: seq<Entry>, number: nat)
    ensures var p := Published(d, NotifyAll(sid, entries, true), number);
            && |p| == 1 && Says(p[0], d, "notify", sid, "n", (number + 1) % 10000000)
            && Decode(p[0].body) == Encoded(entries)
  {
    TopicIs(d, "notify");
    MessageParts(sid, After(number, 1), d.Id(), "n", Arr(EntryTrees(entries)));
    DecodeOfNotification(sid, After(number, 1), d.Id(), entries);
  }

  lemma BatchSays(d: Identity, sid: string, batch: seq<Entry>, number: nat)
    ensures var p := NotifyPublication(d, sid, number, batch);
            Says(p, d, "notify", sid, "n", number) && Decode(p.body) == Encoded(batch)
  {
    TopicIs(d, "notify");
    MessageParts(sid, number, d.Id(), "n", Arr(EntryTrees(batch)));
    DecodeOfNotification(sid, number, d.Id(), batch);
  }

  /** The entries of batch `k`: five from 5k on, or what is left. */
  function FiveFrom(entries: seq<Entry>, k: nat): seq<Entry>
    requires k <= |entries| / 5
  {
    if 5 * k + 5 <= |entries| then entries[5 * k..5 * k + 5] else entries[5 * k..]
  }

  lemma BatchIs(entries: seq<Entry>, k: nat)
    requires k <= |entries| / 5
    ensures |Batches(entries)| == |entries| / 5 + 1 && Batches(entries)[k] == FiveFrom(entries, k)
  {
    BatchAt(entries, k);
  }

  /** A batched one says the same in each batch; the batches are numbered one after the other and hold five
      entries each, the last one the remainder. */
  lemma {:induction false} NotifySays(d: Identity, sid: string, entries: seq<Entry>, prints: nat, number: nat, k: nat)
    requires k <= |entries| / 5
    ensures var p := Published(d, Notify(sid, entries, prints), number);
            && |p| == (if prints <= |entries| / 5 then prints else |entries| / 5 + 1)
            && (k < |p| ==>
                  && Says(p[k], d, "notify", sid, "n", (number + 1 + k) % 10000000)
                  && Decode(p[k].body) == Encoded(FiveFrom(entries, k)))
  {
    BatchIs(entries, k);
    var p, batch := Published(d, Notify(sid, entries, prints), number), FiveFrom(entries, k);
    BatchSays(d, sid, batch, After(number, k + 1));
    assert k < |p| ==> p[k] == NotifyPublication(d, sid, After(number, k + 1), batch);
  }

  // ---------------------------------------------------------------- numbers taken and messages sent

  /** How many numbers a call takes, and how many messages it sends: one and one, but no number is taken without
      an id, a failed print or a missing handle sends nothing, and a notification takes one for each batch up to
      the first failed print. */
  lemma CallCounts(call: Call)
    ensures match call
            case Update(_, idKnown, clientKnown, printed) =>
              && Draws(call) == (if idKnown then 1 else 0)
              && |Offsets(call)| == (if idKnown && clientKnown && printed then 1 else 0)
            case Notify(_, entries, prints) =>
              && Draws(call) == (if prints <= |entries| / 5 then prints + 1 else |entries| / 5 + 1)
              && |Offsets(call)| == (if prints <= |entries| / 5 then prints else |entries| / 5 + 1)
            case Register(_, printed) => Draws(call) == 1 && |Offsets(call)| == if printed then 1 else 0
            case Deregister(printed) => Draws(call) == 1 && |Offsets(call)| == if printed then 1 else 0
            case Delete(printed) => Draws(call) == 1 && |Offsets(call)| == if printed then 1 else 0
            case TimeSync(printed) => Draws(call) == 1 && |Offsets(call)| == if printed then 1 else 0
            case NotifyAll(_, _, printed) => Draws(call) == 1 && |Offsets(call)| == if printed then 1 else 0
  {
    if call.Notify? { BatchAt(call.entries, 0); }
  }

  /** Nothing that the call wants to send is held back. */
  predicate AllSent(call: Call) {
    match call
    case Update(_, idKnown, clientKnown, printed) => idKnown && clientKnown && printed
    case Notify(_, entries, prints) => prints > |entries| / 5
    case Register(_, printed) => printed
    case Deregister(printed) => printed
    case Delete(printed) => printed
    case TimeSync(printed) => printed
    case NotifyAll(_, _, printed) => printed
  }

  lemma SentInFull(call: Call, base: nat)
    requires AllSent(call)
    ensures Shift(Offsets(call), base) == seq(Draws(call), i => base + i + 1)
  {
    if call.Notify? { BatchAt(call.entries, 0); }
  }

  /** When nothing is held back, the messages of every run carry the numbers 1, 2, 3 and so on without a gap. */
  lemma {:induction false} NumbersWithoutGap(calls: seq<Call>, base: nat, k: nat)
    requires forall c :: c in calls ==> AllSent(c)
    requires k < |Positions(calls, base)|
    ensures Positions(calls, base)[k] == base + k + 1
  {
    var first, rest := Shift(Offsets(calls[0]), base), Positions(calls[1..], base + Draws(calls[0]));
    assert calls[0] in calls && forall c :: c in calls[1..] ==> c in calls;
    SentInFull(calls[0], base);
    if k >= |first| { NumbersWithoutGap(calls[1..], base + Draws(calls[0]), k - |first|); }
  }
}
