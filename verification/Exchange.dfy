/** What an inbound message gets back, said of its topic levels, its operation and its fields, and of what the
    server reads in the answer. */
module Exchange {
  import opened Base
  import opened Flash
  import opened Json
  import opened Messages
  import opened Requests
  import opened Arrival
  import opened Wire
  import Dialogues
  import Topics

  /** The second topic level a message came on, empty levels left aside, and its fifth. */
  function Level(m: Inbound): string
    requires Acceptable(m)
    ensures Level(m) == Topics.Tokens(m.topic)[1]
  {
    Topics.TokensAreNonEmptyLevels(m.topic);
    Topics.NonEmpty(Topics.Levels(m.topic))[1]
  }

  function Fifth(m: Inbound): string
    requires Acceptable(m)
    ensures Fifth(m) == Topics.Tokens(m.topic)[4]
  {
    Topics.TokensAreNonEmptyLevels(m.topic);
    Topics.NonEmpty(Topics.Levels(m.topic))[4]
  }

  /** A message other than a firmware message, on this level and with this operation. */
  predicate Asks(m: Inbound, level: string, operation: string)
    requires Acceptable(m)
  {
    !IsFirmware(m.tree) && Level(m) == level && Operation(m.tree).value == operation
  }

  // ---------------------------------------------------------------- the answer on the wire

  /** A response to the message, as the server reads it. */
  predicate AnswersWith(p: Publication, d: Identity, m: Inbound, topic: string, code: int, entries: nat)
    requires Acceptable(m)
  {
    && p.topic == TopicText(d, topic) && DeviceOf(p.body) == Some(IdText(d)) && Sid(p.body) == Sid(m.tree)
    && Operation(p.body) == Some("res") && ReturnCode(p.body) == code
    && NArraySize(p.body) == entries
    && forall i :: 0 <= i < entries ==> StringValue(p.body, i) == Some("busy") && ResourceUri(p.body, i).None?
  }

  lemma CodesRead()
    ensures Atoi("200") == 200 && Atoi("600") == 600
  {
    assert "200"[1..] == "00" && "00"[1..] == "0" && "0"[1..] == "";
    assert "600"[1..] == "00";
    assert DigitsFrom("", 200) == 200 && DigitsFrom("0", 20) == 200 && DigitsFrom("00", 2) == 200;
    assert DigitsFrom("", 600) == 600 && DigitsFrom("0", 60) == 600 && DigitsFrom("00", 6) == 600;
  }

  lemma DeviceOfResponse(d: Identity, operation: string, sid: string, code: string, entries: Option<seq<Json>>)
    ensures DeviceOf(Response(d, operation, sid, code, entries).body) == Some(IdText(d))
  {
    NamesDiffer();
    TopicIs(d, operation);
    FirstNamedSkip(Response(d, operation, sid, code, entries).body.members, "did");
  }

  lemma EntriesOfResponse(d: Identity, operation: string, sid: string, code: string, entries: Option<seq<Json>>)
    ensures EntryArray(Response(d, operation, sid, code, entries).body) ==
            if entries.Some? then Some(Arr(entries.value)) else None
  {
    var body := Response(d, operation, sid, code, entries).body;
    NamesDiffer();
    MoreNamesDiffer();
    FirstNamedSkip(body.members, "msg");
    FirstNamedSkip(body.members[1..], "msg");
    var inner := body.members[2].1;
    assert Msg(body) == Some(inner);
    assert inner.members[0].0 == "o" && inner.members[1..][0] == ("rc", Str(code));
    FirstNamedSkip(inner.members, "e");
    FirstNamedSkip(inner.members[1..], "e");
  }

  lemma BusyReads()
    ensures var e := Some(Obj([("sv", Str("busy"))]));
            GetString(GetItem(e, "sv")) == Some("busy") && GetString(GetItem(e, "n")).None?
  {
    NamesDiffer();
    FirstNamedSkip([("sv", Str("busy"))], "n");
  }

  /** The two kinds of response, on the wire. */
  lemma {:induction false} ResponseReads(d: Identity, m: Inbound, topic: string)
    requires Acceptable(m)
    ensures AnswersWith(Response(d, topic, Sid(m.tree).value, "200", None), d, m, topic, 200, 0)
    ensures var n := NArraySize(m.tree);
            AnswersWith(Response(d, topic, Sid(m.tree).value, "600", Some(BusyEntries(n))), d, m, topic, 600, n)
  {
    var sid, n := Sid(m.tree).value, NArraySize(m.tree);
    TopicIs(d, topic);
    CodesRead();
    Dialogues.ResponseParts(d, topic, sid, "200", None);
    DeviceOfResponse(d, topic, sid, "200", None);
    EntriesOfResponse(d, topic, sid, "200", None);
    var busy := Some(BusyEntries(n));
    Dialogues.ResponseParts(d, topic, sid, "600", busy);
    DeviceOfResponse(d, topic, sid, "600", busy);
    EntriesOfResponse(d, topic, sid, "600", busy);
    BusyReads();
    var body := Response(d, topic, sid, "600", busy).body;
    assert Children(EntryArray(body)) == BusyEntries(n);
  }

  // ---------------------------------------------------------------- which message gets which answer

  /** A synchronous read, write or execute request with the callback set: the busy response on the topic of its
      operation when the flag was set, nothing otherwise; afterwards the flag is set. */
  lemma {:induction false} RequestAnswer(d: Identity, s: Dialogue, m: Inbound, memory: nat)
    requires Acceptable(m) && memory >= SlotBlocks(m.tree) && s.registered
    requires Asks(m, "sync", "r") || Asks(m, "sync", "w") || Asks(m, "sync", "e")
    ensures var r, k := Receive(d, s, m, memory), |s.outbox|;
            var name := if Operation(m.tree).value == "r" then "read"
                        else if Operation(m.tree).value == "w" then "write" else "execute";
            && r.busy && r.number == s.number && s.outbox <= r.outbox
            && (if s.busy then |r.outbox| == k + 1 && AnswersWith(r.outbox[k], d, m, name, 600, NArraySize(m.tree))
                else r.outbox == s.outbox)
  {
    TypeTable(m.topic, m.tree);
    Dialogues.ReceiveSends(d, s, m, memory);
    ResponseReads(d, m, ControlName(TypeOf(m)));
  }

  /** A firmware message, whatever else it says: one response on the write topic when its fifth level is "write",
      and no other publication. */
  lemma {:induction false} FirmwareAnswer(d: Identity, s: Dialogue, m: Inbound, memory: nat)
    requires Acceptable(m) && memory >= SlotBlocks(m.tree) && IsFirmware(m.tree)
    ensures var r, k := Receive(d, s, m, memory), |s.outbox|;
            && s.outbox <= r.outbox && r.number == s.number && r.busy == s.busy
            && (if Fifth(m) == "write" then |r.outbox| == k + 1 && AnswersWith(r.outbox[k], d, m, "write", 200, 0)
                else r.outbox == s.outbox)
  {
    TypeTable(m.topic, m.tree);
    Dialogues.ReceiveSends(d, s, m, memory);
    ResponseReads(d, m, "write");
  }

  /** The publications of a delete request: the response when it is synchronous, and the deregistration under
      the next number. */
  predicate DeleteSaid(d: Identity, m: Inbound, number: nat, said: seq<Publication>)
    requires Acceptable(m)
  {
    if Level(m) == "sync" then
      && |said| == 2 && AnswersWith(said[0], d, m, "delete", 200, 0)
      && Says(said[1], d, "deregister", "0", "drg", (number + 1) % 10000000)
    else
      |said| == 1 && Says(said[0], d, "deregister", "0", "drg", (number + 1) % 10000000)
  }

  lemma {:induction false} DeleteAnswer(d: Identity, s: Dialogue, m: Inbound, memory: nat)
    requires Acceptable(m) && memory >= SlotBlocks(m.tree)
    requires Asks(m, "sync", "d") || Asks(m, "async", "d")
    ensures var r := Receive(d, s, m, memory);
            && s.outbox <= r.outbox && DeleteSaid(d, m, s.number, r.outbox[|s.outbox|..])
            && r.number == (s.number + 1) % 10000000 && r.busy == s.busy
  {
    var said := DeletePublications(d, m, s.number);
    DeleteReads(d, m, s.number);
    DeleteSends(d, s, m, memory);
    assert (s.outbox + said)[|s.outbox|..] == said;
  }

  function DeletePublications(d: Identity, m: Inbound, number: nat): seq<Publication>
    requires Acceptable(m)
  {
    (if Level(m) == "sync" then [Response(d, "delete", Sid(m.tree).value, "200", None)] else [])
    + Published(d, Delete(true), number)
  }

  lemma DeleteReads(d: Identity, m: Inbound, number: nat)
    requires Acceptable(m)
    ensures DeleteSaid(d, m, number, DeletePublications(d, m, number))
  {
    DeregisterSays(d, number);
    ResponseReads(d, m, "delete");
  }

  lemma DeleteSends(d: Identity, s: Dialogue, m: Inbound, memory: nat)
    requires Acceptable(m) && memory >= SlotBlocks(m.tree)
    requires Asks(m, "sync", "d") || Asks(m, "async", "d")
    ensures Receive(d, s, m, memory).outbox == s.outbox + DeletePublications(d, m, s.number)
    ensures var r := Receive(d, s, m, memory); r.number == (s.number + 1) % 10000000 && r.busy == s.busy
  {
    Dialogues.ReceiveSends(d, s, m, memory);
    TypeTable(m.topic, m.tree);
  }

  /** Everything else, and every message for which memory is short from the start, is not answered, does not set
      the flag and starts no update. */
  lemma {:induction false} OthersGetNothing(d: Identity, s: Dialogue, m: Inbound, memory: nat)
    requires Acceptable(m)
    requires var o := Operation(m.tree).value;
             || memory < SlotBlocks(m.tree)
             || (!IsFirmware(m.tree) && !(Level(m) == "sync" && o in ["r", "w", "e", "d"])
                 && !(Level(m) == "async" && o == "d"))
    ensures var r := Receive(d, s, m, memory);
            && r.outbox == s.outbox && r.busy == s.busy && r.number == s.number
            && r.otaRuns == s.otaRuns && r.version == s.version && r.url == s.url
  {
    TypeTable(m.topic, m.tree);
    Dialogues.ReceiveSends(d, s, m, memory);
  }

  /** With the callback reached, the partition is erased and the device restarts exactly for a delete request, or
      for the return code 404 with the error code 40443; without it, never. */
  lemma {:induction false} ErasesExactly(d: Identity, s: Dialogue, m: Inbound, memory: nat)
    requires Acceptable(m) && !s.stopped
    ensures var r := Receive(d, s, m, memory);
            var reached := s.registered && memory >= SlotBlocks(m.tree) + if IsFirmware(m.tree) then 2 else 0;
            var told := Asks(m, "sync", "d") || Asks(m, "async", "d")
                        || (ReturnCode(m.tree) == 404 && ErrorCode(m.tree) == 40443);
            if reached && told then r.stopped && r.nvs.blob.None? && r.nvs.strings == map[]
            else !r.stopped && r.nvs == s.nvs
  {
    TypeTable(m.topic, m.tree);
    Dialogues.RepliesSend(d, s, m);
  }

  /** A firmware message starts the update with the version and the address it names, if the callback is reached;
      nothing else starts one. */
  lemma {:induction false} StartsExactly(d: Identity, s: Dialogue, m: Inbound, memory: nat)
    requires Acceptable(m)
    ensures var r := Receive(d, s, m, memory);
            if s.registered && IsFirmware(m.tree) && memory >= SlotBlocks(m.tree) + 2 then
              && r.otaRuns == s.otaRuns + 1
              && Some(r.version) == FieldAt(m.tree, "/3/0/3") && Some(r.url) == FieldAt(m.tree, "/5/0/1")
            else r.otaRuns == s.otaRuns && r.version == s.version && r.url == s.url
  {
    TypeTable(m.topic, m.tree);
  }
}
