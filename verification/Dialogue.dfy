/** What messageArrived keeps over whole runs of inbound messages. */
module Dialogues {
  import opened Base
  import opened Flash
  import opened Json
  import opened Messages
  import opened Requests
  import opened Arrival
  import Topics

  /** The topic level on which a message of this type is answered. */
  function ReplyName(messageType: int): string {
    if messageType == MESSAGE_TYPE_READ then "read"
    else if messageType == MESSAGE_TYPE_EXECUTE then "execute"
    else if messageType == MESSAGE_TYPE_DELETE_SYNC then "delete"
    else "write"
  }

  lemma ResponseParts(d: Identity, operation: string, sid: string, code: string, entries: Option<seq<Json>>)
    ensures var body := Response(d, operation, sid, code, entries).body;
            Sid(body) == Some(sid) && ReturnCode(body) == Atoi(code) && Operation(body) == Some("res")
  {
    var body := Response(d, operation, sid, code, entries).body;
    assert !SameName("sid", "msg") && !SameName("did", "msg") && !SameName("o", "rc") by {
      assert Lower("sid"[0]) != Lower("msg"[0]) && Lower("did"[0]) != Lower("msg"[0]);
    }
    FirstNamedSkip(body.members, "msg");
    FirstNamedSkip(body.members[1..], "msg");
    var inner := body.members[2].1;
    assert Msg(body) == Some(inner);
    FirstNamedSkip(inner.members, "rc");
    assert inner.members[1..][0] == ("rc", Str(code));
  }

  /** A response, as the server tells it from the other messages. */
  predicate IsResponse(p: Publication) { Operation(p.body) == Some("res") }

  /** It answers this message, on the topic of the operation the message was classified as. */
  predicate Answers(d: Identity, p: Publication, m: Inbound)
    requires Acceptable(m)
  {
    Sid(p.body) == Sid(m.tree) && p.topic == d.Topic(ReplyName(TypeOf(m)))
  }

  lemma ResponsesAnswer(d: Identity, m: Inbound, busy: bool)
    requires Acceptable(m)
    ensures var r := Responses(d, m, busy);
            |r| <= 1 && forall p :: p in r ==> Answers(d, p, m)
  {
    var sid, n := Sid(m.tree).value, NArraySize(m.tree);
    ResponseParts(d, "delete", sid, "200", None);
    ResponseParts(d, "write", sid, "200", None);
    if SyncRequest(TypeOf(m)) { ResponseParts(d, ControlName(TypeOf(m)), sid, "600", Some(BusyEntries(n))); }
  }

  lemma DeregistrationIsNone(d: Identity, number: nat)
    ensures var p := Published(d, Delete(true), number);
            |p| == 1 && !IsResponse(p[0])
  {
    MessageParts("0", After(number, 1), d.Id(), "drg", Arr(IdentityTrees(d)));
  }

  /** The callback runs for this message. */
  predicate Reaches(s: Dialogue, m: Inbound, memory: nat)
    requires Acceptable(m)
  {
    s.registered && memory >= NeededBlocks(m)
  }

  /** What a message makes the device publish: its response, and behind it the deregistration of a delete
      request. The busy response comes from the callback. */
  function Replies(d: Identity, s: Dialogue, m: Inbound, memory: nat): seq<Publication>
    requires Acceptable(m)
  {
    if memory < SlotBlocks(m.tree) then []
    else
      (if SyncRequest(TypeOf(m)) && !s.registered then [] else Responses(d, m, s.busy))
      + if DeleteRequest(TypeOf(m)) then Published(d, Delete(true), s.number) else []
  }

  lemma ActsAppend(p: seq<Publication>, q: seq<Publication>)
    ensures Acts(p + q) == Acts(p) + Acts(q)
  {
  }

  /** Everything a message does that leaves the device, in order: the publications, then the erase and the
      restart of the callback. */
  lemma {:induction false} ReceiveSends(d: Identity, s: Dialogue, m: Inbound, memory: nat)
    requires Acceptable(m)
    ensures var r := Receive(d, s, m, memory);
            && r.outbox == s.outbox + Replies(d, s, m, memory)
            && r.trace == s.trace + Acts(Replies(d, s, m, memory))
                          + if Reaches(s, m, memory) && Erases(m) then [PartitionErased, RestartRequested] else []
  {
    if memory >= SlotBlocks(m.tree) {
      var responses := if SyncRequest(TypeOf(m)) && !s.registered then [] else Responses(d, m, s.busy);
      var deregistration := if DeleteRequest(TypeOf(m)) then Published(d, Delete(true), s.number) else [];
      ActsAppend(responses, deregistration);
      ConcatAssoc(s.outbox, responses, deregistration);
      ConcatAssoc(s.trace, Acts(responses), Acts(deregistration));
      RepliesSend(d, s, m);
    }
  }

  /** Whatever a message makes the device publish, at most one of it is a response. That one comes first,
      carries the sid of the message and goes out on the topic of its operation. */
  lemma {:induction false} AtMostOneResponse(d: Identity, s: Dialogue, m: Inbound, memory: nat)
    requires Acceptable(m)
    ensures var sent := Receive(d, s, m, memory).outbox;
            && s.outbox <= sent
            && forall k :: |s.outbox| <= k < |sent| && IsResponse(sent[k]) ==>
                 k == |s.outbox| && Answers(d, sent[k], m)
  {
    ReceiveSends(d, s, m, memory);
    ResponsesAnswer(d, m, s.busy);
    DeregistrationIsNone(d, s.number);
    var sent, replies := Receive(d, s, m, memory).outbox, Replies(d, s, m, memory);
    assert forall k :: |s.outbox| <= k < |sent| ==> sent[k] == replies[k - |s.outbox|];
    assert |replies| <= 2 && forall k :: 1 <= k < |replies| ==> !IsResponse(replies[k]);
  }

  /** The replies in front of the callback: all but the busy response. */
  lemma RepliesSend(d: Identity, s: Dialogue, m: Inbound)
    requires Acceptable(m)
    ensures var r := AfterReplies(d, s, m);
            var responses := if SyncRequest(TypeOf(m)) then [] else Responses(d, m, s.busy);
            var deregistration := if DeleteRequest(TypeOf(m)) then Published(d, Delete(true), s.number) else [];
            && r.outbox == s.outbox + responses + deregistration
            && r.trace == s.trace + Acts(responses) + Acts(deregistration)
            && r.registered == s.registered && r.busy == s.busy && r.stopped == s.stopped && r.nvs == s.nvs
  {
  }

  /** With the callback set, a synchronous delete is answered, deregistered, erased and restarted in that
      order, and an asynchronous one the same without the answer. Before the callback is set nothing is erased. */
  lemma {:induction false} DeleteErases(d: Identity, s: Dialogue, m: Inbound, memory: nat)
    requires Acceptable(m) && DeleteRequest(TypeOf(m)) && memory >= NeededBlocks(m)
    ensures var r := Receive(d, s, m, memory);
            var answer := Response(d, "delete", Sid(m.tree).value, "200", None);
            var deregistration := SinglePublication(d, Delete(true), After(s.number, 1));
            && deregistration.topic == d.Topic("deregister")
            && r.trace == s.trace + (if TypeOf(m) == MESSAGE_TYPE_DELETE_SYNC then [Act.Sent(answer)] else [])
                          + [Act.Sent(deregistration)]
                          + (if s.registered then [PartitionErased, RestartRequested] else [])
            && (if s.registered then r.stopped && r.nvs == ERASED else r.stopped == s.stopped && r.nvs == s.nvs)
  {
    ReceiveSends(d, s, m, memory);
    RepliesSend(d, s, m);
    var answer := Response(d, "delete", Sid(m.tree).value, "200", None);
    var deregistration := SinglePublication(d, Delete(true), After(s.number, 1));
    assert Acts([answer] + [deregistration]) == [Act.Sent(answer)] + [Act.Sent(deregistration)];
    assert Acts([] + [deregistration]) == [Act.Sent(deregistration)];
  }

  // ---------------------------------------------------------------- runs

  /** The callback is set once, while the broker may already deliver; a message arrives when so many blocks
      can be allocated. */
  datatype Happening = CallbackSet | Delivery(message: Inbound, memory: nat) {
    predicate Valid() { Delivery? ==> Acceptable(message) }

    /** A synchronous request whose handling gets as far as the callback. */
    predicate Sync()
      requires Valid()
    {
      Delivery? && memory >= NeededBlocks(message) && SyncRequest(TypeOf(message))
    }
  }

  predicate ValidRun(happenings: seq<Happening>) {
    forall i :: 0 <= i < |happenings| ==> happenings[i].Valid()
  }

  function Happen(d: Identity, s: Dialogue, h: Happening): Dialogue
    requires h.Valid()
  {
    if s.stopped then s
    else match h
      case CallbackSet => s.(registered := true)
      case Delivery(message, memory) => Receive(d, s, message, memory)
  }

  /** The state after a run of one boot: a restart ends it. */
  function Run(d: Identity, s: Dialogue, happenings: seq<Happening>): Dialogue
    requires ValidRun(happenings)
  {
    if happenings == [] then s
    else Happen(d, Run(d, s, happenings[..|happenings| - 1]), happenings[|happenings| - 1])
  }

  predicate Registered(happenings: seq<Happening>) { CallbackSet in happenings }

  /** Some synchronous request among these ran the callback. */
  predicate SyncBefore(happenings: seq<Happening>)
    requires ValidRun(happenings)
  {
    exists i :: 0 <= i < |happenings| && happenings[i].Sync() && Registered(happenings[..i])
  }

  lemma OneMore(happenings: seq<Happening>, last: Happening)
    requires ValidRun(happenings + [last])
    ensures ValidRun(happenings) && last.Valid()
    ensures Registered(happenings + [last]) <==> Registered(happenings) || last.CallbackSet?
    ensures SyncBefore(happenings + [last]) <==> SyncBefore(happenings) || (last.Sync() && Registered(happenings))
  {
    var all, n := happenings + [last], |happenings|;
    assert all[n] == last && all[..n] == happenings;
    assert forall i :: 0 <= i < n ==> all[i] == happenings[i] && all[..i] == happenings[..i];
    if SyncBefore(happenings) {
      var i :| 0 <= i < n && happenings[i].Sync() && Registered(happenings[..i]);
      assert all[i].Sync() && Registered(all[..i]);
    }
  }

  lemma RunOneMore(d: Identity, s: Dialogue, happenings: seq<Happening>, last: Happening)
    requires ValidRun(happenings + [last])
    ensures ValidRun(happenings) && last.Valid()
    ensures Run(d, s, happenings + [last]) == Happen(d, Run(d, s, happenings), last)
  {
    var all, n := happenings + [last], |happenings|;
    assert all[n] == last && all[..n] == happenings;
    assert forall i :: 0 <= i < n ==> all[i] == happenings[i];
  }

  lemma HappenBusy(d: Identity, s: Dialogue, h: Happening)
    requires h.Valid() && !Happen(d, s, h).stopped
    ensures !s.stopped
    ensures Happen(d, s, h).busy <==> s.busy || (h.Sync() && s.registered)
    ensures Happen(d, s, h).registered <==> s.registered || h.CallbackSet?
  {
  }

  /** The busy flag is never taken back: until a restart it says whether a synchronous request ran the
      callback. Requests that arrive before the callback is set leave no trace in it. */
  lemma {:induction false} BusyIffSyncBefore(d: Identity, s: Dialogue, happenings: seq<Happening>)
    requires ValidRun(happenings) && !s.busy && !s.registered && !Run(d, s, happenings).stopped
    ensures Run(d, s, happenings).busy <==> SyncBefore(happenings)
    ensures Run(d, s, happenings).registered <==> Registered(happenings)
  {
    if happenings != [] {
      var prefix, last := happenings[..|happenings| - 1], happenings[|happenings| - 1];
      assert happenings == prefix + [last];
      RunOneMore(d, s, prefix, last);
      HappenBusy(d, Run(d, s, prefix), last);
      BusyIffSyncBefore(d, s, prefix);
      OneMore(prefix, last);
    }
  }

  /** A synchronous read, write or execute request gets the busy response exactly when the callback is set and
      it is not the first one to run it in this boot; otherwise it gets no response at all. */
  lemma {:induction false} BusyFromSecondOn(d: Identity, s: Dialogue, happenings: seq<Happening>, m: Inbound,
                                             memory: nat)
    requires ValidRun(happenings) && !s.busy && !s.registered && !Run(d, s, happenings).stopped
    requires Acceptable(m) && SyncRequest(TypeOf(m)) && memory >= SlotBlocks(m.tree)
    ensures var before := Run(d, s, happenings);
            var busy := Response(d, ReplyName(TypeOf(m)), Sid(m.tree).value, "600",
                                 Some(BusyEntries(NArraySize(m.tree))));
            Receive(d, before, m, memory).outbox == before.outbox + if SyncBefore(happenings) then [busy] else []
  {
    BusyIffSyncBefore(d, s, happenings);
    if SyncBefore(happenings) { SyncNeedsCallback(happenings); }
    ReceiveSends(d, Run(d, s, happenings), m, memory);
  }

  lemma SyncNeedsCallback(happenings: seq<Happening>)
    requires ValidRun(happenings) && SyncBefore(happenings)
    ensures Registered(happenings)
  {
  }

  /** With the callback set, a firmware message that names version and address once each starts the update
      task with exactly the values of those entries. */
  lemma FirmwareValues(d: Identity, s: Dialogue, m: Inbound, memory: nat, v: nat, u: nat)
    requires Acceptable(m) && TypeOf(m) == MESSAGE_TYPE_FIRMWARE_DOWNLOAD && Reaches(s, m, memory)
    requires DistinctUris(m.tree) && v < NArraySize(m.tree) && u < NArraySize(m.tree)
    requires Uri(m.tree, v) == "/3/0/3" && Uri(m.tree, u) == "/5/0/1"
    ensures var r := Receive(d, s, m, memory);
            && Some(r.version) == StringValue(m.tree, v) && Some(r.url) == StringValue(m.tree, u)
            && r.otaRuns == s.otaRuns + 1
  {
    LookupFindsEntry(m.tree, VERSION_URI, v, 0);
    LookupFindsEntry(m.tree, URL_URI, u, 0);
  }
}
