/** messageArrived and the callback of the application: decoding into heap blocks, dispatch, replies,
    and the release of every block. */
module Arrival {
  import opened Base
  import opened Flash
  import opened Heaps
  import opened Json
  import opened Messages
  import opened Requests
  import Topics

  const MAX_RESOURCE_SIZE := 10

  datatype Inbound = Inbound(topic: string, tree: Json)

  predicate CStringText(s: string) { NUL !in s }

  /** The field is a string in each of the first `n` entries. */
  predicate HasField(tree: Json, name: string, n: nat) {
    forall i :: 0 <= i < n ==> EntryField(tree, i, name).Some? && CStringText(EntryField(tree, i, name).value)
  }

  /** The getter finds no such field, or a string: it takes the length of the null pointer otherwise. */
  predicate StringOrAbsent(j: Option<Json>) { j.Some? ==> GetString(j).Some? }

  /** A string of fewer characters than the buffer. */
  predicate Shorter(s: Option<string>, size: nat) { s.Some? && CStringText(s.value) && |s.value| < size }

  /** What the unchecked copies and fixed buffers of messageArrived demand. */
  predicate Acceptable(m: Inbound) {
    var n := NArraySize(m.tree);
    && Readable(m.topic, m.tree)
    && |Topics.Tokens(m.topic)| >= 5 && |Topics.Tokens(m.topic)[4]| < 10
    && Sid(m.tree).Some? && |Sid(m.tree).value| < 40
    && StringOrAbsent(GetItem(Some(m.tree), "seq"))
    && StringOrAbsent(GetItem(Msg(m.tree), "rc")) && StringOrAbsent(GetItem(Msg(m.tree), "ec"))
    && n <= MAX_RESOURCE_SIZE
    && HasField(m.tree, "n", n)
    && (n > 0 ==> StringOrAbsent(GetItem(Nth(Children(EntryArray(m.tree)), 0), "sv")))
    && (StringValueLength(m.tree, 0) != 0 ==> HasField(m.tree, "sv", n))
    && (TimeLength(m.tree, 0) != 0 ==> HasField(m.tree, "ti", n))
    && (TypeOf(m) == MESSAGE_TYPE_FIRMWARE_DOWNLOAD ==>
          && LookupFits(m.tree, VERSION_URI) && Shorter(FieldAt(m.tree, VERSION_URI), 10)
          && LookupFits(m.tree, URL_URI) && Shorter(FieldAt(m.tree, URL_URI), 100))
  }

  /** What the callback demands beyond that: it copies the first name and the first value of a synchronous
      read, write or execute request, so that value must be there. */
  predicate CallbackFits(m: Inbound)
    requires Acceptable(m)
  {
    SyncRequest(TypeOf(m)) ==>
      && NArraySize(m.tree) > 0 && |Uri(m.tree, 0)| < 15
      && 0 < StringValueLength(m.tree, 0) < 15
  }

  function TypeOf(m: Inbound): int
    requires Readable(m.topic, m.tree)
  {
    MessageType(m.topic, m.tree)
  }

  predicate SyncRequest(messageType: int) {
    messageType == MESSAGE_TYPE_READ || messageType == MESSAGE_TYPE_WRITE || messageType == MESSAGE_TYPE_EXECUTE
  }

  predicate DeleteRequest(messageType: int) {
    messageType == MESSAGE_TYPE_DELETE_SYNC || messageType == MESSAGE_TYPE_DELETE_ASYNC
  }

  // ---------------------------------------------------------------- heap blocks

  /** The blocks messageArrived allocates for the entries: two for each field of each entry, and the
      fields are those whose value in entry 0 is not empty; the name always. */
  function SlotBlocks(tree: Json): nat {
    var n := NArraySize(tree);
    2 * n + (if StringValueLength(tree, 0) != 0 then 2 * n else 0) + (if TimeLength(tree, 0) != 0 then 2 * n else 0)
  }

  function NeededBlocks(m: Inbound): nat
    requires Readable(m.topic, m.tree)
  {
    SlotBlocks(m.tree) + if TypeOf(m) == MESSAGE_TYPE_FIRMWARE_DOWNLOAD then 2 else 0
  }

  /** The blocks are those of `before` and the addresses from `lo` up to `hi`. */
  ghost predicate Grown(before: map<nat, seq<char>>, blocks: map<nat, seq<char>>, lo: nat, hi: nat) {
    && (forall p :: p in blocks <==> p in before || lo <= p < hi)
    && (forall p :: p in before && p in blocks ==> blocks[p] == before[p])
  }

  /** The two pointer arrays of one field: pairs of neighbouring blocks from address `at` on, the second
      of each pair holding the field of that entry. */
  ghost predicate Filled(temp: seq<nat>, slots: seq<nat>, blocks: map<nat, seq<char>>, tree: Json, name: string,
                         at: nat, n: nat)
    requires n <= |temp| && n <= |slots|
  {
    forall i :: 0 <= i < n ==>
      && temp[i] == at + 2 * i && slots[i] == at + 2 * i + 1
      && slots[i] in blocks && Some(CString(blocks[slots[i]], 0)) == EntryField(tree, i, name)
  }

  lemma FilledGrown(temp: seq<nat>, slots: seq<nat>, before: map<nat, seq<char>>, blocks: map<nat, seq<char>>,
                    tree: Json, name: string, at: nat, n: nat, lo: nat, hi: nat)
    requires n <= |temp| && n <= |slots| && Filled(temp, slots, before, tree, name, at, n)
    requires Grown(before, blocks, lo, hi)
    ensures Filled(temp, slots, blocks, tree, name, at, n)
  {
  }

  /** malloc and copy of one string; false when memory has run out. */
  method Duplicate(heap: Heap, text: string) returns (p: nat)
    requires heap.Valid() && CStringText(text)
    modifies heap
    ensures heap.Valid()
    ensures if old(heap.budget) == 0 then
              p == NULL && heap.blocks == old(heap.blocks) && heap.next == old(heap.next) && heap.budget == 0
            else
              p == old(heap.next) && heap.next == p + 1 && heap.budget == old(heap.budget) - 1
              && p !in old(heap.blocks) && heap.blocks == old(heap.blocks)[p := text + [NUL]]
              && CString(heap.blocks[p], 0) == text
  {
    p := heap.MallocOrNull(|text| + 1);
    if p == NULL {
      return;
    }
    heap.Fill(p, text + [NUL]);
    CStringRun(text + [NUL], 0, |text|);
    assert (text + [NUL])[0..|text|] == text;
  }

  /** One round of a decoding loop: a block with the field and a second one for the record passed to the
      callback. False when memory runs out. */
  method FillSlot(heap: Heap, text: string, i: nat, temp: array<nat>, slots: array<nat>) returns (ok: bool)
    requires heap.Valid() && CStringText(text)
    requires i < temp.Length && i < slots.Length && temp != slots
    modifies heap, temp, slots
    ensures heap.Valid() && heap.next - old(heap.next) == old(heap.budget) - heap.budget >= 0
    ensures Grown(old(heap.blocks), heap.blocks, old(heap.next), heap.next)
    ensures ok <==> old(heap.budget) >= 2
    ensures if ok then heap.budget == old(heap.budget) - 2 else heap.budget == 0
    ensures ok ==> temp[..] == old(temp[..])[i := old(heap.next)]
    ensures ok ==> slots[..] == old(slots[..])[i := old(heap.next) + 1]
    ensures ok ==> CString(heap.blocks[old(heap.next) + 1], 0) == text
  {
    temp[i] := Duplicate(heap, text);
    if temp[i] == NULL {
      return false;
    }
    slots[i] := Duplicate(heap, text);
    return slots[i] != NULL;
  }

  /** One of the three decoding loops. When memory runs out, everything stays allocated. */
  method FillSlots(heap: Heap, tree: Json, name: string, n: nat, temp: array<nat>, slots: array<nat>) returns (ok: bool)
    requires heap.Valid() && HasField(tree, name, n)
    requires n <= temp.Length && n <= slots.Length && temp != slots
    modifies heap, temp, slots
    ensures heap.Valid() && heap.next - old(heap.next) == old(heap.budget) - heap.budget >= 0
    ensures Grown(old(heap.blocks), heap.blocks, old(heap.next), heap.next)
    ensures ok <==> old(heap.budget) >= 2 * n
    ensures if ok then heap.budget == old(heap.budget) - 2 * n else heap.budget == 0
    ensures ok ==> Filled(temp[..], slots[..], heap.blocks, tree, name, old(heap.next), n)
  {
    var i: nat := 0;
    while i < n
      invariant i <= n && heap.Valid()
      invariant heap.next == old(heap.next) + 2 * i && heap.budget == old(heap.budget) - 2 * i
      invariant Grown(old(heap.blocks), heap.blocks, old(heap.next), heap.next)
      invariant Filled(temp[..], slots[..], heap.blocks, tree, name, old(heap.next), i)
    {
      ghost var before, mid := heap.blocks, heap.next;
      ghost var temps, strings := temp[..], slots[..];
      ok := FillSlot(heap, EntryField(tree, i, name).value, i, temp, slots);
      GrownTwice(old(heap.blocks), before, heap.blocks, old(heap.next), mid, heap.next);
      if !ok {
        return;
      }
      FilledGrown(temps, strings, before, heap.blocks, tree, name, old(heap.next), i, mid, heap.next);
      i := i + 1;
    }
    return true;
  }

  /** The six local pointer arrays: three initialised to NULL, three inside the uninitialised record. */
  class Slots {
    const name: array<nat>
    const sv: array<nat>
    const ti: array<nat>
    const resourceUri: array<nat>
    const stringValue: array<nat>
    const time: array<nat>

    ghost predicate Valid() {
      && name.Length == sv.Length == ti.Length == MAX_RESOURCE_SIZE
      && resourceUri.Length == stringValue.Length == time.Length == MAX_RESOURCE_SIZE
      && name !in {sv, ti, resourceUri, stringValue, time} && sv !in {ti, resourceUri, stringValue, time}
      && ti !in {resourceUri, stringValue, time} && resourceUri !in {stringValue, time} && stringValue != time
    }

    ghost function Arrays(): set<array<nat>> { {name, sv, ti, resourceUri, stringValue, time} }

    constructor ()
      ensures Valid() && fresh(Arrays())
    {
      name := new nat[MAX_RESOURCE_SIZE](_ => NULL);
      sv := new nat[MAX_RESOURCE_SIZE](_ => NULL);
      ti := new nat[MAX_RESOURCE_SIZE](_ => NULL);
      resourceUri := new nat[MAX_RESOURCE_SIZE];
      stringValue := new nat[MAX_RESOURCE_SIZE];
      time := new nat[MAX_RESOURCE_SIZE];
    }
  }

  predicate HasValues(tree: Json) { StringValueLength(tree, 0) != 0 }
  predicate HasTimes(tree: Json) { TimeLength(tree, 0) != 0 }

  /** Where the blocks of the values and of the times begin, when those of the names begin at `at`. */
  function ValuesAt(tree: Json, at: nat): nat { at + 2 * NArraySize(tree) }
  function TimesAt(tree: Json, at: nat): nat {
    ValuesAt(tree, at) + if HasValues(tree) then 2 * NArraySize(tree) else 0
  }

  /** Every filled slot holds the field of its entry. */
  ghost predicate Decoded(s: Slots, blocks: map<nat, seq<char>>, tree: Json, at: nat)
    requires s.Valid() && NArraySize(tree) <= MAX_RESOURCE_SIZE
    reads s.Arrays()
  {
    var n := NArraySize(tree);
    && Filled(s.name[..], s.resourceUri[..], blocks, tree, "n", at, n)
    && (HasValues(tree) ==> Filled(s.sv[..], s.stringValue[..], blocks, tree, "sv", ValuesAt(tree, at), n))
    && (HasTimes(tree) ==> Filled(s.ti[..], s.time[..], blocks, tree, "ti", TimesAt(tree, at), n))
  }

  lemma GrownTwice(a: map<nat, seq<char>>, b: map<nat, seq<char>>, c: map<nat, seq<char>>, lo: nat, mid: nat, hi: nat)
    requires Grown(a, b, lo, mid) && Grown(b, c, mid, hi) && lo <= mid <= hi
    ensures Grown(a, c, lo, hi)
  {
  }

  /** The decoding part of messageArrived. The slots of a skipped field stay as they were. */
  method DecodeEntries(heap: Heap, tree: Json, s: Slots) returns (ok: bool)
    requires heap.Valid() && s.Valid() && NArraySize(tree) <= MAX_RESOURCE_SIZE
    requires HasField(tree, "n", NArraySize(tree))
    requires HasValues(tree) ==> HasField(tree, "sv", NArraySize(tree))
    requires HasTimes(tree) ==> HasField(tree, "ti", NArraySize(tree))
    modifies heap, s.Arrays()
    ensures heap.Valid() && heap.next - old(heap.next) == old(heap.budget) - heap.budget >= 0
    ensures Grown(old(heap.blocks), heap.blocks, old(heap.next), heap.next)
    ensures ok <==> old(heap.budget) >= SlotBlocks(tree)
    ensures if ok then heap.budget == old(heap.budget) - SlotBlocks(tree) else heap.budget == 0
    ensures ok ==> Decoded(s, heap.blocks, tree, old(heap.next))
    ensures !HasValues(tree) ==> s.sv[..] == old(s.sv[..]) && s.stringValue[..] == old(s.stringValue[..])
    ensures !HasTimes(tree) ==> s.ti[..] == old(s.ti[..]) && s.time[..] == old(s.time[..])
  {
    var n := NArraySize(tree);
    ghost var before := heap.blocks;
    ok := FillSlots(heap, tree, "n", n, s.name, s.resourceUri);
    if !ok {
      return;
    }
    if StringValueLength(tree, 0) != 0 {
      ghost var middle, mid := heap.blocks, heap.next;
      ok := FillSlots(heap, tree, "sv", n, s.sv, s.stringValue);
      GrownTwice(before, middle, heap.blocks, old(heap.next), mid, heap.next);
      if !ok {
        return;
      }
      FilledGrown(s.name[..], s.resourceUri[..], middle, heap.blocks, tree, "n", old(heap.next), n, mid, heap.next);
    }
    if TimeLength(tree, 0) != 0 {
      ghost var middle, mid := heap.blocks, heap.next;
      ok := FillSlots(heap, tree, "ti", n, s.ti, s.time);
      GrownTwice(before, middle, heap.blocks, old(heap.next), mid, heap.next);
      if !ok {
        return;
      }
      FilledGrown(s.name[..], s.resourceUri[..], middle, heap.blocks, tree, "n", old(heap.next), n, mid, heap.next);
      if HasValues(tree) {
        ghost var values := ValuesAt(tree, old(heap.next));
        FilledGrown(s.sv[..], s.stringValue[..], middle, heap.blocks, tree, "sv", values, n, mid, heap.next);
      }
    }
  }

  predicate Between(p: nat, lo: nat, hi: nat) { lo <= p < hi }

  /** The pointers of the three fields, without their contents. */
  ghost predicate Pointed(s: Slots, tree: Json, at: nat)
    requires s.Valid() && NArraySize(tree) <= MAX_RESOURCE_SIZE
    reads s.Arrays()
  {
    forall i :: 0 <= i < NArraySize(tree) ==>
      && s.name[i] == at + 2 * i && s.resourceUri[i] == at + 2 * i + 1
      && (HasValues(tree) ==>
            s.sv[i] == ValuesAt(tree, at) + 2 * i && s.stringValue[i] == ValuesAt(tree, at) + 2 * i + 1)
      && (HasTimes(tree) ==>
            s.ti[i] == TimesAt(tree, at) + 2 * i && s.time[i] == TimesAt(tree, at) + 2 * i + 1)
  }

  lemma DecodedPointed(s: Slots, blocks: map<nat, seq<char>>, tree: Json, at: nat)
    requires s.Valid() && NArraySize(tree) <= MAX_RESOURCE_SIZE && Decoded(s, blocks, tree, at)
    ensures Pointed(s, tree, at)
  {
  }

  /** The addresses freed in the first `k` rounds. */
  predicate FreedBy(tree: Json, at: nat, k: nat, p: nat) {
    || Between(p, at, at + 2 * k)
    || (HasValues(tree) && Between(p, ValuesAt(tree, at), ValuesAt(tree, at) + 2 * k))
    || (HasTimes(tree) && Between(p, TimesAt(tree, at), TimesAt(tree, at) + 2 * k))
  }

  /** `if (p) free(p);` for a pair of pointers to neighbouring blocks. */
  method FreePair(heap: Heap, p: nat, q: nat)
    requires heap.Valid() && q == p + 1 && p in heap.blocks && q in heap.blocks
    modifies heap`blocks
    ensures heap.Valid() && heap.blocks == old(heap.blocks) - {p, q}
  {
    if p != NULL {
      heap.Free(p);
    }
    if q != NULL {
      heap.Free(q);
    }
  }

  /** The names of one round, the values, and the times: their slots are read only when they were filled. */
  method FreeNames(heap: Heap, tree: Json, s: Slots, i: nat, ghost at: nat)
    requires heap.Valid() && s.Valid() && i < NArraySize(tree) <= MAX_RESOURCE_SIZE && Pointed(s, tree, at)
    requires Pair(at, i) <= heap.blocks.Keys
    modifies heap`blocks
    ensures heap.Valid() && heap.blocks == old(heap.blocks) - Pair(at, i)
  {
    FreePair(heap, s.name[i], s.resourceUri[i]);
  }

  method FreeValues(heap: Heap, tree: Json, s: Slots, i: nat, ghost at: nat)
    requires heap.Valid() && s.Valid() && i < NArraySize(tree) <= MAX_RESOURCE_SIZE && Pointed(s, tree, at)
    requires ValuePair(tree, at, i) <= heap.blocks.Keys
    modifies heap`blocks
    ensures heap.Valid() && heap.blocks == old(heap.blocks) - ValuePair(tree, at, i)
  {
    if StringValueLength(tree, 0) != 0 {
      FreePair(heap, s.sv[i], s.stringValue[i]);
    }
  }

  method FreeTimes(heap: Heap, tree: Json, s: Slots, i: nat, ghost at: nat)
    requires heap.Valid() && s.Valid() && i < NArraySize(tree) <= MAX_RESOURCE_SIZE && Pointed(s, tree, at)
    requires TimePair(tree, at, i) <= heap.blocks.Keys
    modifies heap`blocks
    ensures heap.Valid() && heap.blocks == old(heap.blocks) - TimePair(tree, at, i)
  {
    if TimeLength(tree, 0) != 0 {
      FreePair(heap, s.ti[i], s.time[i]);
    }
  }

  lemma PairsApart(tree: Json, at: nat, k: nat)
    requires k < NArraySize(tree)
    ensures Pair(at, k) !! ValuePair(tree, at, k) && (Pair(at, k) + ValuePair(tree, at, k)) !! TimePair(tree, at, k)
  {
  }

  lemma MinusThree(blocks: map<nat, seq<char>>, a: set<nat>, b: set<nat>, c: set<nat>)
    requires a !! b && (a + b) !! c && a + b + c <= blocks.Keys
    ensures blocks - a - b - c == blocks - (a + b + c)
    ensures b <= (blocks - a).Keys && c <= (blocks - a - b).Keys
  {
  }

  /** One round of the freeing loop. */
  method FreeRound(heap: Heap, tree: Json, s: Slots, i: nat, ghost at: nat)
    requires heap.Valid() && s.Valid() && i < NArraySize(tree) <= MAX_RESOURCE_SIZE && Pointed(s, tree, at)
    requires Round(tree, at, i) <= heap.blocks.Keys
    modifies heap`blocks
    ensures heap.Valid() && heap.blocks == old(heap.blocks) - Round(tree, at, i)
  {
    PairsApart(tree, at, i);
    MinusThree(heap.blocks, Pair(at, i), ValuePair(tree, at, i), TimePair(tree, at, i));
    FreeNames(heap, tree, s, i, at);
    FreeValues(heap, tree, s, i, at);
    FreeTimes(heap, tree, s, i, at);
  }

  /** The freeing loop: what the decoding loops allocated, and no slot they skipped. */
  method FreeEntries(heap: Heap, tree: Json, s: Slots, ghost at: nat)
    requires heap.Valid() && s.Valid() && NArraySize(tree) <= MAX_RESOURCE_SIZE && Pointed(s, tree, at)
    requires forall p :: Between(p, at, at + SlotBlocks(tree)) ==> p in heap.blocks
    modifies heap`blocks
    ensures heap.Valid()
    ensures heap.blocks ==
            map p | p in old(heap.blocks) && !Between(p, at, at + SlotBlocks(tree)) :: old(heap.blocks)[p]
  {
    var n := NArraySize(tree);
    var i: nat := 0;
    ghost var full := heap.blocks;
    while i < n
      invariant i <= n && heap.Valid()
      invariant heap.blocks == Without(full, tree, at, i)
    {
      WithoutOneMore(full, tree, at, i);
      FreeRound(heap, tree, s, i, at);
      i := i + 1;
    }
    WithoutAll(full, tree, at);
  }

  /** The blocks left after `k` rounds of freeing. */
  ghost function Without(full: map<nat, seq<char>>, tree: Json, at: nat, k: nat): map<nat, seq<char>> {
    map p | p in full && !FreedBy(tree, at, k, p) :: full[p]
  }

  /** The pairs freed in round `k`. */
  ghost function Pair(at: nat, k: nat): set<nat> { {at + 2 * k, at + 2 * k + 1} }

  ghost function ValuePair(tree: Json, at: nat, k: nat): set<nat> {
    if HasValues(tree) then Pair(ValuesAt(tree, at), k) else {}
  }

  ghost function TimePair(tree: Json, at: nat, k: nat): set<nat> {
    if HasTimes(tree) then Pair(TimesAt(tree, at), k) else {}
  }

  ghost function Round(tree: Json, at: nat, k: nat): set<nat> {
    Pair(at, k) + ValuePair(tree, at, k) + TimePair(tree, at, k)
  }

  lemma WithoutOneMore(full: map<nat, seq<char>>, tree: Json, at: nat, k: nat)
    requires k < NArraySize(tree) && forall p :: Between(p, at, at + SlotBlocks(tree)) ==> p in full
    ensures Without(full, tree, at, k + 1) == Without(full, tree, at, k) - Round(tree, at, k)
    ensures Round(tree, at, k) <= Without(full, tree, at, k).Keys
  {
    forall p: nat
      ensures FreedBy(tree, at, k + 1, p) <==> FreedBy(tree, at, k, p) || p in Round(tree, at, k)
    {
    }
    forall p | p in Round(tree, at, k)
      ensures Between(p, at, at + SlotBlocks(tree)) && !FreedBy(tree, at, k, p)
    {
    }
  }

  lemma WithoutAll(full: map<nat, seq<char>>, tree: Json, at: nat)
    ensures Without(full, tree, at, NArraySize(tree)) ==
            map p | p in full && !Between(p, at, at + SlotBlocks(tree)) :: full[p]
  {
    forall p: nat
      ensures FreedBy(tree, at, NArraySize(tree), p) <==> Between(p, at, at + SlotBlocks(tree))
    {
    }
  }

  // ---------------------------------------------------------------- replies

  /** The response builders of the SDK: a result code, and for a busy response one entry per request entry. */
  function Response(d: Identity, operation: string, sid: string, code: string, entries: Option<seq<Json>>):
    Publication
  {
    var result := [("o", Str("res")), ("rc", Str(code))];
    Publication(d.Topic(operation),
                Obj([("sid", Str(sid)), ("did", Str(d.Id())),
                     ("msg", Obj(if entries.Some? then result + [("e", Arr(entries.value))] else result))]))
  }

  /** The topic level of a control request. */
  function ControlName(messageType: int): string
    requires SyncRequest(messageType)
  {
    if messageType == MESSAGE_TYPE_READ then "read"
    else if messageType == MESSAGE_TYPE_WRITE then "write"
    else "execute"
  }

  function BusyEntries(n: nat): seq<Json> { seq(n, _ => Obj([("sv", Str("busy"))])) }

  /** What leaves the device, in order. */
  datatype Act = Sent(publication: Publication) | PartitionErased | RestartRequested

  function Acts(publications: seq<Publication>): seq<Act> {
    seq(|publications|, i requires 0 <= i < |publications| => Sent(publications[i]))
  }

  /** What the application knows: the state that messages change, and everything it did. `registered`: the
      callback is set. */
  datatype Dialogue = Dialogue(registered: bool, busy: bool, number: nat, outbox: seq<Publication>, trace: seq<Act>,
                               version: string, url: string, otaRuns: nat, nvs: Partition, stopped: bool)

  /** The responses to one message. */
  function Responses(d: Identity, m: Inbound, busy: bool): seq<Publication>
    requires Acceptable(m)
  {
    var t, sid := TypeOf(m), Sid(m.tree).value;
    if t == MESSAGE_TYPE_DELETE_SYNC then [Response(d, "delete", sid, "200", None)]
    else if t == MESSAGE_TYPE_FIRMWARE_DOWNLOAD && Topics.Tokens(m.topic)[4] == "write" then
      [Response(d, "write", sid, "200", None)]
    else if SyncRequest(t) && busy then
      [Response(d, ControlName(t), sid, "600", Some(BusyEntries(NArraySize(m.tree))))]
    else []
  }

  /** The callback erases the partition and restarts. */
  predicate Erases(m: Inbound)
    requires Acceptable(m)
  {
    DeleteRequest(TypeOf(m)) || (ReturnCode(m.tree) == 404 && ErrorCode(m.tree) == 40443)
  }

  function Sends(s: Dialogue, publications: seq<Publication>): Dialogue {
    s.(outbox := s.outbox + publications, trace := s.trace + Acts(publications))
  }

  /** The replies messageArrived sends itself: to a delete request the deregistration follows the response. */
  function AfterReplies(d: Identity, s: Dialogue, m: Inbound): Dialogue
    requires Acceptable(m)
  {
    var t := if SyncRequest(TypeOf(m)) then s else Sends(s, Responses(d, m, s.busy));
    if DeleteRequest(TypeOf(m)) then
      Sends(t, Published(d, Delete(true), s.number)).(number := After(s.number, 1))
    else t
  }

  /** The callback. */
  function AfterCallback(d: Identity, s: Dialogue, m: Inbound): Dialogue
    requires Acceptable(m)
  {
    var sync, firmware := SyncRequest(TypeOf(m)), TypeOf(m) == MESSAGE_TYPE_FIRMWARE_DOWNLOAD;
    var t := if sync then Sends(s, Responses(d, m, s.busy)).(busy := true) else s;
    var u := if firmware then
               t.(version := FieldAt(m.tree, VERSION_URI).value, url := FieldAt(m.tree, URL_URI).value,
                  otaRuns := s.otaRuns + 1)
             else t;
    if Erases(m) then Erased(u) else u
  }

  function Erased(s: Dialogue): Dialogue {
    s.(nvs := ERASED, stopped := true, trace := s.trace + [PartitionErased, RestartRequested])
  }

  /** messageArrived, when `memory` blocks can be allocated: it gives up at the first that is missing. */
  function Receive(d: Identity, s: Dialogue, m: Inbound, memory: nat): Dialogue
    requires Acceptable(m)
  {
    if memory < SlotBlocks(m.tree) then s
    else if memory < NeededBlocks(m) || !s.registered then AfterReplies(d, s, m)
    else AfterCallback(d, AfterReplies(d, s, m), m)
  }

  class Client {
    const requester: Requester
    const heap: Heap
    /** `callbackFunc` is not the null pointer. */
    var registered: bool
    var busyFlag: bool
    var otaVersion: string
    var otaUrl: string
    /** How often ota_task_init started the update task. */
    var otaRuns: nat
    var stopped: bool
    ghost var trace: seq<Act>

    ghost predicate Valid()
      reads this, requester, heap
    {
      requester.Valid() && heap.Valid()
    }

    ghost function Now(): Dialogue
      reads this, requester, requester.flash
    {
      Dialogue(registered, busyFlag, requester.sequence, requester.outbox, trace, otaVersion, otaUrl, otaRuns,
               requester.flash.nvs, stopped)
    }

    constructor (requester: Requester, heap: Heap)
      ensures this.requester == requester && this.heap == heap && trace == []
      ensures !registered && !busyFlag && otaRuns == 0 && !stopped
    {
      this.requester, this.heap, trace, registered := requester, heap, [], false;
      busyFlag, otaVersion, otaUrl, otaRuns, stopped := false, "", "", 0, false;
    }

    /** damda_setMQTTMsgReceiveCallback. */
    method SetCallback()
      modifies `registered
      ensures registered
    {
      registered := true;
    }

    /** damda_Rsp_RemoteControl_noEntity, damda_Rsp_RemoteDelDevice and damda_Rsp_Client_Busy. */
    method Respond(operation: string, sid: string, code: string, entries: Option<seq<Json>>)
      requires Valid()
      modifies `trace, requester`outbox
      ensures Valid() && Now() == Sends(old(Now()), [Response(requester.device, operation, sid, code, entries)])
    {
      var response := Response(requester.device, operation, sid, code, entries);
      requester.outbox := requester.outbox + [response];
      trace := trace + Acts([response]);
    }

    /** damda_Req_DeleteDevice. */
    method Deregister()
      requires Valid()
      modifies `trace, requester
      ensures Valid()
      ensures Now() == Sends(old(Now()), Published(requester.device, Delete(true), old(Now()).number)).(
                         number := After(old(Now()).number, 1))
    {
      trace := trace + Acts(Published(requester.device, Delete(true), requester.sequence));
      var _ := requester.DeleteDevice(true);
    }

    /** `nvs_flash_erase(); esp_restart();`. */
    method EraseAndRestart()
      requires Valid()
      modifies `trace, `stopped, requester.flash
      ensures Valid() && Now() == Erased(old(Now()))
    {
      requester.flash.Erase();
      trace := trace + [PartitionErased];
      stopped := true;
      trace := trace + [RestartRequested];
    }

    /** The part of the callback for synchronous requests. */
    method AnswerSync(m: Inbound)
      requires Acceptable(m) && CallbackFits(m) && Valid()
      modifies `busyFlag, `trace, requester`outbox
      ensures Valid()
      ensures Now() == if SyncRequest(TypeOf(m)) then
                         Sends(old(Now()), Responses(requester.device, m, old(busyFlag))).(busy := true)
                       else old(Now())
    {
      var t := TypeOf(m);
      if t == MESSAGE_TYPE_READ || t == MESSAGE_TYPE_WRITE || t == MESSAGE_TYPE_EXECUTE {
        if busyFlag {
          Respond(ControlName(t), Sid(m.tree).value, "600", Some(BusyEntries(NArraySize(m.tree))));
        }
        busyFlag := true;
      }
    }

    /** The part of the callback for firmware messages. */
    method StartUpdate(version: string, url: string)
      requires Valid()
      modifies `otaVersion, `otaUrl, `otaRuns
      ensures Valid() && Now() == old(Now()).(version := version, url := url, otaRuns := old(otaRuns) + 1)
    {
      otaVersion := version;
      otaUrl := url;
      otaRuns := otaRuns + 1;
    }

    /** customMQTTMsgReceive, with the strings of the firmware record if there are any. */
    method Callback(m: Inbound, version: string, url: string)
      requires Acceptable(m) && CallbackFits(m) && Valid()
      requires TypeOf(m) == MESSAGE_TYPE_FIRMWARE_DOWNLOAD ==>
                 version == FieldAt(m.tree, VERSION_URI).value && url == FieldAt(m.tree, URL_URI).value
      modifies this, requester`outbox, requester.flash
      ensures Valid() && Now() == AfterCallback(requester.device, old(Now()), m)
    {
      var t := TypeOf(m);
      AnswerSync(m);
      if t == MESSAGE_TYPE_FIRMWARE_DOWNLOAD {
        StartUpdate(version, url);
      }
      if ReturnCode(m.tree) == 404 && ErrorCode(m.tree) == 40443 {
        EraseAndRestart();
        return;
      }
      if t == MESSAGE_TYPE_DELETE_SYNC || t == MESSAGE_TYPE_DELETE_ASYNC {
        EraseAndRestart();
        return;
      }
    }

    /** The response to a firmware message that came on a write topic. */
    method AnswerFirmware(m: Inbound)
      requires Acceptable(m) && Valid() && TypeOf(m) == MESSAGE_TYPE_FIRMWARE_DOWNLOAD
      modifies `trace, requester`outbox
      ensures Valid() && Now() == Sends(old(Now()), Responses(requester.device, m, busyFlag))
    {
      var operation := Topics.GetLevelAfter(m.topic, 3);
      if operation.value == "write" {
        Respond("write", Sid(m.tree).value, "200", None);
      }
    }

    /** The replies messageArrived sends itself, before the callback. */
    method ReplyBeforeCallback(m: Inbound)
      requires Acceptable(m) && Valid()
      modifies `trace, requester
      ensures Valid() && Now() == AfterReplies(requester.device, old(Now()), m)
    {
      var t := TypeOf(m);
      if t == MESSAGE_TYPE_DELETE_SYNC {
        Respond("delete", Sid(m.tree).value, "200", None);
        Deregister();
      } else if t == MESSAGE_TYPE_DELETE_ASYNC {
        Deregister();
      }
      if t == MESSAGE_TYPE_FIRMWARE_DOWNLOAD {
        AnswerFirmware(m);
      }
    }

    /** The firmware part of messageArrived: two more blocks, for the address and the version. */
    method DecodeFirmware(m: Inbound) returns (ok: bool, url: nat, version: nat, urlText: string, versionText: string)
      requires Acceptable(m) && Valid() && TypeOf(m) == MESSAGE_TYPE_FIRMWARE_DOWNLOAD
      modifies heap
      ensures Valid() && heap.next - old(heap.next) == old(heap.budget) - heap.budget >= 0
      ensures Grown(old(heap.blocks), heap.blocks, old(heap.next), heap.next)
      ensures ok <==> old(heap.budget) >= 2
      ensures if ok then heap.budget == old(heap.budget) - 2 else heap.budget == 0
      ensures ok ==> url == old(heap.next) && version == url + 1
      ensures ok ==> urlText == FieldAt(m.tree, URL_URI).value && versionText == FieldAt(m.tree, VERSION_URI).value
    {
      ok, version, urlText, versionText := false, NULL, "", "";
      var u := StringValueByResourceUri(m.tree, URL_URI);
      url := Duplicate(heap, u.value);
      if url == NULL {
        return;
      }
      var v := StringValueByResourceUri(m.tree, VERSION_URI);
      version := Duplicate(heap, v.value);
      if version == NULL {
        return;
      }
      ok, urlText, versionText := true, CString(heap.blocks[url], 0), CString(heap.blocks[version], 0);
    }

    /** The end of messageArrived: the freeing loop and the two firmware strings. */
    method Release(m: Inbound, s: Slots, url: nat, version: nat, ghost before: map<nat, seq<char>>, ghost at: nat)
      requires Acceptable(m) && Valid() && s.Valid() && Pointed(s, m.tree, at)
      requires Grown(before, heap.blocks, at, at + NeededBlocks(m)) && forall p :: p in before ==> p < at
      requires TypeOf(m) == MESSAGE_TYPE_FIRMWARE_DOWNLOAD ==> url == at + SlotBlocks(m.tree) && version == url + 1
      modifies heap`blocks
      ensures Valid() && heap.blocks == before
    {
      ghost var end := at + SlotBlocks(m.tree);
      assert TypeOf(m) == MESSAGE_TYPE_FIRMWARE_DOWNLOAD ==> end in heap.blocks && end + 1 in heap.blocks;
      FreeEntries(heap, m.tree, s, at);
      if TypeOf(m) == MESSAGE_TYPE_FIRMWARE_DOWNLOAD {
        FreePair(heap, url, version);
      }
    }

    /** messageArrived behind the decoding loops, which took the blocks from `at` on. */
    method Dispatch(m: Inbound, s: Slots, ghost before: map<nat, seq<char>>, ghost at: nat)
      requires Acceptable(m) && (registered ==> CallbackFits(m)) && Valid() && !stopped
      requires s.Valid() && Pointed(s, m.tree, at)
      requires Grown(before, heap.blocks, at, heap.next) && heap.next == at + SlotBlocks(m.tree)
      requires forall p :: p in before ==> p < at
      modifies this, requester, requester.flash, heap
      ensures Valid()
      ensures Now() == Receive(requester.device, old(Now()), m, SlotBlocks(m.tree) + old(heap.budget))
      ensures SlotBlocks(m.tree) + old(heap.budget) >= NeededBlocks(m) && !stopped ==> heap.blocks == before
      ensures SlotBlocks(m.tree) + old(heap.budget) < NeededBlocks(m) ==>
                Grown(before, heap.blocks, at, at + SlotBlocks(m.tree) + old(heap.budget))
    {
      ReplyBeforeCallback(m);
      var url: nat, version: nat := NULL, NULL;
      var urlText, versionText := "", "";
      if TypeOf(m) == MESSAGE_TYPE_FIRMWARE_DOWNLOAD {
        ghost var middle, mid := heap.blocks, heap.next;
        var ok;
        ok, url, version, urlText, versionText := DecodeFirmware(m);
        GrownTwice(before, middle, heap.blocks, at, mid, heap.next);
        if !ok {
          return;
        }
      }
      if registered {
        Callback(m, versionText, urlText);
        if stopped {
          return;
        }
      }
      Release(m, s, url, version, before, at);
    }

    /** messageArrived. When all allocations succeed and the callback, if it is set, returns, the heap is as before.
        When one fails, everything allocated until then stays allocated: `old(heap.budget)` blocks. */
    method MessageArrived(m: Inbound)
      requires Acceptable(m) && (registered ==> CallbackFits(m)) && Valid() && !stopped
      modifies this, requester, requester.flash, heap
      ensures Valid()
      ensures Now() == Receive(requester.device, old(Now()), m, old(heap.budget))
      ensures old(heap.budget) >= NeededBlocks(m) && !stopped ==> heap.blocks == old(heap.blocks)
      ensures old(heap.budget) < NeededBlocks(m) ==>
                Grown(old(heap.blocks), heap.blocks, old(heap.next), old(heap.next) + old(heap.budget))
    {
      var s := new Slots();
      ghost var at, before := heap.next, heap.blocks;
      var ok := DecodeEntries(heap, m.tree, s);
      if !ok {
        return;
      }
      DecodedPointed(s, heap.blocks, m.tree, at);
      Dispatch(m, s, before, at);
    }
  }
}
