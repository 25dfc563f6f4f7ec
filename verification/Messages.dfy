/** Classification of an inbound message, and the lookup of the firmware entries. */
module Messages {
  import opened Base
  import opened Json
  import Topics

  const MESSAGE_TYPE_UNKNOWN := -1
  const MESSAGE_TYPE_RESPONSE := 1
  const MESSAGE_TYPE_READ := 2
  const MESSAGE_TYPE_WRITE := 3
  const MESSAGE_TYPE_EXECUTE := 4
  const MESSAGE_TYPE_DELETE_SYNC := 5
  const MESSAGE_TYPE_DELETE_ASYNC := 6
  const MESSAGE_TYPE_FIRMWARE_DOWNLOAD := 7
  const MESSAGE_TYPE_READ_ASYNC := 8
  const MESSAGE_TYPE_WRITE_ASYNC := 9
  const MESSAGE_TYPE_EXECUTE_ASYNC := 10

  const VERSION_URI := "/3/0/3"
  const URL_URI := "/5/0/1"

  /** Every entry has a name; the loops below copy it without a check. */
  predicate Named(tree: Json) {
    forall i :: 0 <= i < NArraySize(tree) ==> ResourceUri(tree, i).Some?
  }

  /** The names fit the buffer of isFirmwareUpdateMessage. */
  predicate NamesFit(tree: Json) {
    Named(tree) && forall i :: 0 <= i < NArraySize(tree) ==> |Uri(tree, i)| < 80
  }

  function Uri(tree: Json, i: nat): string
    requires Named(tree) && i < NArraySize(tree)
  {
    ResourceUri(tree, i).value
  }

  /** How many of the first `n` entries have this name. */
  function Count(tree: Json, uri: string, n: nat): (c: nat)
    requires Named(tree) && n <= NArraySize(tree)
    ensures c <= n
  {
    if n == 0 then 0 else Count(tree, uri, n - 1) + if Uri(tree, n - 1) == uri then 1 else 0
  }

  function Occurrences(tree: Json, uri: string): nat
    requires Named(tree)
  {
    Count(tree, uri, NArraySize(tree))
  }

  predicate Present(tree: Json, uri: string)
    requires Named(tree)
  {
    exists i :: 0 <= i < NArraySize(tree) && Uri(tree, i) == uri
  }

  predicate IsFirmware(tree: Json)
    requires Named(tree)
  {
    Occurrences(tree, VERSION_URI) + Occurrences(tree, URL_URI) == 2
  }

  /** One entry counts once at most. */
  lemma CountBoth(tree: Json, i: nat)
    requires Named(tree) && i < NArraySize(tree)
    ensures var n := Uri(tree, i);
            Count(tree, VERSION_URI, i + 1) + Count(tree, URL_URI, i + 1) ==
            Count(tree, VERSION_URI, i) + Count(tree, URL_URI, i) + if n == VERSION_URI || n == URL_URI then 1 else 0
  {
    assert VERSION_URI[1] != URL_URI[1];
  }

  /** isFirmwareUpdateMessage. */
  method IsFirmwareUpdateMessage(tree: Json) returns (r: bool)
    requires NamesFit(tree)
    ensures r == IsFirmware(tree)
  {
    var size := NArraySize(tree);
    var updateNCount: nat := 0;
    if size == 0 {
      return false;
    }
    var i: nat := 0;
    while i < size
      invariant i <= size
      invariant updateNCount == Count(tree, VERSION_URI, i) + Count(tree, URL_URI, i)
    {
      var n := ResourceUri(tree, i).value;
      if n == VERSION_URI || n == URL_URI {
        updateNCount := updateNCount + 1;
      }
      CountBoth(tree, i);
      i := i + 1;
    }
    return updateNCount == 2;
  }

  /** The value of the first entry with this name, from entry `from` on. */
  function FieldFrom(tree: Json, uri: string, from: nat): Option<string>
    requires Named(tree) && from <= NArraySize(tree)
    decreases NArraySize(tree) - from
  {
    if from == NArraySize(tree) then None
    else if Uri(tree, from) == uri then StringValue(tree, from)
    else FieldFrom(tree, uri, from + 1)
  }

  function FieldAt(tree: Json, uri: string): Option<string>
    requires Named(tree)
  {
    FieldFrom(tree, uri, 0)
  }

  /** The names a lookup of `uri` copies, those up to the first match, fit its buffer. */
  predicate LookupFits(tree: Json, uri: string)
    requires Named(tree)
  {
    forall i :: 0 <= i < NArraySize(tree) && (forall j :: 0 <= j < i ==> Uri(tree, j) != uri) ==> |Uri(tree, i)| < 15
  }

  /** getStringValueByResourceUri. None: the caller's buffer is left as it was. */
  method StringValueByResourceUri(tree: Json, uri: string) returns (r: Option<string>)
    requires Named(tree) && LookupFits(tree, uri)
    ensures r == FieldAt(tree, uri)
  {
    var size := NArraySize(tree);
    if size == 0 {
      return None;
    }
    var i: nat := 0;
    while i < size
      invariant i <= size
      invariant FieldAt(tree, uri) == FieldFrom(tree, uri, i)
    {
      if ResourceUri(tree, i).value == uri {
        return StringValue(tree, i);
      }
      i := i + 1;
    }
    return None;
  }

  // ---------------------------------------------------------------- counting against looking up

  predicate DistinctUris(tree: Json)
    requires Named(tree)
  {
    forall i, j :: 0 <= i < j < NArraySize(tree) ==> Uri(tree, i) != Uri(tree, j)
  }

  lemma {:induction false} CountPositive(tree: Json, uri: string, n: nat)
    requires Named(tree) && n <= NArraySize(tree)
    ensures Count(tree, uri, n) > 0 <==> exists i :: 0 <= i < n && Uri(tree, i) == uri
  {
    if n > 0 { CountPositive(tree, uri, n - 1); }
  }

  lemma {:induction false} CountOfDistinct(tree: Json, uri: string, n: nat)
    requires Named(tree) && n <= NArraySize(tree) && DistinctUris(tree)
    ensures Count(tree, uri, n) <= 1
  {
    if n > 0 {
      CountOfDistinct(tree, uri, n - 1);
      CountPositive(tree, uri, n - 1);
    }
  }

  /** The classification counts occurrences, the lookups need one of each name. The two agree exactly
      when no name is missing while the other occurs twice, and both names together are not repeated. */
  lemma FirmwareIffBothPresent(tree: Json)
    requires Named(tree)
    ensures var v, u := Occurrences(tree, VERSION_URI), Occurrences(tree, URL_URI);
            (IsFirmware(tree) <==> Present(tree, VERSION_URI) && Present(tree, URL_URI)) <==>
            (v == 1 && u == 1) || (v == 0 && u != 2) || (u == 0 && v != 2)
  {
    CountPositive(tree, VERSION_URI, NArraySize(tree));
    CountPositive(tree, URL_URI, NArraySize(tree));
  }

  /** With distinct names a message is a firmware message exactly when both names occur. */
  lemma {:induction false} FirmwareOfDistinct(tree: Json)
    requires Named(tree) && DistinctUris(tree)
    ensures IsFirmware(tree) <==> Present(tree, "/3/0/3") && Present(tree, "/5/0/1")
  {
    CountOfDistinct(tree, VERSION_URI, NArraySize(tree));
    CountOfDistinct(tree, URL_URI, NArraySize(tree));
    FirmwareIffBothPresent(tree);
  }

  /** A lookup finds the value of the first entry with the name. */
  lemma {:induction false} LookupFindsFirst(tree: Json, uri: string, i: nat, from: nat)
    requires Named(tree) && from <= i < NArraySize(tree) && Uri(tree, i) == uri
    requires forall j :: from <= j < i ==> Uri(tree, j) != uri
    ensures FieldFrom(tree, uri, from) == StringValue(tree, i)
    decreases i - from
  {
    if from < i { LookupFindsFirst(tree, uri, i, from + 1); }
  }

  /** It finds nothing when no entry has the name. */
  lemma {:induction false} LookupMisses(tree: Json, uri: string, from: nat)
    requires Named(tree) && from <= NArraySize(tree)
    requires forall i :: from <= i < NArraySize(tree) ==> Uri(tree, i) != uri
    ensures FieldFrom(tree, uri, from).None?
    decreases NArraySize(tree) - from
  {
    if from < NArraySize(tree) { LookupMisses(tree, uri, from + 1); }
  }

  /** With distinct names a lookup finds the value of the only entry with the name. */
  lemma {:induction false} LookupFindsEntry(tree: Json, uri: string, i: nat, from: nat)
    requires Named(tree) && DistinctUris(tree) && from <= i < NArraySize(tree) && Uri(tree, i) == uri
    ensures FieldFrom(tree, uri, from) == StringValue(tree, i)
  {
    LookupFindsFirst(tree, uri, i, from);
  }

  function NamedEntry(uri: string): Json { Obj([("n", Str(uri)), ("sv", Str("1"))]) }

  /** A message that names the version twice and no address is taken for a firmware message. */
  lemma RepeatedVersionIsFirmware()
    ensures var tree := Obj([("msg", Obj([("e", Arr([NamedEntry(VERSION_URI), NamedEntry(VERSION_URI)]))]))]);
            Named(tree) && IsFirmware(tree) && !Present(tree, URL_URI)
  {
    var items := [NamedEntry(VERSION_URI), NamedEntry(VERSION_URI)];
    var tree := Obj([("msg", Obj([("e", Arr(items))]))]);
    assert Children(EntryArray(tree)) == items;
    assert forall i :: 0 <= i < 2 ==> ResourceUri(tree, i) == Some(VERSION_URI);
    assert Count(tree, VERSION_URI, 0) == 0 && Count(tree, VERSION_URI, 1) == 1 && Count(tree, VERSION_URI, 2) == 2;
    assert Count(tree, URL_URI, 0) == 0 && Count(tree, URL_URI, 1) == 0 && Count(tree, URL_URI, 2) == 0;
  }

  // ---------------------------------------------------------------- getMessageType

  /** The type by topic level and operation, when the message is not a firmware message. */
  function TypeByOperation(level: string, operation: string): int {
    if operation == "res" then MESSAGE_TYPE_RESPONSE
    else if operation == "r" then
      ByLevel(level, MESSAGE_TYPE_READ, MESSAGE_TYPE_READ_ASYNC)
    else if operation == "w" then
      ByLevel(level, MESSAGE_TYPE_WRITE, MESSAGE_TYPE_WRITE_ASYNC)
    else if operation == "e" then
      ByLevel(level, MESSAGE_TYPE_EXECUTE, MESSAGE_TYPE_EXECUTE_ASYNC)
    else if operation == "d" then
      ByLevel(level, MESSAGE_TYPE_DELETE_SYNC, MESSAGE_TYPE_DELETE_ASYNC)
    else MESSAGE_TYPE_UNKNOWN
  }

  function ByLevel(level: string, sync: int, async: int): int {
    if level == "sync" then sync else if level == "async" then async else MESSAGE_TYPE_UNKNOWN
  }

  /** What the buffers and unchecked copies of getMessageType need. */
  predicate Readable(topic: string, tree: Json) {
    && |topic| < 100 && NUL !in topic && |Topics.Tokens(topic)| >= 2 && |Topics.Tokens(topic)[1]| < 20
    && NamesFit(tree) && Operation(tree).Some? && |Operation(tree).value| < 10
  }

  function MessageType(topic: string, tree: Json): int
    requires Readable(topic, tree)
  {
    if IsFirmware(tree) then MESSAGE_TYPE_FIRMWARE_DOWNLOAD
    else TypeByOperation(Topics.Tokens(topic)[1], Operation(tree).value)
  }

  /** A message that is not a firmware message, with this second topic level and this operation. */
  predicate Is(topic: string, tree: Json, level: string, operation: string)
    requires Readable(topic, tree)
  {
    !IsFirmware(tree) && Topics.Tokens(topic)[1] == level && Operation(tree).value == operation
  }

  /** getMessageType: the whole table, with the numbers of the header. */
  method GetMessageType(topic: string, tree: Json) returns (r: int)
    requires Readable(topic, tree)
    ensures r == MessageType(topic, tree)
    ensures r == 7 <==> IsFirmware(tree)
    ensures r == 1 <==> !IsFirmware(tree) && Operation(tree).value == "res"
    ensures r == 2 <==> Is(topic, tree, "sync", "r")
    ensures r == 3 <==> Is(topic, tree, "sync", "w")
    ensures r == 4 <==> Is(topic, tree, "sync", "e")
    ensures r == 5 <==> Is(topic, tree, "sync", "d")
    ensures r == 6 <==> Is(topic, tree, "async", "d")
    ensures r == 8 <==> Is(topic, tree, "async", "r")
    ensures r == 9 <==> Is(topic, tree, "async", "w")
    ensures r == 10 <==> Is(topic, tree, "async", "e")
    ensures r == -1 || 1 <= r <= 10
  {
    TypeTable(topic, tree);
    var level := Topics.GetLevelAfter(topic, 0);
    var firmware := IsFirmwareUpdateMessage(tree);
    if firmware {
      return MESSAGE_TYPE_FIRMWARE_DOWNLOAD;
    }
    return TypeByOperation(level.value, Operation(tree).value);
  }

  /** The table, for the callers of the function. */
  lemma {:induction false} TypeTable(topic: string, tree: Json)
    requires Readable(topic, tree)
    ensures var r := MessageType(topic, tree);
            && (r == 7 <==> IsFirmware(tree))
            && (r == 1 <==> !IsFirmware(tree) && Operation(tree).value == "res")
            && (r == 2 <==> Is(topic, tree, "sync", "r")) && (r == 8 <==> Is(topic, tree, "async", "r"))
            && (r == 3 <==> Is(topic, tree, "sync", "w")) && (r == 9 <==> Is(topic, tree, "async", "w"))
            && (r == 4 <==> Is(topic, tree, "sync", "e")) && (r == 10 <==> Is(topic, tree, "async", "e"))
            && (r == 5 <==> Is(topic, tree, "sync", "d")) && (r == 6 <==> Is(topic, tree, "async", "d"))
            && (r == -1 || 1 <= r <= 10)
  {
  }
}
