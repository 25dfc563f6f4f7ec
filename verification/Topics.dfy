/** MQTT topics: how the device builds them, which ones its subscription lets through,
    and how the five readers cut them up in place. */
module Topics {
  import opened Base

  // ---------------------------------------------------------------- levels and tokens

  /** The levels of a topic (section 4.7 of MQTT 3.1.1): cut at every slash, keeping empty levels. */
  function Levels(s: string): (levels: seq<string>)
    ensures |levels| >= 1
  {
    if s == "" then [""]
    else
      var rest := Levels(s[1..]);
      if s[0] == '/' then [""] + rest else [[s[0]] + rest[0]] + rest[1..]
  }

  function NonEmpty(levels: seq<string>): seq<string> {
    if levels == [] then []
    else if levels[0] == "" then NonEmpty(levels[1..])
    else [levels[0]] + NonEmpty(levels[1..])
  }

  predicate SlashFree(s: string) { '/' !in s }

  /** The text left after the delimiters in front of a token are skipped. */
  function Skip(s: string): (t: string)
    ensures |t| <= |s| && (t == "" || t[0] != '/')
  {
    if s == "" || s[0] != '/' then s else Skip(s[1..])
  }

  /** The length of the token at the front of `s`. */
  function Span(s: string): (n: nat)
    ensures n <= |s| && SlashFree(s[..n]) && (n < |s| ==> s[n] == '/')
  {
    if s == "" || s[0] == '/' then 0 else 1 + Span(s[1..])
  }

  /** The tokens strtok delivers for the delimiter "/" (section 7.24.5.8 of C11). */
  function Tokens(s: string): seq<string>
    decreases |s|
  {
    var t := Skip(s);
    if t == "" then [] else [t[..Span(t)]] + Tokens(t[Span(t)..])
  }

  lemma {:induction false} SpanIs(s: string, n: nat)
    requires n <= |s| && SlashFree(s[..n]) && (n < |s| ==> s[n] == '/')
    ensures Span(s) == n
  {
    if n > 0 {
      assert s[0] in s[..n];
      assert s[1..][..n - 1] == s[..n][1..];
      SpanIs(s[1..], n - 1);
    }
  }

  /** `k` delimiters followed by a token of length `n`: that is what one strtok call consumes. */
  lemma {:induction false} TokensFrom(s: string, k: nat, n: nat)
    requires k + n <= |s| && 0 < n
    requires forall i :: 0 <= i < k ==> s[i] == '/'
    requires SlashFree(s[k..k + n]) && (k + n < |s| ==> s[k + n] == '/')
    ensures Tokens(s) == [s[k..k + n]] + Tokens(s[k + n..])
    ensures k + n < |s| ==> Tokens(s[k + n..]) == Tokens(s[k + n + 1..])
    decreases k
  {
    if k > 0 {
      assert s[1..][k - 1..k - 1 + n] == s[k..k + n];
      assert s[1..][k - 1 + n..] == s[k + n..];
      TokensFrom(s[1..], k - 1, n);
    } else {
      assert s[0] in s[..n];
      SpanIs(s, n);
    }
    if k + n < |s| { assert s[k + n..][1..] == s[k + n + 1..]; }
  }

  lemma {:induction false} TokensOfSlashes(s: string)
    requires forall i :: 0 <= i < |s| ==> s[i] == '/'
    ensures Tokens(s) == []
  {
    if s != "" { TokensOfSlashes(s[1..]); }
  }

  lemma {:induction false} LevelsOfPrefix(a: string, b: string)
    requires SlashFree(a)
    ensures Levels(a + "/" + b) == [a] + Levels(b)
  {
    var s := a + "/" + b;
    if a == "" {
      assert s[1..] == b;
    } else {
      LevelsOfPrefix(a[1..], b);
      assert s[1..] == a[1..] + "/" + b;
      assert [a[0]] + a[1..] == a;
    }
  }

  lemma {:induction false} LevelsOfOne(a: string)
    requires SlashFree(a)
    ensures Levels(a) == [a]
  {
    if a != "" {
      LevelsOfOne(a[1..]);
      assert [a[0]] + a[1..] == a;
    }
  }

  /** Levels written with slashes between them, as the sprintf formats do. */
  function Join(levels: seq<string>): string
    requires |levels| >= 1
  {
    if |levels| == 1 then levels[0] else levels[0] + "/" + Join(levels[1..])
  }

  lemma {:induction false} LevelsOfJoin(levels: seq<string>)
    requires |levels| >= 1 && forall l :: l in levels ==> SlashFree(l)
    ensures Levels(Join(levels)) == levels
  {
    assert levels[0] in levels;
    if |levels| == 1 {
      LevelsOfOne(levels[0]);
    } else {
      assert forall l :: l in levels[1..] ==> l in levels;
      LevelsOfJoin(levels[1..]);
      LevelsOfPrefix(levels[0], Join(levels[1..]));
    }
  }

  lemma {:induction false} NonEmptyAppend(a: seq<string>, b: seq<string>)
    ensures NonEmpty(a + b) == NonEmpty(a) + NonEmpty(b)
  {
    if a == [] {
      assert a + b == b;
    } else {
      NonEmptyAppend(a[1..], b);
      assert (a + b)[1..] == a[1..] + b;
      ConcatAssoc([a[0]], NonEmpty(a[1..]), NonEmpty(b));
    }
  }

  lemma {:induction false} NonEmptyElements(levels: seq<string>)
    ensures "" !in NonEmpty(levels)
  {
    if levels != [] { NonEmptyElements(levels[1..]); }
  }

  /** What strtok sees is the list of non-empty MQTT levels. */
  lemma {:induction false} TokensAreNonEmptyLevels(s: string)
    ensures Tokens(s) == NonEmpty(Levels(s))
    decreases |s|
  {
    if s == "" {
    } else if s[0] == '/' {
      TokensAreNonEmptyLevels(s[1..]);
    } else {
      var n := Span(s);
      if n == |s| {
        assert s[..n] == s;
        LevelsOfOne(s);
      } else {
        TokensAreNonEmptyLevels(s[n + 1..]);
        assert s == s[..n] + "/" + s[n + 1..];
        LevelsOfPrefix(s[..n], s[n + 1..]);
        assert s[n..][1..] == s[n + 1..];
        assert Tokens(s[n..]) == Tokens(s[n + 1..]);
        assert NonEmpty([s[..n]] + Levels(s[n + 1..])) == [s[..n]] + NonEmpty(Levels(s[n + 1..]));
      }
    }
  }

  // ---------------------------------------------------------------- strtok in place

  /** Delimiters, a token, and what follows it. */
  lemma TokenBetween(slashes: string, token: string, rest: string)
    requires (forall i :: 0 <= i < |slashes| ==> slashes[i] == '/') && SlashFree(token) && token != ""
    requires rest != "" ==> rest[0] == '/'
    ensures Tokens(slashes + token + rest) == [token] + Tokens(rest)
    ensures rest != "" ==> Tokens(rest) == Tokens(rest[1..])
  {
    var s, k, n := slashes + token + rest, |slashes|, |token|;
    assert s[k..k + n] == token && s[k + n..] == rest;
    assert rest != "" ==> s[k + n] == rest[0] && s[k + n + 1..] == rest[1..];
    assert forall i :: 0 <= i < k ==> s[i] == slashes[i];
    TokensFrom(s, k, n);
  }

  lemma InThree(s: string, p: nat, q: nat, r: nat, end: nat)
    requires p <= q <= r <= end <= |s|
    ensures s[p..end] == s[p..q] + s[q..r] + s[r..end]
  {
  }

  /** The token between the positions `start` and `save` of the buffer, behind delimiters from `first` on. */
  lemma NextToken(buf: string, first: nat, start: nat, save: nat, end: nat)
    requires first <= start < save <= end <= |buf|
    requires forall i :: first <= i < start ==> buf[i] == '/'
    requires forall i :: start <= i < save ==> buf[i] != '/'
    requires save < end ==> buf[save] == '/'
    ensures Tokens(buf[first..end]) == [buf[start..save]] + Tokens(buf[save..end])
    ensures save < end ==> Tokens(buf[save..end]) == Tokens(buf[save + 1..end])
  {
    InThree(buf, first, start, save, end);
    if save < end { assert buf[save..end][1..] == buf[save + 1..end]; }
    TokenBetween(buf[first..start], buf[start..save], buf[save..end]);
  }

  /** The local copy of a topic that a reader destroys, with strtok's saved position. */
  class Tokenizer {
    const buf: array<char>
    ghost const end: nat
    var save: nat

    ghost predicate Valid()
      reads this, buf
    {
      && save <= end < buf.Length
      && buf[end] == NUL
      && forall i :: save <= i < end ==> buf[i] != NUL
    }

    /** The part of the text that strtok has not consumed. */
    ghost function Rest(): string
      requires Valid()
      reads this, buf
    {
      buf[save..end]
    }

    /** `char temp[100]; strcpy(temp, topic);` */
    constructor (topic: string)
      requires |topic| < 100 && NUL !in topic
      ensures Valid() && fresh(buf) && Rest() == topic
    {
      buf := new char[100](i => if 0 <= i < |topic| then topic[i] else NUL);
      end := |topic|;
      save := 0;
      new;
      assert buf[0..end] == topic;
    }

    /** Move the position over a run of delimiters (`slashes`) or of anything else, up to the end. */
    method Advance(slashes: bool)
      requires Valid()
      modifies `save
      ensures Valid() && old(save) <= save
      ensures forall i :: old(save) <= i < save ==> (buf[i] == '/') == slashes
      ensures save < end ==> (buf[save] == '/') != slashes
    {
      while buf[save] != NUL && (buf[save] == '/') == slashes
        invariant old(save) <= save <= end
        invariant forall i :: old(save) <= i < save ==> (buf[i] == '/') == slashes
        decreases end - save
      {
        save := save + 1;
      }
    }

    /** Overwrite the delimiter behind the token with NUL and step over it. */
    method CloseToken(start: nat)
      requires Valid() && start < save
      requires forall i :: start <= i < save ==> buf[i] != NUL
      requires Rest() == "" || Rest()[0] == '/'
      modifies `save, buf
      ensures Valid()
      ensures Rest() == if old(Rest()) == "" then "" else old(Rest())[1..]
      ensures CString(buf[..], start) == old(buf[start..save])
    {
      ghost var stop := save;
      if buf[save] == '/' {
        buf[save] := NUL;
        save := save + 1;
      }
      CStringRun(buf[..], start, stop - start);
    }

    /** One strtok call: the position of the next token, or None for the null pointer. */
    method Strtok() returns (token: Option<nat>)
      requires Valid()
      modifies `save, buf
      ensures Valid()
      ensures token.None? <==> Tokens(old(Rest())) == []
      ensures token.None? ==> Rest() == ""
      ensures token.Some? ==>
                && token.value <= end
                && CString(buf[..], token.value) == Tokens(old(Rest()))[0]
                && Tokens(Rest()) == Tokens(old(Rest()))[1..]
    {
      ghost var text, first := Rest(), save;
      Advance(true);
      assert text == buf[first..end];
      if buf[save] == NUL {
        TokensOfSlashes(text);
        return None;
      }
      var start := save;
      Advance(false);
      NextToken(buf[..], first, start, save, end);
      CloseToken(start);
      return Some(start);
    }

    /** `strcpy(returnValue, token)`. */
    method CopyOut(p: nat) returns (s: string)
      requires Valid() && p <= end
      ensures s == CString(buf[..], p)
    {
      s := "";
      var i := p;
      while buf[i] != NUL
        invariant p <= i <= end
        invariant CString(buf[..], p) == s + CString(buf[..], i)
        decreases end - i
      {
        s := s + [buf[i]];
        i := i + 1;
      }
    }
  }

  /** getServiceId: the first token. None stands for the null pointer the C code would copy from. */
  method GetServiceId(topic: string) returns (r: Option<string>)
    requires |topic| < 100 && NUL !in topic
    ensures r == Nth(Tokens(topic), 0)
  {
    var t := new Tokenizer(topic);
    var p := t.Strtok();
    if p.None? { return None; }
    var s := t.CopyOut(p.value);
    return Some(s);
  }

  /** getMsgType, getOriginId, getTargetId and getTopicOprId: one loop, which stops at i == 0, 1, 2, 3. */
  method GetLevelAfter(topic: string, stop: nat) returns (r: Option<string>)
    requires |topic| < 100 && NUL !in topic
    ensures r == Nth(Tokens(topic), stop + 1)
  {
    var t := new Tokenizer(topic);
    var i := 0;
    var p := t.Strtok();
    while p.Some?
      invariant t.Valid() && i <= stop
      invariant fresh(t) && fresh(t.buf)
      invariant p.Some? ==> p.value <= t.end && i < |Tokens(topic)| && Tokens(t.Rest()) == Tokens(topic)[i + 1..]
      invariant p.None? ==> |Tokens(topic)| <= i
      decreases stop + 1 - i, p.Some?
    {
      p := t.Strtok();
      if i == stop {
        break;
      }
      i := i + 1;
    }
    if p.None? { return None; }
    var s := t.CopyOut(p.value);
    return Some(s);
  }

  // ---------------------------------------------------------------- the subscription

  predicate Wildcard(level: string) { level == "+" || level == "#" }

  /** A topic filter against a topic name, level by level (section 4.7.1 of MQTT 3.1.1). */
  predicate MatchLevels(filter: seq<string>, topic: seq<string>) {
    if filter == [] then topic == []
    else if filter == ["#"] then true
    else topic != [] && (filter[0] == "+" || filter[0] == topic[0]) && MatchLevels(filter[1..], topic[1..])
  }

  /** Matching, with the rule of section 4.7.2 for topics that begin with a dollar sign. */
  predicate Matches(filter: string, topic: string) {
    && !(Wildcard(Levels(filter)[0]) && topic != "" && topic[0] == '$')
    && MatchLevels(Levels(filter), Levels(topic))
  }

  /** `sprintf(subscribeTopic, "%s/+/iot-server/%s/#", device_type, device_id)`. */
  function SubscriptionFilter(deviceType: string, deviceId: string): string {
    Join([deviceType, "+", "iot-server", deviceId, "#"])
  }

  /** `sprintf(topic, "%s/sync/%s/iot-server/<operation>/json", device_type, device_id)`, as every
      request, response and notification builds it. */
  function PublishTopic(deviceType: string, deviceId: string, operation: string): string {
    Join([deviceType, "sync", deviceId, "iot-server", operation, "json"])
  }

  predicate ValidName(s: string) { s != "" && SlashFree(s) && !Wildcard(s) }

  /** Which topics the subscription delivers, in terms of their levels. */
  lemma {:induction false} SubscriptionDelivers(deviceType: string, deviceId: string, topic: string)
    requires ValidName(deviceType) && ValidName(deviceId)
    ensures var l := Levels(topic);
            Matches(SubscriptionFilter(deviceType, deviceId), topic) <==>
            |l| >= 4 && l[0] == deviceType && l[2] == "iot-server" && l[3] == deviceId
  {
    var f := [deviceType, "+", "iot-server", deviceId, "#"];
    LevelsOfJoin(f);
    var l := Levels(topic);
    assert f[1..] == ["+", "iot-server", deviceId, "#"];
    assert f[1..][1..] == ["iot-server", deviceId, "#"];
    assert f[1..][1..][1..] == [deviceId, "#"];
    assert f[1..][1..][1..][1..] == ["#"];
    assert MatchLevels(f, l) <==> l[0] == deviceType && MatchLevels(f[1..], l[1..]);
    if |l| >= 2 {
      assert MatchLevels(f[1..], l[1..]) <==> MatchLevels(f[1..][1..], l[1..][1..]);
      if |l| >= 3 {
        assert MatchLevels(f[1..][1..], l[1..][1..]) <==>
               l[2] == "iot-server" && MatchLevels(f[1..][1..][1..], l[1..][1..][1..]);
        if |l| >= 4 {
          assert l[1..][1..][1..][0] == l[3];
          assert MatchLevels(["#"], l[1..][1..][1..][1..]);
          assert MatchLevels(f[1..][1..][1..], l[1..][1..][1..]) <==> l[3] == deviceId;
        }
      }
    }
  }

  /** For a delivered topic the five readers return type, wildcard level, "iot-server", id and the
      first non-empty level behind the id exactly when the wildcard level is not empty and some level
      behind the id is not empty. Otherwise an empty level shifts the tokens, or the last one is missing. */
  lemma {:induction false} ReadersRecoverLevels(deviceType: string, deviceId: string, topic: string)
    requires ValidName(deviceType) && ValidName(deviceId)
    requires Matches(SubscriptionFilter(deviceType, deviceId), topic)
    ensures var l, t := Levels(topic), Tokens(topic);
            && |l| >= 4
            && (&& |t| >= 5
                && t[0] == deviceType && t[1] == l[1] && t[2] == "iot-server" && t[3] == deviceId
                && NonEmpty(l[4..]) != [] && t[4] == NonEmpty(l[4..])[0]
                <==> l[1] != "" && NonEmpty(l[4..]) != [])
  {
    SubscriptionDelivers(deviceType, deviceId, topic);
    TokensAreNonEmptyLevels(topic);
    var l := Levels(topic);
    var tail := NonEmpty(l[4..]);
    var head := [deviceType, l[1], "iot-server", deviceId];
    assert l == head + l[4..];
    NonEmptyAppend(head, l[4..]);
    NonEmptyElements(l);
    assert head[1..] == [l[1], "iot-server", deviceId];
    assert head[1..][1..] == ["iot-server", deviceId];
    assert head[1..][1..][1..] == [deviceId];
    assert NonEmpty([deviceId]) == [deviceId];
    assert NonEmpty(["iot-server", deviceId]) == ["iot-server", deviceId];
    if l[1] != "" {
      assert Tokens(topic) == [deviceType, l[1], "iot-server", deviceId] + tail;
    } else {
      assert Tokens(topic)[1] != "";
    }
  }

  /** The wildcard `#` also delivers the bare parent topic, where the operation reader finds nothing. */
  lemma {:induction false} ParentTopicHasNoOperation(deviceType: string, deviceId: string, messageType: string)
    requires ValidName(deviceType) && ValidName(deviceId) && ValidName(messageType)
    ensures var topic := Join([deviceType, messageType, "iot-server", deviceId]);
            Matches(SubscriptionFilter(deviceType, deviceId), topic) && Nth(Tokens(topic), 4).None?
  {
    var topic := Join([deviceType, messageType, "iot-server", deviceId]);
    LevelsOfJoin([deviceType, messageType, "iot-server", deviceId]);
    SubscriptionDelivers(deviceType, deviceId, topic);
    TokensAreNonEmptyLevels(topic);
    NonEmptyShorter(Levels(topic));
  }

  lemma {:induction false} NonEmptyShorter(levels: seq<string>)
    ensures |NonEmpty(levels)| <= |levels|
  {
    if levels != [] { NonEmptyShorter(levels[1..]); }
  }

  // ---------------------------------------------------------------- no feedback

  /** damdaSetDeviceInfo: `sprintf(device_id, "%s-%s-%s", ...)`. */
  function DeviceId(manufacturer: string, model: string, serial: string): string {
    manufacturer + "-" + model + "-" + serial
  }

  function Dashes(s: string): nat {
    if s == "" then 0 else (if s[0] == '-' then 1 else 0) + Dashes(s[1..])
  }

  lemma {:induction false} DashesAppend(a: string, b: string)
    ensures Dashes(a + b) == Dashes(a) + Dashes(b)
  {
    if a == "" {
      assert a + b == b;
    } else {
      DashesAppend(a[1..], b);
      assert (a + b)[1..] == a[1..] + b;
    }
  }

  /** No message the device publishes is delivered back to it by its own subscription. */
  lemma {:induction false} PublicationsNeverReturn(manufacturer: string, model: string, serial: string,
                                                   deviceType: string, operation: string)
    requires ValidName(deviceType) && SlashFree(operation)
    requires SlashFree(manufacturer) && SlashFree(model) && SlashFree(serial)
    ensures var id := DeviceId(manufacturer, model, serial);
            !Matches(SubscriptionFilter(deviceType, id), PublishTopic(deviceType, id, operation))
  {
    var id := DeviceId(manufacturer, model, serial);
    DeviceIdDashes(manufacturer, model, serial);
    DashesOfServer();
    var topic := [deviceType, "sync", id, "iot-server", operation, "json"];
    LevelsOfJoin(topic);
    SubscriptionDelivers(deviceType, id, PublishTopic(deviceType, id, operation));
  }

  lemma {:induction false} DeviceIdDashes(manufacturer: string, model: string, serial: string)
    ensures Dashes(DeviceId(manufacturer, model, serial)) >= 2
  {
    DashesAppend(manufacturer + "-" + model + "-", serial);
    DashesAppend(manufacturer + "-" + model, "-");
    DashesAppend(manufacturer + "-", model);
    DashesAppend(manufacturer, "-");
    assert Dashes("-") == 1;
  }

  lemma DashesOfServer()
    ensures Dashes("iot-server") == 1
  {
    var s := "iot-server";
    assert s[1..] == "ot-server";
    assert s[1..][1..] == "t-server";
    assert s[1..][1..][1..] == "-server";
    assert "-server"[1..] == "server";
    assert "server"[1..] == "erver";
    assert "erver"[1..] == "rver";
    assert "rver"[1..] == "ver";
    assert "ver"[1..] == "er";
    assert Dashes("er") == 0;
  }
}
