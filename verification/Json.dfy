/** The JSON trees the device builds and reads, with cJSON's lookup rules, and the message getters. */
module Json {
  import opened Base

  datatype Json = Str(text: string) | Obj(members: seq<(string, Json)>) | Arr(items: seq<Json>) | Other

  function Lower(c: char): char {
    if 'A' <= c <= 'Z' then ('a' as int + (c as int - 'A' as int)) as char else c
  }

  /** cJSON compares member names without regard to ASCII case. */
  predicate SameName(a: string, b: string) {
    |a| == |b| && forall i :: 0 <= i < |a| ==> Lower(a[i]) == Lower(b[i])
  }

  function FirstNamed(members: seq<(string, Json)>, name: string): Option<Json> {
    if members == [] then None
    else if SameName(members[0].0, name) then Some(members[0].1)
    else FirstNamed(members[1..], name)
  }

  /** cJSON_GetObjectItem: the first member of that name. None stands for the null pointer, in and out. */
  function GetItem(j: Option<Json>, name: string): Option<Json> {
    match j
    case Some(Obj(members)) => FirstNamed(members, name)
    case _ => None
  }

  /** cJSON_GetStringValue. */
  function GetString(j: Option<Json>): Option<string> {
    match j
    case Some(Str(text)) => Some(text)
    case _ => None
  }

  function Values(members: seq<(string, Json)>): seq<Json> {
    if members == [] then [] else [members[0].1] + Values(members[1..])
  }

  /** What cJSON_GetArraySize counts and cJSON_GetArrayItem selects from: the children of an array or object. */
  function Children(j: Option<Json>): seq<Json> {
    match j
    case Some(Arr(items)) => items
    case Some(Obj(members)) => Values(members)
    case _ => []
  }

  // ---------------------------------------------------------------- numbers in strings

  predicate Digit(c: char) { '0' <= c <= '9' }

  function DigitValue(c: char): nat
    requires Digit(c)
  {
    c as int - '0' as int
  }

  function DigitChar(d: nat): (c: char)
    requires d < 10
    ensures Digit(c) && DigitValue(c) == d
  {
    ('0' as int + d) as char
  }

  /** `sprintf(buffer, "%d", n)` for a number that is not negative. */
  function Decimal(n: nat): (s: string)
    ensures |s| >= 1 && forall c :: c in s ==> Digit(c)
  {
    if n < 10 then [DigitChar(n)] else Decimal(n / 10) + [DigitChar(n % 10)]
  }

  /** The value of the digits at the front of `s`, continuing from `acc`. */
  function DigitsFrom(s: string, acc: nat): nat {
    if s == "" || !Digit(s[0]) then acc else DigitsFrom(s[1..], 10 * acc + DigitValue(s[0]))
  }

  predicate Space(c: char) { c in " \t\n\r" || c as int == 11 || c as int == 12 }

  function SkipSpace(s: string): string {
    if s == "" || !Space(s[0]) then s else SkipSpace(s[1..])
  }

  /** atoi: white space, a sign, digits; what follows is ignored. */
  function Atoi(s: string): int {
    var t := SkipSpace(s);
    if t != "" && t[0] == '-' then -(DigitsFrom(t[1..], 0) as int)
    else if t != "" && t[0] == '+' then DigitsFrom(t[1..], 0)
    else DigitsFrom(t, 0)
  }

  lemma {:induction false} DigitsFromAppend(s: string, c: char, acc: nat)
    requires Digit(c) && forall d :: d in s ==> Digit(d)
    ensures DigitsFrom(s + [c], acc) == 10 * DigitsFrom(s, acc) + DigitValue(c)
  {
    if s == "" {
      assert DigitsFrom([c][1..], 10 * acc + DigitValue(c)) == 10 * acc + DigitValue(c);
    } else {
      assert s[0] in s && forall d :: d in s[1..] ==> d in s;
      assert (s + [c])[1..] == s[1..] + [c];
      DigitsFromAppend(s[1..], c, 10 * acc + DigitValue(s[0]));
    }
  }

  /** Reading a printed number gives the number back. */
  lemma {:induction false} AtoiOfDecimal(n: nat)
    ensures Atoi(Decimal(n)) == n
  {
    DigitsOfDecimal(n);
    var s := Decimal(n);
    assert s[0] in s;
  }

  lemma {:induction false} DigitsOfDecimal(n: nat)
    ensures DigitsFrom(Decimal(n), 0) == n
  {
    if n < 10 {
      assert Decimal(n)[1..] == "";
    } else {
      DigitsOfDecimal(n / 10);
      DigitsFromAppend(Decimal(n / 10), DigitChar(n % 10), 0);
    }
  }

  lemma {:induction false} SkipSpaceRun(blanks: string, rest: string)
    requires (forall c :: c in blanks ==> Space(c)) && rest != "" && !Space(rest[0])
    ensures SkipSpace(blanks + rest) == rest
  {
    if blanks == "" {
      assert blanks + rest == rest;
    } else {
      assert blanks[0] in blanks && forall c :: c in blanks[1..] ==> c in blanks;
      assert (blanks + rest)[1..] == blanks[1..] + rest;
      SkipSpaceRun(blanks[1..], rest);
    }
  }

  lemma {:induction false} DigitsStop(digits: string, tail: string, acc: nat)
    requires (forall c :: c in digits ==> Digit(c)) && (tail == "" || !Digit(tail[0]))
    ensures DigitsFrom(digits + tail, acc) == DigitsFrom(digits, acc)
  {
    if digits == "" {
      assert digits + tail == tail;
    } else {
      assert digits[0] in digits && forall c :: c in digits[1..] ==> c in digits;
      assert (digits + tail)[1..] == digits[1..] + tail;
      DigitsStop(digits[1..], tail, 10 * acc + DigitValue(digits[0]));
    }
  }

  /** Blanks before a number, its sign, and whatever follows its digits. */
  lemma {:induction false} AtoiReads(blanks: string, sign: string, n: nat, tail: string)
    requires (forall c :: c in blanks ==> c in " \t\n\r") && sign in ["", "+", "-"]
    requires tail == "" || !('0' <= tail[0] <= '9')
    ensures Atoi(blanks + (sign + (Decimal(n) + tail))) == if sign == "-" then 0 - n else n as int
  {
    var digits := Decimal(n) + tail;
    assert Decimal(n)[0] in Decimal(n) && digits[0] == Decimal(n)[0];
    DigitsStop(Decimal(n), tail, 0);
    DigitsOfDecimal(n);
    SkipSpaceRun(blanks, sign + digits);
    if sign == "" {
      assert sign + digits == digits;
    } else {
      assert (sign + digits)[1..] == digits;
    }
  }

  function Pow10(k: nat): (p: nat)
    ensures p >= 1
  {
    if k == 0 then 1 else 10 * Pow10(k - 1)
  }

  /** A printed number has at most `k` digits exactly when it is below 10^k. */
  lemma {:induction false} DecimalLength(n: nat, k: nat)
    requires k >= 1
    ensures n < Pow10(k) <==> |Decimal(n)| <= k
    decreases k
  {
    if n >= 10 && k > 1 { DecimalLength(n / 10, k - 1); }
  }

  // ---------------------------------------------------------------- the getters of a message

  function Msg(tree: Json): Option<Json> { GetItem(Some(tree), "msg") }

  function EntryArray(tree: Json): Option<Json> { GetItem(Msg(tree), "e") }

  /** getNArraySize. */
  function NArraySize(tree: Json): nat { |Children(EntryArray(tree))| }

  /** cJSON_GetArrayItem on the entry array, then one field as a string. */
  function EntryField(tree: Json, index: nat, name: string): Option<string> {
    GetString(GetItem(Nth(Children(EntryArray(tree)), index), name))
  }

  /** getResourceUri, getStringValue, getTime. None: the caller's buffer is left as it was. */
  function ResourceUri(tree: Json, index: nat): Option<string> { EntryField(tree, index, "n") }
  function StringValue(tree: Json, index: nat): Option<string> { EntryField(tree, index, "sv") }
  function Time(tree: Json, index: nat): Option<string> { EntryField(tree, index, "ti") }

  function Length(s: Option<string>): nat { if s.Some? then |s.value| else 0 }

  /** getResourceUriLength, getStringValueLength, getTimeLength: 0 when the field is missing. */
  function ResourceUriLength(tree: Json, index: nat): nat { Length(ResourceUri(tree, index)) }
  function StringValueLength(tree: Json, index: nat): nat { Length(StringValue(tree, index)) }
  function TimeLength(tree: Json, index: nat): nat { Length(Time(tree, index)) }

  /** getSid and getOperation. */
  function Sid(tree: Json): Option<string> { GetString(GetItem(Some(tree), "sid")) }
  function Operation(tree: Json): Option<string> { GetString(GetItem(Msg(tree), "o")) }

  function NumberOr(s: Option<string>, missing: int): int { if s.Some? then Atoi(s.value) else missing }

  /** getSeq, getReturnCode, getErrorCode. */
  function Seq(tree: Json): int { NumberOr(GetString(GetItem(Some(tree), "seq")), -1) }
  function ReturnCode(tree: Json): int { NumberOr(GetString(GetItem(Msg(tree), "rc")), -1) }
  function ErrorCode(tree: Json): int { NumberOr(GetString(GetItem(Msg(tree), "ec")), 0) }
}
