/** The generator of device_rsc.h: resource rows printed as a JSON array inside a C string literal by two
    passes over the rows, and the total of the instance counts. */
module ResourceHeader {
  import opened Base
  import opened Json
  import opened JsonText

  datatype Row = Row(oid: string, rid: string, count: string, kind: string, range: string)

  /** The members a reader is meant to find for a row. */
  function Members(r: Row): seq<Member> {
    [("oid", r.oid), ("rid", r.rid), ("count", r.count), ("type", r.kind), ("range", r.range)]
  }

  predicate CleanRow(r: Row) { Clean(r.oid) && Clean(r.rid) && Clean(r.count) && Clean(r.kind) && Clean(r.range) }
  predicate CleanRows(rows: seq<Row>) { forall k :: 0 <= k < |rows| ==> CleanRow(rows[k]) }

  predicate AllDigits(s: string) { s != "" && forall c :: c in s ==> Digit(c) }
  predicate NumericCounts(rows: seq<Row>) { forall k :: 0 <= k < |rows| ==> AllDigits(rows[k].count) }

  // ---------------------------------------------------------------- what is written

  /** One member as the script writes it, with its quotes escaped. */
  function WrittenMember(m: Member): string { "\\\"" + m.0 + "\\\":" + "\\\"" + m.1 + "\\\"" }

  /** Members with the marks behind them. */
  function WrittenMembers(ms: seq<Member>): string
    requires ms != []
  {
    WrittenMember(ms[0]) + if |ms| == 1 then "}" else "," + WrittenMembers(ms[1..])
  }

  /** The writes of one round of the second loop, up to the closing brace. */
  function WrittenRow(r: Row): string { "{" + WrittenMembers(Members(r)) }

  /** The rows from `i` on, a comma behind each but the last. */
  function WrittenRows(rows: seq<Row>, i: nat): string
    requires i <= |rows|
    decreases |rows| - i
  {
    if i == |rows| then ""
    else WrittenRow(rows[i]) + (if i < |rows| - 1 then "," else "") + WrittenRows(rows, i + 1)
  }

  function Total(rows: seq<Row>, i: nat): nat
    requires i <= |rows|
  {
    if i == 0 then 0 else Total(rows, i - 1) + DigitsFrom(rows[i - 1].count, 0)
  }

  const DECLARATION := "char *deviceRscData = \""
  const OPENING := DECLARATION + "["

  function TotalDefine(total: nat): string { "#define NOTI_PARAMS_TOTAL \t\t" + Decimal(total) + "\n" }

  function Closing(total: nat): string { "]\";\n" + "\n" + TotalDefine(total) }

  /** From the definition of deviceRscData on. */
  function Header(rows: seq<Row>): string { OPENING + WrittenRows(rows, 0) + Closing(Total(rows, |rows|)) }

  lemma Regroup(a: string, b: string, c: string, d: string)
    ensures a + b + c + d == a + (b + c + d)
  {
  }

  lemma RowWritten(rows: seq<Row>, k: nat, before: string, comma: string)
    requires k < |rows| && comma == if k < |rows| - 1 then "," else ""
    ensures before + WrittenRow(rows[k]) + comma + WrittenRows(rows, k + 1) == before + WrittenRows(rows, k)
  {
    Regroup(before, WrittenRow(rows[k]), comma, WrittenRows(rows, k + 1));
  }

  /** The two writes of one member and the mark behind it. */
  method WriteMember(written: string, name: string, value: string, mark: string) returns (rscH: string)
    ensures rscH == written + WrittenMember((name, value)) + mark
  {
    rscH := written + ("\\\"" + name + "\\\":");
    rscH := rscH + ("\\\"" + value + "\\\"" + mark);
  }

  lemma MembersUnfold(written: string, ms: seq<Member>, i: nat)
    requires i < |ms|
    ensures if i == |ms| - 1 then written + WrittenMembers(ms[i..]) == written + WrittenMember(ms[i]) + "}"
            else written + WrittenMembers(ms[i..]) == written + WrittenMember(ms[i]) + "," + WrittenMembers(ms[i + 1..])
  {
    assert ms[i..][1..] == ms[i + 1..];
    if i < |ms| - 1 { Regroup(written, WrittenMember(ms[i]), ",", WrittenMembers(ms[i + 1..])); }
  }

  /** The writes of the five members. */
  method WriteRow(written: string, r: Row) returns (rscH: string)
    ensures rscH == written + WrittenRow(r)
  {
    ghost var ms := Members(r);
    rscH := written + "{";
    ghost var goal := rscH + WrittenMembers(ms[0..]);
    MembersUnfold(rscH, ms, 0);
    rscH := WriteMember(rscH, "oid", r.oid, ",");
    MembersUnfold(rscH, ms, 1);
    rscH := WriteMember(rscH, "rid", r.rid, ",");
    MembersUnfold(rscH, ms, 2);
    rscH := WriteMember(rscH, "count", r.count, ",");
    MembersUnfold(rscH, ms, 3);
    rscH := WriteMember(rscH, "type", r.kind, ",");
    MembersUnfold(rscH, ms, 4);
    rscH := WriteMember(rscH, "range", r.range, "}");
    assert rscH == goal && ms[0..] == ms;
    ConcatAssoc(written, "{", WrittenMembers(ms));
  }

  /** One round of the second loop. */
  method WriteRound(rows: seq<Row>, k: nat, written: string, lineCnt: nat, lineSize: nat) returns (rscH: string)
    requires k < |rows| && lineCnt == k && lineSize == |rows|
    ensures rscH + WrittenRows(rows, k + 1) == written + WrittenRows(rows, k)
  {
    rscH := WriteRow(written, rows[k]);
    if lineCnt < lineSize - 1 {
      rscH := rscH + ",";
      RowWritten(rows, k, written, ",");
    } else {
      RowWritten(rows, k, written, "");
      assert rscH + "" == rscH;
    }
  }

  /** The last writes. */
  method Close(written: string, instanceCnt: nat) returns (rscH: string)
    ensures rscH == written + Closing(instanceCnt)
  {
    rscH := written + "]\";\n";
    rscH := rscH + "\n";
    rscH := rscH + "#define NOTI_PARAMS_TOTAL \t\t" + Decimal(instanceCnt) + "\n";
  }

  /** The two loops of the script: the first counts the rows, the second writes them. */
  method Generate(rows: seq<Row>) returns (rscH: string, instanceCnt: nat)
    requires NumericCounts(rows)
    ensures rscH == Header(rows) && instanceCnt == Total(rows, |rows|)
  {
    rscH := "char *deviceRscData = \"[";
    var lineSize: nat := 0;
    for k := 0 to |rows|
      invariant lineSize == k
    {
      lineSize := lineSize + 1;
    }
    var lineCnt: nat := 0;
    instanceCnt := 0;
    for k := 0 to |rows|
      invariant lineCnt == k && instanceCnt == Total(rows, k)
      invariant rscH + WrittenRows(rows, k) == OPENING + WrittenRows(rows, 0)
    {
      rscH := WriteRound(rows, k, rscH, lineCnt, lineSize);
      instanceCnt := instanceCnt + DigitsFrom(rows[k].count, 0);
      lineCnt := lineCnt + 1;
    }
    assert rscH + WrittenRows(rows, |rows|) == rscH;
    rscH := Close(rscH, instanceCnt);
  }

  // ---------------------------------------------------------------- the literal is the escaped JSON text

  lemma QuotedEscaped(s: string, rest: string)
    requires Clean(s)
    ensures Escape(Quoted(s, rest)) == "\\\"" + s + "\\\"" + Escape(rest)
  {
    EscapeOne(QUOTE, s + ([QUOTE] + rest));
    EscapeAppend(s, [QUOTE] + rest);
    EscapeClean(s);
    EscapeOne(QUOTE, rest);
  }

  lemma MemberEscaped(m: Member, rest: string)
    requires CleanMember(m)
    ensures Escape(MemberText(m, rest)) == WrittenMember(m) + Escape(rest)
  {
    QuotedEscaped(m.0, [':'] + Quoted(m.1, rest));
    EscapeOne(':', Quoted(m.1, rest));
    QuotedEscaped(m.1, rest);
  }

  lemma {:induction false} MembersEscaped(ms: seq<Member>, rest: string)
    requires ms != [] && CleanObject(ms)
    ensures Escape(ListText(MemberText, '}', ms, rest)) == WrittenMembers(ms) + Escape(rest)
  {
    assert ms[0] in ms;
    ListTextUnfold(MemberText, '}', ms, rest);
    if |ms| == 1 {
      MemberEscaped(ms[0], ['}'] + rest);
      EscapeOne('}', rest);
      ConcatAssoc(WrittenMember(ms[0]), "}", Escape(rest));
    } else {
      var tail := ListText(MemberText, '}', ms[1..], rest);
      assert forall m :: m in ms[1..] ==> m in ms;
      MembersEscaped(ms[1..], rest);
      MemberEscaped(ms[0], [','] + tail);
      EscapeOne(',', tail);
      Bracket(WrittenMember(ms[0]), WrittenMembers(ms[1..]), Escape(rest));
    }
  }

  lemma Bracket(a: string, b: string, c: string)
    ensures a + ("," + (b + c)) == a + ("," + b) + c
  {
  }

  lemma RowEscaped(r: Row, rest: string)
    requires CleanRow(r)
    ensures Escape(ObjectText(Members(r), rest)) == WrittenRow(r) + Escape(rest)
  {
    MembersAreClean(r);
    MembersEscaped(Members(r), rest);
    EscapeOne('{', ListText(MemberText, '}', Members(r), rest));
    ConcatAssoc("{", WrittenMembers(Members(r)), Escape(rest));
  }

  lemma NamesAreClean()
    ensures Clean("oid") && Clean("rid") && Clean("count") && Clean("type") && Clean("range")
  {
  }

  /** The rows as the lists of members a reader finds. */
  function Objects(rows: seq<Row>, i: nat): (objects: seq<seq<Member>>)
    requires i <= |rows|
    ensures |objects| == |rows| - i
    decreases |rows| - i
  {
    if i == |rows| then [] else [Members(rows[i])] + Objects(rows, i + 1)
  }

  lemma ObjectsUnfold(rows: seq<Row>, i: nat)
    requires i < |rows|
    ensures Objects(rows, i)[0] == Members(rows[i]) && Objects(rows, i)[1..] == Objects(rows, i + 1)
  {
  }

  function RowsText(rows: seq<Row>, i: nat): string
    requires i <= |rows|
  {
    ListText(ObjectText, ']', Objects(rows, i), "")
  }

  lemma LastRowEscaped(rows: seq<Row>, i: nat)
    requires i == |rows| - 1 && CleanRow(rows[i])
    ensures Escape(RowsText(rows, i)) == WrittenRow(rows[i]) + "]"
  {
    ListTextUnfold(ObjectText, ']', Objects(rows, i), "");
    RowEscaped(rows[i], [']'] + "");
    EscapeOne(']', "");
  }

  lemma NextRowEscaped(rows: seq<Row>, i: nat)
    requires i < |rows| - 1 && CleanRow(rows[i])
    ensures Escape(RowsText(rows, i)) == WrittenRow(rows[i]) + ("," + Escape(RowsText(rows, i + 1)))
  {
    ObjectsUnfold(rows, i);
    ListTextUnfold(ObjectText, ']', Objects(rows, i), "");
    RowEscaped(rows[i], [','] + RowsText(rows, i + 1));
    EscapeOne(',', RowsText(rows, i + 1));
  }

  lemma WrittenRowsUnfold(rows: seq<Row>, i: nat)
    requires i < |rows|
    ensures WrittenRows(rows, i) ==
            WrittenRow(rows[i]) + if i == |rows| - 1 then "" else "," + WrittenRows(rows, i + 1)
  {
    RowWritten(rows, i, "", if i < |rows| - 1 then "," else "");
  }

  /** Every comma of the second pass is where the JSON grammar wants one. */
  lemma {:induction false} RowsEscaped(rows: seq<Row>, i: nat)
    requires i <= |rows| && CleanRows(rows)
    ensures Escape(RowsText(rows, i)) == WrittenRows(rows, i) + "]"
    decreases |rows| - i
  {
    if i == |rows| {
      EscapeOne(']', "");
    } else if i == |rows| - 1 {
      LastRowEscaped(rows, i);
      WrittenRowsUnfold(rows, i);
    } else {
      WrittenRowsUnfold(rows, i);
      NextRowEscaped(rows, i);
      RowsEscaped(rows, i + 1);
      Bracket(WrittenRow(rows[i]), WrittenRows(rows, i + 1), "]");
    }
  }

  /** The text between the quotes of the literal. */
  function Inner(rows: seq<Row>): string { "[" + WrittenRows(rows, 0) + "]" }

  /** What follows the closing quote. */
  function Tail(rows: seq<Row>): string { ";\n" + "\n" + TotalDefine(Total(rows, |rows|)) }

  /** The header is the declaration, the literal, a semicolon and the define with the total. */
  lemma {:induction false} HeaderParts(rows: seq<Row>)
    ensures Header(rows) == DECLARATION + (Inner(rows) + ([QUOTE] + Tail(rows)))
    ensures DECLARATION <= Header(rows) && Header(rows)[|DECLARATION|..] == Inner(rows) + ([QUOTE] + Tail(rows))
    ensures DECLARATION == "char *deviceRscData = \""
    ensures Tail(rows) == ";\n\n" + ("#define NOTI_PARAMS_TOTAL \t\t" + Decimal(Total(rows, |rows|)) + "\n")
  {
    var define := TotalDefine(Total(rows, |rows|));
    assert "]\";\n" == "]" + ([QUOTE] + ";\n");
    Nest("]", [QUOTE], ";\n", "\n", define);
    Around(DECLARATION, "[", WrittenRows(rows, 0), "]", [QUOTE] + Tail(rows));
    Behind(DECLARATION, Inner(rows) + ([QUOTE] + Tail(rows)));
    assert ";\n" + "\n" == ";\n\n";
  }

  lemma Nest(a: string, b: string, c: string, d: string, e: string)
    ensures (a + (b + c)) + d + e == a + (b + (c + d + e))
  {
  }

  lemma Around(a: string, b: string, c: string, d: string, e: string)
    ensures (a + b) + c + (d + e) == a + ((b + c + d) + e)
  {
  }

  lemma Behind(a: string, b: string)
    ensures (a + b)[|a|..] == b && a <= a + b
  {
  }

  lemma LiteralIsEscaped(rows: seq<Row>)
    requires CleanRows(rows)
    ensures Inner(rows) == Escape(ArrayText(Objects(rows, 0)))
  {
    RowsEscaped(rows, 0);
    EscapeOne('[', RowsText(rows, 0));
    ConcatAssoc("[", WrittenRows(rows, 0), "]");
  }

  lemma MembersAreClean(r: Row)
    ensures CleanObject(Members(r)) <==> CleanRow(r)
  {
    var ms := Members(r);
    NamesAreClean();
    assert forall m :: m in ms <==> m == ms[0] || m == ms[1] || m == ms[2] || m == ms[3] || m == ms[4];
    if CleanObject(ms) {
      assert ms[0] in ms && ms[1] in ms && ms[2] in ms && ms[3] in ms && ms[4] in ms;
    }
  }

  lemma {:induction false} ObjectsAreClean(rows: seq<Row>, i: nat)
    requires i <= |rows|
    ensures CleanObjects(Objects(rows, i)) <==> forall k :: i <= k < |rows| ==> CleanRow(rows[k])
    decreases |rows| - i
  {
    if i < |rows| {
      ObjectsAreClean(rows, i + 1);
      MembersAreClean(rows[i]);
      CleanCons(Members(rows[i]), Objects(rows, i + 1));
    }
  }

  lemma CleanCons(o: seq<Member>, rest: seq<seq<Member>>)
    ensures CleanObjects([o] + rest) <==> CleanObject(o) && CleanObjects(rest)
  {
    var all := [o] + rest;
    assert forall x :: x in all <==> x == o || x in rest;
    if CleanObjects(all) { assert o in all; }
  }

  // ---------------------------------------------------------------- widths

  lemma MemberQuotes(m: Member)
    ensures Quotes(WrittenMember(m)) >= 4 && |WrittenMember(m)| == MemberWidth(m) + 4
  {
    var q, colon := "\\\"", "\\\":";
    assert Quotes(q) == 1 && Quotes(colon) == 1 by {
      assert q[1..] == "\"" && colon[1..] == "\":" && "\":"[1..] == ":";
    }
    QuotesAppend(q, m.0);
    QuotesAppend(q + m.0, colon);
    QuotesAppend(q + m.0 + colon, q);
    QuotesAppend(q + m.0 + colon + q, m.1);
    QuotesAppend(q + m.0 + colon + q + m.1, q);
  }

  /** Each member is printed with at least four quotes, and with four characters more than its JSON text. */
  lemma {:induction false} MembersWidth(ms: seq<Member>)
    requires ms != []
    ensures Quotes(WrittenMembers(ms)) >= 4 * |ms| && |WrittenMembers(ms)| == ListWidth(MemberWidth, ms) + 4 * |ms|
  {
    MemberQuotes(ms[0]);
    if |ms| == 1 {
      QuotesAppend(WrittenMember(ms[0]), "}");
    } else {
      MembersWidth(ms[1..]);
      QuotesAppend(",", WrittenMembers(ms[1..]));
      QuotesAppend(WrittenMember(ms[0]), "," + WrittenMembers(ms[1..]));
    }
  }

  lemma RowWidth(r: Row)
    ensures Quotes(WrittenRow(r)) >= 20 && |WrittenRow(r)| == ObjectWidth(Members(r)) + 20
  {
    MembersWidth(Members(r));
    QuotesAppend("{", WrittenMembers(Members(r)));
  }

  lemma {:induction false} RowsWidth(rows: seq<Row>, i: nat)
    requires i <= |rows|
    ensures Quotes(WrittenRows(rows, i)) >= 20 * (|rows| - i)
    ensures |WrittenRows(rows, i)| + 1 == ListWidth(ObjectWidth, Objects(rows, i)) + 20 * (|rows| - i)
    decreases |rows| - i
  {
    if i < |rows| {
      var w := WrittenRow(rows[i]);
      var comma := if i < |rows| - 1 then "," else "";
      RowWidth(rows[i]);
      ObjectsUnfold(rows, i);
      QuotesAppend(w, comma);
      QuotesAppend(w + comma, WrittenRows(rows, i + 1));
      RowsWidth(rows, i + 1);
    }
  }

  /** Apart from its quotes the literal is as long as the JSON text at most. */
  lemma InnerWidth(rows: seq<Row>)
    ensures |Inner(rows)| <= ArrayWidth(Objects(rows, 0)) + Quotes(Inner(rows))
  {
    var w := WrittenRows(rows, 0);
    RowsWidth(rows, 0);
    QuotesAppend("[", w);
    QuotesAppend("[" + w, "]");
  }

  /** The only semicolon is the first character. */
  predicate OneSemicolon(t: string) { StartsWith(t, ';') && forall i :: 1 <= i < |t| ==> t[i] != ';' }

  lemma TailHasOneSemicolon(rows: seq<Row>)
    ensures OneSemicolon(Tail(rows))
  {
    var digits := Decimal(Total(rows, |rows|));
    assert !Digit(';');
    forall i | 0 <= i < |digits|
      ensures digits[i] != ';'
    {
      assert digits[i] in digits;
    }
    assert ';' !in "#define NOTI_PARAMS_TOTAL \t\t";
  }

  /** What a literal leaves is an end of the source. */
  lemma {:induction false} LiteralLeavesEnd(s: string, e: Escapes)
    ensures match ReadLiteral(s, e)
            case None => true
            case Some((_, rest)) => |rest| <= |s| && rest == s[|s| - |rest|..]
    decreases |s|
  {
    if s != "" && s[0] == BACKSLASH {
      var r := EscapeAt(s, e);
      if r.Some? { LiteralLeavesEnd(s[r.value.1..], e); }
    } else if s != "" && s[0] != QUOTE {
      LiteralLeavesEnd(s[1..], e);
    }
  }

  /** A literal that a semicolon follows ends at the written closing quote or before it, and denotes at most
      as many characters as are written without quotes. */
  lemma LiteralEnds(inner: string, tail: string, c: Escapes)
    requires OneSemicolon(tail)
    ensures match ReadLiteral(inner + ([QUOTE] + tail), c)
            case Some((text, rest)) => StartsWith(rest, ';') ==> |text| + Quotes(inner) <= |inner|
            case None => true
  {
    var source := inner + ([QUOTE] + tail);
    var r := ReadLiteral(source, c);
    if r.Some? && StartsWith(r.value.1, ';') {
      var rest := r.value.1;
      LiteralLeavesEnd(source, c);
      assert source[|source| - |rest|] == ';';
      assert source == inner + [QUOTE] + tail;
      LiteralQuotes(inner + [QUOTE], tail, rest);
      QuotesAppend(inner, [QUOTE] + tail);
      assert ([QUOTE] + tail)[1..] == tail;
      ReadLiteralWidth(source, c);
    }
  }

  /** What the literal of the header denotes is no longer than the JSON text of the rows. */
  lemma LiteralWidth(rows: seq<Row>, c: Escapes)
    ensures match ReadLiteral(Inner(rows) + ([QUOTE] + Tail(rows)), c)
            case Some((text, rest)) => StartsWith(rest, ';') ==> |text| <= ArrayWidth(Objects(rows, 0))
            case None => true
  {
    TailHasOneSemicolon(rows);
    LiteralEnds(Inner(rows), Tail(rows), c);
    InnerWidth(rows);
  }

  /** The quotes of what is left when a literal ends early. */
  lemma LiteralQuotes(literal: string, tail: string, rest: string)
    requires |tail| <= |rest| <= |literal + tail| && rest == (literal + tail)[|literal + tail| - |rest|..]
    ensures Quotes(rest) <= |rest| - |tail| + Quotes(tail)
  {
    var front := literal[|literal| - (|rest| - |tail|)..];
    assert rest == front + tail;
    QuotesAppend(front, tail);
  }

  // ---------------------------------------------------------------- the round trip

  /** What a compiler and a JSON reader with these escape tables make of the definition of deviceRscData. */
  function ReadBack(header: string, c: Escapes, json: Escapes): Option<seq<seq<Member>>> {
    if !(DECLARATION <= header) then None
    else match ReadLiteral(header[|DECLARATION|..], c)
      case Some((text, rest)) => if StartsWith(rest, ';') then ReadArray(text, json) else None
      case None => None
  }

  lemma CleanReadsBack(rows: seq<Row>, c: Escapes, json: Escapes)
    requires CleanRows(rows) && CTable(c)
    ensures ReadBack(Header(rows), c, json) == Some(Objects(rows, 0))
  {
    var objects := Objects(rows, 0);
    HeaderParts(rows);
    ObjectsAreClean(rows, 0);
    LiteralIsEscaped(rows);
    ArrayKeepsLine(objects);
    ReadLiteralOf(ArrayText(objects), Tail(rows), c);
    ReadArrayOf(objects, json);
  }

  /** Which column is found under which name, for every row of a clean profile. */
  lemma {:induction false} ColumnsReadBack(rows: seq<Row>, c: Escapes, json: Escapes)
    requires CleanRows(rows) && CTable(c)
    ensures match ReadBack(Header(rows), c, json)
            case None => false
            case Some(objects) =>
              && |objects| == |rows|
              && forall k :: 0 <= k < |rows| ==>
                   objects[k] == [("oid", rows[k].oid), ("rid", rows[k].rid), ("count", rows[k].count),
                                  ("type", rows[k].kind), ("range", rows[k].range)]
  {
    CleanReadsBack(rows, c, json);
    forall k | 0 <= k < |rows|
      ensures Objects(rows, 0)[k] == Members(rows[k])
    {
      ObjectAt(rows, 0, k);
    }
  }

  lemma {:induction false} ObjectAt(rows: seq<Row>, i: nat, k: nat)
    requires i <= k < |rows|
    ensures Objects(rows, i)[k - i] == Members(rows[k])
    decreases k - i
  {
    if i < k {
      ObjectAt(rows, i + 1, k);
      ObjectsUnfold(rows, i);
    }
  }

  /** With every table of escapes, the emitted header reads back as exactly the rows if and only if no
      field holds a quote, a backslash or a control character. Any other field can only be read through an
      escape, and escapes shorten: what is read is then shorter than what was written. */
  lemma ReadsBackIffClean(rows: seq<Row>, c: Escapes, json: Escapes)
    requires CTable(c)
    ensures ReadBack(Header(rows), c, json) == Some(Objects(rows, 0)) <==> CleanRows(rows)
  {
    ObjectsAreClean(rows, 0);
    if CleanRows(rows) {
      CleanReadsBack(rows, c, json);
    } else {
      HeaderParts(rows);
      LiteralWidth(rows, c);
      var literal := ReadLiteral(Inner(rows) + ([QUOTE] + Tail(rows)), c);
      if literal.Some? { ReadArrayTight(literal.value.0, json); }
    }
  }

  /** The simple escapes of C are such a table. */
  function SimpleEscape(s: string): Option<(char, nat)> {
    if s == "" then None
    else
      match s[0]
      case 'a' => Some((7 as char, 1))
      case 'b' => Some((8 as char, 1))
      case 't' => Some(('\t', 1))
      case 'n' => Some(('\n', 1))
      case 'v' => Some((11 as char, 1))
      case 'f' => Some((12 as char, 1))
      case 'r' => Some(('\r', 1))
      case c => if c in "'\"?\\" then Some((c, 1)) else None
  }

  lemma SimpleEscapeIsTable()
    ensures CTable(SimpleEscape)
  {
  }

  // ---------------------------------------------------------------- the total

  /** The sum a reader gets from the count members, as the firmware reads numbers. */
  function CountSum(objects: seq<seq<Member>>): int {
    if objects == [] then 0
    else (if |objects[0]| > 2 then Atoi(objects[0][2].1) else 0) + CountSum(objects[1..])
  }

  lemma DigitsAtoi(s: string)
    requires AllDigits(s)
    ensures Atoi(s) == DigitsFrom(s, 0)
  {
    assert s[0] in s;
  }

  lemma CountSumStep(rows: seq<Row>, i: nat)
    requires i < |rows| && AllDigits(rows[i].count)
    ensures CountSum(Objects(rows, i)) == DigitsFrom(rows[i].count, 0) + CountSum(Objects(rows, i + 1))
  {
    DigitsAtoi(rows[i].count);
    ObjectsUnfold(rows, i);
  }

  lemma {:induction false} TotalIsCountSum(rows: seq<Row>, i: nat)
    requires i <= |rows| && NumericCounts(rows)
    ensures Total(rows, i) + CountSum(Objects(rows, i)) == Total(rows, |rows|)
    decreases |rows| - i
  {
    if i < |rows| {
      TotalIsCountSum(rows, i + 1);
      CountSumStep(rows, i);
    }
  }

  /** The sum of the count columns. */
  function ColumnSum(rows: seq<Row>): int {
    if rows == [] then 0 else Atoi(rows[0].count) + ColumnSum(rows[1..])
  }

  lemma {:induction false} ColumnSumOfObjects(rows: seq<Row>, i: nat)
    requires i <= |rows| && NumericCounts(rows)
    ensures CountSum(Objects(rows, i)) == ColumnSum(rows[i..])
    decreases |rows| - i
  {
    if i < |rows| {
      ColumnSumOfObjects(rows, i + 1);
      CountSumStep(rows, i);
      DigitsAtoi(rows[i].count);
      assert rows[i..][1..] == rows[i + 1..];
    }
  }

  /** The number printed behind NOTI_PARAMS_TOTAL is the sum of the count column, and of the instance counts a
      reader finds in the rows. */
  lemma {:induction false} TotalReadsBack(rows: seq<Row>)
    requires NumericCounts(rows)
    ensures Atoi(Decimal(Total(rows, |rows|))) == CountSum(Objects(rows, 0)) == ColumnSum(rows)
  {
    TotalIsCountSum(rows, 0);
    ColumnSumOfObjects(rows, 0);
    assert rows[0..] == rows;
    AtoiOfDecimal(Total(rows, |rows|));
  }
}
