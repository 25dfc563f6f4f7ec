/** JSON texts that are arrays of flat objects, inside a C string literal: how they are printed, how they are
    read back, and how long they are. */
module JsonText {
  import opened Base

  type Member = (string, string)

  const QUOTE: char := '\"'
  const BACKSLASH: char := '\\'

  /** A character that stands for itself in a C string literal and in a JSON string. */
  predicate Plain(c: char) { c != QUOTE && c != BACKSLASH && c as int >= 32 }

  predicate Clean(s: string) { forall c :: c in s ==> Plain(c) }
  predicate CleanMember(m: Member) { Clean(m.0) && Clean(m.1) }
  predicate CleanObject(o: seq<Member>) { forall m :: m in o ==> CleanMember(m) }
  predicate CleanObjects(objects: seq<seq<Member>>) { forall o :: o in objects ==> CleanObject(o) }

  // ---------------------------------------------------------------- reading

  /** What the text behind a backslash denotes, and how many characters of it that takes. None when the
      text does not begin with an escape sequence. */
  type Escapes = string -> Option<(char, nat)>

  /** An escape sequence together with its backslash takes two characters at least. */
  function EscapeAt(s: string, e: Escapes): (r: Option<(char, nat)>)
    ensures r.Some? ==> 2 <= r.value.1 <= |s|
  {
    if s == "" then None
    else match e(s[1..])
      case Some((c, n)) => if 1 <= n < |s| then Some((c, 1 + n)) else None
      case None => None
  }

  predicate StartsWith(s: string, c: char) { s != "" && s[0] == c }

  /** A table of C escapes (section 6.4.4.4 of C11), as far as the proof needs to know it: quote and
      backslash stand for themselves. Everything else in the table is open. */
  ghost predicate CTable(e: Escapes) {
    && (forall s :: StartsWith(s, QUOTE) ==> e(s) == Some((QUOTE, 1)))
    && (forall s :: StartsWith(s, BACKSLASH) ==> e(s) == Some((BACKSLASH, 1)))
  }

  function Prepend(c: char, r: Option<(string, string)>): Option<(string, string)> {
    match r
    case None => None
    case Some((text, rest)) => Some(([c] + text, rest))
  }

  /** The characters a C string literal denotes, from behind its opening quote, and the source behind its
      closing quote (section 6.4.5 of C11). */
  function ReadLiteral(s: string, e: Escapes): Option<(string, string)>
    decreases |s|
  {
    if s == "" || s[0] == '\n' then None
    else if s[0] == QUOTE then Some(("", s[1..]))
    else if s[0] == BACKSLASH then
      match EscapeAt(s, e)
      case None => None
      case Some((c, n)) => Prepend(c, ReadLiteral(s[n..], e))
    else Prepend(s[0], ReadLiteral(s[1..], e))
  }

  /** A JSON string behind its opening quote (section 7 of RFC 8259), with any table of escapes. */
  function ReadString(s: string, e: Escapes): Option<(string, string)>
    decreases |s|
  {
    if s == "" then None
    else if s[0] == QUOTE then Some(("", s[1..]))
    else if s[0] == BACKSLASH then
      match EscapeAt(s, e)
      case None => None
      case Some((c, n)) => Prepend(c, ReadString(s[n..], e))
    else if !Plain(s[0]) then None
    else Prepend(s[0], ReadString(s[1..], e))
  }

  /** White space between tokens (section 2 of RFC 8259). */
  predicate White(c: char) { c in " \t\n\r" }

  function Next(s: string): (t: string)
    ensures |t| <= |s|
  {
    if s == "" || !White(s[0]) then s else Next(s[1..])
  }

  /** A string with its quotes. */
  function ReadQuoted(s: string, e: Escapes): Option<(string, string)> {
    if StartsWith(Next(s), QUOTE) then ReadString(Next(s)[1..], e) else None
  }

  /** `"name":"value"`. */
  function ReadMember(s: string, e: Escapes): Option<(Member, string)> {
    match ReadQuoted(s, e)
    case None => None
    case Some((name, rest)) =>
      if !StartsWith(Next(rest), ':') then None
      else match ReadQuoted(Next(rest)[1..], e)
        case None => None
        case Some((value, behind)) => Some(((name, value), behind))
  }

  function Push<T>(x: T, r: Option<(seq<T>, string)>): Option<(seq<T>, string)> {
    match r
    case None => None
    case Some((xs, rest)) => Some(([x] + xs, rest))
  }

  type Reader<T> = string -> Option<(T, string)>

  /** Items separated by commas up to the closing mark (sections 4 and 5 of RFC 8259). */
  function ReadItems<T>(read: Reader<T>, close: char, s: string): Option<(seq<T>, string)>
    decreases |s|
  {
    match read(s)
    case None => None
    case Some((x, rest)) =>
      if |rest| >= |s| then None
      else if StartsWith(Next(rest), close) then Some(([x], Next(rest)[1..]))
      else if StartsWith(Next(rest), ',') then Push(x, ReadItems(read, close, Next(rest)[1..]))
      else None
  }

  /** The same, or no items. */
  function ReadList<T>(read: Reader<T>, close: char, s: string): Option<(seq<T>, string)> {
    if StartsWith(Next(s), close) then Some(([], Next(s)[1..])) else ReadItems(read, close, s)
  }

  function MemberReader(e: Escapes): Reader<Member> { s => ReadMember(s, e) }

  function ReadObject(s: string, e: Escapes): Option<(seq<Member>, string)> {
    if StartsWith(Next(s), '{') then ReadList(MemberReader(e), '}', Next(s)[1..]) else None
  }

  function ObjectReader(e: Escapes): Reader<seq<Member>> { s => ReadObject(s, e) }

  /** A JSON text that is an array of objects whose members are strings. */
  function ReadArray(s: string, e: Escapes): Option<seq<seq<Member>>> {
    if !StartsWith(Next(s), '[') then None
    else match ReadList(ObjectReader(e), ']', Next(s)[1..])
      case None => None
      case Some((objects, rest)) => if Next(rest) == "" then Some(objects) else None
  }

  // ---------------------------------------------------------------- printing

  type Printer<!T> = (T, string) -> string

  function Quoted(s: string, rest: string): string { [QUOTE] + (s + ([QUOTE] + rest)) }

  function MemberText(m: Member, rest: string): string { Quoted(m.0, [':'] + Quoted(m.1, rest)) }

  function ListText<T>(show: Printer<T>, close: char, xs: seq<T>, rest: string): string {
    if xs == [] then [close] + rest
    else show(xs[0], if |xs| == 1 then [close] + rest else [','] + ListText(show, close, xs[1..], rest))
  }

  function ObjectText(o: seq<Member>, rest: string): string { ['{'] + ListText(MemberText, '}', o, rest) }

  function ArrayText(objects: seq<seq<Member>>): string { ['['] + ListText(ObjectText, ']', objects, "") }

  lemma ListTextUnfold<T>(show: Printer<T>, close: char, xs: seq<T>, rest: string)
    requires xs != []
    ensures ListText(show, close, xs, rest) ==
            show(xs[0], if |xs| == 1 then [close] + rest else [','] + ListText(show, close, xs[1..], rest))
  {
  }

  // ---------------------------------------------------------------- reading what was printed

  lemma NextOf(c: char, rest: string)
    requires !White(c)
    ensures Next([c] + rest) == [c] + rest && ([c] + rest)[1..] == rest
  {
  }

  lemma {:induction false} ReadStringOf(s: string, rest: string, e: Escapes)
    requires Clean(s)
    ensures ReadString(s + ([QUOTE] + rest), e) == Some((s, rest))
  {
    var text := s + ([QUOTE] + rest);
    if s == "" {
      assert text == [QUOTE] + rest;
      assert text[1..] == rest;
    } else {
      assert s[0] in s && forall c :: c in s[1..] ==> c in s;
      ReadStringOf(s[1..], rest, e);
      assert text[1..] == s[1..] + ([QUOTE] + rest);
      assert [s[0]] + s[1..] == s;
    }
  }

  lemma ReadQuotedOf(s: string, rest: string, e: Escapes)
    requires Clean(s)
    ensures ReadQuoted(Quoted(s, rest), e) == Some((s, rest))
  {
    NextOf(QUOTE, s + ([QUOTE] + rest));
    ReadStringOf(s, rest, e);
  }

  lemma ReadMemberOf(m: Member, rest: string, e: Escapes)
    requires CleanMember(m)
    ensures ReadMember(MemberText(m, rest), e) == Some((m, rest))
  {
    ReadQuotedOf(m.0, [':'] + Quoted(m.1, rest), e);
    NextOf(':', Quoted(m.1, rest));
    ReadQuotedOf(m.1, rest, e);
  }

  /** The reader reads back what the printer prints of `x`, which is not taken for white space or the end
      of a list. */
  ghost predicate ReadsBack<T(!new)>(read: Reader<T>, show: Printer<T>, close: char, x: T) {
    forall rest ::
      var text := show(x, rest);
      read(text) == Some((x, rest)) && |rest| < |text| && !White(text[0]) && text[0] != close
  }

  lemma {:induction false} ReadItemsOf<T(!new)>(read: Reader<T>, show: Printer<T>, close: char, xs: seq<T>,
                                        rest: string)
    requires xs != [] && !White(close) && close != ','
    requires forall x :: x in xs ==> ReadsBack(read, show, close, x)
    ensures ReadItems(read, close, ListText(show, close, xs, rest)) == Some((xs, rest))
    decreases |xs|
  {
    assert xs[0] in xs && [xs[0]] + xs[1..] == xs;
    ListTextUnfold(show, close, xs, rest);
    if |xs| == 1 {
      assert read(show(xs[0], [close] + rest)) == Some((xs[0], [close] + rest));
      NextOf(close, rest);
      assert [xs[0]] == xs;
    } else {
      var tail := ListText(show, close, xs[1..], rest);
      assert forall x :: x in xs[1..] ==> x in xs;
      ReadItemsOf(read, show, close, xs[1..], rest);
      assert read(show(xs[0], [','] + tail)) == Some((xs[0], [','] + tail));
      NextOf(',', tail);
    }
  }

  lemma ReadListOf<T(!new)>(read: Reader<T>, show: Printer<T>, close: char, xs: seq<T>, rest: string)
    requires !White(close) && close != ','
    requires forall x :: x in xs ==> ReadsBack(read, show, close, x)
    ensures ReadList(read, close, ListText(show, close, xs, rest)) == Some((xs, rest))
  {
    if xs == [] {
      NextOf(close, rest);
    } else {
      assert xs[0] in xs;
      ListTextUnfold(show, close, xs, rest);
      ReadItemsOf(read, show, close, xs, rest);
    }
  }

  lemma MemberReadsBack(m: Member, e: Escapes)
    requires CleanMember(m)
    ensures ReadsBack(MemberReader(e), MemberText, '}', m)
  {
    forall rest
      ensures MemberReader(e)(MemberText(m, rest)) == Some((m, rest))
    {
      ReadMemberOf(m, rest, e);
    }
  }

  lemma ReadObjectOf(o: seq<Member>, rest: string, e: Escapes)
    requires CleanObject(o)
    ensures ReadObject(ObjectText(o, rest), e) == Some((o, rest)) && |rest| < |ObjectText(o, rest)|
  {
    NextOf('{', ListText(MemberText, '}', o, rest));
    forall m | m in o
      ensures ReadsBack(MemberReader(e), MemberText, '}', m)
    {
      MemberReadsBack(m, e);
    }
    ReadListOf(MemberReader(e), MemberText, '}', o, rest);
    ObjectTextWidth(o, rest);
  }

  lemma ObjectReadsBack(o: seq<Member>, e: Escapes)
    requires CleanObject(o)
    ensures ReadsBack(ObjectReader(e), ObjectText, ']', o)
  {
    forall rest
      ensures ObjectReader(e)(ObjectText(o, rest)) == Some((o, rest)) && |rest| < |ObjectText(o, rest)|
    {
      ReadObjectOf(o, rest, e);
    }
  }

  /** A printed array of clean objects is read back, whatever the reader takes for an escape. */
  lemma ReadArrayOf(objects: seq<seq<Member>>, e: Escapes)
    requires CleanObjects(objects)
    ensures ReadArray(ArrayText(objects), e) == Some(objects)
  {
    NextOf('[', ListText(ObjectText, ']', objects, ""));
    forall o | o in objects
      ensures ReadsBack(ObjectReader(e), ObjectText, ']', o)
    {
      ObjectReadsBack(o, e);
    }
    ReadListOf(ObjectReader(e), ObjectText, ']', objects, "");
  }

  // ---------------------------------------------------------------- widths

  /** The length of a list, with its commas and its closing mark. */
  function ListWidth<T>(width: T -> nat, xs: seq<T>): nat {
    if xs == [] then 1
    else width(xs[0]) + 1 + if |xs| == 1 then 0 else ListWidth(width, xs[1..])
  }

  function MemberWidth(m: Member): nat { |m.0| + |m.1| + 5 }
  function ObjectWidth(o: seq<Member>): nat { 1 + ListWidth(MemberWidth, o) }
  function ArrayWidth(objects: seq<seq<Member>>): nat { 1 + ListWidth(ObjectWidth, objects) }

  lemma {:induction false} ListTextWidth<T(!new)>(show: Printer<T>, width: T -> nat, close: char, xs: seq<T>,
                                        rest: string)
    requires forall x, r :: |show(x, r)| == width(x) + |r|
    ensures |ListText(show, close, xs, rest)| == ListWidth(width, xs) + |rest|
  {
    if xs != [] {
      ListTextUnfold(show, close, xs, rest);
      if |xs| > 1 { ListTextWidth(show, width, close, xs[1..], rest); }
    }
  }

  lemma ObjectTextWidth(o: seq<Member>, rest: string)
    ensures |ObjectText(o, rest)| == ObjectWidth(o) + |rest|
  {
    forall m: Member, r: string
      ensures |MemberText(m, r)| == MemberWidth(m) + |r|
    {
    }
    ListTextWidth(MemberText, MemberWidth, '}', o, rest);
  }

  /** A string takes at least its own length and a quote, and more when it was written with an escape. */
  lemma {:induction false} ReadStringWidth(s: string, e: Escapes)
    ensures match ReadString(s, e)
            case None => true
            case Some((v, rest)) => |v| + 1 + |rest| <= |s| && (|v| + 1 + |rest| == |s| ==> Clean(v))
    decreases |s|
  {
    if s != "" && s[0] == BACKSLASH {
      var r := EscapeAt(s, e);
      if r.Some? { ReadStringWidth(s[r.value.1..], e); }
    } else if s != "" && s[0] != QUOTE {
      ReadStringWidth(s[1..], e);
    }
  }

  lemma ReadQuotedWidth(s: string, e: Escapes)
    ensures match ReadQuoted(s, e)
            case None => true
            case Some((v, rest)) => |v| + 2 + |rest| <= |s| && (|v| + 2 + |rest| == |s| ==> Clean(v))
  {
    if Next(s) != "" { ReadStringWidth(Next(s)[1..], e); }
  }

  /** What the reader takes for `x` is at least as long as the width of `x`, and longer when `x` is not clean. */
  ghost predicate Tight<T(!new)>(read: Reader<T>, width: T -> nat, clean: T -> bool) {
    forall s :: read(s).Some? ==>
      var (x, rest) := read(s).value;
      width(x) + |rest| <= |s| && (width(x) + |rest| == |s| ==> clean(x))
  }

  lemma MemberTight(e: Escapes)
    ensures Tight(MemberReader(e), MemberWidth, CleanMember)
  {
    forall s | MemberReader(e)(s).Some?
      ensures var (m, rest) := MemberReader(e)(s).value;
              MemberWidth(m) + |rest| <= |s| && (MemberWidth(m) + |rest| == |s| ==> CleanMember(m))
    {
      ReadQuotedWidth(s, e);
      ReadQuotedWidth(Next(ReadQuoted(s, e).value.1)[1..], e);
    }
  }

  predicate AllClean<T(==)>(clean: T -> bool, xs: seq<T>) { forall x :: x in xs ==> clean(x) }

  lemma {:induction false} ReadItemsTight<T(!new)>(read: Reader<T>, close: char, s: string, width: T -> nat,
                                        clean: T -> bool)
    requires Tight(read, width, clean)
    ensures match ReadItems(read, close, s)
            case None => true
            case Some((xs, rest)) =>
              && xs != [] && ListWidth(width, xs) + |rest| <= |s|
              && (ListWidth(width, xs) + |rest| == |s| ==> AllClean(clean, xs))
    decreases |s|
  {
    var r := read(s);
    if r.Some? && |r.value.1| < |s| {
      var t := Next(r.value.1);
      if StartsWith(t, ',') && close != ',' {
        ReadItemsTight(read, close, t[1..], width, clean);
        var q := ReadItems(read, close, t[1..]);
        if q.Some? { assert ([r.value.0] + q.value.0)[1..] == q.value.0; }
      }
    }
  }

  /** A list behind its opening mark. */
  lemma ReadListTight<T(!new)>(read: Reader<T>, close: char, s: string, width: T -> nat, clean: T -> bool)
    requires Tight(read, width, clean)
    ensures match ReadList(read, close, s)
            case None => true
            case Some((xs, rest)) =>
              && ListWidth(width, xs) + |rest| <= |s|
              && (ListWidth(width, xs) + |rest| == |s| ==> AllClean(clean, xs))
  {
    if !StartsWith(Next(s), close) { ReadItemsTight(read, close, s, width, clean); }
  }

  lemma ObjectTight(e: Escapes)
    ensures Tight(ObjectReader(e), ObjectWidth, CleanObject)
  {
    MemberTight(e);
    forall s | ObjectReader(e)(s).Some?
      ensures var (o, rest) := ObjectReader(e)(s).value;
              ObjectWidth(o) + |rest| <= |s| && (ObjectWidth(o) + |rest| == |s| ==> CleanObject(o))
    {
      ReadListTight(MemberReader(e), '}', Next(s)[1..], MemberWidth, CleanMember);
    }
  }

  /** An array takes at least the length it is printed in, and more when something in it is not clean. */
  lemma ReadArrayTight(s: string, e: Escapes)
    ensures var r := ReadArray(s, e);
            r.Some? ==> ArrayWidth(r.value) <= |s| && (ArrayWidth(r.value) == |s| ==> CleanObjects(r.value))
  {
    if StartsWith(Next(s), '[') {
      ObjectTight(e);
      ReadListTight(ObjectReader(e), ']', Next(s)[1..], ObjectWidth, CleanObject);
    }
  }

  // ---------------------------------------------------------------- the literal

  function Escaped(c: char): string { if c == QUOTE || c == BACKSLASH then [BACKSLASH, c] else [c] }

  /** A text as it is written inside a C string literal. */
  function Escape(s: string): string {
    if s == "" then "" else Escaped(s[0]) + Escape(s[1..])
  }

  lemma EscapeUnfold(s: string)
    requires s != ""
    ensures Escape(s) == Escaped(s[0]) + Escape(s[1..])
  {
  }

  lemma EscapeOne(c: char, rest: string)
    ensures Escape([c] + rest) == Escaped(c) + Escape(rest)
  {
    assert ([c] + rest)[1..] == rest;
  }

  lemma {:induction false} EscapeAppend(a: string, b: string)
    ensures Escape(a + b) == Escape(a) + Escape(b)
  {
    if a == "" {
      assert a + b == b;
    } else {
      EscapeAppend(a[1..], b);
      assert (a + b)[1..] == a[1..] + b;
      EscapeUnfold(a + b);
      ConcatAssoc(Escaped(a[0]), Escape(a[1..]), Escape(b));
    }
  }

  lemma {:induction false} EscapeClean(s: string)
    requires Clean(s)
    ensures Escape(s) == s
  {
    if s != "" {
      assert s[0] in s && forall c :: c in s[1..] ==> c in s;
      EscapeClean(s[1..]);
      assert [s[0]] + s[1..] == s;
    }
  }

  lemma ReadEscaped(c: char, tail: string, e: Escapes)
    requires c != '\n' && CTable(e)
    ensures ReadLiteral(Escaped(c) + tail, e) == Prepend(c, ReadLiteral(tail, e))
  {
    var text := Escaped(c) + tail;
    if c == QUOTE || c == BACKSLASH {
      assert text[1..] == [c] + tail && text[2..] == tail;
    } else {
      assert text[1..] == tail;
    }
  }

  /** Reading a literal gives back the text that was escaped into it. */
  lemma {:induction false} ReadLiteralOf(s: string, rest: string, e: Escapes)
    requires '\n' !in s && CTable(e)
    ensures ReadLiteral(Escape(s) + ([QUOTE] + rest), e) == Some((s, rest))
  {
    if s == "" {
      assert "" + ([QUOTE] + rest) == [QUOTE] + rest && ([QUOTE] + rest)[1..] == rest;
    } else {
      var tail := Escape(s[1..]) + ([QUOTE] + rest);
      ReadLiteralOf(s[1..], rest, e);
      ReadEscaped(s[0], tail, e);
      EscapeUnfold(s);
      ConcatAssoc(Escaped(s[0]), Escape(s[1..]), [QUOTE] + rest);
      assert [s[0]] + s[1..] == s;
    }
  }

  function Quotes(s: string): (n: nat)
    ensures n <= |s|
  {
    if s == "" then 0 else (if s[0] == QUOTE then 1 else 0) + Quotes(s[1..])
  }

  lemma {:induction false} QuotesAppend(a: string, b: string)
    ensures Quotes(a + b) == Quotes(a) + Quotes(b)
  {
    if a == "" {
      assert a + b == b;
    } else {
      QuotesAppend(a[1..], b);
      assert (a + b)[1..] == a[1..] + b;
    }
  }

  /** Every quote inside a literal costs a backslash. */
  lemma {:induction false} ReadLiteralWidth(s: string, e: Escapes)
    ensures match ReadLiteral(s, e)
            case None => true
            case Some((text, rest)) => |text| + |rest| + Quotes(s) <= |s| + Quotes(rest)
    decreases |s|
  {
    if s != "" && s[0] == BACKSLASH {
      var r := EscapeAt(s, e);
      if r.Some? {
        var n := r.value.1;
        ReadLiteralWidth(s[n..], e);
        assert s[1..] == s[1..n] + s[n..];
        QuotesAppend(s[1..n], s[n..]);
      }
    } else if s != "" && s[0] != QUOTE {
      ReadLiteralWidth(s[1..], e);
    }
  }

  // ---------------------------------------------------------------- no newline

  ghost predicate KeepsLine<T(!new)>(show: Printer<T>, x: T) {
    forall r :: '\n' !in r ==> '\n' !in show(x, r)
  }

  lemma {:induction false} ListKeepsLine<T(!new)>(show: Printer<T>, close: char, xs: seq<T>, rest: string)
    requires close != '\n' && '\n' !in rest && forall x :: x in xs ==> KeepsLine(show, x)
    ensures '\n' !in ListText(show, close, xs, rest)
  {
    if xs != [] {
      assert xs[0] in xs;
      ListTextUnfold(show, close, xs, rest);
      if |xs| > 1 {
        assert forall x :: x in xs[1..] ==> x in xs;
        ListKeepsLine(show, close, xs[1..], rest);
      }
    }
  }

  lemma CleanKeepsLine(s: string)
    requires Clean(s)
    ensures '\n' !in s
  {
    assert !Plain('\n');
  }

  lemma MemberKeepsLine(m: Member)
    requires CleanMember(m)
    ensures KeepsLine(MemberText, m)
  {
    CleanKeepsLine(m.0);
    CleanKeepsLine(m.1);
  }

  lemma ObjectKeepsLine(o: seq<Member>)
    requires CleanObject(o)
    ensures KeepsLine(ObjectText, o)
  {
    forall m | m in o
      ensures KeepsLine(MemberText, m)
    {
      MemberKeepsLine(m);
    }
    forall r | '\n' !in r
      ensures '\n' !in ObjectText(o, r)
    {
      ListKeepsLine(MemberText, '}', o, r);
    }
  }

  /** A printed array of clean objects is one line. */
  lemma ArrayKeepsLine(objects: seq<seq<Member>>)
    requires CleanObjects(objects)
    ensures '\n' !in ArrayText(objects)
  {
    forall o | o in objects
      ensures KeepsLine(ObjectText, o)
    {
      ObjectKeepsLine(o);
    }
    ListKeepsLine(ObjectText, ']', objects, "");
  }
}
