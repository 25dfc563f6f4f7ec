/** getCntSplit, split and freeSplit: a counting pass, a cutting pass into fixed buffers, and the
    release of what the cutting pass allocated. */
module Splitting {
  import opened Base
  import opened Heaps

  predicate OccursAt(s: string, sep: string, p: nat) {
    p + |sep| <= |s| && s[p..p + |sep|] == sep
  }

  predicate Occurs(s: string, sep: string) {
    exists p :: 0 <= p <= |s| && OccursAt(s, sep, p)
  }

  /** strstr: the first occurrence of `sep` at or behind `from`. None stands for the null pointer. */
  function Strstr(s: string, sep: string, from: nat): (r: Option<nat>)
    requires from <= |s|
    ensures r.Some? ==> from <= r.value && r.value + |sep| <= |s|
    decreases |s| - from
  {
    if OccursAt(s, sep, from) then Some(from)
    else if from == |s| then None
    else Strstr(s, sep, from + 1)
  }

  /** The pieces between the separators at and behind `from`, scanning from the left. */
  function Pieces(s: string, sep: string, from: nat): (pieces: seq<string>)
    requires |sep| > 0 && from <= |s|
    ensures |pieces| >= 1
    decreases |s| - from
  {
    match Strstr(s, sep, from)
    case None => [s[from..|s|]]
    case Some(p) => [s[from..p]] + Pieces(s, sep, p + |sep|)
  }

  function Join(pieces: seq<string>, sep: string): string
    requires |pieces| >= 1
  {
    if |pieces| == 1 then pieces[0] else pieces[0] + sep + Join(pieces[1..], sep)
  }

  lemma {:induction false} StrstrFinds(s: string, sep: string, from: nat)
    requires from <= |s|
    ensures match Strstr(s, sep, from)
            case None => forall q :: from <= q <= |s| ==> !OccursAt(s, sep, q)
            case Some(p) => OccursAt(s, sep, p) && forall q :: from <= q < p ==> !OccursAt(s, sep, q)
    decreases |s| - from
  {
    if from < |s| && !OccursAt(s, sep, from) { StrstrFinds(s, sep, from + 1); }
  }

  lemma StrstrIs(s: string, sep: string, p: nat)
    requires OccursAt(s, sep, p) && forall q :: 0 <= q < p ==> !OccursAt(s, sep, q)
    ensures Strstr(s, sep, 0) == Some(p)
  {
    StrstrFinds(s, sep, 0);
  }

  /** `t` is some text with `s` behind it, from position `k` on. */
  predicate Behind(t: string, k: nat, s: string) {
    |t| == k + |s| && forall i :: 0 <= i < |s| ==> t[k + i] == s[i]
  }

  lemma SliceBehind(t: string, k: nat, s: string, from: nat, to: nat)
    requires Behind(t, k, s) && from <= to <= |s|
    ensures t[k + from..k + to] == s[from..to]
  {
    var a, b := t[k + from..k + to], s[from..to];
    assert forall i :: 0 <= i < to - from ==> a[i] == t[k + (from + i)] == b[i];
  }

  lemma StrstrStep(s: string, sep: string, from: nat)
    requires from < |s| && !OccursAt(s, sep, from)
    ensures Strstr(s, sep, from) == Strstr(s, sep, from + 1)
  {
  }

  lemma StrstrStop(s: string, sep: string, from: nat)
    requires from <= |s| && (OccursAt(s, sep, from) || from == |s|)
    ensures Strstr(s, sep, from) == if OccursAt(s, sep, from) then Some(from) else None
  {
  }

  lemma OccursShift(t: string, k: nat, s: string, sep: string, p: nat)
    requires Behind(t, k, s) && p <= |s|
    ensures OccursAt(s, sep, p) <==> OccursAt(t, sep, k + p)
  {
    if p + |sep| <= |s| { SliceBehind(t, k, s, p, p + |sep|); }
  }

  function Moved(p: Option<nat>, k: nat): Option<nat> { if p.Some? then Some(k + p.value) else None }

  /** A text in front does not change what is found behind it. */
  lemma {:induction false} StrstrShift(t: string, k: nat, s: string, sep: string, from: nat)
    requires Behind(t, k, s) && from <= |s|
    ensures Strstr(t, sep, k + from) == Moved(Strstr(s, sep, from), k)
    decreases |s| - from
  {
    OccursShift(t, k, s, sep, from);
    if from < |s| && !OccursAt(s, sep, from) {
      StrstrShift(t, k, s, sep, from + 1);
      StrstrStep(s, sep, from);
      StrstrStep(t, sep, k + from);
    } else {
      StrstrStop(s, sep, from);
      StrstrStop(t, sep, k + from);
    }
  }

  lemma PiecesUnfold(s: string, sep: string, from: nat, p: nat)
    requires |sep| > 0 && from <= |s| && Strstr(s, sep, from) == Some(p)
    ensures Pieces(s, sep, from) == [s[from..p]] + Pieces(s, sep, p + |sep|)
  {
  }

  lemma PiecesEnd(s: string, sep: string, from: nat)
    requires |sep| > 0 && from <= |s| && Strstr(s, sep, from).None?
    ensures Pieces(s, sep, from) == [s[from..|s|]]
  {
  }

  lemma PiecesAre(s: string, sep: string, from: nat, p: nat, next: nat, first: string, rest: seq<string>)
    requires |sep| > 0 && from <= |s| && Strstr(s, sep, from) == Some(p) && next == p + |sep|
    requires first == s[from..p] && rest == Pieces(s, sep, next)
    ensures Pieces(s, sep, from) == [first] + rest
  {
  }

  lemma {:induction false} PiecesShift(t: string, k: nat, s: string, sep: string, from: nat)
    requires |sep| > 0 && Behind(t, k, s) && from <= |s|
    ensures Pieces(s, sep, from) == Pieces(t, sep, k + from)
    decreases |s| - from
  {
    StrstrShift(t, k, s, sep, from);
    var found := Strstr(s, sep, from);
    if found.None? {
      SliceBehind(t, k, s, from, |s|);
      PiecesEnd(s, sep, from);
      PiecesEnd(t, sep, k + from);
    } else {
      var next := found.value + |sep|;
      var first, rest := s[from..found.value], Pieces(s, sep, next);
      PiecesShift(t, k, s, sep, next);
      SliceBehind(t, k, s, from, found.value);
      PiecesAre(s, sep, from, found.value, next, first, rest);
      PiecesAre(t, sep, k + from, k + found.value, k + next, first, rest);
    }
  }

  // ---------------------------------------------------------------- what the pieces mean

  lemma JoinCons(piece: string, rest: seq<string>, sep: string)
    requires |rest| >= 1
    ensures Join([piece] + rest, sep) == piece + sep + Join(rest, sep)
  {
    assert ([piece] + rest)[1..] == rest;
  }

  lemma CutAtFound(s: string, sep: string, from: nat, p: nat)
    requires from <= |s| && Strstr(s, sep, from) == Some(p)
    ensures s[from..] == s[from..p] + sep + s[p + |sep|..]
  {
    StrstrFinds(s, sep, from);
    CutAt(s, from, p, p + |sep|);
  }

  lemma CutAt(s: string, from: nat, p: nat, q: nat)
    requires from <= p <= q <= |s|
    ensures s[from..] == s[from..p] + s[p..q] + s[q..]
  {
  }

  /** Splitting loses nothing: joining the pieces gives the text back. */
  lemma {:induction false} JoinOfPieces(s: string, sep: string, from: nat)
    requires |sep| > 0 && from <= |s|
    ensures Join(Pieces(s, sep, from), sep) == s[from..]
    decreases |s| - from
  {
    var found := Strstr(s, sep, from);
    if found.None? {
      PiecesEnd(s, sep, from);
    } else {
      var next := found.value + |sep|;
      var first, rest := s[from..found.value], Pieces(s, sep, next);
      PiecesAre(s, sep, from, found.value, next, first, rest);
      JoinOfPieces(s, sep, next);
      JoinCons(first, rest, sep);
      CutAtFound(s, sep, from, found.value);
    }
  }

  /** No piece holds a separator. */
  lemma {:induction false} PiecesAreFree(s: string, sep: string, from: nat, k: nat)
    requires |sep| > 0 && from <= |s| && k < |Pieces(s, sep, from)|
    ensures !Occurs(Pieces(s, sep, from)[k], sep)
    decreases |s| - from
  {
    StrstrFinds(s, sep, from);
    match Strstr(s, sep, from)
    case None =>
      SliceIsFree(s, sep, from, |s|);
      assert s[from..|s|] == s[from..];
    case Some(p) =>
      if k == 0 { SliceIsFree(s, sep, from, p); } else { PiecesAreFree(s, sep, p + |sep|, k - 1); }
  }

  lemma SliceIsFree(s: string, sep: string, from: nat, p: nat)
    requires |sep| > 0 && from <= p <= |s| && forall q :: from <= q < p ==> !OccursAt(s, sep, q)
    ensures !Occurs(s[from..p], sep)
  {
    forall q | 0 <= q <= p - from
      ensures !OccursAt(s[from..p], sep, q)
    {
      if q + |sep| <= p - from {
        SliceOfSlice(s, from, p, q, q + |sep|);
        assert !OccursAt(s, sep, from + q);
      }
    }
  }

  /** Every piece can be told apart from the separator behind it: the first separator in "piece,
      separator" is the one written there. The last piece holds no separator. */
  predicate Separable(pieces: seq<string>, sep: string)
    requires |pieces| >= 1 && |sep| > 0
  {
    if |pieces| == 1 then Strstr(pieces[0], sep, 0) == None
    else Strstr(pieces[0] + sep, sep, 0) == Some(|pieces[0]|) && Separable(pieces[1..], sep)
  }

  lemma FirstOfPrefix(piece: string, sep: string, rest: string)
    requires |sep| > 0
    ensures Strstr(piece + sep, sep, 0) == Strstr(piece + sep + rest, sep, 0)
    ensures Strstr(piece + sep, sep, 0).Some? && Strstr(piece + sep, sep, 0).value <= |piece|
  {
    var short, long := piece + sep, piece + sep + rest;
    assert short[|piece|..|piece| + |sep|] == sep;
    assert OccursAt(short, sep, |piece|);
    var r := Strstr(short, sep, 0);
    StrstrFinds(short, sep, 0);
    forall q | 0 <= q <= |piece|
      ensures OccursAt(short, sep, q) <==> OccursAt(long, sep, q)
    {
      assert short[q..q + |sep|] == long[q..q + |sep|];
    }
    StrstrIs(long, sep, r.value);
  }

  lemma ConsEqual<T>(x: T, xs: seq<T>, y: T, ys: seq<T>)
    ensures [x] + xs == [y] + ys <==> x == y && xs == ys
  {
    assert ([x] + xs)[0] == x && ([x] + xs)[1..] == xs;
    assert ([y] + ys)[0] == y && ([y] + ys)[1..] == ys;
  }

  lemma PiecesOfOne(s: string, sep: string)
    requires |sep| > 0
    ensures Pieces(s, sep, 0) == [s] <==> Strstr(s, sep, 0).None?
  {
    var r := Strstr(s, sep, 0);
    if r.None? {
      assert s[0..|s|] == s;
    } else {
      PiecesUnfold(s, sep, 0, r.value);
      assert |[s[0..r.value]] + Pieces(s, sep, r.value + |sep|)| > 1;
    }
  }

  /** split undoes Join exactly on the separable lists. */
  lemma {:induction false} PiecesOfJoin(pieces: seq<string>, sep: string)
    requires |pieces| >= 1 && |sep| > 0
    ensures Pieces(Join(pieces, sep), sep, 0) == pieces <==> Separable(pieces, sep)
    decreases |pieces|
  {
    if |pieces| == 1 {
      assert pieces == [pieces[0]];
      PiecesOfOne(pieces[0], sep);
    } else {
      var rest := Join(pieces[1..], sep);
      PiecesOfJoin(pieces[1..], sep);
      FirstOfPrefix(pieces[0], sep, rest);
      PiecesBehindFirst(pieces[0], sep, rest);
      assert pieces == [pieces[0]] + pieces[1..];
      ConsEqual(pieces[0], Pieces(rest, sep, 0), pieces[0], pieces[1..]);
    }
  }

  /** The pieces of "piece, separator, rest", when the written separator is the first, and otherwise
      a shorter first piece. */
  lemma PiecesBehindFirst(piece: string, sep: string, rest: string)
    requires |sep| > 0
    requires var r := Strstr(piece + sep + rest, sep, 0); r.Some? && r.value <= |piece|
    ensures Strstr(piece + sep + rest, sep, 0) == Some(|piece|) ==>
              Pieces(piece + sep + rest, sep, 0) == [piece] + Pieces(rest, sep, 0)
    ensures Strstr(piece + sep + rest, sep, 0) != Some(|piece|) ==>
              Pieces(piece + sep + rest, sep, 0)[0] != piece
  {
    var s := piece + sep + rest;
    var p := Strstr(s, sep, 0).value;
    PiecesUnfold(s, sep, 0, p);
    assert |s[0..p]| == p;
    if p == |piece| {
      assert s[0..p] == piece;
      PiecesShift(s, |piece| + |sep|, rest, sep, 0);
    }
  }

  /** With a one-character separator, as in the ranges "a,b,c" and "low~high", every list whose pieces
      do not contain it is separable. */
  lemma {:induction false} SingleCharacterSeparable(pieces: seq<string>, c: char)
    requires |pieces| >= 1 && forall piece :: piece in pieces ==> c !in piece
    ensures Separable(pieces, [c])
  {
    var t := pieces[0];
    assert t in pieces;
    forall q | 0 <= q < |t|
      ensures !OccursAt(t + [c], [c], q) && !OccursAt(t, [c], q)
    {
      assert (t + [c])[q..q + 1] == [t[q]] && t[q..q + 1] == [t[q]];
    }
    assert (t + [c])[|t|..|t| + 1] == [c];
    StrstrIs(t + [c], [c], |t|);
    StrstrFinds(t, [c], 0);
    if |pieces| > 1 {
      assert forall piece :: piece in pieces[1..] ==> piece in pieces;
      SingleCharacterSeparable(pieces[1..], c);
    }
  }

  /** A longer separator can be found too early: "a" and "" joined by "aa" split as "" and "a". */
  lemma {:induction false} LongSeparatorCanShift()
    ensures !Occurs("a", "aa") && !Occurs("", "aa")
    ensures Pieces(Join(["a", ""], "aa"), "aa", 0) != ["a", ""]
  {
  }

  /** What split returns: the number of pieces, but 0 when there is only one. */
  function PieceCount(s: string, sep: string): nat
    requires |sep| > 0
  {
    if |Pieces(s, sep, 0)| == 1 then 0 else |Pieces(s, sep, 0)|
  }

  /** The count is 0 exactly when the separator does not occur, and never 1. */
  lemma CountZeroIffAbsent(s: string, sep: string)
    requires |sep| > 0
    ensures PieceCount(s, sep) == 0 <==> !Occurs(s, sep)
    ensures PieceCount(s, sep) != 1
  {
    StrstrFinds(s, sep, 0);
  }

  // ---------------------------------------------------------------- the counting pass

  /** getCntSplit: the number of pieces, but 0 when the separator does not occur. */
  method GetCntSplit(msg: string, sep: string) returns (count: nat)
    requires |sep| > 0
    ensures count == PieceCount(msg, sep)
  {
    count := 0;
    var prev: nat := 0;
    var curr := None;
    while true
      invariant prev <= |msg|
      invariant count + |Pieces(msg, sep, prev)| == |Pieces(msg, sep, 0)|
      decreases |msg| - prev
    {
      curr := Strstr(msg, sep, prev);
      if curr.Some? {
        PiecesUnfold(msg, sep, prev, curr.value);
        prev := curr.value + |sep|;
      }
      if curr.None? {
        break;
      }
      count := count + 1;
    }
    if count > 0 {
      count := count + 1;
    }
  }

  // ---------------------------------------------------------------- the cutting pass

  const BUFFER := 30

  /** The sizes the fixed buffers of split need. The last strncpy asks for the length of the
      separator more than the piece has. */
  predicate Fits(pieces: seq<string>, sep: string) {
    && (forall i :: 0 <= i < |pieces| - 1 ==> |pieces[i]| < BUFFER)
    && (|pieces| > 1 ==> |pieces[|pieces| - 1]| + |sep| < BUFFER)
  }

  /** `strncpy(dst, src + from, n); dst[n] = 0;`: stops at the end of the source and pads with NUL. */
  method Strncpy(heap: Heap, dst: nat, src: string, from: nat, n: nat)
    requires heap.Valid() && dst in heap.blocks && n < |heap.blocks[dst]|
    requires from <= |src| && NUL !in src
    modifies heap`blocks
    ensures heap.Valid() && heap.blocks.Keys == old(heap.blocks.Keys)
    ensures forall p :: p in heap.blocks && p != dst ==> heap.blocks[p] == old(heap.blocks)[p]
    ensures CString(heap.blocks[dst], 0) == src[from..if from + n <= |src| then from + n else |src|]
  {
    var text := heap.blocks[dst];
    var k: nat := 0;
    while k < n
      invariant k <= n && |text| == |heap.blocks[dst]|
      invariant forall j :: 0 <= j < k ==> text[j] == if from + j < |src| then src[from + j] else NUL
    {
      text := text[k := if from + k < |src| then src[from + k] else NUL];
      k := k + 1;
    }
    text := text[n := NUL];
    ghost var m := if from + n <= |src| then n else |src| - from;
    CStringRun(text, 0, m);
    assert text[0..m] == src[from..from + m];
    heap.Fill(dst, text);
  }

  /** How many characters the next strncpy asks for, and where the piece behind it starts. `total` is
      the position of the last separator found, and the last round measures from there. */
  method NextCut(msg: string, sep: string, prev: nat, total: nat, last: bool)
    returns (length: nat, next: nat, found: nat)
    requires |sep| > 0 && prev <= |msg|
    requires prev == total + |sep| || (prev == 0 && total == 0 && !last)
    requires last <==> |Pieces(msg, sep, prev)| == 1
    ensures var rest := Pieces(msg, sep, prev);
            && rest[0] == msg[prev..if prev + length <= |msg| then prev + length else |msg|]
            && length == (if last then |rest[0]| + |sep| else |rest[0]|)
            && (!last ==> next <= |msg| && next == found + |sep| && Pieces(msg, sep, next) == rest[1..])
  {
    var curr := Strstr(msg, sep, prev);
    next, found := prev, total;
    if !last {
      found := curr.value;
      if prev == 0 { length := found; } else { length := curr.value - prev; }
      next := curr.value + |sep|;
    } else {
      length := |msg| - total;
    }
  }

  /** The blocks from `table` on hold the pieces in order, and no other block has changed. */
  ghost predicate Cut(before: map<nat, seq<char>>, blocks: map<nat, seq<char>>, table: nat, pieces: seq<string>, n: nat)
    requires n <= |pieces|
  {
    && (forall p :: p in blocks <==> p in before || table <= p <= table + n)
    && (forall p :: p in before ==> p in blocks && blocks[p] == before[p])
    && (forall p :: table < p <= table + n ==> CString(blocks[p], 0) == pieces[p - table - 1])
  }

  lemma CutOneMore(before: map<nat, seq<char>>, blocks: map<nat, seq<char>>, blocks': map<nat, seq<char>>,
                   table: nat, pieces: seq<string>, n: nat)
    requires n < |pieces| && Cut(before, blocks, table, pieces, n) && table + n + 1 !in blocks
    requires blocks'.Keys == blocks.Keys + {table + n + 1}
    requires forall q :: q in blocks ==> blocks'[q] == blocks[q]
    requires CString(blocks'[table + n + 1], 0) == pieces[n]
    ensures Cut(before, blocks', table, pieces, n + 1)
  {
    forall p | table < p <= table + n + 1
      ensures CString(blocks'[p], 0) == pieces[p - table - 1]
    {
      if p <= table + n { assert blocks'[p] == blocks[p]; }
    }
  }

  /** `array2d[i] = malloc(30)`, then the copy of piece `i`, which starts at `from`. */
  method CutRow(heap: Heap, table: nat, i: nat, msg: string, from: nat, n: nat,
                ghost before: map<nat, seq<char>>, ghost pieces: seq<string>)
    returns (row: nat)
    requires heap.Valid() && from <= |msg| && n < BUFFER && NUL !in msg
    requires i < |pieces| && heap.next == table + 1 + i && Cut(before, heap.blocks, table, pieces, i)
    requires pieces[i] == msg[from..if from + n <= |msg| then from + n else |msg|]
    modifies heap
    ensures heap.Valid() && row == table + 1 + i && heap.next == row + 1
    ensures Cut(before, heap.blocks, table, pieces, i + 1)
  {
    ghost var blocks := heap.blocks;
    row := heap.Malloc(BUFFER);
    Strncpy(heap, row, msg, from, n);
    CutOneMore(before, blocks, heap.blocks, table, pieces, i);
  }

  lemma DropOne<T>(s: seq<T>, i: nat)
    requires i < |s|
    ensures s[i..][0] == s[i] && s[i..][1..] == s[i + 1..]
  {
  }

  /** split: allocate a table and, for every piece, a 30-byte buffer; fill the buffers from the left.
      The lookup in every round but the last succeeds, because the counting pass found that many
      separators. The new blocks lie behind each other: the table, then the rows in order. */
  method Split(msg: string, sep: string, heap: Heap) returns (count: nat, table: nat, rows: seq<nat>)
    requires |sep| > 0 && NUL !in msg && Fits(Pieces(msg, sep, 0), sep) && heap.Valid()
    modifies heap
    ensures heap.Valid()
    ensures count == |rows| == PieceCount(msg, sep)
    ensures table == old(heap.next) && forall k :: 0 <= k < count ==> rows[k] == table + 1 + k
    ensures Cut(old(heap.blocks), heap.blocks, table, Pieces(msg, sep, 0), count)
  {
    ghost var pieces := Pieces(msg, sep, 0);
    count := GetCntSplit(msg, sep);
    table := heap.Malloc(4 * count);
    rows := [];
    var prev: nat, total: nat := 0, 0;
    var i: nat := 0;
    while i < count
      invariant i <= count && |rows| == i && heap.Valid() && heap.next == table + 1 + i
      invariant i < count ==> prev <= |msg| && Pieces(msg, sep, prev) == pieces[i..]
      invariant i < count ==> prev == total + |sep| || (prev == 0 && total == 0 && i == 0)
      invariant forall k :: 0 <= k < i ==> rows[k] == table + 1 + k
      invariant Cut(old(heap.blocks), heap.blocks, table, pieces, i)
    {
      var length, next, found := NextCut(msg, sep, prev, total, i == count - 1);
      DropOne(pieces, i);
      var row := CutRow(heap, table, i, msg, prev, length, old(heap.blocks), pieces);
      rows := rows + [row];
      prev, total, i := next, found, i + 1;
    }
  }

  /** freeSplit: release the buffers from the last to the first, then the table. */
  method FreeSplit(table: nat, rows: seq<nat>, count: nat, heap: Heap)
    requires heap.Valid() && count == |rows|
    requires forall k :: 0 <= k < count ==> rows[k] == table + 1 + k
    requires forall p :: table <= p <= table + count ==> p in heap.blocks
    modifies heap`blocks
    ensures heap.Valid()
    ensures heap.blocks == map p | p in old(heap.blocks) && !(table <= p <= table + count) :: old(heap.blocks)[p]
  {
    var n: nat := count;
    while n > 0
      invariant n <= count && heap.Valid()
      invariant heap.blocks == map p | p in old(heap.blocks) && !(table + n < p <= table + count) :: old(heap.blocks)[p]
    {
      n := n - 1;
      heap.Free(rows[n]);
    }
    heap.Free(table);
  }

  /** Every block split allocates is freed exactly once by freeSplit, and nothing else is. */
  method SplitAndFree(msg: string, sep: string, heap: Heap)
    requires |sep| > 0 && NUL !in msg && Fits(Pieces(msg, sep, 0), sep) && heap.Valid()
    modifies heap
    ensures heap.blocks == old(heap.blocks)
  {
    var count, table, rows := Split(msg, sep, heap);
    FreeSplit(table, rows, count, heap);
  }
}
