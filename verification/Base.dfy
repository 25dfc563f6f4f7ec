/** The datatypes and the C string shared by every component. */
module Base {
  datatype Option<+T> = None | Some(value: T)

  const NUL: char := '\0'

  /** The C string that starts at position `p`: everything before the first NUL. */
  function CString(a: seq<char>, p: nat): (s: string)
    requires p <= |a|
    decreases |a| - p
  {
    if p == |a| || a[p] == NUL then "" else [a[p]] + CString(a, p + 1)
  }

  /** A run of `n` characters ended by a NUL is read back as exactly that run. */
  lemma {:induction false} CStringRun(a: seq<char>, p: nat, n: nat)
    requires p + n < |a| && a[p + n] == NUL
    requires forall i :: p <= i < p + n ==> a[i] != NUL
    ensures CString(a, p) == a[p..p + n]
    decreases n
  {
    if n > 0 {
      CStringRun(a, p + 1, n - 1);
      assert a[p..p + n] == [a[p]] + a[p + 1..p + n];
    }
  }

  /** The k-th element of a list, if there is one. */
  function Nth<T>(s: seq<T>, k: nat): Option<T> {
    if k < |s| then Some(s[k]) else None
  }

  lemma SliceOfSlice<T>(s: seq<T>, from: nat, to: nat, p: nat, q: nat)
    requires p <= q <= to - from && to <= |s|
    ensures s[from..to][p..q] == s[from + p..from + q]
  {
    var t := s[from..to];
    assert forall i :: 0 <= i < q - p ==> t[p..q][i] == t[p + i] == s[from + (p + i)];
  }

  lemma ConcatAssoc<T>(a: seq<T>, b: seq<T>, c: seq<T>)
    ensures a + (b + c) == (a + b) + c
  {
  }
}
