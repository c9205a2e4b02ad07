/** Constant tables written out as consecutive parts: the whole table is
    the concatenation of its parts, in order. */
module Tables {
  function Concat<T>(parts: seq<seq<T>>): (s: seq<T>)
  {
    if parts == [] then [] else Concat(parts[..|parts| - 1]) + parts[|parts| - 1]
  }

  /** Every element of a part is an element of the table. */
  lemma {:induction false} ConcatHasPart<T>(parts: seq<seq<T>>, k: nat, x: T)
    requires k < |parts| && x in parts[k]
    ensures x in Concat(parts)
  {
    var n := |parts| - 1;
    if k < n {
      assert parts[..n][k] == parts[k];
      ConcatHasPart(parts[..n], k, x);
    }
  }

  /** Every element of the table comes from one of its parts. */
  lemma {:induction false} ConcatPartOf<T>(parts: seq<seq<T>>, x: T) returns (k: nat)
    requires x in Concat(parts)
    ensures k < |parts| && x in parts[k]
  {
    var n := |parts| - 1;
    if x in parts[n] {
      k := n;
    } else {
      k := ConcatPartOf(parts[..n], x);
      assert parts[..n][k] == parts[k];
    }
  }

  /** Appending a part appends its elements to the table. */
  lemma ConcatAppend<T>(parts: seq<seq<T>>, p: seq<T>)
    ensures Concat(parts + [p]) == Concat(parts) + p
  {
    assert (parts + [p])[..|parts|] == parts;
  }

  // ---------------------------------------------------------------------
  // Tables of numbers

  /** Strictly increasing, stated on neighbours. */
  predicate Increasing(s: seq<int>)
  {
    forall i | 0 <= i < |s| - 1 :: s[i] < s[i + 1]
  }

  /** Every element lies in `lo..hi`. */
  predicate Within(s: seq<int>, lo: int, hi: int)
  {
    forall i | 0 <= i < |s| :: lo <= s[i] < hi
  }

  /** An increasing table is increasing between any two positions. */
  lemma {:induction false} IncreasingOrdered(s: seq<int>, i: nat, j: nat)
    requires Increasing(s) && i < j < |s|
    ensures s[i] < s[j]
  {
    if i + 1 < j {
      IncreasingOrdered(s, i, j - 1);
    }
  }

  /** Two increasing tables, the first ending below the start of the
      second, join into an increasing table. */
  lemma IncreasingAppend(a: seq<int>, b: seq<int>)
    requires Increasing(a) && Increasing(b)
    requires a != [] && b != [] ==> a[|a| - 1] < b[0]
    ensures Increasing(a + b)
  {
    var s := a + b;
    forall i | 0 <= i < |s| - 1
      ensures s[i] < s[i + 1]
    {
      if i + 1 < |a| {
        assert s[i] == a[i] && s[i + 1] == a[i + 1];
      } else if i + 1 == |a| {
        assert s[i] == a[|a| - 1] && s[i + 1] == b[0];
      } else {
        assert s[i] == b[i - |a|] && s[i + 1] == b[i - |a| + 1];
      }
    }
  }

  /** Tables within two ranges join into a table within their hull. */
  lemma WithinAppend(a: seq<int>, b: seq<int>, lo: int, mid: int, hi: int)
    requires Within(a, lo, mid) && Within(b, mid, hi) && mid <= hi && lo <= mid
    ensures Within(a + b, lo, hi)
  {
  }

  /** An increasing table lies between its first and its last element. */
  lemma IncreasingWithin(s: seq<int>)
    requires Increasing(s) && s != []
    ensures Within(s, s[0], s[|s| - 1] + 1)
  {
    forall i | 0 < i < |s| - 1
      ensures s[0] < s[i] < s[|s| - 1]
    {
      IncreasingOrdered(s, 0, i);
      IncreasingOrdered(s, i, |s| - 1);
    }
    if |s| > 1 {
      IncreasingOrdered(s, 0, |s| - 1);
    }
  }
}
