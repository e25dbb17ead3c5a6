/** First-match table search, the loop shape shared by every character and
    button-code lookup of the display and controller drivers. */
module Lookup {
  /** Index of the first element of `s` equal to `x`, or `|s|` when none is. */
  function FirstIndex<T(==)>(s: seq<T>, x: T): (i: nat)
    ensures i <= |s|
    ensures i < |s| ==> s[i] == x
    ensures i == |s| <==> x !in s
    ensures forall j :: 0 <= j < i ==> s[j] != x
  {
    if |s| == 0 then 0
    else if s[0] == x then 0
    else 1 + FirstIndex(s[1..], x)
  }

  /** An element that occurs once, or first, is found at its own index. */
  lemma FirstIndexOfDistinct<T>(s: seq<T>, k: nat)
    requires k < |s|
    requires forall j :: 0 <= j < k ==> s[j] != s[k]
    ensures FirstIndex(s, s[k]) == k
  {
  }

  /** The scanning loop `for (i = 0; i < n; i++) if (t[i] == x) return i;`
      finds exactly the first match. */
  method Scan<T(==)>(s: seq<T>, x: T) returns (i: nat)
    ensures i == FirstIndex(s, x)
  {
    i := 0;
    while i < |s| && s[i] != x
      invariant i <= |s|
      invariant forall j :: 0 <= j < i ==> s[j] != x
    {
      i := i + 1;
    }
  }
}
