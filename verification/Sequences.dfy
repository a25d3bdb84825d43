/** Facts about slices and concatenation that the proofs call by name. */
module Sequences {

  lemma DropLast<T>(s: seq<T>, x: T)
    ensures (s + [x])[..|s|] == s && (s + [x])[|s|] == x
  {
  }

  lemma SliceOfPrefix<T>(s: seq<T>, n: nat, a: nat, b: nat)
    requires a <= b <= n <= |s|
    ensures s[..n][a..b] == s[a..b]
  {
  }

  lemma SliceSnoc<T>(s: seq<T>, a: nat, b: nat)
    requires a < b <= |s|
    ensures s[a..b] == s[a..b - 1] + [s[b - 1]]
  {
  }

  lemma SliceSplit<T>(s: seq<T>, a: nat, m: nat, b: nat)
    requires a <= m <= b <= |s|
    ensures s[a..b] == s[a..m] + s[m..b]
  {
  }

  /** Where a slice is a concatenation, its parts stand one after the other. */
  lemma SliceParts<T>(s: seq<T>, a: nat, b: nat, x: seq<T>, y: seq<T>)
    requires a <= b <= |s| && s[a..b] == x + y
    ensures a + |x| + |y| == b && s[a..a + |x|] == x && s[a + |x|..b] == y
  {
    var m := a + |x|;
    assert |s[a..b]| == |x + y|;
    SliceSplit(s, a, m, b);
    assert (x + y)[..|x|] == x && (x + y)[|x|..] == y;
    assert (s[a..m] + s[m..b])[..|x|] == s[a..m] && (s[a..m] + s[m..b])[|x|..] == s[m..b];
  }

  lemma AppendAssoc<T>(a: seq<T>, b: seq<T>, c: seq<T>)
    ensures a + b + c == a + (b + c)
  {
  }

  /** Shifting `[pos, last)` one place right and writing at `pos` is an insertion that drops what stood at `last`. */
  lemma ShiftedRight<T>(was: seq<T>, now: seq<T>, pos: nat, last: nat, x: T)
    requires |was| == |now| && pos <= last < |was|
    requires forall j :: 0 <= j < pos ==> now[j] == was[j]
    requires now[pos] == x && forall j :: pos < j <= last ==> now[j] == was[j - 1]
    ensures now[..last + 1] == was[..pos] + [x] + was[pos..last]
  {
  }

  /** Shifting `(idx, n)` one place left is a deletion. */
  lemma ShiftedLeft<T>(was: seq<T>, now: seq<T>, idx: nat, n: nat)
    requires |was| == |now| && idx < n <= |was|
    requires forall j :: 0 <= j < idx ==> now[j] == was[j]
    requires forall j :: idx <= j < n - 1 ==> now[j] == was[j + 1]
    ensures now[..n - 1] == was[..idx] + was[idx + 1..n]
  {
  }
}
