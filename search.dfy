/** The linear first-match scan shared by every lookup of the service:
    `for _, x := range xs { if key(x) == k { return x, nil } }`. */
module Search {

  /** The index of the first element of `s` whose key is `k`, or `|s|` when no
      element has that key. */
  function FirstIndex<T, K(==)>(s: seq<T>, key: T -> K, k: K): (i: nat)
    ensures i <= |s|
    ensures forall j :: 0 <= j < i ==> key(s[j]) != k
    ensures i < |s| ==> key(s[i]) == k
  {
    if |s| == 0 then 0
    else if key(s[0]) == k then 0
    else 1 + FirstIndex(s[1..], key, k)
  }

  /** Appending elements never changes a match that was already found, and a
      match found only in the appended part is offset by the old length. */
  lemma FirstIndexAppend<T, K>(s: seq<T>, t: seq<T>, key: T -> K, k: K)
    ensures FirstIndex(s + t, key, k) ==
            if FirstIndex(s, key, k) < |s| then FirstIndex(s, key, k)
            else |s| + FirstIndex(t, key, k)
  {
    var i, n := FirstIndex(s, key, k), FirstIndex(s + t, key, k);
    if i < |s| {
      assert (s + t)[i] == s[i];
    } else {
      var m := FirstIndex(t, key, k);
      forall j | 0 <= j < |s| ensures key((s + t)[j]) != k {
        assert (s + t)[j] == s[j];
      }
      if m < |t| {
        assert (s + t)[|s| + m] == t[m];
      }
      forall j | |s| <= j < |s| + m ensures key((s + t)[j]) != k {
        assert (s + t)[j] == t[j - |s|];
      }
    }
  }
}
