/** Python list and string slicing as the kanban views use it, and the order
    relation that list comprehensions preserve. */
module PyLists {

  function Min(a: int, b: int): int { if a <= b then a else b }

  function Max(a: int, b: int): int { if a <= b then b else a }

  /** Python's `s[:k]`. A negative stop counts from the end and a stop past
      either end is clamped to it, so the result is always a prefix of `s`:
      the first `k` elements for `k >= 0`, all but the last `-k` otherwise. */
  function Prefix<T>(s: seq<T>, k: int): (r: seq<T>)
    ensures |r| <= |s| && r == s[..|r|]
    ensures k >= 0 ==> |r| == Min(k, |s|)
    ensures k < 0 ==> |r| == Max(0, |s| + k)
  {
    var stop := if k < 0 then |s| + k else k;
    if stop <= 0 then []
    else if stop >= |s| then s
    else s[..stop]
  }

  /** `a` is obtained from `b` by deleting elements, keeping the rest in order. */
  predicate IsSubsequence<T(==)>(a: seq<T>, b: seq<T>)
    decreases |b|
  {
    a == [] ||
    (b != [] &&
     ((a[0] == b[0] && IsSubsequence(a[1..], b[1..])) || IsSubsequence(a, b[1..])))
  }
}
