/** The array operations the client reducers use on their lists:
    `findIndex`, replacing the entry found, `filter` and `map`. */
module ListOps {

  /** `findIndex`: the position of the first element that satisfies `p`, or
      -1 when none does. */
  function FindIndex<T>(s: seq<T>, p: T -> bool): (i: int)
    ensures -1 <= i < |s|
    ensures i == -1 <==> forall k :: 0 <= k < |s| ==> !p(s[k])
    ensures i >= 0 ==> p(s[i]) && forall k :: 0 <= k < i ==> !p(s[k])
  {
    if s == [] then -1
    else if p(s[0]) then 0
    else
      var j := FindIndex(s[1..], p);
      if j == -1 then -1 else j + 1
  }

  /** `const i = s.findIndex(p); if (i !== -1) s[i] = x;`: the first element
      that satisfies `p` is overwritten with `x`; every other position, and
      the length, stay as they were. */
  function ReplaceFirst<T>(s: seq<T>, p: T -> bool, x: T): (r: seq<T>)
    ensures |r| == |s|
    ensures FindIndex(s, p) >= 0 ==> r[FindIndex(s, p)] == x
    ensures forall k :: 0 <= k < |s| && k != FindIndex(s, p) ==> r[k] == s[k]
  {
    var i := FindIndex(s, p);
    if i == -1 then s else s[i := x]
  }

  /** Replacing twice with the same matching element is replacing once: the
      first match is then the replaced position itself. */
  lemma ReplaceFirstIdempotent<T>(s: seq<T>, p: T -> bool, x: T)
    requires p(x)
    ensures ReplaceFirst(ReplaceFirst(s, p, x), p, x) == ReplaceFirst(s, p, x)
  {
    var i := FindIndex(s, p);
    if i >= 0 {
      var r := ReplaceFirst(s, p, x);
      assert forall k :: 0 <= k < i ==> r[k] == s[k];
      assert FindIndex(r, p) == i;
    }
  }

  /** `filter`: the elements that satisfy `keep`, in their original order. */
  function Filter<T(!new)>(s: seq<T>, keep: T -> bool): (r: seq<T>)
    ensures |r| <= |s|
    ensures forall x :: x in r <==> x in s && keep(x)
  {
    if s == [] then []
    else (if keep(s[0]) then [s[0]] else []) + Filter(s[1..], keep)
  }

  /** Filtering keeps the order: it distributes over concatenation. */
  lemma {:induction false} FilterConcat<T(!new)>(a: seq<T>, b: seq<T>, keep: T -> bool)
    ensures Filter(a + b, keep) == Filter(a, keep) + Filter(b, keep)
  {
    if a == [] {
      assert a + b == b;
    } else {
      assert (a + b)[1..] == a[1..] + b;
      FilterConcat(a[1..], b, keep);
    }
  }

  /** A list whose elements all pass is left as it is, so filtering twice
      with the same test is filtering once. */
  lemma {:induction false} FilterAllKept<T(!new)>(s: seq<T>, keep: T -> bool)
    requires forall x :: x in s ==> keep(x)
    ensures Filter(s, keep) == s
  {
    if s != [] {
      FilterAllKept(s[1..], keep);
    }
  }

  /** `map`: `f` applied to every element, in place. */
  function Map<T, U>(s: seq<T>, f: T -> U): (r: seq<U>)
    ensures |r| == |s|
    ensures forall i :: 0 <= i < |s| ==> r[i] == f(s[i])
  {
    seq(|s|, i requires 0 <= i < |s| => f(s[i]))
  }
}
