// Sequence helpers with the semantics of JavaScript's Array.prototype.filter,
// find and findIndex, and a stable sort (Array.prototype.sort is stable).

module Seqs {

  /** `s.filter(p)`: the elements satisfying `p`, in their original order. */
  function Filter<T(!new)>(p: T -> bool, s: seq<T>): (r: seq<T>)
    ensures |r| <= |s|
    ensures forall x :: x in r <==> x in s && p(x)
    ensures forall i :: 0 <= i < |r| ==> p(r[i])
  {
    if |s| == 0 then []
    else if p(s[0]) then [s[0]] + Filter(p, s[1..])
    else Filter(p, s[1..])
  }

  lemma {:induction false} FilterAll<T(!new)>(p: T -> bool, s: seq<T>)
    requires forall i :: 0 <= i < |s| ==> p(s[i])
    ensures Filter(p, s) == s
  {
    if |s| > 0 {
      FilterAll(p, s[1..]);
    }
  }

  lemma {:induction false} FilterConcat<T(!new)>(p: T -> bool, a: seq<T>, b: seq<T>)
    ensures Filter(p, a + b) == Filter(p, a) + Filter(p, b)
  {
    if |a| > 0 {
      assert (a + b)[1..] == a[1..] + b;
      FilterConcat(p, a[1..], b);
    } else {
      assert a + b == b;
    }
  }

  /** Filtering twice by the same test is filtering once. */
  lemma {:induction false} FilterIdempotent<T(!new)>(p: T -> bool, s: seq<T>)
    ensures Filter(p, Filter(p, s)) == Filter(p, s)
  {
    FilterAll(p, Filter(p, s));
  }

  /** A four-element sequence is its first element before the other three. */
  lemma ConsFour<T>(a: T, b: T, c: T, d: T)
    ensures [a] + [b, c, d] == [a, b, c, d]
  {
  }

  function Count<T(!new)>(p: T -> bool, s: seq<T>): (n: nat)
    ensures n <= |s|
    ensures n == |Filter(p, s)|
  {
    if |s| == 0 then 0 else (if p(s[0]) then 1 else 0) + Count(p, s[1..])
  }

  /** `s.findIndex(p)`, -1 when no element satisfies `p`. */
  function FindIndex<T>(p: T -> bool, s: seq<T>): (r: int)
    ensures -1 <= r < |s|
    ensures r == -1 <==> forall i :: 0 <= i < |s| ==> !p(s[i])
    ensures r >= 0 ==> p(s[r]) && forall i :: 0 <= i < r ==> !p(s[i])
  {
    if |s| == 0 then -1
    else if p(s[0]) then 0
    else
      var k := FindIndex(p, s[1..]);
      if k == -1 then -1 else k + 1
  }

  /** `s.some(p)`. */
  predicate Any<T>(p: T -> bool, s: seq<T>)
  {
    exists i | 0 <= i < |s| :: p(s[i])
  }

  /** `s.map(f)`. */
  function Map<T, U>(f: T -> U, s: seq<T>): (r: seq<U>)
    ensures |r| == |s|
    ensures forall i :: 0 <= i < |s| ==> r[i] == f(s[i])
  {
    seq(|s|, i requires 0 <= i < |s| => f(s[i]))
  }

  /** The sequence without its element at index `i` (`splice(i, 1)`). */
  function RemoveAt<T>(s: seq<T>, i: nat): (r: seq<T>)
    requires i < |s|
    ensures |r| == |s| - 1
    ensures forall j :: 0 <= j < i ==> r[j] == s[j]
    ensures forall j :: i <= j < |r| ==> r[j] == s[j + 1]
  {
    s[..i] + s[i + 1..]
  }

  /** The sequence with `x` inserted at index `i` (`splice(i, 0, x)`). */
  function InsertAt<T>(s: seq<T>, i: nat, x: T): (r: seq<T>)
    requires i <= |s|
    ensures |r| == |s| + 1
    ensures r[i] == x
    ensures forall j :: 0 <= j < i ==> r[j] == s[j]
    ensures forall j :: i < j < |r| ==> r[j] == s[j - 1]
  {
    s[..i] + [x] + s[i..]
  }

  function Reverse<T>(s: seq<T>): (r: seq<T>)
    ensures |r| == |s|
    ensures forall i :: 0 <= i < |s| ==> r[i] == s[|s| - 1 - i]
  {
    seq(|s|, i requires 0 <= i < |s| => s[|s| - 1 - i])
  }

  // ---------------------------------------------------------------------
  // Sorting by a comparator, as `Array.prototype.sort` with a
  // comparator `cmp`: `le(a, b)` stands for `cmp(a, b) <= 0`.

  ghost predicate Total<T(!new)>(le: (T, T) -> bool)
  {
    forall a, b :: le(a, b) || le(b, a)
  }

  ghost predicate Transitive<T(!new)>(le: (T, T) -> bool)
  {
    forall a, b, c :: le(a, b) && le(b, c) ==> le(a, c)
  }

  /** Each element is in order with its successor. */
  predicate SortedBy<T>(le: (T, T) -> bool, s: seq<T>)
  {
    forall i :: 0 < i < |s| ==> le(s[i - 1], s[i])
  }

  /** Insert `x` before the first element that `x` may precede. */
  function Insert<T(!new)>(le: (T, T) -> bool, x: T, s: seq<T>): (r: seq<T>)
    requires Total(le)
    requires SortedBy(le, s)
    ensures SortedBy(le, r)
    ensures multiset(r) == multiset(s) + multiset{x}
    ensures |r| == |s| + 1
    ensures |r| > 0 && (r[0] == x || (|s| > 0 && r[0] == s[0]))
  {
    if |s| == 0 then [x]
    else if le(x, s[0]) then [x] + s
    else
      var t := Insert(le, x, s[1..]);
      assert s == [s[0]] + s[1..];
      [s[0]] + t
  }

  /** Insertion sort: the result is ordered by `le` and a permutation of the input. */
  function Sort<T(!new)>(le: (T, T) -> bool, s: seq<T>): (r: seq<T>)
    requires Total(le)
    ensures SortedBy(le, r)
    ensures multiset(r) == multiset(s)
    ensures |r| == |s|
  {
    if |s| == 0 then []
    else
      assert s == [s[0]] + s[1..];
      Insert(le, s[0], Sort(le, s[1..]))
  }

  /** The elements `le` ties with `c`: those the comparator puts neither
      before nor after it. */
  function Tied<T>(le: (T, T) -> bool, c: T): T -> bool
  {
    y => le(c, y) && le(y, c)
  }

  /** Inserting `x` puts it before every element of `s` tied with it, and
      leaves the order of the others alone. */
  lemma {:induction false} InsertTied<T(!new)>(le: (T, T) -> bool, x: T, s: seq<T>, c: T)
    requires Total(le) && Transitive(le)
    requires SortedBy(le, s)
    ensures Filter(Tied(le, c), Insert(le, x, s))
            == (if Tied(le, c)(x) then [x] + Filter(Tied(le, c), s) else Filter(Tied(le, c), s))
  {
    var p := Tied(le, c);
    var r := Insert(le, x, s);
    if |s| == 0 {
      assert r == [x];
    } else if le(x, s[0]) {
      assert r == [x] + s && r[1..] == s;
    } else {
      var t := Insert(le, x, s[1..]);
      assert r == [s[0]] + t && r[1..] == t;
      InsertTied(le, x, s[1..], c);
      if p(x) {
        assert !p(s[0]);
      }
    }
  }

  /** The sort is stable: the elements tied with any `c` come out in their
      input order. */
  lemma {:induction false} SortStable<T(!new)>(le: (T, T) -> bool, s: seq<T>, c: T)
    requires Total(le) && Transitive(le)
    ensures Filter(Tied(le, c), Sort(le, s)) == Filter(Tied(le, c), s)
  {
    if |s| > 0 {
      SortStable(le, s[1..], c);
      InsertTied(le, s[0], Sort(le, s[1..]), c);
    }
  }

  /** With a transitive comparator, adjacent order gives order between any
      two positions. */
  lemma {:induction false} SortedPairwise<T(!new)>(le: (T, T) -> bool, s: seq<T>, i: int, j: int)
    requires Transitive(le)
    requires SortedBy(le, s)
    requires 0 <= i < j < |s|
    ensures le(s[i], s[j])
    decreases j - i
  {
    if j > i + 1 {
      SortedPairwise(le, s, i, j - 1);
    }
  }
}
