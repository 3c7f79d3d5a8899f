/**
 * The recursive merge sort shared by the whole application (`mergeSort` and
 * `merge` in api_calls.js, repeated verbatim in functions.js).
 *
 * The sort compares either the elements themselves or one named attribute of
 * them with JavaScript's `<`, which orders strings by their UTF-16 code
 * units. Here the caller passes a `key` function that yields the value the
 * comparison sees. On equal keys `merge` takes the head of the RIGHT half, so
 * the sort is ascending and puts elements with equal keys in the reverse of
 * their input order.
 */
module Sorting {

  /** What `<` compares: `undefined` (an attribute the element lacks), a number or a string. */
  datatype Key = Undefined | Num(n: real) | Str(s: string)

  /**
   * The UTF-16 code units of one character, as JavaScript stores it: one unit
   * below U+10000, otherwise a high surrogate followed by a low surrogate.
   */
  function CharUnits(c: char): (u: seq<int>)
    ensures 1 <= |u| <= 2
    ensures |u| == 1 <==> c as int < 0x1_0000
    ensures 0xD800 <= u[0] < 0xDC00 <==> |u| == 2
    ensures |u| == 2 ==> 0xDC00 <= u[1] < 0xE000
  {
    var n := c as int;
    if n < 0x1_0000 then [n]
    else [0xD800 + (n - 0x1_0000) / 0x400, 0xDC00 + (n - 0x1_0000) % 0x400]
  }

  /** A JavaScript string: the code units of its characters, in order. */
  function CodeUnits(s: string): (u: seq<int>)
    ensures |u| >= |s|
    ensures |s| > 0 ==> |u| > 0
  {
    if |s| == 0 then [] else CharUnits(s[0]) + CodeUnits(s[1..])
  }

  /** Lexicographic order on code units: unit by unit, a proper prefix first. */
  predicate UnitsLess(a: seq<int>, b: seq<int>)
    decreases |a|
  {
    if |a| == 0 then |b| > 0
    else if |b| == 0 then false
    else if a[0] != b[0] then a[0] < b[0]
    else UnitsLess(a[1..], b[1..])
  }

  /** JavaScript's `<` on two strings: it compares their UTF-16 code units. */
  predicate StrLess(a: string, b: string)
  {
    UnitsLess(CodeUnits(a), CodeUnits(b))
  }

  /**
   * The comparison the sort uses. Within one kind it is JavaScript's `<`
   * (`undefined < undefined` is false). Across kinds it puts undefined
   * first, then numbers, then strings; the source never compares keys of
   * different kinds, since every attribute it sorts by has one type.
   */
  predicate KeyLess(a: Key, b: Key)
  {
    match (a, b)
    case (Undefined, Undefined) => false
    case (Undefined, _) => true
    case (Num(x), Num(y)) => x < y
    case (Num(_), Str(_)) => true
    case (Str(x), Str(y)) => StrLess(x, y)
    case (_, _) => false
  }

  function NumKey(x: real): (k: Key)
    ensures k.Num? && k.n == x
  {
    Num(x)
  }

  lemma {:induction false} UnitsLessIrreflexive(a: seq<int>)
    ensures !UnitsLess(a, a)
    decreases |a|
  {
    if |a| > 0 {
      UnitsLessIrreflexive(a[1..]);
    }
  }

  lemma {:induction false} UnitsLessTransitive(a: seq<int>, b: seq<int>, c: seq<int>)
    requires UnitsLess(a, b) && UnitsLess(b, c)
    ensures UnitsLess(a, c)
    decreases |a|
  {
    if |a| > 0 && |b| > 0 && |c| > 0 && a[0] == b[0] && b[0] == c[0] {
      UnitsLessTransitive(a[1..], b[1..], c[1..]);
    }
  }

  lemma {:induction false} UnitsLessTotal(a: seq<int>, b: seq<int>)
    ensures a == b || UnitsLess(a, b) || UnitsLess(b, a)
    decreases |a|
  {
    if |a| > 0 && |b| > 0 && a[0] == b[0] {
      UnitsLessTotal(a[1..], b[1..]);
      assert a == [a[0]] + a[1..];
      assert b == [b[0]] + b[1..];
    }
  }

  /**
   * No character's code units start another character's: a surrogate pair
   * never begins with a unit that stands alone, and the pair determines the
   * character.
   */
  lemma CharUnitsPrefixFree(c: char, d: char, s: seq<int>, t: seq<int>)
    requires CharUnits(c) + s == CharUnits(d) + t
    ensures c == d && s == t
  {
    var u, v := CharUnits(c), CharUnits(d);
    assert u[0] == (u + s)[0] == v[0];
    if |u| == 1 {
      assert c as int == d as int;
    } else {
      assert u[1] == (u + s)[1] == v[1];
      var m, n := c as int - 0x1_0000, d as int - 0x1_0000;
      assert m == 0x400 * (m / 0x400) + m % 0x400;
      assert n == 0x400 * (n / 0x400) + n % 0x400;
    }
    assert s == (u + s)[|u|..] && t == (v + t)[|v|..];
  }

  /** Two different strings have different code units. */
  lemma {:induction false} CodeUnitsInjective(a: string, b: string)
    requires CodeUnits(a) == CodeUnits(b)
    ensures a == b
    decreases |a|
  {
    if |a| > 0 {
      assert |b| > 0;
      CharUnitsPrefixFree(a[0], b[0], CodeUnits(a[1..]), CodeUnits(b[1..]));
      CodeUnitsInjective(a[1..], b[1..]);
      assert a == [a[0]] + a[1..];
      assert b == [b[0]] + b[1..];
    }
  }

  lemma StrLessIrreflexive(a: string)
    ensures !StrLess(a, a)
  {
    UnitsLessIrreflexive(CodeUnits(a));
  }

  lemma StrLessTransitive(a: string, b: string, c: string)
    requires StrLess(a, b) && StrLess(b, c)
    ensures StrLess(a, c)
  {
    UnitsLessTransitive(CodeUnits(a), CodeUnits(b), CodeUnits(c));
  }

  lemma StrLessTotal(a: string, b: string)
    ensures a == b || StrLess(a, b) || StrLess(b, a)
  {
    UnitsLessTotal(CodeUnits(a), CodeUnits(b));
    if CodeUnits(a) == CodeUnits(b) {
      CodeUnitsInjective(a, b);
    }
  }

  /**
   * Strings compare by code unit, not by code point: U+1D11E (a surrogate
   * pair starting 0xD834) sorts before U+FF71, although its code point is
   * larger.
   */
  lemma SurrogatePairSortsBelowHalfwidth()
    ensures StrLess("\U{1D11E}", "\U{FF71}")
    ensures !StrLess("\U{FF71}", "\U{1D11E}")
    ensures '\U{FF71}' < '\U{1D11E}'
  {
    assert CodeUnits("\U{1D11E}") == [0xD834, 0xDD1E];
    assert CodeUnits("\U{FF71}") == [0xFF71];
  }

  /** Below U+10000 the order is the order of the characters themselves. */
  lemma StrLessCons(c: char, s: string, d: char, t: string)
    requires c as int < 0x1_0000 && d as int < 0x1_0000
    ensures StrLess([c] + s, [d] + t) == if c != d then c < d else StrLess(s, t)
  {
    assert ([c] + s)[1..] == s;
    assert ([d] + t)[1..] == t;
    var a, b := CodeUnits([c] + s), CodeUnits([d] + t);
    assert a == [c as int] + CodeUnits(s);
    assert b == [d as int] + CodeUnits(t);
    assert a[1..] == CodeUnits(s) && b[1..] == CodeUnits(t);
  }

  lemma KeyLessIrreflexive(a: Key)
    ensures !KeyLess(a, a)
  {
    if a.Str? {
      StrLessIrreflexive(a.s);
    }
  }

  lemma KeyLessTransitive(a: Key, b: Key, c: Key)
    requires KeyLess(a, b) && KeyLess(b, c)
    ensures KeyLess(a, c)
  {
    if a.Str? && b.Str? && c.Str? {
      StrLessTransitive(a.s, b.s, c.s);
    }
  }

  /** `KeyLess` is a strict total order: any two different keys are comparable. */
  lemma KeyLessTotal(a: Key, b: Key)
    ensures a == b || KeyLess(a, b) || KeyLess(b, a)
  {
    if a.Str? && b.Str? {
      StrLessTotal(a.s, b.s);
    }
  }

  /** If a < b then b < a does not hold. */
  lemma KeyLessAsymmetric(a: Key, b: Key)
    requires KeyLess(a, b)
    ensures !KeyLess(b, a)
  {
    if KeyLess(b, a) {
      KeyLessTransitive(a, b, a);
      KeyLessIrreflexive(a);
    }
  }

  /** "Not below" is transitive: c >= b and b >= a give c >= a. */
  lemma KeyAtLeastTransitive(a: Key, b: Key, c: Key)
    requires !KeyLess(b, a) && !KeyLess(c, b)
    ensures !KeyLess(c, a)
  {
    KeyLessTotal(a, b);
    KeyLessTotal(b, c);
    if a != b && b != c {
      KeyLessTransitive(a, b, c);
      KeyLessAsymmetric(a, c);
    }
  }

  /** Mixed transitivity: x >= r and l < r give x > l, so in particular x >= l. */
  lemma KeyAtLeastAbove(x: Key, l: Key, r: Key)
    requires !KeyLess(x, r) && KeyLess(l, r)
    ensures !KeyLess(x, l)
  {
    KeyLessTotal(x, r);
    if x != r {
      KeyLessTransitive(l, r, x);
      KeyLessAsymmetric(l, x);
    } else {
      KeyLessAsymmetric(l, r);
    }
  }

  /** Ascending by `key`: no later element is below an earlier one. */
  ghost predicate SortedBy<T>(s: seq<T>, key: T -> Key)
  {
    forall i, j :: 0 <= i < j < |s| ==> !KeyLess(key(s[j]), key(s[i]))
  }

  /** Descending by `key`: no later element is above an earlier one. */
  ghost predicate SortedDescendingBy<T>(s: seq<T>, key: T -> Key)
  {
    forall i, j :: 0 <= i < j < |s| ==> !KeyLess(key(s[i]), key(s[j]))
  }

  /** Every element of `s` has a key at least `k`. */
  ghost predicate AllAtLeast<T>(s: seq<T>, key: T -> Key, k: Key)
  {
    forall x :: x in s ==> !KeyLess(key(x), k)
  }

  /**
   * What `merge` returns: repeatedly the smaller head, the RIGHT head when
   * the left one is not strictly smaller, then whatever is left over.
   */
  function Merged<T>(left: seq<T>, right: seq<T>, key: T -> Key): (r: seq<T>)
    ensures |r| == |left| + |right|
    ensures multiset(r) == multiset(left) + multiset(right)
    decreases |left| + |right|
  {
    if left == [] then right
    else if right == [] then left
    else if KeyLess(key(left[0]), key(right[0])) then
      assert left == [left[0]] + left[1..];
      [left[0]] + Merged(left[1..], right, key)
    else
      assert right == [right[0]] + right[1..];
      [right[0]] + Merged(left, right[1..], key)
  }

  /** One step of `merge` with both halves non-empty. */
  lemma MergedStep<T>(left: seq<T>, right: seq<T>, key: T -> Key)
    requires |left| > 0 && |right| > 0
    ensures KeyLess(key(left[0]), key(right[0])) ==> Merged(left, right, key) == [left[0]] + Merged(left[1..], right, key)
    ensures !KeyLess(key(left[0]), key(right[0])) ==> Merged(left, right, key) == [right[0]] + Merged(left, right[1..], key)
  {
  }

  /** Once one half is used up, the other half is appended as it is. */
  lemma MergedExhausted<T>(left: seq<T>, right: seq<T>, key: T -> Key)
    ensures Merged([], right, key) == right
    ensures Merged(left, [], key) == left
  {
  }

  lemma {:induction false} MergedAllAtLeast<T>(left: seq<T>, right: seq<T>, key: T -> Key, k: Key)
    requires AllAtLeast(left, key, k) && AllAtLeast(right, key, k)
    ensures AllAtLeast(Merged(left, right, key), key, k)
  {
    var m := Merged(left, right, key);
    forall x | x in m
      ensures !KeyLess(key(x), k)
    {
      assert x in multiset(m);
    }
  }

  lemma ConsSorted<T>(x: T, s: seq<T>, key: T -> Key)
    requires SortedBy(s, key) && AllAtLeast(s, key, key(x))
    ensures SortedBy([x] + s, key)
  {
    var t := [x] + s;
    forall i, j | 0 <= i < j < |t|
      ensures !KeyLess(key(t[j]), key(t[i]))
    {
      if i > 0 {
        assert t[i] == s[i - 1] && t[j] == s[j - 1];
      } else {
        assert t[j] == s[j - 1] && t[j] in s;
      }
    }
  }

  /** In a sorted sequence every element is at least the first one. */
  lemma SortedHeadIsLeast<T>(s: seq<T>, key: T -> Key)
    requires SortedBy(s, key) && |s| > 0
    ensures AllAtLeast(s[1..], key, key(s[0]))
    ensures AllAtLeast(s, key, key(s[0]))
    ensures SortedBy(s[1..], key)
  {
    forall x | x in s
      ensures !KeyLess(key(x), key(s[0]))
    {
      var j :| 0 <= j < |s| && s[j] == x;
      if j == 0 {
        KeyLessIrreflexive(key(s[0]));
      }
    }
  }

  /** `merge` of two ascending sequences is ascending. */
  lemma {:induction false} MergedSorted<T>(left: seq<T>, right: seq<T>, key: T -> Key)
    requires SortedBy(left, key) && SortedBy(right, key)
    ensures SortedBy(Merged(left, right, key), key)
    decreases |left| + |right|
  {
    if left != [] && right != [] {
      var l, r := left[0], right[0];
      SortedHeadIsLeast(left, key);
      SortedHeadIsLeast(right, key);
      if KeyLess(key(l), key(r)) {
        MergedSorted(left[1..], right, key);
        forall x | x in right
          ensures !KeyLess(key(x), key(l))
        {
          KeyAtLeastAbove(key(x), key(l), key(r));
        }
        MergedAllAtLeast(left[1..], right, key, key(l));
        ConsSorted(l, Merged(left[1..], right, key), key);
      } else {
        MergedSorted(left, right[1..], key);
        forall x | x in left
          ensures !KeyLess(key(x), key(r))
        {
          KeyAtLeastTransitive(key(r), key(l), key(x));
        }
        MergedAllAtLeast(left, right[1..], key, key(r));
        ConsSorted(r, Merged(left, right[1..], key), key);
      }
    }
  }

  /**
   * `mergeSort`: the array is split at floor(n/2), both halves are sorted
   * and merged. The only base case is length 1, so the empty array is
   * excluded (the source recurses on it, with no base case, until the
   * engine throws a RangeError).
   */
  function MergeSort<T>(a: seq<T>, key: T -> Key): (r: seq<T>)
    requires |a| > 0
    ensures |r| == |a| && multiset(r) == multiset(a)
    ensures SortedBy(r, key)
    decreases |a|
  {
    if |a| == 1 then a
    else
      var middle := |a| / 2;
      var left := MergeSort(a[..middle], key);
      var right := MergeSort(a[middle..], key);
      assert a == a[..middle] + a[middle..];
      MergedSorted(left, right, key);
      Merged(left, right, key)
  }

  /** A one-element array comes back unchanged. */
  lemma MergeSortSingleton<T>(a: seq<T>, key: T -> Key)
    requires |a| == 1
    ensures MergeSort(a, key) == a
  {
  }

  /**
   * The `merge` loop: while both halves are non-empty, shift the smaller
   * head (the right one on a tie) onto `sortedArray`; then append what is
   * left of both halves.
   */
  method Merge<T>(leftHalf: seq<T>, rightHalf: seq<T>, key: T -> Key) returns (result: seq<T>)
    ensures result == Merged(leftHalf, rightHalf, key)
  {
    var left, right := leftHalf, rightHalf;
    var sortedArray := [];
    while |left| > 0 && |right| > 0
      invariant sortedArray + Merged(left, right, key) == Merged(leftHalf, rightHalf, key)
      decreases |left| + |right|
    {
      MergeLoopStep(sortedArray, left, right, key);
      if KeyLess(key(left[0]), key(right[0])) {
        sortedArray := sortedArray + [left[0]];
        left := left[1..];
      } else {
        sortedArray := sortedArray + [right[0]];
        right := right[1..];
      }
    }
    MergeLoopExit(sortedArray, left, right, key);
    result := sortedArray + left + right;
  }

  /** One iteration of the `merge` loop keeps what it has emitted plus what is left to merge. */
  lemma MergeLoopStep<T>(done: seq<T>, left: seq<T>, right: seq<T>, key: T -> Key)
    requires |left| > 0 && |right| > 0
    ensures KeyLess(key(left[0]), key(right[0])) ==>
      (done + [left[0]]) + Merged(left[1..], right, key) == done + Merged(left, right, key)
    ensures !KeyLess(key(left[0]), key(right[0])) ==>
      (done + [right[0]]) + Merged(left, right[1..], key) == done + Merged(left, right, key)
  {
    MergedStep(left, right, key);
    if KeyLess(key(left[0]), key(right[0])) {
      Associative(done, [left[0]], Merged(left[1..], right, key));
    } else {
      Associative(done, [right[0]], Merged(left, right[1..], key));
    }
  }

  /** Once a half is used up, appending both leftovers completes the merge. */
  lemma MergeLoopExit<T>(done: seq<T>, left: seq<T>, right: seq<T>, key: T -> Key)
    requires left == [] || right == []
    ensures done + left + right == done + Merged(left, right, key)
  {
    MergedExhausted(left, right, key);
    if left == [] {
      EmptyPrefix(right);
    } else {
      assert left + right == left;
    }
  }

  /** The elements of `s` whose key is `k`, in their order in `s`. */
  function WithKey<T>(s: seq<T>, key: T -> Key, k: Key): seq<T>
  {
    if s == [] then [] else (if key(s[0]) == k then [s[0]] else []) + WithKey(s[1..], key, k)
  }

  lemma {:induction false} WithKeyAppend<T>(a: seq<T>, b: seq<T>, key: T -> Key, k: Key)
    ensures WithKey(a + b, key, k) == WithKey(a, key, k) + WithKey(b, key, k)
  {
    if a == [] {
      assert a + b == b;
    } else {
      var head := if key(a[0]) == k then [a[0]] else [];
      assert (a + b)[0] == a[0];
      assert (a + b)[1..] == a[1..] + b;
      WithKeyAppend(a[1..], b, key, k);
      calc {
        WithKey(a + b, key, k);
        head + WithKey(a[1..] + b, key, k);
        head + (WithKey(a[1..], key, k) + WithKey(b, key, k));
        (head + WithKey(a[1..], key, k)) + WithKey(b, key, k);
        WithKey(a, key, k) + WithKey(b, key, k);
      }
    }
  }

  lemma {:induction false} WithKeyNone<T>(s: seq<T>, key: T -> Key, k: Key)
    requires forall x :: x in s ==> key(x) != k
    ensures WithKey(s, key, k) == []
  {
    if s != [] {
      WithKeyNone(s[1..], key, k);
    }
  }

  /**
   * Within one key, `merge` of two ascending halves puts every element of
   * the right half before every element of the left half.
   */
  lemma {:induction false} MergedWithKey<T>(left: seq<T>, right: seq<T>, key: T -> Key, k: Key)
    requires SortedBy(left, key) && SortedBy(right, key)
    ensures WithKey(Merged(left, right, key), key, k) == WithKey(right, key, k) + WithKey(left, key, k)
    decreases |left| + |right|
  {
    if left != [] && right != [] {
      if KeyLess(key(left[0]), key(right[0])) {
        SortedTail(left, key);
        MergedWithKey(left[1..], right, key, k);
        MergedStep(left, right, key);
        LeftHeadWithKey(left, right, Merged(left, right, key), Merged(left[1..], right, key), key, k);
      } else {
        SortedTail(right, key);
        MergedWithKey(left, right[1..], key, k);
        MergedStep(left, right, key);
        RightHeadWithKey(left, right, Merged(left, right, key), Merged(left, right[1..], key), key, k);
      }
    }
  }

  /** The step of `MergedWithKey` where the left head is taken (`merged` is `[left[0]] + rest`). */
  lemma LeftHeadWithKey<T>(left: seq<T>, right: seq<T>, merged: seq<T>, rest: seq<T>, key: T -> Key, k: Key)
    requires |left| > 0 && |right| > 0 && SortedBy(right, key)
    requires KeyLess(key(left[0]), key(right[0]))
    requires merged == [left[0]] + rest
    requires WithKey(rest, key, k) == WithKey(right, key, k) + WithKey(left[1..], key, k)
    ensures WithKey(merged, key, k) == WithKey(right, key, k) + WithKey(left, key, k)
  {
    var l := left[0];
    var h, wr, wt := if key(l) == k then [l] else [], WithKey(right, key, k), WithKey(left[1..], key, k);
    WithKeyCons(l, rest, key, k);
    WithKeyHead(left, key, k);
    if key(l) == k {
      NoKeyBelowHead(right, key, k);
      EmptyPrefix(wt);
      EmptyPrefix(h + wt);
    } else {
      EmptyPrefix(wr + wt);
      EmptyPrefix(wt);
    }
  }

  /** The step of `MergedWithKey` where the right head is taken (`merged` is `[right[0]] + rest`). */
  lemma RightHeadWithKey<T>(left: seq<T>, right: seq<T>, merged: seq<T>, rest: seq<T>, key: T -> Key, k: Key)
    requires |right| > 0
    requires merged == [right[0]] + rest
    requires WithKey(rest, key, k) == WithKey(right[1..], key, k) + WithKey(left, key, k)
    ensures WithKey(merged, key, k) == WithKey(right, key, k) + WithKey(left, key, k)
  {
    var r := right[0];
    WithKeyCons(r, rest, key, k);
    WithKeyHead(right, key, k);
    Associative(if key(r) == k then [r] else [], WithKey(right[1..], key, k), WithKey(left, key, k));
  }

  lemma WithKeyHead<T>(s: seq<T>, key: T -> Key, k: Key)
    requires |s| > 0
    ensures WithKey(s, key, k) == (if key(s[0]) == k then [s[0]] else []) + WithKey(s[1..], key, k)
  {
  }

  lemma Associative<T>(a: seq<T>, b: seq<T>, c: seq<T>)
    ensures a + (b + c) == (a + b) + c
  {
  }

  lemma EmptyPrefix<T>(a: seq<T>)
    ensures [] + a == a
  {
  }

  lemma SortedTail<T>(s: seq<T>, key: T -> Key)
    requires SortedBy(s, key) && |s| > 0
    ensures SortedBy(s[1..], key)
  {
    forall i, j | 0 <= i < j < |s| - 1
      ensures !KeyLess(key(s[1..][j]), key(s[1..][i]))
    {
      assert s[1..][i] == s[i + 1] && s[1..][j] == s[j + 1];
    }
  }

  /** No element of an ascending sequence has a key below its head's. */
  lemma NoKeyBelowHead<T>(s: seq<T>, key: T -> Key, k: Key)
    requires SortedBy(s, key) && |s| > 0 && KeyLess(k, key(s[0]))
    ensures WithKey(s, key, k) == []
  {
    forall x | x in s
      ensures key(x) != k
    {
      var j :| 0 <= j < |s| && s[j] == x;
      if j > 0 {
        assert !KeyLess(key(s[j]), key(s[0]));
      }
      KeyLessIrreflexive(k);
    }
    WithKeyNone(s, key, k);
  }

  lemma WithKeyCons<T>(x: T, s: seq<T>, key: T -> Key, k: Key)
    ensures WithKey([x] + s, key, k) == (if key(x) == k then [x] else []) + WithKey(s, key, k)
  {
    assert ([x] + s)[1..] == s;
  }

  /** The reverse of a sequence, as `Array.prototype.reverse` leaves it. */
  function Reverse<T>(s: seq<T>): seq<T>
  {
    if s == [] then [] else Reverse(s[1..]) + [s[0]]
  }

  lemma {:induction false} ReverseAt<T>(s: seq<T>)
    ensures |Reverse(s)| == |s|
    ensures forall i :: 0 <= i < |s| ==> Reverse(s)[i] == s[|s| - 1 - i]
  {
    if s != [] {
      ReverseAt(s[1..]);
    }
  }

  lemma {:induction false} ReverseAppend<T>(a: seq<T>, b: seq<T>)
    ensures Reverse(a + b) == Reverse(b) + Reverse(a)
  {
    ReverseAt(a + b);
    ReverseAt(a);
    ReverseAt(b);
    assert Reverse(a + b) == Reverse(b) + Reverse(a);
  }

  lemma ReverseMultiset<T>(s: seq<T>)
    ensures multiset(Reverse(s)) == multiset(s)
  {
    if s != [] {
      ReverseMultiset(s[1..]);
      assert s == [s[0]] + s[1..];
    }
  }

  lemma {:induction false} ReverseReverse<T>(s: seq<T>)
    ensures Reverse(Reverse(s)) == s
  {
    ReverseAt(s);
    ReverseAt(Reverse(s));
  }

  lemma {:induction false} WithKeyReverse<T>(s: seq<T>, key: T -> Key, k: Key)
    ensures WithKey(Reverse(s), key, k) == Reverse(WithKey(s, key, k))
  {
    if s != [] {
      WithKeyReverse(s[1..], key, k);
      WithKeyAppend(Reverse(s[1..]), [s[0]], key, k);
      var head := if key(s[0]) == k then [s[0]] else [];
      assert WithKey([s[0]], key, k) == head;
      ReverseAppend(head, WithKey(s[1..], key, k));
      assert Reverse(head) == head by {
        if head != [] { assert head[1..] == []; }
      }
    }
  }

  /**
   * Elements with equal keys come out of `mergeSort` in the reverse of
   * their input order, because a tie always takes the right head.
   */
  lemma {:induction false} MergeSortReversesTies<T>(a: seq<T>, key: T -> Key, k: Key)
    requires |a| > 0
    ensures WithKey(MergeSort(a, key), key, k) == Reverse(WithKey(a, key, k))
    decreases |a|
  {
    if |a| == 1 {
      WithKeySingleton(a, key, k);
    } else {
      var m := |a| / 2;
      var left, right := a[..m], a[m..];
      var sl, sr := MergeSort(left, key), MergeSort(right, key);
      calc {
        WithKey(MergeSort(a, key), key, k);
        { MergeSortUnfold(a, key); }
        WithKey(Merged(sl, sr, key), key, k);
        { MergedWithKey(sl, sr, key, k); }
        WithKey(sr, key, k) + WithKey(sl, key, k);
        { MergeSortReversesTies(left, key, k); MergeSortReversesTies(right, key, k); }
        Reverse(WithKey(right, key, k)) + Reverse(WithKey(left, key, k));
        { ReverseAppend(WithKey(left, key, k), WithKey(right, key, k)); }
        Reverse(WithKey(left, key, k) + WithKey(right, key, k));
        { assert a == left + right; WithKeyAppend(left, right, key, k); }
        Reverse(WithKey(a, key, k));
      }
    }
  }

  lemma MergeSortUnfold<T>(a: seq<T>, key: T -> Key)
    requires |a| > 1
    ensures MergeSort(a, key) == Merged(MergeSort(a[..|a| / 2], key), MergeSort(a[|a| / 2..], key), key)
  {
  }

  lemma WithKeySingleton<T>(a: seq<T>, key: T -> Key, k: Key)
    requires |a| == 1
    ensures Reverse(WithKey(a, key, k)) == WithKey(a, key, k)
  {
    assert a[1..] == [];
    assert WithKey(a[1..], key, k) == [];
    var w := WithKey(a, key, k);
    assert w == (if key(a[0]) == k then [a[0]] else []) + WithKey(a[1..], key, k);
    if w != [] {
      assert w[1..] == [];
    }
  }

  /** Reversing an ascending sequence gives a descending one. */
  lemma ReverseSortedDescending<T>(s: seq<T>, key: T -> Key)
    requires SortedBy(s, key)
    ensures SortedDescendingBy(Reverse(s), key)
  {
    ReverseAt(s);
  }

  /** `Array.prototype.reverse`: reverses the array in place. */
  method ReverseInPlace<T>(a: array<T>)
    modifies a
    ensures a[..] == Reverse(old(a[..]))
  {
    var n := a.Length;
    var lo, hi := 0, n - 1;
    while lo < hi
      invariant 0 <= lo <= hi + 1 && lo + hi == n - 1
      invariant forall k :: 0 <= k < lo ==> a[k] == old(a[n - 1 - k]) && a[n - 1 - k] == old(a[k])
      invariant forall k :: lo <= k <= hi ==> a[k] == old(a[k])
    {
      a[lo], a[hi] := a[hi], a[lo];
      lo, hi := lo + 1, hi - 1;
    }
    ReverseAt(old(a[..]));
  }
}
