/**
 * The list functions of the FEEL standard library. The three profile classes
 * (DefaultFEELLib, DoubleMixedJavaTimeFEELLib, UniformJavaTimeFEELLib) carry
 * identical copies of this code; it is written here once, generically over the
 * element type. Positions arrive as Java `int`s, after the profile's `intValue()`.
 *
 * A Java `null` list is `None`. Elements are compared with `==`, which stands
 * for Java's `equals` (with `null` equal only to `null`); where the code needs
 * the `null` element itself, the caller names it as `nil`.
 */
module FeelList {
  import opened Wrappers
  import opened JavaInt

  /** A Java `null` list reads as the empty list. */
  function OrEmpty<T>(list: Option<seq<T>>): seq<T>
  {
    if list.Some? then list.value else []
  }

  // ---------------------------------------------------------------------------
  // Positions
  // ---------------------------------------------------------------------------

  /**
   * `isOutOfBounds`: a position is valid when it is 1-based and at most the
   * length, or negative and counting at most the length back from the end.
   * Position 0 is never valid.
   */
  predicate IsOutOfBounds(length: int, position: int): (out: bool)
    ensures !out <==> (1 <= position <= length || -length <= position < 0)
    ensures position == 0 ==> out
  {
    if position < 0 then !(-length <= position) else !(1 <= position && position <= length)
  }

  /** The 0-based index a position denotes (the code's `javaStartPosition`). */
  function StartIndex(length: nat, position: int): (k: int)
    ensures !IsOutOfBounds(length, position) ==> 0 <= k < length
    ensures position < 0 ==> k == length - -position
    ensures position > 0 ==> k == position - 1
  {
    if position < 0 then length + position else position - 1
  }

  // ---------------------------------------------------------------------------
  // sublist
  // ---------------------------------------------------------------------------

  /** `sublist(list, position)`: the suffix that starts at the position. */
  function SublistFrom<T>(list: Option<seq<T>>, position: JInt): (r: seq<T>)
    ensures list.None? || IsOutOfBounds(|list.value|, position) ==> r == []
    ensures list.Some? && 1 <= position <= |list.value| ==>
              |r| == |list.value| - position + 1 && r == list.value[|list.value| - |r|..]
    ensures list.Some? && -|list.value| <= position < 0 ==>
              |r| == -(position as int) && r == list.value[|list.value| - |r|..]
  {
    if list.None? || IsOutOfBounds(|list.value|, position) then []
    else list.value[StartIndex(|list.value|, position)..]
  }

  method Sublist<T>(list: Option<seq<T>>, position: JInt) returns (result: seq<T>)
    ensures result == SublistFrom(list, position)
  {
    result := [];
    if list.None? || IsOutOfBounds(|list.value|, position) {
      return;
    }
    var l := list.value;
    var javaStartPosition: int;
    // exclusive end index
    var javaEndPosition := |l|;
    if position < 0 {
      javaStartPosition := |l| + position;
    } else {
      javaStartPosition := position - 1;
    }
    var i := javaStartPosition;
    while i < javaEndPosition
      invariant javaStartPosition <= i <= javaEndPosition
      invariant result == l[javaStartPosition..i]
    {
      result := result + [l[i]];
      i := i + 1;
    }
  }

  /** The exclusive end index of `sublist(list, position, length)`, in 32-bit arithmetic. */
  function JavaEndPosition(start: int, length: JInt): JInt
  {
    Wrap32(start + length)
  }

  /**
   * What `sublist(list, position, length)` needs of its caller: the code has no
   * guard on the end index, so an end beyond the list throws.
   */
  predicate SublistEndInRange<T>(list: Option<seq<T>>, position: JInt, length: JInt)
  {
    list.Some? && !IsOutOfBounds(|list.value|, position) ==>
      JavaEndPosition(StartIndex(|list.value|, position), length) <= |list.value|
  }

  /** `sublist(list, position, length)`: `length` consecutive elements from the position. */
  function SublistOfLength<T>(list: Option<seq<T>>, position: JInt, length: JInt): (r: seq<T>)
    requires SublistEndInRange(list, position, length)
    ensures list.None? || IsOutOfBounds(|list.value|, position) || length <= 0 ==> r == []
    ensures list.Some? && !IsOutOfBounds(|list.value|, position) && 0 <= length &&
            StartIndex(|list.value|, position) + length <= MaxInt ==>
              |r| == length &&
              forall k :: 0 <= k < length ==> r[k] == list.value[StartIndex(|list.value|, position) + k]
    ensures StartIndex(|OrEmpty(list)|, position) + length > MaxInt ==> r == []
  {
    if list.None? || IsOutOfBounds(|list.value|, position) then []
    else
      var start := StartIndex(|list.value|, position);
      var end := JavaEndPosition(start, length);
      if end <= start then [] else list.value[start..end]
  }

  /** `sublist(list, position, length)`, copying from the start index up to the 32-bit end index. */
  method SublistLength<T>(list: Option<seq<T>>, position: JInt, length: JInt) returns (result: seq<T>)
    requires SublistEndInRange(list, position, length)
    ensures result == SublistOfLength(list, position, length)
  {
    result := [];
    if list.None? || IsOutOfBounds(|list.value|, position) {
      return;
    }
    var l := list.value;
    var javaStartPosition: int;
    var javaEndPosition: int;
    if position < 0 {
      javaStartPosition := |l| + position;
      javaEndPosition := JavaEndPosition(javaStartPosition, length);
    } else {
      javaStartPosition := position - 1;
      javaEndPosition := JavaEndPosition(javaStartPosition, length);
    }
    var i := javaStartPosition;
    while i < javaEndPosition
      invariant javaStartPosition <= i
      invariant i <= javaEndPosition || i == javaStartPosition
      invariant javaEndPosition <= |l|
      invariant result == l[javaStartPosition..i]
    {
      assert l[javaStartPosition..i + 1] == l[javaStartPosition..i] + [l[i]];
      result := result + [l[i]];
      i := i + 1;
    }
  }

  /** `sublist(L, -1)` is the last element alone. */
  lemma SublistLastElement<T>(l: seq<T>)
    requires l != []
    ensures SublistFrom(Some(l), -1) == [l[|l| - 1]]
  {
  }

  /** Both arities agree: a sublist of length `n` is the first `n` elements of the suffix. */
  lemma SublistOfLengthIsPrefix<T>(list: Option<seq<T>>, position: JInt, length: JInt)
    requires SublistEndInRange(list, position, length)
    requires 0 <= length && |OrEmpty(list)| <= MaxInt
    ensures length <= |SublistFrom(list, position)| ==>
              SublistOfLength(list, position, length) == SublistFrom(list, position)[..length]
  {
    if list.Some? && !IsOutOfBounds(|list.value|, position) {
      var l := list.value;
      var start := StartIndex(|l|, position);
      assert |SublistFrom(list, position)| == |l| - start;
    }
  }

  /** Counting from the end names the same suffix as the matching positive position. */
  lemma SublistNegativeMirrorsPositive<T>(l: seq<T>, k: int)
    requires 1 <= k <= |l| <= MaxInt
    ensures SublistFrom(Some(l), -k) == SublistFrom(Some(l), |l| - k + 1)
  {
  }

  // ---------------------------------------------------------------------------
  // insert before, remove
  // ---------------------------------------------------------------------------

  /**
   * What `insertBefore(list, position, newItem)` returns: a copy of the list
   * (empty for `null`) with `newItem` at the index the position denotes; an
   * out-of-bounds position gives the plain copy.
   */
  function InsertedBefore<T>(list: Option<seq<T>>, position: JInt, newItem: T): (r: seq<T>)
    ensures IsOutOfBounds(|OrEmpty(list)|, position) ==> r == OrEmpty(list)
    ensures !IsOutOfBounds(|OrEmpty(list)|, position) ==>
              var l, k := OrEmpty(list), StartIndex(|OrEmpty(list)|, position);
              |r| == |l| + 1 && r[k] == newItem &&
              (forall j :: 0 <= j < k ==> r[j] == l[j]) &&
              (forall j :: k <= j < |l| ==> r[j + 1] == l[j])
    ensures multiset(r) == multiset(OrEmpty(list)) +
              if IsOutOfBounds(|OrEmpty(list)|, position) then multiset{} else multiset{newItem}
  {
    var result := OrEmpty(list);
    if IsOutOfBounds(|result|, position) then result
    else
      var k := StartIndex(|result|, position);
      assert result == result[..k] + result[k..];
      result[..k] + [newItem] + result[k..]
  }

  /** `insertBefore(L, -k, x)` puts `x` right before the k-th element from the end. */
  lemma InsertBeforeFromEnd<T>(l: seq<T>, k: int, x: T)
    requires 1 <= k <= |l| <= MaxInt
    ensures var r := InsertedBefore(Some(l), -k, x);
            r[|l| - k] == x && r[|l| - k + 1] == l[|l| - k] && r[|r| - k..] == l[|l| - k..]
  {
    var r := InsertedBefore(Some(l), -k, x);
    assert r[|r| - k..] == l[|l| - k..] by {
      forall i | |l| - k <= i < |l| ensures r[i + 1] == l[i] {
      }
    }
  }

  /**
   * What `remove(list, position)` returns: a copy with the element at the
   * 1-based position deleted. Negative positions are not supported and nothing
   * guards the index, so anything else throws in the source.
   */
  function Removed<T>(list: Option<seq<T>>, position: JInt): (r: seq<T>)
    requires 1 <= position <= |OrEmpty(list)|
    ensures |r| == |OrEmpty(list)| - 1
    ensures forall j :: 0 <= j < position - 1 ==> r[j] == OrEmpty(list)[j]
    ensures forall j :: position - 1 <= j < |r| ==> r[j] == OrEmpty(list)[j + 1]
  {
    var result := OrEmpty(list);
    result[..position - 1] + result[position..]
  }

  /**
   * `insertBefore(list, position, newItem)`: copy the list into a fresh
   * `ArrayList`, then, unless the position is out of bounds, add the item in
   * place at the converted index.
   */
  method InsertBefore<T>(list: Option<seq<T>>, position: JInt, newItem: T) returns (result: seq<T>)
    ensures result == InsertedBefore(list, position, newItem)
  {
    var r := new MutableList<T>();
    if list.Some? {
      r.AddAll(list.value);
    }
    if IsOutOfBounds(|r.elements|, position) {
      return r.elements;
    }
    var p := if position < 0 then |r.elements| + position else position - 1;
    r.Insert(p, newItem);
    result := r.elements;
  }

  /** `remove(list, position)`: copy the list, then delete index `position - 1` in place. */
  method Remove<T>(list: Option<seq<T>>, position: JInt) returns (result: seq<T>)
    requires 1 <= position <= |OrEmpty(list)|
    ensures result == Removed(list, position)
  {
    var r := new MutableList<T>();
    if list.Some? {
      r.AddAll(list.value);
    }
    r.RemoveAt(position - 1);
    result := r.elements;
  }

  /** `remove` undoes `insertBefore` at the same (positive) position. */
  lemma RemoveUndoesInsertBefore<T>(list: Option<seq<T>>, position: JInt, x: T)
    requires 1 <= position <= |OrEmpty(list)|
    ensures Removed(Some(InsertedBefore(list, position, x)), position) == OrEmpty(list)
  {
    var l := OrEmpty(list);
    var r := InsertedBefore(list, position, x);
    var d := Removed(Some(r), position);
    assert |d| == |l|;
    forall j | 0 <= j < |l| ensures d[j] == l[j] {
      if j < position - 1 {
        assert d[j] == r[j];
      } else {
        assert d[j] == r[j + 1];
      }
    }
  }

  // ---------------------------------------------------------------------------
  // reverse, index of
  // ---------------------------------------------------------------------------

  /** The elements of `s` in the opposite order. */
  function Reversed<T>(s: seq<T>): (r: seq<T>)
    ensures |r| == |s|
    ensures forall i :: 0 <= i < |s| ==> r[i] == s[|s| - 1 - i]
  {
    if s == [] then [] else [s[|s| - 1]] + Reversed(s[..|s| - 1])
  }

  /** Reversing twice gives the list back. */
  lemma ReversedTwice<T>(s: seq<T>)
    ensures Reversed(Reversed(s)) == s
  {
  }

  /** `reverse(list)`: a fresh list in the opposite order; `null` gives the empty list. */
  method Reverse<T>(list: Option<seq<T>>) returns (result: seq<T>)
    ensures result == Reversed(OrEmpty(list))
  {
    result := [];
    if list.Some? {
      var l := list.value;
      var i := |l| - 1;
      while i >= 0
        invariant -1 <= i < |l|
        invariant |result| == |l| - 1 - i
        invariant forall k :: 0 <= k < |result| ==> result[k] == l[|l| - 1 - k]
      {
        result := result + [l[i]];
        i := i - 1;
      }
    }
  }

  /** The 1-based positions of `s` holding `match`, in ascending order. */
  function Positions<T(==)>(s: seq<T>, target: T): (r: seq<int>)
    ensures forall k :: 0 <= k < |r| ==> 1 <= r[k] <= |s| && s[r[k] - 1] == target
    ensures forall k, m :: 0 <= k < m < |r| ==> r[k] < r[m]
    ensures forall i :: 0 <= i < |s| && s[i] == target ==> i + 1 in r
  {
    if s == [] then []
    else Positions(s[..|s| - 1], target) + if s[|s| - 1] == target then [|s|] else []
  }

  /** `indexOf(list, target)`: a `null` match finds the `null` elements; a `null` list has none. */
  method IndexOf<T(==)>(list: Option<seq<T>>, target: T) returns (result: seq<int>)
    ensures result == Positions(OrEmpty(list), target)
  {
    result := [];
    if list.Some? {
      var l := list.value;
      var i := 0;
      while i < |l|
        invariant 0 <= i <= |l|
        invariant result == Positions(l[..i], target)
      {
        var o := l[i];
        if o == target {
          result := result + [i + 1];
        }
        assert l[..i + 1][..i] == l[..i];
        i := i + 1;
      }
      assert l[..|l|] == l;
    }
  }

  // ---------------------------------------------------------------------------
  // count, list contains, append, concatenate
  // ---------------------------------------------------------------------------

  /** `count(list)`: the number of elements; a `null` list counts 0. */
  function Count<T>(list: Option<seq<T>>): (n: nat)
    ensures n == |OrEmpty(list)|
    ensures list.None? ==> n == 0
  {
    if list.None? then 0 else |list.value|
  }

  /** `listContains(list, element)`: unknown for a `null` list. */
  function ListContains<T(==)>(list: Option<seq<T>>, element: T): (r: Option<bool>)
    ensures r.None? <==> list.None?
    ensures r == Some(true) <==> list.Some? && exists i :: 0 <= i < |list.value| && list.value[i] == element
  {
    if list.None? then None else Some(element in list.value)
  }

  /** A list contains an element exactly when `indexOf` finds a position for it. */
  lemma ListContainsIffIndexOf<T>(l: seq<T>, element: T)
    ensures ListContains(Some(l), element) == Some(Positions(l, element) != [])
  {
    if element in l {
      var i :| 0 <= i < |l| && l[i] == element;
      assert i + 1 in Positions(l, element);
    }
  }

  /**
   * `append(list, items...)`: the list (empty for `null`) followed by the items in
   * order; a `null` items array appends one `null` element.
   */
  method Append<T>(list: Option<seq<T>>, items: Option<seq<T>>, nil: T) returns (result: seq<T>)
    ensures |OrEmpty(list)| <= |result| && result[..|OrEmpty(list)|] == OrEmpty(list)
    ensures items.Some? ==> |result| == |OrEmpty(list)| + |items.value| &&
                             result[|OrEmpty(list)|..] == items.value
    ensures items.None? ==> result == OrEmpty(list) + [nil]
  {
    result := OrEmpty(list);
    if items.Some? {
      var i := 0;
      while i < |items.value|
        invariant 0 <= i <= |items.value|
        invariant result == OrEmpty(list) + items.value[..i]
      {
        result := result + [items.value[i]];
        i := i + 1;
      }
    } else {
      result := result + [nil];
    }
  }

  /** The argument lists joined in argument order. */
  function ConcatAll<T>(lists: seq<seq<T>>): seq<T>
  {
    if lists == [] then [] else ConcatAll(lists[..|lists| - 1]) + lists[|lists| - 1]
  }

  /** Joining distributes over splitting the argument lists. */
  lemma {:induction false} ConcatAllAppend<T>(a: seq<seq<T>>, b: seq<seq<T>>)
    ensures ConcatAll(a + b) == ConcatAll(a) + ConcatAll(b)
    decreases |b|
  {
    if b == [] {
      assert a + b == a;
    } else {
      var b' := b[..|b| - 1];
      assert (a + b)[..|a + b| - 1] == a + b';
      ConcatAllAppend(a, b');
    }
  }

  /** An element is in the joined list exactly when it is in one of the argument lists. */
  lemma {:induction false} ConcatAllMembers<T>(lists: seq<seq<T>>, x: T)
    ensures x in ConcatAll(lists) <==> exists i :: 0 <= i < |lists| && x in lists[i]
  {
    if lists != [] {
      var init := lists[..|lists| - 1];
      ConcatAllMembers(init, x);
      assert forall i :: 0 <= i < |init| ==> init[i] == lists[i];
    }
  }

  /** `concatenate(lists...)`: a `null` argument array gives the empty list. */
  method Concatenate<T>(lists: Option<seq<seq<T>>>) returns (result: seq<T>)
    ensures result == ConcatAll(OrEmpty(lists))
  {
    result := [];
    if lists.Some? {
      var ls := lists.value;
      var i := 0;
      while i < |ls|
        invariant 0 <= i <= |ls|
        invariant result == ConcatAll(ls[..i])
      {
        assert ls[..i + 1][..i] == ls[..i];
        result := result + ls[i];
        i := i + 1;
      }
      assert ls[..|ls|] == ls;
    }
  }

  // ---------------------------------------------------------------------------
  // distinct values, union
  // ---------------------------------------------------------------------------

  ghost predicate NoDuplicates<T>(s: seq<T>)
  {
    forall i, j :: 0 <= i < j < |s| ==> s[i] != s[j]
  }

  /** The first occurrence of each value of `s`, in the order of `s`. */
  function Distinct<T(==)>(s: seq<T>): (r: seq<T>)
    ensures forall x <- r :: x in s
    ensures forall x <- s :: x in r
    ensures NoDuplicates(r)
  {
    if s == [] then []
    else
      var d := Distinct(s[..|s| - 1]);
      if s[|s| - 1] in d then d else d + [s[|s| - 1]]
  }

  /** A list without duplicates is its own distinct values. */
  lemma {:induction false} DistinctOfDistinctFree<T>(s: seq<T>)
    requires NoDuplicates(s)
    ensures Distinct(s) == s
  {
    if s != [] {
      var init := s[..|s| - 1];
      assert NoDuplicates(init);
      DistinctOfDistinctFree(init);
      assert s[|s| - 1] !in init;
      assert init + [s[|s| - 1]] == s;
    }
  }

  /** `distinct values` is idempotent. */
  lemma DistinctIdempotent<T>(s: seq<T>)
    ensures Distinct(Distinct(s)) == Distinct(s)
  {
    DistinctOfDistinctFree(Distinct(s));
  }

  /** The index of the first occurrence of `x` in `s`. */
  ghost function FirstIndex<T>(s: seq<T>, x: T): (k: nat)
    requires x in s
    ensures k < |s| && s[k] == x && x !in s[..k]
  {
    if s[0] == x then 0
    else
      var k := 1 + FirstIndex(s[1..], x);
      assert s[..k] == [s[0]] + s[1..][..k - 1];
      k
  }

  /** The first occurrence is the only occurrence with none before it. */
  lemma FirstIndexUnique<T>(s: seq<T>, x: T, k: nat)
    requires k < |s| && s[k] == x && x !in s[..k]
    ensures FirstIndex(s, x) == k
  {
    var f := FirstIndex(s, x);
    assert forall m :: 0 <= m < k ==> s[..k][m] != x;
    assert forall m :: 0 <= m < f ==> s[..f][m] != x;
  }

  /** Distinct values come out in the order of their first occurrences in the input. */
  lemma {:induction false} DistinctFollowsFirstOccurrences<T>(s: seq<T>, i: int, j: int)
    requires 0 <= i < j < |Distinct(s)|
    ensures FirstIndex(s, Distinct(s)[i]) < FirstIndex(s, Distinct(s)[j])
  {
    var init := s[..|s| - 1];
    var d := Distinct(init);
    var x, y := Distinct(s)[i], Distinct(s)[j];
    // Inside the prefix, first occurrences are those of the prefix.
    assert x in init by { assert x == d[i]; }
    var fx := FirstIndex(init, x);
    assert init[..fx] == s[..fx];
    FirstIndexUnique(s, x, fx);
    if j < |d| {
      DistinctFollowsFirstOccurrences(init, i, j);
      var fy := FirstIndex(init, y);
      assert init[..fy] == s[..fy];
      FirstIndexUnique(s, y, fy);
    } else {
      assert y == s[|s| - 1] && y !in init;
      assert s[..|s| - 1] == init;
      FirstIndexUnique(s, y, |s| - 1);
    }
  }

  /** `distinctValues(list)`: keep each value the first time it is seen. */
  method DistinctValues<T(==)>(list: Option<seq<T>>) returns (result: seq<T>)
    ensures result == Distinct(OrEmpty(list))
  {
    result := [];
    if list.Some? {
      var l := list.value;
      var i := 0;
      while i < |l|
        invariant 0 <= i <= |l|
        invariant result == Distinct(l[..i])
      {
        var element := l[i];
        assert l[..i + 1][..i] == l[..i];
        if element !in result {
          result := result + [element];
        }
        i := i + 1;
      }
      assert l[..|l|] == l;
    }
  }

  /** `union(lists...)`: the distinct values of the argument lists joined in order. */
  method Union<T(==)>(lists: Option<seq<seq<T>>>) returns (result: seq<T>)
    ensures result == Distinct(ConcatAll(OrEmpty(lists)))
  {
    var joined := [];
    if lists.Some? {
      var ls := lists.value;
      var i := 0;
      while i < |ls|
        invariant 0 <= i <= |ls|
        invariant joined == ConcatAll(ls[..i])
      {
        assert ls[..i + 1][..i] == ls[..i];
        joined := joined + ls[i];
        i := i + 1;
      }
      assert ls[..|ls|] == ls;
    }
    result := DistinctValues(Some(joined));
  }

  /** A value is in the union exactly when it is in one of the lists, and it is there once. */
  lemma UnionMembers<T>(lists: seq<seq<T>>, x: T)
    ensures x in Distinct(ConcatAll(lists)) <==> exists i :: 0 <= i < |lists| && x in lists[i]
    ensures NoDuplicates(Distinct(ConcatAll(lists)))
  {
    ConcatAllMembers(lists, x);
  }

  // ---------------------------------------------------------------------------
  // flatten, collect
  // ---------------------------------------------------------------------------

  /** A list element as `flatten` sees it: a list, or anything else. */
  datatype Nested<T> = Atom(item: T) | ListV(elements: seq<Nested<T>>)

  /** The non-list leaves of `s`, left to right, at any depth. */
  function Leaves<T>(s: seq<Nested<T>>): (r: seq<Nested<T>>)
    ensures forall x <- r :: x.Atom?
    decreases s, 1
  {
    if s == [] then [] else Leaves(s[..|s| - 1]) + LeavesOf(s[|s| - 1])
  }

  /** The leaves contributed by one element: itself, or the leaves of the list it is. */
  function LeavesOf<T>(x: Nested<T>): (r: seq<Nested<T>>)
    ensures forall y <- r :: y.Atom?
    decreases x, 0
  {
    if x.Atom? then [x] else Leaves(x.elements)
  }

  /** A list holding no lists flattens to itself. */
  lemma {:induction false} LeavesOfAtoms<T>(s: seq<Nested<T>>)
    requires forall x <- s :: x.Atom?
    ensures Leaves(s) == s
  {
    if s != [] {
      LeavesOfAtoms(s[..|s| - 1]);
    }
  }

  /** `flatten` is idempotent. */
  lemma FlattenIdempotent<T>(s: seq<Nested<T>>)
    ensures Leaves(Leaves(s)) == Leaves(s)
  {
    LeavesOfAtoms(Leaves(s));
  }

  /** Flattening distributes over joining lists. */
  lemma {:induction false} LeavesAppend<T>(a: seq<Nested<T>>, b: seq<Nested<T>>)
    ensures Leaves(a + b) == Leaves(a) + Leaves(b)
    decreases |b|
  {
    if b == [] {
      assert a + b == a;
    } else {
      var b' := b[..|b| - 1];
      assert (a + b)[..|a + b| - 1] == a + b';
      LeavesAppend(a, b');
    }
  }

  /** A Java `ArrayList`, changed in place. */
  class MutableList<E> {
    var elements: seq<E>

    constructor ()
      ensures elements == []
    {
      elements := [];
    }

    method Add(x: E)
      modifies this
      ensures elements == old(elements) + [x]
    {
      elements := elements + [x];
    }

    /** `addAll(xs)` */
    method AddAll(xs: seq<E>)
      modifies this
      ensures elements == old(elements) + xs
    {
      elements := elements + xs;
    }

    /** `add(index, x)`: shifts the elements from `index` on one place right. */
    method Insert(index: nat, x: E)
      requires index <= |elements|
      modifies this
      ensures elements == old(elements[..index]) + [x] + old(elements[index..])
    {
      elements := elements[..index] + [x] + elements[index..];
    }

    /** `remove(index)`: shifts the elements after `index` one place left. */
    method RemoveAt(index: nat)
      requires index < |elements|
      modifies this
      ensures elements == old(elements[..index]) + old(elements[index + 1..])
    {
      elements := elements[..index] + elements[index + 1..];
    }
  }

  /** `collect(result, list)`: append the leaves of `list` to `result`, in place. */
  method Collect<T>(result: MutableList<Nested<T>>, list: Option<seq<Nested<T>>>)
    modifies result
    ensures result.elements == old(result.elements) + Leaves(OrEmpty(list))
    decreases OrEmpty(list)
  {
    if list.Some? {
      var l := list.value;
      var i := 0;
      while i < |l|
        invariant 0 <= i <= |l|
        invariant result.elements == old(result.elements) + Leaves(l[..i])
      {
        var element := l[i];
        assert l[..i + 1][..i] == l[..i];
        if element.ListV? {
          Collect(result, Some(element.elements));
        } else {
          result.Add(element);
        }
        i := i + 1;
      }
      assert l[..|l|] == l;
    }
  }

  /** `flatten(list)`: `null` stays `null`; otherwise the leaves, in a fresh list. */
  method Flatten<T>(list: Option<seq<Nested<T>>>) returns (flat: Option<seq<Nested<T>>>)
    ensures list.None? ==> flat.None?
    ensures list.Some? ==> flat == Some(Leaves(list.value))
  {
    if list.None? {
      return None;
    }
    var result := new MutableList<Nested<T>>();
    Collect(result, list);
    assert [] + Leaves(list.value) == Leaves(list.value);
    flat := Some(result.elements);
  }

  /** The example of the FEEL specification: `flatten([[1, [2, 3]], 4]) = [1, 2, 3, 4]`. */
  lemma FlattenExample()
    ensures Leaves([ListV([Atom(1), ListV([Atom(2), Atom(3)])]), Atom(4)])
            == [Atom(1), Atom(2), Atom(3), Atom(4)]
  {
    var inner := [Atom(1), ListV([Atom(2), Atom(3)])];
    assert Leaves([Atom(2), Atom(3)]) == [Atom(2), Atom(3)];
    assert Leaves(inner) == [Atom(1), Atom(2), Atom(3)];
  }

  // ---------------------------------------------------------------------------
  // sort
  // ---------------------------------------------------------------------------

  /**
   * The `Comparator` that `sort` builds from the FEEL predicate `less`:
   * -1 when `less(a, b)`, 0 when `a` is not null and equals `b`, 1 otherwise.
   */
  function Compare<T(==)>(less: (T, T) -> bool, nil: T, a: T, b: T): (c: int)
    ensures c < 0 <==> less(a, b)
    ensures c == 0 <==> !less(a, b) && a != nil && a == b
    ensures -1 <= c <= 1
  {
    if less(a, b) then -1 else if a != nil && a == b then 0 else 1
  }

  /** The comparator does not order two nulls consistently: each is "greater" than the other. */
  lemma CompareOfNulls<T>(less: (T, T) -> bool, nil: T)
    requires !less(nil, nil)
    ensures Compare(less, nil, nil, nil) == 1
  {
  }

  /** `less` is asymmetric and its complement is transitive. */
  ghost predicate StrictWeakOrder<T(!new)>(less: (T, T) -> bool)
  {
    && (forall a, b :: less(a, b) ==> !less(b, a))
    && (forall a, b, c :: !less(a, b) && !less(b, c) ==> !less(a, c))
  }

  /** No element of `s` is `less` than one before it. */
  ghost predicate SortedBy<T>(s: seq<T>, less: (T, T) -> bool)
  {
    forall p, q :: 0 <= p < q < |s| ==> !less(s[q], s[p])
  }

  /**
   * `sort(list, less)`: a sorted copy of `list`, by insertion of each element
   * after every element it is not `less` than.
   */
  method Sort<T(==,!new)>(list: seq<T>, less: (T, T) -> bool, nil: T) returns (sorted: seq<T>)
    ensures multiset(sorted) == multiset(list)
    ensures StrictWeakOrder(less) ==> SortedBy(sorted, less)
  {
    sorted := [];
    var i := 0;
    while i < |list|
      invariant 0 <= i <= |list|
      invariant multiset(sorted) == multiset(list[..i])
      invariant StrictWeakOrder(less) ==> SortedBy(sorted, less)
    {
      var x := list[i];
      var j := |sorted|;
      while j > 0 && Compare(less, nil, x, sorted[j - 1]) < 0
        invariant 0 <= j <= |sorted|
        invariant forall k :: j <= k < |sorted| ==> less(x, sorted[k])
      {
        j := j - 1;
      }
      InsertKeepsSorted(sorted, j, x, less);
      assert sorted == sorted[..j] + sorted[j..];
      sorted := sorted[..j] + [x] + sorted[j..];
      assert list[..i + 1] == list[..i] + [x];
      i := i + 1;
    }
    assert list[..i] == list;
  }

  /** Inserting `x` after the elements it is not less than and before those greater keeps order. */
  lemma InsertKeepsSorted<T(!new)>(s: seq<T>, j: nat, x: T, less: (T, T) -> bool)
    requires j <= |s|
    requires forall k :: j <= k < |s| ==> less(x, s[k])
    requires j > 0 ==> !less(x, s[j - 1])
    ensures StrictWeakOrder(less) && SortedBy(s, less) ==> SortedBy(s[..j] + [x] + s[j..], less)
  {
    if StrictWeakOrder(less) && SortedBy(s, less) {
      var r := s[..j] + [x] + s[j..];
      forall p, q | 0 <= p < q < |r|
        ensures !less(r[q], r[p])
      {
        if q < j {
          assert r[q] == s[q] && r[p] == s[p];
        } else if q == j {
          assert !less(s[j - 1], s[p]) || p == j - 1;
        } else if p == j {
          assert r[q] == s[q - 1];
        } else if p < j {
          assert r[q] == s[q - 1] && r[p] == s[p];
        } else {
          assert r[q] == s[q - 1] && r[p] == s[p - 1];
        }
      }
    }
  }
}
