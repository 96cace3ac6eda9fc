/**
 * What differs between the three copies of the FEEL library: how a position
 * argument becomes a Java `int`, and the empty-input guards of the
 * DoubleMixedJavaTimeFEELLib aggregates.
 *
 * DefaultFEELLib and UniformJavaTimeFEELLib take `BigDecimal` positions,
 * DoubleMixedJavaTimeFEELLib takes `Double` ones; each calls the profile's
 * `intValue()` and then the shared list code (module FeelList). Numbers are
 * finite values here, written as `real`.
 */
module Profiles {
  import opened Wrappers
  import opened JavaInt
  import opened FeelList

  /** The integer part of `x`, rounding toward zero. */
  function Truncate(x: real): (t: int)
    ensures 0.0 <= x ==> t as real <= x < t as real + 1.0
    ensures x < 0.0 ==> t as real - 1.0 < x <= t as real
  {
    if x >= 0.0 then x.Floor else -((-x).Floor)
  }

  /** `BigDecimal.intValue()`: the integer part, then its low 32 bits as a signed `int`. */
  function BigDecimalIntValue(x: real): (r: JInt)
    ensures MinInt <= Truncate(x) <= MaxInt ==> r == Truncate(x)
    ensures (Truncate(x) - r) % Modulus == 0
  {
    Wrap32(Truncate(x))
  }

  /** `Double.intValue()`: the integer part, clamped to the `int` range. */
  function DoubleIntValue(x: real): (r: JInt)
    ensures MinInt <= Truncate(x) <= MaxInt ==> r == Truncate(x)
    ensures Truncate(x) > MaxInt ==> r == MaxInt
    ensures Truncate(x) < MinInt ==> r == MinInt
  {
    var t := Truncate(x);
    if t > MaxInt then MaxInt else if t < MinInt then MinInt else t
  }

  /** Both conversions agree on every position whose integer part fits in an `int`. */
  lemma IntValuesAgreeInRange(x: real)
    requires MinInt <= Truncate(x) <= MaxInt
    ensures BigDecimalIntValue(x) == DoubleIntValue(x)
  {
  }

  /** Beyond the `int` range they part: 2^32 + 1 wraps to 1 but clamps to the largest `int`. */
  lemma IntValuesDivergeBeyondRange()
    ensures BigDecimalIntValue(4294967297.0) == 1
    ensures DoubleIntValue(4294967297.0) == MaxInt
  {
    assert Truncate(4294967297.0) == 4294967297;
  }

  // ---------------------------------------------------------------------------
  // positions per profile
  // ---------------------------------------------------------------------------

  /** `sublist(list, startPosition)` of DefaultFEELLib and UniformJavaTimeFEELLib. */
  function BigDecimalSublist<T>(list: Option<seq<T>>, startPosition: real): (r: seq<T>)
    ensures r == SublistFrom(list, BigDecimalIntValue(startPosition))
    ensures forall x <- r :: x in OrEmpty(list)
  {
    SublistFrom(list, BigDecimalIntValue(startPosition))
  }

  /** `sublist(list, startPosition)` of DoubleMixedJavaTimeFEELLib. */
  function DoubleSublist<T>(list: Option<seq<T>>, startPosition: real): (r: seq<T>)
    ensures r == SublistFrom(list, DoubleIntValue(startPosition))
    ensures forall x <- r :: x in OrEmpty(list)
  {
    SublistFrom(list, DoubleIntValue(startPosition))
  }

  /** `sublist(list, startPosition, length)` of DefaultFEELLib and UniformJavaTimeFEELLib. */
  method BigDecimalSublistLength<T>(list: Option<seq<T>>, startPosition: real, length: real) returns (result: seq<T>)
    requires SublistEndInRange(list, BigDecimalIntValue(startPosition), BigDecimalIntValue(length))
    ensures result == SublistOfLength(list, BigDecimalIntValue(startPosition), BigDecimalIntValue(length))
  {
    result := SublistLength(list, BigDecimalIntValue(startPosition), BigDecimalIntValue(length));
  }

  /** `sublist(list, startPosition, length)` of DoubleMixedJavaTimeFEELLib. */
  method DoubleSublistLength<T>(list: Option<seq<T>>, startPosition: real, length: real) returns (result: seq<T>)
    requires SublistEndInRange(list, DoubleIntValue(startPosition), DoubleIntValue(length))
    ensures result == SublistOfLength(list, DoubleIntValue(startPosition), DoubleIntValue(length))
  {
    result := SublistLength(list, DoubleIntValue(startPosition), DoubleIntValue(length));
  }

  /** The profiles' `sublist` agree on every position that fits in an `int`. */
  lemma SublistProfilesAgree<T>(list: Option<seq<T>>, startPosition: real)
    requires MinInt <= Truncate(startPosition) <= MaxInt
    ensures BigDecimalSublist(list, startPosition) == DoubleSublist(list, startPosition)
  {
  }

  /** Position 2^32 + 1 is the whole list for a `BigDecimal` profile and nothing for the `Double` one. */
  lemma SublistProfilesDiverge(a: int, b: int)
    ensures BigDecimalSublist(Some([a, b]), 4294967297.0) == [a, b]
    ensures DoubleSublist(Some([a, b]), 4294967297.0) == []
  {
    IntValuesDivergeBeyondRange();
  }

  /** `insertBefore(list, position, newItem)` of DefaultFEELLib and UniformJavaTimeFEELLib. */
  method BigDecimalInsertBefore<T>(list: Option<seq<T>>, position: real, newItem: T) returns (result: seq<T>)
    ensures result == InsertedBefore(list, BigDecimalIntValue(position), newItem)
  {
    result := InsertBefore(list, BigDecimalIntValue(position), newItem);
  }

  /** `insertBefore(list, position, newItem)` of DoubleMixedJavaTimeFEELLib. */
  method DoubleInsertBefore<T>(list: Option<seq<T>>, position: real, newItem: T) returns (result: seq<T>)
    ensures result == InsertedBefore(list, DoubleIntValue(position), newItem)
  {
    result := InsertBefore(list, DoubleIntValue(position), newItem);
  }

  /** `remove(list, position)` of DefaultFEELLib and UniformJavaTimeFEELLib. */
  method BigDecimalRemove<T>(list: Option<seq<T>>, position: real) returns (result: seq<T>)
    requires 1 <= BigDecimalIntValue(position) <= |OrEmpty(list)|
    ensures result == Removed(list, BigDecimalIntValue(position))
  {
    result := Remove(list, BigDecimalIntValue(position));
  }

  /** `remove(list, position)` of DoubleMixedJavaTimeFEELLib. */
  method DoubleRemove<T>(list: Option<seq<T>>, position: real) returns (result: seq<T>)
    requires 1 <= DoubleIntValue(position) <= |OrEmpty(list)|
    ensures result == Removed(list, DoubleIntValue(position))
  {
    result := Remove(list, DoubleIntValue(position));
  }

  // ---------------------------------------------------------------------------
  // aggregate guards of DoubleMixedJavaTimeFEELLib
  // ---------------------------------------------------------------------------

  /**
   * A variadic aggregate (`min`, `max`, `sum`, `mean` with `Object...`):
   * `null` for a `null` or empty argument array, else the list form applied
   * to the arguments.
   */
  function Variadic<T, N>(args: Option<seq<T>>, listForm: Option<seq<T>> -> Option<N>): (r: Option<N>)
    ensures args.None? || args.value == [] ==> r.None?
    ensures args.Some? && args.value != [] ==> r == listForm(args)
  {
    if args.None? || |args.value| < 1 then None else listForm(args)
  }

  /**
   * `max(List)` of DoubleMixedJavaTimeFEELLib: `null` for a `null` or empty
   * list before the numeric helper (`DoubleUtil.max`, a parameter here) is called.
   */
  function DoubleMax<T, N>(list: Option<seq<T>>, util: Option<seq<T>> -> Option<N>): (r: Option<N>)
    ensures list.None? || list.value == [] ==> r.None?
    ensures list.Some? && list.value != [] ==> r == util(list)
  {
    if list.None? || list.value == [] then None else util(list)
  }

  /** `mean(List)` of DoubleMixedJavaTimeFEELLib: `null` for a `null` list, else the helper's mean. */
  function DoubleMean<T, N>(list: Option<seq<T>>, util: Option<seq<T>> -> Option<N>): (r: Option<N>)
    ensures list.None? ==> r.None?
    ensures list.Some? ==> r == util(list)
  {
    if list.None? then None else util(list)
  }

  /**
   * Whatever the numeric helpers do on empty input, `max` of DoubleMixedJavaTimeFEELLib
   * is `null` for no list, an empty list and no arguments, and the variadic
   * `min`, `sum` and `mean` are `null` for no arguments.
   */
  lemma DoubleEmptyInputsGiveNull<T, N>(min: Option<seq<T>> -> Option<N>, max: Option<seq<T>> -> Option<N>,
                                        sum: Option<seq<T>> -> Option<N>, mean: Option<seq<T>> -> Option<N>)
    ensures DoubleMax(None, max).None? && DoubleMax(Some([]), max).None?
    ensures Variadic(Some([]), (l: Option<seq<T>>) => DoubleMax(l, max)).None?
    ensures Variadic(Some([]), min).None? && Variadic(Some([]), sum).None?
    ensures Variadic(Some([]), (l: Option<seq<T>>) => DoubleMean(l, mean)).None?
    ensures DoubleMean(None, mean).None?
  {
  }

  /** A non-empty argument array reaches the helper unchanged, as a list. */
  lemma VariadicDelegates<T, N>(args: seq<T>, util: Option<seq<T>> -> Option<N>)
    requires args != []
    ensures Variadic(Some(args), (l: Option<seq<T>>) => DoubleMax(l, util)) == util(Some(args))
    ensures Variadic(Some(args), (l: Option<seq<T>>) => DoubleMean(l, util)) == util(Some(args))
  {
  }
}
