/**
 * `number(from)` and `number(from, grouping separator, decimal separator)` of
 * the FEEL standard library: a guard chain, then two literal string rewrites,
 * then the profile's own parse (`new BigDecimal(...)` or
 * `Double.parseDouble`), which is a parameter here: `parse(s)` is `None`
 * where the library parse throws.
 */
module FeelNumber {
  import opened Wrappers

  /** `Character.isWhitespace`: the Unicode space, line and paragraph separators except the no-break spaces, and the ASCII controls TAB to CR and FS to US. */
  predicate IsWhitespace(c: char)
  {
    || ('\t' <= c <= '\r')
    || ('\U{1C}' <= c <= ' ')
    || c == '\U{1680}'
    || ('\U{2000}' <= c <= '\U{200A}' && c != '\U{2007}')
    || c == '\U{2028}' || c == '\U{2029}' || c == '\U{205F}' || c == '\U{3000}'
  }

  /** `StringUtils.isBlank`: `null`, empty, or whitespace only. */
  predicate IsBlank(s: Option<string>)
  {
    s.None? || forall c <- s.value :: IsWhitespace(c)
  }

  /** `number(literal)`: `null` for a blank literal, else the library parse. */
  function Number<N>(literal: Option<string>, parse: string -> Option<N>): (r: Option<N>)
    ensures IsBlank(literal) ==> r.None?
    ensures !IsBlank(literal) ==> r == parse(literal.value)
  {
    if IsBlank(literal) then None else parse(literal.value)
  }

  /** `s` with every occurrence of `c` deleted (`replaceAll` with an empty replacement). */
  function Deleted(s: string, c: char): (r: string)
    ensures c !in r
  {
    if s == [] then [] else (if s[0] == c then [] else [s[0]]) + Deleted(s[1..], c)
  }

  /** Deleting `c` keeps every other character, as often as it occurred. */
  lemma {:induction false} DeletedKeepsOthers(s: string, c: char)
    ensures multiset(Deleted(s, c)) == multiset(s)[c := 0]
  {
    if s != [] {
      DeletedKeepsOthers(s[1..], c);
      assert s == [s[0]] + s[1..];
    }
  }

  /** Deleting from a concatenation deletes from each part and keeps them in order. */
  lemma {:induction false} DeletedAppend(a: string, b: string, c: char)
    ensures Deleted(a + b, c) == Deleted(a, c) + Deleted(b, c)
  {
    if a != [] {
      assert (a + b)[1..] == a[1..] + b;
      DeletedAppend(a[1..], b, c);
    } else {
      assert a + b == b;
    }
  }

  /** `s` with every occurrence of `c` replaced by `replacement` (`replaceAll` of a literal). */
  function Replaced(s: string, c: char, replacement: char): (r: string)
    ensures |r| == |s|
    ensures forall i :: 0 <= i < |s| ==> r[i] == (if s[i] == c then replacement else s[i])
  {
    if s == [] then [] else [if s[0] == c then replacement else s[0]] + Replaced(s[1..], c, replacement)
  }

  /** The separators `number` accepts: grouping one of space, dot, comma or absent; decimal dot, comma or absent; the two different. */
  predicate SeparatorsAccepted(grouping: Option<string>, decimal: Option<string>)
  {
    && (grouping == Some(" ") || grouping == Some(".") || grouping == Some(",") || grouping.None?)
    && (decimal == Some(".") || decimal == Some(",") || decimal.None?)
    && !(grouping.Some? && grouping == decimal)
  }

  /** The text handed to `number(literal)`: grouping characters deleted first, then a comma decimal separator turned into a dot. */
  function Normalized(from: string, grouping: Option<string>, decimal: Option<string>): (r: string)
    requires SeparatorsAccepted(grouping, decimal)
    ensures grouping.Some? && grouping != Some(".") ==> grouping.value[0] !in r
    ensures decimal == Some(",") ==> ',' !in r
    ensures decimal == Some(",") ==>
              r == Replaced(if grouping.Some? then Deleted(from, grouping.value[0]) else from, ',', '.')
    ensures decimal != Some(",") && grouping.Some? ==> r == Deleted(from, grouping.value[0])
    ensures decimal != Some(",") && grouping.None? ==> r == from
    ensures grouping.None? ==> |r| == |from|
  {
    var s1 := if grouping.Some? then Deleted(from, grouping.value[0]) else from;
    if decimal.Some? && decimal.value != "." then Replaced(s1, decimal.value[0], '.') else s1
  }

  /**
   * `number(from, grouping separator, decimal separator)`: `null` for a blank
   * `from` or separators outside the accepted ones, else `number` of the
   * normalized text.
   */
  function NumberWithSeparators<N>(from: Option<string>, grouping: Option<string>, decimal: Option<string>,
                                   parse: string -> Option<N>): (r: Option<N>)
    ensures IsBlank(from) || !SeparatorsAccepted(grouping, decimal) ==> r.None?
    ensures !IsBlank(from) && SeparatorsAccepted(grouping, decimal) ==>
              r == Number(Some(Normalized(from.value, grouping, decimal)), parse)
  {
    if IsBlank(from) then None
    else if !(grouping == Some(" ") || grouping == Some(".") || grouping == Some(",") || grouping.None?) then None
    else if !(decimal == Some(".") || decimal == Some(",") || decimal.None?) then None
    else if grouping.Some? && grouping == decimal then None
    else Number(Some(Normalized(from.value, grouping, decimal)), parse)
  }

  /** A literal made only of grouping characters normalizes to the empty text and so gives `null`. */
  lemma {:induction false} OnlyGroupingGivesNull<N>(from: string, grouping: string, decimal: Option<string>, parse: string -> Option<N>)
    requires SeparatorsAccepted(Some(grouping), decimal)
    requires forall c <- from :: c == grouping[0]
    ensures NumberWithSeparators(Some(from), Some(grouping), decimal, parse).None?
  {
    DeletedAll(from, grouping[0]);
    assert Normalized(from, Some(grouping), decimal) == [] by {
      if decimal == Some(",") {
        assert Replaced([], ',', '.') == [];
      }
    }
  }

  /** Deleting the only character a text is made of leaves nothing. */
  lemma {:induction false} DeletedAll(s: string, c: char)
    requires forall x <- s :: x == c
    ensures Deleted(s, c) == []
  {
    if s != [] {
      assert s[0] in s;
      assert forall x <- s[1..] :: x in s;
      DeletedAll(s[1..], c);
    }
  }

  /** The grouping separator is removed before the decimal one is rewritten. */
  lemma GroupingRemovedFirst()
    ensures Normalized("1.250,5", Some("."), Some(",")) == "1250.5"
  {
    DeletedGroupingDots();
    DecimalCommaReplaced();
    assert Normalized("1.250,5", Some("."), Some(",")) == Replaced(Deleted("1.250,5", '.'), ',', '.');
  }

  /** The decimal comma of `1250,5` turned into a dot. */
  lemma DecimalCommaReplaced()
    ensures Replaced("1250,5", ',', '.') == "1250.5"
  {
    var r := Replaced("1250,5", ',', '.');
    assert forall i :: 0 <= i < 6 ==> r[i] == "1250.5"[i];
  }

  /** The dots of `1.250,5` deleted one character at a time. */
  lemma DeletedGroupingDots()
    ensures Deleted("1.250,5", '.') == "1250,5"
  {
    DeletedCons('5', "", '.');
    DeletedCons(',', "5", '.');
    DeletedCons('0', ",5", '.');
    DeletedCons('5', "0,5", '.');
    DeletedCons('2', "50,5", '.');
    DeletedCons('.', "250,5", '.');
    DeletedCons('1', ".250,5", '.');
  }

  /** Rewriting the decimal comma before removing the grouping dots would lose the decimal point. */
  lemma OtherOrderLosesDecimalPoint()
    ensures Deleted(Replaced("1.250,5", ',', '.'), '.') == "12505"
  {
    assert Replaced("1.250,5", ',', '.') == "1.250.5";
    DeletedCons('5', "", '.');
    DeletedCons('.', "5", '.');
    DeletedCons('0', ".5", '.');
    DeletedCons('5', "0.5", '.');
    DeletedCons('2', "50.5", '.');
    DeletedCons('.', "250.5", '.');
    DeletedCons('1', ".250.5", '.');
  }

  /** One step of `Deleted`. */
  lemma DeletedCons(x: char, s: string, c: char)
    ensures Deleted([x] + s, c) == (if x == c then [] else [x]) + Deleted(s, c)
  {
    assert ([x] + s)[1..] == s;
  }
}
