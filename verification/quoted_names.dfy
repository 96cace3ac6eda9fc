/**
 * ToQuotedNameTransformer's `transformName`: a name that is a simple Java
 * identifier is kept, any other non-empty name is wrapped in single quotes.
 *
 * Names are sequences of Unicode code points, so a character outside the
 * Basic Multilingual Plane is one element. `Character.isJavaIdentifierStart`
 * and `Character.isJavaIdentifierPart` are the parameters `isStart` and
 * `isPart`.
 */
module QuotedNames {
  import opened Wrappers

  /** The code point of `'`. */
  const Apostrophe: int := 39

  /** A simple name: its first code point may start an identifier and every code point may be part of one. */
  predicate Simple(isStart: int -> bool, isPart: int -> bool, name: seq<int>)
    requires name != []
  {
    isStart(name[0]) && forall j :: 0 <= j < |name| ==> isPart(name[j])
  }

  /** `isSimpleName(name)`: check the first code point, then scan all of them, returning at the first failure. */
  method IsSimpleName(isStart: int -> bool, isPart: int -> bool, name: seq<int>) returns (simple: bool)
    requires name != []
    ensures simple == Simple(isStart, isPart, name)
  {
    if !isStart(name[0]) {
      return false;
    }
    var i := 0;
    while i < |name|
      invariant 0 <= i <= |name|
      invariant forall j :: 0 <= j < i ==> isPart(name[j])
    {
      if !isPart(name[i]) {
        return false;
      }
      i := i + 1;
    }
    return true;
  }

  /** The result of `transformName(name)`: `null` and empty names as they are, simple names as they are, others quoted. */
  function Transformed(isStart: int -> bool, isPart: int -> bool, name: seq<int>): (r: seq<int>)
    ensures name == [] || Simple(isStart, isPart, name) ==> r == name
    ensures name != [] && !Simple(isStart, isPart, name) ==>
              |r| == |name| + 2 && r[0] == Apostrophe && r[|r| - 1] == Apostrophe && r[1..|r| - 1] == name
  {
    if name == [] then name
    else if Simple(isStart, isPart, name) then name
    else [Apostrophe] + name + [Apostrophe]
  }

  /** `transformName(name)`, with `null` passed through. */
  method TransformName(isStart: int -> bool, isPart: int -> bool, name: Option<seq<int>>) returns (r: Option<seq<int>>)
    ensures name.None? ==> r.None?
    ensures name.Some? ==> r == Some(Transformed(isStart, isPart, name.value))
  {
    if name.None? || name.value == [] {
      return name;
    }
    var simple := IsSimpleName(isStart, isPart, name.value);
    if simple {
      return name;
    }
    return Some([Apostrophe] + name.value + [Apostrophe]);
  }

  /** The result is the name itself or the name in single quotes; nothing else. */
  lemma NameOrQuoted(isStart: int -> bool, isPart: int -> bool, name: seq<int>)
    ensures var r := Transformed(isStart, isPart, name);
            r == name || r == [Apostrophe] + name + [Apostrophe]
  {
  }

  /** Whether a name is quoted depends only on whether it is simple. */
  lemma QuotedIffNotSimple(isStart: int -> bool, isPart: int -> bool, name: seq<int>)
    requires name != []
    ensures Transformed(isStart, isPart, name) != name <==> !Simple(isStart, isPart, name)
  {
    if !Simple(isStart, isPart, name) {
      assert |Transformed(isStart, isPart, name)| != |name|;
    }
  }

  /**
   * Quoting is not idempotent: as `'` cannot start an identifier, a quoted
   * name is quoted again. This is why each element is renamed at most once.
   */
  lemma QuotingTwiceQuotesTwice(isStart: int -> bool, isPart: int -> bool, name: seq<int>)
    requires !isStart(Apostrophe)
    requires name != [] && !Simple(isStart, isPart, name)
    ensures Transformed(isStart, isPart, Transformed(isStart, isPart, name))
            == [Apostrophe, Apostrophe] + name + [Apostrophe, Apostrophe]
  {
    var once := Transformed(isStart, isPart, name);
    assert once[0] == Apostrophe;
    assert !Simple(isStart, isPart, once);
  }

  /** `a 🐎 bc`, whose spaces cannot be part of an identifier, is quoted, the horse being one code point. */
  lemma TransformNameExample(isStart: int -> bool, isPart: int -> bool)
    requires !isPart(32)
    ensures Transformed(isStart, isPart, [97, 32, 0x1F40E, 32, 98, 99])
            == [39, 97, 32, 0x1F40E, 32, 98, 99, 39]
  {
    var name := [97, 32, 0x1F40E, 32, 98, 99];
    assert name[1] in name;
  }
}
