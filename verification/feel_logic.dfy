/**
 * The three-valued Boolean functions of the FEEL standard library: `all`/`and`
 * and `any`/`or`, identical in the three profile classes.
 *
 * An element of the argument list is `Some(true)` when it is `Boolean.TRUE`,
 * `Some(false)` when it is `Boolean.FALSE`, and `None` for anything else
 * (`null`, a non-Boolean). The result `None` is Java's `null` (unknown).
 */
module FeelLogic {
  import opened Wrappers

  /** Kleene conjunction: false dominates, unknown beats true. */
  function KleeneAnd(a: Option<bool>, b: Option<bool>): Option<bool>
  {
    if a == Some(false) || b == Some(false) then Some(false)
    else if a == Some(true) && b == Some(true) then Some(true)
    else None
  }

  /** Kleene disjunction: true dominates, unknown beats false. */
  function KleeneOr(a: Option<bool>, b: Option<bool>): Option<bool>
  {
    if a == Some(true) || b == Some(true) then Some(true)
    else if a == Some(false) && b == Some(false) then Some(false)
    else None
  }

  /** Kleene negation. */
  function KleeneNot(a: Option<bool>): Option<bool>
  {
    if a.Some? then Some(!a.value) else None
  }

  /** The conjunction of `s` as a fold of `KleeneAnd`, starting from true. */
  function FoldAnd(s: seq<Option<bool>>): Option<bool>
  {
    if s == [] then Some(true) else KleeneAnd(s[0], FoldAnd(s[1..]))
  }

  /** The disjunction of `s` as a fold of `KleeneOr`, starting from false. */
  function FoldOr(s: seq<Option<bool>>): Option<bool>
  {
    if s == [] then Some(false) else KleeneOr(s[0], FoldOr(s[1..]))
  }

  /** Every element negated. */
  function NotAll(s: seq<Option<bool>>): (r: seq<Option<bool>>)
    ensures |r| == |s| && forall i :: 0 <= i < |s| ==> r[i] == KleeneNot(s[i])
  {
    if s == [] then [] else [KleeneNot(s[0])] + NotAll(s[1..])
  }

  /**
   * `all(list)` (and its alias `and(list)`): `null` for a `null` list, false if
   * some element is FALSE, true if every element is TRUE (so true for the
   * empty list), `null` otherwise.
   */
  function All(list: Option<seq<Option<bool>>>): (r: Option<bool>)
    ensures list.None? ==> r.None?
    ensures list.Some? ==> (r == Some(false) <==> Some(false) in list.value)
    ensures list.Some? ==> (r == Some(true) <==> forall b <- list.value :: b == Some(true))
  {
    if list.None? then None
    else if Some(false) in list.value then Some(false)
    else if forall b <- list.value :: b == Some(true) then Some(true)
    else None
  }

  /**
   * `any(list)` (and its alias `or(list)`): `null` for a `null` list, true if
   * some element is TRUE, false if every element is FALSE (so false for the
   * empty list), `null` otherwise.
   */
  function Any(list: Option<seq<Option<bool>>>): (r: Option<bool>)
    ensures list.None? ==> r.None?
    ensures list.Some? ==> (r == Some(true) <==> Some(true) in list.value)
    ensures list.Some? ==> (r == Some(false) <==> forall b <- list.value :: b == Some(false))
  {
    if list.None? then None
    else if Some(true) in list.value then Some(true)
    else if forall b <- list.value :: b == Some(false) then Some(false)
    else None
  }

  /** `all(args...)`/`and(args...)`: as `all(list)`, except that no arguments give `null`. */
  function AllArgs(args: Option<seq<Option<bool>>>): (r: Option<bool>)
    ensures args.None? || args.value == [] ==> r.None?
    ensures args.Some? && args.value != [] ==> r == All(args)
  {
    if args.None? || |args.value| < 1 then None else All(args)
  }

  /** `any(args...)`/`or(args...)`: as `any(list)`, except that no arguments give `null`. */
  function AnyArgs(args: Option<seq<Option<bool>>>): (r: Option<bool>)
    ensures args.None? || args.value == [] ==> r.None?
    ensures args.Some? && args.value != [] ==> r == Any(args)
  {
    if args.None? || |args.value| < 1 then None else Any(args)
  }

  /** `all` over a list is the Kleene conjunction of its elements. */
  lemma {:induction false} AllIsKleeneConjunction(s: seq<Option<bool>>)
    ensures All(Some(s)) == FoldAnd(s)
  {
    if s != [] {
      AllIsKleeneConjunction(s[1..]);
      assert s == [s[0]] + s[1..];
      assert (Some(false) in s) == (s[0] == Some(false) || Some(false) in s[1..]);
      EveryOfCons(s, Some(true));
    }
  }

  /** `any` over a list is the Kleene disjunction of its elements. */
  lemma {:induction false} AnyIsKleeneDisjunction(s: seq<Option<bool>>)
    ensures Any(Some(s)) == FoldOr(s)
  {
    if s != [] {
      AnyIsKleeneDisjunction(s[1..]);
      assert s == [s[0]] + s[1..];
      assert (Some(true) in s) == (s[0] == Some(true) || Some(true) in s[1..]);
      EveryOfCons(s, Some(false));
    }
  }

  /** Every element of a non-empty list is `v` exactly when its head and every element of its tail are. */
  lemma EveryOfCons(s: seq<Option<bool>>, v: Option<bool>)
    requires s != []
    ensures (forall b <- s :: b == v) <==> (s[0] == v && forall b <- s[1..] :: b == v)
  {
    if s[0] == v && forall b <- s[1..] :: b == v {
      forall b <- s ensures b == v {
        var k :| 0 <= k < |s| && s[k] == b;
        if k > 0 {
          assert s[1..][k - 1] == b && s[1..][k - 1] in s[1..];
        }
      }
    }
    if forall b <- s :: b == v {
      assert s[0] in s;
      forall b <- s[1..] ensures b == v {
        var k :| 0 <= k < |s| - 1 && s[1..][k] == b;
        assert s[k + 1] in s;
      }
    }
  }

  /** De Morgan: `any(L)` is the negation of `all` over the negated elements. */
  lemma AnyIsDualOfAll(s: seq<Option<bool>>)
    ensures Any(Some(s)) == KleeneNot(All(Some(NotAll(s))))
  {
    var n := NotAll(s);
    if Some(true) in s {
      var i :| 0 <= i < |s| && s[i] == Some(true);
      assert n[i] == Some(false);
    } else if forall b <- s :: b == Some(false) {
      assert forall b <- n :: b == Some(true) by {
        forall j | 0 <= j < |n| ensures n[j] == Some(true) {
          assert s[j] in s;
        }
      }
    } else {
      var i :| 0 <= i < |s| && s[i] != Some(false);
      assert s[i].None? && s[i] in s;
      assert n[i].None? && n[i] in n;
      assert Some(false) !in n by {
        forall j | 0 <= j < |n| ensures n[j] != Some(false) {
          assert s[j] in s;
        }
      }
    }
  }

  /** A list of TRUE and at least one `null` is unknown; one FALSE decides the result. */
  lemma AllUnknownAndFalse(s: seq<Option<bool>>)
    ensures (forall b <- s :: b != Some(false)) && None in s ==> All(Some(s)).None?
    ensures Some(false) in s ==> All(Some(s)) == Some(false)
  {
  }

  /** The list and the variadic forms differ exactly on the empty argument list. */
  lemma EmptyArguments()
    ensures All(Some([])) == Some(true) && AllArgs(Some([])).None?
    ensures Any(Some([])) == Some(false) && AnyArgs(Some([])).None?
  {
  }
}
