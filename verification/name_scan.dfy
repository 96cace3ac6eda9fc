/**
 * What NameTransformer's text scanner produces, written as functions: each
 * scanner routine starts at an index of the text (a sequence of code points),
 * produces some output and stops at a later index. The routines of the class
 * (module NameRewriter) are proved to produce exactly this.
 *
 * The scanner copies the text, except that identifiers outside string
 * literals and context values are checked against the keyword table and the
 * names in scope: a keyword is copied, a name is replaced by `transformName`
 * of it. Context keys are trimmed and transformed; an entry separator `,` of a
 * context becomes `", "`.
 */
module NameScan {
  import opened Wrappers

  const Quote: int := 34
  const Comma: int := 44
  const Colon: int := 58
  const LeftBracket: int := 91
  const RightBracket: int := 93
  const LeftBrace: int := 123
  const RightBrace: int := 125
  const Space: int := 32

  /**
   * What the scanner takes from outside: the keyword table in iteration order,
   * the names in scope in `orderedNames()` order, the name-character tests and
   * `transformName`.
   */
  datatype Env = Env(keywords: seq<seq<int>>, names: seq<seq<int>>,
                     isNameStart: int -> bool, isNamePart: int -> bool,
                     transform: seq<int> -> seq<int>)
  {
    /** Every keyword and every name is at least one code point long. */
    predicate Valid()
    {
      (forall k <- keywords :: k != []) && (forall n <- names :: n != [])
    }
  }

  /** The output of one routine and the index it stops at. */
  datatype Step = Step(out: seq<int>, next: nat)

  /** `text.startsWith(p, i)`. */
  predicate StartsWith(t: seq<int>, i: nat, p: seq<int>)
  {
    i + |p| <= |t| && t[i..i + |p|] == p
  }

  /** The index of the first of `candidates[from..]` that `t` has at `i`, or -1. */
  function FirstMatch(candidates: seq<seq<int>>, t: seq<int>, i: nat, from: nat): (k: int)
    requires from <= |candidates|
    ensures k == -1 || from <= k < |candidates|
    ensures k >= 0 ==> StartsWith(t, i, candidates[k])
    ensures forall m :: from <= m < |candidates| && (k < 0 || m < k) ==> !StartsWith(t, i, candidates[m])
    decreases |candidates| - from
  {
    if from == |candidates| then -1
    else if StartsWith(t, i, candidates[from]) then from
    else FirstMatch(candidates, t, i, from + 1)
  }

  /** The first index from `j` on that holds a `"`, or the end. */
  function ClosingQuote(t: seq<int>, j: nat): (k: nat)
    requires j <= |t|
    ensures j <= k <= |t| && (k < |t| ==> t[k] == Quote)
    ensures forall m :: j <= m < k ==> t[m] != Quote
    decreases |t| - j
  {
    if j == |t| || t[j] == Quote then j else ClosingQuote(t, j + 1)
  }

  /** The first index from `j` on whose code point is not a name part, or the end. */
  function RunEnd(isNamePart: int -> bool, t: seq<int>, j: nat): (k: nat)
    requires j <= |t|
    ensures j <= k <= |t| && (k < |t| ==> !isNamePart(t[k]))
    ensures forall m :: j <= m < k ==> isNamePart(t[m])
    decreases |t| - j
  {
    if j == |t| || !isNamePart(t[j]) then j else RunEnd(isNamePart, t, j + 1)
  }

  /** The first index from `j` on that holds `:` or `}`, or the end: where a context key stops. */
  function KeyEnd(t: seq<int>, j: nat): (k: nat)
    requires j <= |t|
    ensures j <= k <= |t| && (k < |t| ==> t[k] == Colon || t[k] == RightBrace)
    ensures forall m :: j <= m < k ==> t[m] != Colon && t[m] != RightBrace
    decreases |t| - j
  {
    if j == |t| || t[j] == Colon || t[j] == RightBrace then j else KeyEnd(t, j + 1)
  }

  /**
   * `r` is `s[a..b]`, and everything of `s` outside `a..b` is a code point up
   * to and including the space.
   */
  predicate StrippedAt(s: seq<int>, r: seq<int>, a: int, b: int)
  {
    && 0 <= a <= b <= |s| && r == s[a..b]
    && (forall k :: 0 <= k < a ==> s[k] <= Space)
    && (forall k :: b <= k < |s| ==> s[k] <= Space)
  }

  /**
   * `String.trim`: the part of `s` left after dropping the leading and the
   * trailing code points up to and including the space.
   */
  function Trim(s: seq<int>): (r: seq<int>)
    ensures exists a, b :: StrippedAt(s, r, a, b)
    ensures r != [] ==> r[0] > Space && r[|r| - 1] > Space
    ensures s != [] && s[0] > Space && s[|s| - 1] > Space ==> r == s
  {
    TrimStripped(s);
    TrimEnd(TrimStart(s))
  }

  /** Trimming the start and then the end strips exactly the code points outside the kept infix. */
  lemma TrimStripped(s: seq<int>)
    ensures StrippedAt(s, TrimEnd(TrimStart(s)), |s| - |TrimStart(s)|,
                       |s| - |TrimStart(s)| + |TrimEnd(TrimStart(s))|)
  {
    TrimStartIsSuffix(s);
    TrimEndIsPrefix(TrimStart(s));
    StrippedBothEnds(s, TrimStart(s), TrimEnd(TrimStart(s)));
  }

  /** A suffix stripped of its start and then a prefix of it stripped of its end leave an infix stripped at both ends. */
  lemma StrippedBothEnds(s: seq<int>, t: seq<int>, r: seq<int>)
    requires |t| <= |s| && t == s[|s| - |t|..] && forall k :: 0 <= k < |s| - |t| ==> s[k] <= Space
    requires |r| <= |t| && r == t[..|r|] && forall k :: |r| <= k < |t| ==> t[k] <= Space
    ensures StrippedAt(s, r, |s| - |t|, |s| - |t| + |r|)
  {
    var a := |s| - |t|;
    forall k | a + |r| <= k < |s|
      ensures s[k] <= Space
    {
      assert s[k] == t[k - a];
    }
  }

  /** The leading code points up to and including the space dropped. */
  function TrimStart(s: seq<int>): (r: seq<int>)
    ensures |r| <= |s| && (r != [] ==> r[0] > Space && r[|r| - 1] == s[|s| - 1])
    ensures s != [] && s[0] > Space ==> r == s
  {
    if s != [] && s[0] <= Space then TrimStart(s[1..]) else s
  }

  /** The trailing code points up to and including the space dropped. */
  function TrimEnd(s: seq<int>): (r: seq<int>)
    ensures |r| <= |s| && (r != [] ==> r[|r| - 1] > Space && r[0] == s[0])
    ensures s != [] && s[|s| - 1] > Space ==> r == s
  {
    if s != [] && s[|s| - 1] <= Space then TrimEnd(s[..|s| - 1]) else s
  }

  /** `TrimStart` keeps a suffix and drops only code points up to the space. */
  lemma {:induction false} TrimStartIsSuffix(s: seq<int>)
    ensures TrimStart(s) == s[|s| - |TrimStart(s)|..]
    ensures forall k :: 0 <= k < |s| - |TrimStart(s)| ==> s[k] <= Space
  {
    if s != [] && s[0] <= Space {
      TrimStartIsSuffix(s[1..]);
    }
  }

  /** `TrimEnd` keeps a prefix and drops only code points up to the space. */
  lemma {:induction false} TrimEndIsPrefix(s: seq<int>)
    ensures TrimEnd(s) == s[..|TrimEnd(s)|]
    ensures forall k :: |TrimEnd(s)| <= k < |s| ==> s[k] <= Space
  {
    if s != [] && s[|s| - 1] <= Space {
      TrimEndIsPrefix(s[..|s| - 1]);
    }
  }

  /**
   * The output for a trimmed context key: nothing for an empty key, a key
   * wrapped in `"` transformed inside and re-wrapped, any other key transformed.
   */
  function KeyOutput(transform: seq<int> -> seq<int>, key: seq<int>): (r: seq<int>)
    ensures key == [] ==> r == []
    ensures |key| >= 2 && key[0] == Quote && key[|key| - 1] == Quote ==>
              r == [Quote] + transform(key[1..|key| - 1]) + [Quote]
    ensures key != [] && !(|key| >= 2 && key[0] == Quote && key[|key| - 1] == Quote) ==>
              r == transform(key)
  {
    if key == [] then []
    else if |key| >= 2 && key[0] == Quote && key[|key| - 1] == Quote then
      [Quote] + transform(key[1..|key| - 1]) + [Quote]
    else transform(key)
  }

  /**
   * The quoted-key branch as the source has it: the guard only asks that the
   * key start and end with `"`, so a key that is one `"` reaches
   * `substring(1, 0)`, which throws (`None` here).
   */
  function KeyOutputAsWritten(transform: seq<int> -> seq<int>, key: seq<int>): (r: Option<seq<int>>)
    ensures r.None? <==> key == [Quote]
    ensures r.Some? ==> r.value == KeyOutput(transform, key)
  {
    if key == [] then Some([])
    else if key[0] == Quote && key[|key| - 1] == Quote then
      if 1 <= |key| - 1 then Some([Quote] + transform(key[1..|key| - 1]) + [Quote]) else None
    else Some(transform(key))
  }

  /** `appendStrings`: a string literal, copied verbatim through its closing `"` or to the end of the text. */
  function StringSpan(t: seq<int>, i: nat): (s: Step)
    requires i < |t|
    ensures i < s.next <= |t| && s.out == t[i..s.next]
    ensures forall m :: i < m < s.next - 1 ==> t[m] != Quote
    ensures s.next < |t| ==> i + 1 < s.next && t[s.next - 1] == Quote
  {
    var k := ClosingQuote(t, i + 1);
    var next := if k < |t| then k + 1 else |t|;
    Step(t[i..next], next)
  }

  /**
   * `replaceIdentifiers`: at a name start, the first keyword the text starts
   * with is copied; failing that, the first name in scope it starts with is
   * replaced by its transform; failing both, the code point and the name-part
   * code points after it are copied.
   */
  function IdentifierSpan(env: Env, t: seq<int>, i: nat): (s: Step)
    requires env.Valid() && i < |t|
    ensures i < s.next <= |t|
    ensures var k := FirstMatch(env.keywords, t, i, 0);
            k >= 0 ==> s == Step(env.keywords[k], i + |env.keywords[k]|)
    ensures var k, n := FirstMatch(env.keywords, t, i, 0), FirstMatch(env.names, t, i, 0);
            k < 0 && n >= 0 ==> s == Step(env.transform(env.names[n]), i + |env.names[n]|)
    ensures var k, n := FirstMatch(env.keywords, t, i, 0), FirstMatch(env.names, t, i, 0);
            k < 0 && n < 0 ==> s.out == t[i..s.next] && s.next == RunEnd(env.isNamePart, t, i + 1)
  {
    var k := FirstMatch(env.keywords, t, i, 0);
    if k >= 0 then
      assert env.keywords[k] in env.keywords;
      Step(env.keywords[k], i + |env.keywords[k]|)
    else
      var n := FirstMatch(env.names, t, i, 0);
      if n >= 0 then
        assert env.names[n] in env.names;
        Step(env.transform(env.names[n]), i + |env.names[n]|)
      else
        var j := RunEnd(env.isNamePart, t, i + 1);
        Step(t[i..j], j)
  }

  /**
   * One pass of the loop of `replaceNamesInText` (and of `replaceNamesInList`
   * before its `]` test): a string, a context, a list, an identifier, or one
   * code point copied.
   */
  function TokenSpan(env: Env, t: seq<int>, i: nat): (s: Step)
    requires env.Valid() && i < |t|
    ensures i < s.next <= |t|
    ensures t[i] != Quote && t[i] != LeftBrace && t[i] != LeftBracket && !env.isNameStart(t[i]) ==>
              s == Step([t[i]], i + 1)
    ensures t[i] == Quote ==> s.out == t[i..s.next]
    decreases |t| - i, 1
  {
    if t[i] == Quote then StringSpan(t, i)
    else if t[i] == LeftBrace then ContextSpan(env, t, i)
    else if t[i] == LeftBracket then ListSpan(env, t, i)
    else if env.isNameStart(t[i]) then IdentifierSpan(env, t, i)
    else Step([t[i]], i + 1)
  }

  /** `replaceContextKeys`: the `{`, then the entries and the closing `}`. */
  function ContextSpan(env: Env, t: seq<int>, i: nat): (s: Step)
    requires env.Valid() && i < |t|
    ensures i < s.next <= |t|
    decreases |t| - i, 0
  {
    var e := EntriesFrom(env, t, i + 1);
    Step([t[i]] + e.out, e.next)
  }

  /**
   * The entry loop of `replaceContextKeys` from index `j`, with the closing
   * `}`: entries one after another until a `}` or the end of the text.
   */
  function EntriesFrom(env: Env, t: seq<int>, j: nat): (s: Step)
    requires env.Valid() && j <= |t|
    ensures j <= s.next <= |t|
    decreases |t| - j, 4
  {
    if j == |t| then Step([], j)
    else if t[j] == RightBrace then Step([RightBrace], j + 1)
    else
      var e := Entry(env, t, j);
      var rest := EntriesFrom(env, t, e.next);
      Step(e.out + rest.out, rest.next)
  }

  /**
   * One pass of the entry loop: a key up to `:` or `}`, trimmed and
   * transformed, then the rest of the entry. It always consumes at least one
   * code point.
   */
  function Entry(env: Env, t: seq<int>, j: nat): (s: Step)
    requires env.Valid() && j < |t| && t[j] != RightBrace
    ensures j < s.next <= |t|
    decreases |t| - j, 3
  {
    var ke := KeyEnd(t, j);
    var tail := EntryTail(env, t, ke);
    Step(KeyOutput(env.transform, Trim(t[j..ke])) + tail.out, tail.next)
  }

  /**
   * The rest of an entry from the end `ke` of its key: an optional `:`, a
   * value, and an optional `,` written as `", "`.
   */
  function EntryTail(env: Env, t: seq<int>, ke: nat): (s: Step)
    requires env.Valid() && ke <= |t|
    ensures ke <= s.next <= |t|
    ensures ke < |t| && t[ke] == Colon ==> ke < s.next
    decreases |t| - ke, 2
  {
    var colon := ke < |t| && t[ke] == Colon;
    var k := if colon then ke + 1 else ke;
    var v := ValueFrom(env, t, k);
    var comma := v.next < |t| && t[v.next] == Comma;
    Step((if colon then [Colon] else []) + v.out + (if comma then [Comma, Space] else []),
         if comma then v.next + 1 else v.next)
  }

  /**
   * The value loop of `replaceContextKeys` from index `k`, up to a `,` or `}`:
   * strings, contexts and lists are handled, every other code point is copied.
   */
  function ValueFrom(env: Env, t: seq<int>, k: nat): (s: Step)
    requires env.Valid() && k <= |t|
    ensures k <= s.next <= |t|
    ensures s.next < |t| ==> t[s.next] == Comma || t[s.next] == RightBrace
    decreases |t| - k, 1
  {
    if k == |t| || t[k] == Comma || t[k] == RightBrace then Step([], k)
    else
      var s := if t[k] == Quote then StringSpan(t, k)
               else if t[k] == LeftBrace then ContextSpan(env, t, k)
               else if t[k] == LeftBracket then ListSpan(env, t, k)
               else Step([t[k]], k + 1);
      var rest := ValueFrom(env, t, s.next);
      Step(s.out + rest.out, rest.next)
  }

  /** `replaceNamesInList`: the `[`, then the items up to and including the closing `]`. */
  function ListSpan(env: Env, t: seq<int>, i: nat): (s: Step)
    requires env.Valid() && i < |t|
    ensures i < s.next <= |t|
    decreases |t| - i, 0
  {
    var l := ListFrom(env, t, i + 1);
    Step([t[i]] + l.out, l.next)
  }

  /** The loop of `replaceNamesInList` from index `j`: tokens until a `]`, which ends the list. */
  function ListFrom(env: Env, t: seq<int>, j: nat): (s: Step)
    requires env.Valid() && j <= |t|
    ensures j <= s.next <= |t|
    decreases |t| - j, 2
  {
    if j == |t| then Step([], j)
    else if t[j] == RightBracket then Step([RightBracket], j + 1)
    else
      var s := TokenSpan(env, t, j);
      var rest := ListFrom(env, t, s.next);
      Step(s.out + rest.out, rest.next)
  }

  /** The loop of `replaceNamesInText` from index `i`: tokens to the end of the text. */
  function TextFrom(env: Env, t: seq<int>, i: nat): (s: Step)
    requires env.Valid() && i <= |t|
    ensures s.next == |t|
    decreases |t| - i
  {
    if i == |t| then Step([], i)
    else
      var s := TokenSpan(env, t, i);
      var rest := TextFrom(env, t, s.next);
      Step(s.out + rest.out, rest.next)
  }

  // ---------------------------------------------------------------------------
  // properties
  // ---------------------------------------------------------------------------

  /** A code point the scanner copies as it is, one at a time, wherever it stands. */
  predicate Plain(env: Env, c: int)
  {
    c != Quote && c != LeftBrace && c != LeftBracket && !env.isNameStart(c)
  }

  /** Text without strings, contexts, lists or identifiers comes out unchanged. */
  lemma {:induction false} PlainTextCopied(env: Env, t: seq<int>, i: nat)
    requires env.Valid() && i <= |t|
    requires forall m :: i <= m < |t| ==> Plain(env, t[m])
    ensures TextFrom(env, t, i).out == t[i..]
    decreases |t| - i
  {
    if i < |t| {
      PlainTextCopied(env, t, i + 1);
      assert t[i..] == [t[i]] + t[i + 1..];
    }
  }

  /** A code point a context value copies as it is: anything but a string, context or list opener and the entry delimiters. */
  predicate PlainInValue(c: int)
  {
    c != Quote && c != LeftBrace && c != LeftBracket && c != Comma && c != RightBrace
  }

  /** A context value without strings, contexts or lists is copied verbatim, identifiers and names in scope included. */
  lemma {:induction false} ValueCopied(env: Env, t: seq<int>, k: nat, e: nat)
    requires env.Valid() && k <= e <= |t|
    requires forall m :: k <= m < e ==> PlainInValue(t[m])
    requires e < |t| ==> t[e] == Comma || t[e] == RightBrace
    ensures ValueFrom(env, t, k) == Step(t[k..e], e)
    decreases e - k
  {
    if k < e {
      ValueCopied(env, t, k + 1, e);
      assert t[k..e] == [t[k]] + t[k + 1..e];
    }
  }

  /** An entry `key: value` whose value is plain text ending at a `,` or `}`. */
  lemma PlainEntry(env: Env, t: seq<int>, j: nat, ke: nat, ve: nat)
    requires env.Valid() && j <= ke < ve < |t|
    requires forall m :: j <= m < ke ==> t[m] != Colon && t[m] != RightBrace
    requires t[ke] == Colon
    requires forall m :: ke < m < ve ==> PlainInValue(t[m])
    requires t[ve] == Comma || t[ve] == RightBrace
    ensures KeyEnd(t, j) == ke
    ensures EntryTail(env, t, ke)
            == Step([Colon] + t[ke + 1..ve] + (if t[ve] == Comma then [Comma, Space] else []),
                    if t[ve] == Comma then ve + 1 else ve)
  {
    assert KeyEnd(t, j) == ke;
    ValueCopied(env, t, ke + 1, ve);
  }

  /**
   * A context entry `key: value,` comes out as the transformed, trimmed key,
   * the `:`, the value as it is and `", "`, followed by the remaining entries.
   */
  lemma ContextEntry(env: Env, t: seq<int>, j: nat, ke: nat, ve: nat)
    requires env.Valid() && j <= ke < ve < |t|
    requires forall m :: j <= m < ke ==> t[m] != Colon && t[m] != RightBrace
    requires t[ke] == Colon
    requires forall m :: ke < m < ve ==> PlainInValue(t[m])
    requires t[ve] == Comma
    ensures EntriesFrom(env, t, j)
            == Step(KeyOutput(env.transform, Trim(t[j..ke])) + [Colon] + t[ke + 1..ve] + [Comma, Space]
                    + EntriesFrom(env, t, ve + 1).out,
                    EntriesFrom(env, t, ve + 1).next)
  {
    PlainEntry(env, t, j, ke, ve);
    var key := KeyOutput(env.transform, Trim(t[j..ke]));
    var tail := [Colon] + t[ke + 1..ve] + [Comma, Space];
    assert Entry(env, t, j) == Step(key + tail, ve + 1);
    assert key + tail == key + [Colon] + t[ke + 1..ve] + [Comma, Space];
  }

  /** The last context entry `key: value}` comes out as the transformed key, the `:`, the value and the `}`. */
  lemma LastContextEntry(env: Env, t: seq<int>, j: nat, ke: nat, ve: nat)
    requires env.Valid() && j <= ke < ve < |t|
    requires forall m :: j <= m < ke ==> t[m] != Colon && t[m] != RightBrace
    requires t[ke] == Colon
    requires forall m :: ke < m < ve ==> PlainInValue(t[m])
    requires t[ve] == RightBrace
    ensures EntriesFrom(env, t, j)
            == Step(KeyOutput(env.transform, Trim(t[j..ke])) + [Colon] + t[ke + 1..ve] + [RightBrace], ve + 1)
  {
    PlainEntry(env, t, j, ke, ve);
    var key := KeyOutput(env.transform, Trim(t[j..ke]));
    var tail := [Colon] + t[ke + 1..ve] + [];
    assert Entry(env, t, j) == Step(key + tail, ve);
    assert EntriesFrom(env, t, ve) == Step([RightBrace], ve + 1);
    assert key + tail + [RightBrace] == key + [Colon] + t[ke + 1..ve] + [RightBrace];
  }

  /** A name inside a string literal is never replaced: the literal is copied through its closing quote. */
  lemma StringLiteralCopied(env: Env, t: seq<int>, i: nat)
    requires env.Valid() && i < |t| && t[i] == Quote
    ensures TokenSpan(env, t, i).out == t[i..TokenSpan(env, t, i).next]
    ensures var n := TokenSpan(env, t, i).next;
            n == |t| || (t[n - 1] == Quote && forall m :: i < m < n - 1 ==> t[m] != Quote)
  {
  }

  /** A text with a context key of one `"` (as in `{": 1}`) throws in the source; the corrected key output transforms it like any other key. */
  lemma LoneQuoteKey(transform: seq<int> -> seq<int>)
    ensures KeyOutputAsWritten(transform, Trim([Quote])).None?
    ensures KeyOutput(transform, Trim([Quote])) == transform([Quote])
  {
    assert Trim([Quote]) == [Quote];
  }
}
