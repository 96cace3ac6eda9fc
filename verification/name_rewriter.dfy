/**
 * NameTransformer's text rewriting and element renaming, as the class does it:
 * each scanner routine appends to a shared `StringBuilder` and returns the
 * index it stopped at. Each routine is proved to produce what the matching
 * function of module NameScan describes.
 *
 * Texts are sequences of code points, so `codePointAt(text, index)` is
 * `text[index]` and `nextIndex` moves one element on.
 */
module NameRewriter {
  import opened Wrappers
  import opened NameScan
  import QuotedNames

  /** A Java `StringBuilder`, holding code points. */
  class CodePointBuilder {
    var chars: seq<int>

    constructor ()
      ensures chars == []
    {
      chars := [];
    }

    /** `appendCodePoint(c)` */
    method AppendCodePoint(c: int)
      modifies this
      ensures chars == old(chars) + [c]
    {
      chars := chars + [c];
    }

    /** `append(s)` */
    method Append(s: seq<int>)
      modifies this
      ensures chars == old(chars) + s
    {
      chars := chars + s;
    }
  }

  /** The names in scope while a text is rewritten; the order `orderedNames()` gives them in is a parameter. */
  class LexicalContext {
    var names: seq<seq<int>>
    const order: seq<seq<int>> -> seq<seq<int>>

    constructor (names: seq<seq<int>>, order: seq<seq<int>> -> seq<seq<int>>)
      ensures this.names == names && this.order == order
    {
      this.names := names;
      this.order := order;
    }

    /** `orderedNames()` */
    function OrderedNames(): seq<seq<int>>
      reads this
    {
      order(names)
    }

    /** `addName(name)` */
    method AddName(name: seq<int>)
      modifies this
      ensures names == old(names) + [name]
    {
      names := names + [name];
    }
  }

  /** A DMN element whose `name` field the transformer rewrites. */
  class NamedElement {
    var name: Option<seq<int>>

    constructor (name: Option<seq<int>>)
      ensures this.name == name
    {
      this.name := name;
    }
  }

  /** A literal expression or unary test: a DMN element holding FEEL text. */
  class TextElement {
    var text: Option<seq<int>>

    constructor (text: Option<seq<int>>)
      ensures this.text == text
    {
      this.text := text;
    }
  }

  /** The code points of a text. */
  function CodePoints(s: string): (r: seq<int>)
    ensures |r| == |s| && forall i :: 0 <= i < |s| ==> r[i] == s[i] as int
  {
    seq(|s|, i requires 0 <= i < |s| => s[i] as int)
  }

  /** The names every rewritten text may use: the named parameters of `number` and `substring`. */
  function BuiltinNames(): (r: seq<seq<int>>)
    ensures |r| == 3 && forall n <- r :: n != []
  {
    [CodePoints("grouping separator"), CodePoints("decimal separator"), CodePoints("start position")]
  }

  /** Appending in two steps is appending the two parts at once. */
  lemma Associative(a: seq<int>, b: seq<int>, c: seq<int>)
    ensures (a + b) + c == a + (b + c)
  {
  }

  /** No name is empty. */
  predicate NamesNonEmpty(names: seq<seq<int>>)
  {
    forall n <- names :: n != []
  }

  /** `nextIndex(text, index)`: the index of the next code point. */
  function NextIndex(text: seq<int>, index: nat): (r: nat)
    requires index < |text|
    ensures index < r <= |text|
  {
    index + 1
  }

  /**
   * The transformer. `transformName` is the subclass's and is a parameter,
   * as are the keyword table and the name-character tests of the FEEL lexer.
   */
  class NameTransformer {
    const keywords: seq<seq<int>>
    const isNameStart: int -> bool
    const isNamePart: int -> bool
    const transform: seq<int> -> seq<int>
    var renamedElements: set<NamedElement>

    constructor (keywords: seq<seq<int>>, isNameStart: int -> bool, isNamePart: int -> bool,
                 transform: seq<int> -> seq<int>)
      ensures this.keywords == keywords && this.isNameStart == isNameStart
      ensures this.isNamePart == isNamePart && this.transform == transform
      ensures renamedElements == {}
    {
      this.keywords := keywords;
      this.isNameStart := isNameStart;
      this.isNamePart := isNamePart;
      this.transform := transform;
      renamedElements := {};
    }

    /** No keyword is empty. */
    predicate Valid()
    {
      forall k <- keywords :: k != []
    }

    /** What the scanner works with, for the names of `ctx`. */
    function EnvOf(ctx: LexicalContext): Env
      reads ctx
    {
      Env(keywords, ctx.OrderedNames(), isNameStart, isNamePart, transform)
    }

    /**
     * `replaceNamesInText(text, lexicalContext)`: adds the built-in names to
     * the context, then rewrites a non-empty text; an empty or `null` text
     * gives the empty text.
     */
    method ReplaceNamesInText(text: Option<seq<int>>, ctx: LexicalContext) returns (r: seq<int>)
      requires Valid() && NamesNonEmpty(ctx.order(ctx.names + BuiltinNames()))
      modifies ctx
      ensures ctx.names == old(ctx.names) + BuiltinNames()
      ensures text.None? || text.value == [] ==> r == []
      ensures text.Some? && text.value != [] ==> r == TextFrom(EnvOf(ctx), text.value, 0).out
    {
      var newText := new CodePointBuilder();
      ctx.AddName(CodePoints("grouping separator"));
      ctx.AddName(CodePoints("decimal separator"));
      ctx.AddName(CodePoints("start position"));
      assert ctx.names == old(ctx.names) + BuiltinNames();
      if text.Some? && |text.value| != 0 {
        var _ := ReplaceNamesInTextFrom(text.value, 0, ctx, newText);
      }
      r := newText.chars;
    }

    /**
     * `replaceNamesInText(literalExpression, lexicalContext)` and its
     * `TUnaryTests` twin: a `null` element is left alone; otherwise its text
     * is replaced by the rewritten text, so a `null` text becomes empty.
     */
    method ReplaceNamesInElement(element: TextElement?, ctx: LexicalContext)
      requires Valid() && NamesNonEmpty(ctx.order(ctx.names + BuiltinNames()))
      modifies element, ctx
      ensures element == null ==> ctx.names == old(ctx.names)
      ensures element != null ==> ctx.names == old(ctx.names) + BuiltinNames()
      ensures element != null && (old(element.text).None? || old(element.text).value == []) ==>
                element.text == Some([])
      ensures element != null && old(element.text).Some? && old(element.text).value != [] ==>
                element.text == Some(TextFrom(EnvOf(ctx), old(element.text).value, 0).out)
    {
      if element == null {
        return;
      }
      var newText := ReplaceNamesInText(element.text, ctx);
      element.text := Some(newText);
    }

    /** The loop of `replaceNamesInText` from `index` to the end of the text. */
    method ReplaceNamesInTextFrom(text: seq<int>, index: nat, ctx: LexicalContext, newText: CodePointBuilder)
      returns (next: nat)
      requires Valid() && NamesNonEmpty(ctx.OrderedNames()) && index <= |text|
      modifies newText
      ensures newText.chars == old(newText.chars) + TextFrom(EnvOf(ctx), text, index).out
      ensures next == |text|
    {
      ghost var env := EnvOf(ctx);
      var i := index;
      while i < |text|
        invariant index <= i <= |text|
        invariant newText.chars + TextFrom(env, text, i).out == old(newText.chars) + TextFrom(env, text, index).out
        decreases |text| - i
      {
        ghost var before, i0 := newText.chars, i;
        ghost var token := TokenSpan(env, text, i);
        var ch := text[i];
        if ch == Quote {
          i := AppendStrings(text, i, newText);
        } else if ch == LeftBrace {
          i := ReplaceContextKeys(text, i, ctx, newText);
        } else if ch == LeftBracket {
          i := ReplaceNamesInList(text, i, ctx, newText);
        } else if isNameStart(ch) {
          i := ReplaceIdentifiers(text, i, ctx, newText, ch);
        } else {
          newText.AppendCodePoint(ch);
          i := NextIndex(text, i);
        }
        assert newText.chars == before + token.out && i == token.next;
        ghost var rest := TextFrom(env, text, i).out;
        assert TextFrom(env, text, i0).out == token.out + rest;
        Associative(before, token.out, rest);
      }
      next := i;
    }

    /** `appendStrings`: copy from the opening `"` through the closing one, or to the end. */
    method AppendStrings(text: seq<int>, index: nat, newText: CodePointBuilder) returns (next: nat)
      requires index < |text|
      modifies newText
      ensures newText.chars == old(newText.chars) + StringSpan(text, index).out
      ensures next == StringSpan(text, index).next
    {
      newText.AppendCodePoint(text[index]);
      var i := NextIndex(text, index);
      while i < |text|
        invariant index < i <= |text|
        invariant newText.chars == old(newText.chars) + text[index..i]
        invariant forall m :: index < m < i ==> text[m] != Quote
        decreases |text| - i
      {
        newText.AppendCodePoint(text[i]);
        if text[i] == Quote {
          i := NextIndex(text, i);
          break;
        } else {
          i := NextIndex(text, i);
        }
      }
      next := i;
    }

    /** `replaceIdentifiers`: a keyword, else a name in scope, else a run of name characters. */
    method ReplaceIdentifiers(text: seq<int>, index: nat, ctx: LexicalContext, newText: CodePointBuilder, ch: int)
      returns (next: nat)
      requires Valid() && NamesNonEmpty(ctx.OrderedNames()) && index < |text| && ch == text[index]
      modifies newText
      ensures newText.chars == old(newText.chars) + IdentifierSpan(EnvOf(ctx), text, index).out
      ensures next == IdentifierSpan(EnvOf(ctx), text, index).next
    {
      ghost var env := EnvOf(ctx);
      var i := index;
      // Check keywords
      var foundKeyword := false;
      var k := 0;
      while k < |keywords|
        invariant 0 <= k <= |keywords|
        invariant forall m :: 0 <= m < k ==> !StartsWith(text, index, keywords[m])
        invariant newText.chars == old(newText.chars) && i == index
      {
        if StartsWith(text, index, keywords[k]) {
          newText.Append(keywords[k]);
          i := i + |keywords[k]|;
          foundKeyword := true;
          assert FirstMatch(keywords, text, index, 0) == k;
          break;
        }
        k := k + 1;
      }
      if !foundKeyword {
        assert FirstMatch(keywords, text, index, 0) == -1;
        // Check names
        var names := ctx.OrderedNames();
        var foundName := false;
        var n := 0;
        while n < |names|
          invariant 0 <= n <= |names|
          invariant forall m :: 0 <= m < n ==> !StartsWith(text, index, names[m])
          invariant newText.chars == old(newText.chars) && i == index
        {
          if StartsWith(text, index, names[n]) {
            newText.Append(transform(names[n]));
            i := i + |names[n]|;
            foundName := true;
            assert FirstMatch(names, text, index, 0) == n;
            break;
          }
          n := n + 1;
        }
        if !foundName {
          assert FirstMatch(names, text, index, 0) == -1;
          var c := ch;
          while true
            invariant index <= i < |text| && c == text[i]
            invariant newText.chars == old(newText.chars) + text[index..i]
            invariant forall m :: index < m <= i ==> isNamePart(text[m])
            decreases |text| - i
          {
            newText.AppendCodePoint(c);
            i := NextIndex(text, i);
            if i < |text| {
              c := text[i];
            } else {
              break;
            }
            if !isNamePart(c) {
              break;
            }
          }
        }
      }
      next := i;
    }

    /** `replaceNamesInList`: the `[`, then tokens until the closing `]`, which is copied too. */
    method ReplaceNamesInList(text: seq<int>, index: nat, ctx: LexicalContext, newText: CodePointBuilder)
      returns (next: nat)
      requires Valid() && NamesNonEmpty(ctx.OrderedNames()) && index < |text|
      modifies newText
      ensures newText.chars == old(newText.chars) + ListSpan(EnvOf(ctx), text, index).out
      ensures next == ListSpan(EnvOf(ctx), text, index).next
      decreases |text| - index, 0
    {
      ghost var env := EnvOf(ctx);
      newText.AppendCodePoint(text[index]);
      var i := NextIndex(text, index);
      while i < |text|
        invariant index < i <= |text|
        invariant newText.chars + ListFrom(env, text, i).out == old(newText.chars) + ListSpan(env, text, index).out
        invariant ListFrom(env, text, i).next == ListSpan(env, text, index).next
        decreases |text| - i
      {
        ghost var before, i0 := newText.chars, i;
        ghost var token := TokenSpan(env, text, i);
        var ch := text[i];
        if ch == RightBracket {
          newText.Append([RightBracket]);
          i := NextIndex(text, i);
          break;
        } else if ch == Quote {
          i := AppendStrings(text, i, newText);
        } else if ch == LeftBrace {
          i := ReplaceContextKeys(text, i, ctx, newText);
        } else if ch == LeftBracket {
          i := ReplaceNamesInList(text, i, ctx, newText);
        } else if isNameStart(ch) {
          i := ReplaceIdentifiers(text, i, ctx, newText, ch);
        } else {
          newText.AppendCodePoint(ch);
          i := NextIndex(text, i);
        }
        assert newText.chars == before + token.out && i == token.next;
        ghost var rest := ListFrom(env, text, i).out;
        assert ListFrom(env, text, i0).out == token.out + rest;
        Associative(before, token.out, rest);
      }
      next := i;
    }

    /**
     * `replaceContextKeys`: the `{`, then entries, each a key (trimmed and
     * transformed), a `:`, a value whose strings, contexts and lists are
     * handled and whose other code points are copied, and a `,` written as
     * `", "`; then the closing `}`.
     */
    method ReplaceContextKeys(text: seq<int>, index: nat, ctx: LexicalContext, newText: CodePointBuilder)
      returns (next: nat)
      requires Valid() && NamesNonEmpty(ctx.OrderedNames()) && index < |text|
      modifies newText
      ensures newText.chars == old(newText.chars) + ContextSpan(EnvOf(ctx), text, index).out
      ensures next == ContextSpan(EnvOf(ctx), text, index).next
      decreases |text| - index, 0
    {
      ghost var env := EnvOf(ctx);
      newText.AppendCodePoint(text[index]);
      var i := NextIndex(text, index);
      Associative(old(newText.chars), [text[index]], EntriesFrom(env, text, i).out);
      while i < |text|
        invariant index < i <= |text|
        invariant newText.chars + EntriesFrom(env, text, i).out == old(newText.chars) + ContextSpan(env, text, index).out
        invariant EntriesFrom(env, text, i).next == ContextSpan(env, text, index).next
        decreases |text| - i
      {
        if text[i] == RightBrace {
          break;
        }
        ghost var before, j := newText.chars, i;
        i := ReplaceEntry(text, i, ctx, newText);
        assert EntriesFrom(env, text, j).out == Entry(env, text, j).out + EntriesFrom(env, text, i).out;
        Associative(before, Entry(env, text, j).out, EntriesFrom(env, text, i).out);
      }
      if i < |text| && text[i] == RightBrace {
        assert EntriesFrom(env, text, i) == Step([RightBrace], i + 1);
        newText.Append([RightBrace]);
        i := NextIndex(text, i);
      } else {
        assert EntriesFrom(env, text, i) == Step([], i);
      }
      next := i;
    }

    /** One pass of the entry loop of `replaceContextKeys`: key, `:`, value and `,` of one entry. */
    method ReplaceEntry(text: seq<int>, index: nat, ctx: LexicalContext, newText: CodePointBuilder)
      returns (next: nat)
      requires Valid() && NamesNonEmpty(ctx.OrderedNames()) && index < |text| && text[index] != RightBrace
      modifies newText
      ensures newText.chars == old(newText.chars) + Entry(EnvOf(ctx), text, index).out
      ensures next == Entry(EnvOf(ctx), text, index).next
      decreases |text| - index, 3
    {
      var keyEnd := ReplaceKey(text, index, newText);
      next := ReplaceEntryTail(text, keyEnd, ctx, newText);
      Associative(old(newText.chars), KeyOutput(transform, Trim(text[index..keyEnd])),
                  EntryTail(EnvOf(ctx), text, keyEnd).out);
    }

    /** The rest of one pass of the entry loop, from the end of the key: `:`, value and `,`. */
    method ReplaceEntryTail(text: seq<int>, keyEnd: nat, ctx: LexicalContext, newText: CodePointBuilder)
      returns (next: nat)
      requires Valid() && NamesNonEmpty(ctx.OrderedNames()) && keyEnd <= |text|
      modifies newText
      ensures newText.chars == old(newText.chars) + EntryTail(EnvOf(ctx), text, keyEnd).out
      ensures next == EntryTail(EnvOf(ctx), text, keyEnd).next
      decreases |text| - keyEnd, 2
    {
      ghost var start := newText.chars;
      var i := keyEnd;
      ghost var colon := i < |text| && text[i] == Colon;
      if i < |text| && text[i] == Colon {
        newText.Append([Colon]);
        i := NextIndex(text, i);
      }
      ghost var produced: seq<int> := if colon then [Colon] else [];
      ghost var k := i;
      i := ReplaceValue(text, i, ctx, newText);
      ghost var value := ValueFrom(EnvOf(ctx), text, k);
      Associative(start, produced, value.out);
      produced := produced + value.out;
      ghost var comma := i < |text| && text[i] == Comma;
      if i < |text| && text[i] == Comma {
        newText.Append([Comma, Space]);
        i := NextIndex(text, i);
      }
      Associative(start, produced, if comma then [Comma, Space] else []);
      produced := produced + (if comma then [Comma, Space] else []);
      next := i;
    }

    /**
     * The key part of the entry loop of `replaceContextKeys`: the code points
     * up to `:` or `}`, trimmed; a non-empty key wrapped in `"` is transformed
     * inside its quotes, any other non-empty key transformed as it is.
     */
    method ReplaceKey(text: seq<int>, index: nat, newText: CodePointBuilder) returns (next: nat)
      requires index < |text| && text[index] != RightBrace
      modifies newText
      ensures next == KeyEnd(text, index)
      ensures newText.chars == old(newText.chars) + KeyOutput(transform, Trim(text[index..next]))
    {
      var i := index;
      var key: seq<int> := [];
      while i < |text| && text[i] != Colon && text[i] != RightBrace
        invariant index <= i <= |text| && key == text[index..i]
        invariant forall m :: index <= m < i ==> text[m] != Colon && text[m] != RightBrace
        decreases |text| - i
      {
        key := key + [text[i]];
        i := NextIndex(text, i);
      }
      var trimmed := Trim(key);
      if |trimmed| != 0 {
        // The source asks only for a leading and a trailing `"`; a key of one `"` would throw there.
        if |trimmed| >= 2 && trimmed[0] == Quote && trimmed[|trimmed| - 1] == Quote {
          newText.Append([Quote] + transform(trimmed[1..|trimmed| - 1]) + [Quote]);
        } else {
          newText.Append(transform(trimmed));
        }
      }
      next := i;
    }

    /**
     * The value part of the entry loop of `replaceContextKeys`: up to a `,` or
     * `}`, strings, contexts and lists are handled and other code points copied.
     */
    method ReplaceValue(text: seq<int>, index: nat, ctx: LexicalContext, newText: CodePointBuilder)
      returns (next: nat)
      requires Valid() && NamesNonEmpty(ctx.OrderedNames()) && index <= |text|
      modifies newText
      ensures newText.chars == old(newText.chars) + ValueFrom(EnvOf(ctx), text, index).out
      ensures next == ValueFrom(EnvOf(ctx), text, index).next
      decreases |text| - index, 1
    {
      ghost var env := EnvOf(ctx);
      var i := index;
      while i < |text| && text[i] != Comma && text[i] != RightBrace
        invariant index <= i <= |text|
        invariant newText.chars + ValueFrom(env, text, i).out == old(newText.chars) + ValueFrom(env, text, index).out
        invariant ValueFrom(env, text, i).next == ValueFrom(env, text, index).next
        decreases |text| - i
      {
        ghost var before, i0 := newText.chars, i;
        ghost var piece: seq<int>;
        if text[i] == Quote {
          i := AppendStrings(text, i, newText);
          piece := StringSpan(text, i0).out;
        } else if text[i] == LeftBrace {
          i := ReplaceContextKeys(text, i, ctx, newText);
          piece := ContextSpan(env, text, i0).out;
        } else if text[i] == LeftBracket {
          i := ReplaceNamesInList(text, i, ctx, newText);
          piece := ListSpan(env, text, i0).out;
        } else {
          newText.AppendCodePoint(text[i]);
          piece := [text[i]];
          i := NextIndex(text, i);
        }
        assert ValueFrom(env, text, i0) == Step(piece + ValueFrom(env, text, i).out, ValueFrom(env, text, i).next);
        Associative(before, piece, ValueFrom(env, text, i).out);
      }
      assert ValueFrom(env, text, i) == Step([], i);
      assert newText.chars + [] == newText.chars;
      next := i;
    }

    /**
     * `renameElement(element)`: a `null` element or one renamed before is left
     * alone; otherwise the element is recorded as renamed and a non-null name
     * is replaced by its transform.
     */
    method RenameElement(element: NamedElement?)
      modifies this, element
      ensures element == null || element in old(renamedElements) ==>
                renamedElements == old(renamedElements) && (element != null ==> element.name == old(element.name))
      ensures element != null && element !in old(renamedElements) ==>
                renamedElements == old(renamedElements) + {element} &&
                element.name == (if old(element.name).Some? then Some(transform(old(element.name).value)) else None)
    {
      if element == null {
        return;
      }
      if element in renamedElements {
        return;
      }
      renamedElements := renamedElements + {element};
      if element.name.Some? {
        element.name := Some(transform(element.name.value));
      }
    }
  }

  /** ToQuotedNameTransformer's `transformName`, for the given identifier tests. */
  function QuotedTransform(isStart: int -> bool, isPart: int -> bool): (f: seq<int> -> seq<int>)
    ensures forall name :: f(name) == QuotedNames.Transformed(isStart, isPart, name)
  {
    name => QuotedNames.Transformed(isStart, isPart, name)
  }

  /** With the name `a b` in scope, the text `a b` becomes `'a b'`: the name is found and quoted. */
  lemma QuotedNameInText(isStart: int -> bool, isPart: int -> bool)
    requires isStart(97) && !isPart(32)
    ensures var env := Env([], [[97, 32, 98]], isStart, isPart, QuotedTransform(isStart, isPart));
            TextFrom(env, [97, 32, 98], 0).out == [39, 97, 32, 98, 39]
  {
    var env := Env([], [[97, 32, 98]], isStart, isPart, QuotedTransform(isStart, isPart));
    var t := [97, 32, 98];
    assert StartsWith(t, 0, env.names[0]);
    assert FirstMatch(env.names, t, 0, 0) == 0;
    assert !QuotedNames.Simple(isStart, isPart, t) by {
      assert !isPart(t[1]);
    }
    assert TokenSpan(env, t, 0) == Step([39, 97, 32, 98, 39], 3);
  }
}
