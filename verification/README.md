# jDMN FEEL library and name transformer, modelled in Dafny

This project models two parts of jDMN, a DMN (Decision Model and Notation)
engine written in Java.

* **The FEEL standard library.** This covers the list functions, the
  three-valued `all`/`any` logic and `number(from, grouping separator,
  decimal separator)`. The library has three profiles: `DefaultFEELLib`,
  `UniformJavaTimeFEELLib` and `DoubleMixedJavaTimeFEELLib`. They share the
  same list and logic code (module `FeelList`, `FeelLogic`, `FeelNumber`).
  They differ in how a numeric position becomes a Java `int`, in the
  zone-offset text that `time(hour, minute, second, offset)` builds, and in
  the empty-input guards of the Double profile's aggregates (modules
  `Profiles` and `OffsetId`).
* **The name transformer.** `NameTransformer` rewrites FEEL text: it finds
  the names in scope and replaces each one with `transformName` of it, and
  it does the same for context keys. It also renames each DMN element at
  most once. `ToQuotedNameTransformer` wraps every name that is not a simple
  Java identifier in single quotes. The scanner is written as functions over
  code-point sequences (module `NameScan`). The Java class's routines are
  imperative methods on a `StringBuilder` model, and each is proved to
  produce exactly what those functions say (module `NameRewriter`). The
  quoting rule is in module `QuotedNames`.

Conventions:

* A Java `null` is `None` of `Option`.
* A Java `List` is a `seq`, and an `ArrayList` that the code changes in place
  is the class `FeelList.MutableList`.
* `BigDecimal` and `Double` values are finite `real`s.
* A Java `int` is the subset type `JavaInt.JInt`.
* Strings the transformer scans are sequences of Unicode code points.
* Code the model cannot see is a parameter: the FEEL keyword table, the
  lexical context's name order, `Character.isJavaIdentifierStart/Part`, the
  numeric parse and the numeric aggregate helpers.

## Model

| member | source | states |
|---|---|---|
| FeelList.IsOutOfBounds | dmn-core/src/main/java/com/gs/dmn/feel/lib/DefaultFEELLib.java:960-967 | a position is in bounds exactly when it is 1..length or -length..-1; 0 is always out of bounds (same code in the other two profiles) |
| FeelList.StartIndex | dmn-core/src/main/java/com/gs/dmn/feel/lib/DefaultFEELLib.java:929-933 | an in-bounds position denotes an index inside the list: `position - 1` from the front, `length + position` from the back |
| FeelList.SublistFrom | dmn-core/src/main/java/com/gs/dmn/feel/lib/DefaultFEELLib.java:921-938 | a `null` list or an out-of-bounds position gives the empty list; otherwise the suffix from position `p` (`l[p-1..]`) or, for a negative `p`, the last `-p` elements |
| FeelList.Sublist | dmn-core/src/main/java/com/gs/dmn/feel/lib/DefaultFEELLib.java:921-938 | the copying loop returns exactly `SublistFrom` |
| FeelList.SublistOfLength | dmn-core/src/main/java/com/gs/dmn/feel/lib/DefaultFEELLib.java:940-958 | empty for a `null` list, a bad position or a length <= 0; otherwise the `length` elements from the start index; an end index that overflows 32 bits gives the empty list |
| FeelList.SublistLength | dmn-core/src/main/java/com/gs/dmn/feel/lib/DefaultFEELLib.java:940-958 | the copying loop, with its 32-bit end index, returns exactly `SublistOfLength` |
| FeelList.SublistLastElement | dmn-core/src/main/java/com/gs/dmn/feel/lib/DefaultFEELLib.java:921-938 | `sublist(L, -1)` is the last element alone |
| FeelList.SublistOfLengthIsPrefix | dmn-core/src/main/java/com/gs/dmn/feel/lib/DefaultFEELLib.java:921-958 | the two arities agree: `sublist(L, p, n)` is the first `n` elements of `sublist(L, p)` |
| FeelList.SublistNegativeMirrorsPositive | dmn-core/src/main/java/com/gs/dmn/feel/lib/DefaultFEELLib.java:921-938 | position `-k` names the same suffix as position `length - k + 1` |
| FeelList.InsertedBefore | dmn-core/src/main/java/com/gs/dmn/feel/lib/DefaultFEELLib.java:985-1001 | an out-of-bounds position gives a plain copy; otherwise `newItem` sits at the denoted index, with the elements before and after it unchanged and the multiset of elements grown by exactly `newItem` |
| FeelList.InsertBeforeFromEnd | dmn-core/src/main/java/com/gs/dmn/feel/lib/DefaultFEELLib.java:985-1001 | `insert before(L, -k, x)` puts `x` right before the k-th element from the end |
| FeelList.Removed | dmn-core/src/main/java/com/gs/dmn/feel/lib/DefaultFEELLib.java:1007-1015 | the copy is one shorter, equal to the input before index `position - 1` and shifted by one after it |
| FeelList.InsertBefore | dmn-core/src/main/java/com/gs/dmn/feel/lib/DefaultFEELLib.java:985-1001 | copying into an `ArrayList` and then inserting in place returns exactly `InsertedBefore` |
| FeelList.Remove | dmn-core/src/main/java/com/gs/dmn/feel/lib/DefaultFEELLib.java:1007-1015 | copying and then deleting in place returns exactly `Removed` |
| FeelList.RemoveUndoesInsertBefore | dmn-core/src/main/java/com/gs/dmn/feel/lib/DefaultFEELLib.java:985-1015 | removing at the position where an item was inserted gives the original list back |
| FeelList.Reversed | dmn-core/src/main/java/com/gs/dmn/feel/lib/DefaultFEELLib.java:1017-1026 | same length, with element `i` taken from position `length - 1 - i` |
| FeelList.ReversedTwice | dmn-core/src/main/java/com/gs/dmn/feel/lib/DefaultFEELLib.java:1017-1026 | reversing twice is the identity |
| FeelList.Reverse | dmn-core/src/main/java/com/gs/dmn/feel/lib/DefaultFEELLib.java:1017-1026 | the backwards loop returns `Reversed` of the list (empty for `null`) |
| FeelList.Positions | dmn-core/src/main/java/com/gs/dmn/feel/lib/DefaultFEELLib.java:1028-1040 | every result is a 1-based position holding the match, the positions ascend, and every occurrence of the match is listed |
| FeelList.IndexOf | dmn-core/src/main/java/com/gs/dmn/feel/lib/DefaultFEELLib.java:1028-1040 | the scanning loop returns exactly `Positions`, `null` matching `null` |
| FeelList.Count | dmn-core/src/main/java/com/gs/dmn/feel/lib/DefaultFEELLib.java:874-877 | the number of elements, 0 for `null` |
| FeelList.ListContains | dmn-core/src/main/java/com/gs/dmn/feel/lib/DefaultFEELLib.java:853-856 | unknown exactly for a `null` list; true exactly when some element equals the one sought |
| FeelList.ListContainsIffIndexOf | dmn-core/src/main/java/com/gs/dmn/feel/lib/DefaultFEELLib.java:853-856 | `list contains` is true exactly when `index of` finds a position |
| FeelList.Append | dmn-core/src/main/java/com/gs/dmn/feel/lib/DefaultFEELLib.java:858-872 | the list (empty for `null`) is a prefix of the result, followed by the items in order; a `null` items array appends one `null` |
| FeelList.ConcatAllAppend | dmn-core/src/main/java/com/gs/dmn/feel/lib/DefaultFEELLib.java:970-979 | joining distributes over splitting the argument lists |
| FeelList.ConcatAllMembers | dmn-core/src/main/java/com/gs/dmn/feel/lib/DefaultFEELLib.java:970-979 | an element is in the joined list exactly when it is in one of the lists |
| FeelList.Concatenate | dmn-core/src/main/java/com/gs/dmn/feel/lib/DefaultFEELLib.java:970-979 | the `addAll` loop returns the lists joined in order, empty for a `null` argument array |
| FeelList.Distinct | dmn-core/src/main/java/com/gs/dmn/feel/lib/DefaultFEELLib.java:1053-1064 | the same set of values as the input, with no duplicates |
| FeelList.DistinctOfDistinctFree | dmn-core/src/main/java/com/gs/dmn/feel/lib/DefaultFEELLib.java:1053-1064 | a list without duplicates is its own distinct values |
| FeelList.DistinctIdempotent | dmn-core/src/main/java/com/gs/dmn/feel/lib/DefaultFEELLib.java:1053-1064 | `distinct values` is idempotent |
| FeelList.DistinctFollowsFirstOccurrences | dmn-core/src/main/java/com/gs/dmn/feel/lib/DefaultFEELLib.java:1053-1064 | distinct values appear in the order of their first occurrences in the input |
| FeelList.DistinctValues | dmn-core/src/main/java/com/gs/dmn/feel/lib/DefaultFEELLib.java:1053-1064 | the `contains`-guarded loop returns exactly `Distinct` of the list (empty for `null`) |
| FeelList.Union | dmn-core/src/main/java/com/gs/dmn/feel/lib/DefaultFEELLib.java:1042-1051 | the result is the distinct values of the lists joined in order |
| FeelList.UnionMembers | dmn-core/src/main/java/com/gs/dmn/feel/lib/DefaultFEELLib.java:1042-1051 | a value is in the union exactly when it is in one of the lists, and it appears once |
| FeelList.Leaves | dmn-core/src/main/java/com/gs/dmn/feel/lib/DefaultFEELLib.java:1180-1191 | the flattened list holds no lists |
| FeelList.LeavesOf | dmn-core/src/main/java/com/gs/dmn/feel/lib/DefaultFEELLib.java:1180-1191 | the leaves contributed by one element hold no lists |
| FeelList.LeavesOfAtoms | dmn-core/src/main/java/com/gs/dmn/feel/lib/DefaultFEELLib.java:1180-1191 | a list holding no lists flattens to itself |
| FeelList.FlattenIdempotent | dmn-core/src/main/java/com/gs/dmn/feel/lib/DefaultFEELLib.java:1066-1073 | `flatten` is idempotent |
| FeelList.LeavesAppend | dmn-core/src/main/java/com/gs/dmn/feel/lib/DefaultFEELLib.java:1180-1191 | flattening distributes over joining lists |
| FeelList.Collect | dmn-core/src/main/java/com/gs/dmn/feel/lib/DefaultFEELLib.java:1180-1191 | the recursive in-place `collect` appends exactly the leaves of the list to `result` and changes nothing else |
| FeelList.Flatten | dmn-core/src/main/java/com/gs/dmn/feel/lib/DefaultFEELLib.java:1066-1073 | `null` stays `null`; otherwise the result is the leaves of the list |
| FeelList.FlattenExample | dmn-core/src/main/java/com/gs/dmn/feel/lib/DefaultFEELLib.java:1066-1073 | `flatten([[1, [2, 3]], 4])` is `[1, 2, 3, 4]` |
| FeelList.Compare | dmn-core/src/main/java/com/gs/dmn/feel/lib/DefaultFEELLib.java:1193-1203 | the comparator is negative exactly when `less(a, b)`; it is 0 exactly when `less(a, b)` fails and the values are equal and not `null`; it is always -1, 0 or 1 |
| FeelList.CompareOfNulls | dmn-core/src/main/java/com/gs/dmn/feel/lib/DefaultFEELLib.java:1193-1203 | two `null`s compare as 1 both ways, so the comparator is not antisymmetric on `null` |
| FeelList.Sort | dmn-core/src/main/java/com/gs/dmn/feel/lib/DefaultFEELLib.java:1193-1206 | the result is a permutation of the list, and it is sorted whenever `less` is a strict weak order |
| FeelList.InsertKeepsSorted | dmn-core/src/main/java/com/gs/dmn/feel/lib/DefaultFEELLib.java:1193-1206 | inserting an element after those it is not less than, and before those it is less than, keeps a sorted list sorted |
| FeelLogic.All | dmn-core/src/main/java/com/gs/dmn/feel/lib/DefaultFEELLib.java:601-620 | `null` for a `null` list; false exactly when some element is false; true exactly when every element is true; otherwise `null` |
| FeelLogic.Any | dmn-core/src/main/java/com/gs/dmn/feel/lib/DefaultFEELLib.java:647-666 | `null` for a `null` list; true exactly when some element is true; false exactly when every element is false; otherwise `null` |
| FeelLogic.AllArgs | dmn-core/src/main/java/com/gs/dmn/feel/lib/DefaultFEELLib.java:591-635 | `and`/`all` over arguments: `null` for a `null` or empty argument array, otherwise `all` of the arguments as a list |
| FeelLogic.AnyArgs | dmn-core/src/main/java/com/gs/dmn/feel/lib/DefaultFEELLib.java:637-681 | `or`/`any` over arguments: `null` for a `null` or empty argument array, otherwise `any` of the arguments as a list |
| FeelLogic.AllIsKleeneConjunction | dmn-core/src/main/java/com/gs/dmn/feel/lib/DefaultFEELLib.java:601-620 | `all(L)` is the Kleene conjunction of the elements, folded from true |
| FeelLogic.AnyIsKleeneDisjunction | dmn-core/src/main/java/com/gs/dmn/feel/lib/DefaultFEELLib.java:647-666 | `any(L)` is the Kleene disjunction of the elements, folded from false |
| FeelLogic.AnyIsDualOfAll | dmn-core/src/main/java/com/gs/dmn/feel/lib/DefaultFEELLib.java:601-666 | De Morgan: `any(L)` is the negation of `all` over the negated elements |
| FeelLogic.AllUnknownAndFalse | dmn-core/src/main/java/com/gs/dmn/feel/lib/DefaultFEELLib.java:601-620 | one false decides `all`; trues with a `null` and no false give `null` |
| FeelLogic.EmptyArguments | dmn-core/src/main/java/com/gs/dmn/feel/lib/DefaultFEELLib.java:601-681 | an empty list gives true for `all` and false for `any`, but no arguments gives `null` for both |
| FeelNumber.Number | dmn-core/src/main/java/com/gs/dmn/feel/lib/DefaultFEELLib.java:54-66 | a blank literal gives `null`; anything else is the library parse, `null` where it throws |
| FeelNumber.Deleted | dmn-core/src/main/java/com/gs/dmn/feel/lib/DefaultFEELLib.java:84-89 | the separator no longer occurs after `replaceAll(separator, "")` |
| FeelNumber.DeletedAppend | dmn-core/src/main/java/com/gs/dmn/feel/lib/DefaultFEELLib.java:84-89 | deleting from a concatenation deletes from each part and keeps the parts in order, so the kept characters stay in their original order |
| FeelNumber.DeletedKeepsOthers | dmn-core/src/main/java/com/gs/dmn/feel/lib/DefaultFEELLib.java:84-89 | deletion keeps every other character, as many times as it occurred |
| FeelNumber.Replaced | dmn-core/src/main/java/com/gs/dmn/feel/lib/DefaultFEELLib.java:90-92 | the same length, with each decimal separator turned into `.` and every other character kept |
| FeelNumber.Normalized | dmn-core/src/main/java/com/gs/dmn/feel/lib/DefaultFEELLib.java:84-92 | a grouping separator other than `.` is gone; with a `,` decimal separator, the result is the text with the grouping separator deleted first and then every `,` replaced by `.`, so no `,` is left; with no comma decimal, the result is the deletion alone; with no grouping separator, the length is kept |
| FeelNumber.NumberWithSeparators | dmn-core/src/main/java/com/gs/dmn/feel/lib/DefaultFEELLib.java:69-99 | `null` for a blank input or for separators outside {space, `.`, `,`, null} and {`.`, `,`, null}, or for two equal separators; otherwise `number` of the normalized text |
| FeelNumber.OnlyGroupingGivesNull | dmn-core/src/main/java/com/gs/dmn/feel/lib/DefaultFEELLib.java:69-99 | a text made only of grouping separators gives `null` |
| FeelNumber.GroupingRemovedFirst | dmn-core/src/main/java/com/gs/dmn/feel/lib/DefaultFEELLib.java:84-92 | `"1.250,5"` with grouping `.` and decimal `,` normalizes to `"1250.5"` |
| FeelNumber.OtherOrderLosesDecimalPoint | dmn-core/src/main/java/com/gs/dmn/feel/lib/DefaultFEELLib.java:84-92 | the order matters: turning the decimal comma into a dot first would give `"12505"` |
| OffsetId.Pad2RoundTrip | dmn-core/src/main/java/com/gs/dmn/feel/lib/DefaultFEELLib.java:179-183 | `%02d` of `n` reads back as `n` |
| OffsetId.DecimalRoundTrip | dmn-core/src/main/java/com/gs/dmn/feel/lib/DefaultFEELLib.java:179-183 | the decimal digits of `n` read back as `n` |
| OffsetId.DefaultOffsetId | dmn-core/src/main/java/com/gs/dmn/feel/lib/DefaultFEELLib.java:176-183 | the zone text is at least six characters long and starts with `-` exactly for a negative duration, `+` otherwise |
| OffsetId.UniformOffsetId | dmn-core/src/main/java/com/gs/dmn/feel/lib/UniformJavaTimeFEELLib.java:175-176 | the same for the always-`hh:mm` text of the Uniform profile |
| OffsetId.DoubleOffsetId | dmn-core/src/main/java/com/gs/dmn/feel/lib/DoubleMixedJavaTimeFEELLib.java:176-177 | the same for the always-`hh:mm:ss` text of the Double profile |
| OffsetId.DefaultOffsetIdRoundTrip | dmn-core/src/main/java/com/gs/dmn/feel/lib/DefaultFEELLib.java:176-183 | the Default text reads back as the sign, hours, minutes and seconds of the duration (`:ss` appears only when the seconds are non-zero) |
| OffsetId.UniformOffsetIdRoundTrip | dmn-core/src/main/java/com/gs/dmn/feel/lib/UniformJavaTimeFEELLib.java:175-176 | the Uniform text reads back with the seconds lost |
| OffsetId.DoubleOffsetIdRoundTrip | dmn-core/src/main/java/com/gs/dmn/feel/lib/DoubleMixedJavaTimeFEELLib.java:176-177 | the Double text denotes the same offset as the Default text |
| OffsetId.DefaultOffsetIdInjective | dmn-core/src/main/java/com/gs/dmn/feel/lib/DefaultFEELLib.java:176-183 | two durations with the same Default text agree in direction and in all three fields |
| OffsetId.OffsetIdExample | dmn-core/src/main/java/com/gs/dmn/feel/lib/DefaultFEELLib.java:176-183 | 5 h 30 min gives `+05:30`; minus 5 h 30 min 15 s gives `-05:30:15` |
| Profiles.BigDecimalIntValue | dmn-core/src/main/java/com/gs/dmn/feel/lib/DefaultFEELLib.java:912-919 | `BigDecimal.intValue`: the integer part when it fits in an `int`, and in every case congruent to it modulo 2^32 |
| Profiles.DoubleIntValue | dmn-core/src/main/java/com/gs/dmn/feel/lib/DoubleMixedJavaTimeFEELLib.java:984-991 | `Double.intValue`: the integer part when it fits, else clamped to the nearest `int` bound |
| Profiles.IntValuesAgreeInRange | dmn-core/src/main/java/com/gs/dmn/feel/lib/DoubleMixedJavaTimeFEELLib.java:984-991 | both conversions agree on positions whose integer part fits in an `int` |
| Profiles.IntValuesDivergeBeyondRange | dmn-core/src/main/java/com/gs/dmn/feel/lib/DoubleMixedJavaTimeFEELLib.java:984-991 | 2^32 + 1 wraps to 1 as a `BigDecimal` but clamps to the largest `int` as a `Double` |
| Profiles.BigDecimalSublist | dmn-core/src/main/java/com/gs/dmn/feel/lib/DefaultFEELLib.java:912-915 | `sublist` of the BigDecimal profiles is the shared sublist at the wrapped position, and holds only elements of the list |
| Profiles.DoubleSublist | dmn-core/src/main/java/com/gs/dmn/feel/lib/DoubleMixedJavaTimeFEELLib.java:984-986 | `sublist` of the Double profile is the shared sublist at the clamped position, and holds only elements of the list |
| Profiles.BigDecimalSublistLength | dmn-core/src/main/java/com/gs/dmn/feel/lib/DefaultFEELLib.java:917-919 | `sublist` with a length, BigDecimal profiles: `SublistOfLength` at the wrapped position and length |
| Profiles.DoubleSublistLength | dmn-core/src/main/java/com/gs/dmn/feel/lib/DoubleMixedJavaTimeFEELLib.java:989-991 | the same for the Double profile, at the clamped position and length |
| Profiles.SublistProfilesAgree | dmn-core/src/main/java/com/gs/dmn/feel/lib/DoubleMixedJavaTimeFEELLib.java:984-986 | the profiles' `sublist` agree on every position whose integer part fits in an `int` |
| Profiles.SublistProfilesDiverge | dmn-core/src/main/java/com/gs/dmn/feel/lib/DoubleMixedJavaTimeFEELLib.java:984-986 | at position 2^32 + 1 the BigDecimal profiles give the whole list and the Double profile gives nothing |
| Profiles.BigDecimalInsertBefore | dmn-core/src/main/java/com/gs/dmn/feel/lib/DefaultFEELLib.java:981-983 | `insert before` of the BigDecimal profiles is `InsertedBefore` at the wrapped position |
| Profiles.DoubleInsertBefore | dmn-core/src/main/java/com/gs/dmn/feel/lib/DoubleMixedJavaTimeFEELLib.java:1053-1055 | `insert before` of the Double profile is `InsertedBefore` at the clamped position |
| Profiles.BigDecimalRemove | dmn-core/src/main/java/com/gs/dmn/feel/lib/DefaultFEELLib.java:1003-1005 | `remove` of the BigDecimal profiles is `Removed` at the wrapped position |
| Profiles.DoubleRemove | dmn-core/src/main/java/com/gs/dmn/feel/lib/DoubleMixedJavaTimeFEELLib.java:1075-1077 | `remove` of the Double profile is `Removed` at the clamped position |
| Profiles.Variadic | dmn-core/src/main/java/com/gs/dmn/feel/lib/DoubleMixedJavaTimeFEELLib.java:492-535 | the variadic `min`, `max`, `sum`, `mean` give `null` for a `null` or empty argument array, otherwise the list form of the arguments |
| Profiles.DoubleMax | dmn-core/src/main/java/com/gs/dmn/feel/lib/DoubleMixedJavaTimeFEELLib.java:957-969 | `max(list)` is `null` for a `null` or empty list, otherwise the numeric helper's maximum |
| Profiles.DoubleMean | dmn-core/src/main/java/com/gs/dmn/feel/lib/DoubleMixedJavaTimeFEELLib.java:537-550 | `mean(list)` is `null` for a `null` list, otherwise the numeric helper's mean |
| Profiles.DoubleEmptyInputsGiveNull | dmn-core/src/main/java/com/gs/dmn/feel/lib/DoubleMixedJavaTimeFEELLib.java:492-565 | whatever the helpers do, `max` over no list, an empty list or no arguments, and `min`, `sum`, `mean` over no arguments, are `null` |
| Profiles.VariadicDelegates | dmn-core/src/main/java/com/gs/dmn/feel/lib/DoubleMixedJavaTimeFEELLib.java:552-565 | non-empty arguments reach the helper unchanged, as a list |
| QuotedNames.IsSimpleName | dmn-core/src/main/java/com/gs/dmn/transformation/ToQuotedNameTransformer.java:39-49 | the early-return scan answers exactly whether the first code point may start an identifier and every code point may be part of one |
| QuotedNames.Transformed | dmn-core/src/main/java/com/gs/dmn/transformation/ToQuotedNameTransformer.java:28-37 | empty and simple names are kept; any other name becomes the name in single quotes, two code points longer |
| QuotedNames.TransformName | dmn-core/src/main/java/com/gs/dmn/transformation/ToQuotedNameTransformer.java:28-37 | `null` stays `null`; any other name gives `Transformed` |
| QuotedNames.NameOrQuoted | dmn-core/src/main/java/com/gs/dmn/transformation/ToQuotedNameTransformer.java:28-37 | the result is the name or the quoted name, nothing else |
| QuotedNames.QuotedIffNotSimple | dmn-core/src/main/java/com/gs/dmn/transformation/ToQuotedNameTransformer.java:28-37 | a non-empty name changes exactly when it is not simple |
| QuotedNames.QuotingTwiceQuotesTwice | dmn-core/src/main/java/com/gs/dmn/transformation/NameTransformer.java:555-568 | quoting is not idempotent (`'` cannot start an identifier), which is what the rename-once guard prevents |
| QuotedNames.TransformNameExample | dmn-core/src/main/java/com/gs/dmn/transformation/ToQuotedNameTransformer.java:28-37 | a name with spaces and a non-BMP code point is quoted, the code point counting once |
| NameScan.Trim | dmn-core/src/main/java/com/gs/dmn/transformation/NameTransformer.java:442 | `String.trim`: the result is an infix `s[a..b]` of the input, every code point before `a` and from `b` on is at most U+0020, and the result starts and ends above U+0020; a text already so is unchanged |
| NameScan.KeyOutput | dmn-core/src/main/java/com/gs/dmn/transformation/NameTransformer.java:441-450 | an empty key writes nothing; a key of at least two code points wrapped in `"` writes its transformed inside re-wrapped; any other key writes its transform |
| NameScan.KeyOutputAsWritten | dmn-core/src/main/java/com/gs/dmn/transformation/NameTransformer.java:443-450 | the key guard as written fails (throws) exactly on the key `"`, and otherwise agrees with `KeyOutput` |
| NameScan.StringSpan | dmn-core/src/main/java/com/gs/dmn/transformation/NameTransformer.java:409-423 | a string literal is copied verbatim up to and including its closing `"` (or the end), with no `"` inside |
| NameScan.IdentifierSpan | dmn-core/src/main/java/com/gs/dmn/transformation/NameTransformer.java:508-543 | the first keyword found is copied; failing that, the first name in scope found is replaced by its transform; failing both, the run of name-part code points is copied |
| NameScan.TokenSpan | dmn-core/src/main/java/com/gs/dmn/transformation/NameTransformer.java:390-407 | each step advances; a code point that opens nothing is copied alone; a string is copied verbatim |
| NameScan.TextFrom | dmn-core/src/main/java/com/gs/dmn/transformation/NameTransformer.java:390-407 | the loop always runs to the end of the text |
| NameScan.PlainTextCopied | dmn-core/src/main/java/com/gs/dmn/transformation/NameTransformer.java:390-407 | text with no string, context, list or name start comes out unchanged |
| NameScan.ValueCopied | dmn-core/src/main/java/com/gs/dmn/transformation/NameTransformer.java:455-467 | a context value with no string, context or list is copied verbatim; names in it are not replaced |
| NameScan.ContextEntry | dmn-core/src/main/java/com/gs/dmn/transformation/NameTransformer.java:431-471 | an entry `key: value,` becomes the transformed trimmed key, `:`, the value as it is, `", "`, then the remaining entries |
| NameScan.Entry | dmn-core/src/main/java/com/gs/dmn/transformation/NameTransformer.java:435-471 | one pass of the entry loop always consumes at least one code point and stays within the text, so the loop ends |
| NameScan.EntryTail | dmn-core/src/main/java/com/gs/dmn/transformation/NameTransformer.java:451-471 | the rest of an entry stays within the text, and moves past a `:` that follows the key |
| NameScan.LastContextEntry | dmn-core/src/main/java/com/gs/dmn/transformation/NameTransformer.java:431-476 | the last entry `key: value}` becomes the transformed key, `:`, the value and `}` |
| NameScan.StringLiteralCopied | dmn-core/src/main/java/com/gs/dmn/transformation/NameTransformer.java:393-394 | a name inside a string literal is never replaced: the literal is copied through its closing quote |
| NameScan.LoneQuoteKey | dmn-core/src/main/java/com/gs/dmn/transformation/NameTransformer.java:442-446 | the key `"` throws as written, while the corrected key output transforms it like any other key |
| NameRewriter.NextIndex | dmn-core/src/main/java/com/gs/dmn/transformation/NameTransformer.java:600-604 | the next index is after the current one and within the text |
| NameRewriter.NameTransformer.ReplaceNamesInText | dmn-core/src/main/java/com/gs/dmn/transformation/NameTransformer.java:376-388 | the three built-in names are added to the context; a `null` or empty text gives `""`; any other text gives exactly `TextFrom` over the context's ordered names |
| NameRewriter.NameTransformer.ReplaceNamesInElement | dmn-core/src/main/java/com/gs/dmn/transformation/NameTransformer.java:356-374 | a `null` element is left alone (the context too); otherwise its text is replaced by the rewritten text, so a `null` text becomes `""` |
| NameRewriter.NameTransformer.ReplaceNamesInTextFrom | dmn-core/src/main/java/com/gs/dmn/transformation/NameTransformer.java:390-407 | the dispatch loop appends exactly `TextFrom` and stops at the end of the text |
| NameRewriter.NameTransformer.AppendStrings | dmn-core/src/main/java/com/gs/dmn/transformation/NameTransformer.java:409-423 | the loop with `break` appends exactly `StringSpan` and returns where it ends |
| NameRewriter.NameTransformer.ReplaceIdentifiers | dmn-core/src/main/java/com/gs/dmn/transformation/NameTransformer.java:508-543 | the keyword loop, the name loop and the do-while run append exactly `IdentifierSpan` and return where it ends |
| NameRewriter.NameTransformer.ReplaceNamesInList | dmn-core/src/main/java/com/gs/dmn/transformation/NameTransformer.java:480-506 | the list loop appends exactly `ListSpan` and returns where it ends |
| NameRewriter.NameTransformer.ReplaceContextKeys | dmn-core/src/main/java/com/gs/dmn/transformation/NameTransformer.java:425-478 | the context loop appends exactly `ContextSpan` and returns where it ends |
| NameRewriter.NameTransformer.ReplaceEntry | dmn-core/src/main/java/com/gs/dmn/transformation/NameTransformer.java:435-471 | one pass of the entry loop appends exactly `Entry` and returns where it ends |
| NameRewriter.NameTransformer.ReplaceEntryTail | dmn-core/src/main/java/com/gs/dmn/transformation/NameTransformer.java:451-471 | the `:`, value and `,` part of the pass appends exactly `EntryTail` and returns where it ends |
| NameRewriter.NameTransformer.ReplaceKey | dmn-core/src/main/java/com/gs/dmn/transformation/NameTransformer.java:435-450 | the key loop stops at the first `:` or `}` and appends exactly `KeyOutput` of the trimmed key, the corrected key rule (a lone `"` key is transformed, where the source throws; see Left out) |
| NameRewriter.NameTransformer.ReplaceValue | dmn-core/src/main/java/com/gs/dmn/transformation/NameTransformer.java:455-467 | the value loop appends exactly `ValueFrom` and stops at a `,`, a `}` or the end |
| NameRewriter.NameTransformer.RenameElement | dmn-core/src/main/java/com/gs/dmn/transformation/NameTransformer.java:555-568 | a `null` or already-renamed element is left unchanged; any other is recorded, and its non-null name is replaced by the transform, so no element is transformed twice |
| NameRewriter.QuotedNameInText | dmn-core/src/main/java/com/gs/dmn/transformation/NameTransformer.java:508-529 | with the name `a b` in scope and the quoting transformer, the text `a b` becomes `'a b'` |

## Left out

- Functions of the FEEL library other than the list, logic and `number` functions named above: dates, times, durations, strings, arithmetic, `not`, `product`, `median`, `stddev`, `mode`. They are outside this model.
- `time(hour, minute, second, offset)`: only the zone-offset text is modelled. The calendar values, the second fraction and the parsing of the text by the calendar library are not.
- The numeric parse of `number(literal)` (`new BigDecimal`, `Double.parseDouble`) and the helpers `BigDecimalUtil`/`DoubleUtil` behind `min`, `max`, `sum` and `mean` are parameters. They are library code.
- `Double` values are finite: NaN and the infinities, and `Double.intValue` on them, are not modelled.
- Logging, and the `try`/`catch` blocks that turn an exception into `null`, are not modelled beyond that `null`.
- FeelList.SublistOfLength: the source throws when the end index passes the end of the list. Here that case is excluded by `requires`, not modelled.
- FeelList.Removed: a position outside 1..length throws in the source (negative positions included). Here it is excluded by `requires`.
- FeelList.Sort: a `null` list throws in the source and is not modelled. Stability is not stated. `List.sort`'s own algorithm, and its exception when the comparator is inconsistent (as `CompareOfNulls` shows it can be), are replaced by an insertion sort.
- FeelList.Concatenate: a `null` list among the arguments throws in the source. Here the arguments are non-null lists. The same holds for `FeelList.Union`.
- FeelLogic.All: list elements that are neither Boolean nor `null` compare like `null` in the source. The model's elements are three-valued only. The same holds for `FeelLogic.Any`.
- The transformer's walk over DMN models: `transform`, `replace`, `rename` of definitions and expressions, `makeLexicalContext`, `addName`, `findDRGElement`, `renameItemDefinitionMembers`, and the reflection in `setField`. These are JAXB tree walking, outside the scanner.
- The `TOutputClause` overload of `renameElement` has the same body as the `TNamedElement` one. `NameRewriter.NameTransformer.RenameElement` stands for both.
- The FEEL keyword table, `LexicalContext.orderedNames`, and `isNameStartChar`/`isNamePartChar` (`Character.isJavaIdentifierStart`/`Part`) are parameters. LexicalContext is not part of this model beyond `addName` and `orderedNames`.
- NameRewriter.NameTransformer.ReplaceNamesInText: an empty keyword or name makes the source loop forever, because it matches without moving on. Keywords and names are required to be non-empty.
- NameRewriter.NameTransformer.ReplaceKey: a context key that trims to a lone `"` (as in `{": 1}`) throws `StringIndexOutOfBoundsException` in the source (see Findings). Here it follows the corrected rule `NameScan.KeyOutput` and writes the transformed key. So `ReplaceEntry`, `ReplaceContextKeys`, `ReplaceNamesInText` and `ReplaceNamesInElement` return a text for such input where the source throws.
- Text is indexed by Unicode code point. Java indexes by UTF-16 unit and steps over surrogate pairs, so the two agree on the output but not on the index values.

## Findings

| source | as written | input that shows it | evidently intended | confidence | as-written member | corrected member |
|---|---|---|---|---|---|---|
| dmn-core/src/main/java/com/gs/dmn/transformation/NameTransformer.java:444-446 | a trimmed key that starts and ends with `"` is unwrapped with `substring(1, length - 1)` | the context text `{": 1}`, whose trimmed key is the single code point `"`; `substring(1, 0)` throws | unwrap only keys of at least two code points; a lone `"` is transformed like any other key | high, not executed | NameScan.LoneQuoteKey | NameScan.KeyOutput |
