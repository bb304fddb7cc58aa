# Cloud–Brigadier suggestion bridge, modelled in Dafny

This project models how Cloud's command suggestions are handed to Mojang's
Brigadier library in `BrigadierSuggestionFactory.buildSuggestions`. Brigadier
passes a `SuggestionsBuilder` over the whole typed input. The factory then:

1. cuts out the command text Cloud should complete. This is the input from
   the start of the first parsed node, with a namespace prefix such as
   `minecraft:` removed from its first space-separated token;
2. asks Cloud for suggestions on that text;
3. drops every suggestion whose text is an alias of a literal sibling
   component, so that Brigadier does not list the same literal twice;
4. moves the builder to Cloud's cursor, shifted by the characters trimmed
   from the front;
5. offers each remaining suggestion in order. It becomes an integer
   suggestion when `Integer.parseInt` accepts its text and a text suggestion
   otherwise, and keeps its tooltip in both cases.

Modules:

- `Wrappers`: `Option` (a nullable value) and `Result` (a value or a thrown exception).
- `JavaString`: `String.split` with a one-character pattern that is not a
  regular-expression metacharacter (the bridge splits on `" "` and `":"`).
  For such a pattern it follows Java: with no match it returns `[s]`. Otherwise it returns the pieces
  with trailing empty strings dropped, so `" ".split(" ")` and `":".split(":")`
  are empty.
- `JavaInteger`: `Integer.parseInt` and `Integer.toString` on 32-bit `int`.
- `Cloud`: the values Cloud supplies: tooltip suggestions, the command input
  and cursor, the suggestion result, and command nodes with their components.
- `Brigadier`: the builder seen from outside. It is a value that holds the
  start offset and the suggestions offered to it, in call order.
- `SuggestionFactory`: the bridge itself. The `ArrayList` copy that
  `removeIf` shrinks in place is the class `SuggestionList`. The emission
  `for` loop is in the method `Complete`, the callback that runs when
  Cloud's result is ready.

The two exceptions lines 101-106 can throw once the first node's start
offset is known are modelled as `Failure` results. `substring` fails when the start offset lies outside the
input. `split(...)[0]` fails when `split` returns an empty array.

## Model

| member | source | states |
|---|---|---|
| `SuggestionFactory.CommandText` | cloud-brigadier/src/main/java/org/incendo/cloud/brigadier/suggestion/BrigadierSuggestionFactory.java:101 | succeeds exactly when 0 ≤ start ≤ input length; the result is then the suffix of the builder input of length `length - start`; otherwise `StringIndexOutOfBounds` |
| `SuggestionFactory.StripNamespace` | cloud-brigadier/src/main/java/org/incendo/cloud/brigadier/suggestion/BrigadierSuggestionFactory.java:103-107 | a failure is always `ArrayIndexOutOfBounds`; a success is a suffix of the command |
| `SuggestionFactory.StripNamespaceFails` | cloud-brigadier/src/main/java/org/incendo/cloud/brigadier/suggestion/BrigadierSuggestionFactory.java:104-106 | `split(...)[0]` throws `ArrayIndexOutOfBounds` exactly when the command is non-empty and all spaces, or its leading token is non-empty and all colons |
| `SuggestionFactory.StripNamespaceKeeps` | cloud-brigadier/src/main/java/org/incendo/cloud/brigadier/suggestion/BrigadierSuggestionFactory.java:103-105 | with no colon in the leading token, the command is unchanged (or, when it is all spaces, the `split` failure) |
| `SuggestionFactory.StripNamespaceDrops` | cloud-brigadier/src/main/java/org/incendo/cloud/brigadier/suggestion/BrigadierSuggestionFactory.java:105-107 | with a colon in a leading token not made of colons only, the first colon of the command lies in that token and the result is everything after it, a proper suffix |
| `SuggestionFactory.ExtractCommand` | cloud-brigadier/src/main/java/org/incendo/cloud/brigadier/suggestion/BrigadierSuggestionFactory.java:101-107 | an out-of-range start fails with `StringIndexOutOfBounds`; an in-range start fails, with `ArrayIndexOutOfBounds`, exactly when the text from the start is non-empty and all spaces or its leading token is non-empty and all colons; a successful command text is a suffix of the builder input no longer than `length - start` |
| `JavaString.Split` | cloud-brigadier/src/main/java/org/incendo/cloud/brigadier/suggestion/BrigadierSuggestionFactory.java:104-106 | no returned piece contains the separator, and the last piece is empty only when the text is empty and the result is `[""]` |
| `JavaString.SplitIsEmpty` | cloud-brigadier/src/main/java/org/incendo/cloud/brigadier/suggestion/BrigadierSuggestionFactory.java:104-106 | `split` on a character returns an empty array exactly when the text is non-empty and made of that character only |
| `JavaString.SplitFirst` | cloud-brigadier/src/main/java/org/incendo/cloud/brigadier/suggestion/BrigadierSuggestionFactory.java:104-106 | when `split` returns an element, element 0 is the text before the first separator (all of it when there is none) |
| `JavaString.JoinSplitAll` | cloud-brigadier/src/main/java/org/incendo/cloud/brigadier/suggestion/BrigadierSuggestionFactory.java:104 | the pieces before trailing-empty removal, joined with the separator, rebuild the text |
| `JavaString.SplitAllPieces` | cloud-brigadier/src/main/java/org/incendo/cloud/brigadier/suggestion/BrigadierSuggestionFactory.java:104 | no piece contains the separator |
| `JavaString.SplitAllAllEmpty` | cloud-brigadier/src/main/java/org/incendo/cloud/brigadier/suggestion/BrigadierSuggestionFactory.java:104-106 | every piece is empty exactly when the text consists of the separator only |
| `JavaString.TakeUntilOfPrefix` | cloud-brigadier/src/main/java/org/incendo/cloud/brigadier/suggestion/BrigadierSuggestionFactory.java:104-106 | a colon in the leading token is the first colon of the whole command, so `leading.split(":")[0]` measures the namespace of the command |
| `SuggestionFactory.SiblingLiterals` | cloud-brigadier/src/main/java/org/incendo/cloud/brigadier/suggestion/BrigadierSuggestionFactory.java:113-118 | a text is in the set exactly when some child has a non-null component of type LITERAL with that text among its aliases |
| `SuggestionFactory.Without` | cloud-brigadier/src/main/java/org/incendo/cloud/brigadier/suggestion/BrigadierSuggestionFactory.java:120 | the result is no longer than the list and no suggestion in it has an excluded text |
| `SuggestionFactory.WithoutMembers` | cloud-brigadier/src/main/java/org/incendo/cloud/brigadier/suggestion/BrigadierSuggestionFactory.java:120 | a suggestion is kept exactly when it is in the list and its text is not excluded |
| `SuggestionFactory.WithoutIsSubsequence` | cloud-brigadier/src/main/java/org/incendo/cloud/brigadier/suggestion/BrigadierSuggestionFactory.java:120 | the kept suggestions keep their original relative order |
| `SuggestionFactory.WithoutCounts` | cloud-brigadier/src/main/java/org/incendo/cloud/brigadier/suggestion/BrigadierSuggestionFactory.java:120 | every copy of an excluded suggestion is removed, and every copy of any other suggestion is kept |
| `SuggestionFactory.SuggestionList.constructor` | cloud-brigadier/src/main/java/org/incendo/cloud/brigadier/suggestion/BrigadierSuggestionFactory.java:111 | the copy holds Cloud's list unchanged |
| `SuggestionFactory.SuggestionList.RemoveIf` | cloud-brigadier/src/main/java/org/incendo/cloud/brigadier/suggestion/BrigadierSuggestionFactory.java:120 | the list afterwards is the old list without the suggestions whose text is excluded |
| `SuggestionFactory.Kept` | cloud-brigadier/src/main/java/org/incendo/cloud/brigadier/suggestion/BrigadierSuggestionFactory.java:112-121 | the surviving suggestions are a subsequence of Cloud's list; with no parent node the list is unchanged; with one, no survivor's text is a sibling literal |
| `SuggestionFactory.KeptMembers` | cloud-brigadier/src/main/java/org/incendo/cloud/brigadier/suggestion/BrigadierSuggestionFactory.java:112-120 | with a parent node, a suggestion survives exactly when no literal child answers to its text |
| `SuggestionFactory.NewStart` | cloud-brigadier/src/main/java/org/incendo/cloud/brigadier/suggestion/BrigadierSuggestionFactory.java:123-125 | the new start is as far from the end of the builder input as Cloud's cursor is from the end of Cloud's input, and lies within the builder input when the cursor lies within Cloud's input and that input is no longer |
| `SuggestionFactory.NewStartMapsCursor` | cloud-brigadier/src/main/java/org/incendo/cloud/brigadier/suggestion/BrigadierSuggestionFactory.java:123-125 | when Cloud's input is a suffix of the builder input and the cursor lies in it, the new start lies in the builder input and points at the same remaining text as Cloud's cursor |
| `SuggestionFactory.NewStartFitsInt` | cloud-brigadier/src/main/java/org/incendo/cloud/brigadier/suggestion/BrigadierSuggestionFactory.java:123-125 | `trimmed` and `rawOffset + trimmed` stay within Java `int` whenever the lengths do and the cursor lies within Cloud's input |
| `JavaInteger.ParseInt` | cloud-brigadier/src/main/java/org/incendo/cloud/brigadier/suggestion/BrigadierSuggestionFactory.java:129-131 | accepts exactly an optional `+`/`-` followed by one or more decimal digits whose value lies in [-2^31, 2^31-1], and returns that value |
| `JavaInteger.ParseIntToString` | cloud-brigadier/src/main/java/org/incendo/cloud/brigadier/suggestion/BrigadierSuggestionFactory.java:129 | `parseInt(toString(n))` is `n` for every `int` and fails for every integer outside the range |
| `SuggestionFactory.EntryFor` | cloud-brigadier/src/main/java/org/incendo/cloud/brigadier/suggestion/BrigadierSuggestionFactory.java:128-132 | keeps the tooltip; is an integer suggestion exactly when the text is integer syntax in `int` range, carrying its value; otherwise a text suggestion with the original text |
| `SuggestionFactory.CanonicalIntegerText` | cloud-brigadier/src/main/java/org/incendo/cloud/brigadier/suggestion/BrigadierSuggestionFactory.java:129 | a suggestion whose text is an `int` as Java prints it is emitted as that integer |
| `SuggestionFactory.Complete` | cloud-brigadier/src/main/java/org/incendo/cloud/brigadier/suggestion/BrigadierSuggestionFactory.java:109-136 | the builder starts at cursor + trimmed; it holds exactly one entry per surviving suggestion, in list order; with no parent node nothing is removed |
| `SuggestionFactory.BuildSuggestions` | cloud-brigadier/src/main/java/org/incendo/cloud/brigadier/suggestion/BrigadierSuggestionFactory.java:89-137 | fails, with the same exception, exactly when extracting the command text fails; otherwise it returns the callback's builder for Cloud's result on the extracted text |
| `SuggestionFactory.BridgeOffsetAndFilter` | cloud-brigadier/src/main/java/org/incendo/cloud/brigadier/suggestion/BrigadierSuggestionFactory.java:101-125 | when Cloud answers for the text it was given, the builder's start is the builder-input position of Cloud's cursor, and no surviving suggestion repeats a sibling literal |

## Left out

- Sender mapping and `CommandContext` construction (lines 95-100) call into Cloud and hold no logic. They are not modelled.
- `getNodes` and `ParsedCommandNodeHandler` (lines 148-181) use reflection to cope with different Brigadier versions. The model takes their result, the first node's start offset, as the parameter `firstNodeStart`. So it does not model the exceptions thrown before that offset exists: `getNodes(...).get(0)` on an empty node list (`IndexOutOfBoundsException`, line 101), `IllegalStateException` for an unexpected node collection (line 161), and `RuntimeException` wrapping a reflection failure (line 164).
- `JavaString.Split`: models `String.split` only for separators that are not regular-expression metacharacters, which are the only ones the bridge uses.
- `suggestionFactory.suggest(...)` and `CompletableFuture.thenApply` (line 109) are an asynchronous call into Cloud. The model takes Cloud as the function parameter `suggest` and runs the callback synchronously.
- Brigadier's `SuggestionsBuilder` internals are not modelled. This includes `suggest(String, Message)` skipping a text equal to the remaining input, and the sorting and merging done by `build()`. The model's builder records the start and every call in order, starting with no entries.
- Java strings count UTF-16 code units. The model counts one unit per `char` and does not model surrogate pairs.
- JavaInteger.ParseInt: accepts ASCII digits only. Java's `Character.digit` also accepts other Unicode decimal digits (Arabic-Indic or full-width digits, for example), and the model treats those texts as text suggestions.
- Component aliases are modelled as a set. Cloud returns a `Collection`, but only membership matters here.
- `CloudDelegatingSuggestionProvider` only forwards `node.parent()` and `node.component()` to `buildSuggestions`, so the model takes the parent as a parameter. `BukkitBrigadierMapper` does reflective registration of server argument types. Neither is modelled.
