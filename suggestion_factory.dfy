/**
 * The bridge from Cloud's suggestion result to Brigadier's suggestion
 * builder (`BrigadierSuggestionFactory.buildSuggestions`): the command
 * text handed to Cloud, the filter against sibling literals, the offset
 * recomputation and the emission of each surviving suggestion as an
 * integer or a text suggestion.
 */
module SuggestionFactory {
  import opened Wrappers
  import opened JavaString
  import JavaInteger
  import opened Cloud
  import Brigadier

  /** The unchecked exceptions the synchronous part can throw. */
  datatype Error =
    | StringIndexOutOfBounds  // `substring` with a start past the input
    | ArrayIndexOutOfBounds   // `split(...)[0]` on an empty array

  // ---------------------------------------------------------------------
  // The command text handed to Cloud

  /** The builder input from the start of the first parsed node on. */
  function CommandText(builderInput: string, start: int): (r: Result<string, Error>)
    ensures r.Success? <==> 0 <= start <= |builderInput|
    ensures r.Success? ==> IsSuffix(r.value, builderInput) && |r.value| == |builderInput| - start
    ensures r.Failure? ==> r.error == StringIndexOutOfBounds
  {
    if 0 <= start <= |builderInput| then Success(builderInput[start..])
    else Failure(StringIndexOutOfBounds)
  }

  /** The first space-separated token: the text before the first space. */
  function LeadingToken(command: string): string
  {
    TakeUntil(command, ' ')
  }

  /**
   * Removes a namespace (`minecraft:tp ...` becomes `tp ...`): when the
   * leading token holds a colon, everything before the colon that
   * `leading.split(":")[0]` measures, and the colon, is dropped.
   */
  function StripNamespace(command: string): (r: Result<string, Error>)
    ensures r.Failure? ==> r.error == ArrayIndexOutOfBounds
    ensures r.Success? ==> IsSuffix(r.value, command)
  {
    var tokens := Split(command, ' ');
    if |tokens| == 0 then Failure(ArrayIndexOutOfBounds)
    else
      SplitFirst(command, ' ');
      var leading := tokens[0];
      if ':' !in leading then Success(command)
      else
        var parts := Split(leading, ':');
        if |parts| == 0 then Failure(ArrayIndexOutOfBounds)
        else
          SplitFirst(leading, ':');
          Success(command[|parts[0]| + 1..])
  }

  /** A non-empty command of spaces only, or a non-empty leading token of colons only. */
  predicate SplitYieldsNothing(command: string)
  {
    (|command| > 0 && AllChars(command, ' ')) || (LeadingToken(command) != "" && AllChars(LeadingToken(command), ':'))
  }

  /**
   * `split(...)[0]` fails exactly when `split` yields nothing: for a
   * non-empty command made of spaces only, and for a non-empty leading
   * token made of colons only.
   */
  lemma StripNamespaceFails(command: string)
    ensures StripNamespace(command).Failure? <==> SplitYieldsNothing(command)
  {
    SplitIsEmpty(command, ' ');
    if Split(command, ' ') != [] {
      SplitFirst(command, ' ');
      SplitIsEmpty(LeadingToken(command), ':');
      if LeadingToken(command) != "" && AllChars(LeadingToken(command), ':') {
        assert LeadingToken(command)[0] == ':';
      }
    }
  }

  /** A leading token without a colon leaves the command as it is. */
  lemma StripNamespaceKeeps(command: string)
    requires ':' !in LeadingToken(command)
    ensures StripNamespace(command)
      == if |command| > 0 && AllChars(command, ' ') then Failure(ArrayIndexOutOfBounds) else Success(command)
  {
    SplitIsEmpty(command, ' ');
    if Split(command, ' ') != [] {
      SplitFirst(command, ' ');
    }
  }

  /**
   * A colon in the leading token (not made of colons only): the first colon
   * of the command lies in that token, and everything up to and including
   * it is dropped, leaving a proper suffix.
   */
  lemma StripNamespaceDrops(command: string)
    requires ':' in LeadingToken(command)
    requires !AllChars(LeadingToken(command), ':')
    ensures var k := |TakeUntil(command, ':')|;
      k < |LeadingToken(command)| && command[k] == ':' && StripNamespace(command) == Success(command[k + 1..])
    ensures StripNamespace(command).Success?
      && IsSuffix(StripNamespace(command).value, command) && |StripNamespace(command).value| < |command|
  {
    var leading := LeadingToken(command);
    SplitIsEmpty(command, ' ');
    SplitFirst(command, ' ');
    SplitIsEmpty(leading, ':');
    SplitFirst(leading, ':');
    TakeUntilOfPrefix(command, ' ', ':');
  }

  /** The text Cloud is asked to complete: the command text with its namespace removed. */
  function ExtractCommand(builderInput: string, start: int): (r: Result<string, Error>)
    ensures !(0 <= start <= |builderInput|) ==> r == Failure(StringIndexOutOfBounds)
    ensures 0 <= start <= |builderInput| ==>
      (r.Failure? <==> SplitYieldsNothing(builderInput[start..]))
      && (r.Failure? ==> r.error == ArrayIndexOutOfBounds)
    ensures r.Success? ==> IsSuffix(r.value, builderInput) && |r.value| <= |builderInput| - start
  {
    match CommandText(builderInput, start)
    case Failure(e) => Failure(e)
    case Success(command) =>
      StripNamespaceFails(command);
      StripNamespace(command)
  }

  // ---------------------------------------------------------------------
  // Filtering out sibling literals

  /** The aliases of the literal components among `children`. */
  function SiblingLiterals(children: seq<CommandNode>): (r: set<string>)
    ensures forall a :: a in r <==> exists i :: 0 <= i < |children| && IsLiteralWith(children[i], a)
  {
    if |children| == 0 then {}
    else
      var last := children[|children| - 1];
      var rest := SiblingLiterals(children[..|children| - 1]);
      assert forall i :: 0 <= i < |children| - 1 ==> children[..|children| - 1][i] == children[i];
      if last.component.Some? && last.component.value.kind == Literal then rest + last.component.value.aliases
      else rest
  }

  /** The suggestions of `s` whose text is not in `excluded`, in their order. */
  function Without(s: seq<TooltipSuggestion>, excluded: set<string>): (r: seq<TooltipSuggestion>)
    ensures |r| <= |s|
    ensures forall i :: 0 <= i < |r| ==> r[i].suggestion !in excluded
  {
    if |s| == 0 then []
    else
      var last := s[|s| - 1];
      Without(s[..|s| - 1], excluded) + (if last.suggestion in excluded then [] else [last])
  }

  /** A suggestion is kept exactly when it is listed and its text is not excluded. */
  lemma {:induction false} WithoutMembers(s: seq<TooltipSuggestion>, excluded: set<string>, x: TooltipSuggestion)
    ensures x in Without(s, excluded) <==> x in s && x.suggestion !in excluded
  {
    if |s| > 0 {
      var init, last := s[..|s| - 1], s[|s| - 1];
      WithoutMembers(init, excluded, x);
      assert s == init + [last];
    }
  }

  /** `r` can be obtained from `s` by deleting elements. */
  predicate IsSubsequence<T(==)>(r: seq<T>, s: seq<T>)
  {
    if |r| == 0 then true
    else if |s| == 0 then false
    else if r[|r| - 1] == s[|s| - 1] then IsSubsequence(r[..|r| - 1], s[..|s| - 1])
    else IsSubsequence(r, s[..|s| - 1])
  }

  /** Filtering keeps the relative order of what it keeps. */
  lemma {:induction false} WithoutIsSubsequence(s: seq<TooltipSuggestion>, excluded: set<string>)
    ensures IsSubsequence(Without(s, excluded), s)
  {
    if |s| > 0 {
      var init, last := s[..|s| - 1], s[|s| - 1];
      WithoutIsSubsequence(init, excluded);
      var w := Without(init, excluded);
      if last.suggestion !in excluded {
        assert Without(s, excluded) == w + [last];
        assert (w + [last])[..|w|] == w;
      } else {
        assert Without(s, excluded) == w;
        if |w| > 0 {
          WithoutMembers(init, excluded, w[|w| - 1]);
          assert w[|w| - 1] != last;
        }
      }
    }
  }

  /** Filtering removes every copy of an excluded suggestion and no copy of any other. */
  lemma {:induction false} WithoutCounts(s: seq<TooltipSuggestion>, excluded: set<string>, x: TooltipSuggestion)
    ensures multiset(Without(s, excluded))[x] == if x.suggestion in excluded then 0 else multiset(s)[x]
  {
    if |s| > 0 {
      var init, last := s[..|s| - 1], s[|s| - 1];
      WithoutCounts(init, excluded, x);
      MultisetOfInitAndLast(s);
    }
  }

  lemma MultisetOfInitAndLast(s: seq<TooltipSuggestion>)
    requires |s| > 0
    ensures multiset(s) == multiset(s[..|s| - 1]) + multiset{s[|s| - 1]}
  {
    assert s == s[..|s| - 1] + [s[|s| - 1]];
  }

  /**
   * The Java `ArrayList` copy of Cloud's suggestion list, shrunk in place
   * by `removeIf`.
   */
  class SuggestionList {
    var items: seq<TooltipSuggestion>

    /** `new ArrayList<>(list)`. */
    constructor (list: seq<TooltipSuggestion>)
      ensures items == list
    {
      items := list;
    }

    /** `removeIf(s -> excluded.contains(s.suggestion()))`. */
    method RemoveIf(excluded: set<string>)
      modifies this
      ensures items == Without(old(items), excluded)
    {
      var all := items;
      var kept := [];
      var i := 0;
      while i < |all|
        invariant 0 <= i <= |all|
        invariant kept == Without(all[..i], excluded)
      {
        assert all[..i + 1][..i] == all[..i];
        if all[i].suggestion !in excluded {
          kept := kept + [all[i]];
        }
        i := i + 1;
      }
      assert all[..|all|] == all;
      items := kept;
    }
  }

  /** What survives the filter: everything when there is no parent node. */
  function Kept(parent: Option<CommandNode>, list: seq<TooltipSuggestion>): (r: seq<TooltipSuggestion>)
    ensures IsSubsequence(r, list)
    ensures parent.None? ==> r == list
    ensures parent.Some? ==>
      forall i :: 0 <= i < |r| ==> r[i].suggestion !in SiblingLiterals(parent.value.children)
  {
    if parent.None? then
      SubsequenceOfItself(list);
      list
    else
      WithoutIsSubsequence(list, SiblingLiterals(parent.value.children));
      Without(list, SiblingLiterals(parent.value.children))
  }

  lemma {:induction false} SubsequenceOfItself<T>(s: seq<T>)
    ensures IsSubsequence(s, s)
  {
    if |s| > 0 {
      SubsequenceOfItself(s[..|s| - 1]);
    }
  }

  /**
   * With a parent node, a suggestion survives exactly when no literal
   * child of the parent answers to its text.
   */
  lemma KeptMembers(parent: CommandNode, list: seq<TooltipSuggestion>, x: TooltipSuggestion)
    ensures x in Kept(Some(parent), list) <==>
      x in list && forall i :: 0 <= i < |parent.children| ==> !IsLiteralWith(parent.children[i], x.suggestion)
  {
    WithoutMembers(list, SiblingLiterals(parent.children), x);
  }

  // ---------------------------------------------------------------------
  // Offset recomputation

  /** `commandInput.cursor() + trimmed`, where `trimmed` is what was cut from the front. */
  function NewStart(builderLength: nat, commandInput: CommandInput): (r: int)
    ensures builderLength - r == commandInput.Length() - commandInput.cursor
    ensures 0 <= commandInput.cursor <= commandInput.Length() <= builderLength ==> 0 <= r <= builderLength
  {
    var trimmed := builderLength - commandInput.Length();
    commandInput.cursor + trimmed
  }

  /**
   * When Cloud parsed a suffix of the builder input, the new start is the
   * position in the builder input of the character under Cloud's cursor.
   */
  lemma NewStartMapsCursor(builderInput: string, commandInput: CommandInput)
    requires IsSuffix(commandInput.input, builderInput)
    requires 0 <= commandInput.cursor <= |commandInput.input|
    ensures 0 <= NewStart(|builderInput|, commandInput) <= |builderInput|
    ensures builderInput[NewStart(|builderInput|, commandInput)..] == commandInput.input[commandInput.cursor..]
  {
    var o := NewStart(|builderInput|, commandInput);
    assert builderInput[o..] == builderInput[|builderInput| - |commandInput.input|..][commandInput.cursor..];
  }

  /** The `int` addition cannot overflow while the cursor lies within Cloud's input. */
  lemma NewStartFitsInt(builderLength: nat, commandInput: CommandInput)
    requires builderLength <= JavaInteger.MaxInt && commandInput.Length() <= JavaInteger.MaxInt
    requires 0 <= commandInput.cursor <= commandInput.Length()
    ensures JavaInteger.InRange(builderLength - commandInput.Length())
    ensures JavaInteger.InRange(NewStart(builderLength, commandInput))
  {
  }

  // ---------------------------------------------------------------------
  // Emission

  /** The builder entry a suggestion becomes: an integer if `Integer.parseInt` accepts its text. */
  function EntryFor(s: TooltipSuggestion): (e: Brigadier.Suggestion)
    ensures e.tooltip == s.tooltip
    ensures e.IntegerSuggestion? <==>
      JavaInteger.IsIntegerSyntax(s.suggestion) && JavaInteger.InRange(JavaInteger.SyntaxValue(s.suggestion))
    ensures e.IntegerSuggestion? ==> e.value == JavaInteger.SyntaxValue(s.suggestion)
    ensures e.TextSuggestion? ==> e.text == s.suggestion
  {
    match JavaInteger.ParseInt(s.suggestion)
    case Some(v) => Brigadier.IntegerSuggestion(v, s.tooltip)
    case None => Brigadier.TextSuggestion(s.suggestion, s.tooltip)
  }

  /** A suggestion written as Java prints an `int` is emitted as that integer. */
  lemma CanonicalIntegerText(v: int, tooltip: Option<string>)
    requires JavaInteger.InRange(v)
    ensures EntryFor(TooltipSuggestion(JavaInteger.IntToString(v), tooltip)) == Brigadier.IntegerSuggestion(v, tooltip)
  {
  }

  /** `entries` holds one entry per suggestion of `list`, in list order. */
  predicate EmitsInOrder(entries: seq<Brigadier.Suggestion>, list: seq<TooltipSuggestion>)
  {
    |entries| == |list| && forall i :: 0 <= i < |list| ==> entries[i] == EntryFor(list[i])
  }

  lemma EmitsOneMore(before: seq<Brigadier.Suggestion>, list: seq<TooltipSuggestion>, i: nat, after: seq<Brigadier.Suggestion>)
    requires i < |list|
    requires EmitsInOrder(before, list[..i])
    requires after == before + [EntryFor(list[i])]
    ensures EmitsInOrder(after, list[..i + 1])
  {
    assert list[..i + 1] == list[..i] + [list[i]];
  }

  /**
   * The callback run when Cloud's suggestions are ready: filter, move the
   * builder to the recomputed offset, offer each survivor in order.
   */
  method Complete(builderInput: string, parent: Option<CommandNode>, result: SuggestionsResult)
    returns (built: Brigadier.SuggestionsBuilder)
    ensures built.start == NewStart(|builderInput|, result.commandInput)
    ensures EmitsInOrder(built.entries, Kept(parent, result.list))
    ensures parent.None? ==> EmitsInOrder(built.entries, result.list)
  {
    var suggestions := new SuggestionList(result.list);
    if parent.Some? {
      var siblingLiterals := SiblingLiterals(parent.value.children);
      suggestions.RemoveIf(siblingLiterals);
    }

    var trimmed := |builderInput| - result.commandInput.Length();
    var rawOffset := result.commandInput.cursor;
    var suggestionsBuilder := Brigadier.CreateOffset(rawOffset + trimmed);

    var kept := suggestions.items;
    for i := 0 to |kept|
      invariant suggestionsBuilder.start == rawOffset + trimmed
      invariant EmitsInOrder(suggestionsBuilder.entries, kept[..i])
    {
      var suggestion := kept[i];
      ghost var before := suggestionsBuilder.entries;
      match JavaInteger.ParseInt(suggestion.suggestion) {
        case Some(value) =>
          suggestionsBuilder := suggestionsBuilder.SuggestInt(value, suggestion.tooltip);
        case None =>
          suggestionsBuilder := suggestionsBuilder.SuggestText(suggestion.suggestion, suggestion.tooltip);
      }
      EmitsOneMore(before, kept, i, suggestionsBuilder.entries);
    }
    assert kept[..|kept|] == kept;
    built := suggestionsBuilder;
  }

  /**
   * `buildSuggestions`: compute the command text, ask Cloud (`suggest`)
   * for suggestions on it, then run the callback on Cloud's result.
   */
  method BuildSuggestions(
    builderInput: string,
    firstNodeStart: int,
    parent: Option<CommandNode>,
    suggest: string -> SuggestionsResult
  ) returns (r: Result<Brigadier.SuggestionsBuilder, Error>)
    ensures r.Failure? <==> ExtractCommand(builderInput, firstNodeStart).Failure?
    ensures r.Failure? ==> r.error == ExtractCommand(builderInput, firstNodeStart).error
    ensures r.Success? ==>
      var result := suggest(ExtractCommand(builderInput, firstNodeStart).value);
      r.value.start == NewStart(|builderInput|, result.commandInput)
      && EmitsInOrder(r.value.entries, Kept(parent, result.list))
  {
    var text := CommandText(builderInput, firstNodeStart);
    if text.Failure? {
      return Failure(text.error);
    }
    var command := text.value;
    var stripped := StripNamespace(command);
    if stripped.Failure? {
      return Failure(stripped.error);
    }
    command := stripped.value;

    var result := suggest(command);
    var built := Complete(builderInput, parent, result);
    r := Success(built);
  }

  /**
   * End to end: when Cloud answers for the very text it was given and its
   * cursor lies in it, the builder's start is the builder-input position
   * of that cursor, and no emitted entry repeats a sibling literal.
   */
  lemma BridgeOffsetAndFilter(
    builderInput: string,
    firstNodeStart: int,
    parent: CommandNode,
    result: SuggestionsResult
  )
    requires ExtractCommand(builderInput, firstNodeStart).Success?
    requires result.commandInput.input == ExtractCommand(builderInput, firstNodeStart).value
    requires 0 <= result.commandInput.cursor <= |result.commandInput.input|
    ensures var o := NewStart(|builderInput|, result.commandInput);
      0 <= o <= |builderInput| && builderInput[o..] == result.commandInput.input[result.commandInput.cursor..]
    ensures forall x :: x in Kept(Some(parent), result.list) ==> x.suggestion !in SiblingLiterals(parent.children)
  {
    NewStartMapsCursor(builderInput, result.commandInput);
    forall x | x in Kept(Some(parent), result.list)
      ensures x.suggestion !in SiblingLiterals(parent.children)
    {
      WithoutMembers(result.list, SiblingLiterals(parent.children), x);
    }
  }
}
