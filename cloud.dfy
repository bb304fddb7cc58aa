/**
 * The Cloud values the suggestion bridge consumes: tooltip suggestions,
 * the command input with its cursor, the suggestion result, and the
 * command tree nodes whose components name literal aliases.
 */
module Cloud {
  import opened Wrappers

  /** A suggestion text with its optional Brigadier tooltip message. */
  datatype TooltipSuggestion = TooltipSuggestion(suggestion: string, tooltip: Option<string>)

  /** The input Cloud parsed, and the cursor it reached in it. */
  datatype CommandInput = CommandInput(input: string, cursor: int)
  {
    function Length(): nat
    {
      |input|
    }
  }

  /** What Cloud's suggestion factory completes with. */
  datatype SuggestionsResult = SuggestionsResult(list: seq<TooltipSuggestion>, commandInput: CommandInput)

  datatype ComponentType = Literal | RequiredVariable | OptionalVariable

  /** A command component: its kind and the names it answers to. */
  datatype CommandComponent = CommandComponent(kind: ComponentType, aliases: set<string>)

  /** A node of Cloud's command tree; the root carries no component. */
  datatype CommandNode = CommandNode(component: Option<CommandComponent>, children: seq<CommandNode>)

  /** `node` has a literal component answering to `alias`. */
  predicate IsLiteralWith(node: CommandNode, alias: string)
  {
    node.component.Some? && node.component.value.kind == Literal && alias in node.component.value.aliases
  }
}
