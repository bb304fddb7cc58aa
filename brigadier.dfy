/**
 * Brigadier's suggestion builder seen from outside: the start offset it
 * was created with and the suggestions offered to it, in call order.
 */
module Brigadier {
  import opened Wrappers

  datatype Suggestion =
    | IntegerSuggestion(value: int, tooltip: Option<string>)
    | TextSuggestion(text: string, tooltip: Option<string>)

  datatype SuggestionsBuilder = SuggestionsBuilder(start: int, entries: seq<Suggestion>)
  {
    /** `suggest(int, Message)`. */
    function SuggestInt(value: int, tooltip: Option<string>): SuggestionsBuilder
    {
      this.(entries := entries + [IntegerSuggestion(value, tooltip)])
    }

    /** `suggest(String, Message)`. */
    function SuggestText(text: string, tooltip: Option<string>): SuggestionsBuilder
    {
      this.(entries := entries + [TextSuggestion(text, tooltip)])
    }
  }

  /** `builder.createOffset(start)`: a builder at `start` that holds no suggestion yet. */
  function CreateOffset(start: int): SuggestionsBuilder
  {
    SuggestionsBuilder(start, [])
  }
}
