/** getPokemonSuggestions: the prompt chosen from the user's interest, the
    JSON array cut out of the model's reply, and at most five suggestions
    kept. The language model and the JSON parser are parameters. */
module Suggestions {
  import opened Common

  const NotConfigured := "AI service not configured"
  const ParseFailed := "Failed to parse AI response"
  const SuggestFailed := "Failed to get AI suggestions"
  const MaxSuggestions := 5

  datatype Suggestion = Suggestion(name: string, reason: string)

  /** `{ success, suggestions, error? }` */
  datatype SuggestionsResult = SuggestionsResult(success: bool, suggestions: seq<Suggestion>, error: Option<string>)

  /** The two prompts: one built around the user's interest, one asking
      for random Pokemon to discover. */
  datatype Prompt = InterestPrompt(interest: string) | DiscoveryPrompt

  /** What `generateContent` gives back: the reply's text, or a throw. */
  datatype Generation = GenerationFailed | Generated(text: string)

  /** The interest prompt is used only for a non-empty context. */
  function PromptFor(context: Option<string>): (p: Prompt)
    ensures p.InterestPrompt? <==> context.Some? && context.value != ""
    ensures p.InterestPrompt? ==> p.interest == context.value
  {
    if context.Some? && context.value != "" then InterestPrompt(context.value) else DiscoveryPrompt
  }

  /** The position of the first `c` in `s`. */
  function FirstIndex(s: string, c: char): (r: Option<nat>)
    ensures r.None? <==> c !in s
    ensures r.Some? ==> r.value < |s| && s[r.value] == c
    ensures r.Some? ==> forall k :: 0 <= k < r.value ==> s[k] != c
  {
    if s == [] then None
    else if s[0] == c then Some(0)
    else
      var rest := FirstIndex(s[1..], c);
      assert s == [s[0]] + s[1..];
      if rest.None? then None
      else
        Some(rest.value + 1)
  }

  /** The position of the last `c` in `s`. */
  function LastIndex(s: string, c: char): (r: Option<nat>)
    ensures r.None? <==> c !in s
    ensures r.Some? ==> r.value < |s| && s[r.value] == c
    ensures r.Some? ==> forall k :: r.value < k < |s| ==> s[k] != c
  {
    if s == [] then None
    else if s[|s| - 1] == c then Some(|s| - 1)
    else
      var init := s[..|s| - 1];
      var rest := LastIndex(init, c);
      assert s == init + [s[|s| - 1]];
      if rest.None? then None
      else
        rest
  }

  /** `text.match(/\[[\s\S]*\]/)`: from the first '[' to the last ']'
      after it, or nothing when no ']' follows a '['. */
  function JsonSpan(text: string): Option<string> {
    var open := FirstIndex(text, '[');
    var close := LastIndex(text, ']');
    if open.None? || close.None? || close.value < open.value then None
    else Some(text[open.value..close.value + 1])
  }

  /** A match of the pattern: a '[' at `i` and a ']' at `j` after it. */
  predicate IsMatchAt(text: string, i: int, j: int) {
    0 <= i < j < |text| && text[i] == '[' && text[j] == ']'
  }

  /** The span is what the regular expression finds: there is one exactly
      when some '[' has a ']' after it, and it is the leftmost-starting,
      longest such substring. */
  lemma JsonSpanIsLeftmostLongest(text: string)
    ensures JsonSpan(text).Some? <==> exists i, j :: IsMatchAt(text, i, j)
    ensures JsonSpan(text).Some? ==>
      exists i, j ::
        && IsMatchAt(text, i, j)
        && JsonSpan(text).value == text[i..j + 1]
        && (forall i', j' :: IsMatchAt(text, i', j') ==> i <= i' && j' <= j)
  {
    var open := FirstIndex(text, '[');
    var close := LastIndex(text, ']');
    assert open.Some? && close.Some? && open.value <= close.value ==> IsMatchAt(text, open.value, close.value);
    if exists i, j :: IsMatchAt(text, i, j) {
      var i, j :| IsMatchAt(text, i, j);
      assert text[i] in text && text[j] in text;
      assert IsMatchAt(text, open.value, close.value);
    }
  }

  /** `suggestions.slice(0, 5)` */
  function TakeAtMost<T>(s: seq<T>, n: nat): (r: seq<T>)
    ensures |r| <= n && r <= s
    ensures |r| == if |s| <= n then |s| else n
    ensures |s| <= n ==> r == s
  {
    if |s| <= n then s else s[..n]
  }

  /** getPokemonSuggestions. Without a key the model is not asked; a reply
      with no bracketed span, a model that throws and a span the parser
      rejects each give their own failure. */
  function GetPokemonSuggestions(apiKey: Option<string>, context: Option<string>,
                                 generate: Prompt -> Generation,
                                 parse: string -> Option<seq<Suggestion>>): (r: SuggestionsResult)
    ensures apiKey.None? || apiKey.value == "" ==> r == SuggestionsResult(false, [], Some(NotConfigured))
    ensures r.success <==>
      && apiKey.Some? && apiKey.value != ""
      && generate(PromptFor(context)).Generated?
      && JsonSpan(generate(PromptFor(context)).text).Some?
      && parse(JsonSpan(generate(PromptFor(context)).text).value).Some?
    ensures r.success ==> r.error.None? && |r.suggestions| <= MaxSuggestions
    ensures r.success ==>
      var all := parse(JsonSpan(generate(PromptFor(context)).text).value).value;
      && r.suggestions <= all
      && |r.suggestions| == if |all| <= MaxSuggestions then |all| else MaxSuggestions
    ensures !r.success ==> r.suggestions == [] && r.error.Some?
    ensures apiKey.Some? && apiKey.value != "" && generate(PromptFor(context)).Generated? ==>
      (JsonSpan(generate(PromptFor(context)).text).None? <==> r.error == Some(ParseFailed))
    ensures apiKey.Some? && apiKey.value != "" && generate(PromptFor(context)).GenerationFailed? ==>
      r == SuggestionsResult(false, [], Some(SuggestFailed))
    ensures apiKey.Some? && apiKey.value != "" && generate(PromptFor(context)).Generated?
            && JsonSpan(generate(PromptFor(context)).text).Some?
            && parse(JsonSpan(generate(PromptFor(context)).text).value).None? ==>
      r == SuggestionsResult(false, [], Some(SuggestFailed))
  {
    if apiKey.None? || apiKey.value == "" then SuggestionsResult(false, [], Some(NotConfigured))
    else
      match generate(PromptFor(context))
      case GenerationFailed => SuggestionsResult(false, [], Some(SuggestFailed))
      case Generated(text) =>
        match JsonSpan(text)
        case None => SuggestionsResult(false, [], Some(ParseFailed))
        case Some(span) =>
          match parse(span)
          case None => SuggestionsResult(false, [], Some(SuggestFailed))
          case Some(all) => SuggestionsResult(true, TakeAtMost(all, MaxSuggestions), None)
  }

  /** A reply holding a bracketed array, even inside other text, reaches
      the parser as exactly that array. */
  lemma SpanFromWrappedReply(before: string, json: string, after: string)
    requires '[' !in before && ']' !in after
    requires |json| >= 2 && json[0] == '[' && json[|json| - 1] == ']'
    ensures JsonSpan(before + json + after) == Some(json)
  {
    var text := before + json + after;
    var i, j := |before|, |before| + |json| - 1;
    assert IsMatchAt(text, i, j);
    JsonSpanIsLeftmostLongest(text);
    var i0, j0 :| IsMatchAt(text, i0, j0) && JsonSpan(text).value == text[i0..j0 + 1]
      && (forall i', j' :: IsMatchAt(text, i', j') ==> i0 <= i' && j' <= j0);
    forall k | 0 <= k < i
      ensures text[k] != '['
    {
      assert text[k] == before[k];
    }
    forall k | j < k < |text|
      ensures text[k] != ']'
    {
      assert text[k] == after[k - |before| - |json|];
    }
    assert text[i..j + 1] == json;
  }
}
