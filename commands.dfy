/**
 * What the WebSocket and the WhatsApp routers share: the command prefixes,
 * the fixed replies that are word for word the same in both, the summarise
 * branch with its prompt builder, and the translate pattern
 * ^/translate-to-([a-zA-Z]+)\s+(.+)$ written as a function without regular
 * expressions, with a declarative statement of the language it accepts.
 */
module Commands {
  import opened JsString
  import opened Gemini

  const SummariseCommand := "/summarise"
  const TranslateCommand := "/translate-to-"

  const SummariseUsage := "Please provide text to summarize after the /summarise command."
  const TranslateUsage := "Please use the format: /translate-to-{language} {text to translate}"
  const SummarizeApology := "Sorry, I encountered an error while trying to summarize your text."

  function TranslateApology(language: string): string {
    "Sorry, I encountered an error while trying to translate to " + language + "."
  }

  /** The line break, the indentation-only line and the indentation that the template literals carry before the text. */
  const TemplateBreak := "\n    \n    "
  const SummarizeHeader := "Please summarize the following text concisely:"

  /** The first line of the translate prompt, up to and including the colon. */
  function TranslateHeader(language: string): string {
    "Translate the following text to " + language + ":"
  }

  // ---------------------------------------------------------------- summarise

  /** The summarise prompt: the fixed instruction, then the text verbatim at the very end. */
  function SummarizePrompt(text: string): (p: string)
    ensures StartsWith(p, SummarizeHeader)
    ensures EndsWith(p, text)
    ensures |p| == |SummarizeHeader| + |TemplateBreak| + |text|
  {
    SummarizeHeader + TemplateBreak + text
  }

  /** summarizeText: one prompt, and the fixed apology on any gateway failure. */
  function SummarizeText(text: string, gateway: Gateway): (e: Exchange)
    ensures e.prompts == [SummarizePrompt(text)]
    ensures Extract(gateway(SummarizePrompt(text))).Ok? ==> e.reply == Extract(gateway(SummarizePrompt(text))).value
    ensures Extract(gateway(SummarizePrompt(text))).Err? ==> e.reply == SummarizeApology
  {
    AskOr(gateway, SummarizePrompt(text), SummarizeApology)
  }

  /** `message.replace('/summarise', '').trim()`. */
  function SummariseArgument(message: string): string {
    Trim(RemoveFirst(message, SummariseCommand))
  }

  /**
   * For a message that starts with /summarise, the argument is the rest of the
   * message trimmed: no word boundary is needed after the command, and the
   * argument is empty exactly when the rest is all spaces.
   */
  lemma {:induction false} SummariseArgumentIsTrimmedRest(message: string)
    requires StartsWith(message, SummariseCommand)
    ensures SummariseArgument(message) == Trim(message[|SummariseCommand|..])
    ensures SummariseArgument(message) == [] <==> AllSpace(message[|SummariseCommand|..])
    ensures SummariseArgument(message) != [] ==>
      !IsSpace(SummariseArgument(message)[0]) && !IsSpace(SummariseArgument(message)[|SummariseArgument(message)| - 1])
  {
    RemoveFirstOfPrefix(message, SummariseCommand);
  }

  /** Lines 26-30 of the WebSocket router and 103-107 of the WhatsApp router, which are the same. */
  function Summarise(message: string, gateway: Gateway): (e: Exchange)
    ensures e.prompts == [] <==> SummariseArgument(message) == []
    ensures e.prompts == [] ==> e.reply == SummariseUsage
    ensures e.prompts != [] ==> e.prompts == [SummarizePrompt(SummariseArgument(message))]
  {
    var text := SummariseArgument(message);
    if text == [] then Exchange([], SummariseUsage)
    else SummarizeText(text, gateway)
  }

  /**
   * No separator is needed after the command: `/summarise` immediately
   * followed by a text with no space at either end (as in `/summarisefoo`)
   * summarises exactly that text.
   */
  lemma {:induction false} SummariseWithoutSeparator(text: string, gateway: Gateway)
    requires text != [] && !IsSpace(text[0]) && !IsSpace(text[|text| - 1])
    ensures Summarise(SummariseCommand + text, gateway).prompts == [SummarizePrompt(text)]
  {
    var message := SummariseCommand + text;
    assert StartsWith(message, SummariseCommand);
    SummariseArgumentIsTrimmedRest(message);
    assert message[|SummariseCommand|..] == text;
    TrimFixedPoint(text);
  }

  // ---------------------------------------------------------------- translate

  /** The two capture groups of the translate pattern. */
  datatype TranslateArgs = TranslateArgs(language: string, text: string)

  /**
   * The pieces after the language, without backtracking: a non-empty run of
   * whitespace (`\s+`) and a non-empty text free of line terminators (`.+$`).
   */
  predicate IsSeparatedText(separator: string, text: string) {
    && separator != [] && AllSpace(separator)
    && text != [] && NoLineTerminator(text)
  }

  /** Everything after the prefix: a non-empty run of ASCII letters, then a separated text. */
  predicate IsArgumentsSplit(rest: string, language: string, separator: string, text: string) {
    && rest == language + separator + text
    && language != [] && AllLetters(language)
    && IsSeparatedText(separator, text)
  }

  /** The language of the translate pattern: the prefix, then the arguments. */
  predicate IsTranslateSplit(message: string, language: string, separator: string, text: string) {
    StartsWith(message, TranslateCommand) && IsArgumentsSplit(message[|TranslateCommand|..], language, separator, text)
  }

  /**
   * `\s+(.+)$` with its backtracking worked out. With the whitespace run taken
   * whole, `.+$` matches the rest when the rest is not empty and holds no line
   * terminator. When the rest is empty, \s+ gives back its last character,
   * which `.+` takes if it is not a line terminator and \s+ keeps at least one.
   * A match is a split of the input into whitespace and text.
   */
  function MatchSeparatedText(s: string): (t: Option<string>)
    ensures t.Some? ==> |t.value| < |s| && EndsWith(s, t.value) && IsSeparatedText(s[..|s| - |t.value|], t.value)
  {
    var w := LeadingRun(s, IsSpace);
    if w == 0 then None
    else if w < |s| then
      if NoLineTerminator(s[w..]) then Some(s[w..]) else None
    else if w >= 2 && !IsLineTerminator(s[w - 1]) then Some(s[w - 1..])
    else None
  }

  /**
   * Every split into whitespace and text is matched, and the greedy \s+
   * leaves the shortest text: the matched text is a suffix of the split's.
   */
  lemma {:induction false} MatchSeparatedTextComplete(separator: string, text: string)
    requires IsSeparatedText(separator, text)
    ensures MatchSeparatedText(separator + text).Some?
    ensures EndsWith(text, MatchSeparatedText(separator + text).value)
  {
    var s := separator + text;
    var w := LeadingRun(s, IsSpace);
    assert w >= |separator| by {
      forall k | 0 <= k < |separator| ensures IsSpace(s[k]) {
        assert s[k] == separator[k];
      }
    }
    var tail := s[w..];
    assert tail == text[w - |separator|..];
    if tail != [] {
      assert NoLineTerminator(tail) by {
        forall k | 0 <= k < |tail| ensures !IsLineTerminator(tail[k]) {
          assert tail[k] == text[w - |separator| + k];
        }
      }
    } else {
      assert s[w - 1] == text[|text| - 1];
      assert s[w - 1..] == text[|text| - 1..];
    }
  }

  /**
   * What follows `/translate-to-`: group 1 is the maximal run of letters (a
   * shorter one leaves a letter where \s must match), then the separated text.
   */
  function MatchArguments(rest: string): (m: Option<TranslateArgs>)
    ensures m.Some? ==> m.value.language != [] && AllLetters(m.value.language) && StartsWith(rest, m.value.language)
    ensures m.Some? ==> m.value.text != [] && NoLineTerminator(m.value.text)
    ensures m.Some? ==> |m.value.language| + |m.value.text| < |rest|
  {
    var l := LeadingRun(rest, IsAsciiLetter);
    if l == 0 then None
    else
      match MatchSeparatedText(rest[l..])
      case None => None
      case Some(text) => Some(TranslateArgs(rest[..l], text))
  }

  /** Cutting `rest` at `l` and before a suffix `text` of what follows gives three pieces that make it up again. */
  lemma {:induction false} Reassemble(rest: string, l: nat, text: string)
    requires l <= |rest| && EndsWith(rest[l..], text)
    ensures rest[l..][..|rest| - l - |text|] == rest[l..|rest| - |text|]
    ensures rest == rest[..l] + rest[l..|rest| - |text|] + text
  {
    assert rest[|rest| - |text|..] == text;
  }

  /** A match splits the arguments into the captured letters, whitespace and the captured text. */
  lemma {:induction false} MatchArgumentsSound(rest: string)
    requires MatchArguments(rest).Some?
    ensures var a := MatchArguments(rest).value;
      IsArgumentsSplit(rest, a.language, rest[|a.language|..|rest| - |a.text|], a.text)
  {
    var a := MatchArguments(rest).value;
    var l := LeadingRun(rest, IsAsciiLetter);
    assert MatchSeparatedText(rest[l..]) == Some(a.text) && a.language == rest[..l];
    Reassemble(rest, l, a.text);
  }

  /** Every split of the arguments is matched, with the same language and a suffix of its text. */
  lemma {:induction false} MatchArgumentsComplete(rest: string, language: string, separator: string, text: string)
    requires IsArgumentsSplit(rest, language, separator, text)
    ensures MatchArguments(rest).Some?
    ensures MatchArguments(rest).value.language == language
    ensures EndsWith(text, MatchArguments(rest).value.text)
  {
    var l := LeadingRun(rest, IsAsciiLetter);
    assert rest[|language|] == separator[0];
    assert l == |language|;
    assert rest[..l] == language;
    assert rest[l..] == separator + text;
    MatchSeparatedTextComplete(separator, text);
  }

  /**
   * `message.match(/^\/translate-to-([a-zA-Z]+)\s+(.+)$/)`: the prefix, then
   * the arguments.
   */
  function MatchTranslate(message: string): (m: Option<TranslateArgs>)
    ensures m.Some? ==> StartsWith(message, TranslateCommand)
    ensures m.Some? ==> m.value.language != [] && AllLetters(m.value.language)
    ensures m.Some? ==> m.value.text != [] && NoLineTerminator(m.value.text)
    ensures m.Some? ==> |TranslateCommand| + |m.value.language| + |m.value.text| < |message|
  {
    if !StartsWith(message, TranslateCommand) then None
    else MatchArguments(message[|TranslateCommand|..])
  }

  /**
   * Every match is a split of the message into the prefix, the captured
   * letters, whitespace and the captured line-terminator-free text.
   */
  lemma {:induction false} MatchTranslateSound(message: string)
    requires MatchTranslate(message).Some?
    ensures var a := MatchTranslate(message).value;
      var rest := message[|TranslateCommand|..];
      IsTranslateSplit(message, a.language, rest[|a.language|..|rest| - |a.text|], a.text)
  {
    MatchArgumentsSound(message[|TranslateCommand|..]);
  }

  /**
   * Every message in the pattern's language is matched, with the same
   * language, and the greedy \s+ leaves the shortest text: the matched text
   * is a suffix of the text of any split.
   */
  lemma {:induction false} MatchTranslateComplete(message: string, language: string, separator: string, text: string)
    requires IsTranslateSplit(message, language, separator, text)
    ensures MatchTranslate(message).Some?
    ensures MatchTranslate(message).value.language == language
    ensures EndsWith(text, MatchTranslate(message).value.text)
  {
    MatchArgumentsComplete(message[|TranslateCommand|..], language, separator, text);
  }

  /**
   * The pattern accepts a message whose text is only whitespace when the
   * whitespace run is at least two characters long and its last character is
   * not a line terminator: `/translate-to-fr  `
   * matches with a single space as the text.
   */
  lemma BlankTranslationAccepted()
    ensures MatchTranslate("/translate-to-fr  ") == Some(TranslateArgs("fr", " "))
  {
    MatchTranslateComplete("/translate-to-fr  ", "fr", " ", " ");
  }

  /** A missing language token, as in `/translate-to- hello`, is never matched. */
  lemma {:induction false} MissingLanguageRejected(rest: string)
    requires rest == [] || !IsAsciiLetter(rest[0])
    ensures MatchTranslate(TranslateCommand + rest) == None
  {
    assert (TranslateCommand + rest)[|TranslateCommand|..] == rest;
  }
}
