/**
 * The WebSocket variant of the command router (backend/index.ts):
 * /summarise, then /translate-to-, then any other slash command (rejected),
 * then free-form conversation passed to the model unchanged.
 */
module WebSocketBot {
  import opened JsString
  import opened Gemini
  import opened Commands

  const UnknownCommand := "I don't recognize that command. Available commands are /summarise and /translate-to-{language}."
  const ProcessingApology := "Sorry, I encountered an error while processing your message."

  /** The translate prompt: the header naming the language, then the text verbatim at the very end. */
  function TranslatePrompt(text: string, language: string): (p: string)
    ensures StartsWith(p, TranslateHeader(language))
    ensures EndsWith(p, text)
    ensures |p| == |TranslateHeader(language)| + |TemplateBreak| + |text|
    ensures p[|TranslateHeader(language)|..|p| - |text|] == TemplateBreak
  {
    var p := TranslateHeader(language) + TemplateBreak + text;
    assert p[|TranslateHeader(language)|..|p| - |text|] == TemplateBreak;
    p
  }

  /** translateText: one prompt, and on any failure the apology that names the language. */
  function TranslateText(text: string, language: string, gateway: Gateway): (e: Exchange)
    ensures e.prompts == [TranslatePrompt(text, language)]
    ensures Extract(gateway(TranslatePrompt(text, language))).Ok? ==> e.reply == Extract(gateway(TranslatePrompt(text, language))).value
    ensures Extract(gateway(TranslatePrompt(text, language))).Err? ==> e.reply == TranslateApology(language)
  {
    AskOr(gateway, TranslatePrompt(text, language), TranslateApology(language))
  }

  /** getGeminiResponse: the message itself is the prompt. */
  function GetGeminiResponse(message: string, gateway: Gateway): (e: Exchange)
    ensures e.prompts == [message]
    ensures Extract(gateway(message)).Ok? ==> e.reply == Extract(gateway(message)).value
    ensures Extract(gateway(message)).Err? ==> e.reply == ProcessingApology
  {
    AskOr(gateway, message, ProcessingApology)
  }

  /**
   * processMessage. At most one prompt reaches the gateway, the reply is never
   * empty, and when no prompt is sent the reply is one of the three fixed
   * guidance strings.
   */
  function ProcessMessage(message: string, gateway: Gateway): (e: Exchange)
    ensures |e.prompts| <= 1
    ensures e.reply != []
    ensures e.prompts == [] ==> e.reply in {SummariseUsage, TranslateUsage, UnknownCommand}
  {
    if StartsWith(message, SummariseCommand) then
      Summarise(message, gateway)
    else if StartsWith(message, TranslateCommand) then
      match MatchTranslate(message)
      case None => Exchange([], TranslateUsage)
      case Some(args) => TranslateText(args.text, args.language, gateway)
    else if StartsWith(message, "/") then
      Exchange([], UnknownCommand)
    else
      GetGeminiResponse(message, gateway)
  }

  /** A /summarise whose rest is all spaces gets the guidance string and no gateway call. */
  lemma {:induction false} SummariseBlank(message: string, gateway: Gateway)
    requires StartsWith(message, SummariseCommand)
    requires AllSpace(message[|SummariseCommand|..])
    ensures ProcessMessage(message, gateway) == Exchange([], SummariseUsage)
  {
    SummariseArgumentIsTrimmedRest(message);
  }

  /**
   * Any other /summarise sends exactly one prompt: the summarise instruction
   * ending with the trimmed rest of the message, which is not empty and has
   * no space at either end. The reply is the model's text or the fixed apology.
   */
  lemma {:induction false} SummariseSendsTrimmedRest(message: string, gateway: Gateway)
    requires StartsWith(message, SummariseCommand)
    requires !AllSpace(message[|SummariseCommand|..])
    ensures var arg := Trim(message[|SummariseCommand|..]);
      && arg != [] && !IsSpace(arg[0]) && !IsSpace(arg[|arg| - 1])
      && ProcessMessage(message, gateway).prompts == [SummarizePrompt(arg)]
      && StartsWith(SummarizePrompt(arg), SummarizeHeader) && EndsWith(SummarizePrompt(arg), arg)
      && ProcessMessage(message, gateway).reply
         == if Extract(gateway(SummarizePrompt(arg))).Ok? then Extract(gateway(SummarizePrompt(arg))).value else SummarizeApology
  {
    SummariseArgumentIsTrimmedRest(message);
  }

  /** A /translate-to- message outside the pattern's language gets the format guidance and no gateway call. */
  lemma {:induction false} TranslateRejected(message: string, gateway: Gateway)
    requires StartsWith(message, TranslateCommand)
    requires forall language, separator, text :: !IsTranslateSplit(message, language, separator, text)
    ensures ProcessMessage(message, gateway) == Exchange([], TranslateUsage)
  {
    assert !StartsWith(message, SummariseCommand) by {
      assert message[1] == TranslateCommand[1];
    }
    if MatchTranslate(message).Some? {
      MatchTranslateSound(message);
      assert false;
    }
  }

  /**
   * A matched /translate-to- message sends one prompt that names the captured
   * language in its header and ends with the captured text; the reply is the
   * model's text, or the apology that names the language.
   */
  lemma {:induction false} TranslateSendsPrompt(message: string, gateway: Gateway, language: string, text: string)
    requires MatchTranslate(message) == Some(TranslateArgs(language, text))
    ensures ProcessMessage(message, gateway).prompts == [TranslatePrompt(text, language)]
    ensures StartsWith(TranslatePrompt(text, language), TranslateHeader(language)) && EndsWith(TranslatePrompt(text, language), text)
    ensures ProcessMessage(message, gateway).reply
      == if Extract(gateway(TranslatePrompt(text, language))).Ok? then Extract(gateway(TranslatePrompt(text, language))).value
         else TranslateApology(language)
  {
    TranslateBranch(message, gateway);
  }

  /** A message the translate pattern matches is answered by translateText with the two captures. */
  lemma {:induction false} TranslateBranch(message: string, gateway: Gateway)
    requires MatchTranslate(message).Some?
    ensures ProcessMessage(message, gateway)
      == TranslateText(MatchTranslate(message).value.text, MatchTranslate(message).value.language, gateway)
  {
    assert !StartsWith(message, SummariseCommand) by {
      assert message[1] == TranslateCommand[1];
    }
  }

  /** Every other slash command, /help included, gets the fixed unrecognised-command reply and no gateway call. */
  lemma {:induction false} OtherSlashRejected(message: string, gateway: Gateway)
    requires StartsWith(message, "/")
    requires !StartsWith(message, SummariseCommand) && !StartsWith(message, TranslateCommand)
    ensures ProcessMessage(message, gateway) == Exchange([], UnknownCommand)
  {
  }

  /** `/help` is not a command of this router. */
  lemma HelpIsUnrecognised(gateway: Gateway)
    ensures ProcessMessage("/help", gateway) == Exchange([], UnknownCommand)
  {
    OtherSlashRejected("/help", gateway);
  }

  /**
   * Free-form text (not starting with a slash) is the prompt, unchanged; on
   * success the reply is exactly the model's text, otherwise the fixed apology.
   */
  lemma {:induction false} FreeFormPassesThrough(message: string, gateway: Gateway)
    requires !StartsWith(message, "/")
    ensures ProcessMessage(message, gateway).prompts == [message]
    ensures Extract(gateway(message)).Ok? ==> ProcessMessage(message, gateway).reply == Extract(gateway(message)).value
    ensures Extract(gateway(message)).Err? ==> ProcessMessage(message, gateway).reply == ProcessingApology
  {
    assert !StartsWith(message, SummariseCommand) && !StartsWith(message, TranslateCommand) by {
      if |message| > 0 {
        assert SummariseCommand[0] == '/' && TranslateCommand[0] == '/';
      }
    }
  }

  /**
   * The reply depends on the gateway only through which prompts succeed and
   * with what text: the cause of a failure never shows.
   */
  lemma {:induction false} FailureCauseIrrelevant(message: string, g1: Gateway, g2: Gateway)
    requires SameSuccesses(g1, g2)
    ensures ProcessMessage(message, g1) == ProcessMessage(message, g2)
  {
    var p := if StartsWith(message, SummariseCommand) then SummarizePrompt(SummariseArgument(message))
      else if StartsWith(message, TranslateCommand) && MatchTranslate(message).Some? then
        TranslatePrompt(MatchTranslate(message).value.text, MatchTranslate(message).value.language)
      else message;
    assert Extract(g1(p)).Ok? == Extract(g2(p)).Ok?;
  }
}
