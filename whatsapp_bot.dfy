/**
 * The WhatsApp variant of the command router (backend/script.ts):
 * /summarise, then /translate-to-, then /help; everything else, plain text
 * included, is rejected without calling the model. Also the skip-or-reply
 * decision of the message_create handler.
 */
module WhatsAppBot {
  import opened JsString
  import opened Gemini
  import opened Commands

  const HelpText := "Available commands:\n- /summarise {text}: Summarize the provided text\n- /translate-to-{language} {text}: Translate text to the specified language\n- /help: Show this help message"
  /**
   * One literal in backend/script.ts:125. It is written here in two pieces only
   * so that the verifier can read its first characters (RejectionOpening)
   * without expanding the whole literal; the value is the same.
   */
  const UnknownCommand := "I don't recognize" + " that command. Type /help to see available commands."
  const HelpCommand := "/help"

  /** The closing instruction of this variant's translate template, with the template's line breaks and indentation. */
  const TranslateInstruction := "\n    Don't add any other text. Just the translated text if possible else sorry couldn't translate\n    "

  /** The recipient number whose messages the handler leaves alone. */
  const IgnoredRecipient := "9940537699"

  /**
   * The translate prompt: the header naming the language, the text verbatim,
   * then the closing instruction, so the prompt ends with the instruction and
   * not with the text.
   */
  function TranslatePrompt(text: string, language: string): (p: string)
    ensures StartsWith(p, TranslateHeader(language))
    ensures EndsWith(p, TranslateInstruction)
    ensures |p| == |TranslateHeader(language)| + |TemplateBreak| + |text| + |TranslateInstruction|
    ensures p[|TranslateHeader(language)| + |TemplateBreak|..|p| - |TranslateInstruction|] == text
  {
    var p := TranslateHeader(language) + TemplateBreak + text + TranslateInstruction;
    assert p[|TranslateHeader(language)| + |TemplateBreak|..|p| - |TranslateInstruction|] == text;
    p
  }

  /** translateText: one prompt, and on any failure the apology that names the language. */
  function TranslateText(text: string, language: string, gateway: Gateway): (e: Exchange)
    ensures e.prompts == [TranslatePrompt(text, language)]
    ensures Extract(gateway(TranslatePrompt(text, language))).Ok? ==> e.reply == Extract(gateway(TranslatePrompt(text, language))).value
    ensures Extract(gateway(TranslatePrompt(text, language))).Err? ==> e.reply == TranslateApology(language)
  {
    AskOr(gateway, TranslatePrompt(text, language), TranslateApology(language))
  }

  /**
   * processMessage. At most one prompt reaches the gateway, the reply is never
   * empty, and when no prompt is sent the reply is one of the four fixed strings.
   */
  function ProcessMessage(message: string, gateway: Gateway): (e: Exchange)
    ensures |e.prompts| <= 1
    ensures e.reply != []
    ensures e.prompts == [] ==> e.reply in {SummariseUsage, TranslateUsage, HelpText, UnknownCommand}
  {
    if StartsWith(message, SummariseCommand) then
      Summarise(message, gateway)
    else if StartsWith(message, TranslateCommand) then
      match MatchTranslate(message)
      case None => Exchange([], TranslateUsage)
      case Some(args) => TranslateText(args.text, args.language, gateway)
    else if StartsWith(message, HelpCommand) then
      Exchange([], HelpText)
    else
      Exchange([], UnknownCommand)
  }

  /**
   * The message_create handler: None when nothing is sent back. Messages to the
   * ignored recipient and bodies that trim to nothing get no reply; every other
   * body gets exactly one reply, processMessage of the untrimmed body.
   */
  function OnMessageCreate(to: string, body: string, gateway: Gateway): (reply: Option<Exchange>)
    ensures reply.None? <==> Includes(to, IgnoredRecipient) || AllSpace(body)
    ensures reply.Some? ==> reply.value == ProcessMessage(body, gateway)
  {
    if Includes(to, IgnoredRecipient) then None
    else if Trim(body) == [] then None
    else Some(ProcessMessage(body, gateway))
  }

  /** A /summarise whose rest is all spaces gets the guidance string and no gateway call. */
  lemma {:induction false} SummariseBlank(message: string, gateway: Gateway)
    requires StartsWith(message, SummariseCommand)
    requires AllSpace(message[|SummariseCommand|..])
    ensures ProcessMessage(message, gateway) == Exchange([], SummariseUsage)
  {
    SummariseArgumentIsTrimmedRest(message);
  }

  /**
   * Any other /summarise sends exactly one prompt, ending with the trimmed rest
   * of the message; the reply is the model's text or the fixed apology.
   */
  lemma {:induction false} SummariseSendsTrimmedRest(message: string, gateway: Gateway)
    requires StartsWith(message, SummariseCommand)
    requires !AllSpace(message[|SummariseCommand|..])
    ensures var arg := Trim(message[|SummariseCommand|..]);
      && arg != [] && !IsSpace(arg[0]) && !IsSpace(arg[|arg| - 1])
      && ProcessMessage(message, gateway).prompts == [SummarizePrompt(arg)]
      && EndsWith(SummarizePrompt(arg), arg)
      && ProcessMessage(message, gateway).reply
         == if Extract(gateway(SummarizePrompt(arg))).Ok? then Extract(gateway(SummarizePrompt(arg))).value else SummarizeApology
  {
    SummariseArgumentIsTrimmedRest(message);
  }

  /** A /translate-to- message outside the pattern's language gets the format guidance and no gateway call. */
  lemma {:induction false} TranslateRejected(message: string, gateway: Gateway)
    requires StartsWith(message, TranslateCommand)
    requires forall language, separator, text :: !IsTranslateSplit(message, language, separator, text)
    ensures ProcessMessage(message, gateway) == Exchange([], TranslateUsage)
  {
    assert !StartsWith(message, SummariseCommand) by {
      assert message[1] == TranslateCommand[1];
    }
    if MatchTranslate(message).Some? {
      MatchTranslateSound(message);
      assert false;
    }
  }

  /**
   * A matched /translate-to- message sends one prompt that names the captured
   * language, carries the captured text and ends with the closing instruction;
   * the reply is the model's text, or the apology that names the language.
   */
  lemma {:induction false} TranslateSendsPrompt(message: string, gateway: Gateway, language: string, text: string)
    requires MatchTranslate(message) == Some(TranslateArgs(language, text))
    ensures ProcessMessage(message, gateway).prompts == [TranslatePrompt(text, language)]
    ensures var p := TranslatePrompt(text, language);
      StartsWith(p, TranslateHeader(language)) && Includes(p, text) && EndsWith(p, TranslateInstruction)
    ensures ProcessMessage(message, gateway).reply
      == if Extract(gateway(TranslatePrompt(text, language))).Ok? then Extract(gateway(TranslatePrompt(text, language))).value
         else TranslateApology(language)
  {
    TranslateBranch(message, gateway);
    PromptCarriesText(text, language);
  }

  /** A message the translate pattern matches is answered by translateText with the two captures. */
  lemma {:induction false} TranslateBranch(message: string, gateway: Gateway)
    requires MatchTranslate(message).Some?
    ensures ProcessMessage(message, gateway)
      == TranslateText(MatchTranslate(message).value.text, MatchTranslate(message).value.language, gateway)
  {
    assert !StartsWith(message, SummariseCommand) by {
      assert message[1] == TranslateCommand[1];
    }
  }

  /** The translate prompt contains the text, just after the template break. */
  lemma {:induction false} PromptCarriesText(text: string, language: string)
    ensures Includes(TranslatePrompt(text, language), text)
  {
    assert OccursAt(TranslatePrompt(text, language), text, |TranslateHeader(language)| + |TemplateBreak|);
  }

  /** Any message starting with /help (such as /helpme) gets the command listing and no gateway call. */
  lemma {:induction false} HelpListsCommands(message: string, gateway: Gateway)
    requires StartsWith(message, HelpCommand)
    ensures ProcessMessage(message, gateway) == Exchange([], HelpText)
  {
    assert !StartsWith(message, SummariseCommand) && !StartsWith(message, TranslateCommand) by {
      assert message[1] == HelpCommand[1];
    }
  }

  /**
   * There is no free-form path: every message that starts with none of the
   * three commands, plain text included, gets the fixed rejection and no
   * gateway call.
   */
  lemma {:induction false} EverythingElseRejected(message: string, gateway: Gateway)
    requires !StartsWith(message, SummariseCommand) && !StartsWith(message, TranslateCommand)
    requires !StartsWith(message, HelpCommand)
    ensures ProcessMessage(message, gateway) == Exchange([], UnknownCommand)
  {
  }

  /**
   * The rejection is a fixed point of the router: it is not blank, so fed back
   * as a message body to a recipient that is not ignored it is routed again
   * (by OnMessageCreate's contract) and answered with itself, without a
   * gateway call. A transport that hands the bot its own replies would keep
   * answering them.
   */
  lemma {:induction false} RejectionAnswersItself(body: string, gateway: Gateway)
    requires body == UnknownCommand
    ensures !AllSpace(body)
    ensures ProcessMessage(body, gateway) == Exchange([], body)
  {
    RejectionOpening(body);
    EverythingElseRejected(body, gateway);
  }

  /** The rejection starts with a letter: it is neither blank nor a command. */
  lemma {:induction false} RejectionOpening(body: string)
    requires body == UnknownCommand
    ensures !AllSpace(body)
    ensures !StartsWith(body, SummariseCommand) && !StartsWith(body, TranslateCommand) && !StartsWith(body, HelpCommand)
  {
    assert body[0] == 'I';
  }

  /** The reply depends on the gateway only through which prompts succeed and with what text. */
  lemma {:induction false} FailureCauseIrrelevant(message: string, g1: Gateway, g2: Gateway)
    requires SameSuccesses(g1, g2)
    ensures ProcessMessage(message, g1) == ProcessMessage(message, g2)
  {
    var p := if StartsWith(message, SummariseCommand) then SummarizePrompt(SummariseArgument(message))
      else if StartsWith(message, TranslateCommand) && MatchTranslate(message).Some? then
        TranslatePrompt(MatchTranslate(message).value.text, MatchTranslate(message).value.language)
      else message;
    assert Extract(g1(p)).Ok? == Extract(g2(p)).Ok?;
  }
}
