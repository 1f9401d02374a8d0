/**
 * Where the two copies of processMessage agree and where they diverge: the
 * summarise branch and the translate format check are the same; the translate
 * prompt gains a closing instruction on WhatsApp; /help and plain text are
 * handled differently.
 */
module Variants {
  import opened JsString
  import opened Gemini
  import opened Commands
  import WebSocketBot
  import WhatsAppBot

  /** Both routers handle /summarise identically, prompt and reply. */
  lemma {:induction false} SummariseAgrees(message: string, gateway: Gateway)
    requires StartsWith(message, SummariseCommand)
    ensures WebSocketBot.ProcessMessage(message, gateway) == WhatsAppBot.ProcessMessage(message, gateway)
  {
  }

  /** Both routers reject a malformed /translate-to- message with the same guidance. */
  lemma {:induction false} TranslateUsageAgrees(message: string, gateway: Gateway)
    requires StartsWith(message, TranslateCommand) && MatchTranslate(message).None?
    ensures WebSocketBot.ProcessMessage(message, gateway) == WhatsAppBot.ProcessMessage(message, gateway)
    ensures WhatsAppBot.ProcessMessage(message, gateway) == Exchange([], TranslateUsage)
  {
    assert !StartsWith(message, SummariseCommand) by {
      assert message[1] == TranslateCommand[1];
    }
  }

  /**
   * On a matched /translate-to- message the WhatsApp prompt is the WebSocket
   * prompt followed by the closing instruction; the failure reply is the same.
   */
  lemma {:induction false} TranslatePromptExtended(message: string, gateway: Gateway)
    requires MatchTranslate(message).Some?
    ensures var ws := WebSocketBot.ProcessMessage(message, gateway);
      var wa := WhatsAppBot.ProcessMessage(message, gateway);
      && |ws.prompts| == 1 && |wa.prompts| == 1
      && wa.prompts[0] == ws.prompts[0] + WhatsAppBot.TranslateInstruction
  {
    var a := MatchTranslate(message).value;
    WebSocketBot.TranslateSendsPrompt(message, gateway, a.language, a.text);
    WhatsAppBot.TranslateSendsPrompt(message, gateway, a.language, a.text);
  }

  /** `/help` and anything after it: rejected by the WebSocket router, answered with the listing on WhatsApp. */
  lemma {:induction false} HelpDiverges(message: string, gateway: Gateway)
    requires StartsWith(message, WhatsAppBot.HelpCommand)
    ensures WebSocketBot.ProcessMessage(message, gateway) == Exchange([], WebSocketBot.UnknownCommand)
    ensures WhatsAppBot.ProcessMessage(message, gateway) == Exchange([], WhatsAppBot.HelpText)
  {
    assert !StartsWith(message, SummariseCommand) && !StartsWith(message, TranslateCommand) by {
      assert message[1] == WhatsAppBot.HelpCommand[1];
    }
    assert StartsWith(message, "/") by {
      assert message[0] == WhatsAppBot.HelpCommand[0];
    }
    WhatsAppBot.HelpListsCommands(message, gateway);
  }

  /** Plain text reaches the model unchanged over WebSocket, and is rejected without a call on WhatsApp. */
  lemma {:induction false} PlainTextDiverges(message: string, gateway: Gateway)
    requires !StartsWith(message, "/")
    ensures WebSocketBot.ProcessMessage(message, gateway).prompts == [message]
    ensures WhatsAppBot.ProcessMessage(message, gateway) == Exchange([], WhatsAppBot.UnknownCommand)
  {
    WebSocketBot.FreeFormPassesThrough(message, gateway);
    assert !StartsWith(message, SummariseCommand) && !StartsWith(message, TranslateCommand)
      && !StartsWith(message, WhatsAppBot.HelpCommand) by {
      if |message| > 0 {
        assert SummariseCommand[0] == '/' && TranslateCommand[0] == '/' && WhatsAppBot.HelpCommand[0] == '/';
      }
    }
  }
}
