/**
 * The prompt editor: one text field, two buttons that overwrite it ("Limpar"
 * empties it, "Restaurar" puts the default prompt back) and a submit button
 * that either rejects a blank prompt or confirms and logs it. The toast and
 * the console line are returned as an outcome value.
 */
module PromptEditor {

  import opened Wrappers
  import opened Notify
  import opened JsString

  /** The text "Restaurar" puts back, written in three pieces so that the verifier can look inside it. */
  const DefaultPrompt := "Você é um assistente virtual " + "da Chatify, ajude o usuário " + "com respostas claras e objetivas."

  /** The toast for a blank prompt, in the destructive variant. */
  const EmptyPromptToast := Toast("Prompt vazio", "Por favor, insira um prompt antes de enviar.", true, None)

  /** The toast for a prompt that was sent. */
  const SentToast := Toast("Prompt enviado!", "Seu prompt foi enviado com sucesso.", false, None)

  /** The first argument of the console line; the prompt is the second. */
  const LogLabel := "Prompt enviado:"

  /** What a submit causes: only a warning toast, or a confirmation toast and the
      arguments of the console line. */
  datatype SubmitOutcome = Rejected(toast: Toast) | Sent(toast: Toast, logged: seq<string>)

  /** The default prompt is not blank: it starts with a letter. */
  lemma DefaultPromptNotBlank()
    ensures !AllWhitespace(DefaultPrompt)
  {
    assert DefaultPrompt[0] == 'V';
  }

  class Editor {
    var prompt: string

    /** A freshly mounted editor holds the empty prompt. */
    constructor ()
      ensures prompt == []
    {
      prompt := [];
    }

    /**
     * "Enviar": a prompt made only of whitespace is rejected with the warning
     * toast; any other prompt is confirmed and logged verbatim, untrimmed.
     * The method has no `modifies` clause, so it leaves `prompt` as it was.
     */
    method HandleSubmit() returns (outcome: SubmitOutcome)
      ensures outcome.Rejected? <==> AllWhitespace(prompt)
      ensures outcome.Rejected? ==> outcome.toast == EmptyPromptToast
      ensures outcome.Sent? ==> outcome.toast == SentToast && outcome.logged == [LogLabel, prompt]
    {
      BlankIffAllWhitespace(prompt);
      if IsBlank(prompt) {
        return Rejected(EmptyPromptToast);
      }
      outcome := Sent(SentToast, [LogLabel, prompt]);
    }

    /** "Limpar": empties the prompt. */
    method HandleClear()
      modifies this
      ensures prompt == []
    {
      prompt := [];
    }

    /** "Restaurar": puts the default prompt back. */
    method HandleReset()
      modifies this
      ensures prompt == DefaultPrompt
    {
      prompt := DefaultPrompt;
    }

    /** Typing in the text area stores exactly what was typed. */
    method HandleChange(value: string)
      modifies this
      ensures prompt == value
    {
      prompt := value;
    }
  }

  /** Submitting right after clearing is always rejected, whatever was typed before. */
  method ClearThenSubmit(e: Editor) returns (outcome: SubmitOutcome)
    modifies e
    ensures outcome == Rejected(EmptyPromptToast)
    ensures e.prompt == []
  {
    e.HandleClear();
    outcome := e.HandleSubmit();
  }

  /** Submitting right after a reset always sends the default prompt. */
  method ResetThenSubmit(e: Editor) returns (outcome: SubmitOutcome)
    modifies e
    ensures outcome == Sent(SentToast, [LogLabel, DefaultPrompt])
    ensures e.prompt == DefaultPrompt
  {
    e.HandleReset();
    DefaultPromptNotBlank();
    outcome := e.HandleSubmit();
  }

  /** Clearing twice leaves the same state as clearing once: `once` is the prompt after the first clear. */
  method ClearIsIdempotent(e: Editor) returns (once: string)
    modifies e
    ensures once == []
    ensures e.prompt == once
  {
    e.HandleClear();
    once := e.prompt;
    e.HandleClear();
  }

  /** Resetting twice leaves the same state as resetting once: `once` is the prompt after the first reset. */
  method ResetIsIdempotent(e: Editor) returns (once: string)
    modifies e
    ensures once == DefaultPrompt
    ensures e.prompt == once
  {
    e.HandleReset();
    once := e.prompt;
    e.HandleReset();
  }

  /** A submit reports exactly the text a preceding edit stored, and a second submit agrees with the first. */
  method EditThenSubmitTwice(e: Editor, value: string) returns (first: SubmitOutcome, second: SubmitOutcome)
    requires !AllWhitespace(value)
    modifies e
    ensures first == second == Sent(SentToast, [LogLabel, value])
  {
    e.HandleChange(value);
    first := e.HandleSubmit();
    second := e.HandleSubmit();
  }
}
