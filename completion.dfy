/** The text-generation backend as the engine sees it: a prompt goes in, and
    what comes back is untrusted. */
module Completion {
  import opened Common

  /** A request to the backend. Each alternative stands for one fixed prompt
      template filled with the values it carries; the template text, the
      system message (with today's date and the configured prefix) and the
      sampling settings belong to the backend. */
  datatype Prompt =
    | JudgePrompt(query: string, digest: string, round: int)
    | FollowUpPrompt(query: string, digest: string)
    | AnswerPrompt(query: string, rounds: int, resultCount: nat, context: string)
    | PyAnswerPrompt(query: string, context: string)

  /** The backend's reply to a prompt. A failed request yields the text
      "AI response failed: ..." like any other reply; `None` is a reply whose
      `message.content` is not a string, on which string methods throw. */
  type CompletionBackend = Prompt -> Option<string>
}
