/** What the pipeline sees of the Gemini generative-model client. */
module Gemini {

  /** The API key value the scripts treat as "not configured". */
  const KeyPlaceholder := "SUA_CHAVE_API_AQUI"

  /** Outcome of one model call: the reply's text, or the message of the exception raised. */
  datatype ModelCall = Reply(text: string) | Raised(message: string)
}
