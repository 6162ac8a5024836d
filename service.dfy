/**
 * The chat-completions service as the application sees it: role-tagged
 * messages go in, and either a completion text or a raised error comes back.
 * The service itself is opaque; callers receive it as a function parameter.
 */
module Service {

  /** The model every request names (app.py:15). */
  const DefaultModel: string := "gpt-4o-mini"

  /** Prefix of every caught error shown to the user, as in `f"Erreur : {e}"`. */
  const ErrorPrefix: string := "Erreur : "

  datatype Role = System | User | Assistant

  datatype Message = Message(role: Role, content: string)

  /** One `client.chat.completions.create(...)` call. */
  datatype Request = Request(model: string, messages: seq<Message>, temperature: real)

  /**
   * What the call yields: the text of `resp.choices[0].message.content`, or the
   * string of the exception it raised (`str(e)`).
   */
  datatype Completion = Completed(text: string) | Raised(reason: string)

  /** The user-facing form of a caught exception. */
  function ErrorText(reason: string): (r: string)
    ensures |r| == |ErrorPrefix| + |reason|
    ensures r[..|ErrorPrefix|] == ErrorPrefix && r[|ErrorPrefix|..] == reason
  {
    ErrorPrefix + reason
  }
}
