/**
  * `get_gemini_response`: builds the ordered parts list (the prompt, then the attached content),
  * hands the request to the generation service, and turns any exception into a reply string.
  * The service itself is foreign: it is a parameter that answers a request with a stream of
  * fragments or with the message of the exception it raised.
  */
module Generation {
  import opened Options
  import opened PyStr
  import opened Upload
  import opened Streaming

  /** One element of the parts list sent to the model. */
  datatype Part = PromptPart(text: string) | ContentPart(content: Content)

  /**
    * What reaches the service: the key it was configured with in this call (none when the key
    * is empty, so no configuration happens), the model name, the system instruction bound to the
    * model, and the parts.
    */
  datatype Request = Request(apiKey: Option<string>, modelName: string, systemInstruction: string, parts: seq<Part>)

  /** What the service does with a request: stream a reply, or raise with a message. */
  datatype ModelCall = Streamed(fragments: seq<Fragment>) | Failed(message: string)

  /** What `get_gemini_response` returns: the reply stream, or a string describing the failure. */
  datatype Response = Stream(fragments: seq<Fragment>) | ErrorReply(text: string)

  /** The text whose presence in an exception message marks a rejected key. */
  const KeyNotValid: string := "API key not valid"
  /** The words of the key-error reply that the chat turn looks for to roll back. */
  const KeyErrorTag: string := "Error de Clave API"
  const KeyErrorReply: string :=
    "⚠️ " + KeyErrorTag + ": La clave proporcionada (GEMINI_API_KEY) no es válida. Por favor, verifica tu configuración."
  const ErrorPrefix: string := "❌ Error: "

  /** The parts list: the prompt first, then each content item in its given order. */
  function BuildParts(userPrompt: string, contents: seq<Content>): (parts: seq<Part>)
    ensures |parts| == |contents| + 1
    ensures parts[0] == PromptPart(userPrompt)
    ensures forall i :: 0 <= i < |contents| ==> parts[i + 1] == ContentPart(contents[i])
  {
    [PromptPart(userPrompt)] + seq(|contents|, i requires 0 <= i < |contents| => ContentPart(contents[i]))
  }

  /** The request the service receives; the key is configured only when it is non-empty. */
  function BuildRequest(apiKey: string, modelName: string, userPrompt: string, systemInstruction: string,
                        contents: seq<Content>): (req: Request)
    ensures req.apiKey.Some? <==> apiKey != ""
    ensures req.apiKey.Some? ==> req.apiKey.value == apiKey
    ensures req.parts == BuildParts(userPrompt, contents)
    ensures req.modelName == modelName && req.systemInstruction == systemInstruction
  {
    Request(if apiKey != "" then Some(apiKey) else None, modelName, systemInstruction, BuildParts(userPrompt, contents))
  }

  /**
    * The `except` clause: a message mentioning an invalid key gives the fixed key-error reply,
    * and every other message is reported after the generic prefix. The two cases never produce
    * the same string.
    */
  function DescribeFailure(message: string): (text: string)
    ensures text == KeyErrorReply <==> Contains(message, KeyNotValid)
    ensures text != KeyErrorReply ==> text == ErrorPrefix + message
  {
    if Contains(message, KeyNotValid) then KeyErrorReply
    else
      assert ErrorPrefix[0] == '❌' && KeyErrorReply[0] == '⚠';
      assert (ErrorPrefix + message)[0] != KeyErrorReply[0];
      ErrorPrefix + message
  }

  /**
    * `get_gemini_response`: a streaming service answer is returned as the stream, a raised
    * exception as its description.
    */
  function GetGeminiResponse(apiKey: string, modelName: string, userPrompt: string, systemInstruction: string,
                             contents: seq<Content>, service: Request -> ModelCall): (r: Response)
    ensures var call := service(BuildRequest(apiKey, modelName, userPrompt, systemInstruction, contents));
      (r.Stream? <==> call.Streamed?) &&
      (r.Stream? ==> r.fragments == call.fragments) &&
      (r.ErrorReply? ==> r.text == DescribeFailure(call.message))
  {
    match service(BuildRequest(apiKey, modelName, userPrompt, systemInstruction, contents))
    case Streamed(fs) => Stream(fs)
    case Failed(m) => ErrorReply(DescribeFailure(m))
  }

  /** With nothing attached the parts list is the prompt alone. */
  lemma PromptOnlyWithoutContent(userPrompt: string)
    ensures BuildParts(userPrompt, []) == [PromptPart(userPrompt)]
  {
  }
}
