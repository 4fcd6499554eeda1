/**
  * `st.session_state` for one browser session, and the script's actions on it. Every action of
  * the script ends with `st.rerun()` or with the end of the script; each method below is one
  * such action, up to that point.
  */
module SessionState {
  import opened Options
  import opened PyStr
  import opened Upload
  import opened Streaming
  import opened Generation
  import opened Chat

  /** The value `pop(key, None)` returns for a key in this state. */
  function PopValue<T>(slot: Slot<Option<T>>): (v: Option<T>)
    ensures slot.Absent? ==> v.None?
    ensures slot.Present? ==> v == slot.value
  {
    match slot
    case Absent => None
    case Present(x) => x
  }

  class Session {
    /** `uploaded_file_data`: the processed upload kept for the chat. */
    var uploadedFileData: Slot<Option<Content>>
    /** `uploaded_file_name`: the name of the file last saved. */
    var uploadedFileName: Slot<Option<string>>
    /** `prompt_from_button`: a prompt left by the quick-action button for the next run. */
    var promptFromButton: Slot<Option<string>>
    /** `messages`: the chat transcript. */
    var messages: Slot<seq<Message>>

    /** A new browser session starts with an empty store. */
    constructor ()
      ensures uploadedFileData.Absent? && uploadedFileName.Absent?
      ensures promptFromButton.Absent? && messages.Absent?
    {
      uploadedFileData := Absent;
      uploadedFileName := Absent;
      promptFromButton := Absent;
      messages := Absent;
    }

    /** The start of every run: each of the three keys that is missing is set to `None`. */
    method InitKeys()
      modifies this
      ensures uploadedFileData == if old(uploadedFileData).Absent? then Present(None) else old(uploadedFileData)
      ensures uploadedFileName == if old(uploadedFileName).Absent? then Present(None) else old(uploadedFileName)
      ensures promptFromButton == if old(promptFromButton).Absent? then Present(None) else old(promptFromButton)
      ensures messages == old(messages)
    {
      if uploadedFileData.Absent? {
        uploadedFileData := Present(None);
      }
      if uploadedFileName.Absent? {
        uploadedFileName := Present(None);
      }
      if promptFromButton.Absent? {
        promptFromButton := Present(None);
      }
    }

    /**
      * The delete button, which is only shown while the stored upload is truthy: clicking it
      * sets both upload keys to `None` and nothing else changes.
      */
    method DeleteFile() returns (shown: bool)
      requires uploadedFileData.Present?
      modifies this
      ensures shown == IsTruthy(old(uploadedFileData).value)
      ensures shown ==> uploadedFileData == Present(None) && uploadedFileName == Present(None)
      ensures !shown ==> uploadedFileData == old(uploadedFileData) && uploadedFileName == old(uploadedFileName)
      ensures promptFromButton == old(promptFromButton) && messages == old(messages)
    {
      shown := IsTruthy(uploadedFileData.value);
      if shown {
        uploadedFileData := Present(None);
        uploadedFileName := Present(None);
      }
    }

    /**
      * The save button for a selected file: the name is stored, and so is the processing result
      * even when that result is `None`; `loaded` tells which toast is shown.
      */
    method SaveFile(file: UploadedFile, decoders: Decoders) returns (loaded: bool)
      modifies this
      ensures uploadedFileName == Present(Some(file.name))
      ensures uploadedFileData == Present(ProcessUploadedFile(Some(file), decoders).data)
      ensures loaded <==> uploadedFileData.value.Some?
      ensures promptFromButton == old(promptFromButton) && messages == old(messages)
    {
      uploadedFileName := Present(Some(file.name));
      uploadedFileData := Present(ProcessUploadedFile(Some(file), decoders).data);
      loaded := uploadedFileData.value.Some?;
    }

    /** The quick-action button: leaves its fixed prompt for the next run. */
    method RequestQuickAction()
      modifies this
      ensures promptFromButton == Present(Some(QuickActionPrompt))
      ensures uploadedFileData == old(uploadedFileData) && uploadedFileName == old(uploadedFileName)
      ensures messages == old(messages)
    {
      promptFromButton := Present(Some(QuickActionPrompt));
    }

    /** The transcript is seeded with the greeting only when the key is missing. */
    method SeedGreeting()
      modifies this
      ensures messages == if old(messages).Absent? then Present([Message(Assistant, Greeting)]) else old(messages)
      ensures messages.Present? && (old(messages).Absent? ==> Alternating(messages.value))
      ensures uploadedFileData == old(uploadedFileData) && uploadedFileName == old(uploadedFileName)
      ensures promptFromButton == old(promptFromButton)
    {
      if messages.Absent? {
        messages := Present([Message(Assistant, Greeting)]);
        SeededAlternates();
      }
    }

    /**
      * One chat turn: the pending button prompt is popped (it wins over the chat input); with no
      * prompt the transcript is untouched; otherwise the transcript becomes what `TurnAsWritten`
      * says for the response the service gave to the prompt and the stored upload.
      */
    method ChatTurn(chatInput: Option<string>, apiKey: string, modelName: string, systemInstruction: string,
                    service: Request -> ModelCall) returns (outcome: TurnOutcome)
      requires uploadedFileData.Present? && messages.Present?
      modifies this
      ensures promptFromButton.Absent?
      ensures uploadedFileData == old(uploadedFileData) && uploadedFileName == old(uploadedFileName)
      ensures messages.Present?
      ensures var prompt := SelectPrompt(PopValue(old(promptFromButton)), chatInput);
        if !IsTruthyText(prompt) then
          outcome == NoPrompt && messages == old(messages)
        else
          var response := GetGeminiResponse(apiKey, modelName, prompt.value, systemInstruction,
                                            Attachments(old(uploadedFileData).value), service);
          Effect(messages.value, outcome) == TurnAsWritten(old(messages).value, prompt.value, response)
      ensures Alternating(old(messages).value) ==>
        !outcome.PopFromEmptyList? && (Alternating(messages.value) <==> !outcome.KeyRejected?)
    {
      var fromButton := PopValue(promptFromButton);
      promptFromButton := Absent;
      var userPrompt := SelectPrompt(fromButton, chatInput);
      if !IsTruthyText(userPrompt) {
        return NoPrompt;
      }
      var prompt := userPrompt.value;
      ghost var before := messages.value;
      var transcript := messages.value + [Message(User, prompt)];

      var contentList := Attachments(uploadedFileData.value);
      var response := GetGeminiResponse(apiKey, modelName, prompt, systemInstruction, contentList, service);
      if Alternating(before) {
        AsWrittenAlternatesUnlessRejected(before, prompt, response);
      }
      var fullResponse: string;
      var streamError: Option<string> := None;
      match response {
        case ErrorReply(text) =>
          fullResponse := text;
          if IsKeyErrorReply(fullResponse) {
            transcript := transcript[..|transcript| - 1];
            if transcript == [] {
              messages := Present(transcript);
              return PopFromEmptyList;
            }
            transcript := transcript[..|transcript| - 1];
            messages := Present(transcript);
            return KeyRejected;
          }
        case Stream(fs) =>
          fullResponse, streamError := AssembleStream(fs);
      }
      transcript := transcript + [Message(Assistant, fullResponse)];
      messages := Present(transcript);
      outcome := Answered(fullResponse, streamError);
    }
  }

  /**
    * Two rejected keys in a row right after seeding: the first rollback empties the transcript,
    * and the second turn's second `pop()` raises.
    */
  method RejectedKeyTwice(prompt: string, service: Request -> ModelCall) returns (first: TurnOutcome, second: TurnOutcome)
    requires prompt != ""
    requires forall req: Request :: service(req) == Failed(KeyNotValid)
    ensures first == KeyRejected && second == PopFromEmptyList
  {
    var s := new Session();
    s.InitKeys();
    s.SeedGreeting();
    assert Contains(KeyNotValid, KeyNotValid) by {
      assert OccursAt(KeyNotValid, KeyNotValid, 0);
    }
    KeyErrorReplyIsRecognised();
    AsWrittenRollbackDropsGreeting(prompt);
    first := s.ChatTurn(Some(prompt), "", "gemini-2.5-pro", "", service);
    s.InitKeys();
    s.SeedGreeting();
    AsWrittenRollbackPopsEmptyList(prompt);
    second := s.ChatTurn(Some(prompt), "", "gemini-2.5-pro", "", service);
  }
}
