/**
  * The chat turn as a function of the transcript: choosing the prompt, attaching the stored
  * upload, and what the transcript becomes for each kind of reply. The session class applies
  * these to its `messages` field.
  */
module Chat {
  import opened Options
  import opened PyStr
  import opened Upload
  import opened Streaming
  import opened Generation

  datatype Role = User | Assistant

  /** One entry of `st.session_state.messages`. */
  datatype Message = Message(role: Role, content: string)

  /** The assistant greeting the transcript is seeded with. */
  const Greeting: string :=
    "¡Hola! Soy AliadoDoc. Puedes subir una imagen o archivo de texto para que lo analice, o usar los botones de 'Acciones Rápidas' para comenzar."

  /** The prompt the quick-action button leaves for the next run. */
  const QuickActionPrompt: string :=
    "Necesito una guía rápida paso a paso para iniciar un nuevo proyecto. Asume que no tengo experiencia en gestión de proyectos."

  /** Python truthiness of an optional string. */
  predicate IsTruthyText(p: Option<string>) {
    p.Some? && p.value != ""
  }

  /**
    * `prompt_from_button or prompt_from_chat`: a pending button prompt wins over the chat input,
    * and there is a prompt to answer exactly when one of the two is a non-empty string.
    */
  function SelectPrompt(fromButton: Option<string>, fromChat: Option<string>): (p: Option<string>)
    ensures IsTruthyText(fromButton) ==> p == fromButton
    ensures IsTruthyText(p) <==> IsTruthyText(fromButton) || IsTruthyText(fromChat)
    ensures IsTruthyText(p) && !IsTruthyText(fromButton) ==> p == fromChat
  {
    if IsTruthyText(fromButton) then fromButton else fromChat
  }

  /**
    * The content list of the turn: the stored upload when it is truthy, else nothing. So at
    * most one item is ever attached.
    */
  function Attachments(data: Option<Content>): (r: seq<Content>)
    ensures |r| <= 1
    ensures r != [] <==> IsTruthy(data)
    ensures r != [] ==> r[0] == data.value
  {
    if IsTruthy(data) then [data.value] else []
  }

  /** The test that triggers the rollback: the reply string mentions the key-error words. */
  predicate IsKeyErrorReply(text: string) {
    Contains(text, KeyErrorTag)
  }

  /** The fixed key-error reply is recognised by the rollback test. */
  lemma KeyErrorReplyIsRecognised()
    ensures IsKeyErrorReply(KeyErrorReply)
  {
    var head := "⚠️ ";
    var tail := ": La clave proporcionada (GEMINI_API_KEY) no es válida. Por favor, verifica tu configuración.";
    assert KeyErrorReply == head + KeyErrorTag + tail;
    assert (head + KeyErrorTag + tail)[|head|..|head| + |KeyErrorTag|] == KeyErrorTag;
    assert OccursAt(KeyErrorReply, KeyErrorTag, |head|);
  }

  /** The key-error words cannot start inside the generic error prefix. */
  lemma TagNotInErrorPrefix(message: string)
    ensures forall i :: 0 <= i < |ErrorPrefix| ==> !OccursAt(ErrorPrefix + message, KeyErrorTag, i)
  {
    forall i | 0 <= i < |ErrorPrefix|
      ensures !OccursAt(ErrorPrefix + message, KeyErrorTag, i)
    {
      var s := ErrorPrefix + message;
      if i + |KeyErrorTag| <= |s| {
        var window := s[i..i + |KeyErrorTag|];
        if i == 2 {
          assert window[5] == ErrorPrefix[7] && ErrorPrefix[7] == ':' && KeyErrorTag[5] == ' ';
          assert window[5] != KeyErrorTag[5];
        } else {
          assert window[0] == ErrorPrefix[i] && KeyErrorTag[0] == 'E';
          assert window[0] != KeyErrorTag[0];
        }
      }
    }
  }

  /**
    * The rollback fires on a failed call exactly when the exception message mentions an invalid
    * key, or itself contains the key-error words (the generic reply then contains them too).
    */
  lemma RollbackIff(message: string)
    ensures IsKeyErrorReply(DescribeFailure(message)) <==>
      Contains(message, KeyNotValid) || Contains(message, KeyErrorTag)
  {
    if Contains(message, KeyNotValid) {
      KeyErrorReplyIsRecognised();
    } else {
      TagNotInErrorPrefix(message);
      ContainsAfterPrefix(ErrorPrefix, message, KeyErrorTag);
    }
  }

  /** How a turn ended. */
  datatype TurnOutcome =
    | NoPrompt                                             // nothing to answer this run
    | Answered(reply: string, streamError: Option<string>) // an assistant entry was appended
    | KeyRejected                                          // rolled back, then `st.rerun()`
    | PopFromEmptyList                                     // the second `pop()` raised IndexError

  /** The transcript after a turn, and how the turn ended. */
  datatype Effect = Effect(transcript: seq<Message>, outcome: TurnOutcome)

  /**
    * The turn as the app runs it, once the prompt is chosen and the response obtained: append
    * the user entry; on the key-error reply pop twice; otherwise append one assistant entry with
    * the error string or the assembled stream.
    */
  function TurnAsWritten(t: seq<Message>, prompt: string, response: Response): (e: Effect)
    ensures e.outcome.Answered? ==>
      e.transcript == t + [Message(User, prompt), Message(Assistant, e.outcome.reply)]
    ensures e.outcome.KeyRejected? ==> |t| >= 1 && e.transcript == t[..|t| - 1]
    ensures e.outcome.PopFromEmptyList? ==> t == [] && e.transcript == []
    ensures !e.outcome.NoPrompt?
    ensures response.ErrorReply? && IsKeyErrorReply(response.text) ==>
      e == (if t == [] then Effect([], PopFromEmptyList) else Effect(t[..|t| - 1], KeyRejected))
    ensures response.ErrorReply? && !IsKeyErrorReply(response.text) ==> e.outcome == Answered(response.text, None)
    ensures response.Stream? ==>
      e.outcome == Answered(Assembled(response.fragments), FirstRaise(response.fragments))
  {
    var asked := t + [Message(User, prompt)];
    match response
    case ErrorReply(text) =>
      if IsKeyErrorReply(text) then
        var once := asked[..|asked| - 1];
        assert once == t;
        if once == [] then Effect(once, PopFromEmptyList)
        else Effect(once[..|once| - 1], KeyRejected)
      else Effect(asked + [Message(Assistant, text)], Answered(text, None))
    case Stream(fs) =>
      var reply := Assembled(fs);
      Effect(asked + [Message(Assistant, reply)], Answered(reply, FirstRaise(fs)))
  }

  /**
    * The turn as evidently intended: the key-error rollback removes only the entry this turn
    * added, so the transcript is the one before the turn.
    */
  function TurnIntended(t: seq<Message>, prompt: string, response: Response): (e: Effect)
    ensures e.outcome.Answered? ==>
      e.transcript == t + [Message(User, prompt), Message(Assistant, e.outcome.reply)]
    ensures e.outcome.KeyRejected? ==> e.transcript == t
    ensures e.outcome.Answered? || e.outcome.KeyRejected?
    ensures e.outcome.KeyRejected? <==> response.ErrorReply? && IsKeyErrorReply(response.text)
    ensures response.ErrorReply? && !IsKeyErrorReply(response.text) ==> e.outcome == Answered(response.text, None)
    ensures response.Stream? ==>
      e.outcome == Answered(Assembled(response.fragments), FirstRaise(response.fragments))
  {
    match response
    case ErrorReply(text) =>
      if IsKeyErrorReply(text) then Effect(t, KeyRejected)
      else Effect(t + [Message(User, prompt), Message(Assistant, text)], Answered(text, None))
    case Stream(fs) =>
      var reply := Assembled(fs);
      Effect(t + [Message(User, prompt), Message(Assistant, reply)], Answered(reply, FirstRaise(fs)))
  }

  /** Away from the key-error rollback, the app's turn and the intended one agree. */
  lemma AsWrittenIsIntendedUnlessRejected(t: seq<Message>, prompt: string, response: Response)
    requires !(response.ErrorReply? && IsKeyErrorReply(response.text))
    ensures TurnAsWritten(t, prompt, response) == TurnIntended(t, prompt, response)
  {
    assert t + [Message(User, prompt)] + [Message(Assistant, TurnAsWritten(t, prompt, response).outcome.reply)]
        == t + [Message(User, prompt), Message(Assistant, TurnAsWritten(t, prompt, response).outcome.reply)];
  }

  /**
    * A stream that raises part-way still gives an answered turn: the assistant entry holds the
    * text assembled before the exception, and the exception is reported.
    */
  lemma PartialReplyKept(t: seq<Message>, prompt: string, before: seq<Fragment>, m: string, after: seq<Fragment>)
    requires NoRaise(before)
    ensures TurnAsWritten(t, prompt, Stream(before + [Raise(m)] + after)) ==
      Effect(t + [Message(User, prompt), Message(Assistant, Assembled(before))], Answered(Assembled(before), Some(m)))
  {
    AssembledStopsAtRaise(before, m, after);
  }

  /**
    * A stream that never raises gives an answered turn whose assistant entry is the
    * concatenation of every chunk text, with no exception reported.
    */
  lemma CompleteStreamAppendsJoined(t: seq<Message>, prompt: string, fs: seq<Fragment>)
    requires NoRaise(fs)
    ensures TurnAsWritten(t, prompt, Stream(fs)) ==
      Effect(t + [Message(User, prompt), Message(Assistant, Joined(fs))], Answered(Joined(fs), None))
  {
    AssembledIsJoinedDelivered(fs);
    assert Delivered(fs) == fs;
  }

  /**
    * The shape a transcript keeps while every turn completes: the greeting, then user and
    * assistant entries in alternation.
    */
  predicate Alternating(t: seq<Message>) {
    |t| % 2 == 1 && forall i :: 0 <= i < |t| ==> t[i].role == (if i % 2 == 0 then Assistant else User)
  }

  /** The seeded transcript has that shape. */
  lemma SeededAlternates()
    ensures Alternating([Message(Assistant, Greeting)])
  {
  }

  /** Appending a user entry and then an assistant entry keeps the alternation. */
  lemma AppendPairAlternates(t: seq<Message>, u: string, a: string)
    requires Alternating(t)
    ensures Alternating(t + [Message(User, u), Message(Assistant, a)])
  {
    var t2 := t + [Message(User, u), Message(Assistant, a)];
    forall i | 0 <= i < |t2|
      ensures t2[i].role == (if i % 2 == 0 then Assistant else User)
    {
      if i >= |t| {
        assert |t| % 2 == 1;
        assert i == |t| || i == |t| + 1;
      }
    }
  }

  /** The intended turn keeps the transcript alternating, whatever the reply. */
  lemma IntendedKeepsAlternation(t: seq<Message>, prompt: string, response: Response)
    requires Alternating(t)
    ensures Alternating(TurnIntended(t, prompt, response).transcript)
  {
    var e := TurnIntended(t, prompt, response);
    if e.outcome.Answered? {
      AppendPairAlternates(t, prompt, e.outcome.reply);
    }
  }

  /**
    * As written, a key-error rollback on an alternating transcript removes the previous entry
    * too, and the transcript never alternates afterwards.
    */
  lemma AsWrittenRollbackBreaksAlternation(t: seq<Message>, prompt: string, response: Response)
    requires Alternating(t)
    requires response.ErrorReply? && IsKeyErrorReply(response.text)
    ensures TurnAsWritten(t, prompt, response) == Effect(t[..|t| - 1], KeyRejected)
    ensures !Alternating(TurnAsWritten(t, prompt, response).transcript)
  {
    var asked := t + [Message(User, prompt)];
    assert asked[..|asked| - 1] == t;
  }

  /**
    * As written, a turn on an alternating transcript never pops an empty list, and leaves the
    * transcript alternating exactly when it was not a key-error rollback.
    */
  lemma AsWrittenAlternatesUnlessRejected(t: seq<Message>, prompt: string, response: Response)
    requires Alternating(t)
    ensures var e := TurnAsWritten(t, prompt, response);
      !e.outcome.PopFromEmptyList? && (Alternating(e.transcript) <==> !e.outcome.KeyRejected?)
  {
    if response.ErrorReply? && IsKeyErrorReply(response.text) {
      AsWrittenRollbackBreaksAlternation(t, prompt, response);
    } else {
      AsWrittenIsIntendedUnlessRejected(t, prompt, response);
      IntendedKeepsAlternation(t, prompt, response);
    }
  }

  /** Concretely: right after seeding, a rejected key empties the transcript, greeting included. */
  lemma AsWrittenRollbackDropsGreeting(prompt: string)
    ensures TurnAsWritten([Message(Assistant, Greeting)], prompt, ErrorReply(KeyErrorReply)) == Effect([], KeyRejected)
  {
    KeyErrorReplyIsRecognised();
    SeededAlternates();
    AsWrittenRollbackBreaksAlternation([Message(Assistant, Greeting)], prompt, ErrorReply(KeyErrorReply));
  }

  /** And on the emptied transcript the next rejected key makes the second `pop()` raise. */
  lemma AsWrittenRollbackPopsEmptyList(prompt: string)
    ensures TurnAsWritten([], prompt, ErrorReply(KeyErrorReply)).outcome == PopFromEmptyList
  {
    KeyErrorReplyIsRecognised();
  }
}
