# AliadoDoc session and turn logic, in Dafny

AliadoDoc is a Streamlit chat front-end to a Gemini model. A user saves a file into the
session, and it is processed into an opened image or a decoded text. On each turn the prompt
comes from a quick-action button or the chat box. The turn is sent with the stored upload to the
model, and the streamed reply is appended to the transcript. This project models the part of
`app.py` that decides things and proves properties about it:

- `Upload`: how `process_uploaded_file` picks a branch from the MIME type and the file-name
  suffix, and what it stores. Image opening and UTF-8 decoding are uninterpreted functions that
  succeed or raise.
- `Generation`: `get_gemini_response`. It builds the ordered parts list and the request. It maps
  an exception to one of the two reply strings. The model service is a function parameter that
  answers a request with a stream of fragments or with an exception message.
- `Streaming`: the `for chunk in response_stream` loop, as a method with loop invariants. It is
  proved against a recursive specification that stops at the first exception.
- `Chat`: prompt selection, the attachment list and the rollback test. It also gives the
  transcript after a turn, both as the code does it (`TurnAsWritten`) and as evidently
  intended (`TurnIntended`).
- `SessionState`: `st.session_state` as a class with the four keys. A key can be missing
  (`Absent`) or set, so "not in `st.session_state`" and `pop(key, None)` are modelled exactly.
  The script's actions are methods on it: key initialisation, save, delete, quick action,
  greeting seeding and the chat turn.
- `PyStr`: `startswith`, `endswith` (with a tuple of suffixes) and `in` on strings.

Streamlit reruns the whole script after every interaction. `st.rerun()` ends the current run.
Each method is one action up to that point, and a new run starts again with `InitKeys`.

Points where the code's behaviour is easy to misread:

- There is no remote upload. `.doc`, `.docx` and `.pdf` files take the text branch and are
  decoded as UTF-8.
- The suffix test lists only `.md`, `.csv`, `.doc`, `.docx` and `.pdf`. A `.txt`, `.py` or `.json`
  file is read as text only through its MIME type.
- There is no quota-delay parsing. A failure gives either the fixed key-error reply or
  `"❌ Error: "` followed by the message.
- An empty reply is appended as an empty assistant entry. No "no text" notice is shown.
- When the stream raises part-way, the text assembled so far is still appended as the assistant
  entry.
- The key-error rollback pops twice right after the user entry was appended (see Findings).

## Model

| member | source | states |
|---|---|---|
| `PyStr.EndsWithAny` | app.py:81 | `name.endswith(tuple)` holds exactly when some suffix of the tuple ends the name |
| `PyStr.ContainsAfterPrefix` | app.py:64 | a substring that cannot start inside a prefix occurs in `prefix + m` exactly when it occurs in `m` |
| `Upload.TextSuffixesListed` | app.py:81 | the suffix tuple matches exactly the names ending in .md, .csv, .doc, .docx or .pdf |
| `Upload.Classify` | app.py:72-81 | the image branch is taken iff the MIME type starts with "image"; the text branch iff not image and (MIME starts with "text", equals "application/json", or the name ends in one of the five suffixes) |
| `Upload.ProcessUploadedFile` | app.py:66-91 | no file gives `None` with no error; for a file, nothing is stored exactly when an error is shown; an image result implies an image MIME type, a text result the text branch |
| `Upload.ImageTakesPrecedence` | app.py:72-78 | with an image MIME type the file name is irrelevant; the result is the opened image, or `None` with the image error when opening raises |
| `Upload.TextBranchIsUtf8Decoding` | app.py:81-88 | on the text branch the stored value is exactly the UTF-8 decoding, and a decoding failure stores `None` and shows the text error |
| `Upload.DocumentsAreDecodedAsText` | app.py:81-85 | a .doc, .docx or .pdf file without an image MIME type is stored as its UTF-8 decoding, or `None` |
| `Upload.UnsupportedYieldsNothing` | app.py:90-91 | a file matching neither branch stores `None` and shows the unsupported-type error naming its MIME type |
| `Streaming.FirstRaise` | app.py:261-268 | the stream ends in an exception exactly when some fragment raises |
| `Streaming.Delivered` | app.py:262-264 | the fragments read form the longest prefix free of exceptions; the next fragment, if any, raises |
| `Streaming.AssembledAppend` | app.py:262-264 | after a prefix free of exceptions, further fragments extend the reply with their own text |
| `Streaming.AssembledStopsAtRaise` | app.py:261-268 | after the first exception nothing more is read: the reply is the text before it, and that exception is the one reported |
| `Streaming.AssembledIsJoinedDelivered` | app.py:262-264 | skipping empty chunks changes nothing: the reply is the in-order concatenation of the chunk texts read before the first exception |
| `Streaming.AssembleStream` | app.py:261-268 | the loop returns the assembled reply and the exception that stopped it, and with no exception the reply is the concatenation of every chunk text |
| `Generation.BuildParts` | app.py:50-55 | the parts list has one more element than the contents, the prompt first, then each content item at its own position in order |
| `Generation.PromptOnlyWithoutContent` | app.py:50-51 | with no content the parts list is the prompt alone |
| `Generation.BuildRequest` | app.py:39-46 | the key is configured iff it is non-empty; the model name, system instruction and parts list reach the service unchanged |
| `Generation.DescribeFailure` | app.py:61-64 | the reply is the fixed key-error string iff the message contains "API key not valid"; otherwise it is "❌ Error: " followed by the message |
| `Generation.GetGeminiResponse` | app.py:35-64 | a stream is returned iff the service streams, and it is the service's stream; a raised exception is returned as its description |
| `Chat.SelectPrompt` | app.py:227 | a non-empty button prompt wins; there is a prompt iff the button prompt or the chat input is non-empty, and without the button it is the chat input |
| `Chat.Attachments` | app.py:244-247 | at most one content item is attached, and one is attached iff the stored upload is truthy, the item being that upload |
| `Chat.KeyErrorReplyIsRecognised` | app.py:256 | the fixed key-error reply passes the rollback test |
| `Chat.TagNotInErrorPrefix` | app.py:64 | the rollback words cannot start inside the generic "❌ Error: " prefix |
| `Chat.RollbackIff` | app.py:252-259 | a failed call rolls back iff its message contains "API key not valid" or itself contains "Error de Clave API" |
| `Chat.TurnAsWritten` | app.py:229-270 | an answered turn appends exactly a user entry with the prompt and then one assistant entry with the reply; a key-error reply leaves the old transcript minus its last entry, or pops an empty list when the old transcript was empty; any other error reply is the reply with no stream exception; a stream's reply is the text assembled before its first exception, and that exception is reported |
| `Chat.CompleteStreamAppendsJoined` | app.py:261-270 | a stream that never raises appends the user entry and an assistant entry holding the concatenation of every chunk text, with no exception reported |
| `Chat.TurnIntended` | app.py:252-270 | the intended turn is rejected exactly on a key-error reply, and then leaves the transcript as it was; otherwise it appends the user and assistant pair, the reply being the error string or the assembled stream with its first exception |
| `Chat.AsWrittenIsIntendedUnlessRejected` | app.py:252-270 | away from the key-error rollback the code and the intended turn give the same transcript and outcome |
| `Chat.PartialReplyKept` | app.py:261-270 | a stream raising part-way still appends the user entry and an assistant entry with the text assembled before the exception, and reports the exception |
| `Chat.SeededAlternates` | app.py:208-212 | the seeded transcript (the greeting alone) alternates |
| `Chat.AppendPairAlternates` | app.py:231-270 | appending a user entry and then an assistant entry keeps the transcript alternating |
| `Chat.IntendedKeepsAlternation` | app.py:252-270 | the intended turn keeps an alternating transcript alternating, whatever the reply |
| `Chat.AsWrittenAlternatesUnlessRejected` | app.py:229-270 | on an alternating transcript the turn never pops an empty list, and leaves it alternating iff it was not a key-error rollback |
| `Chat.AsWrittenRollbackBreaksAlternation` | app.py:256-259 | on an alternating transcript the rollback removes the previous entry as well as the new one, and the result never alternates |
| `Chat.AsWrittenRollbackDropsGreeting` | app.py:256-259 | right after seeding, a rejected key leaves an empty transcript, greeting included |
| `Chat.AsWrittenRollbackPopsEmptyList` | app.py:256-259 | on an empty transcript a rejected key makes the second `pop()` raise |
| `SessionState.PopValue` | app.py:222 | `pop(key, None)` gives `None` for a missing key and the stored value otherwise |
| `SessionState.Session.InitKeys` | app.py:96-102 | each of the three upload and button keys that is missing is set to `None`; keys already set and the transcript are untouched |
| `SessionState.Session.DeleteFile` | app.py:111-126 | the delete button exists iff the stored upload is truthy; clicking it sets name and data to `None` and changes nothing else |
| `SessionState.Session.SaveFile` | app.py:147-163 | the name is stored and so is the processing result, even `None`; the success toast is shown iff something was stored; nothing else changes |
| `SessionState.Session.RequestQuickAction` | app.py:176-178 | the fixed quick-action prompt is left pending and nothing else changes |
| `SessionState.Session.SeedGreeting` | app.py:207-212 | the greeting is seeded only when the transcript key is missing, and a freshly seeded transcript alternates |
| `SessionState.Session.ChatTurn` | app.py:221-270 | the button prompt is consumed on every run; with no prompt the transcript is unchanged; otherwise the transcript and outcome are `TurnAsWritten` of the service's answer to the prompt and the attachment; alternation is kept iff the key was not rejected |
| `SessionState.RejectedKeyTwice` | app.py:229-259 | two rejected-key turns right after seeding: the first rolls back, the second ends in a pop from an empty list |

## Left out

- Streamlit rendering is left out: page configuration, sidebar, title, model `selectbox`, the
  expander and uploader widget with its type filter, previews, toasts, the "▌" cursor, the
  markdown of messages and the download button with its template text. `DeleteFile` keeps only
  the rule that the delete button exists while the stored upload is truthy.
- `st.rerun()` is modelled as the end of the method that calls it.
- Reading `GEMINI_API_KEY` and `GEM_PROMPT` from the environment is left out. Both are plain string
  parameters of the turn.
- The Gemini library is left out: `genai.configure`, `GenerativeModel` and `generate_content`.
  The service is a `Request -> ModelCall` parameter. The key in a request is the one configured
  in that call. A configuration left over from an earlier call is not modelled.
- Image opening and UTF-8 decoding are uninterpreted functions in `Upload.Decoders`, so no
  property of the decoded text itself, such as an ASCII round trip, is stated.
- `hash(current_uploaded_file.file_id)` is computed but never used, so it is not modelled.
- The `st.error` messages for a stream exception and the attachment note after the user's prompt
  are not modelled as displays. The stream exception is returned in the turn's outcome instead.
- Concurrency and sessions of other users are left out. Each session is one object, processed
  one run at a time.

## Findings

| source | as written | input that shows it | evidently intended | confidence | as-written member | corrected member |
|---|---|---|---|---|---|---|
| app.py:256-259 | on the key-error reply, `pop()` runs twice although only the user entry has been appended; this removes the entry before it too, and raises IndexError when the transcript was empty before the turn | the seeded transcript `[greeting]`, the prompt "hi", and a service raising "API key not valid": the transcript becomes `[]`; the same turn again raises IndexError | the rollback removes only this turn's entries, so the transcript is the one from before the turn | high, not executed | `Chat.AsWrittenRollbackBreaksAlternation` | `Chat.TurnIntended` |

`SessionState.Session.ChatTurn` models the code as written, so that the session state is the
program's own. `Chat.TurnIntended` is the corrected turn. `Chat.IntendedKeepsAlternation` proves
that it keeps the transcript alternating, and `Chat.AsWrittenIsIntendedUnlessRejected` proves
that it agrees with the code everywhere else.
