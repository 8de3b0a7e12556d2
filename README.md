# Victor chat front end, modelled in Dafny

This project models the client-side logic of the Victor chat front end, a React/TypeScript
application. The centre is the turn handler `handleSend` of `App.tsx`. Every user utterance
goes to exactly one of these, in strict order:

- a blank prompt is ignored;
- otherwise the user message is appended, and then the first of these that applies answers:
  - the local shortcut table (`commandHandler`);
  - the image-request pattern;
  - the model's streamed reply.

The streamed reply is folded into a placeholder message that is edited by its id. The first
error fragment ends the stream. At the end the text is trimmed, and an in-band JSON
`execute_python` directive is told apart from prose. Otherwise the citations are
de-duplicated by URI and attached.

Around the turn handler the model covers these small rules:

- the tic-tac-toe outcome `checkWinner`;
- the speech-recognition transcript accumulator;
- the text-to-speech voice choice and speaking flags;
- the input bar's submit guard, placeholder and disabled states;
- the tic-tac-toe cell click and style rules;
- the yes/no game's answer buttons;
- the five-step number trick.

How the model is laid out:

- `text.dfy` (`Text`): the JavaScript string operations the code relies on, with their
  exact behaviour. These are `trim` (the ECMAScript white-space and line-terminator set),
  ASCII `toLowerCase`, `startsWith`, `includes`, and the run matched by the regular
  expression `.+`.
- `types.dfy` (`Types`): the message shapes of `types.ts`. The `Date.now()` string ids
  become natural numbers drawn from a counter.
- `command_handler.dfy`, `image_request.dfy`, `streaming.dfy`, `citations.dfy` and
  `chat_log.dfy`: the pure pieces of a turn. These are the shortcut table, the image-prompt
  capture, the fragment fold and the JSON directive test, the citation de-duplication,
  and the find/patch/replace-by-id edits of the log.
- `app.dfy` (`App`): one turn as a function `Respond` over the log. The class `Chat` holds
  the state (`messages`, `autoPlayTTS`, the id counter and the speech hook). Its method
  `HandleSend` performs the turn step by step. The streaming loop is a `while` loop with its
  invariants. `HandleSend` is proved to leave exactly the log `Route` gives. `Route` is the
  turn in the order the method takes its inputs; `RespondIsRoute` equates it with the
  specification function `Respond` for every non-blank prompt.
- The two hooks and the stateful components (`Speaker`, `Recognizer`, `Bar`,
  `MindReaderGame`) are classes whose methods update their fields. The requests the code
  sends to the browser's speech engines are recorded as lists of calls.

Some behaviour the system's own texts lead one to expect is not in the code, and the model
follows the code:

- `services/geminiService.ts:35` tells the model to answer a request to play with a
  `start_game` directive, but `App.tsx:126-127` recognises only `execute_python`. A
  `start_game` reply is therefore shown as text.
- `App.tsx` never renders the game components and never passes `isGameActive` to the input
  bar (`components/InputBar.tsx:8`), so the games never take part in a turn.
- A failed `/execute` request (`App.tsx:128-133`) is caught by the same `catch` as a parse
  failure (`App.tsx:151-153`), so the turn falls through to showing the trimmed JSON text.

## Model

| member | source | states |
|---|---|---|
| Types.Plain | types.ts:12-18 | a message built from id, role and text carries exactly those and no sources or image |
| Types.FailureText | App.tsx:69 | a thrown Error contributes its message; any other thrown value gives the fallback text |
| Text.TrimStart | services/commandHandler.ts:8 | the result is a suffix of the input; what it drops is all white space or line terminators; it starts with a non-trimmable character |
| Text.TrimEnd | services/commandHandler.ts:8 | the result is a prefix of the input; what it drops is all trimmable; it ends with a non-trimmable character |
| Text.Trim | services/commandHandler.ts:8 | the result is the input with trimmable characters removed at both ends, and is empty or bounded by non-trimmable characters |
| Text.BlankIffAllTrimmable | App.tsx:22 | `!prompt.trim()` holds exactly when every character of the prompt is white space or a line terminator |
| Text.TrimIdempotent | components/InputBar.tsx:29-31 | trimming an already trimmed text changes nothing |
| Text.TrimIgnoresTrailing | services/commandHandler.ts:8 | trailing white space does not change the trimmed text |
| Text.TrimIgnoresLeading | services/commandHandler.ts:8 | leading white space does not change the trimmed text |
| Text.TrimStartOfTrailing | services/commandHandler.ts:8 | trimming the start of a text with white space appended keeps that white space after the kept part |
| Text.BlankStartOfAllTrimmable | services/commandHandler.ts:8 | trimming the start of an all-white-space text leaves nothing |
| Text.TrimEndDropsTail | services/commandHandler.ts:8 | trimming the end ignores appended white space |
| Text.TrimOfTight | services/commandHandler.ts:8 | a text bounded by non-trimmable characters is its own trim |
| Text.LowerChar | services/commandHandler.ts:8 | a lower-cased character is never an upper-case ASCII letter; only A-Z change, each to its lower-case letter |
| Text.Lower | services/commandHandler.ts:8 | toLowerCase keeps the length and lower-cases each character on its own |
| Text.TrimLowerCommute | services/commandHandler.ts:8 | lower-casing then trimming equals trimming then lower-casing |
| Text.LowerKeepsTrimmable | services/commandHandler.ts:8 | lower-casing neither creates nor removes white space |
| Text.LowerTrimStart | services/commandHandler.ts:8 | lower-casing commutes with trimming the start |
| Text.LowerTrimEnd | services/commandHandler.ts:8 | lower-casing commutes with trimming the end |
| Text.LowerAppend | services/commandHandler.ts:8 | lower-casing distributes over concatenation |
| Text.LowerOfLower | services/commandHandler.ts:8 | a text with no upper-case letter is its own lower-case form |
| Text.LowerOfTrimmable | services/commandHandler.ts:8 | lower-casing leaves white space unchanged |
| Text.LowerIdempotent | App.tsx:45 | lower-casing twice equals lower-casing once |
| Text.Contains | hooks/useTextToSpeech.ts:40 | `includes` holds exactly when the text has the substring at some position |
| Text.LineRun | services/commandHandler.ts:11 | `.+` matches the longest prefix free of line terminators: a prefix with no terminator, followed by the end or a terminator |
| Text.LineRunStopsAt | App.tsx:45 | a line followed by the end of the text or by a line terminator is matched by `.+` whole and no further |
| CommandHandler.NormalizeIdempotent | services/commandHandler.ts:8 | normalising a normalised prompt changes nothing |
| CommandHandler.DirectionsTarget | services/commandHandler.ts:11-14 | the prefix rule matches exactly when the normalised prompt starts with "get directions to " followed by a character that is not a line terminator; the captured location is the rest of that line |
| CommandHandler.Handle | services/commandHandler.ts:7-28 | the directions rule takes precedence and answers "Calculating directions to: " plus the location; "close the tab" gets the fixed note; the result is null exactly when neither rule matches; a reply is never empty |
| CommandHandler.HandleSeesOnlyNormalized | services/commandHandler.ts:8 | the answer depends only on the normalised prompt |
| CommandHandler.DirectionsRule | services/commandHandler.ts:11-16 | a normalised prompt "get directions to X", with X non-empty and on one line, answers "Calculating directions to: X" |
| CommandHandler.TargetOfDirections | services/commandHandler.ts:11-14 | the location captured from "get directions to X" is X itself |
| CommandHandler.DirectionsWithoutDestination | services/commandHandler.ts:8-11 | "get directions to" followed only by white space is not a command: trimming removes the space the pattern needs |
| CommandHandler.ShortIsNoCommand | services/commandHandler.ts:20-27 | a normalised prompt shorter than the prefix and not as long as "close the tab" answers null |
| CommandHandler.CloseTabIgnoresCaseAndSpace | services/commandHandler.ts:20-24 | "Close The Tab" with any surrounding white space still closes the tab |
| CommandHandler.NormalizePadded | services/commandHandler.ts:8 | white space around a word disappears and the word is lower-cased |
| ImageRequest.FirstPrefix | App.tsx:45 | the first alternative of the pattern that the text starts with, in the listed order, or none |
| ImageRequest.LeadLength | App.tsx:45 | an optional "an image of " / "a image of " / "a picture of " lead is found only where the rest starts with 'a' |
| ImageRequest.CaptureAfterVerb | App.tsx:45-47 | the image prompt exists exactly when something other than a line break follows the verb and its space; with no lead phrase it is the rest of the line, trimmed; after a lead phrase it is the rest of the line past the phrase, trimmed; when only a line break or the end follows the phrase, the optional group is given up and the whole line, phrase included, is captured |
| ImageRequest.LeadChoice | App.tsx:45-47 | the lead phrase found is the one the text starts with, and none is found when it starts with none |
| ImageRequest.ImageSubject | App.tsx:45-47 | the lower-cased prompt matches exactly when it starts with "show me ", "generate ", "create " or "draw " and the capture after that verb exists; the image prompt is then the capture after that verb |
| ImageRequest.CaptureWithoutLead | App.tsx:45-47 | a one-line text that starts with no lead phrase is captured whole, trimmed |
| ImageRequest.CaptureBacktracks | App.tsx:45-47 | a lead phrase followed by nothing or a line break is itself the capture, trimmed ("a picture of ") |
| ImageRequest.SubjectOfLowered | App.tsx:44-45 | in any letter case, a prompt whose lower-cased form is a verb followed by some text is matched on that text |
| ImageRequest.SubjectWithoutLead | App.tsx:44-47 | "Draw a cat" and every prompt that reads, in any case, as a verb and a one-line subject with no lead phrase gives the trimmed subject |
| ImageRequest.SubjectBacktracks | App.tsx:44-47 | "draw a picture of " with nothing after it gives "a picture of": a verb and a bare lead phrase give the trimmed phrase |
| ImageRequest.VerbsExclusive | App.tsx:45 | at most one of the four verbs can start a prompt |
| ImageRequest.LeadsExclusive | App.tsx:45 | at most one of the lead phrases can start the rest |
| ImageRequest.PatternIsLowerCase | App.tsx:45 | every verb and lead of the pattern is lower-case, so the `i` flag adds nothing on a lower-cased prompt |
| ImageRequest.LeadingSpaceIsNoImageRequest | App.tsx:45 | the pattern is anchored: a prompt that starts with white space is never an image request |
| ImageRequest.SubjectIsLowerCase | App.tsx:45-47 | the captured image prompt has no upper-case letter, since the match runs on the lower-cased prompt |
| ImageRequest.CaptureKeepsCase | App.tsx:45-47 | the capture of a text with no upper-case letters has none either |
| ImageRequest.CaptureAfterLead | App.tsx:45-47 | a lead phrase followed by a one-line subject captures the trimmed subject |
| ImageRequest.LeadFound | App.tsx:45 | a rest starting with the k-th lead finds exactly that lead |
| ImageRequest.CaptureOfFoundLead | App.tsx:45-47 | once the k-th lead is found, the capture is the trimmed subject after it |
| ImageRequest.CaptureOfLine | App.tsx:45-47 | when the greedy capture runs to the end of the line, the result is that line trimmed |
| ImageRequest.SubjectAfterVerb | App.tsx:45-47 | for a prompt with no upper-case letters that starts with a verb, the image prompt is what the capture finds after that verb |
| ImageRequest.SubjectAfterLead | App.tsx:45-47 | "draw a picture of X" and every other verb/lead combination gives the trimmed X |
| Streaming.Step | App.tsx:92-119 | one fragment appends its text to the buffer and its citations to the collected sources, and its error field, when present, stops the stream |
| Streaming.ConsumeConcatenates | App.tsx:92-106 | without an error fragment the buffer is the concatenation of all texts, and the sources the concatenation of all citations, in emission order |
| Streaming.SourcesAppend | App.tsx:104-106 | one more fragment appends exactly its citations |
| Streaming.TextsAppend | App.tsx:93-94 | one more fragment appends exactly its text |
| Streaming.TextOnlyGrows | App.tsx:92-103 | until an error arrives, every earlier buffer is a prefix of every later one |
| Streaming.FirstErrorEndsStream | App.tsx:107-119 | the first error fragment ends the stream with its error, and later fragments are not consumed |
| Streaming.StoppedStaysStopped | App.tsx:118 | once an error has been read, the result no longer depends on later fragments |
| Streaming.LastKey | App.tsx:126 | JSON.parse keeps the last of duplicate keys: the found member has that key and none after it does |
| Streaming.ExecOutput | App.tsx:134 | a non-empty `output` is shown; otherwise "Error: " with the error, or "undefined" when it is absent |
| Streaming.LaterActionWins | App.tsx:126-127 | an object whose later duplicate "action" is not execute_python is not a directive |
| Citations.FirstSeen | App.tsx:162 | the position where a URI first occurs, with no earlier occurrence |
| Citations.DedupByUri | App.tsx:162 | the Map-based de-duplication has no two citations with the same URI and is no longer than its input |
| Citations.DedupKeepsUris | App.tsx:162 | a URI survives exactly when it occurs in the input |
| Citations.DedupKeepsLast | App.tsx:162 | each surviving citation is the last one with its URI, so the last title wins |
| Citations.DedupFirstSeenOrder | App.tsx:162 | survivors appear in the order in which their URIs were first seen |
| Citations.DuplicateUriKeepsLastTitle | App.tsx:162 | example: a repeated URI keeps its first position and its last title |
| ChatLog.FindById | App.tsx:97 | `find` by id gives the first message with that id, or none when no message has it |
| ChatLog.Apply | App.tsx:98-100 | an edit replaces the content; a failure also makes the role ERROR; the final edit also attaches the sources; id and image are kept |
| ChatLog.PatchFirst | App.tsx:95-102 | editing by id changes only the first message with that id, keeps the length and every id, and changes nothing when the id is absent |
| ChatLog.ReplaceById | App.tsx:64 | `map` replaces every message with the id and keeps all others |
| ChatLog.PatchAgreesWithReplace | App.tsx:64 | with distinct ids, editing the message found by id equals replacing it by id |
| ChatLog.FindLast | App.tsx:84 | a freshly appended message is found at the end |
| ChatLog.PatchLast | App.tsx:84-102 | editing a fresh placeholder edits only the last message |
| ChatLog.PatchWithSameContent | App.tsx:98-99 | writing the content a message already has changes nothing |
| ChatLog.ReplaceLast | App.tsx:54-64 | replacing a fresh placeholder by id replaces only the last message |
| ChatLog.ContentPatchOverwritten | App.tsx:95-166 | a later edit of the same message overwrites an earlier content edit |
| ChatLog.FindByIdSeesOnlyIds | App.tsx:97 | the search depends only on the ids in the log |
| ChatLog.AppendFresh | App.tsx:26-27 | appending a message whose id is at least the counter keeps the ids distinct and below the new counter |
| App.ReplyOf | App.tsx:30-182 | the reply of every branch carries the id it was given |
| App.Reply | App.tsx:30-182 | the reply to a prompt carries the reply's id |
| App.RespondIsRoute | App.tsx:21-27 | a non-blank prompt appends the user message with the untrimmed prompt, then routes on the shortcut answer and the image capture |
| App.RouteAppendsReply | App.tsx:30-182 | whatever branch is taken, the log gains exactly its reply after the user message |
| App.RespondAppendsTwo | App.tsx:21-182 | a blank prompt changes nothing and speaks nothing; any other prompt appends exactly the user message and then the reply |
| App.PromptThenReply | App.tsx:26-84 | the user message comes before the reply, each with its own fresh id |
| App.RouteSpeech | App.tsx:38-39 | anything spoken is spoken only with auto-speak on, under the reply's id, and is non-empty |
| App.SpeechIsTheReply | App.tsx:38-39 | what a turn speaks belongs to the reply message |
| App.ShortcutReply | App.tsx:30-42 | a shortcut answer becomes one MODEL message with that answer, whatever the model or image service would have said |
| App.ImageRequestReply | App.tsx:45-79 | an image request ends as "Execution complete." with the URL, or as an ERROR message with the failure text, and never depends on the stream |
| App.ErrorFragmentReply | App.tsx:107-119 | the first error fragment makes the reply an ERROR message with that text and no sources; later fragments do not matter |
| App.StreamedReply | App.tsx:104-106 | on normal completion the reply is a MODEL message holding the trimmed concatenated text and the citations of all fragments de-duplicated by URI; a URI is cited exactly when some fragment cites it |
| App.ExecutedReply | App.tsx:125-151 | an execute_python directive whose request answered becomes the framed script output, without sources |
| App.StreamFailureReply | App.tsx:172-182 | a failure thrown by the stream gives an ERROR message "Critical system failure: " plus the failure text |
| App.Chat.constructor | App.tsx:10-18 | the log starts with the greeting from the model, with auto-speak on |
| App.Chat.ToggleAutoPlay | App.tsx:211 | the switch flips auto-speak and touches nothing else |
| App.Chat.ToggleSpeech | App.tsx:188-194 | while that message is being spoken the speech is cancelled and the speaking flag and id are cleared; otherwise it is read aloud and the flags are left for the engine's callbacks |
| App.Chat.ReadStream | App.tsx:86-120 | the loop ends in the state the fragment fold gives, and the placeholder holds the text or the first error |
| App.Chat.StreamIntoPlaceholder | App.tsx:82-182 | the placeholder receives exactly the final edit and speech of the streamed branch |
| App.Chat.Answer | App.tsx:30-182 | the log and speech are those the reply's branch gives |
| App.Chat.HandleSend | App.tsx:21-186 | a blank prompt changes nothing; otherwise the log ends as routed with the untrimmed prompt and two fresh ids, speech is cancelled (clearing the speaking flag and id where speech is supported) and then the reply is spoken, and ids stay distinct |
| App.Chat.Exchange | App.tsx:24-182 | a non-blank turn: cancel speech (clearing the speaking flag and id where speech is supported), log the prompt and reply, then speak as routed |
| App.Chat.Log | App.tsx:26-182 | appends the user message and the routed reply under two fresh ids, keeping ids distinct |
| App.Chat.Say | App.tsx:38-39 | hands the speech hook the routed speech, if any, leaving the speaking flag and id to the engine's callbacks |
| GameLogic.Flat | utils/gameLogic.ts:13 | the flat board lists cell (r, c) at index 3r+c |
| GameLogic.LinesShape | utils/gameLogic.ts:4-11 | there are eight distinct lines, each of three distinct cells in 0..8 |
| GameLogic.FirstComplete | utils/gameLogic.ts:15-20 | the first complete line in the listed order, with no complete line before it |
| GameLogic.CheckWinner | utils/gameLogic.ts:3-27 | a win names one of the eight lines, the first complete one, whose three cells hold the winner's mark; a tie has an empty line and occurs exactly when no line is complete and the board is full; null exactly when no line is complete and a cell is empty |
| GameLogic.DiagonalWin | utils/gameLogic.ts:10-18 | example: X on the main diagonal wins on line 0, 4, 8 |
| TicTacToe.FlatIndex | components/TicTacToe.tsx:14 | row*3+col is below 9, and division and remainder by 3 recover row and column |
| TicTacToe.FlatIndexAgrees | components/TicTacToe.tsx:14 | the cell's flat index addresses that cell on the flattened board used by the winner check |
| TicTacToe.FlatIndexOnto | components/TicTacToe.tsx:14 | every index 0..8 is the flat index of some cell |
| TicTacToe.TieHighlightsNothing | components/TicTacToe.tsx:15-21 | a tie highlights no cell |
| TicTacToe.WinHighlightsItsLine | components/TicTacToe.tsx:15-21 | a highlighted cell holds the winner's mark |
| TicTacToe.Click | components/TicTacToe.tsx:47 | a click makes a move exactly on the player's turn, on an empty cell, with no result yet |
| TicTacToe.ClickableStyleIffClick | components/TicTacToe.tsx:20-28 | the clickable style is shown exactly when the cell is not winning and a click would make a move |
| TicTacToe.CellClasses | components/TicTacToe.tsx:13-31 | the classes start with the base classes, then the winning or the plain classes |
| TicTacToe.MarksAreColoured | components/TicTacToe.tsx:33-37 | X and O get different non-empty colours; an empty cell gets none |
| MindReader.FollowSteps | components/MindReaderGame.tsx:4-10 | for every number 1..9, doubling, adding ten, halving and subtracting it gives the revealed 5 |
| MindReader.MindReaderGame.constructor | components/MindReaderGame.tsx:12-14 | starts at step 0, not started, result hidden |
| MindReader.MindReaderGame.Start | components/MindReaderGame.tsx:16-18 | only the started flag changes |
| MindReader.MindReaderGame.Next | components/MindReaderGame.tsx:20-26 | before the last step advance by one; at the last step show the result; the step stays in 0..4 |
| MindReader.MindReaderGame.Restart | components/MindReaderGame.tsx:28-32 | any state returns to step 0, not started, result hidden |
| MonerKotha.OfferedOptions | components/MonerKothaGame.tsx:13-20 | at a guess the first two answers, otherwise all five in order; an empty log offers all five |
| MonerKotha.ClickAnswer | components/MonerKothaGame.tsx:68-72 | a click sends exactly its option's text, and nothing while loading |
| MonerKotha.GuessDependsOnLastMessage | components/MonerKothaGame.tsx:20 | a last message starting with the guess marker narrows the options whatever came before |
| SpeechRecognition.FinalTextAppend | hooks/useSpeechRecognition.ts:93-95 | the final text of two result lists is the concatenation of theirs |
| SpeechRecognition.FinalTextIgnoresInterim | hooks/useSpeechRecognition.ts:96-97 | changing an interim result does not change the final text |
| SpeechRecognition.FinalTextOfInterimsOnly | hooks/useSpeechRecognition.ts:96-97 | interim results never enter the final transcript |
| SpeechRecognition.Recognizer.constructor | hooks/useSpeechRecognition.ts:60-65 | not listening, empty transcripts, no engine calls |
| SpeechRecognition.Recognizer.OnStart | hooks/useSpeechRecognition.ts:78-80 | listening becomes true |
| SpeechRecognition.Recognizer.OnEnd | hooks/useSpeechRecognition.ts:82-84 | listening becomes false |
| SpeechRecognition.Recognizer.OnError | hooks/useSpeechRecognition.ts:86-89 | listening becomes false |
| SpeechRecognition.Recognizer.OnResult | hooks/useSpeechRecognition.ts:91-101 | results before resultIndex are skipped; the old final transcript is extended by each later final result plus a space; the shown transcript is the final one followed by this event's interims |
| SpeechRecognition.Recognizer.StartListening | hooks/useSpeechRecognition.ts:112-118 | with an engine not already listening, both transcripts are cleared and the engine started; otherwise nothing changes |
| SpeechRecognition.Recognizer.StopListening | hooks/useSpeechRecognition.ts:120-124 | the engine is stopped only while listening |
| TextToSpeech.FindIndex | hooks/useTextToSpeech.ts:31 | `find` gives the first voice that satisfies the test, or none when no voice does |
| TextToSpeech.FirstPreferredPresent | hooks/useTextToSpeech.ts:23-36 | the first preferred name, in list order, that some voice has |
| TextToSpeech.SelectVoice | hooks/useTextToSpeech.ts:21-51 | the loop and the fallbacks select the voice the fallback chain defines |
| TextToSpeech.FirstPreferredIs | hooks/useTextToSpeech.ts:30-35 | the earliest preferred name present is the one chosen |
| TextToSpeech.NoPreferredPresent | hooks/useTextToSpeech.ts:30-36 | when no preferred name is present, the loop selects nothing |
| TextToSpeech.PreferredNameWins | hooks/useTextToSpeech.ts:29-36 | a present preferred name wins over every later name, wherever it sits in the voice list |
| TextToSpeech.MaleEnglishFallback | hooks/useTextToSpeech.ts:38-41 | without a preferred name, an en-* voice whose name contains "male" is chosen |
| TextToSpeech.LanguageFallbacks | hooks/useTextToSpeech.ts:43-51 | otherwise an en-GB voice, then an en-US voice, and with neither no voice at all |
| TextToSpeech.LanguageDecides | hooks/useTextToSpeech.ts:43-51 | with no name match, the choice is the first en-GB voice if any, else the first en-US voice |
| TextToSpeech.FemaleNamePassesMaleTest | hooks/useTextToSpeech.ts:40 | a voice named "Karen Female" passes the substring test for "male" |
| TextToSpeech.Speaker.constructor | hooks/useTextToSpeech.ts:4-7 | not speaking, no voice, no engine calls |
| TextToSpeech.Speaker.FindAndSetVoice | hooks/useTextToSpeech.ts:15-58 | an empty voice list changes nothing; a chosen voice is set; no choice keeps the current voice |
| TextToSpeech.Speaker.Play | hooks/useTextToSpeech.ts:85-129 | with speech supported and a non-empty text, one utterance in the chosen voice is queued; otherwise nothing happens |
| TextToSpeech.Speaker.OnStart | hooks/useTextToSpeech.ts:104-107 | speaking, and speaking that message |
| TextToSpeech.Speaker.OnEnd | hooks/useTextToSpeech.ts:109-112 | not speaking, no message |
| TextToSpeech.Speaker.OnError | hooks/useTextToSpeech.ts:114-121 | not speaking, no message, whatever the error |
| TextToSpeech.Speaker.Cancel | hooks/useTextToSpeech.ts:131-136 | when supported, the engine is cancelled and both flags are cleared; otherwise nothing happens |
| InputBar.Submitted | components/InputBar.tsx:27-33 | something is sent exactly when the trimmed input is non-empty and the bar is not loading or is in a game, and what is sent is the trimmed input |
| InputBar.PlaceholderPriority | components/InputBar.tsx:45-50 | the placeholder is the game text exactly in a game, the loading text exactly when loading outside a game, the listening text exactly when listening and neither, else the default |
| InputBar.DisabledStatesAgreeWithGuard | components/InputBar.tsx:60-82 | outside a game an enabled send button means the trimmed input is sent; a disabled field comes with disabled send and microphone buttons and nothing is sent; in a game send is enabled and the microphone disabled; blank input is never sent |
| InputBar.Bar.constructor | components/InputBar.tsx:12-19 | the input starts empty |
| InputBar.Bar.Type | components/InputBar.tsx:58 | typing sets the input value |
| InputBar.Bar.OnTranscript | components/InputBar.tsx:21-25 | a non-empty transcript overwrites the input; an empty one leaves it |
| InputBar.Bar.HandleSubmit | components/InputBar.tsx:27-34 | sends what the guard gives; after a send the input is cleared and, while listening, the engine is asked to stop; a refused submit changes nothing |
| InputBar.Bar.HandleMicClick | components/InputBar.tsx:36-43 | while listening it asks to stop; otherwise it clears the input and starts listening |

## Left out

- The Gemini service (`services/geminiService.ts`) is not part of this model. The streamed
  fragments, a failure the stream throws and the image service's answer are inputs (`Env`).
  The conversation history that `handleSend` passes to the stream is not modelled, because
  the service ignores it.
- `JSON.parse` and the `/execute` request are inputs: the parsed value as an `Option<Json>`
  and the request's answer as `ExecReply(output, error)` or `ExecFailed`. The `output` and
  `error` members are taken as strings or absent. Other JSON types in them are not modelled.
- `window.open` and `window.close` in the shortcut table are browser side effects. Only the
  returned texts are modelled.
- The browser's speech engines are left out. This covers the 50 ms delay before `speak`, the
  10-second keep-alive interval, `voiceschanged`, and `play`'s cancel-if-speaking and
  `resume`. Each engine request is recorded as a call in a list.
- React's state batching and updater ordering, `isLoading`, scrolling effects and
  `Date.now()` ids are left out. Ids are a counter: fresh and distinct.
- App.Chat.ReadStream: the placeholder message is found and edited in place in the source.
  The model edits the log as a value, so message-object aliasing is not captured.
- A failure thrown by the stream is taken to happen after all of the given fragments have
  been read.
- Text.Lower: only ASCII A-Z are case-mapped. Full Unicode case mapping is not modelled, and
  neither is the regular expression's `i` flag on non-ASCII letters.
- The `GameBoard`, `Player` and `Winner` types come from a types file that is not part of
  this model. They are taken as a 3×3 grid of optional X/O marks and a winner that is a mark
  or a tie.
- Rendering is left out: `ChatWindow.tsx`, `SourcePill.tsx`, `IconComponents.tsx`, and the
  class strings other than the tic-tac-toe cell and symbol classes. The input bar's disabled
  states are modelled as predicates.
- The games are not wired into the turn handler, so their moves are not linked to the chat
  log.
