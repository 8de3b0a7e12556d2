/** The chat screen (App.tsx): the conversation log, the auto-speak switch and the
    turn handler `handleSend`, which routes one prompt, in this order, to the local
    shortcut table, to image generation, or to the model's streamed reply, and edits
    the reply's placeholder by its id.

    The turn is specified by the function `Respond` over the log as a value; the
    class `Chat` carries the state and its method `HandleSend` performs the turn step
    by step, as the handler does, and is proved to end in the state `Respond` gives.
    What the outside world answers during a turn (the image service, the model's
    stream, JSON.parse of the reply, the `/execute` request) is an input, `Env`. */
module App {
  import opened Types
  import opened Text
  import opened CommandHandler
  import opened ChatLog
  import opened Citations
  import opened ImageRequest
  import opened Streaming
  import opened TextToSpeech

  const Greeting: string := "Victor online. Awaiting directives, Operator."
  const ImagePending: string := "Acknowledged. Generating image of: "
  const ExecutionComplete: string := "Execution complete."
  const UnknownError: string := "An unknown error occurred."
  const UnexpectedError: string := "An unexpected error occurred."
  const CriticalFailure: string := "Critical system failure: "

  /** What the image service gives back: the image's URL, or the value it threw. */
  datatype ImageOutcome = ImageUrl(url: string) | ImageFailed(failure: Failure)

  /** Everything the outside world answers during one turn. `fragments` are the chunks
      the stream yields; `streamFailure` is what the stream throws after them, if it
      does; `parsed` is JSON.parse of the trimmed reply (None when it throws); `exec`
      is the answer to the `/execute` request. */
  datatype Env = Env(
    image: ImageOutcome,
    fragments: seq<Fragment>,
    streamFailure: Option<Failure>,
    parsed: Option<Json>,
    exec: ExecOutcome)

  /** A request to read `text` aloud as message `id`. */
  datatype Speech = Speech(text: string, id: MessageId)

  /** The log after a turn, and what the turn asks to be read aloud. */
  datatype Outcome = Outcome(log: seq<Message>, speech: Option<Speech>)

  /** The placeholder shown while an image is generated. */
  function ImagePlaceholder(subject: string): string {
    ImagePending + subject + "..."
  }

  /** The message that replaces the image placeholder. */
  function ImageReply(id: MessageId, image: ImageOutcome): Message {
    match image
    case ImageUrl(url) => Message(id, Model, ExecutionComplete, None, Some(url))
    case ImageFailed(f) => Plain(id, Error, FailureText(f, UnknownError))
  }

  /** The last edit the streamed placeholder receives: the first error fragment, else
      a failure thrown by the stream, else the script's output for a directive whose
      request was answered, else the trimmed text with its citations. */
  function StreamPatch(env: Env): Patch {
    var st := Consume(env.fragments);
    if st.error.Some? then SetFailure(st.error.value)
    else if env.streamFailure.Some? then
      SetFailure(CriticalFailure + FailureText(env.streamFailure.value, UnexpectedError))
    else if IsExecDirective(env.parsed) && env.exec.ExecReply? then
      SetContent(ExecContent(env.exec.output, env.exec.error))
    else SetFinal(Trim(st.full), DedupByUri(st.sources))
  }

  /** What a streamed turn reads aloud, with auto-speak on. */
  function StreamSpeech(env: Env, id: MessageId, autoPlay: bool): Option<Speech> {
    var st := Consume(env.fragments);
    if st.error.Some? || env.streamFailure.Some? || !autoPlay then None
    else if IsExecDirective(env.parsed) && env.exec.ExecReply? then Some(Speech(ExecutionComplete, id))
    else if Trim(st.full) != "" then Some(Speech(Trim(st.full), id))
    else None
  }

  /** The reply's branch of a turn, given the shortcut table's answer `command` and
      the image pattern's capture `subject`: `withPrompt` is the log with the prompt
      appended and `id` the reply's fresh id. */
  function Route(withPrompt: seq<Message>, id: MessageId, command: Option<string>, subject: Option<string>,
                 env: Env, autoPlay: bool): Outcome
  {
    match command
    case Some(reply) =>
      Outcome(withPrompt + [Plain(id, Model, reply)], if autoPlay then Some(Speech(reply, id)) else None)
    case None =>
      match subject
      case Some(s) =>
        Outcome(ReplaceById(withPrompt + [Plain(id, Model, ImagePlaceholder(s))], id, ImageReply(id, env.image)),
                if autoPlay && env.image.ImageUrl? then Some(Speech(ExecutionComplete, id)) else None)
      case None =>
        Outcome(PatchFirst(withPrompt + [Plain(id, Model, "")], id, StreamPatch(env)), StreamSpeech(env, id, autoPlay))
  }

  /** One turn of handleSend on the log `log`, with `id` and `id + 1` the fresh ids of
      the user's message and the reply. */
  function Respond(log: seq<Message>, prompt: string, env: Env, id: MessageId, autoPlay: bool): Outcome {
    if IsBlank(prompt) then Outcome(log, None)
    else Route(log + [Plain(id, User, prompt)], id + 1, Handle(prompt), ImageSubject(prompt), env, autoPlay)
  }

  /** The reply message of a branch, on its own. */
  function ReplyOf(command: Option<string>, subject: Option<string>, env: Env, id: MessageId): (m: Message)
    ensures m.id == id
  {
    match command
    case Some(reply) => Plain(id, Model, reply)
    case None =>
      match subject
      case Some(_) => ImageReply(id, env.image)
      case None => Apply(Plain(id, Model, ""), StreamPatch(env))
  }

  /** The reply a non-blank prompt ends up with. */
  function Reply(prompt: string, env: Env, id: MessageId): (m: Message)
    ensures m.id == id
  {
    ReplyOf(Handle(prompt), ImageSubject(prompt), env, id)
  }

  /** Whichever branch is taken, the log gains exactly the reply, however its
      placeholder was edited along the way. */
  lemma RouteAppendsReply(withPrompt: seq<Message>, id: MessageId, command: Option<string>,
                          subject: Option<string>, env: Env, autoPlay: bool)
    requires forall i :: 0 <= i < |withPrompt| ==> withPrompt[i].id != id
    ensures Route(withPrompt, id, command, subject, env, autoPlay).log ==
      withPrompt + [ReplyOf(command, subject, env, id)]
  {
    if command.None? {
      match subject
      case Some(s) =>
        ReplaceLast(withPrompt, Plain(id, Model, ImagePlaceholder(s)), ImageReply(id, env.image));
      case None =>
        PatchLast(withPrompt, Plain(id, Model, ""), StreamPatch(env));
    }
  }

  /** A prompt that is not blank takes the reply's branch after its own message. */
  lemma RespondIsRoute(log: seq<Message>, prompt: string, env: Env, id: MessageId, autoPlay: bool)
    requires !IsBlank(prompt)
    ensures Respond(log, prompt, env, id, autoPlay) ==
      Route(log + [Plain(id, User, prompt)], id + 1, Handle(prompt), ImageSubject(prompt), env, autoPlay)
  {
  }

  /** A blank prompt changes nothing and reads nothing aloud. Any other prompt, with
      ids fresh for the log, appends exactly two messages: the user's prompt as typed
      (not trimmed) and the reply; every earlier message is left as it was. */
  lemma RespondAppendsTwo(log: seq<Message>, prompt: string, env: Env, id: MessageId, autoPlay: bool)
    requires IdsBelow(log, id)
    ensures IsBlank(prompt) ==> Respond(log, prompt, env, id, autoPlay) == Outcome(log, None)
    ensures !IsBlank(prompt) ==>
      Respond(log, prompt, env, id, autoPlay).log == log + [Plain(id, User, prompt), Reply(prompt, env, id + 1)]
  {
    if !IsBlank(prompt) {
      RespondIsRoute(log, prompt, env, id, autoPlay);
      PromptThenReply(log, id, prompt, Handle(prompt), ImageSubject(prompt), env, autoPlay);
    }
  }

  /** With ids below `id` in the log, the prompt logged as `id` and the reply as
      `id + 1` are the only two messages a branch adds. */
  lemma PromptThenReply(log: seq<Message>, id: MessageId, prompt: string, command: Option<string>,
                        subject: Option<string>, env: Env, autoPlay: bool)
    requires IdsBelow(log, id)
    ensures Route(log + [Plain(id, User, prompt)], id + 1, command, subject, env, autoPlay).log ==
      log + [Plain(id, User, prompt), ReplyOf(command, subject, env, id + 1)]
  {
    var withPrompt := log + [Plain(id, User, prompt)];
    assert forall i :: 0 <= i < |withPrompt| ==> withPrompt[i].id != id + 1;
    RouteAppendsReply(withPrompt, id + 1, command, subject, env, autoPlay);
    assert withPrompt + [ReplyOf(command, subject, env, id + 1)] ==
      log + [Plain(id, User, prompt), ReplyOf(command, subject, env, id + 1)];
  }

  /** In every branch only the reply is read aloud, only with auto-speak on, and never
      an empty text. */
  lemma RouteSpeech(withPrompt: seq<Message>, id: MessageId, command: Option<string>,
                    subject: Option<string>, env: Env, autoPlay: bool)
    requires command.Some? ==> command.value != ""
    ensures Route(withPrompt, id, command, subject, env, autoPlay).speech.Some? ==>
      autoPlay && Route(withPrompt, id, command, subject, env, autoPlay).speech.value.id == id &&
      Route(withPrompt, id, command, subject, env, autoPlay).speech.value.text != ""
  {
    assert |ExecutionComplete| > 0;
  }

  /** Only a reply is ever read aloud, only with auto-speak on, and never an empty
      text; a blank prompt reads nothing. */
  lemma SpeechIsTheReply(log: seq<Message>, prompt: string, env: Env, id: MessageId, autoPlay: bool)
    ensures Respond(log, prompt, env, id, autoPlay).speech.Some? ==>
      autoPlay && !IsBlank(prompt) &&
      Respond(log, prompt, env, id, autoPlay).speech.value.id == id + 1 &&
      Respond(log, prompt, env, id, autoPlay).speech.value.text != ""
  {
    if !IsBlank(prompt) {
      RouteSpeech(log + [Plain(id, User, prompt)], id + 1, Handle(prompt), ImageSubject(prompt), env, autoPlay);
    }
  }

  /** The shortcut table comes first: when it answers, its answer is the reply, as a
      MODEL message, and neither the image service nor the model is consulted. */
  lemma ShortcutReply(prompt: string, env: Env, env2: Env, id: MessageId)
    requires Handle(prompt).Some?
    ensures Reply(prompt, env, id) == Plain(id, Model, Handle(prompt).value)
    ensures Reply(prompt, env, id) == Reply(prompt, env2, id)
  {
  }

  /** An image request, which the shortcut table did not answer, ends as "Execution
      complete." with the image's URL, or as an ERROR message with the failure's
      text; the model's stream plays no part. */
  lemma ImageRequestReply(prompt: string, env: Env, id: MessageId)
    requires Handle(prompt).None? && ImageSubject(prompt).Some?
    ensures env.image.ImageUrl? ==>
      Reply(prompt, env, id) == Message(id, Model, ExecutionComplete, None, Some(env.image.url))
    ensures env.image.ImageFailed? ==>
      Reply(prompt, env, id) == Plain(id, Error, FailureText(env.image.failure, UnknownError))
    ensures forall fragments :: Reply(prompt, env.(fragments := fragments), id) == Reply(prompt, env, id)
  {
  }

  /** A prompt that is neither a shortcut nor an image request is streamed. */
  predicate Streamed(prompt: string) {
    Handle(prompt).None? && ImageSubject(prompt).None?
  }

  /** The first error fragment becomes the reply as an ERROR message with that text
      and no citations; the fragments after it do not matter. */
  lemma ErrorFragmentReply(prompt: string, env: Env, id: MessageId, k: nat)
    requires Streamed(prompt)
    requires k < |env.fragments| && HasError(env.fragments[k]) && NoError(env.fragments[..k])
    ensures Reply(prompt, env, id) == Plain(id, Error, env.fragments[k].error.value)
    ensures Reply(prompt, env, id) == Reply(prompt, env.(fragments := env.fragments[..k + 1]), id)
  {
    FirstErrorEndsStream(env.fragments, k);
  }

  /** A stream that ends without an error fragment and is not a directive whose script
      ran gives the trimmed concatenation of its texts, as a MODEL message, with one
      citation per distinct uri. This is also where an unparsable reply, a value of
      any other shape, and a failed `/execute` request end up. */
  lemma StreamedReply(prompt: string, env: Env, id: MessageId)
    requires Streamed(prompt)
    requires NoError(env.fragments) && env.streamFailure.None?
    requires !IsExecDirective(env.parsed) || env.exec.ExecFailed?
    ensures Reply(prompt, env, id).role == Model
    ensures Reply(prompt, env, id).content == Trim(Texts(env.fragments))
    ensures Reply(prompt, env, id).sources.Some? && DistinctUris(Reply(prompt, env, id).sources.value)
    ensures Reply(prompt, env, id).sources == Some(DedupByUri(AllSources(env.fragments)))
    ensures forall u :: HasUri(Reply(prompt, env, id).sources.value, u) <==> HasUri(AllSources(env.fragments), u)
  {
    ConsumeConcatenates(env.fragments);
    DedupKeepsUris(AllSources(env.fragments));
  }

  /** A directive whose script ran replaces the text with the script's output, framed,
      and attaches no citations. */
  lemma ExecutedReply(prompt: string, env: Env, id: MessageId)
    requires Streamed(prompt)
    requires NoError(env.fragments) && env.streamFailure.None?
    requires IsExecDirective(env.parsed) && env.exec.ExecReply?
    ensures Reply(prompt, env, id) ==
      Plain(id, Model, ExecHeader + ExecOutput(env.exec.output, env.exec.error) + ExecFooter)
  {
    ConsumeConcatenates(env.fragments);
  }

  /** A failure thrown by the stream, with no error fragment before it, becomes an
      ERROR message naming a critical failure. */
  lemma StreamFailureReply(prompt: string, env: Env, id: MessageId)
    requires Streamed(prompt)
    requires NoError(env.fragments) && env.streamFailure.Some?
    ensures Reply(prompt, env, id) ==
      Plain(id, Error, CriticalFailure + FailureText(env.streamFailure.value, UnexpectedError))
  {
    ConsumeConcatenates(env.fragments);
  }

  /** What `play` hands to the speech engine for a request. */
  function PlayCalls(isSupported: bool, voice: Option<Voice>, speech: Option<Speech>): seq<SynthCall> {
    if isSupported && speech.Some? && speech.value.text != "" then
      [Speak(Utterance(speech.value.text, speech.value.id, voice))]
    else []
  }

  /** The screen's state: the log, the auto-speak switch, the next unused id, and the
      text-to-speech hook. */
  class Chat {
    var messages: seq<Message>
    var autoPlayTTS: bool
    var nextId: nat
    const tts: Speaker

    /** Ids are distinct and all below the next one handed out. */
    ghost predicate Valid()
      reads this, tts
    {
      tts.Valid() && IdsBelow(messages, nextId) && DistinctIds(messages)
    }

    /** The screen opens with the greeting and auto-speak on. */
    constructor (tts: Speaker)
      requires tts.Valid()
      ensures Valid() && this.tts == tts
      ensures messages == [Plain(0, Model, Greeting)] && autoPlayTTS && nextId == 1
    {
      messages := [Plain(0, Model, Greeting)];
      autoPlayTTS := true;
      nextId := 1;
      this.tts := tts;
    }

    /** The auto-speak checkbox. */
    method ToggleAutoPlay()
      modifies this
      ensures autoPlayTTS == !old(autoPlayTTS)
      ensures messages == old(messages) && nextId == old(nextId)
    {
      autoPlayTTS := !autoPlayTTS;
    }

    /** handleToggleTTS: a message being read aloud is stopped, any other one is read. */
    method ToggleSpeech(message: Message)
      requires Valid()
      modifies tts
      ensures Valid()
      ensures old(tts.isSpeaking) && old(tts.currentlySpeakingId) == Some(message.id) ==>
        tts.synthCalls == old(tts.synthCalls) + (if tts.isSupported then [CancelAll] else [])
      ensures !(old(tts.isSpeaking) && old(tts.currentlySpeakingId) == Some(message.id)) ==>
        tts.synthCalls == old(tts.synthCalls) +
          PlayCalls(tts.isSupported, tts.victorVoice, Some(Speech(message.content, message.id)))
      ensures old(tts.isSpeaking) && old(tts.currentlySpeakingId) == Some(message.id) && tts.isSupported ==>
        !tts.isSpeaking && tts.currentlySpeakingId == None
      ensures !(old(tts.isSpeaking) && old(tts.currentlySpeakingId) == Some(message.id) && tts.isSupported) ==>
        tts.isSpeaking == old(tts.isSpeaking) && tts.currentlySpeakingId == old(tts.currentlySpeakingId)
      ensures tts.victorVoice == old(tts.victorVoice)
    {
      if tts.isSpeaking && tts.currentlySpeakingId == Some(message.id) {
        tts.Cancel();
      } else {
        tts.Play(message.content, message.id);
      }
    }

    /** The for-await loop over the stream: folds the fragments into `full` and
        `sources`, rewriting the placeholder's content after each text, and stops at
        the first error, which turns the placeholder into an ERROR message. */
    method ReadStream(id: MessageId, env: Env) returns (full: string, sources: seq<Source>, error: Option<string>)
      requires FindById(messages, id).Some? ==> messages[FindById(messages, id).value].content == ""
      modifies this
      ensures StreamState(full, sources, error) == Consume(env.fragments)
      ensures error.None? ==> messages == PatchFirst(old(messages), id, SetContent(full))
      ensures error.Some? ==> messages == PatchFirst(old(messages), id, SetFailure(error.value))
      ensures autoPlayTTS == old(autoPlayTTS) && nextId == old(nextId)
    {
      var start := messages;
      PatchWithSameContent(start, id, "");
      full, sources, error := "", [], None;
      var i := 0;
      while i < |env.fragments| && error.None?
        invariant 0 <= i <= |env.fragments|
        invariant Consume(env.fragments[..i]) == StreamState(full, sources, error)
        invariant error.None? ==> messages == PatchFirst(start, id, SetContent(full))
        invariant error.Some? ==> messages == PatchFirst(start, id, SetFailure(error.value))
        invariant autoPlayTTS == old(autoPlayTTS) && nextId == old(nextId)
      {
        var chunk := env.fragments[i];
        ConsumeOneMore(env.fragments, i);
        if chunk.text.Some? && chunk.text.value != "" {
          ContentPatchOverwritten(start, id, full, SetContent(full + chunk.text.value));
          full := full + chunk.text.value;
          messages := PatchFirst(messages, id, SetContent(full));
        }
        if chunk.sources.Some? {
          sources := sources + chunk.sources.value;
        }
        if chunk.error.Some? && chunk.error.value != "" {
          ContentPatchOverwritten(start, id, full, SetFailure(chunk.error.value));
          error := chunk.error;
          messages := PatchFirst(messages, id, SetFailure(chunk.error.value));
        }
        i := i + 1;
      }
      if error.Some? {
        StoppedStaysStopped(env.fragments, i);
      } else {
        assert env.fragments[..i] == env.fragments;
      }
    }

    /** The streamed branch, from the empty placeholder on: the loop over the stream,
        then the failure, the directive and the final edit. Returns what to read
        aloud. */
    method StreamIntoPlaceholder(id: MessageId, env: Env) returns (speech: Option<Speech>)
      requires FindById(messages, id).Some? ==> messages[FindById(messages, id).value].content == ""
      modifies this
      ensures messages == PatchFirst(old(messages), id, StreamPatch(env))
      ensures speech == StreamSpeech(env, id, autoPlayTTS)
      ensures autoPlayTTS == old(autoPlayTTS) && nextId == old(nextId)
    {
      var start := messages;
      var full, sources, error := ReadStream(id, env);
      if error.Some? {
        speech := None;
        return;
      }
      var last: Patch;
      if env.streamFailure.Some? {
        last := SetFailure(CriticalFailure + FailureText(env.streamFailure.value, UnexpectedError));
        speech := None;
      } else if IsExecDirective(env.parsed) && env.exec.ExecReply? {
        last := SetContent(ExecContent(env.exec.output, env.exec.error));
        speech := if autoPlayTTS then Some(Speech(ExecutionComplete, id)) else None;
      } else {
        var trimmed := Trim(full);
        last := SetFinal(trimmed, DedupByUri(sources));
        speech := if autoPlayTTS && trimmed != "" then Some(Speech(trimmed, id)) else None;
      }
      ContentPatchOverwritten(start, id, full, last);
      messages := PatchFirst(messages, id, last);
    }

    /** The reply's branch of handleSend, once the shortcut table and the image pattern
        have been consulted: appends the placeholder or the answer under the fresh id
        `id` and edits it until the reply is final. Returns what to read aloud. */
    method Answer(id: MessageId, command: Option<string>, subject: Option<string>, env: Env)
      returns (speech: Option<Speech>)
      requires forall i :: 0 <= i < |messages| ==> messages[i].id != id
      modifies this
      ensures messages == Route(old(messages), id, command, subject, env, autoPlayTTS).log
      ensures speech == Route(old(messages), id, command, subject, env, autoPlayTTS).speech
      ensures autoPlayTTS == old(autoPlayTTS) && nextId == old(nextId)
    {
      if command.Some? {
        messages := messages + [Plain(id, Model, command.value)];
        speech := if autoPlayTTS then Some(Speech(command.value, id)) else None;
      } else if subject.Some? {
        messages := messages + [Plain(id, Model, ImagePlaceholder(subject.value))];
        messages := ReplaceById(messages, id, ImageReply(id, env.image));
        speech := if autoPlayTTS && env.image.ImageUrl? then Some(Speech(ExecutionComplete, id)) else None;
      } else {
        FindLast(messages, Plain(id, Model, ""));
        messages := messages + [Plain(id, Model, "")];
        speech := StreamIntoPlaceholder(id, env);
      }
    }

    /** handleSend: a blank prompt is ignored. Otherwise speech is cancelled, the
        prompt is logged as typed, and the reply comes from the shortcut table, the
        image service or the model's stream, in that order of precedence, and is
        read aloud when auto-speak is on. The new log and what is read aloud are
        those `Respond` gives (see RespondIsRoute). */
    method HandleSend(prompt: string, env: Env)
      requires Valid()
      modifies this, tts
      ensures Valid()
      ensures IsBlank(prompt) ==>
        messages == old(messages) && nextId == old(nextId) && tts.synthCalls == old(tts.synthCalls)
      ensures IsBlank(prompt) || !tts.isSupported ==>
        tts.isSpeaking == old(tts.isSpeaking) && tts.currentlySpeakingId == old(tts.currentlySpeakingId)
      ensures !IsBlank(prompt) && tts.isSupported ==> !tts.isSpeaking && tts.currentlySpeakingId == None
      ensures !IsBlank(prompt) ==> (
        messages ==
        Route(old(messages) + [Plain(old(nextId), User, prompt)], old(nextId) + 1,
              Handle(prompt), ImageSubject(prompt), env, autoPlayTTS).log)
      ensures !IsBlank(prompt) ==> (
        tts.synthCalls == old(tts.synthCalls) +
        (if tts.isSupported then [CancelAll] else []) +
        PlayCalls(tts.isSupported, tts.victorVoice,
                  Route(old(messages) + [Plain(old(nextId), User, prompt)], old(nextId) + 1,
                        Handle(prompt), ImageSubject(prompt), env, autoPlayTTS).speech))
      ensures !IsBlank(prompt) ==> nextId == old(nextId) + 2
      ensures autoPlayTTS == old(autoPlayTTS) && tts.victorVoice == old(tts.victorVoice)
    {
      if IsBlank(prompt) {
        return;
      }
      Exchange(prompt, Handle(prompt), ImageSubject(prompt), env);
    }

    /** The body of handleSend for a prompt that is not blank, given what the shortcut
        table and the image pattern make of it. */
    method Exchange(prompt: string, command: Option<string>, subject: Option<string>, env: Env)
      requires Valid()
      modifies this, tts
      ensures Valid()
      ensures messages ==
        Route(old(messages) + [Plain(old(nextId), User, prompt)], old(nextId) + 1, command, subject, env, autoPlayTTS).log
      ensures tts.synthCalls == old(tts.synthCalls) + (if tts.isSupported then [CancelAll] else []) +
        PlayCalls(tts.isSupported, tts.victorVoice,
                  Route(old(messages) + [Plain(old(nextId), User, prompt)], old(nextId) + 1, command, subject, env, autoPlayTTS).speech)
      ensures tts.isSupported ==> !tts.isSpeaking && tts.currentlySpeakingId == None
      ensures !tts.isSupported ==>
        tts.isSpeaking == old(tts.isSpeaking) && tts.currentlySpeakingId == old(tts.currentlySpeakingId)
      ensures nextId == old(nextId) + 2
      ensures autoPlayTTS == old(autoPlayTTS) && tts.victorVoice == old(tts.victorVoice)
    {
      tts.Cancel();
      var speech := Log(prompt, command, subject, env);
      Say(speech);
    }

    /** What handleSend does to the log for a prompt that is not blank: the prompt and
        then the reply, under the next two ids. Returns what to read aloud. */
    method Log(prompt: string, command: Option<string>, subject: Option<string>, env: Env)
      returns (speech: Option<Speech>)
      requires IdsBelow(messages, nextId) && DistinctIds(messages)
      modifies this
      ensures IdsBelow(messages, nextId) && DistinctIds(messages)
      ensures messages ==
        Route(old(messages) + [Plain(old(nextId), User, prompt)], old(nextId) + 1, command, subject, env, autoPlayTTS).log
      ensures speech ==
        Route(old(messages) + [Plain(old(nextId), User, prompt)], old(nextId) + 1, command, subject, env, autoPlayTTS).speech
      ensures nextId == old(nextId) + 2 && autoPlayTTS == old(autoPlayTTS)
    {
      var userId := nextId;
      var replyId := nextId + 1;
      nextId := nextId + 2;
      AppendFresh(messages, Plain(userId, User, prompt), userId);
      messages := messages + [Plain(userId, User, prompt)];
      var withPrompt := messages;
      speech := Answer(replyId, command, subject, env);
      RouteAppendsReply(withPrompt, replyId, command, subject, env, autoPlayTTS);
      AppendFresh(withPrompt, ReplyOf(command, subject, env, replyId), replyId);
    }

    /** `if (autoPlayTTS) play(text, id)`, once the reply is known. */
    method Say(speech: Option<Speech>)
      requires tts.Valid()
      modifies tts
      ensures tts.Valid()
      ensures tts.synthCalls == old(tts.synthCalls) + PlayCalls(tts.isSupported, tts.victorVoice, speech)
      ensures tts.isSpeaking == old(tts.isSpeaking) && tts.currentlySpeakingId == old(tts.currentlySpeakingId)
      ensures tts.victorVoice == old(tts.victorVoice)
    {
      if speech.Some? {
        tts.Play(speech.value.text, speech.value.id);
      }
    }
  }
}
