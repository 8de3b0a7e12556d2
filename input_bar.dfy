/** The prompt bar (components/InputBar.tsx): the submit guard, the microphone
    toggle, the transcript feeding the text field, the placeholder's priority and the
    three disabled states. */
module InputBar {
  import opened Types
  import opened Text
  import opened SpeechRecognition

  /** handleSubmit's guard: something other than white space was typed, and the bar
      is either idle or in a game. */
  predicate CanSubmit(input: string, isLoading: bool, isGameActive: bool) {
    !IsBlank(input) && (!isLoading || isGameActive)
  }

  /** What a submit hands to onSend: the trimmed input, and only when the guard holds.
      What is sent is never blank and has nothing left to trim. */
  function Submitted(input: string, isLoading: bool, isGameActive: bool): (sent: Option<string>)
    ensures sent.Some? <==> CanSubmit(input, isLoading, isGameActive)
    ensures sent.Some? ==> sent.value == Trim(input)
    ensures sent.Some? ==> sent.value != "" && Trim(sent.value) == sent.value
  {
    if CanSubmit(input, isLoading, isGameActive) then
      TrimIdempotent(input);
      Some(Trim(input))
    else None
  }

  const GamePlaceholder: string := "Game in progress. Type 'exit game' to quit."
  const LoadingPlaceholder: string := "Victor is processing..."
  const ListeningPlaceholder: string := "Listening..."
  const DefaultPlaceholder: string := "Enter directive..."

  /** getPlaceholder: a game outranks loading, loading outranks listening. */
  function Placeholder(isGameActive: bool, isLoading: bool, isListening: bool): string {
    if isGameActive then GamePlaceholder
    else if isLoading then LoadingPlaceholder
    else if isListening then ListeningPlaceholder
    else DefaultPlaceholder
  }

  /** The four placeholders are told apart by their first letter, so the text shown
      says exactly which of the four situations the bar is in. */
  lemma PlaceholderPriority(isGameActive: bool, isLoading: bool, isListening: bool)
    ensures Placeholder(isGameActive, isLoading, isListening) == GamePlaceholder <==> isGameActive
    ensures Placeholder(isGameActive, isLoading, isListening) == LoadingPlaceholder <==>
      !isGameActive && isLoading
    ensures Placeholder(isGameActive, isLoading, isListening) == ListeningPlaceholder <==>
      !isGameActive && !isLoading && isListening
    ensures Placeholder(isGameActive, isLoading, isListening) == DefaultPlaceholder <==>
      !isGameActive && !isLoading && !isListening
  {
    var heads := [GamePlaceholder[0], LoadingPlaceholder[0], ListeningPlaceholder[0], DefaultPlaceholder[0]];
    assert heads == ['G', 'V', 'L', 'E'];
  }

  /** The text field's disabled state. */
  predicate InputDisabled(isLoading: bool, isGameActive: bool) {
    isLoading && !isGameActive
  }

  /** The send button's disabled state. */
  predicate SendDisabled(input: string, isLoading: bool, isListening: bool, isGameActive: bool) {
    (isLoading || isListening || IsBlank(input)) && !isGameActive
  }

  /** The microphone button's disabled state. */
  predicate MicDisabled(isLoading: bool, isGameActive: bool) {
    isLoading || isGameActive
  }

  /** Outside a game, an enabled send button always leads to a send, and a locked text
      field always comes with a locked send button and microphone. In a game the send
      button is always enabled while the microphone is always disabled, and a blank
      input is still not sent. */
  lemma DisabledStatesAgreeWithGuard(input: string, isLoading: bool, isListening: bool, isGameActive: bool)
    ensures !isGameActive && !SendDisabled(input, isLoading, isListening, isGameActive) ==>
      Submitted(input, isLoading, isGameActive) == Some(Trim(input))
    ensures InputDisabled(isLoading, isGameActive) ==>
      SendDisabled(input, isLoading, isListening, isGameActive) && MicDisabled(isLoading, isGameActive) &&
      Submitted(input, isLoading, isGameActive) == None
    ensures isGameActive ==>
      !SendDisabled(input, isLoading, isListening, isGameActive) && MicDisabled(isLoading, isGameActive)
    ensures IsBlank(input) ==> Submitted(input, isLoading, isGameActive) == None
  {
  }

  /** The bar's own state, the text typed so far, beside the recognition hook it uses. */
  class Bar {
    var inputValue: string
    const speech: Recognizer

    constructor (speech: Recognizer)
      ensures inputValue == "" && this.speech == speech
    {
      inputValue := "";
      this.speech := speech;
    }

    /** The text field's onChange. */
    method Type(value: string)
      modifies this
      ensures inputValue == value
    {
      inputValue := value;
    }

    /** The effect on the transcript: a non-empty transcript replaces whatever was typed. */
    method OnTranscript()
      modifies this
      ensures speech.transcript != "" ==> inputValue == speech.transcript
      ensures speech.transcript == "" ==> inputValue == old(inputValue)
    {
      if speech.transcript != "" {
        inputValue := speech.transcript;
      }
    }

    /** handleSubmit: when the guard holds, stop listening, send the trimmed input and
        clear the field; otherwise nothing happens. */
    method HandleSubmit(isLoading: bool, isGameActive: bool) returns (sent: Option<string>)
      modifies this, speech
      ensures sent == Submitted(old(inputValue), isLoading, isGameActive)
      ensures sent.Some? ==> inputValue == ""
      ensures sent.None? ==> inputValue == old(inputValue)
      ensures speech.engineCalls ==
        old(speech.engineCalls) + (if sent.Some? && speech.isSupported && old(speech.isListening) then [StopEngine] else [])
      ensures speech.isListening == old(speech.isListening)
      ensures speech.transcript == old(speech.transcript)
      ensures speech.finalTranscript == old(speech.finalTranscript)
    {
      sent := Submitted(inputValue, isLoading, isGameActive);
      if sent.Some? {
        speech.StopListening();
        inputValue := "";
      }
    }

    /** handleMicClick: while listening, ask the engine to stop; otherwise clear the
        field and ask it to start. */
    method HandleMicClick()
      modifies this, speech
      ensures old(speech.isListening) ==> inputValue == old(inputValue)
      ensures !old(speech.isListening) ==> inputValue == ""
      ensures speech.engineCalls == old(speech.engineCalls) +
        (if !speech.isSupported then [] else if old(speech.isListening) then [StopEngine] else [StartEngine])
      ensures speech.isSupported && !old(speech.isListening) ==>
        speech.transcript == "" && speech.finalTranscript == ""
      ensures !(speech.isSupported && !old(speech.isListening)) ==>
        speech.transcript == old(speech.transcript) && speech.finalTranscript == old(speech.finalTranscript)
      ensures speech.isListening == old(speech.isListening)
    {
      if speech.isListening {
        speech.StopListening();
      } else {
        inputValue := "";
        speech.StartListening();
      }
    }
  }
}
