/** The speech-to-text hook (hooks/useSpeechRecognition.ts): the listening flag driven
    by the engine's start, end and error events, the start and stop guards, and the
    accumulation of final and interim results into the displayed transcript. The
    browser's recognition engine itself is outside the model: its events are
    methods, and what the hook asks of it is recorded as a list of calls. */
module SpeechRecognition {

  /** One entry of an event's result list: whether it is final and the transcript of
      its first alternative. */
  datatype RecognitionResult = RecognitionResult(isFinal: bool, transcript: string)

  /** What the hook asks the recognition engine to do. */
  datatype EngineCall = StartEngine | StopEngine

  /** What the final results of `results` add to the final transcript: each final
      transcript followed by one space, in order. */
  function FinalText(results: seq<RecognitionResult>): string {
    if results == [] then ""
    else
      var last := results[|results| - 1];
      FinalText(results[..|results| - 1]) + (if last.isFinal then last.transcript + " " else "")
  }

  /** The interim transcripts of `results`, concatenated in order. */
  function InterimText(results: seq<RecognitionResult>): string {
    if results == [] then ""
    else
      var last := results[|results| - 1];
      InterimText(results[..|results| - 1]) + (if last.isFinal then "" else last.transcript)
  }

  /** The final text of a list is the final text of its parts, one after another. */
  lemma {:induction false} FinalTextAppend(a: seq<RecognitionResult>, b: seq<RecognitionResult>)
    ensures FinalText(a + b) == FinalText(a) + FinalText(b)
    decreases |b|
  {
    if b == [] {
      assert a + b == a;
    } else {
      assert (a + b)[..|a + b| - 1] == a + b[..|b| - 1];
      FinalTextAppend(a, b[..|b| - 1]);
    }
  }

  /** Rewriting an interim result, whatever its text, leaves the final text alone:
      interim words never enter the accumulated final transcript. */
  lemma {:induction false} FinalTextIgnoresInterim(results: seq<RecognitionResult>, i: nat, t: string)
    requires i < |results| && !results[i].isFinal
    ensures FinalText(results[i := RecognitionResult(false, t)]) == FinalText(results)
    decreases |results|
  {
    var changed := results[i := RecognitionResult(false, t)];
    if i < |results| - 1 {
      assert changed[..|changed| - 1] == results[..|results| - 1][i := RecognitionResult(false, t)];
      FinalTextIgnoresInterim(results[..|results| - 1], i, t);
    } else {
      assert changed[..|changed| - 1] == results[..|results| - 1];
    }
  }

  /** A list with no final result adds nothing to the final transcript. */
  lemma {:induction false} FinalTextOfInterimsOnly(results: seq<RecognitionResult>)
    requires forall i :: 0 <= i < |results| ==> !results[i].isFinal
    ensures FinalText(results) == ""
    decreases |results|
  {
    if results != [] {
      FinalTextOfInterimsOnly(results[..|results| - 1]);
    }
  }

  /** The hook's state; `isSupported` stands for a recognition engine being present,
      which is also when the hook holds one. */
  class Recognizer {
    const isSupported: bool
    var isListening: bool
    var transcript: string
    var finalTranscript: string
    var engineCalls: seq<EngineCall>

    constructor (isSupported: bool)
      ensures this.isSupported == isSupported
      ensures !isListening && transcript == "" && finalTranscript == "" && engineCalls == []
    {
      this.isSupported := isSupported;
      isListening, transcript, finalTranscript, engineCalls := false, "", "", [];
    }

    /** The engine's onstart event. */
    method OnStart()
      modifies this
      ensures isListening
      ensures transcript == old(transcript) && finalTranscript == old(finalTranscript)
      ensures engineCalls == old(engineCalls)
    {
      isListening := true;
    }

    /** The engine's onend event. */
    method OnEnd()
      modifies this
      ensures !isListening
      ensures transcript == old(transcript) && finalTranscript == old(finalTranscript)
      ensures engineCalls == old(engineCalls)
    {
      isListening := false;
    }

    /** The engine's onerror event; the error itself is only logged. */
    method OnError(error: string)
      modifies this
      ensures !isListening
      ensures transcript == old(transcript) && finalTranscript == old(finalTranscript)
      ensures engineCalls == old(engineCalls)
    {
      isListening := false;
    }

    /** The engine's onresult event: results before `resultIndex` were handled by
        earlier events and are skipped; each later final result is appended to the
        final transcript with one space, and the shown transcript is the final
        transcript followed by this event's interim results. */
    method OnResult(resultIndex: nat, results: seq<RecognitionResult>)
      modifies this
      ensures resultIndex >= |results| ==>
        finalTranscript == old(finalTranscript) && transcript == finalTranscript
      ensures resultIndex < |results| ==>
        finalTranscript == old(finalTranscript) + FinalText(results[resultIndex..]) &&
        transcript == finalTranscript + InterimText(results[resultIndex..])
      ensures isListening == old(isListening) && engineCalls == old(engineCalls)
    {
      var interimTranscript := "";
      var i := resultIndex;
      while i < |results|
        invariant resultIndex >= |results| ==> i == resultIndex
        invariant resultIndex < |results| ==> resultIndex <= i <= |results|
        invariant resultIndex < |results| ==>
          finalTranscript == old(finalTranscript) + FinalText(results[resultIndex..i]) &&
          interimTranscript == InterimText(results[resultIndex..i])
        invariant resultIndex >= |results| ==>
          finalTranscript == old(finalTranscript) && interimTranscript == ""
        invariant isListening == old(isListening) && engineCalls == old(engineCalls)
      {
        assert results[resultIndex..i + 1][..i - resultIndex] == results[resultIndex..i];
        if results[i].isFinal {
          finalTranscript := finalTranscript + results[i].transcript + " ";
        } else {
          interimTranscript := interimTranscript + results[i].transcript;
        }
        i := i + 1;
      }
      if resultIndex < |results| {
        assert results[resultIndex..i] == results[resultIndex..];
      }
      transcript := finalTranscript + interimTranscript;
    }

    /** startListening: with an engine that is not already listening, clear both
        transcripts and ask the engine to start; otherwise do nothing. */
    method StartListening()
      modifies this
      ensures isSupported && !old(isListening) ==>
        transcript == "" && finalTranscript == "" && engineCalls == old(engineCalls) + [StartEngine]
      ensures !(isSupported && !old(isListening)) ==>
        transcript == old(transcript) && finalTranscript == old(finalTranscript) &&
        engineCalls == old(engineCalls)
      ensures isListening == old(isListening)
    {
      if isSupported && !isListening {
        transcript := "";
        finalTranscript := "";
        engineCalls := engineCalls + [StartEngine];
      }
    }

    /** stopListening: ask the engine to stop, only while listening. The flag itself
        drops when the engine reports its end. */
    method StopListening()
      modifies this
      ensures isSupported && old(isListening) ==> engineCalls == old(engineCalls) + [StopEngine]
      ensures !(isSupported && old(isListening)) ==> engineCalls == old(engineCalls)
      ensures isListening == old(isListening)
      ensures transcript == old(transcript) && finalTranscript == old(finalTranscript)
    {
      if isSupported && isListening {
        engineCalls := engineCalls + [StopEngine];
      }
    }
  }
}
