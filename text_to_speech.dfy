/** The text-to-speech hook (hooks/useTextToSpeech.ts): the choice of a voice through
    a chain of fallbacks, the guard on play, and the speaking flag and speaking-message
    id that the utterance events and cancel update together. The speech engine is
    outside the model: what the hook hands to it is recorded as a list of calls. */
module TextToSpeech {
  import opened Types
  import opened Text

  /** A system voice: its display name and its language tag. */
  datatype Voice = Voice(name: string, lang: string)

  /** The voices tried by name first, in this order. */
  const PreferredVoiceNames: seq<string> := [
    "Google UK English Male",
    "Microsoft David - English (United States)",
    "Daniel"]

  /** Array.prototype.find as an index: the first voice satisfying `p`. */
  function FindIndex(voices: seq<Voice>, p: Voice -> bool): (r: Option<nat>)
    ensures r.Some? ==> r.value < |voices| && p(voices[r.value])
    ensures r.Some? ==> forall j :: 0 <= j < r.value ==> !p(voices[j])
    ensures r.None? ==> forall j :: 0 <= j < |voices| ==> !p(voices[j])
  {
    if voices == [] then None
    else if p(voices[0]) then Some(0)
    else match FindIndex(voices[1..], p)
      case None => None
      case Some(k) => Some(k + 1)
  }

  /** The test `v.name === name`. */
  function NameIs(name: string): Voice -> bool {
    (v: Voice) => v.name == name
  }

  /** The test `v.lang === lang`. */
  function LangIs(lang: string): Voice -> bool {
    (v: Voice) => v.lang == lang
  }

  /** `voices.find(p) || null` */
  function Find(voices: seq<Voice>, p: Voice -> bool): Option<Voice> {
    match FindIndex(voices, p)
    case None => None
    case Some(k) => Some(voices[k])
  }

  /** `v.lang.startsWith('en-') && v.name.toLowerCase().includes('male')`; a name
      containing "female" passes this test too. */
  predicate IsMaleEnglish(v: Voice) {
    StartsWith(v.lang, "en-") && Contains(Lower(v.name), "male")
  }

  /** The first preferred name (in the list's order) that some voice carries. */
  function FirstPreferredPresent(voices: seq<Voice>, k: nat): (r: Option<nat>)
    requires k <= |PreferredVoiceNames|
    ensures r.Some? ==> (k <= r.value < |PreferredVoiceNames| &&
      Find(voices, NameIs(PreferredVoiceNames[r.value])).Some?)
    ensures r.Some? ==> forall j :: k <= j < r.value ==>
      Find(voices, NameIs(PreferredVoiceNames[j])).None?
    ensures r.None? ==> forall j :: k <= j < |PreferredVoiceNames| ==>
      Find(voices, NameIs(PreferredVoiceNames[j])).None?
    decreases |PreferredVoiceNames| - k
  {
    if k == |PreferredVoiceNames| then None
    else if Find(voices, NameIs(PreferredVoiceNames[k])).Some? then Some(k)
    else FirstPreferredPresent(voices, k + 1)
  }

  /** The voice findAndSetVoice settles on: a preferred name, then an English voice
      whose name contains "male", then the first en-GB voice, then the first en-US
      voice, otherwise none. */
  function ChooseVoice(voices: seq<Voice>): Option<Voice> {
    match FirstPreferredPresent(voices, 0)
    case Some(k) => Find(voices, NameIs(PreferredVoiceNames[k]))
    case None =>
      var male := Find(voices, IsMaleEnglish);
      if male.Some? then male
      else
        var gb := Find(voices, LangIs("en-GB"));
        if gb.Some? then gb
        else Find(voices, LangIs("en-US"))
  }

  /** The selection step of findAndSetVoice: the preferred names are tried one after
      another by a loop that stops at the first name found; the fallbacks follow. */
  method SelectVoice(voices: seq<Voice>) returns (selected: Option<Voice>)
    ensures selected == ChooseVoice(voices)
  {
    selected := None;
    var k := 0;
    while k < |PreferredVoiceNames|
      invariant 0 <= k <= |PreferredVoiceNames|
      invariant selected.None? ==> FirstPreferredPresent(voices, 0) == FirstPreferredPresent(voices, k)
      invariant selected.Some? ==> selected == ChooseVoice(voices)
      decreases if selected.Some? then 0 else |PreferredVoiceNames| - k + 1
    {
      var found := Find(voices, NameIs(PreferredVoiceNames[k]));
      if found.Some? {
        selected := found;
        break;
      }
      k := k + 1;
    }
    if selected.None? {
      selected := Find(voices, IsMaleEnglish);
    }
    if selected.None? {
      selected := Find(voices, LangIs("en-GB"));
    }
    if selected.None? {
      selected := Find(voices, LangIs("en-US"));
    }
  }

  /** A voice satisfying `p` at position `i` means find succeeds, at `i` or earlier. */
  lemma {:induction false} FindReaches(voices: seq<Voice>, p: Voice -> bool, i: nat)
    requires i < |voices| && p(voices[i])
    ensures FindIndex(voices, p).Some? && FindIndex(voices, p).value <= i
    decreases i
  {
    if !p(voices[0]) {
      FindReaches(voices[1..], p, i - 1);
    }
  }

  /** The search over preferred names stops at the first one some voice carries. */
  lemma {:induction false} FirstPreferredIs(voices: seq<Voice>, j: nat, k: nat)
    requires j <= k < |PreferredVoiceNames|
    requires forall m, w :: j <= m < k && 0 <= w < |voices| ==> voices[w].name != PreferredVoiceNames[m]
    requires Find(voices, NameIs(PreferredVoiceNames[k])).Some?
    ensures FirstPreferredPresent(voices, j) == Some(k)
    decreases k - j
  {
    if j < k {
      var found := FindIndex(voices, NameIs(PreferredVoiceNames[j]));
      assert found.None? by {
        if found.Some? {
          assert false;
        }
      }
      FirstPreferredIs(voices, j + 1, k);
    }
  }

  /** When no voice carries any preferred name, the search over names finds nothing. */
  lemma {:induction false} NoPreferredPresent(voices: seq<Voice>, j: nat)
    requires j <= |PreferredVoiceNames|
    requires forall m, w :: 0 <= m < |PreferredVoiceNames| && 0 <= w < |voices| ==>
      voices[w].name != PreferredVoiceNames[m]
    ensures FirstPreferredPresent(voices, j) == None
    decreases |PreferredVoiceNames| - j
  {
    if j < |PreferredVoiceNames| {
      var found := FindIndex(voices, NameIs(PreferredVoiceNames[j]));
      assert found.None? by {
        if found.Some? {
          assert false;
        }
      }
      NoPreferredPresent(voices, j + 1);
    }
  }

  /** A preferred name wins over every fallback, and the earliest preferred name that
      any voice carries wins wherever that voice sits in the list. */
  lemma PreferredNameWins(voices: seq<Voice>, k: nat, i: nat)
    requires k < |PreferredVoiceNames| && i < |voices|
    requires voices[i].name == PreferredVoiceNames[k]
    requires forall j, w :: 0 <= j < k && 0 <= w < |voices| ==> voices[w].name != PreferredVoiceNames[j]
    ensures ChooseVoice(voices).Some?
    ensures ChooseVoice(voices).value.name == PreferredVoiceNames[k]
  {
    assert NameIs(PreferredVoiceNames[k])(voices[i]);
    FindReaches(voices, NameIs(PreferredVoiceNames[k]), i);
    FirstPreferredIs(voices, 0, k);
    var found := FindIndex(voices, NameIs(PreferredVoiceNames[k]));
    assert NameIs(PreferredVoiceNames[k])(voices[found.value]);
  }

  /** With no preferred name present, the first English voice whose lower-cased name
      contains "male" is chosen, ahead of any en-GB or en-US voice. */
  lemma MaleEnglishFallback(voices: seq<Voice>, i: nat)
    requires forall j, w :: 0 <= j < |PreferredVoiceNames| && 0 <= w < |voices| ==>
      voices[w].name != PreferredVoiceNames[j]
    requires i < |voices| && IsMaleEnglish(voices[i])
    ensures ChooseVoice(voices).Some? && IsMaleEnglish(ChooseVoice(voices).value)
  {
    NoPreferredPresent(voices, 0);
    FindReaches(voices, IsMaleEnglish, i);
  }

  /** With neither a preferred name nor a "male" English voice, an en-GB voice is
      chosen before any en-US one; with none of the four kinds, no voice is chosen. */
  lemma LanguageFallbacks(voices: seq<Voice>)
    requires forall j, w :: 0 <= j < |PreferredVoiceNames| && 0 <= w < |voices| ==>
      voices[w].name != PreferredVoiceNames[j]
    requires forall w :: 0 <= w < |voices| ==> !IsMaleEnglish(voices[w])
    ensures (exists w :: 0 <= w < |voices| && voices[w].lang == "en-GB") ==>
      ChooseVoice(voices).Some? && ChooseVoice(voices).value.lang == "en-GB"
    ensures ((forall w :: 0 <= w < |voices| ==> voices[w].lang != "en-GB") &&
      (exists w :: 0 <= w < |voices| && voices[w].lang == "en-US")) ==>
      ChooseVoice(voices).Some? && ChooseVoice(voices).value.lang == "en-US"
    ensures (forall w :: 0 <= w < |voices| ==> voices[w].lang != "en-GB" && voices[w].lang != "en-US") ==>
      ChooseVoice(voices).None?
  {
    LanguageDecides(voices);
    if exists w :: 0 <= w < |voices| && voices[w].lang == "en-GB" {
      var w :| 0 <= w < |voices| && voices[w].lang == "en-GB";
      FoundLanguage(voices, "en-GB", w);
    } else if exists w :: 0 <= w < |voices| && voices[w].lang == "en-US" {
      var w :| 0 <= w < |voices| && voices[w].lang == "en-US";
      FoundLanguage(voices, "en-US", w);
    }
  }

  /** With neither a preferred name nor a "male" English voice, the choice is the
      first en-GB voice, else the first en-US voice. */
  lemma LanguageDecides(voices: seq<Voice>)
    requires forall j, w :: 0 <= j < |PreferredVoiceNames| && 0 <= w < |voices| ==>
      voices[w].name != PreferredVoiceNames[j]
    requires forall w :: 0 <= w < |voices| ==> !IsMaleEnglish(voices[w])
    ensures ChooseVoice(voices) ==
      if Find(voices, LangIs("en-GB")).Some? then Find(voices, LangIs("en-GB")) else Find(voices, LangIs("en-US"))
  {
    NoPreferredPresent(voices, 0);
  }

  /** A voice in language `lang` means the search by language finds one. */
  lemma FoundLanguage(voices: seq<Voice>, lang: string, w: nat)
    requires w < |voices| && voices[w].lang == lang
    ensures Find(voices, LangIs(lang)).Some? && Find(voices, LangIs(lang)).value.lang == lang
  {
    assert LangIs(lang)(voices[w]);
    FindReaches(voices, LangIs(lang), w);
    var k := FindIndex(voices, LangIs(lang)).value;
    assert LangIs(lang)(voices[k]);
  }

  /** The "male" test is a substring test, so an Australian voice named "Karen Female"
      is taken as a male English voice. */
  lemma FemaleNamePassesMaleTest()
    ensures ChooseVoice([Voice("Karen Female", "en-AU")]) == Some(Voice("Karen Female", "en-AU"))
  {
    var v := Voice("Karen Female", "en-AU");
    assert Lower(v.name) == "karen female";
    assert StartsWith(Lower(v.name)[8..], "male");
    assert IsMaleEnglish(v);
    assert FindIndex([v], IsMaleEnglish) == Some(0);
    assert v.name != PreferredVoiceNames[0];
    assert v.name != PreferredVoiceNames[1];
    assert v.name != PreferredVoiceNames[2];
  }

  /** An utterance handed to the engine: the text, the message it belongs to, and the
      voice it is spoken with (the system default when none was chosen). */
  datatype Utterance = Utterance(text: string, id: MessageId, voice: Option<Voice>)

  /** What the hook asks the speech engine to do. */
  datatype SynthCall = CancelAll | Speak(utterance: Utterance)

  /** The hook's state. `isSupported` stands for the platform offering speech synthesis. */
  class Speaker {
    const isSupported: bool
    var isSpeaking: bool
    var currentlySpeakingId: Option<MessageId>
    var victorVoice: Option<Voice>
    var synthCalls: seq<SynthCall>

    /** The two speaking flags always move together. */
    ghost predicate Valid()
      reads this
    {
      currentlySpeakingId.Some? <==> isSpeaking
    }

    constructor (isSupported: bool)
      ensures Valid() && this.isSupported == isSupported
      ensures !isSpeaking && victorVoice == None && synthCalls == []
    {
      this.isSupported := isSupported;
      isSpeaking, currentlySpeakingId, victorVoice, synthCalls := false, None, None, [];
    }

    /** findAndSetVoice: nothing happens while the voice list is still empty, and a
        voice is only ever replaced by a chosen one, never cleared. */
    method FindAndSetVoice(voices: seq<Voice>)
      requires Valid()
      modifies this
      ensures Valid()
      ensures voices != [] && ChooseVoice(voices).Some? ==> victorVoice == ChooseVoice(voices)
      ensures voices == [] || ChooseVoice(voices).None? ==> victorVoice == old(victorVoice)
      ensures isSpeaking == old(isSpeaking) && currentlySpeakingId == old(currentlySpeakingId)
      ensures synthCalls == old(synthCalls)
    {
      if |voices| == 0 {
        return;
      }
      var selected := SelectVoice(voices);
      if selected.Some? {
        victorVoice := selected;
      }
    }

    /** play: with speech supported and a non-empty text, hand the engine an
        utterance for message `id` in the chosen voice; otherwise do nothing. */
    method Play(text: string, id: MessageId)
      requires Valid()
      modifies this
      ensures Valid()
      ensures isSupported && text != "" ==>
        synthCalls == old(synthCalls) + [Speak(Utterance(text, id, victorVoice))]
      ensures !(isSupported && text != "") ==> synthCalls == old(synthCalls)
      ensures isSpeaking == old(isSpeaking) && currentlySpeakingId == old(currentlySpeakingId)
      ensures victorVoice == old(victorVoice)
    {
      if !isSupported || text == "" {
        return;
      }
      synthCalls := synthCalls + [Speak(Utterance(text, id, victorVoice))];
    }

    /** An utterance's onstart event: speaking, and speaking that message. */
    method OnStart(u: Utterance)
      requires Valid()
      modifies this
      ensures Valid() && isSpeaking && currentlySpeakingId == Some(u.id)
      ensures victorVoice == old(victorVoice) && synthCalls == old(synthCalls)
    {
      isSpeaking := true;
      currentlySpeakingId := Some(u.id);
    }

    /** An utterance's onend event. */
    method OnEnd()
      requires Valid()
      modifies this
      ensures Valid() && !isSpeaking && currentlySpeakingId == None
      ensures victorVoice == old(victorVoice) && synthCalls == old(synthCalls)
    {
      isSpeaking := false;
      currentlySpeakingId := None;
    }

    /** An utterance's onerror event; the kind of error only decides what is logged. */
    method OnError(error: string)
      requires Valid()
      modifies this
      ensures Valid() && !isSpeaking && currentlySpeakingId == None
      ensures victorVoice == old(victorVoice) && synthCalls == old(synthCalls)
    {
      isSpeaking := false;
      currentlySpeakingId := None;
    }

    /** cancel: when supported, stop the engine and clear both flags. */
    method Cancel()
      requires Valid()
      modifies this
      ensures Valid()
      ensures isSupported ==>
        synthCalls == old(synthCalls) + [CancelAll] && !isSpeaking && currentlySpeakingId == None
      ensures !isSupported ==>
        synthCalls == old(synthCalls) && isSpeaking == old(isSpeaking) &&
        currentlySpeakingId == old(currentlySpeakingId)
      ensures victorVoice == old(victorVoice)
    {
      if !isSupported {
        return;
      }
      synthCalls := synthCalls + [CancelAll];
      isSpeaking := false;
      currentlySpeakingId := None;
    }
  }
}
