/** The yes/no guessing game's answer buttons (components/MonerKothaGame.tsx): five
    answers normally, narrowed to yes and no once the model's latest message is a
    final guess. */
module MonerKotha {
  import opened Types
  import opened Text

  /** The marker the model puts in front of its final guess ("my guess:"). */
  const GuessMarker: string := "আমার অনুমান:"

  /** yes, no, don't know, probably, probably not. */
  const AnswerOptions: seq<string> := ["হ্যাঁ", "না", "জানিনা", "সম্ভবত", "সম্ভবত না"]

  /** isGuess: the log is non-empty and its last message starts with the marker. */
  predicate IsGuess(messages: seq<Message>) {
    |messages| > 0 && StartsWith(messages[|messages| - 1].content, GuessMarker)
  }

  /** The answers offered as buttons. */
  function OfferedOptions(messages: seq<Message>): (options: seq<string>)
    ensures IsGuess(messages) ==> options == AnswerOptions[..2]
    ensures !IsGuess(messages) ==> options == AnswerOptions
    ensures messages == [] ==> |options| == 5
    ensures forall i :: 0 <= i < |options| ==> options[i] in AnswerOptions
  {
    if IsGuess(messages) then ["হ্যাঁ", "না"] else AnswerOptions
  }

  /** A click on the i-th button sends exactly that button's text; while the game is
      loading every button is disabled and nothing is sent. */
  function ClickAnswer(messages: seq<Message>, i: nat, isLoading: bool): (sent: Option<string>)
    requires i < |OfferedOptions(messages)|
    ensures sent.Some? <==> !isLoading
    ensures sent.Some? ==> sent.value == OfferedOptions(messages)[i] && sent.value in AnswerOptions
  {
    if isLoading then None else Some(OfferedOptions(messages)[i])
  }

  /** Once the last message is a guess, whatever came before it does not matter. */
  lemma GuessDependsOnLastMessage(earlier: seq<Message>, last: Message)
    requires StartsWith(last.content, GuessMarker)
    ensures OfferedOptions(earlier + [last]) == ["হ্যাঁ", "না"]
  {
    assert (earlier + [last])[|earlier + [last]| - 1] == last;
  }
}
