/** The local shortcut table (services/commandHandler.ts): a prompt is lower-cased
    and trimmed, then matched against one parameterised command ("get directions
    to ...") and one exact command ("close the tab"); anything else is left for the
    language model. The browser side effects (opening a maps tab, closing the
    window) are not modelled; only the reply text is. */
module CommandHandler {
  import opened Types
  import opened Text

  const DirectionsPrefix: string := "get directions to "
  const DirectionsReply: string := "Calculating directions to: "
  const CloseTab: string := "close the tab"
  const CloseTabReply: string := "Command executed. Note: Browser security may prevent this action."

  /** The prompt as the table sees it: lower-cased, then trimmed. */
  function Normalize(prompt: string): string {
    Trim(Lower(prompt))
  }

  /** Normalising twice is normalising once. */
  lemma NormalizeIdempotent(prompt: string)
    ensures Normalize(Normalize(prompt)) == Normalize(prompt)
  {
    var x := Lower(prompt);
    TrimLowerCommute(Trim(x));
    TrimIdempotent(Lower(Trim(x)));
    TrimLowerCommute(x);
    LowerIdempotent(prompt);
    TrimIdempotent(x);
  }

  /** The destination captured by `^get directions to (.+)`: the longest run without
      a line terminator after the prefix, which must not be empty. */
  function DirectionsTarget(normalized: string): (r: Option<string>)
    ensures r.Some? <==>
      StartsWith(normalized, DirectionsPrefix) && |normalized| > |DirectionsPrefix| &&
      !IsLineTerminator(normalized[|DirectionsPrefix|])
    ensures r.Some? ==>
      r.value != [] && StartsWith(normalized[|DirectionsPrefix|..], r.value) &&
      (forall i :: 0 <= i < |r.value| ==> !IsLineTerminator(r.value[i])) &&
      (|DirectionsPrefix| + |r.value| == |normalized| ||
       IsLineTerminator(normalized[|DirectionsPrefix| + |r.value|]))
  {
    if StartsWith(normalized, DirectionsPrefix) then
      var loc := LineRun(normalized[|DirectionsPrefix|..]);
      if loc == [] then None else Some(loc)
    else None
  }

  /** commandHandler: the reply of the first rule that matches, or None when the
      prompt is to be sent to the model. The prefix rule is tried first; the exact
      command can never match it. */
  function Handle(prompt: string): (r: Option<string>)
    ensures DirectionsTarget(Normalize(prompt)).Some? ==>
      r == Some(DirectionsReply + DirectionsTarget(Normalize(prompt)).value)
    ensures Normalize(prompt) == CloseTab ==> r == Some(CloseTabReply)
    ensures r == None <==>
      DirectionsTarget(Normalize(prompt)) == None && Normalize(prompt) != CloseTab
    ensures r.Some? ==> |r.value| > 0
  {
    var n := Normalize(prompt);
    match DirectionsTarget(n)
    case Some(loc) => Some(DirectionsReply + loc)
    case None => if n == CloseTab then Some(CloseTabReply) else None
  }

  /** The table reads the prompt only through its normalised form. */
  lemma HandleSeesOnlyNormalized(prompt: string)
    ensures Handle(Normalize(prompt)) == Handle(prompt)
  {
    NormalizeIdempotent(prompt);
  }

  /** A normalised prompt "get directions to X", with X non-empty and on one line,
      gets the reply naming X. */
  lemma DirectionsRule(prompt: string, destination: string)
    requires Normalize(prompt) == DirectionsPrefix + destination
    requires destination != []
    requires forall i :: 0 <= i < |destination| ==> !IsLineTerminator(destination[i])
    ensures Handle(prompt) == Some(DirectionsReply + destination)
  {
    TargetOfDirections(Normalize(prompt), destination);
  }

  lemma TargetOfDirections(n: string, destination: string)
    requires n == DirectionsPrefix + destination
    requires destination != []
    requires forall i :: 0 <= i < |destination| ==> !IsLineTerminator(destination[i])
    ensures DirectionsTarget(n) == Some(destination)
  {
    assert StartsWith(n, DirectionsPrefix);
    assert n[|DirectionsPrefix|..] == destination;
    var run := LineRun(destination);
    assert |run| == |destination|;
    assert run == destination;
  }

  /** "get directions to" followed only by whitespace has no destination, so the
      prompt goes to the model. */
  lemma DirectionsWithoutDestination(tail: string)
    requires AllTrimmable(tail)
    ensures Handle("get directions to" + tail) == None
  {
    var head := "get directions to";
    TightAlone(head, tail);
    ShortIsNoCommand(head + tail);
  }

  /** A lower-case word with no white space at either end, followed by white space,
      normalises to the word. */
  lemma TightAlone(word: string, tail: string)
    requires AllTrimmable(tail)
    requires word != [] && !IsTrimmable(word[0]) && !IsTrimmable(word[|word| - 1])
    requires forall i :: 0 <= i < |word| ==> !('A' <= word[i] <= 'Z')
    ensures Normalize(word + tail) == word
  {
    assert Lower(word) == word by {
      LowerOfLower(word);
    }
    assert [] + word + tail == word + tail;
    NormalizePadded([], word, tail);
  }

  /** A prompt that normalises to something shorter than the prefix and not as long
      as the exact command is left for the model. */
  lemma ShortIsNoCommand(prompt: string)
    requires |Normalize(prompt)| < |DirectionsPrefix| && |Normalize(prompt)| != |CloseTab|
    ensures Handle(prompt) == None
  {
  }

  /** Upper-case letters and surrounding whitespace do not hide the exact command. */
  lemma CloseTabIgnoresCaseAndSpace(lead: string, tail: string)
    requires AllTrimmable(lead) && AllTrimmable(tail)
    ensures Handle(lead + "Close The Tab" + tail) == Some(CloseTabReply)
  {
    assert Lower("Close The Tab") == CloseTab;
    NormalizePadded(lead, "Close The Tab", tail);
  }

  /** Whitespace around a word that is tight once lower-cased is normalised away. */
  lemma NormalizePadded(lead: string, word: string, tail: string)
    requires AllTrimmable(lead) && AllTrimmable(tail)
    requires Lower(word) != [] && !IsTrimmable(Lower(word)[0]) && !IsTrimmable(Lower(word)[|word| - 1])
    ensures Normalize(lead + word + tail) == Lower(word)
  {
    var w := Lower(word);
    LowerAppend(lead + word, tail);
    LowerAppend(lead, word);
    LowerOfTrimmable(lead);
    LowerOfTrimmable(tail);
    assert Lower(lead + word + tail) == (lead + w) + tail;
    TrimIgnoresTrailing(lead + w, tail);
    TrimIgnoresLeading(lead, w);
    TrimOfTight(Lower(word));
  }
}
