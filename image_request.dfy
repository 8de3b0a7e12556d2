/** The image-request pattern of the turn handler (App.tsx:45-47): the lower-cased
    prompt is matched against
      ^(?:show me|generate|create|draw) (?:(?:an? image|a picture) of )?(.+)
    and the captured subject is trimmed. */
module ImageRequest {
  import opened Types
  import opened Text

  /** The lead verbs with the single space that must follow them. No two start with
      the same letter, so at most one of them can begin a prompt. */
  const ImageVerbs: seq<string> := ["show me ", "generate ", "create ", "draw "]

  /** The optional phrases `an? image of ` and `a picture of `. No two begin the same
      way past their common "a", so at most one of them can follow the verb. */
  const ImageLeads: seq<string> := ["an image of ", "a image of ", "a picture of "]

  /** The first option, from index `k` on, that `s` starts with: how a regular
      expression alternation tries its branches. */
  function FirstPrefix(s: string, options: seq<string>, k: nat): (r: Option<nat>)
    requires k <= |options|
    ensures r.Some? ==> k <= r.value < |options| && StartsWith(s, options[r.value])
    ensures r.Some? ==> forall j :: k <= j < r.value ==> !StartsWith(s, options[j])
    ensures r.None? ==> forall j :: k <= j < |options| ==> !StartsWith(s, options[j])
    decreases |options| - k
  {
    if k == |options| then None
    else if StartsWith(s, options[k]) then Some(k)
    else FirstPrefix(s, options, k + 1)
  }

  /** The length of the optional phrase `rest` starts with, if any. */
  function LeadLength(rest: string): (n: Option<nat>)
    ensures n.Some? ==> 0 < n.value <= |rest| && rest[0] == 'a'
  {
    match FirstPrefix(rest, ImageLeads, 0)
    case None => None
    case Some(k) =>
      LeadHeads(k);
      Some(|ImageLeads[k]|)
  }

  /** The capture, given the length of the phrase found: with a phrase, the rest of
      the line after it is tried first; when nothing but a line break follows it, the
      match backtracks and captures from just after the verb. The capture is then
      trimmed. */
  function Capture(rest: string, lead: Option<nat>): (r: Option<string>)
    requires lead.Some? ==> 0 < lead.value <= |rest| && !IsLineTerminator(rest[0])
    ensures r.Some? <==> rest != [] && !IsLineTerminator(rest[0])
  {
    if lead.Some? && LineRun(rest[lead.value..]) != [] then
      Some(Trim(LineRun(rest[lead.value..])))
    else if LineRun(rest) != [] then
      Some(Trim(LineRun(rest)))
    else
      None
  }

  /** What follows the verb, matched against the rest of the pattern. Without a
      phrase, the rest of the line is captured. After a phrase, the rest of the line
      past the phrase is captured; when nothing but a line break follows the phrase,
      the optional group is given up and the phrase itself is part of the capture. */
  function CaptureAfterVerb(rest: string): (r: Option<string>)
    ensures r.Some? <==> rest != [] && !IsLineTerminator(rest[0])
    ensures (forall k :: 0 <= k < |ImageLeads| ==> !StartsWith(rest, ImageLeads[k])) && r.Some? ==>
      r.value == Trim(LineRun(rest))
    ensures forall k :: 0 <= k < |ImageLeads| && StartsWith(rest, ImageLeads[k]) &&
                        LineRun(rest[|ImageLeads[k]|..]) != [] ==>
      r == Some(Trim(LineRun(rest[|ImageLeads[k]|..])))
    ensures forall k :: 0 <= k < |ImageLeads| && StartsWith(rest, ImageLeads[k]) &&
                        LineRun(rest[|ImageLeads[k]|..]) == [] ==>
      r == Some(Trim(LineRun(rest)))
  {
    LeadChoice(rest);
    Capture(rest, LeadLength(rest))
  }

  /** The phrase found is the one the text starts with, and none is found when the
      text starts with none of them. */
  lemma LeadChoice(rest: string)
    ensures forall k :: 0 <= k < |ImageLeads| && StartsWith(rest, ImageLeads[k]) ==>
      LeadLength(rest) == Some(|ImageLeads[k]|)
    ensures (forall k :: 0 <= k < |ImageLeads| ==> !StartsWith(rest, ImageLeads[k])) ==>
      LeadLength(rest) == None
  {
    var p := FirstPrefix(rest, ImageLeads, 0);
    if p.Some? {
      LeadsExclusive(rest, p.value);
    }
  }

  /** The trimmed capture of the pattern on the lower-cased prompt, or None when the
      prompt does not match: it matches exactly when it starts with a verb followed by
      at least one character that is not a line break. */
  function ImageSubject(prompt: string): (r: Option<string>)
    ensures r.Some? <==> (exists v :: 0 <= v < |ImageVerbs| && StartsWith(Lower(prompt), ImageVerbs[v]) &&
                                      CaptureAfterVerb(Lower(prompt)[|ImageVerbs[v]|..]).Some?)
    ensures forall v :: 0 <= v < |ImageVerbs| && StartsWith(Lower(prompt), ImageVerbs[v]) ==>
      r == CaptureAfterVerb(Lower(prompt)[|ImageVerbs[v]|..])
  {
    var l := Lower(prompt);
    var verb := FirstPrefix(l, ImageVerbs, 0);
    if verb.Some? then
      VerbsExclusive(l, verb.value);
      CaptureAfterVerb(l[|ImageVerbs[verb.value]|..])
    else None
  }

  /** Each optional phrase starts with "a". */
  lemma LeadHeads(k: nat)
    requires k < |ImageLeads|
    ensures |ImageLeads[k]| > 0 && ImageLeads[k][0] == 'a'
  {
  }

  /** A string starts with at most one verb. */
  lemma VerbsExclusive(l: string, v: nat)
    requires v < |ImageVerbs| && StartsWith(l, ImageVerbs[v])
    ensures forall j :: 0 <= j < |ImageVerbs| && j != v ==> !StartsWith(l, ImageVerbs[j])
  {
    VerbHeads();
    assert l[0] == ImageVerbs[v][0];
  }

  /** No verb starts with a letter that also starts another verb. */
  lemma VerbHeads()
    ensures ImageVerbs[0][0] == 's' && ImageVerbs[1][0] == 'g'
    ensures ImageVerbs[2][0] == 'c' && ImageVerbs[3][0] == 'd'
    ensures forall v :: 0 <= v < |ImageVerbs| ==> |ImageVerbs[v]| > 0 && !IsTrimmable(ImageVerbs[v][0])
  {
  }

  /** The verbs and the optional phrases hold no upper-case letter. */
  lemma PatternIsLowerCase(v: nat, k: nat)
    requires v < |ImageVerbs| && k < |ImageLeads|
    ensures forall i :: 0 <= i < |ImageVerbs[v] + ImageLeads[k]| ==>
      !('A' <= (ImageVerbs[v] + ImageLeads[k])[i] <= 'Z')
  {
  }

  /** A prompt that begins with white space is never an image request, since the
      pattern is anchored at a verb; it goes on to the model instead. */
  lemma LeadingSpaceIsNoImageRequest(prompt: string)
    requires prompt != [] && IsTrimmable(prompt[0])
    ensures ImageSubject(prompt) == None
  {
    LowerKeepsTrimmable(prompt[0]);
    VerbHeads();
  }

  /** The captured subject is lower-case: the pattern runs on the lower-cased prompt. */
  lemma SubjectIsLowerCase(prompt: string)
    requires ImageSubject(prompt).Some?
    ensures forall i :: 0 <= i < |ImageSubject(prompt).value| ==>
      !('A' <= ImageSubject(prompt).value[i] <= 'Z')
  {
    var l := Lower(prompt);
    var v := FirstPrefix(l, ImageVerbs, 0).value;
    CaptureKeepsCase(l[|ImageVerbs[v]|..]);
  }

  /** A capture from text without upper-case letters has none either. */
  lemma CaptureKeepsCase(rest: string)
    requires forall i :: 0 <= i < |rest| ==> !('A' <= rest[i] <= 'Z')
    requires CaptureAfterVerb(rest).Some?
    ensures forall i :: 0 <= i < |CaptureAfterVerb(rest).value| ==>
      !('A' <= CaptureAfterVerb(rest).value[i] <= 'Z')
  {
    var lead := LeadLength(rest);
    var run := if lead.Some? && LineRun(rest[lead.value..]) != []
      then LineRun(rest[lead.value..]) else LineRun(rest);
    assert CaptureAfterVerb(rest).value == Trim(run);
    TrimIsInside(run);
  }

  /** Every character of a trimmed string is a character of the original. */
  lemma TrimIsInside(s: string)
    ensures forall i :: 0 <= i < |Trim(s)| ==> Trim(s)[i] in s
  {
    var t := TrimStart(s);
    forall i | 0 <= i < |Trim(s)|
      ensures Trim(s)[i] in s
    {
      assert Trim(s)[i] == t[i] == s[|s| - |t| + i];
    }
  }

  /** The three phrases differ within their first three characters. */
  lemma LeadsExclusive(s: string, k: nat)
    requires k < |ImageLeads| && StartsWith(s, ImageLeads[k])
    ensures forall j :: 0 <= j < |ImageLeads| && j != k ==> !StartsWith(s, ImageLeads[j])
  {
    var second := ['n', ' ', ' '];
    var third := [' ', 'i', 'p'];
    assert forall j :: 0 <= j < |ImageLeads| ==>
      |ImageLeads[j]| > 2 && ImageLeads[j][1] == second[j] && ImageLeads[j][2] == third[j];
    forall j | 0 <= j < |ImageLeads| && j != k
      ensures !StartsWith(s, ImageLeads[j])
    {
      var i := if j == 0 || k == 0 then 1 else 2;
      assert s[i] == ImageLeads[k][i] != ImageLeads[j][i];
    }
  }

  /** After a phrase, a one-line subject is captured alone, trimmed. */
  lemma CaptureAfterLead(k: nat, subject: string)
    requires k < |ImageLeads| && subject != []
    requires forall i :: 0 <= i < |subject| ==> !IsLineTerminator(subject[i])
    ensures CaptureAfterVerb(ImageLeads[k] + subject) == Some(Trim(subject))
  {
    var rest := ImageLeads[k] + subject;
    LeadFound(rest, k);
    CaptureOfFoundLead(rest, k, subject);
  }

  /** A text starting with one of the phrases is found to start with that one. */
  lemma LeadFound(rest: string, k: nat)
    requires k < |ImageLeads| && StartsWith(rest, ImageLeads[k])
    ensures FirstPrefix(rest, ImageLeads, 0) == Some(k)
  {
    LeadsExclusive(rest, k);
  }

  /** The capture once the phrase is known. */
  lemma CaptureOfFoundLead(rest: string, k: nat, subject: string)
    requires k < |ImageLeads| && FirstPrefix(rest, ImageLeads, 0) == Some(k)
    requires rest[|ImageLeads[k]|..] == subject && subject != []
    requires forall i :: 0 <= i < |subject| ==> !IsLineTerminator(subject[i])
    ensures CaptureAfterVerb(rest) == Some(Trim(subject))
  {
    var n := LeadLength(rest);
    assert n == Some(|ImageLeads[k]|);
    CaptureOfLine(rest, n.value, subject);
  }

  /** With a phrase of length `n` followed by a one-line subject, the subject is
      captured. */
  lemma CaptureOfLine(rest: string, n: nat, subject: string)
    requires 0 < n <= |rest| && !IsLineTerminator(rest[0])
    requires rest[n..] == subject && subject != []
    requires forall i :: 0 <= i < |subject| ==> !IsLineTerminator(subject[i])
    ensures Capture(rest, Some(n)) == Some(Trim(subject))
  {
    var run := LineRun(rest[n..]);
    assert run == subject by {
      if |run| < |subject| {
        assert false;
      }
    }
  }

  /** A prompt that starts with a verb and holds no upper-case letter is matched on
      what follows the verb. */
  lemma SubjectAfterVerb(v: nat, rest: string)
    requires v < |ImageVerbs|
    requires forall i :: 0 <= i < |ImageVerbs[v] + rest| ==> !('A' <= (ImageVerbs[v] + rest)[i] <= 'Z')
    ensures ImageSubject(ImageVerbs[v] + rest) == CaptureAfterVerb(rest)
  {
    var prompt := ImageVerbs[v] + rest;
    LowerOfLower(prompt);
    assert StartsWith(prompt, ImageVerbs[v]);
    VerbsExclusive(prompt, v);
    assert FirstPrefix(prompt, ImageVerbs, 0) == Some(v);
    assert prompt[|ImageVerbs[v]|..] == rest;
  }

  /** A request written with a verb, an optional phrase and a one-line, lower-case
      subject captures the subject alone, trimmed. */
  lemma SubjectAfterLead(v: nat, k: nat, subject: string)
    requires v < |ImageVerbs| && k < |ImageLeads|
    requires subject != []
    requires forall i :: 0 <= i < |subject| ==> !('A' <= subject[i] <= 'Z') && !IsLineTerminator(subject[i])
    ensures ImageSubject(ImageVerbs[v] + (ImageLeads[k] + subject)) == Some(Trim(subject))
  {
    PatternIsLowerCase(v, k);
    var whole := ImageVerbs[v] + (ImageLeads[k] + subject);
    assert whole == (ImageVerbs[v] + ImageLeads[k]) + subject;
    SubjectAfterVerb(v, ImageLeads[k] + subject);
    CaptureAfterLead(k, subject);
  }

  /** Without a phrase after the verb, a one-line rest is captured whole, trimmed. */
  lemma CaptureWithoutLead(rest: string)
    requires rest != [] && forall i :: 0 <= i < |rest| ==> !IsLineTerminator(rest[i])
    requires forall k :: 0 <= k < |ImageLeads| ==> !StartsWith(rest, ImageLeads[k])
    ensures CaptureAfterVerb(rest) == Some(Trim(rest))
  {
    LineRunStopsAt(rest, []);
    assert rest + [] == rest;
  }

  /** A phrase with nothing after it on its line: the optional group is given up, and
      the phrase itself, trimmed, is the capture. */
  lemma CaptureBacktracks(k: nat, t: string)
    requires k < |ImageLeads|
    requires t == [] || IsLineTerminator(t[0])
    ensures CaptureAfterVerb(ImageLeads[k] + t) == Some(Trim(ImageLeads[k]))
  {
    var rest := ImageLeads[k] + t;
    assert rest[|ImageLeads[k]|..] == t;
    assert [] + t == t;
    LineRunStopsAt([], t);
    assert forall i :: 0 <= i < |ImageLeads[k]| ==> !IsLineTerminator(ImageLeads[k][i]);
    LineRunStopsAt(ImageLeads[k], t);
    assert StartsWith(rest, ImageLeads[k]);
  }

  /** Case does not matter: a prompt whose lower-cased form is a verb followed by
      some rest is matched on that rest. */
  lemma SubjectOfLowered(prompt: string, v: nat, rest: string)
    requires v < |ImageVerbs|
    requires Lower(prompt) == ImageVerbs[v] + rest
    ensures ImageSubject(prompt) == CaptureAfterVerb(rest)
  {
    assert StartsWith(Lower(prompt), ImageVerbs[v]);
    assert Lower(prompt)[|ImageVerbs[v]|..] == rest;
  }

  /** A prompt that reads, in any case, as a verb followed by a one-line subject that
      starts with no phrase gives the trimmed subject. */
  lemma SubjectWithoutLead(prompt: string, v: nat, rest: string)
    requires v < |ImageVerbs| && Lower(prompt) == ImageVerbs[v] + rest
    requires rest != [] && forall i :: 0 <= i < |rest| ==> !IsLineTerminator(rest[i])
    requires forall k :: 0 <= k < |ImageLeads| ==> !StartsWith(rest, ImageLeads[k])
    ensures ImageSubject(prompt) == Some(Trim(rest))
  {
    SubjectOfLowered(prompt, v, rest);
    CaptureWithoutLead(rest);
  }

  /** A prompt that reads, in any case, as a verb and a phrase with nothing after it on
      that line gives the phrase itself, trimmed. */
  lemma SubjectBacktracks(prompt: string, v: nat, k: nat, t: string)
    requires v < |ImageVerbs| && k < |ImageLeads|
    requires t == [] || IsLineTerminator(t[0])
    requires Lower(prompt) == ImageVerbs[v] + (ImageLeads[k] + t)
    ensures ImageSubject(prompt) == Some(Trim(ImageLeads[k]))
  {
    SubjectOfLowered(prompt, v, ImageLeads[k] + t);
    CaptureBacktracks(k, t);
  }
}
