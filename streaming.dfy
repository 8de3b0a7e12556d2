/** The streamed reply of the turn handler (App.tsx:86-170): fragments folded into
    the reply text and a citation list, the first error fragment ending the stream,
    and the in-band directive that asks for a Python script to be run. The model's
    stream, JSON.parse and the `/execute` request are inputs here. */
module Streaming {
  import opened Types
  import opened Text

  /** One chunk of the stream. Text and error count only when non-empty, as in a
      JavaScript truth test; a present source list is appended even when empty. */
  datatype Fragment = Fragment(text: Option<string>, sources: Option<seq<Source>>, error: Option<string>)

  /** `if (chunk.text)` */
  function TextOf(f: Fragment): string {
    if f.text.Some? && f.text.value != "" then f.text.value else ""
  }

  /** `if (chunk.error)` */
  predicate HasError(f: Fragment) {
    f.error.Some? && f.error.value != ""
  }

  /** `if (chunk.sources)`: the chunk's citations, or none. */
  function SourcesOf(f: Fragment): seq<Source> {
    if f.sources.Some? then f.sources.value else []
  }

  /** The loop's variables after a run of fragments: the text so far, the sources so
      far, and the error that ended the loop, if one did. */
  datatype StreamState = StreamState(full: string, sources: seq<Source>, error: Option<string>)

  /** One turn of the for-await loop: text, then sources, then the error test. */
  function Step(st: StreamState, f: Fragment): (next: StreamState)
    requires st.error.None?
    ensures next.full == st.full + TextOf(f)
    ensures next.sources == st.sources + SourcesOf(f)
    ensures next.error.Some? <==> HasError(f)
  {
    var sources := if f.sources.Some? then st.sources + f.sources.value else st.sources;
    StreamState(st.full + TextOf(f), sources, if HasError(f) then f.error else None)
  }

  /** The loop run over `fragments`; once an error has ended it, later fragments are
      never read. */
  function Consume(fragments: seq<Fragment>): StreamState {
    if fragments == [] then StreamState("", [], None)
    else
      var before := Consume(fragments[..|fragments| - 1]);
      if before.error.Some? then before else Step(before, fragments[|fragments| - 1])
  }

  /** Reading one more fragment while no error has arrived is one more step. */
  lemma ConsumeOneMore(fragments: seq<Fragment>, i: nat)
    requires i < |fragments| && Consume(fragments[..i]).error.None?
    ensures Consume(fragments[..i + 1]) == Step(Consume(fragments[..i]), fragments[i])
  {
    assert fragments[..i + 1][..i] == fragments[..i];
  }

  /** The concatenation of the non-empty texts, written front to back. */
  function Texts(fragments: seq<Fragment>): string {
    if fragments == [] then "" else TextOf(fragments[0]) + Texts(fragments[1..])
  }

  /** The citations of all fragments, written front to back. */
  function AllSources(fragments: seq<Fragment>): seq<Source> {
    if fragments == [] then [] else SourcesOf(fragments[0]) + AllSources(fragments[1..])
  }

  /** No fragment in the list carries an error. */
  predicate NoError(fragments: seq<Fragment>) {
    forall i :: 0 <= i < |fragments| ==> !HasError(fragments[i])
  }

  /** While no error has arrived, the reply text is every text fragment so far, in the
      order they came, the citations are every fragment's citations in that order,
      and nothing ended the loop. */
  lemma {:induction false} ConsumeConcatenates(fragments: seq<Fragment>)
    requires NoError(fragments)
    ensures Consume(fragments).error == None
    ensures Consume(fragments).full == Texts(fragments)
    ensures Consume(fragments).sources == AllSources(fragments)
    decreases |fragments|
  {
    if fragments != [] {
      var init := fragments[..|fragments| - 1];
      ConsumeConcatenates(init);
      TextsAppend(init, fragments[|fragments| - 1]);
      SourcesAppend(init, fragments[|fragments| - 1]);
      assert init + [fragments[|fragments| - 1]] == fragments;
    }
  }

  /** Texts of a list with one more fragment at the end. */
  lemma {:induction false} TextsAppend(fragments: seq<Fragment>, f: Fragment)
    ensures Texts(fragments + [f]) == Texts(fragments) + TextOf(f)
    decreases |fragments|
  {
    if fragments == [] {
      assert [f][1..] == [];
    } else {
      assert (fragments + [f])[1..] == fragments[1..] + [f];
      TextsAppend(fragments[1..], f);
    }
  }

  /** AllSources of a list with one more fragment at the end. */
  lemma {:induction false} SourcesAppend(fragments: seq<Fragment>, f: Fragment)
    ensures AllSources(fragments + [f]) == AllSources(fragments) + SourcesOf(f)
    decreases |fragments|
  {
    if fragments == [] {
      assert [f][1..] == [];
    } else {
      assert (fragments + [f])[1..] == fragments[1..] + [f];
      SourcesAppend(fragments[1..], f);
    }
  }

  /** The text shown only grows while the stream runs: the text after `i` fragments
      is a prefix of the text after `j >= i` of them. */
  lemma {:induction false} TextOnlyGrows(fragments: seq<Fragment>, i: nat, j: nat)
    requires i <= j <= |fragments| && NoError(fragments[..j])
    ensures StartsWith(Consume(fragments[..j]).full, Consume(fragments[..i]).full)
    decreases j - i
  {
    if i < j {
      TextOnlyGrows(fragments, i, j - 1);
      assert fragments[..j][..j - 1] == fragments[..j - 1];
      var shorter := fragments[..j - 1];
      assert NoError(shorter) by {
        forall k | 0 <= k < |shorter| ensures !HasError(shorter[k]) {
          assert shorter[k] == fragments[..j][k];
        }
      }
    }
  }

  /** The first error fragment ends the stream with its error: whatever follows it is
      not read, and the text gathered so far is kept only in the loop's variable. */
  lemma {:induction false} FirstErrorEndsStream(fragments: seq<Fragment>, k: nat)
    requires k < |fragments| && HasError(fragments[k]) && NoError(fragments[..k])
    ensures Consume(fragments).error == fragments[k].error
    ensures Consume(fragments) == Consume(fragments[..k + 1])
    decreases |fragments|
  {
    if |fragments| == k + 1 {
      assert fragments[..k + 1] == fragments;
      ConsumeConcatenates(fragments[..k]);
    } else {
      var init := fragments[..|fragments| - 1];
      assert init[..k] == fragments[..k] && init[..k + 1] == fragments[..k + 1];
      FirstErrorEndsStream(init, k);
    }
  }

  /** Once the loop has stopped at an error, reading on changes nothing. */
  lemma {:induction false} StoppedStaysStopped(fragments: seq<Fragment>, i: nat)
    requires i <= |fragments| && Consume(fragments[..i]).error.Some?
    ensures Consume(fragments) == Consume(fragments[..i])
    decreases |fragments| - i
  {
    if i < |fragments| {
      assert fragments[..i + 1][..i] == fragments[..i];
      StoppedStaysStopped(fragments, i + 1);
    } else {
      assert fragments[..i] == fragments;
    }
  }

  /** A parsed JSON value. Numbers are reals; an object keeps its members in order. */
  datatype Json =
    | JNull
    | JBool(b: bool)
    | JNumber(n: real)
    | JString(s: string)
    | JArray(items: seq<Json>)
    | JObject(members: seq<(string, Json)>)

  /** The position of the last member named `key`. */
  function LastKey(members: seq<(string, Json)>, key: string): (r: Option<nat>)
    ensures r.Some? ==> r.value < |members| && members[r.value].0 == key
    ensures r.Some? ==> forall j :: r.value < j < |members| ==> members[j].0 != key
    ensures r.None? ==> forall i :: 0 <= i < |members| ==> members[i].0 != key
  {
    if members == [] then None
    else if members[|members| - 1].0 == key then Some(|members| - 1)
    else LastKey(members[..|members| - 1], key)
  }

  /** A member lookup: JSON.parse keeps the last of duplicate keys. */
  function Lookup(members: seq<(string, Json)>, key: string): Option<Json> {
    match LastKey(members, key)
    case None => None
    case Some(i) => Some(members[i].1)
  }

  /** JavaScript truthiness of a JSON value. */
  predicate Truthy(v: Json) {
    match v
    case JNull => false
    case JBool(b) => b
    case JNumber(n) => n != 0.0
    case JString(s) => s != ""
    case JArray(_) => true
    case JObject(_) => true
  }

  /** `commandJson.action === 'execute_python' && commandJson.code`; a parse failure
      (None) and every value other than such an object are not directives. */
  predicate IsExecDirective(parsed: Option<Json>) {
    parsed.Some? && parsed.value.JObject? &&
    Lookup(parsed.value.members, "action") == Some(JString("execute_python")) &&
    (var code := Lookup(parsed.value.members, "code"); code.Some? && Truthy(code.value))
  }

  /** What the `/execute` request gives back: a reply with its `output` and `error`
      members (None when absent), or a failure anywhere in the request or in reading
      its body. */
  datatype ExecOutcome = ExecReply(output: Option<string>, error: Option<string>) | ExecFailed

  /** `result.output || \`Error: ${result.error}\`` */
  function ExecOutput(output: Option<string>, error: Option<string>): (out: string)
    ensures output.Some? && output.value != "" ==> out == output.value
    ensures !(output.Some? && output.value != "") ==>
      out == "Error: " + (if error.Some? then error.value else "undefined")
  {
    if output.Some? && output.value != "" then output.value
    else "Error: " + (if error.Some? then error.value else "undefined")
  }

  const ExecHeader: string := "Python script executed. Output:\n\n---\n"
  const ExecFooter: string := "\n---"

  /** The content that replaces a directive once the script has run. */
  function ExecContent(output: Option<string>, error: Option<string>): string {
    ExecHeader + ExecOutput(output, error) + ExecFooter
  }

  /** Duplicate keys: a later "action" overrides an earlier one. */
  lemma LaterActionWins(code: Json)
    ensures !IsExecDirective(Some(JObject([("action", JString("execute_python")), ("code", code),
                                            ("action", JString("none"))])))
  {
    var members := [("action", JString("execute_python")), ("code", code), ("action", JString("none"))];
    assert Lookup(members, "action") == Some(JString("none"));
    assert JString("none") != JString("execute_python") by {
      assert "none"[0] != "execute_python"[0];
    }
  }
}
