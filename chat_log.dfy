/** The two ways App.tsx edits one entry of the conversation log in place of a
    placeholder: find the first message with an id and change some of its fields
    (`find` followed by assignments to the found object), or map the whole log,
    swapping every message with that id for a new one (`map` with `m.id === id`). */
module ChatLog {
  import opened Types

  /** Every message id is below `bound`: ids from `bound` on are still unused. */
  predicate IdsBelow(log: seq<Message>, bound: nat) {
    forall i :: 0 <= i < |log| ==> log[i].id < bound
  }

  /** No two messages share an id. */
  predicate DistinctIds(log: seq<Message>) {
    forall i, j :: 0 <= i < j < |log| ==> log[i].id != log[j].id
  }

  /** A message whose id is handed out from the counter keeps the ids distinct and
      below the advanced counter. */
  lemma AppendFresh(log: seq<Message>, m: Message, bound: nat)
    requires IdsBelow(log, bound) && DistinctIds(log) && bound <= m.id
    ensures IdsBelow(log + [m], m.id + 1) && DistinctIds(log + [m])
  {
  }

  /** `log.find(m => m.id === id)`, as a position. */
  function FindById(log: seq<Message>, id: MessageId): (r: Option<nat>)
    ensures r.Some? ==> r.value < |log| && log[r.value].id == id
    ensures r.Some? ==> forall j :: 0 <= j < r.value ==> log[j].id != id
    ensures r.None? ==> forall j :: 0 <= j < |log| ==> log[j].id != id
  {
    if log == [] then None
    else if log[0].id == id then Some(0)
    else match FindById(log[1..], id)
      case None => None
      case Some(k) => Some(k + 1)
  }

  /** The field assignments App.tsx makes on a found message. */
  datatype Patch =
    | SetContent(content: string)
    | SetFailure(content: string)
    | SetFinal(content: string, sources: seq<Source>)

  /** A patch always replaces the content; a failure also turns the role to ERROR and
      a final patch also attaches the citations. Id and image stay. */
  function Apply(m: Message, p: Patch): (r: Message)
    ensures r.id == m.id && r.imageUrl == m.imageUrl && r.content == p.content
    ensures r.role == (if p.SetFailure? then Error else m.role)
    ensures r.sources == (if p.SetFinal? then Some(p.sources) else m.sources)
  {
    match p
    case SetContent(c) => m.(content := c)
    case SetFailure(c) => m.(content := c, role := Error)
    case SetFinal(c, s) => m.(content := c, sources := Some(s))
  }

  /** Copy the log and patch the first message carrying `id`, if there is one. */
  function PatchFirst(log: seq<Message>, id: MessageId, p: Patch): (r: seq<Message>)
    ensures |r| == |log|
    ensures forall i :: 0 <= i < |log| ==> r[i].id == log[i].id
    ensures forall i :: 0 <= i < |log| && log[i].id != id ==> r[i] == log[i]
    ensures FindById(log, id).None? ==> r == log
    ensures FindById(log, id).Some? ==>
      r[FindById(log, id).value] == Apply(log[FindById(log, id).value], p)
  {
    match FindById(log, id)
    case None => log
    case Some(k) => log[k := Apply(log[k], p)]
  }

  /** `log.map(m => m.id === id ? replacement : m)` */
  function ReplaceById(log: seq<Message>, id: MessageId, replacement: Message): (r: seq<Message>)
    ensures |r| == |log|
    ensures forall i :: 0 <= i < |log| && log[i].id != id ==> r[i] == log[i]
    ensures forall i :: 0 <= i < |log| && log[i].id == id ==> r[i] == replacement
  {
    seq(|log|, i requires 0 <= i < |log| => if log[i].id == id then replacement else log[i])
  }

  /** With distinct ids the two edits agree: patching the message found by id is the
      same as mapping the log with the patched message. */
  lemma PatchAgreesWithReplace(log: seq<Message>, id: MessageId, p: Patch)
    requires DistinctIds(log)
    requires FindById(log, id).Some?
    ensures PatchFirst(log, id, p) == ReplaceById(log, id, Apply(log[FindById(log, id).value], p))
  {
    var k := FindById(log, id).value;
    var patched := PatchFirst(log, id, p);
    var replaced := ReplaceById(log, id, Apply(log[k], p));
    forall i | 0 <= i < |log|
      ensures patched[i] == replaced[i]
    {
      if i != k && log[i].id == id {
        assert false;
      }
    }
  }

  /** An entry appended with an id new to the log is the one found by that id. */
  lemma FindLast(log: seq<Message>, m: Message)
    requires forall i :: 0 <= i < |log| ==> log[i].id != m.id
    ensures FindById(log + [m], m.id) == Some(|log|)
  {
    var whole := log + [m];
    assert whole[|log|].id == m.id;
    var k := FindById(whole, m.id);
    if k.Some? && k.value < |log| {
      assert false;
    }
  }

  /** An entry whose id is new to the log, appended and then patched, is the only entry
      the patch touches. */
  lemma PatchLast(log: seq<Message>, m: Message, p: Patch)
    requires forall i :: 0 <= i < |log| ==> log[i].id != m.id
    ensures PatchFirst(log + [m], m.id, p) == log + [Apply(m, p)]
  {
    FindLast(log, m);
  }

  /** Setting the content a message already has changes nothing. */
  lemma PatchWithSameContent(log: seq<Message>, id: MessageId, content: string)
    requires FindById(log, id).Some? ==> log[FindById(log, id).value].content == content
    ensures PatchFirst(log, id, SetContent(content)) == log
  {
  }

  /** The same for a replacement by id. */
  lemma ReplaceLast(log: seq<Message>, m: Message, replacement: Message)
    requires forall i :: 0 <= i < |log| ==> log[i].id != m.id
    ensures ReplaceById(log + [m], m.id, replacement) == log + [replacement]
  {
    var r := ReplaceById(log + [m], m.id, replacement);
    forall i | 0 <= i < |log| + 1
      ensures r[i] == (log + [replacement])[i]
    {
      if i < |log| {
        assert (log + [m])[i] == log[i];
      }
    }
  }

  /** A later patch of the same message overwrites an earlier content patch: only the
      last one shows. */
  lemma ContentPatchOverwritten(log: seq<Message>, id: MessageId, content: string, p: Patch)
    ensures PatchFirst(PatchFirst(log, id, SetContent(content)), id, p) == PatchFirst(log, id, p)
  {
    var once := PatchFirst(log, id, SetContent(content));
    FindByIdSeesOnlyIds(log, once, id);
  }

  /** The search by id depends on the ids alone. */
  lemma {:induction false} FindByIdSeesOnlyIds(a: seq<Message>, b: seq<Message>, id: MessageId)
    requires |a| == |b| && forall i :: 0 <= i < |a| ==> a[i].id == b[i].id
    ensures FindById(a, id) == FindById(b, id)
    decreases |a|
  {
    if a != [] && a[0].id != id {
      FindByIdSeesOnlyIds(a[1..], b[1..], id);
    }
  }
}
