/** The citation list a finished reply carries (App.tsx:162): the sources gathered
    from the stream are put into a Map keyed by uri, and the Map's values are read
    back. A Map keeps the position at which a key was first set and the value it was
    last set to, so the list holds one source per uri, in first-seen order, each with
    the title of the last source carrying that uri. */
module Citations {
  import opened Types

  /** No two sources share a uri. */
  predicate DistinctUris(s: seq<Source>) {
    forall i, j :: 0 <= i < j < |s| ==> s[i].uri != s[j].uri
  }

  /** Some source of `s` carries `uri`. */
  predicate HasUri(s: seq<Source>, uri: string) {
    exists i :: 0 <= i < |s| && s[i].uri == uri
  }

  /** The position of the first source carrying `uri`, or |s| when there is none. */
  function FirstSeen(s: seq<Source>, uri: string): (k: nat)
    ensures k <= |s|
    ensures k < |s| ==> s[k].uri == uri
    ensures forall j :: 0 <= j < k ==> s[j].uri != uri
  {
    if s == [] then 0
    else if s[0].uri == uri then 0
    else FirstSeen(s[1..], uri) + 1
  }

  /** `x` occurs in `s` and no later source carries its uri. */
  predicate IsLastOfItsUri(s: seq<Source>, x: Source) {
    exists i :: 0 <= i < |s| && s[i] == x && forall k :: i < k < |s| ==> s[k].uri != x.uri
  }

  /** `map.set(x.uri, x)`: a known key keeps its place and takes the new value; a new
      key goes to the end. */
  function Insert(m: seq<Source>, x: Source): seq<Source> {
    var k := FirstSeen(m, x.uri);
    if k < |m| then m[k := x] else m + [x]
  }

  /** What a Map set does to the distinctness, the key set, the positions and the
      values of the list of entries. */
  lemma InsertFacts(m: seq<Source>, x: Source)
    requires DistinctUris(m)
    ensures DistinctUris(Insert(m, x))
    ensures forall u :: HasUri(Insert(m, x), u) <==> HasUri(m, u) || u == x.uri
    ensures HasUri(m, x.uri) ==>
      |Insert(m, x)| == |m| && forall j :: 0 <= j < |m| ==> Insert(m, x)[j].uri == m[j].uri
    ensures !HasUri(m, x.uri) ==> Insert(m, x) == m + [x]
    ensures forall j :: 0 <= j < |Insert(m, x)| ==>
      Insert(m, x)[j] == x || (j < |m| && Insert(m, x)[j] == m[j] && m[j].uri != x.uri)
  {
    var k := FirstSeen(m, x.uri);
    var r := Insert(m, x);
    if k < |m| {
      assert HasUri(m, x.uri);
      forall u ensures HasUri(r, u) <==> HasUri(m, u) || u == x.uri {
        if HasUri(m, u) {
          var i :| 0 <= i < |m| && m[i].uri == u;
          assert r[i].uri == u;
        }
        if HasUri(r, u) {
          var i :| 0 <= i < |r| && r[i].uri == u;
          if i != k {
            assert m[i].uri == u;
          }
        }
      }
    } else {
      assert !HasUri(m, x.uri);
      forall u ensures HasUri(r, u) <==> HasUri(m, u) || u == x.uri {
        if HasUri(m, u) {
          var i :| 0 <= i < |m| && m[i].uri == u;
          assert r[i].uri == u;
        }
        if u == x.uri {
          assert r[|m|].uri == u;
        }
      }
    }
  }

  /** `Array.from(new Map(sources.map(s => [s.uri, s])).values())`, as the Map is built:
      one set per source, in order. */
  function DedupByUri(s: seq<Source>): (r: seq<Source>)
    ensures |r| <= |s|
    ensures DistinctUris(r)
  {
    if s == [] then []
    else
      var m := DedupByUri(s[..|s| - 1]);
      InsertFacts(m, s[|s| - 1]);
      Insert(m, s[|s| - 1])
  }

  /** The list holds exactly the uris of the sources. */
  lemma {:induction false} DedupKeepsUris(s: seq<Source>)
    ensures forall u :: HasUri(DedupByUri(s), u) <==> HasUri(s, u)
    decreases |s|
  {
    if s != [] {
      var p, x := s[..|s| - 1], s[|s| - 1];
      assert s == p + [x];
      DedupKeepsUris(p);
      InsertFacts(DedupByUri(p), x);
      forall u ensures HasUri(s, u) <==> HasUri(p, u) || u == x.uri {
        if HasUri(s, u) {
          var i :| 0 <= i < |s| && s[i].uri == u;
          if i < |p| {
            assert p[i].uri == u;
          }
        }
        if HasUri(p, u) {
          var i :| 0 <= i < |p| && p[i].uri == u;
          assert s[i].uri == u;
        }
      }
    }
  }

  /** Each kept source is the last source with its uri: a later duplicate overwrites
      the title of an earlier one. */
  lemma {:induction false} DedupKeepsLast(s: seq<Source>)
    ensures forall j :: 0 <= j < |DedupByUri(s)| ==> IsLastOfItsUri(s, DedupByUri(s)[j])
    decreases |s|
  {
    if s != [] {
      var p, x := s[..|s| - 1], s[|s| - 1];
      var m := DedupByUri(p);
      var r := DedupByUri(s);
      DedupKeepsLast(p);
      InsertFacts(m, x);
      assert s == p + [x];
      forall j | 0 <= j < |r|
        ensures IsLastOfItsUri(s, r[j])
      {
        if r[j] == x {
          assert s[|s| - 1] == r[j];
        } else {
          LastSurvivesAppend(p, x, m[j]);
        }
      }
    }
  }

  /** Appending a source with another uri keeps a source the last of its uri. */
  lemma LastSurvivesAppend(p: seq<Source>, x: Source, y: Source)
    requires IsLastOfItsUri(p, y) && y.uri != x.uri
    ensures IsLastOfItsUri(p + [x], y)
  {
    var i :| 0 <= i < |p| && p[i] == y && forall k :: i < k < |p| ==> p[k].uri != y.uri;
    assert (p + [x])[i] == y;
  }

  /** The list follows the order in which each uri first appeared. */
  lemma {:induction false} DedupFirstSeenOrder(s: seq<Source>)
    ensures forall j1, j2 :: 0 <= j1 < j2 < |DedupByUri(s)| ==>
      FirstSeen(s, DedupByUri(s)[j1].uri) < FirstSeen(s, DedupByUri(s)[j2].uri)
    decreases |s|
  {
    if s != [] {
      var p, x := s[..|s| - 1], s[|s| - 1];
      var m := DedupByUri(p);
      var r := DedupByUri(s);
      assert s == p + [x];
      DedupFirstSeenOrder(p);
      DedupKeepsUris(p);
      InsertFacts(m, x);
      forall j | 0 <= j < |m|
        ensures FirstSeen(s, m[j].uri) == FirstSeen(p, m[j].uri) < |p|
      {
        assert HasUri(m, m[j].uri);
        SeenInPrefix(p, x, m[j].uri);
      }
      if !HasUri(m, x.uri) {
        SeenInPrefix(p, x, x.uri);
      }
      forall j1, j2 | 0 <= j1 < j2 < |r|
        ensures FirstSeen(s, r[j1].uri) < FirstSeen(s, r[j2].uri)
      {
        assert r[j1].uri == m[j1].uri;
        if j2 < |m| {
          assert r[j2].uri == m[j2].uri;
        }
      }
    }
  }

  /** Appending a source does not move the first sighting of a uri already present,
      and a new uri is first seen at the appended position. */
  lemma {:induction false} SeenInPrefix(p: seq<Source>, x: Source, u: string)
    ensures HasUri(p, u) ==> FirstSeen(p + [x], u) == FirstSeen(p, u) < |p|
    ensures !HasUri(p, u) && x.uri == u ==> FirstSeen(p + [x], u) == |p|
    decreases |p|
  {
    if p != [] && p[0].uri != u {
      assert (p + [x])[1..] == p[1..] + [x];
      SeenInPrefix(p[1..], x, u);
      if HasUri(p, u) {
        var i :| 0 <= i < |p| && p[i].uri == u;
        assert p[1..][i - 1].uri == u;
      }
      if HasUri(p[1..], u) {
        var i :| 0 <= i < |p[1..]| && p[1..][i].uri == u;
        assert p[i + 1].uri == u;
      }
    } else if p != [] {
      assert HasUri(p, u) by { assert p[0].uri == u; }
    }
  }

  /** A short example: two citations of the same page keep the first one's place and
      the second one's title. */
  lemma DuplicateUriKeepsLastTitle()
    ensures DedupByUri([Source("a", "old"), Source("b", "B"), Source("a", "new")]) ==
      [Source("a", "new"), Source("b", "B")]
  {
    var s := [Source("a", "old"), Source("b", "B"), Source("a", "new")];
    assert s[..2] == [Source("a", "old"), Source("b", "B")];
    assert s[..2][..1] == [Source("a", "old")];
    assert s[..2][..1][..0] == [];
  }
}
