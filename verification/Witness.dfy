/** The hypotheses of the main theorems can be met: a small graph and a small document that meet all of them. */
module Witness {
  import opened Utf16
  import opened Graph
  import opened Dedupe
  import opened Loader
  import opened Cursors
  import opened Consistency
  import opened Batching
  import opened ReplaceBatch
  import opened Reimport
  import opened Isomorphism
  import opened NegativeIds

  const ONE := Num(1)
  const NAMED := Str([97])
  const FIRST := Vertex(Some(ONE), ["person"], [Property("name", Value("vadas", "String", "vadas"), None, None)])
  const SECOND := Vertex(Some(NAMED), ["person", "person"], [])
  const LINK := Edge(Some(Str([101])), "knows", ONE, NAMED, [])

  function Sample(): seq<Op> { [AddV(FIRST), AddV(SECOND), AddE(LINK)] }

  lemma NamedInSample(k: Key)
    ensures Named(k, Sample()) <==> k == ONE || k == NAMED
  {
    var ops := Sample();
    assert NamedIn(ONE, ops[0]) && NamedIn(NAMED, ops[1]);
  }

  lemma SpellingsDiffer()
    ensures DistinctSpellings(Sample())
  {
    forall k { NamedInSample(k); }
    assert Spelling(ONE) == [49] && Spelling(NAMED) == [97];
  }

  /** A stream for `BatchingTheorem.BatchingRefinesOneFlush`, over a graph that is not empty. */
  lemma StreamableSample(load: Text)
    ensures Ready(Before(), Some(load)) && Streamable(Before(), Sample())
  {
    BeforeIsConsistent();
    SpellingsDiffer();
    var ops := Sample();
    forall i, k | 0 <= i < |ops| && ops[i].AddE? && NamedIn(k, ops[i]) ensures NeverAfter(Before(), ops, i, k) {}
  }

  /** A batch for `Isomorphism.FlushLandsACopy`. */
  lemma ClosedSample()
    ensures Closed(Sample())
  {
    SpellingsDiffer();
    var ops := Sample();
    assert IsVertex(ops, 0, ONE) && IsVertex(ops, 1, NAMED);
  }

  /** A document for `Reimport.ReimportChangesNothing`, whose first vertex is already in the graph. */
  lemma ImportableSample()
    ensures Importable(Before(), [FIRST, SECOND], [LINK])
  {
    BeforeIsConsistent();
    KeysOfSample();
    OnlyOneIsStored();
    assert Unique(Before()) && References(Before()) && PositiveNodes(Before());
    hide Before, Consistent, Unique, References, Fill, Lookup, WellFormed;
  }

  lemma KeysOfSample()
    ensures forall k | k in Fill([FIRST, SECOND], VertexKey).keys :: k == ONE || k == Landed(NAMED)
  {
    var vs := [FIRST, SECOND];
    assert vs[..1] == [FIRST] && [FIRST][..0] == [];
    assert Fill([FIRST], VertexKey).keys == [ONE];
  }

  lemma OnlyOneIsStored()
    ensures Lookup(Before().nodes, Landed(NAMED)).None?
  {
    assert WellFormed([97]) == [97];
  }
}
