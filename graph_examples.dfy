/** A worked derivation of a one-edge list. */
module GraphExamples {
  import opened Wrappers
  import opened Words
  import opened SpiderWebGraph

  /** The nodes of the single edge x-y: two words seen once each, hence the degenerate size 50. */
  lemma SingleEdgeNodes()
    ensures Nodes([Edge("x", "y", 5.0)]) == [Node("x", 1, 50.0), Node("y", 1, 50.0)]
  {
    var edges := [Edge("x", "y", 5.0)];
    assert "x" != "y" by {
      assert "x"[0] != "y"[0];
    }
    assert UniqueWords(edges) == ["x", "y"] by {
      assert Endpoints(edges) == ["x", "y"];
      assert ["x", "y"][..1] == ["x"];
      assert Distinct(["x"]) == ["x"];
    }
    assert edges[..0] == [];
    assert NodeFrequencies(edges) == [1.0, 1.0];
  }

  /** The link of the single edge x-y: resolved to both nodes, and the one weight gives thickness 10. */
  lemma SingleEdgeLinks()
    ensures Links([Edge("x", "y", 5.0)]) == [Link(Some(0), Some(1), 5.0, 10.0)]
  {
    var nodes := [Node("x", 1, 50.0), Node("y", 1, 50.0)];
    SingleEdgeNodes();
    assert nodes[..1] == [Node("x", 1, 50.0)];
    assert nodes[..1][..0] == [];
    assert NodeMap(nodes) == map["x" := 0, "y" := 1];
    assert Weights([Edge("x", "y", 5.0)]) == [5.0];
  }

  /** A single edge x-y (weight 5): both sizes and the thickness take the degenerate branch. */
  lemma SingleEdge()
    ensures Derive([Edge("x", "y", 5.0)]) ==
      Graph([Node("x", 1, 50.0), Node("y", 1, 50.0)], [Link(Some(0), Some(1), 5.0, 10.0)])
  {
    SingleEdgeNodes();
    SingleEdgeLinks();
  }
}
