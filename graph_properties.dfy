/**
 * What the derived graph promises: node ids, frequencies and sizes; one link
 * per edge with its weight and scaled thickness; every link endpoint resolving
 * to the node of its word.
 */
module GraphProperties {
  import opened Wrappers
  import opened Scaling
  import opened Words
  import opened SpiderWebGraph

  ghost predicate AllFrequenciesEqual(nodes: seq<Node>)
  {
    forall i, j :: 0 <= i < |nodes| && 0 <= j < |nodes| ==> nodes[i].frequency == nodes[j].frequency
  }

  /** Node `i` has the least frequency of all nodes. */
  ghost predicate LeastFrequent(nodes: seq<Node>, i: nat)
    requires i < |nodes|
  {
    forall j :: 0 <= j < |nodes| ==> nodes[i].frequency <= nodes[j].frequency
  }

  /** Node `i` has the greatest frequency of all nodes. */
  ghost predicate MostFrequent(nodes: seq<Node>, i: nat)
    requires i < |nodes|
  {
    forall j :: 0 <= j < |nodes| ==> nodes[j].frequency <= nodes[i].frequency
  }

  ghost predicate AllWeightsEqual(edges: seq<Edge>)
  {
    forall k, l :: 0 <= k < |edges| && 0 <= l < |edges| ==> edges[k].weight == edges[l].weight
  }

  /** Edge `k` has the least weight of all edges. */
  ghost predicate Lightest(edges: seq<Edge>, k: nat)
    requires k < |edges|
  {
    forall l :: 0 <= l < |edges| ==> edges[k].weight <= edges[l].weight
  }

  /** Edge `k` has the greatest weight of all edges. */
  ghost predicate Heaviest(edges: seq<Edge>, k: nat)
    requires k < |edges|
  {
    forall l :: 0 <= l < |edges| ==> edges[l].weight <= edges[k].weight
  }

  /** Node `i` of a non-empty edge list, unfolded. */
  lemma {:induction false} NodeAt(edges: seq<Edge>, i: nat)
    requires |edges| > 0 && i < |UniqueWords(edges)|
    ensures |Nodes(edges)| == |UniqueWords(edges)| == |NodeFrequencies(edges)|
    ensures Nodes(edges)[i] == NodeFor(UniqueWords(edges)[i], Freq(edges, UniqueWords(edges)[i]),
                                       MinOf(NodeFrequencies(edges)), MaxOf(NodeFrequencies(edges)))
    ensures NodeFrequencies(edges)[i] == Freq(edges, UniqueWords(edges)[i]) as real
  {
  }

  /** The node ids are exactly the endpoint words, each once, in first-seen order. */
  lemma {:induction false} NodeIds(edges: seq<Edge>, g: Graph)
    requires g == Derive(edges)
    ensures forall w :: (exists i :: 0 <= i < |g.nodes| && g.nodes[i].id == w) <==> IsEndpoint(edges, w)
    ensures forall i :: 0 <= i < |g.nodes| ==> g.nodes[i].id in Endpoints(edges)
    ensures forall i, j :: 0 <= i < j < |g.nodes| ==> g.nodes[i].id != g.nodes[j].id
    ensures forall i, j :: 0 <= i < j < |g.nodes| ==>
      FirstIndex(Endpoints(edges), g.nodes[i].id) < FirstIndex(Endpoints(edges), g.nodes[j].id)
  {
    if |edges| > 0 {
      var words := UniqueWords(edges);
      forall i | 0 <= i < |words| ensures g.nodes[i].id == words[i] {
        NodeAt(edges, i);
      }
      DistinctInFirstSeenOrder(Endpoints(edges));
      forall w ensures (exists i :: 0 <= i < |g.nodes| && g.nodes[i].id == w) <==> IsEndpoint(edges, w) {
        FreqPositive(edges, w);
        if w in words {
          var i :| 0 <= i < |words| && words[i] == w;
          assert g.nodes[i].id == w;
        }
      }
    }
  }

  /** A node's frequency is the number of edge endpoints equal to its word, so at least 1. */
  lemma {:induction false} NodeFrequencyCountsEndpoints(edges: seq<Edge>, g: Graph)
    requires g == Derive(edges)
    ensures forall i :: 0 <= i < |g.nodes| ==>
      g.nodes[i].frequency == Count(Sources(edges), g.nodes[i].id) + Count(Targets(edges), g.nodes[i].id)
    ensures forall i :: 0 <= i < |g.nodes| ==> g.nodes[i].frequency >= 1
  {
    if |edges| > 0 {
      var words := UniqueWords(edges);
      forall i | 0 <= i < |g.nodes|
        ensures g.nodes[i].frequency == Count(Sources(edges), g.nodes[i].id) + Count(Targets(edges), g.nodes[i].id)
        ensures g.nodes[i].frequency >= 1
      {
        NodeAt(edges, i);
        FreqCountsEndpoints(edges, words[i]);
        FreqPositive(edges, words[i]);
      }
    }
  }

  /** A self-loop adds two to the frequency of its word. */
  lemma {:induction false} SelfLoopCountsTwice(edges: seq<Edge>, w: string, weight: real)
    ensures Freq(edges + [Edge(w, w, weight)], w) == Freq(edges, w) + 2
  {
    assert (edges + [Edge(w, w, weight)])[..|edges|] == edges;
  }

  /** Node `i`'s size is its frequency rescaled between the least and greatest frequency. */
  lemma {:induction false} SizeIsRescaled(edges: seq<Edge>, g: Graph, i: nat)
    requires g == Derive(edges) && i < |g.nodes|
    ensures |edges| > 0
    ensures g.nodes[i].size == Rescale(g.nodes[i].frequency as real, MinOf(NodeFrequencies(edges)),
                                       MaxOf(NodeFrequencies(edges)), MinSize, SizeSpan)
  {
    NodeAt(edges, i);
  }

  /** Node `i`'s frequency lies between the least and greatest, which are attained. */
  lemma {:induction false} FrequencyRange(edges: seq<Edge>, g: Graph, i: nat)
    requires g == Derive(edges) && i < |g.nodes|
    ensures |edges| > 0
    ensures MinOf(NodeFrequencies(edges)) <= g.nodes[i].frequency as real <= MaxOf(NodeFrequencies(edges))
    ensures g.nodes[i].size == Rescale(g.nodes[i].frequency as real, MinOf(NodeFrequencies(edges)),
                                       MaxOf(NodeFrequencies(edges)), MinSize, SizeSpan)
    ensures exists a :: 0 <= a < |g.nodes| && g.nodes[a].frequency as real == MinOf(NodeFrequencies(edges))
    ensures exists b :: 0 <= b < |g.nodes| && g.nodes[b].frequency as real == MaxOf(NodeFrequencies(edges))
  {
    NodeAt(edges, i);
    var freqs := NodeFrequencies(edges);
    var a :| 0 <= a < |freqs| && freqs[a] == MinOf(freqs);
    var b :| 0 <= b < |freqs| && freqs[b] == MaxOf(freqs);
    NodeAt(edges, a);
    NodeAt(edges, b);
  }

  /** Every size lies in [10, 50]; when all frequencies are equal every size is 50. */
  lemma {:induction false} SizeBounds(edges: seq<Edge>, g: Graph)
    requires g == Derive(edges)
    ensures forall i :: 0 <= i < |g.nodes| ==> 10.0 <= g.nodes[i].size <= 50.0
    ensures AllFrequenciesEqual(g.nodes) ==> forall i :: 0 <= i < |g.nodes| ==> g.nodes[i].size == 50.0
  {
    forall i | 0 <= i < |g.nodes| ensures 10.0 <= g.nodes[i].size <= 50.0 {
      FrequencyRange(edges, g, i);
    }
    if AllFrequenciesEqual(g.nodes) {
      forall i | 0 <= i < |g.nodes| ensures g.nodes[i].size == 50.0 {
        FrequencyRange(edges, g, i);
      }
    }
  }

  /** `lo` and `hi` are the least and the greatest frequency of the nodes. */
  ghost predicate FrequencyExtremes(nodes: seq<Node>, lo: real, hi: real)
  {
    (forall m :: 0 <= m < |nodes| ==> lo <= nodes[m].frequency as real <= hi) &&
    (exists a :: 0 <= a < |nodes| && nodes[a].frequency as real == lo) &&
    (exists b :: 0 <= b < |nodes| && nodes[b].frequency as real == hi)
  }

  lemma {:induction false} SizedNodesOrder(nodes: seq<Node>, lo: real, hi: real)
    requires SizedBetween(nodes, lo, hi) && FrequencyExtremes(nodes, lo, hi)
    ensures forall i, j :: 0 <= i < |nodes| && 0 <= j < |nodes| ==>
              (nodes[i].frequency <= nodes[j].frequency ==> nodes[i].size <= nodes[j].size)
    ensures forall i, j :: 0 <= i < |nodes| && 0 <= j < |nodes| ==>
              (nodes[i].frequency < nodes[j].frequency ==> nodes[i].size < nodes[j].size)
    ensures !AllFrequenciesEqual(nodes) ==>
              forall i :: 0 <= i < |nodes| && LeastFrequent(nodes, i) ==> nodes[i].size == 10.0
    ensures !AllFrequenciesEqual(nodes) ==>
              forall i :: 0 <= i < |nodes| && MostFrequent(nodes, i) ==> nodes[i].size == 50.0
  {
    forall i, j | 0 <= i < |nodes| && 0 <= j < |nodes| && nodes[i].frequency <= nodes[j].frequency
      ensures nodes[i].size <= nodes[j].size
      ensures nodes[i].frequency < nodes[j].frequency ==> nodes[i].size < nodes[j].size
    {
      if lo < hi {
        RescaleMonotone(nodes[i].frequency as real, nodes[j].frequency as real, lo, hi, MinSize, SizeSpan);
      }
    }
    if !AllFrequenciesEqual(nodes) {
      var x, y :| 0 <= x < |nodes| && 0 <= y < |nodes| && nodes[x].frequency != nodes[y].frequency;
      assert lo != hi;
      var a :| 0 <= a < |nodes| && nodes[a].frequency as real == lo;
      var b :| 0 <= b < |nodes| && nodes[b].frequency as real == hi;
    }
  }

  /**
   * Size grows with frequency (strictly where frequency does), and when the
   * frequencies differ the least frequent nodes get 10 and the most frequent 50.
   */
  lemma {:induction false} SizeOrder(edges: seq<Edge>, g: Graph)
    requires g == Derive(edges)
    ensures forall i, j :: 0 <= i < |g.nodes| && 0 <= j < |g.nodes| ==>
              (g.nodes[i].frequency <= g.nodes[j].frequency ==> g.nodes[i].size <= g.nodes[j].size)
    ensures forall i, j :: 0 <= i < |g.nodes| && 0 <= j < |g.nodes| ==>
              (g.nodes[i].frequency < g.nodes[j].frequency ==> g.nodes[i].size < g.nodes[j].size)
    ensures !AllFrequenciesEqual(g.nodes) ==>
              forall i :: 0 <= i < |g.nodes| && LeastFrequent(g.nodes, i) ==> g.nodes[i].size == 10.0
    ensures !AllFrequenciesEqual(g.nodes) ==>
              forall i :: 0 <= i < |g.nodes| && MostFrequent(g.nodes, i) ==> g.nodes[i].size == 50.0
  {
    if |edges| > 0 {
      var lo, hi := MinOf(NodeFrequencies(edges)), MaxOf(NodeFrequencies(edges));
      DerivedNodesSized(edges, g);
      assert FrequencyExtremes(g.nodes, lo, hi) by {
        FrequencyRange(edges, g, 0);
        forall m | 0 <= m < |g.nodes| ensures lo <= g.nodes[m].frequency as real <= hi {
          FrequencyRange(edges, g, m);
        }
      }
      SizedNodesOrder(g.nodes, lo, hi);
    }
  }

  /** Every node's size is its frequency rescaled onto [10, 50] between `lo` and `hi`. */
  ghost predicate SizedBetween(nodes: seq<Node>, lo: real, hi: real)
  {
    forall m :: 0 <= m < |nodes| ==> nodes[m].size == Rescale(nodes[m].frequency as real, lo, hi, MinSize, SizeSpan)
  }

  /**
   * Size is an affine function of frequency: for nodes sized as the derivation
   * sizes them, size differences are proportional to frequency differences.
   */
  lemma {:induction false} SizedNodesAffine(nodes: seq<Node>, lo: real, hi: real, i: nat, j: nat, k: nat, l: nat)
    requires SizedBetween(nodes, lo, hi)
    requires i < |nodes| && j < |nodes| && k < |nodes| && l < |nodes|
    ensures (nodes[i].size - nodes[j].size) * (nodes[k].frequency as real - nodes[l].frequency as real)
         == (nodes[k].size - nodes[l].size) * (nodes[i].frequency as real - nodes[j].frequency as real)
  {
    RescaleAffine(nodes[i].size, nodes[j].size, nodes[k].size, nodes[l].size,
                  nodes[i].frequency as real, nodes[j].frequency as real,
                  nodes[k].frequency as real, nodes[l].frequency as real, lo, hi, MinSize, SizeSpan);
  }

  /** The derived nodes are sized by rescaling between the least and greatest frequency. */
  lemma {:induction false} DerivedNodesSized(edges: seq<Edge>, g: Graph)
    requires g == Derive(edges) && |edges| > 0
    ensures SizedBetween(g.nodes, MinOf(NodeFrequencies(edges)), MaxOf(NodeFrequencies(edges)))
  {
    forall m | 0 <= m < |g.nodes|
      ensures g.nodes[m].size == Rescale(g.nodes[m].frequency as real, MinOf(NodeFrequencies(edges)),
                                         MaxOf(NodeFrequencies(edges)), MinSize, SizeSpan)
    {
      SizeIsRescaled(edges, g, m);
    }
  }

  /** Link `k` of a non-empty edge list, unfolded. */
  lemma {:induction false} LinkAt(edges: seq<Edge>, k: nat)
    requires |edges| > 0 && k < |edges|
    ensures |Links(edges)| == |edges| == |Weights(edges)|
    ensures Links(edges)[k] == LinkFor(edges[k], NodeMap(Nodes(edges)), MinOf(Weights(edges)), MaxOf(Weights(edges)))
    ensures Weights(edges)[k] == edges[k].weight
  {
  }

  /** Exactly one link per edge, in edge order, carrying the edge's weight unchanged. */
  lemma {:induction false} LinksFollowEdges(edges: seq<Edge>, g: Graph)
    requires g == Derive(edges)
    ensures |g.links| == |edges|
    ensures forall k :: 0 <= k < |edges| ==> g.links[k].weight == edges[k].weight
  {
    forall k | 0 <= k < |edges| ensures g.links[k].weight == edges[k].weight {
      LinkAt(edges, k);
    }
  }

  /** Link `k`'s weight lies between the least and greatest weight, which are attained. */
  lemma {:induction false} WeightRange(edges: seq<Edge>, g: Graph, k: nat)
    requires g == Derive(edges) && k < |edges|
    ensures MinOf(Weights(edges)) <= edges[k].weight <= MaxOf(Weights(edges))
    ensures g.links[k].thickness == Rescale(edges[k].weight, MinOf(Weights(edges)), MaxOf(Weights(edges)),
                                            MinThickness, ThicknessSpan)
    ensures exists a :: 0 <= a < |edges| && edges[a].weight == MinOf(Weights(edges))
    ensures exists b :: 0 <= b < |edges| && edges[b].weight == MaxOf(Weights(edges))
  {
    LinkAt(edges, k);
    var ws := Weights(edges);
    var a :| 0 <= a < |ws| && ws[a] == MinOf(ws);
    var b :| 0 <= b < |ws| && ws[b] == MaxOf(ws);
    LinkAt(edges, a);
    LinkAt(edges, b);
  }

  /** Every thickness lies in [1, 10]; when all weights are equal every thickness is 10. */
  lemma {:induction false} ThicknessBounds(edges: seq<Edge>, g: Graph)
    requires g == Derive(edges)
    ensures forall k :: 0 <= k < |g.links| ==> 1.0 <= g.links[k].thickness <= 10.0
    ensures AllWeightsEqual(edges) ==> forall k :: 0 <= k < |g.links| ==> g.links[k].thickness == 10.0
  {
    forall k | 0 <= k < |g.links| ensures 1.0 <= g.links[k].thickness <= 10.0 {
      WeightRange(edges, g, k);
    }
    if AllWeightsEqual(edges) {
      forall k | 0 <= k < |g.links| ensures g.links[k].thickness == 10.0 {
        WeightRange(edges, g, k);
      }
    }
  }

  /**
   * Thickness grows with weight (strictly where weight does), and when the
   * weights differ the lightest edges get 1 and the heaviest 10.
   */
  lemma {:induction false} ThicknessOrder(edges: seq<Edge>, g: Graph)
    requires g == Derive(edges)
    ensures forall k, l :: 0 <= k < |edges| && 0 <= l < |edges| ==>
              (edges[k].weight <= edges[l].weight ==> g.links[k].thickness <= g.links[l].thickness)
    ensures forall k, l :: 0 <= k < |edges| && 0 <= l < |edges| ==>
              (edges[k].weight < edges[l].weight ==> g.links[k].thickness < g.links[l].thickness)
    ensures !AllWeightsEqual(edges) ==>
              forall k :: 0 <= k < |edges| && Lightest(edges, k) ==> g.links[k].thickness == 1.0
    ensures !AllWeightsEqual(edges) ==>
              forall k :: 0 <= k < |edges| && Heaviest(edges, k) ==> g.links[k].thickness == 10.0
  {
    if |edges| > 0 {
      var lo, hi := MinOf(Weights(edges)), MaxOf(Weights(edges));
      DerivedLinksThick(edges, g);
      assert WeightExtremes(edges, lo, hi) by {
        WeightRange(edges, g, 0);
        forall k | 0 <= k < |edges| ensures lo <= edges[k].weight <= hi {
          WeightRange(edges, g, k);
        }
      }
      ThickLinksOrder(edges, g.links, lo, hi);
    }
  }

  /** `lo` and `hi` are the least and the greatest edge weight. */
  ghost predicate WeightExtremes(edges: seq<Edge>, lo: real, hi: real)
  {
    (forall k :: 0 <= k < |edges| ==> lo <= edges[k].weight <= hi) &&
    (exists a :: 0 <= a < |edges| && edges[a].weight == lo) &&
    (exists b :: 0 <= b < |edges| && edges[b].weight == hi)
  }

  lemma {:induction false} ThickLinksOrder(edges: seq<Edge>, links: seq<Link>, lo: real, hi: real)
    requires ThickBetween(edges, links, lo, hi) && WeightExtremes(edges, lo, hi)
    ensures forall k, l :: 0 <= k < |edges| && 0 <= l < |edges| ==>
              (edges[k].weight <= edges[l].weight ==> links[k].thickness <= links[l].thickness)
    ensures forall k, l :: 0 <= k < |edges| && 0 <= l < |edges| ==>
              (edges[k].weight < edges[l].weight ==> links[k].thickness < links[l].thickness)
    ensures !AllWeightsEqual(edges) ==>
              forall k :: 0 <= k < |edges| && Lightest(edges, k) ==> links[k].thickness == 1.0
    ensures !AllWeightsEqual(edges) ==>
              forall k :: 0 <= k < |edges| && Heaviest(edges, k) ==> links[k].thickness == 10.0
  {
    forall k, l | 0 <= k < |edges| && 0 <= l < |edges| && edges[k].weight <= edges[l].weight
      ensures links[k].thickness <= links[l].thickness
      ensures edges[k].weight < edges[l].weight ==> links[k].thickness < links[l].thickness
    {
      if lo < hi {
        RescaleMonotone(edges[k].weight, edges[l].weight, lo, hi, MinThickness, ThicknessSpan);
      }
    }
    if !AllWeightsEqual(edges) {
      var x, y :| 0 <= x < |edges| && 0 <= y < |edges| && edges[x].weight != edges[y].weight;
      assert lo != hi;
      var a :| 0 <= a < |edges| && edges[a].weight == lo;
      var b :| 0 <= b < |edges| && edges[b].weight == hi;
    }
  }

  /** Every link's thickness is its edge's weight rescaled onto [1, 10] between `lo` and `hi`. */
  ghost predicate ThickBetween(edges: seq<Edge>, links: seq<Link>, lo: real, hi: real)
  {
    |links| == |edges| &&
    forall m :: 0 <= m < |links| ==> links[m].thickness == Rescale(edges[m].weight, lo, hi, MinThickness, ThicknessSpan)
  }

  /** The derived links are thickened by rescaling between the least and greatest weight. */
  lemma {:induction false} DerivedLinksThick(edges: seq<Edge>, g: Graph)
    requires g == Derive(edges) && |edges| > 0
    ensures ThickBetween(edges, g.links, MinOf(Weights(edges)), MaxOf(Weights(edges)))
  {
    forall m | 0 <= m < |edges|
      ensures g.links[m].thickness == Rescale(edges[m].weight, MinOf(Weights(edges)), MaxOf(Weights(edges)),
                                              MinThickness, ThicknessSpan)
    {
      WeightRange(edges, g, m);
    }
  }

  /**
   * Thickness is an affine function of weight: for links thickened as the
   * derivation does it, thickness differences are proportional to weight differences.
   */
  lemma {:induction false} ThickLinksAffine(edges: seq<Edge>, links: seq<Link>, lo: real, hi: real, i: nat, j: nat, k: nat, l: nat)
    requires ThickBetween(edges, links, lo, hi)
    requires i < |edges| && j < |edges| && k < |edges| && l < |edges|
    ensures (links[i].thickness - links[j].thickness) * (edges[k].weight - edges[l].weight)
         == (links[k].thickness - links[l].thickness) * (edges[i].weight - edges[j].weight)
  {
    RescaleAffine(links[i].thickness, links[j].thickness, links[k].thickness, links[l].thickness,
                  edges[i].weight, edges[j].weight, edges[k].weight, edges[l].weight,
                  lo, hi, MinThickness, ThicknessSpan);
  }

  /** With distinct ids, the node map sends each id to the position of its one node. */
  lemma {:induction false} NodeMapFindsEach(nodes: seq<Node>, i: nat)
    requires i < |nodes|
    requires forall a, b :: 0 <= a < b < |nodes| ==> nodes[a].id != nodes[b].id
    ensures nodes[i].id in NodeMap(nodes) && NodeMap(nodes)[nodes[i].id] == i
  {
    var m := NodeMap(nodes);
    assert nodes[i].id in m;
    var j := m[nodes[i].id];
    assert nodes[j].id == nodes[i].id;
  }

  /**
   * The node-map lookups never miss: both ends of link `k` are present and are
   * the one node whose id is the edge's source, respectively target.
   */
  lemma {:induction false} LinksResolve(edges: seq<Edge>, g: Graph)
    requires g == Derive(edges)
    ensures forall k :: 0 <= k < |g.links| ==>
      g.links[k].source.Some? && g.links[k].source.value < |g.nodes| && g.nodes[g.links[k].source.value].id == edges[k].source
    ensures forall k :: 0 <= k < |g.links| ==>
      g.links[k].target.Some? && g.links[k].target.value < |g.nodes| && g.nodes[g.links[k].target.value].id == edges[k].target
    ensures forall k, i :: 0 <= k < |g.links| && 0 <= i < |g.nodes| ==>
              (g.nodes[i].id == edges[k].source ==> g.links[k].source == Some(i))
    ensures forall k, i :: 0 <= k < |g.links| && 0 <= i < |g.nodes| ==>
              (g.nodes[i].id == edges[k].target ==> g.links[k].target == Some(i))
  {
    if |edges| > 0 {
      NodeIds(edges, g);
      var m := NodeMap(g.nodes);
      forall k | 0 <= k < |edges|
        ensures edges[k].source in m && edges[k].target in m
        ensures g.links[k] == LinkFor(edges[k], m, MinOf(Weights(edges)), MaxOf(Weights(edges)))
      {
        LinkAt(edges, k);
        assert IsEndpoint(edges, edges[k].source);
        assert IsEndpoint(edges, edges[k].target);
      }
      forall i | 0 <= i < |g.nodes| ensures g.nodes[i].id in m && m[g.nodes[i].id] == i {
        NodeMapFindsEach(g.nodes, i);
      }
    }
  }
}
