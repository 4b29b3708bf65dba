/**
 * The graph derivation of the spider-web view: from the co-occurrence edge
 * list returned by the crawler to the nodes (one per distinct word, sized by
 * how often the word occurs as an endpoint) and links (one per edge, thickness
 * scaled by weight) that the force layout then draws.
 */
module SpiderWebGraph {
  import opened Wrappers
  import opened Scaling
  import opened Words

  /** Node sizes range over [MinSize, MinSize + SizeSpan] = [10, 50]. */
  const MinSize: real := 10.0
  const SizeSpan: real := 40.0
  /** Link thicknesses range over [MinThickness, MinThickness + ThicknessSpan] = [1, 10]. */
  const MinThickness: real := 1.0
  const ThicknessSpan: real := 9.0

  /** A co-occurrence of two words, as the crawler returns it. */
  datatype Edge = Edge(source: string, target: string, weight: real)

  /** A drawn vertex: one distinct word, how often it is an endpoint, its size. */
  datatype Node = Node(id: string, frequency: nat, size: real)

  /**
   * A drawn edge. The component links to node objects; here an endpoint is the
   * position of its node in the node list, or None where the lookup in the
   * node map would have produced `undefined`.
   */
  datatype Link = Link(source: Option<nat>, target: Option<nat>, weight: real, thickness: real)

  datatype Graph = Graph(nodes: seq<Node>, links: seq<Link>)

  /** How many endpoints of `e` are the word `w` (2 for a self-loop on `w`). */
  function Hits(e: Edge, w: string): nat
  {
    (if e.source == w then 1 else 0) + (if e.target == w then 1 else 0)
  }

  /** The number of edge endpoints, sources and targets alike, equal to `w`. */
  function Freq(edges: seq<Edge>, w: string): (n: nat)
    ensures n <= 2 * |edges|
  {
    if |edges| == 0 then 0
    else Freq(edges[..|edges| - 1], w) + Hits(edges[|edges| - 1], w)
  }

  function Sources(edges: seq<Edge>): seq<string>
  {
    seq(|edges|, k requires 0 <= k < |edges| => edges[k].source)
  }

  function Targets(edges: seq<Edge>): seq<string>
  {
    seq(|edges|, k requires 0 <= k < |edges| => edges[k].target)
  }

  /** All sources in edge order, then all targets in edge order. */
  function Endpoints(edges: seq<Edge>): seq<string>
  {
    Sources(edges) + Targets(edges)
  }

  /** The distinct words, in first-seen order over `Endpoints`. */
  function UniqueWords(edges: seq<Edge>): (words: seq<string>)
    ensures |edges| > 0 ==> |words| > 0
  {
    assert |edges| > 0 ==> Endpoints(edges)[0] == edges[0].source;
    Distinct(Endpoints(edges))
  }

  function Weights(edges: seq<Edge>): seq<real>
  {
    seq(|edges|, k requires 0 <= k < |edges| => edges[k].weight)
  }

  /** The frequency of every distinct word, in node order. */
  function NodeFrequencies(edges: seq<Edge>): seq<real>
  {
    var words := UniqueWords(edges);
    seq(|words|, i requires 0 <= i < |words| => Freq(edges, words[i]) as real)
  }

  /** The node of one word: its size is in [10, 50] when the frequency is in range, and 50 on a degenerate range. */
  function NodeFor(word: string, frequency: nat, minFreq: real, maxFreq: real): (n: Node)
    ensures n.id == word && n.frequency == frequency
    ensures minFreq <= frequency as real <= maxFreq ==> MinSize <= n.size <= MinSize + SizeSpan
    ensures minFreq == maxFreq ==> n.size == MinSize + SizeSpan
  {
    Node(word, frequency, Rescale(frequency as real, minFreq, maxFreq, MinSize, SizeSpan))
  }

  /** One node per distinct word, its size scaled between the least and greatest frequency. */
  function Nodes(edges: seq<Edge>): (nodes: seq<Node>)
    requires |edges| > 0
    ensures |nodes| == |UniqueWords(edges)|
    ensures forall i :: 0 <= i < |nodes| ==>
              nodes[i].id == UniqueWords(edges)[i] && nodes[i].frequency == Freq(edges, nodes[i].id)
  {
    var words := UniqueWords(edges);
    var freqs := NodeFrequencies(edges);
    var minFreq, maxFreq := MinOf(freqs), MaxOf(freqs);
    seq(|words|, i requires 0 <= i < |words| => NodeFor(words[i], Freq(edges, words[i]), minFreq, maxFreq))
  }

  /**
   * `new Map(nodes.map(node => [node.id, node]))`: each id to the position of its
   * node; a repeated id would keep its last position, as a JavaScript map does.
   */
  function NodeMap(nodes: seq<Node>): (m: map<string, nat>)
    ensures forall w :: w in m <==> exists i :: 0 <= i < |nodes| && nodes[i].id == w
    ensures forall w :: w in m ==> m[w] < |nodes| && nodes[m[w]].id == w
  {
    if |nodes| == 0 then map[]
    else NodeMap(nodes[..|nodes| - 1])[nodes[|nodes| - 1].id := |nodes| - 1]
  }

  /** `Map.get`: the entry for `w`, or None (`undefined`) when there is none. */
  function Lookup(m: map<string, nat>, w: string): Option<nat>
  {
    if w in m then Some(m[w]) else None
  }

  /**
   * Looking a word up in the node map hits exactly when some node has that id,
   * and then gives the position of such a node.
   */
  lemma {:induction false} LookupNodeMap(nodes: seq<Node>, w: string)
    ensures Lookup(NodeMap(nodes), w).Some? <==> exists i :: 0 <= i < |nodes| && nodes[i].id == w
    ensures Lookup(NodeMap(nodes), w).Some? ==>
              Lookup(NodeMap(nodes), w).value < |nodes| && nodes[Lookup(NodeMap(nodes), w).value].id == w
  {
  }

  /**
   * The link of one edge: both ends looked up in the node map, the weight
   * copied, the thickness in [1, 10] when the weight is in range, 10 on a degenerate range.
   */
  function LinkFor(e: Edge, nodeMap: map<string, nat>, minWeight: real, maxWeight: real): (l: Link)
    ensures l.source.Some? <==> e.source in nodeMap
    ensures l.target.Some? <==> e.target in nodeMap
    ensures l.weight == e.weight
    ensures minWeight <= e.weight <= maxWeight ==> MinThickness <= l.thickness <= MinThickness + ThicknessSpan
    ensures minWeight == maxWeight ==> l.thickness == MinThickness + ThicknessSpan
  {
    Link(Lookup(nodeMap, e.source), Lookup(nodeMap, e.target), e.weight,
         Rescale(e.weight, minWeight, maxWeight, MinThickness, ThicknessSpan))
  }

  /** One link per edge, its thickness scaled between the least and greatest weight. */
  function Links(edges: seq<Edge>): (links: seq<Link>)
    requires |edges| > 0
    ensures |links| == |edges|
    ensures forall k :: 0 <= k < |edges| ==> links[k].weight == edges[k].weight
  {
    var weights := Weights(edges);
    var minWeight, maxWeight := MinOf(weights), MaxOf(weights);
    var nodeMap := NodeMap(Nodes(edges));
    seq(|edges|, k requires 0 <= k < |edges| => LinkFor(edges[k], nodeMap, minWeight, maxWeight))
  }

  /** The derived graph of a (possibly empty) edge list. */
  function Derive(edges: seq<Edge>): (g: Graph)
    ensures |g.links| == |edges|
    ensures g.nodes == [] <==> edges == []
  {
    if |edges| == 0 then Graph([], []) else Graph(Nodes(edges), Links(edges))
  }

  /** The derived graph of the response's `edges` field, which may be missing. */
  function GraphOf(data: Option<seq<Edge>>): (g: Graph)
    ensures g.nodes == [] <==> data == None || data == Some([])
    ensures g.links == [] <==> data == None || data == Some([])
  {
    match data
    case None => Graph([], [])
    case Some(edges) => Derive(edges)
  }

  lemma {:induction false} FreqCountsEndpoints(edges: seq<Edge>, w: string)
    ensures Freq(edges, w) == Count(Sources(edges), w) + Count(Targets(edges), w)
  {
    if |edges| > 0 {
      var n := |edges| - 1;
      FreqCountsEndpoints(edges[..n], w);
      assert Sources(edges)[..n] == Sources(edges[..n]);
      assert Targets(edges)[..n] == Targets(edges[..n]);
    }
  }

  /** A word is the source or the target of some edge. */
  ghost predicate IsEndpoint(edges: seq<Edge>, w: string)
  {
    exists k :: 0 <= k < |edges| && (edges[k].source == w || edges[k].target == w)
  }

  /** A word has a positive frequency exactly when it is some edge's source or target. */
  lemma {:induction false} FreqPositive(edges: seq<Edge>, w: string)
    ensures Freq(edges, w) > 0 <==> w in Endpoints(edges)
    ensures Freq(edges, w) > 0 <==> IsEndpoint(edges, w)
  {
    FreqCountsEndpoints(edges, w);
    CountPositive(Sources(edges), w);
    CountPositive(Targets(edges), w);
    if w in Sources(edges) {
      var k :| 0 <= k < |edges| && Sources(edges)[k] == w;
    }
    if w in Targets(edges) {
      var k :| 0 <= k < |edges| && Targets(edges)[k] == w;
    }
    if IsEndpoint(edges, w) {
      var k :| 0 <= k < |edges| && (edges[k].source == w || edges[k].target == w);
      assert Sources(edges)[k] == edges[k].source && Targets(edges)[k] == edges[k].target;
    }
  }

  /** `(wordFrequency[w] || 0)`: the tally so far, 0 for a word not yet seen. */
  function Get(freq: map<string, nat>, w: string): nat
  {
    if w in freq then freq[w] else 0
  }

  /**
   * The frequency tally: one pass over the edges, bumping the counter of the
   * source and then of the target of each.
   */
  method TallyFrequencies(edges: seq<Edge>) returns (freq: map<string, nat>)
    ensures forall w :: w in freq <==> w in Endpoints(edges)
    ensures forall w :: w in freq ==> freq[w] == Freq(edges, w)
  {
    freq := map[];
    var i := 0;
    while i < |edges|
      invariant 0 <= i <= |edges|
      invariant forall w :: w in freq <==> Freq(edges[..i], w) > 0
      invariant forall w :: w in freq ==> freq[w] == Freq(edges[..i], w)
    {
      var e := edges[i];
      freq := freq[e.source := Get(freq, e.source) + 1];
      freq := freq[e.target := Get(freq, e.target) + 1];
      assert edges[..i + 1][..i] == edges[..i];
      i := i + 1;
    }
    assert edges[..|edges|] == edges;
    forall w ensures w in freq <==> w in Endpoints(edges) {
      FreqPositive(edges, w);
    }
  }

  /**
   * The node list built from the tally: the frequencies of the distinct words,
   * their extremes, and one sized node per word.
   */
  method BuildNodes(edges: seq<Edge>, freq: map<string, nat>) returns (nodes: seq<Node>)
    requires |edges| > 0
    requires forall w :: w in freq <==> w in Endpoints(edges)
    requires forall w :: w in freq ==> freq[w] == Freq(edges, w)
    ensures nodes == Nodes(edges)
  {
    var words := Distinct(Sources(edges) + Targets(edges));
    assert words == UniqueWords(edges);
    forall i | 0 <= i < |words| ensures words[i] in freq && freq[words[i]] == Freq(edges, words[i]) {
      assert words[i] in Endpoints(edges);
    }
    var freqs := seq(|words|, i requires 0 <= i < |words| => freq[words[i]] as real);
    assert freqs == NodeFrequencies(edges);
    var minFreq, maxFreq := MinOf(freqs), MaxOf(freqs);
    nodes := seq(|words|, i requires 0 <= i < |words| => NodeFor(words[i], freq[words[i]], minFreq, maxFreq));
  }

  /** The link list: the weight extremes, the node map, and one thickened link per edge. */
  method BuildLinks(edges: seq<Edge>, nodes: seq<Node>) returns (links: seq<Link>)
    requires |edges| > 0 && nodes == Nodes(edges)
    ensures links == Links(edges)
  {
    var weights := seq(|edges|, k requires 0 <= k < |edges| => edges[k].weight);
    assert weights == Weights(edges);
    var minWeight, maxWeight := MinOf(weights), MaxOf(weights);
    var nodeMap := NodeMap(nodes);
    links := seq(|edges|, k requires 0 <= k < |edges| => LinkFor(edges[k], nodeMap, minWeight, maxWeight));
  }

  /**
   * The whole derivation in the order the component computes it: the early return, the tally,
   * then the node and link lists built from it.
   */
  method BuildGraph(data: Option<seq<Edge>>) returns (g: Graph)
    ensures g == GraphOf(data)
  {
    if data.None? || |data.value| == 0 {
      return Graph([], []);
    }
    var edges := data.value;
    var freq := TallyFrequencies(edges);
    var nodes := BuildNodes(edges, freq);
    var links := BuildLinks(edges, nodes);
    g := Graph(nodes, links);
  }
}
