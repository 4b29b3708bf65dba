# spider.eddit-ui graph derivation, in Dafny

The spider-web view of spider.eddit-ui receives a word co-occurrence edge list
`{source, target, weight}` from a crawler. It turns that list into the nodes and
links that a force layout draws. This project models that derivation and proves
what it promises. The derivation is the memoised computation inside the
`SpiderWebGraph` component. It has five steps:

1. Count how often each word is an edge endpoint.
2. Collect the distinct words in first-seen order.
3. Rescale each frequency linearly into a node size in [10, 50].
4. Rescale each weight linearly into a link thickness in [1, 10].
5. Resolve each edge's endpoints to nodes through a map.

Files and modules:

- `wrappers.dfy` (`Wrappers`): `Option`. An absent entry stands for JavaScript's `undefined`.
- `scaling.dfy` (`Scaling`): `Math.min`/`Math.max` of a non-empty list, and the normalise-and-rescale step. It includes the fallback to normalised value 1 when the range is degenerate.
- `words.dfy` (`Words`): occurrence counts, first occurrence, and `Distinct`. `Distinct` is the insertion-ordered `Array.from(new Set(...))`.
- `graph.dfy` (`SpiderWebGraph`): the entities `Edge`, `Node`, `Link` and `Graph`, and the pure specification `Derive`/`GraphOf`. It also holds the imperative part: `TallyFrequencies` is the frequency-counting loop over a map. `BuildGraph` is the whole computation in the order the source performs it, with its node and link steps in `BuildNodes` and `BuildLinks`, and is proved equal to `GraphOf`; the two steps are proof steps of `BuildGraph`, not separate promises.
- `graph_properties.dfy` (`GraphProperties`): the properties of the derived graph.
- `graph_examples.dfy` (`GraphExamples`): the derivation of a single edge, worked out.
- `plain_object_tally.dfy` (`PlainObjectTally`): the tally as written on a JavaScript object literal. See the findings below.

Modelling choices:

- Numbers are exact `real`s.
- Frequencies are `nat`.
- A link's endpoints are positions in the node list. In the source they are references to the node objects.
- The endpoints have type `Option<nat>`. The source's `nodeMap.get(...)!` is only a type assertion: a missed lookup would give `undefined` without any error. The model keeps that possibility and proves it never happens.
- The minimum and maximum frequency are taken over the node frequencies in node order. The source takes them over `Object.values(wordFrequency)`, which holds the same numbers in key order (for the corrected tally; see ## Findings). The order does not affect a minimum or maximum.

## Model

| member | source | states |
|---|---|---|
| `Scaling.MinOf` | src/components/SpiderWebGraph.tsx:56-57 | the result is an element of the list and no element is smaller |
| `Scaling.MaxOf` | src/components/SpiderWebGraph.tsx:58 | the result is an element of the list and no element is larger |
| `Scaling.Normalize` | src/components/SpiderWebGraph.tsx:64 | a value in [lo, hi] maps into [0, 1]; the degenerate range gives 1; otherwise lo gives 0 and hi gives 1 |
| `Scaling.Rescale` | src/components/SpiderWebGraph.tsx:64-65 | a value in [lo, hi] maps into [base, base + span]; the degenerate range gives the top of the span; otherwise lo and hi give the two ends |
| `Scaling.ScaleFraction` | src/components/SpiderWebGraph.tsx:65 | a fraction in [0, 1] of a non-negative span stays within the span |
| `Scaling.RescaleMonotone` | src/components/SpiderWebGraph.tsx:85-86 | on a proper range the rescaling preserves order, strictly for a positive span |
| `Scaling.RescaleAffine` | src/components/SpiderWebGraph.tsx:85-86 | output differences are proportional to input differences (the map is affine) |
| `Words.CountPositive` | src/components/SpiderWebGraph.tsx:44-47 | a word occurs a positive number of times exactly when it is in the list |
| `Words.FirstIndex` | src/components/SpiderWebGraph.tsx:50-53 | the position of the first occurrence of a word: it holds the word and no earlier position does |
| `Words.FirstIndexOfPrefix` | src/components/SpiderWebGraph.tsx:50-53 | extending a list at the end does not move the first occurrence of a word already present |
| `Words.Distinct` | src/components/SpiderWebGraph.tsx:50-53 | same words as the input, no duplicates, no longer than the input |
| `Words.DistinctInFirstSeenOrder` | src/components/SpiderWebGraph.tsx:50-53 | the distinct words are listed in the order of their first occurrence |
| `SpiderWebGraph.Freq` | src/components/SpiderWebGraph.tsx:44-47 | a word's tally is at most two per edge; `FreqCountsEndpoints` and `FreqPositive` state what it counts |
| `SpiderWebGraph.UniqueWords` | src/components/SpiderWebGraph.tsx:50-53 | a non-empty edge list has at least one distinct word |
| `SpiderWebGraph.NodeFor` | src/components/SpiderWebGraph.tsx:61-72 | the node carries its word and frequency unchanged; a frequency within the range gets a size in [10, 50]; a degenerate range gives size 50 |
| `SpiderWebGraph.Nodes` | src/components/SpiderWebGraph.tsx:61-72 | one node per distinct word, in first-seen order, each with its word's endpoint count as frequency; sizes are stated by `SizeBounds` and `SizeOrder` |
| `SpiderWebGraph.NodeMap` | src/components/SpiderWebGraph.tsx:80 | an id is a key exactly when some node has that id, and its entry is the position of a node with that id |
| `SpiderWebGraph.LookupNodeMap` | src/components/SpiderWebGraph.tsx:80-90 | `nodeMap.get(word)` hits exactly when some node has that id, and then gives the position of a node with that id |
| `SpiderWebGraph.LinkFor` | src/components/SpiderWebGraph.tsx:83-94 | each end resolves exactly when its word is in the node map; the weight is copied; a weight within the range gets a thickness in [1, 10]; a degenerate range gives thickness 10 |
| `SpiderWebGraph.Links` | src/components/SpiderWebGraph.tsx:83-94 | one link per edge, in edge order, with the edge's weight; thickness and resolution are stated by `ThicknessBounds`, `ThicknessOrder` and `LinksResolve` |
| `SpiderWebGraph.Derive` | src/components/SpiderWebGraph.tsx:36-97 | one link per edge; the node list is empty exactly when the edge list is |
| `SpiderWebGraph.GraphOf` | src/components/SpiderWebGraph.tsx:37-39 | nodes and links are empty exactly when the edge list is missing or empty |
| `SpiderWebGraph.FreqCountsEndpoints` | src/components/SpiderWebGraph.tsx:44-47 | a word's tally is its number of occurrences among the sources plus among the targets |
| `SpiderWebGraph.FreqPositive` | src/components/SpiderWebGraph.tsx:44-47 | a word's tally is positive exactly when it is some edge's source or target |
| `SpiderWebGraph.TallyFrequencies` | src/components/SpiderWebGraph.tsx:42-47 | the loop's map, bumped through `(freq[w] \|\| 0) + 1` (`Get`), has exactly the endpoint words as keys, each mapped to its endpoint count (for the corrected tally; see ## Findings) |
| `SpiderWebGraph.BuildGraph` | src/components/SpiderWebGraph.tsx:36-97 | the computation step by step yields exactly `GraphOf` of the input (for the corrected tally; see ## Findings): the early return, the tally loop `TallyFrequencies`, then its node step `BuildNodes` (lines 49-72, reading each frequency from the tally) and its link step `BuildLinks` (lines 74-94) |
| `GraphProperties.NodeIds` | src/components/SpiderWebGraph.tsx:50-61 | the node ids are exactly the words that are some edge's source or target, with no duplicates, in first-seen order over all sources then all targets |
| `GraphProperties.NodeFrequencyCountsEndpoints` | src/components/SpiderWebGraph.tsx:44-62 | each node's frequency is the number of source and target occurrences of its word, hence at least 1 |
| `GraphProperties.SelfLoopCountsTwice` | src/components/SpiderWebGraph.tsx:45-46 | an edge from a word to itself adds 2 to that word's frequency |
| `GraphProperties.SizeIsRescaled` | src/components/SpiderWebGraph.tsx:62-65 | a node's size is its frequency rescaled onto [10, 50] between the least and greatest frequency |
| `GraphProperties.FrequencyRange` | src/components/SpiderWebGraph.tsx:56-58 | every node frequency lies between the least and greatest frequency, and both are some node's frequency |
| `GraphProperties.SizeBounds` | src/components/SpiderWebGraph.tsx:57-65 | every size is in [10, 50]; if all frequencies are equal every size is 50 |
| `GraphProperties.DerivedNodesSized` | src/components/SpiderWebGraph.tsx:56-65 | every derived node is sized by the same rescaling between the least and greatest frequency |
| `GraphProperties.SizedNodesOrder` | src/components/SpiderWebGraph.tsx:64-65 | for nodes sized so: size is monotone in frequency, strictly so; if frequencies differ, least-frequent nodes get 10 and most-frequent nodes get 50 |
| `GraphProperties.SizeOrder` | src/components/SpiderWebGraph.tsx:64-65 | for the derived nodes: size is monotone in frequency, strictly so; if frequencies differ, least-frequent nodes get 10 and most-frequent nodes get 50 |
| `GraphProperties.SizedNodesAffine` | src/components/SpiderWebGraph.tsx:64-65 | size differences are proportional to frequency differences (size is affine in frequency) |
| `GraphProperties.LinksFollowEdges` | src/components/SpiderWebGraph.tsx:83-94 | exactly one link per edge, in edge order, with the edge's weight unchanged (duplicates kept) |
| `GraphProperties.WeightRange` | src/components/SpiderWebGraph.tsx:75-86 | every weight lies between the least and greatest weight, both attained, and the thickness is the rescaled weight |
| `GraphProperties.ThicknessBounds` | src/components/SpiderWebGraph.tsx:75-86 | every thickness is in [1, 10]; if all weights are equal every thickness is 10 |
| `GraphProperties.ThicknessOrder` | src/components/SpiderWebGraph.tsx:85-86 | thickness is monotone in weight, strictly so; if weights differ, the lightest edges get 1 and the heaviest 10 |
| `GraphProperties.ThickLinksOrder` | src/components/SpiderWebGraph.tsx:85-86 | for links thickened so between the least and greatest weight: thickness is monotone in weight, strictly so; if weights differ, the lightest edges get 1 and the heaviest 10 |
| `GraphProperties.DerivedLinksThick` | src/components/SpiderWebGraph.tsx:75-86 | every derived link's thickness is the same rescaling of its weight between the least and greatest weight |
| `GraphProperties.ThickLinksAffine` | src/components/SpiderWebGraph.tsx:85-86 | thickness differences are proportional to weight differences (thickness is affine in weight) |
| `GraphProperties.NodeMapFindsEach` | src/components/SpiderWebGraph.tsx:80 | with distinct ids, the map sends each node's id to that node's own position |
| `GraphProperties.LinksResolve` | src/components/SpiderWebGraph.tsx:80-90 | both endpoint lookups of every link succeed, and each gives the one node whose id is the edge's source (respectively target) |
| `GraphExamples.SingleEdgeNodes` | src/components/SpiderWebGraph.tsx:50-72 | the edge x-y yields the nodes x and y, each of frequency 1 and size 50 |
| `GraphExamples.SingleEdgeLinks` | src/components/SpiderWebGraph.tsx:75-94 | the edge x-y of weight 5 yields one link from node 0 to node 1 with weight 5 and thickness 10 |
| `GraphExamples.SingleEdge` | src/components/SpiderWebGraph.tsx:36-97 | the edge x-y of weight 5 yields two nodes of frequency 1 and size 50, and one link of thickness 10 |
| `PlainObjectTally.Increment` | src/components/SpiderWebGraph.tsx:45-46 | for any key but "__proto__", the key gets the bumped value of its read and is added to the own keys; for "__proto__" the inherited setter ignores the string and no own key appears; every other own entry is unchanged |
| `PlainObjectTally.TallyAsWritten` | src/components/SpiderWebGraph.tsx:42-47 | the object's own keys are exactly the words with a positive endpoint count other than "__proto__"; what their entries read as is stated by `TallyAsWrittenReads` |
| `PlainObjectTally.TallyAsWrittenReads` | src/components/SpiderWebGraph.tsx:42-47 | on an object literal, read as `obj[key]` (`Read`) after every `(v \|\| 0) + 1` (`Bump`): an ordinary word reads as its endpoint count, or `undefined` when it never occurs, but a name inherited from `Object.prototype` always reads as a non-number |
| `PlainObjectTally.ConstructorIsMiscounted` | src/components/SpiderWebGraph.tsx:42-47 | one edge from "constructor": its endpoint count is 1, but its tally entry is not a number |
| `PlainObjectTally.ProtoIsNeverStored` | src/components/SpiderWebGraph.tsx:42-47 | one edge from "__proto__": its endpoint count is 1, but the object gets no own key for it, so `Object.values` at line 56 never sees it |

## Left out

- The rendering effect (src/components/SpiderWebGraph.tsx:99-211) is left out. It covers the d3 force simulation, zoom, node dragging, SVG creation and the tick updates. These are calls into a foreign library plus floating-point physics.
- The JSX markup and the styling constants are left out. They are presentation only.
- src/App.tsx is left out. It holds the form state, URL validation and the `fetch` POST to the crawler, all of which are UI state and network I/O. The crawler itself is not part of this repository.
- `useMemo` memoisation is left out. The derivation is modelled as the pure function it caches.
- JavaScript number semantics are not modelled: rounding, NaN and infinite weights, and the `RangeError` that `Math.min(...)`/`Math.max(...)` raise on a very long spread. Arithmetic is exact `real`.
- The response body is untyped. Only a missing `edges` field is modelled (`None`). A present but non-list `edges` value is not.
- Links refer to nodes by position, not by object reference, so aliasing between a link and the node list is not modelled.
- PlainObjectTally.TallyAsWrittenReads: the as-written tally does not tell the inherited values apart. An inherited function, the concatenated string, and `Object.prototype` read through the ignored `__proto__` assignment are all `NonNumeric`. The NaN sizes that then follow are not modelled.

## Findings

| source | as written | input that shows it | evidently intended | confidence | as-written member | corrected member |
|---|---|---|---|---|---|---|
| src/components/SpiderWebGraph.tsx:42-47 | the counters live in an object literal `{}`; for a word that names an inherited member, `wordFrequency[word] \|\| 0` is that inherited function, and `+ 1` concatenates a string | one edge whose source is the word "constructor" (or "toString", "valueOf", ...) | the word's frequency is its endpoint count, 1 here (a `Map` or `Object.create(null)` tally) | not executed | `PlainObjectTally.ConstructorIsMiscounted` | `SpiderWebGraph.TallyFrequencies` |
| src/components/SpiderWebGraph.tsx:42-47 | assigning `wordFrequency["__proto__"]` goes to the setter the object literal inherits, which ignores the string `(Object.prototype \|\| 0) + 1`, so the word never gets an own entry and `Object.values` at line 56 leaves it out | one edge whose source is the word "__proto__" | the word's frequency is its endpoint count, 1 here | not executed | `PlainObjectTally.ProtoIsNeverStored` | `SpiderWebGraph.TallyFrequencies` |
