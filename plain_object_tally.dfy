/**
 * The frequency tally as written: the counters live in an object literal `{}`,
 * which inherits the members of `Object.prototype`. Reading the counter of a
 * word such as "constructor" or "toString" yields an inherited function, and
 * `(fn || 0) + 1` is string concatenation, so such a word never gets a numeric
 * frequency. `SpiderWebGraph.TallyFrequencies` is the corrected tally (a map
 * with no inherited entries) that the rest of the model uses.
 */
module PlainObjectTally {
  import opened SpiderWebGraph

  /** What reading a tally entry can give: nothing yet, a count, or something that is not a number. */
  datatype JsValue = Undefined | Num(n: nat) | NonNumeric

  /** The property names every object literal inherits from `Object.prototype`. */
  const InheritedNames: set<string> := {
    "constructor", "hasOwnProperty", "isPrototypeOf", "propertyIsEnumerable",
    "toLocaleString", "toString", "valueOf", "__proto__",
    "__defineGetter__", "__defineSetter__", "__lookupGetter__", "__lookupSetter__"
  }

  /** `obj[key]` on an object literal whose own properties are `own`. */
  function Read(own: map<string, JsValue>, key: string): JsValue
  {
    if key in own then own[key]
    else if key in InheritedNames then NonNumeric
    else Undefined
  }

  /** `(v || 0) + 1`: a missing or numeric entry is counted up; anything else is concatenated with "1". */
  function Bump(v: JsValue): JsValue
  {
    match v
    case Undefined => Num(1)
    case Num(n) => Num(n + 1)
    case NonNumeric => NonNumeric
  }

  /**
   * `obj[key] = (obj[key] || 0) + 1`. Assigning to "__proto__" goes to the
   * inherited `__proto__` setter, which ignores the string it is given, so the
   * object is left as it was.
   */
  function Increment(own: map<string, JsValue>, key: string): (r: map<string, JsValue>)
    ensures r.Keys == if key == "__proto__" then own.Keys else own.Keys + {key}
    ensures key != "__proto__" ==> r[key] == Bump(Read(own, key))
    ensures forall k :: k in own && k != key ==> r[k] == own[k]
  {
    if key == "__proto__" then own else own[key := Bump(Read(own, key))]
  }

  /** The tally loop over the edges, source then target of each, on an object literal. */
  function TallyAsWritten(edges: seq<Edge>): (t: map<string, JsValue>)
    ensures forall w :: w in t <==> Freq(edges, w) > 0 && w != "__proto__"
  {
    if |edges| == 0 then map[]
    else
      var e := edges[|edges| - 1];
      Increment(Increment(TallyAsWritten(edges[..|edges| - 1]), e.source), e.target)
  }

  /**
   * The as-written tally counts an ordinary word correctly, but every inherited
   * name reads as a non-number however often it occurs.
   */
  lemma {:induction false} TallyAsWrittenReads(edges: seq<Edge>, w: string)
    ensures w !in InheritedNames ==>
      Read(TallyAsWritten(edges), w) == if Freq(edges, w) == 0 then Undefined else Num(Freq(edges, w))
    ensures w in InheritedNames ==> Read(TallyAsWritten(edges), w) == NonNumeric
  {
    if |edges| > 0 {
      TallyAsWrittenReads(edges[..|edges| - 1], w);
    }
  }

  /** One edge from "constructor": its frequency is 1, yet its tally entry is not a number. */
  lemma ConstructorIsMiscounted()
    ensures Freq([Edge("constructor", "web", 1.0)], "constructor") == 1
    ensures Read(TallyAsWritten([Edge("constructor", "web", 1.0)]), "constructor") == NonNumeric
  {
    var edges := [Edge("constructor", "web", 1.0)];
    assert edges[..0] == [];
    TallyAsWrittenReads(edges, "constructor");
  }

  /** One edge from "__proto__": its frequency is 1, yet the object gets no own key for it. */
  lemma ProtoIsNeverStored()
    ensures Freq([Edge("__proto__", "web", 1.0)], "__proto__") == 1
    ensures "__proto__" !in TallyAsWritten([Edge("__proto__", "web", 1.0)])
    ensures Read(TallyAsWritten([Edge("__proto__", "web", 1.0)]), "__proto__") == NonNumeric
  {
    var edges := [Edge("__proto__", "web", 1.0)];
    assert edges[..0] == [];
    TallyAsWrittenReads(edges, "__proto__");
  }
}
