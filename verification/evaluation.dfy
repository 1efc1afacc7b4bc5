/** Span-level agreement between a gold document and a test document. */
module Evaluation {
  import opened Results
  import opened Content
  import opened SpanSet

  /** The namespace of the document and record elements. */
  const BrsNamespace: string := "http://innodatalabs.com/brs"

  /** An element name qualified by its namespace (empty for none). */
  datatype QName = QName(namespace: string, local: string)

  const DocumentTag: QName := QName(BrsNamespace, "b")
  const RecordTag: QName := QName(BrsNamespace, "r")

  /** A child of the root element, with its own content. */
  datatype Element = Element(tag: QName, content: seq<Node>)

  /** What a caller can pass: a parsed element tree (root tag and children) or any other value. */
  datatype Argument = Tree(tag: QName, children: seq<Element>) | OtherValue

  /** The errors `evaluate` raises: a wrong kind of argument, or trees it cannot compare. */
  datatype Error = TypeError | ValueError

  /** The aggregate counts. */
  datatype Counts = Counts(goldTagCount: nat, tp: nat, fp: nat, fn: nat)

  /** A document: the document root element, whose children are all records. */
  predicate IsDocument(a: Argument)
  {
    a.Tree? && a.tag == DocumentTag && forall k :: 0 <= k < |a.children| ==> a.children[k].tag == RecordTag
  }

  /** The span set of a record element. */
  function SpanSetOf(r: Element): set<Triple>
  {
    RecordToSet(Events(r.content))
  }

  /** The counts of one pair of records, by exact triple equality. */
  function PairCounts(gold: set<Triple>, test: set<Triple>): (r: Counts)
    ensures r.tp + r.fn == r.goldTagCount == |gold|
    ensures r.tp + r.fp == |test|
    ensures r.fn == 0 <==> gold <= test
    ensures r.fp == 0 <==> test <= gold
    ensures r.tp + |gold + test| == |gold| + |test|
    ensures gold == test ==> r.fp == 0 && r.fn == 0
  {
    CardSplit(gold, test);
    CardSplit(test, gold);
    UnionSplit(gold, test);
    assert test * gold == gold * test;
    EmptyDifference(gold, test);
    EmptyDifference(test, gold);
    Counts(|gold|, |gold * test|, |test - gold|, |gold - test|)
  }

  /** A set splits into the part inside another set and the part outside it. */
  lemma CardSplit(a: set<Triple>, b: set<Triple>)
    ensures |a * b| + |a - b| == |a|
  {
    assert a == (a * b) + (a - b);
    assert (a * b) * (a - b) == {};
  }

  /** A union is the first set plus what the second adds to it. */
  lemma UnionSplit(a: set<Triple>, b: set<Triple>)
    ensures |a + b| == |a| + |b - a|
  {
    assert a + b == a + (b - a);
    assert a * (b - a) == {};
  }

  /** A difference is empty exactly when the first set lies inside the second. */
  lemma EmptyDifference(a: set<Triple>, b: set<Triple>)
    ensures |a - b| == 0 <==> a <= b
  {
    if a <= b {
      assert a - b == {};
    } else {
      var x :| x in a && x !in b;
      assert x in a - b;
    }
  }

  /** Every gold record's spans occur, exactly, among its paired test record's spans. */
  predicate Covered(gold: seq<Element>, test: seq<Element>)
    requires |gold| == |test|
  {
    forall i :: 0 <= i < |gold| ==> SpanSetOf(gold[i]) <= SpanSetOf(test[i])
  }

  /** Coverage holds for the first pair and for the rest. */
  lemma CoveredCons(gold: seq<Element>, test: seq<Element>)
    requires |gold| == |test| > 0
    ensures Covered(gold, test) <==>
      SpanSetOf(gold[0]) <= SpanSetOf(test[0]) && Covered(gold[1..], test[1..])
  {
    if SpanSetOf(gold[0]) <= SpanSetOf(test[0]) && Covered(gold[1..], test[1..]) {
      forall i | 0 <= i < |gold| ensures SpanSetOf(gold[i]) <= SpanSetOf(test[i]) {
        if i > 0 { assert gold[i] == gold[1..][i - 1] && test[i] == test[1..][i - 1]; }
      }
    }
  }

  /** The sum of two counts. */
  function Add(x: Counts, y: Counts): Counts
  {
    Counts(x.goldTagCount + y.goldTagCount, x.tp + y.tp, x.fp + y.fp, x.fn + y.fn)
  }

  /** The number of spans in `records`. */
  function TagCount(records: seq<Element>): nat
  {
    if |records| == 0 then 0 else |SpanSetOf(records[0])| + TagCount(records[1..])
  }

  /** The number of distinct spans in each pair of records, gold and test together, summed. */
  function UnionCount(gold: seq<Element>, test: seq<Element>): nat
    requires |gold| == |test|
  {
    if |gold| == 0 then 0
    else |SpanSetOf(gold[0]) + SpanSetOf(test[0])| + UnionCount(gold[1..], test[1..])
  }

  /** The counts summed over records paired by position. */
  function Score(gold: seq<Element>, test: seq<Element>): (r: Counts)
    requires |gold| == |test|
    ensures r.goldTagCount == TagCount(gold)
    ensures r.tp + r.fn == r.goldTagCount
    ensures r.tp + r.fp == TagCount(test)
    ensures r.fn == 0 <==> Covered(gold, test)
    ensures r.fp == 0 <==> Covered(test, gold)
    ensures r.tp + UnionCount(gold, test) == TagCount(gold) + TagCount(test)
    ensures gold == test ==> r.fp == 0 && r.fn == 0 && r.tp == r.goldTagCount
  {
    if |gold| == 0 then Counts(0, 0, 0, 0)
    else
      CoveredCons(gold, test);
      CoveredCons(test, gold);
      Add(PairCounts(SpanSetOf(gold[0]), SpanSetOf(test[0])), Score(gold[1..], test[1..]))
  }

  /** Scores `test` against `gold`. A non-tree argument is a type error; a tree that is not
      a document, or documents with different numbers of records, are a value error;
      all are raised before any scoring. */
  function Evaluate(gold: Argument, test: Argument): (r: Result<Counts, Error>)
    ensures r == Failure(TypeError) <==> !gold.Tree? || !test.Tree?
    ensures r == Failure(ValueError) <==>
      gold.Tree? && test.Tree? &&
      (!IsDocument(gold) || !IsDocument(test) || |gold.children| != |test.children|)
    ensures r.Success? ==>
      r.value.goldTagCount == TagCount(gold.children) &&
      r.value.tp + r.value.fn == r.value.goldTagCount &&
      r.value.tp + r.value.fp == TagCount(test.children) &&
      (r.value.fn == 0 <==> Covered(gold.children, test.children)) &&
      (r.value.fp == 0 <==> Covered(test.children, gold.children)) &&
      r.value.tp + UnionCount(gold.children, test.children) == TagCount(gold.children) + TagCount(test.children)
    ensures r.Success? && gold == test ==> r.value.fp == 0 && r.value.fn == 0 && r.value.tp == r.value.goldTagCount
  {
    if !gold.Tree? || !test.Tree? then Failure(TypeError)
    else if !IsDocument(gold) || !IsDocument(test) then Failure(ValueError)
    else if |gold.children| != |test.children| then Failure(ValueError)
    else Success(Score(gold.children, test.children))
  }

  /** A document compared with itself has no false positive and no false negative. */
  lemma EvaluateSelf(doc: Argument)
    requires IsDocument(doc)
    ensures Evaluate(doc, doc) == Success(Counts(TagCount(doc.children), TagCount(doc.children), 0, 0))
  {
  }
}
