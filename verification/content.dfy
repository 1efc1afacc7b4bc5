/** Record content: plain text runs, labelled spans and decoration elements, in document order. */
module Content {

  /** One child of a record or of an element inside it.
      `Span` is the labelled element (`s` with attribute `l`); `Deco` is any other markup
      (`i`, `div`, `p`, ...), whose text counts but which carries no label. */
  datatype Node = Text(text: string) | Span(name: string, body: seq<Node>) | Deco(name: string, body: seq<Node>)

  /** A record's direct children are text runs and spans: decoration occurs only inside spans. */
  predicate IsRecordContent(c: seq<Node>)
  {
    forall k :: 0 <= k < |c| ==> !c[k].Deco?
  }

  lemma RecordContentAppend(a: seq<Node>, b: seq<Node>)
    requires IsRecordContent(a) && IsRecordContent(b)
    ensures IsRecordContent(a + b)
  {
    assert forall k :: 0 <= k < |a + b| ==> (a + b)[k] == if k < |a| then a[k] else b[k - |a|];
  }

  /** No two text runs are adjacent: a parsed record holds one text run between elements. */
  predicate TextsMerged(c: seq<Node>)
  {
    forall k :: 0 <= k < |c| - 1 ==> !(c[k].Text? && c[k + 1].Text?)
  }

  /** Appending a node keeps text runs merged unless two text runs meet. */
  lemma TextsMergedSnoc(c: seq<Node>, n: Node)
    requires TextsMerged(c)
    requires n.Text? && |c| > 0 ==> !c[|c| - 1].Text?
    ensures TextsMerged(c + [n])
  {
    forall k | 0 <= k < |c + [n]| - 1 ensures !((c + [n])[k].Text? && (c + [n])[k + 1].Text?) {
      if k + 1 < |c| {
        assert (c + [n])[k] == c[k] && (c + [n])[k + 1] == c[k + 1];
      }
    }
  }

  /** The rendered text of `ns`: all text at any depth, in document order. */
  function Render(ns: seq<Node>): string
    decreases ns
  {
    if |ns| == 0 then ""
    else
      match ns[0]
      case Text(t) => t + Render(ns[1..])
      case Span(_, b) => Render(b) + Render(ns[1..])
      case Deco(_, b) => Render(b) + Render(ns[1..])
  }

  /** Rendering distributes over append. */
  lemma {:induction false} RenderAppend(a: seq<Node>, b: seq<Node>)
    ensures Render(a + b) == Render(a) + Render(b)
    decreases a
  {
    if |a| == 0 {
      assert a + b == b;
    } else {
      assert (a + b)[0] == a[0];
      assert (a + b)[1..] == a[1..] + b;
      RenderAppend(a[1..], b);
    }
  }
}
