/** Record content to tokens and IOB tags, with a caller-supplied tokenizer. */
module Decoder {
  import opened Texts
  import opened Iob
  import opened Content
  import Tokenizer

  /** Parallel token and tag sequences. */
  datatype Decoded = Decoded(tokens: seq<string>, tags: seq<Tag>)

  /** Two decodings one after the other. */
  function Join(a: Decoded, b: Decoded): Decoded
  {
    Decoded(a.tokens + b.tokens, a.tags + b.tags)
  }

  lemma JoinAssoc(a: Decoded, b: Decoded, c: Decoded)
    ensures Join(a, Join(b, c)) == Join(Join(a, b), c)
  {
    assert a.tokens + (b.tokens + c.tokens) == (a.tokens + b.tokens) + c.tokens;
    assert a.tags + (b.tags + c.tags) == (a.tags + b.tags) + c.tags;
  }

  /** A tokenizer that drops and duplicates nothing: its tokens join back to its input. */
  ghost predicate Lossless(tokenize: string -> seq<string>)
  {
    forall s :: Concat(tokenize(s)) == s
  }

  /** One direct child of a record. A text run is tokenized and tagged `O`; a span's full
      inner text, decoration included, is tokenized as one string and tagged `B(l) I(l)*`. */
  function DecodeNode(n: Node, tokenize: string -> seq<string>): (d: Decoded)
    requires !n.Deco?
    ensures |d.tokens| == |d.tags| && WellFormed(d.tags)
    ensures |d.tags| > 0 ==> !d.tags[0].I?
  {
    match n
    case Text(t) =>
      var ts := tokenize(t);
      Decoded(ts, Outside(|ts|))
    case Span(l, b) =>
      var ts := tokenize(Render(b));
      Decoded(ts, SpanTags(l, |ts|))
  }

  /** Decodes a record's children in document order. */
  function Decode(c: seq<Node>, tokenize: string -> seq<string>): (d: Decoded)
    requires IsRecordContent(c)
    ensures |d.tokens| == |d.tags|
    ensures WellFormed(d.tags)
    ensures |d.tags| > 0 ==> !d.tags[0].I?
  {
    if |c| == 0 then Decoded([], [])
    else
      var head := DecodeNode(c[0], tokenize);
      var rest := Decode(c[1..], tokenize);
      WellFormedAppend(head.tags, rest.tags);
      Join(head, rest)
  }

  /** Decoding distributes over concatenation of record content. */
  lemma {:induction false} DecodeAppend(a: seq<Node>, b: seq<Node>, tokenize: string -> seq<string>)
    requires IsRecordContent(a) && IsRecordContent(b)
    ensures IsRecordContent(a + b)
    ensures Decode(a + b, tokenize) == Join(Decode(a, tokenize), Decode(b, tokenize))
    decreases |a|
  {
    RecordContentAppend(a, b);
    if |a| == 0 {
      assert a + b == b;
    } else {
      var head := DecodeNode(a[0], tokenize);
      assert (a + b)[0] == a[0];
      assert (a + b)[1..] == a[1..] + b;
      assert Decode(a + b, tokenize) == Join(head, Decode(a[1..] + b, tokenize));
      assert Decode(a, tokenize) == Join(head, Decode(a[1..], tokenize));
      DecodeAppend(a[1..], b, tokenize);
      var x, y := Decode(a[1..], tokenize), Decode(b, tokenize);
      JoinAssoc(head, x, y);
    }
  }

  /** A single child decodes on its own. */
  lemma DecodeSingle(n: Node, tokenize: string -> seq<string>)
    requires !n.Deco?
    ensures IsRecordContent([n])
    ensures Decode([n], tokenize) == DecodeNode(n, tokenize)
  {
    var d := DecodeNode(n, tokenize);
    assert Decode([n], tokenize) == Join(d, Decode([], tokenize));
    assert d.tokens + [] == d.tokens && d.tags + [] == d.tags;
  }

  /** With a lossless tokenizer the decoded tokens join back to the record's rendered text. */
  lemma {:induction false} DecodeLossless(c: seq<Node>, tokenize: string -> seq<string>)
    requires IsRecordContent(c) && Lossless(tokenize)
    ensures Concat(Decode(c, tokenize).tokens) == Render(c)
    decreases |c|
  {
    if |c| > 0 {
      var head := DecodeNode(c[0], tokenize);
      DecodeLossless(c[1..], tokenize);
      ConcatAppend(head.tokens, Decode(c[1..], tokenize).tokens);
      match c[0]
      case Text(t) => assert Concat(tokenize(t)) == t;
      case Span(l, b) => assert Concat(tokenize(Render(b))) == Render(b);
    }
  }

  /** Decoration inside a span does not change how the span decodes: only the span's full
      inner text matters, as if it were one text run. With a lossless tokenizer and a span
      with text, the tokens join back to that text and carry exactly one `B` tag. */
  lemma DecodeSpan(l: string, body: seq<Node>, tokenize: string -> seq<string>)
    ensures Decode([Span(l, body)], tokenize) == Decode([Span(l, [Text(Render(body))])], tokenize)
    ensures Lossless(tokenize) && Render(body) != "" ==>
      var d := Decode([Span(l, body)], tokenize);
      Concat(d.tokens) == Render(body) && CountBegins(d.tags) == 1
  {
    var t := Render(body);
    assert Render([Text(t)]) == t by {
      assert [Text(t)][1..] == [];
    }
    DecodeSingle(Span(l, body), tokenize);
    DecodeSingle(Span(l, [Text(t)]), tokenize);
    SpanTagsHaveOneBegin(l, |tokenize(t)|);
    if Lossless(tokenize) && t != "" {
      assert Concat(tokenize(t)) == t;
    }
  }

  /** A top-level text run carries no span: with a lossless tokenizer its tokens join back to
      the text and no tag begins a span. */
  lemma DecodeText(t: string, tokenize: string -> seq<string>)
    ensures var d := Decode([Text(t)], tokenize);
      (forall k :: 0 <= k < |d.tags| ==> d.tags[k] == O) && CountBegins(d.tags) == 0 &&
      (Lossless(tokenize) ==> Concat(d.tokens) == t)
  {
    DecodeSingle(Text(t), tokenize);
    OutsideHasNoBegins(|tokenize(t)|);
    if Lossless(tokenize) {
      assert Concat(tokenize(t)) == t;
    }
  }

  /** The number of spans among `c` whose text is not empty. */
  function CountSpans(c: seq<Node>): nat
  {
    if |c| == 0 then 0
    else (if c[0].Span? && Render(c[0].body) != "" then 1 else 0) + CountSpans(c[1..])
  }

  /** Under a lossless tokenizer that emits no empty token, every span with text yields exactly one `B` tag, and
      nothing else does. */
  lemma {:induction false} DecodeCountsSpans(c: seq<Node>, tokenize: string -> seq<string>)
    requires IsRecordContent(c) && Lossless(tokenize) && NoEmptyTokens(tokenize)
    ensures CountBegins(Decode(c, tokenize).tags) == CountSpans(c)
    decreases |c|
  {
    if |c| > 0 {
      var head := DecodeNode(c[0], tokenize);
      DecodeCountsSpans(c[1..], tokenize);
      CountBeginsAppend(head.tags, Decode(c[1..], tokenize).tags);
      match c[0]
      case Text(t) => OutsideHasNoBegins(|tokenize(t)|);
      case Span(l, b) =>
        var n := |tokenize(Render(b))|;
        var ts := tokenize(Render(b));
        assert Concat(ts) == Render(b);
        if n > 0 {
          assert ts[0] != "" && Concat(ts) == ts[0] + Concat(ts[1..]);
        }
        SpanTagsHaveOneBegin(l, n);
    }
  }

  lemma {:induction false} OutsideHasNoBegins(n: nat)
    ensures CountBegins(Outside(n)) == 0
  {
    if n > 0 {
      assert Outside(n)[1..] == Outside(n - 1);
      OutsideHasNoBegins(n - 1);
    }
  }

  lemma {:induction false} ContinuingHasNoBegins(l: string, n: nat)
    ensures CountBegins(Continuing(l, n)) == 0
  {
    if n > 0 {
      assert Continuing(l, n)[1..] == Continuing(l, n - 1);
      ContinuingHasNoBegins(l, n - 1);
    }
  }

  lemma SpanTagsHaveOneBegin(l: string, n: nat)
    ensures CountBegins(SpanTags(l, n)) == if n == 0 then 0 else 1
  {
    if n > 0 {
      assert SpanTags(l, n)[1..] == Continuing(l, n - 1);
      ContinuingHasNoBegins(l, n - 1);
    }
  }

  /** A tokenizer that never emits an empty token. */
  ghost predicate NoEmptyTokens(tokenize: string -> seq<string>)
  {
    forall s, k :: 0 <= k < |tokenize(s)| ==> tokenize(s)[k] != ""
  }

  /** The reference tokenizer meets both assumptions: it is lossless and emits no empty token. */
  lemma ReferenceTokenizerLossless()
    ensures Lossless(Tokenizer.Tokenize)
    ensures NoEmptyTokens(Tokenizer.Tokenize)
  {
  }
}
