/** Tokens and IOB tags to record content: the left-to-right scan that turns each run of
    `O` tokens into one plain text run and each `B(l) I(l)*` run into one span. */
module Encoder {
  import opened Texts
  import opened Iob
  import opened Content

  /** The run the scan is still accumulating: none yet, plain text, or a span's text. */
  datatype Pending = Nothing | PlainRun(text: string) | SpanRun(name: string, text: string)

  /** The content a finished run contributes. */
  function Flush(p: Pending): seq<Node>
  {
    match p
    case Nothing => []
    case PlainRun(t) => [Text(t)]
    case SpanRun(l, t) => [Span(l, [Text(t)])]
  }

  /** The text held by a pending run. */
  function PendingText(p: Pending): string
  {
    if p.Nothing? then "" else p.text
  }

  /** The pending run is the one the previous tag opened or continued. */
  predicate Follows(p: Pending, prev: Tag)
  {
    match prev
    case O => p.PlainRun?
    case B(l) => p.SpanRun? && p.name == l
    case I(l) => p.SpanRun? && p.name == l
  }

  /** The input the scan accepts: one tag per token, well-formed IOB. */
  predicate Encodable(tokens: seq<string>, tags: seq<Tag>)
  {
    |tokens| == |tags| && WellFormed(tags)
  }

  /** The scan's state between tokens: the content emitted so far and the open run. */
  datatype State = State(done: seq<Node>, pending: Pending)

  /** Consumes `token` tagged `tag`.
      `O` closes an open span and adds the token to the plain run; `B(l)` closes whatever is
      open and starts a span; `I(l)` extends the open span. */
  function Step(st: State, token: string, tag: Tag): (next: State)
    requires tag.I? ==> st.pending.SpanRun? && st.pending.name == tag.name
    ensures Follows(next.pending, tag)
    ensures IsRecordContent(st.done) ==> IsRecordContent(next.done)
  {
    assert IsRecordContent(st.done) ==> IsRecordContent(st.done + Flush(st.pending)) by {
      if IsRecordContent(st.done) { RecordContentAppend(st.done, Flush(st.pending)); }
    }
    match tag
    case O =>
      if st.pending.PlainRun? then State(st.done, PlainRun(st.pending.text + token))
      else State(st.done + Flush(st.pending), PlainRun(token))
    case B(l) => State(st.done + Flush(st.pending), SpanRun(l, token))
    case I(l) => State(st.done, SpanRun(l, st.pending.text + token))
  }

  /** Scans `tokens[i..]` from state `st`, then flushes the open run. */
  function Scan(tokens: seq<string>, tags: seq<Tag>, i: nat, st: State): (content: seq<Node>)
    requires Encodable(tokens, tags) && i <= |tokens|
    requires i == 0 ==> st.pending.Nothing?
    requires 0 < i ==> Follows(st.pending, tags[i - 1])
    requires IsRecordContent(st.done)
    ensures IsRecordContent(content)
    decreases |tokens| - i
  {
    if i == |tokens| then
      assert IsRecordContent(Flush(st.pending));
      RecordContentAppend(st.done, Flush(st.pending));
      st.done + Flush(st.pending)
    else Scan(tokens, tags, i + 1, Step(st, tokens[i], tags[i]))
  }

  /** The record content for `tokens` tagged with `tags`. */
  function Encode(tokens: seq<string>, tags: seq<Tag>): (content: seq<Node>)
    requires Encodable(tokens, tags)
    ensures IsRecordContent(content)
  {
    Scan(tokens, tags, 0, State([], Nothing))
  }

  /** A flushed run renders to the text it held. */
  lemma FlushRender(p: Pending)
    ensures Render(Flush(p)) == PendingText(p)
  {
    match p
    case Nothing =>
    case PlainRun(t) => assert Render([Text(t)]) == t + Render([]);
    case SpanRun(l, t) =>
      assert Render([Text(t)]) == t + Render([]);
      assert Render([Span(l, [Text(t)])]) == Render([Text(t)]) + Render([]);
  }

  /** The text emitted and held so far, in order. */
  function SoFar(st: State): string
  {
    Render(st.done) + PendingText(st.pending)
  }

  /** A step appends exactly its token to the text emitted and held. */
  lemma StepRender(st: State, token: string, tag: Tag)
    requires tag.I? ==> st.pending.SpanRun? && st.pending.name == tag.name
    ensures SoFar(Step(st, token, tag)) == SoFar(st) + token
  {
    RenderAppend(st.done, Flush(st.pending));
    FlushRender(st.pending);
  }

  /** The scan loses and adds no text: what it emits renders to what it was given. */
  lemma {:induction false} ScanRender(tokens: seq<string>, tags: seq<Tag>, i: nat, st: State)
    requires Encodable(tokens, tags) && i <= |tokens|
    requires i == 0 ==> st.pending.Nothing?
    requires 0 < i ==> Follows(st.pending, tags[i - 1])
    requires IsRecordContent(st.done)
    ensures Render(Scan(tokens, tags, i, st)) == SoFar(st) + Concat(tokens[i..])
    decreases |tokens| - i
  {
    if i == |tokens| {
      RenderAppend(st.done, Flush(st.pending));
      FlushRender(st.pending);
    } else {
      assert tokens[i..][1..] == tokens[i + 1..];
      StepRender(st, tokens[i], tags[i]);
      ScanRender(tokens, tags, i + 1, Step(st, tokens[i], tags[i]));
    }
  }

  /** Encoding is lossless: the content renders to the tokens joined with no separator. */
  lemma EncodeRender(tokens: seq<string>, tags: seq<Tag>)
    requires Encodable(tokens, tags)
    ensures Render(Encode(tokens, tags)) == Concat(tokens)
  {
    ScanRender(tokens, tags, 0, State([], Nothing));
    assert tokens[0..] == tokens;
  }

  /** The scan state can accept any token without two text runs meeting: what is done has
      merged text runs, and if it ends in a text run the open run is a span. */
  predicate MergeReady(st: State)
  {
    TextsMerged(st.done) && (|st.done| > 0 && st.done[|st.done| - 1].Text? ==> st.pending.SpanRun?)
  }

  /** Closing a run that is not a span after a text run never happens in a ready state. */
  lemma FlushMerges(st: State)
    requires MergeReady(st)
    ensures TextsMerged(st.done + Flush(st.pending))
    ensures |st.done + Flush(st.pending)| > 0 && (st.done + Flush(st.pending))[|st.done + Flush(st.pending)| - 1].Text? ==>
      st.pending.PlainRun?
  {
    match st.pending
    case Nothing => assert st.done + [] == st.done;
    case PlainRun(t) => TextsMergedSnoc(st.done, Text(t));
    case SpanRun(l, t) => TextsMergedSnoc(st.done, Span(l, [Text(t)]));
  }

  lemma StepMerges(st: State, token: string, tag: Tag)
    requires tag.I? ==> st.pending.SpanRun? && st.pending.name == tag.name
    requires MergeReady(st)
    ensures MergeReady(Step(st, token, tag))
  {
    FlushMerges(st);
  }

  lemma {:induction false} ScanMerges(tokens: seq<string>, tags: seq<Tag>, i: nat, st: State)
    requires Encodable(tokens, tags) && i <= |tokens|
    requires i == 0 ==> st.pending.Nothing?
    requires 0 < i ==> Follows(st.pending, tags[i - 1])
    requires IsRecordContent(st.done)
    requires MergeReady(st)
    ensures TextsMerged(Scan(tokens, tags, i, st))
    decreases |tokens| - i
  {
    if i == |tokens| {
      FlushMerges(st);
    } else {
      StepMerges(st, tokens[i], tags[i]);
      ScanMerges(tokens, tags, i + 1, Step(st, tokens[i], tags[i]));
    }
  }

  /** Consecutive `O` tokens form a single text run: the encoder never emits two text runs
      side by side, just as a parsed record never holds them. */
  lemma EncodeMergesText(tokens: seq<string>, tags: seq<Tag>)
    requires Encodable(tokens, tags)
    ensures TextsMerged(Encode(tokens, tags))
  {
    ScanMerges(tokens, tags, 0, State([], Nothing));
  }

  /** The tokens and tags of the greeting example. */
  const GreetingTokens: seq<string> := ["Hello", ",", " ", "beautiful", " ", "world", "!"]
  const GreetingTags: seq<Tag> := [O, O, O, B("word"), I("word"), I("word"), O]

  lemma GreetingPlainPart()
    ensures Encodable(GreetingTokens, GreetingTags)
    ensures Encode(GreetingTokens, GreetingTags)
         == Scan(GreetingTokens, GreetingTags, 3, State([], PlainRun("Hello, ")))
  {
    var s1 := State([], PlainRun("Hello"));
    var s2 := State([], PlainRun("Hello,"));
    assert Scan(GreetingTokens, GreetingTags, 0, State([], Nothing)) == Scan(GreetingTokens, GreetingTags, 1, s1);
    assert Scan(GreetingTokens, GreetingTags, 1, s1) == Scan(GreetingTokens, GreetingTags, 2, s2) by {
      assert "Hello" + "," == "Hello,";
    }
    assert "Hello," + " " == "Hello, ";
  }

  lemma GreetingSpanPart()
    ensures Encodable(GreetingTokens, GreetingTags)
    ensures Scan(GreetingTokens, GreetingTags, 3, State([], PlainRun("Hello, ")))
         == [Text("Hello, "), Span("word", [Text("beautiful world")]), Text("!")]
  {
    var s4 := State([Text("Hello, ")], SpanRun("word", "beautiful"));
    var s5 := State([Text("Hello, ")], SpanRun("word", "beautiful "));
    var s6 := State([Text("Hello, ")], SpanRun("word", "beautiful world"));
    var s7 := State([Text("Hello, "), Span("word", [Text("beautiful world")])], PlainRun("!"));
    assert Scan(GreetingTokens, GreetingTags, 3, State([], PlainRun("Hello, "))) == Scan(GreetingTokens, GreetingTags, 4, s4);
    assert Scan(GreetingTokens, GreetingTags, 4, s4) == Scan(GreetingTokens, GreetingTags, 5, s5) by {
      assert "beautiful" + " " == "beautiful ";
    }
    assert Scan(GreetingTokens, GreetingTags, 5, s5) == Scan(GreetingTokens, GreetingTags, 6, s6) by {
      assert "beautiful " + "world" == "beautiful world";
    }
  }

  /** The greeting example: the three plain tokens become one text run, the `word` run one span. */
  lemma EncodeGreeting()
    ensures Encodable(GreetingTokens, GreetingTags)
    ensures Encode(GreetingTokens, GreetingTags)
         == [Text("Hello, "), Span("word", [Text("beautiful world")]), Text("!")]
  {
    GreetingPlainPart();
    GreetingSpanPart();
  }
}
