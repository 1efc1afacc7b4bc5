/** Decoding the encoder's output with the reference tokenizer gives back the tokens and
    tags that were encoded, whenever the tokenizer would have produced those tokens. */
module RoundTrip {
  import opened Texts
  import opened Iob
  import opened Content
  import opened Tokenizer
  import opened Encoder
  import opened Decoder

  /** `next` extends the run `prev` belongs to: both `O`, or `next` continues a span. */
  predicate SameRun(prev: Tag, next: Tag)
  {
    (prev.O? && next.O?) || next.I?
  }

  /** Tokens `k` and `k + 1` are kept apart by the tokenizer when they belong to one run:
      they are not both word runs. */
  predicate KeptApart(tokens: seq<string>, tags: seq<Tag>, k: nat)
    requires k + 1 < |tokens| == |tags|
  {
    SameRun(tags[k], tags[k + 1]) ==> !(IsWordRun(tokens[k]) && IsWordRun(tokens[k + 1]))
  }

  /** Tokens the reference tokenizer splits the same way run by run: each is a token it can
      emit, and within one run no word token directly follows another. */
  predicate Retokenizable(tokens: seq<string>, tags: seq<Tag>)
  {
    |tokens| == |tags| &&
    (forall k :: 0 <= k < |tokens| ==> IsToken(tokens[k])) &&
    (forall k: nat :: k + 1 < |tokens| ==> KeptApart(tokens, tags, k))
  }

  /** The pending run holds exactly `tokens[j..i]`, tagged as one run of its kind. */
  predicate HoldsRun(tokens: seq<string>, tags: seq<Tag>, j: nat, i: nat, p: Pending)
    requires j <= i <= |tokens| == |tags|
  {
    match p
    case Nothing => j == i
    case PlainRun(x) =>
      j < i && x == Concat(tokens[j..i]) && forall k :: j <= k < i ==> tags[k] == O
    case SpanRun(l, x) =>
      j < i && x == Concat(tokens[j..i]) && tags[j] == B(l) && forall k :: j < k < i ==> tags[k] == I(l)
  }

  /** The tokens of an open run form a chain, so the tokenizer splits their text back into them. */
  lemma RunRetokenizes(tokens: seq<string>, tags: seq<Tag>, j: nat, i: nat, p: Pending)
    requires Retokenizable(tokens, tags) && j <= i <= |tokens|
    requires HoldsRun(tokens, tags, j, i, p) && !p.Nothing?
    ensures Tokenize(p.text) == tokens[j..i]
  {
    var run := tokens[j..i];
    assert IsChain(run) by {
      forall k | 0 <= k < |run| - 1
        ensures !(IsWordRun(run[k]) && IsWordRun(run[k + 1]))
      {
        assert KeptApart(tokens, tags, j + k);
      }
    }
    TokenizeChain(run);
  }

  /** A finished run decodes to the tokens and tags it was built from. */
  lemma FlushDecode(tokens: seq<string>, tags: seq<Tag>, j: nat, i: nat, p: Pending)
    requires Retokenizable(tokens, tags) && j <= i <= |tokens|
    requires HoldsRun(tokens, tags, j, i, p)
    ensures IsRecordContent(Flush(p))
    ensures Decode(Flush(p), Tokenize) == Decoded(tokens[j..i], tags[j..i])
  {
    match p
    case Nothing =>
    case PlainRun(x) => PlainFlushDecode(tokens, tags, j, i, x);
    case SpanRun(l, x) => SpanFlushDecode(tokens, tags, j, i, l, x);
  }

  lemma PlainFlushDecode(tokens: seq<string>, tags: seq<Tag>, j: nat, i: nat, x: string)
    requires Retokenizable(tokens, tags) && j <= i <= |tokens|
    requires HoldsRun(tokens, tags, j, i, PlainRun(x))
    ensures Decode([Text(x)], Tokenize) == Decoded(tokens[j..i], tags[j..i])
  {
    RunRetokenizes(tokens, tags, j, i, PlainRun(x));
    DecodeSingle(Text(x), Tokenize);
    OutsideMatch(tags, j, i);
  }

  lemma SpanFlushDecode(tokens: seq<string>, tags: seq<Tag>, j: nat, i: nat, l: string, x: string)
    requires Retokenizable(tokens, tags) && j <= i <= |tokens|
    requires HoldsRun(tokens, tags, j, i, SpanRun(l, x))
    ensures Decode([Span(l, [Text(x)])], Tokenize) == Decoded(tokens[j..i], tags[j..i])
  {
    RunRetokenizes(tokens, tags, j, i, SpanRun(l, x));
    assert Render([Text(x)]) == x by {
      assert Render([Text(x)]) == x + Render([]);
      assert x + "" == x;
    }
    var ts := Tokenize(Render([Text(x)]));
    assert ts == tokens[j..i];
    DecodeSingle(Span(l, [Text(x)]), Tokenize);
    assert DecodeNode(Span(l, [Text(x)]), Tokenize) == Decoded(ts, SpanTags(l, |ts|));
    SpanTagsMatch(tags, j, i, l);
  }

  lemma OutsideMatch(tags: seq<Tag>, j: nat, i: nat)
    requires j <= i <= |tags|
    requires forall k :: j <= k < i ==> tags[k] == O
    ensures Outside(i - j) == tags[j..i]
  {
  }

  lemma SpanTagsMatch(tags: seq<Tag>, j: nat, i: nat, l: string)
    requires j < i <= |tags|
    requires tags[j] == B(l) && forall k :: j < k < i ==> tags[k] == I(l)
    ensures SpanTags(l, i - j) == tags[j..i]
  {
  }

  lemma SplitAt<T>(s: seq<T>, j: nat, i: nat)
    requires j <= i <= |s|
    ensures s[j..i] + s[i..] == s[j..]
  {
  }

  /** The scan from any state decodes to what was emitted, then the open run and the rest
      of the input. */
  lemma {:induction false} ScanDecode(tokens: seq<string>, tags: seq<Tag>, i: nat, st: State, j: nat)
    requires Encodable(tokens, tags) && Retokenizable(tokens, tags)
    requires j <= i <= |tokens|
    requires i == 0 ==> st.pending.Nothing?
    requires 0 < i ==> Follows(st.pending, tags[i - 1])
    requires IsRecordContent(st.done)
    requires HoldsRun(tokens, tags, j, i, st.pending)
    ensures Decode(Scan(tokens, tags, i, st), Tokenize)
         == Join(Decode(st.done, Tokenize), Decoded(tokens[j..], tags[j..]))
    decreases |tokens| - i, 1
  {
    if i == |tokens| {
      CloseRun(tokens, tags, j, i, st.done, st.pending);
      assert tokens[j..] == tokens[j..i] && tags[j..] == tags[j..i];
    } else if (tags[i].O? && st.pending.PlainRun?) || tags[i].I? {
      ScanDecodeJoin(tokens, tags, i, st, j);
    } else {
      ScanDecodeStart(tokens, tags, i, st, j);
    }
  }

  /** The step case where the token joins the open run. */
  lemma {:induction false} ScanDecodeJoin(tokens: seq<string>, tags: seq<Tag>, i: nat, st: State, j: nat)
    requires Encodable(tokens, tags) && Retokenizable(tokens, tags)
    requires j <= i < |tokens|
    requires i == 0 ==> st.pending.Nothing?
    requires 0 < i ==> Follows(st.pending, tags[i - 1])
    requires IsRecordContent(st.done)
    requires HoldsRun(tokens, tags, j, i, st.pending)
    requires (tags[i].O? && st.pending.PlainRun?) || tags[i].I?
    ensures Decode(Scan(tokens, tags, i, st), Tokenize)
         == Join(Decode(st.done, Tokenize), Decoded(tokens[j..], tags[j..]))
    decreases |tokens| - i, 0
  {
    var next := Step(st, tokens[i], tags[i]);
    assert Scan(tokens, tags, i, st) == Scan(tokens, tags, i + 1, next);
    assert next.done == st.done;
    ExtendRun(tokens, tags, j, i, st.pending, next.pending);
    ScanDecode(tokens, tags, i + 1, next, j);
  }

  /** The step case where the open run is closed and the token starts a new one. */
  lemma {:induction false} ScanDecodeStart(tokens: seq<string>, tags: seq<Tag>, i: nat, st: State, j: nat)
    requires Encodable(tokens, tags) && Retokenizable(tokens, tags)
    requires j <= i < |tokens|
    requires i == 0 ==> st.pending.Nothing?
    requires 0 < i ==> Follows(st.pending, tags[i - 1])
    requires IsRecordContent(st.done)
    requires HoldsRun(tokens, tags, j, i, st.pending)
    requires !((tags[i].O? && st.pending.PlainRun?) || tags[i].I?)
    ensures Decode(Scan(tokens, tags, i, st), Tokenize)
         == Join(Decode(st.done, Tokenize), Decoded(tokens[j..], tags[j..]))
    decreases |tokens| - i, 0
  {
    var done, p := st.done, st.pending;
    var next := Step(st, tokens[i], tags[i]);
    assert Scan(tokens, tags, i, st) == Scan(tokens, tags, i + 1, next);
    assert next.done == done + Flush(p);
    CloseRun(tokens, tags, j, i, done, p);
    StartRun(tokens, tags, i, next.pending);
    ScanDecode(tokens, tags, i + 1, next, i);
    SplitAt(tokens, j, i);
    SplitAt(tags, j, i);
    JoinAssoc(Decode(done, Tokenize), Decoded(tokens[j..i], tags[j..i]), Decoded(tokens[i..], tags[i..]));
  }

  /** Closing the open run appends its tokens and tags to the decoding of what was emitted. */
  lemma CloseRun(tokens: seq<string>, tags: seq<Tag>, j: nat, i: nat, done: seq<Node>, p: Pending)
    requires Retokenizable(tokens, tags) && j <= i <= |tokens|
    requires IsRecordContent(done) && HoldsRun(tokens, tags, j, i, p)
    ensures IsRecordContent(done + Flush(p))
    ensures Decode(done + Flush(p), Tokenize)
         == Join(Decode(done, Tokenize), Decoded(tokens[j..i], tags[j..i]))
  {
    FlushDecode(tokens, tags, j, i, p);
    DecodeAppend(done, Flush(p), Tokenize);
  }

  /** A token that continues the open run extends the run it holds by one. */
  lemma ExtendRun(tokens: seq<string>, tags: seq<Tag>, j: nat, i: nat, p: Pending, q: Pending)
    requires |tokens| == |tags| && j <= i < |tokens|
    requires HoldsRun(tokens, tags, j, i, p)
    requires q.PlainRun? ==> p.PlainRun? && tags[i] == O
    requires q.SpanRun? ==> p.SpanRun? && tags[i] == I(p.name) && q.name == p.name
    requires !q.Nothing? && q.text == p.text + tokens[i]
    ensures HoldsRun(tokens, tags, j, i + 1, q)
  {
    assert tokens[j..i + 1] == tokens[j..i] + [tokens[i]];
    ConcatSnoc(tokens[j..i], tokens[i]);
  }

  /** A token that opens a new run makes a run of one token. */
  lemma StartRun(tokens: seq<string>, tags: seq<Tag>, i: nat, q: Pending)
    requires |tokens| == |tags| && i < |tokens|
    requires q.PlainRun? ==> tags[i] == O
    requires q.SpanRun? ==> tags[i] == B(q.name)
    requires !q.Nothing? && q.text == tokens[i]
    ensures HoldsRun(tokens, tags, i, i + 1, q)
  {
    assert tokens[i..i + 1] == [tokens[i]];
    assert Concat([tokens[i]]) == tokens[i] + Concat([]);
  }

  /** Round trip: with tokens the reference tokenizer reproduces, decoding the encoded
      record gives back exactly the tokens and tags that were encoded. */
  lemma DecodeEncode(tokens: seq<string>, tags: seq<Tag>)
    requires Encodable(tokens, tags) && Retokenizable(tokens, tags)
    ensures Decode(Encode(tokens, tags), Tokenize) == Decoded(tokens, tags)
  {
    ScanDecode(tokens, tags, 0, State([], Nothing), 0);
    assert tokens[0..] == tokens && tags[0..] == tags;
  }
}
