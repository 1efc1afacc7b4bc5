/** The concrete records and documents of the repository's test suite, and what the model
    computes for them. */
module Scenarios {
  import opened Results
  import opened Content
  import opened SpanSet
  import opened Evaluation
  import opened Texts
  import opened Iob
  import opened Tokenizer
  import opened Encoder
  import opened Decoder
  import opened RoundTrip

  /** A record of the form `a <s l=l1>x</s>m <s l=l2>y</s>`. */
  function TwoSpanRecord(a: string, l1: string, x: string, m: string, l2: string, y: string): seq<Node>
  {
    [Text(a), Span(l1, [Text(x)]), Text(m), Span(l2, [Text(y)])]
  }

  /** The span set of such a record: each span starts where the text before it ends. */
  lemma TwoSpanRecordSet(a: string, l1: string, x: string, m: string, l2: string, y: string)
    ensures RecordToSet(Events(TwoSpanRecord(a, l1, x, m, l2, y)))
         == {Triple(|a|, |a| + |x|, l1), Triple(|a| + |x| + |m|, |a| + |x| + |m| + |y|, l2)}
  {
    var c := TwoSpanRecord(a, l1, x, m, l2, y);
    RecordToSetLocates(c);
    TextAlone(x);
    TextAlone(y);
    var p := |a| + |x| + |m|;
    assert SpansFrom([Text(x)], |a|) == {};
    assert SpansFrom([Text(y)], p) == {};
    assert SpansFrom(c[3..], p) == {Located(Triple(p, p + |y|, l2), y)} by {
      assert c[3..][1..] == [];
    }
    assert SpansFrom(c[2..], |a| + |x|) == SpansFrom(c[3..], p) by {
      assert c[2..][1..] == c[3..];
    }
    assert SpansFrom(c[1..], |a|) == {Located(Triple(|a|, |a| + |x|, l1), x)} + SpansFrom(c[2..], |a| + |x|) by {
      assert c[1..][1..] == c[2..];
    }
    assert SpansFrom(c, 0) == SpansFrom(c[1..], |a|);
    TriplesUnion({Located(Triple(|a|, |a| + |x|, l1), x)}, {Located(Triple(p, p + |y|, l2), y)});
  }

  /** `Sample <s l='record'>record</s>- <s l='refno'>1</s>`: the spans at [7, 13) and [15, 16). */
  lemma FirstSampleRecordSet()
    ensures RecordToSet(Events(TwoSpanRecord("Sample ", "record", "record", "- ", "refno", "1")))
         == {Triple(7, 13, "record"), Triple(15, 16, "refno")}
  {
    TwoSpanRecordSet("Sample ", "record", "record", "- ", "refno", "1");
  }

  /** The record with `div` and `p` markup: their text advances the offsets but emits nothing. */
  const MarkupRecord: seq<Node> := [
    Deco("div", [Text("Innodata labs")]),
    Deco("div", [
      Text("Here is "),
      Deco("p", [Text("some "), Span("sample", [Text("sample")]), Text(" data")]),
      Deco("p", [Text("Some more "), Span("sample", [Text("sample")]), Text(" "), Span("data", [Text("data")]), Text(" ")])]),
    Text("\n                    ")]

  /** A lone text run renders to its text and holds no span. */
  lemma TextAlone(t: string)
    ensures Render([Text(t)]) == t
    ensures forall base: nat :: SpansFrom([Text(t)], base) == {}
  {
    assert Render([Text(t)]) == t + Render([]);
    assert t + "" == t;
  }

  lemma TextFirst(t: string, rest: seq<Node>, base: nat)
    ensures Render([Text(t)] + rest) == t + Render(rest)
    ensures SpansFrom([Text(t)] + rest, base) == SpansFrom(rest, base + |t|)
  {
    assert ([Text(t)] + rest)[1..] == rest;
  }

  lemma SpanFirst(l: string, b: seq<Node>, rest: seq<Node>, base: nat)
    ensures Render([Span(l, b)] + rest) == Render(b) + Render(rest)
    ensures SpansFrom([Span(l, b)] + rest, base)
         == {Located(Triple(base, base + |Render(b)|, l), Render(b))} + SpansFrom(b, base) + SpansFrom(rest, base + |Render(b)|)
  {
    assert ([Span(l, b)] + rest)[1..] == rest;
  }

  lemma DecoFirst(n: string, b: seq<Node>, rest: seq<Node>, base: nat)
    ensures Render([Deco(n, b)] + rest) == Render(b) + Render(rest)
    ensures SpansFrom([Deco(n, b)] + rest, base) == SpansFrom(b, base) + SpansFrom(rest, base + |Render(b)|)
  {
    assert ([Deco(n, b)] + rest)[1..] == rest;
  }

  /** `some <s l='sample'>sample</s> data`, rendered from offset `base`. */
  lemma FirstParagraph(base: nat)
    ensures Render([Text("some "), Span("sample", [Text("sample")]), Text(" data")]) == "some sample data"
    ensures SpansFrom([Text("some "), Span("sample", [Text("sample")]), Text(" data")], base)
         == {Located(Triple(base + 5, base + 11, "sample"), "sample")}
  {
    var c := [Text("some "), Span("sample", [Text("sample")]), Text(" data")];
    TextAlone("sample");
    TextAlone(" data");
    assert c == [Text("some ")] + ([Span("sample", [Text("sample")])] + [Text(" data")]);
    TextFirst("some ", [Span("sample", [Text("sample")])] + [Text(" data")], base);
    SpanFirst("sample", [Text("sample")], [Text(" data")], base + 5);
    assert "some " + ("sample" + " data") == "some sample data";
  }

  /** `Some more <s l='sample'>sample</s> <s l='data'>data</s> `, rendered from offset `base`. */
  lemma SecondParagraph(base: nat)
    ensures SpansFrom([Text("Some more "), Span("sample", [Text("sample")]), Text(" "), Span("data", [Text("data")]), Text(" ")], base)
         == {Located(Triple(base + 10, base + 16, "sample"), "sample"),
             Located(Triple(base + 17, base + 21, "data"), "data")}
  {
    var c := [Text("Some more "), Span("sample", [Text("sample")]), Text(" "), Span("data", [Text("data")]), Text(" ")];
    TextAlone("sample");
    TextAlone("data");
    TextAlone(" ");
    var r3 := [Span("data", [Text("data")])] + [Text(" ")];
    var r2 := [Text(" ")] + r3;
    var r1 := [Span("sample", [Text("sample")])] + r2;
    assert c == [Text("Some more ")] + r1;
    TextFirst("Some more ", r1, base);
    SpanFirst("sample", [Text("sample")], r2, base + 10);
    TextFirst(" ", r3, base + 16);
    SpanFirst("data", [Text("data")], [Text(" ")], base + 17);
  }

  /** The second `div`, rendered from offset `base`: its first paragraph starts 8 characters
      in, its second 16 characters after that. */
  lemma SecondDivision(base: nat)
    ensures var p1 := [Text("some "), Span("sample", [Text("sample")]), Text(" data")];
      var p2 := [Text("Some more "), Span("sample", [Text("sample")]), Text(" "), Span("data", [Text("data")]), Text(" ")];
      SpansFrom([Text("Here is "), Deco("p", p1), Deco("p", p2)], base)
        == {Located(Triple(base + 13, base + 19, "sample"), "sample"),
            Located(Triple(base + 34, base + 40, "sample"), "sample"),
            Located(Triple(base + 41, base + 45, "data"), "data")}
  {
    var p1 := [Text("some "), Span("sample", [Text("sample")]), Text(" data")];
    var p2 := [Text("Some more "), Span("sample", [Text("sample")]), Text(" "), Span("data", [Text("data")]), Text(" ")];
    var s1 := {Located(Triple(base + 13, base + 19, "sample"), "sample")};
    var s2 := {Located(Triple(base + 34, base + 40, "sample"), "sample"), Located(Triple(base + 41, base + 45, "data"), "data")};
    FirstParagraph(base + 8);
    assert |Render(p1)| == 16;
    SecondParagraph(base + 24);
    assert SpansFrom(p1, base + 8) == s1;
    assert SpansFrom(p2, base + 24) == s2;
    assert [Deco("p", p2)] == [Deco("p", p2)] + [];
    DecoFirst("p", p2, [], base + 24);
    assert SpansFrom([Deco("p", p2)], base + 24) == s2;
    DecoFirst("p", p1, [Deco("p", p2)], base + 8);
    assert SpansFrom([Deco("p", p1)] + [Deco("p", p2)], base + 8) == s1 + s2;
    TextFirst("Here is ", [Deco("p", p1)] + [Deco("p", p2)], base);
    assert [Text("Here is "), Deco("p", p1), Deco("p", p2)] == [Text("Here is ")] + ([Deco("p", p1)] + [Deco("p", p2)]);
  }

  lemma MarkupLocated()
    ensures SpansFrom(MarkupRecord, 0)
         == {Located(Triple(26, 32, "sample"), "sample"), Located(Triple(47, 53, "sample"), "sample"),
             Located(Triple(54, 58, "data"), "data")}
  {
    var div2 := MarkupRecord[1].body;
    SecondDivision(13);
    TextAlone("Innodata labs");
    TextAlone("\n                    ");
    var tail := [Deco("div", div2)] + [Text("\n                    ")];
    assert MarkupRecord == [Deco("div", [Text("Innodata labs")])] + tail;
    DecoFirst("div", [Text("Innodata labs")], tail, 0);
    DecoFirst("div", div2, [Text("\n                    ")], 13);
  }

  lemma MarkupRecordSet()
    ensures RecordToSet(Events(MarkupRecord))
         == {Triple(26, 32, "sample"), Triple(47, 53, "sample"), Triple(54, 58, "data")}
  {
    var s := Located(Triple(26, 32, "sample"), "sample");
    var s2 := Located(Triple(47, 53, "sample"), "sample");
    var d := Located(Triple(54, 58, "data"), "data");
    MarkupLocated();
    RecordToSetLocates(MarkupRecord);
    assert Triples({s, s2, d}) == {s.span, s2.span, d.span};
  }

  /** A record element of the first sample documents. */
  function SampleRecord(a: string, x: string, m: string, n: string): Element
  {
    Element(RecordTag, TwoSpanRecord(a, "record", x, m, "refno", n))
  }

  /** The gold document: three records, six spans. */
  const GoldSample: Argument := Tree(DocumentTag, [
    SampleRecord("Sample ", "record", "- ", "1"),
    SampleRecord("Sample ", "record", "- ", "2"),
    SampleRecord("Invalid ", "record", "- ", "3")])

  /** The test document: the third record's `record` span takes in the `-`. */
  const TestSample: Argument := Tree(DocumentTag, [
    SampleRecord("Sample ", "record", "- ", "1"),
    SampleRecord("Sample ", "record", "- ", "2"),
    SampleRecord("Invalid ", "record-", " ", "3")])

  /** The document of one record with `div` and `p` markup. */
  const MarkupSample: Argument := Tree(DocumentTag, [Element(RecordTag, MarkupRecord)])

  lemma SampleRecordSet(a: string, x: string, m: string, n: string)
    requires |n| == 1
    ensures SpanSetOf(SampleRecord(a, x, m, n))
         == {Triple(|a|, |a| + |x|, "record"), Triple(|a| + |x| + |m|, |a| + |x| + |m| + 1, "refno")}
  {
    TwoSpanRecordSet(a, "record", x, m, "refno", n);
  }

  /** The two versions of the third record share one span of their two. */
  lemma ThirdRecordCounts()
    ensures PairCounts(SpanSetOf(SampleRecord("Invalid ", "record", "- ", "3")),
                       SpanSetOf(SampleRecord("Invalid ", "record-", " ", "3")))
         == Counts(2, 1, 1, 1)
  {
    SampleRecordSet("Invalid ", "record", "- ", "3");
    SampleRecordSet("Invalid ", "record-", " ", "3");
    var g := {Triple(8, 14, "record"), Triple(16, 17, "refno")};
    var t := {Triple(8, 15, "record"), Triple(16, 17, "refno")};
    assert g * t == {Triple(16, 17, "refno")};
    assert g - t == {Triple(8, 14, "record")};
    assert t - g == {Triple(8, 15, "record")};
  }

  /** An unchanged first or second record matches both of its spans. */
  lemma SameRecordCounts(n: string)
    requires |n| == 1
    ensures PairCounts(SpanSetOf(SampleRecord("Sample ", "record", "- ", n)),
                       SpanSetOf(SampleRecord("Sample ", "record", "- ", n)))
         == Counts(2, 2, 0, 0)
  {
    SampleRecordSet("Sample ", "record", "- ", n);
  }

  /** Three record pairs score as the sum of their pair counts. */
  lemma ScoreThree(g0: Element, g1: Element, g2: Element, t0: Element, t1: Element, t2: Element,
                   c0: Counts, c1: Counts, c2: Counts)
    requires PairCounts(SpanSetOf(g0), SpanSetOf(t0)) == c0
    requires PairCounts(SpanSetOf(g1), SpanSetOf(t1)) == c1
    requires PairCounts(SpanSetOf(g2), SpanSetOf(t2)) == c2
    ensures Score([g0, g1, g2], [t0, t1, t2]) == Add(c0, Add(c1, Add(c2, Counts(0, 0, 0, 0))))
  {
    var g, t := [g0, g1, g2], [t0, t1, t2];
    assert [g2][1..] == [] && [t2][1..] == [];
    assert Score([g2], [t2]) == Add(c2, Counts(0, 0, 0, 0));
    assert [g1, g2][1..] == [g2] && [t1, t2][1..] == [t2];
    assert Score([g1, g2], [t1, t2]) == Add(c1, Score([g2], [t2]));
    assert g[1..] == [g1, g2] && t[1..] == [t1, t2];
    assert Score(g, t) == Add(c0, Score([g1, g2], [t1, t2]));
  }

  /** Scoring the test document against the gold one: six gold spans, five matched, one
      spurious and one missed. */
  lemma EvaluateSamples()
    ensures Evaluate(GoldSample, TestSample) == Success(Counts(6, 5, 1, 1))
  {
    assert IsDocument(GoldSample) && IsDocument(TestSample);
    SameRecordCounts("1");
    SameRecordCounts("2");
    ThirdRecordCounts();
    ScoreThree(SampleRecord("Sample ", "record", "- ", "1"), SampleRecord("Sample ", "record", "- ", "2"),
               SampleRecord("Invalid ", "record", "- ", "3"),
               SampleRecord("Sample ", "record", "- ", "1"), SampleRecord("Sample ", "record", "- ", "2"),
               SampleRecord("Invalid ", "record-", " ", "3"),
               Counts(2, 2, 0, 0), Counts(2, 2, 0, 0), Counts(2, 1, 1, 1));
  }

  /** The argument errors: a value that is not a tree, a root that is not a document, and
      documents with different numbers of records. The root's own text (`Invalid` in the
      rejected `<b>Invalid</b>`) has no place in an `Argument` and plays no part in the verdict. */
  lemma EvaluateRejects()
    ensures Evaluate(OtherValue, GoldSample) == Failure(TypeError)
    ensures Evaluate(Tree(QName("", "b"), []), GoldSample) == Failure(ValueError)
    ensures Evaluate(GoldSample, MarkupSample) == Failure(ValueError)
  {
    assert IsDocument(GoldSample) && IsDocument(MarkupSample);
  }

  /** A single non-word character is a token and not a word run. */
  lemma Punctuation(c: char)
    requires !IsWordChar(c)
    ensures IsToken([c]) && !IsWordRun([c])
  {
    assert [c][0] == c;
  }

  /** The greeting's tokens are the ones the reference tokenizer produces run by run. */
  lemma GreetingRetokenizable()
    ensures Retokenizable(GreetingTokens, GreetingTags)
  {
    assert IsWordRun("Hello") && IsWordRun("beautiful") && IsWordRun("world");
    Punctuation(',');
    Punctuation(' ');
    Punctuation('!');
  }

  /** Decoding the greeting record gives back the tokens and tags that encode to it. */
  lemma DecodeGreeting()
    ensures IsRecordContent([Text("Hello, "), Span("word", [Text("beautiful world")]), Text("!")])
    ensures Decode([Text("Hello, "), Span("word", [Text("beautiful world")]), Text("!")], Tokenize)
         == Decoded(["Hello", ",", " ", "beautiful", " ", "world", "!"],
                    [O, O, O, B("word"), I("word"), I("word"), O])
  {
    EncodeGreeting();
    GreetingRetokenizable();
    DecodeEncode(GreetingTokens, GreetingTags);
  }

  lemma DecodeCons(n: Node, rest: seq<Node>)
    requires !n.Deco? && IsRecordContent(rest)
    ensures IsRecordContent([n] + rest)
    ensures Decode([n] + rest, Tokenize) == Join(DecodeNode(n, Tokenize), Decode(rest, Tokenize))
  {
    DecodeSingle(n, Tokenize);
    DecodeAppend([n], rest, Tokenize);
  }

  const AuthorTokens: seq<string> := ["Christian", ",", " ", "P", ".", " ", "D", "."]
  const TitleTokens: seq<string> := ["Water", " ", "balance", " ", "in", " ", "Monodelphis", " ", "domestica"]

  lemma AuthorChain()
    ensures IsChain(AuthorTokens)
  {
    Punctuation(',');
    Punctuation(' ');
    Punctuation('.');
    assert IsWordRun("Christian") && IsWordRun("P") && IsWordRun("D");
  }

  lemma AuthorConcat()
    ensures Concat(AuthorTokens) == "Christian, P. D."
  {
    var t1, t2 := ["Christian", ",", " "], ["P", ".", " ", "D", "."];
    assert AuthorTokens == t1 + t2;
    ConcatAppend(t1, t2);
    ConcatThree("Christian", ",", " ");
    ConcatFive("P", ".", " ", "D", ".");
    AuthorPieces();
  }

  lemma AuthorPieces()
    ensures "Christian" + "," + " " + ("P" + "." + " " + "D" + ".") == "Christian, P. D."
  {
    assert "Christian" + "," + " " == "Christian, ";
    assert "P" + "." + " " + "D" + "." == "P. D.";
  }

  lemma AuthorTokenized()
    ensures Tokenize("Christian, P. D.") == AuthorTokens
  {
    AuthorChain();
    AuthorConcat();
    TokenizeChain(AuthorTokens);
  }

  lemma TitleChain()
    ensures IsChain(TitleTokens)
  {
    Punctuation(' ');
    assert IsWordRun("Water") && IsWordRun("balance") && IsWordRun("in");
    assert IsWordRun("Monodelphis") && IsWordRun("domestica");
  }

  lemma TitleTokenized()
    ensures Tokenize("Water balance in " + "Monodelphis domestica") == TitleTokens
  {
    TitleChain();
    TitleConcat();
    TokenizeChain(TitleTokens);
  }

  lemma ConcatThree(a: string, b: string, c: string)
    ensures Concat([a, b, c]) == a + b + c
  {
    assert [a, b, c][1..] == [b, c];
    assert [b, c][1..] == [c];
    assert Concat([c]) == c + Concat([]);
  }

  lemma ConcatFive(a: string, b: string, c: string, d: string, e: string)
    ensures Concat([a, b, c, d, e]) == a + b + c + d + e
  {
    assert [a, b, c, d, e] == [a, b, c] + [d, e];
    ConcatAppend([a, b, c], [d, e]);
    ConcatThree(a, b, c);
    assert [d, e][1..] == [e];
    assert Concat([e]) == e + Concat([]);
  }

  lemma TitleHead()
    ensures "Water" + " " + "balance" + (" " + "in" + " ") == "Water balance in "
  {
  }

  lemma TitleTail()
    ensures "Monodelphis" + " " + "domestica" == "Monodelphis domestica"
  {
  }

  lemma TitleConcat()
    ensures Concat(TitleTokens) == "Water balance in " + "Monodelphis domestica"
  {
    var t1, t2, t3 := ["Water", " ", "balance"], [" ", "in", " "], ["Monodelphis", " ", "domestica"];
    assert TitleTokens == t1 + (t2 + t3);
    ConcatAppend(t2, t3);
    ConcatAppend(t1, t2 + t3);
    ConcatThree("Water", " ", "balance");
    ConcatThree(" ", "in", " ");
    ConcatThree("Monodelphis", " ", "domestica");
    TitleHead();
    TitleTail();
  }

  lemma SpaceTokenized()
    ensures Tokenize(" ") == [" "]
  {
    Punctuation(' ');
    assert Concat([" "]) == " " + Concat([]);
    assert " " + "" == " ";
    TokenizeChain([" "]);
  }

  lemma YearTokenized()
    ensures Tokenize("1983") == ["1983"]
  {
    assert IsWordRun("1983");
    assert Concat(["1983"]) == "1983" + Concat([]);
    assert "1983" + "" == "1983";
    TokenizeChain(["1983"]);
  }

  lemma StopTokenized()
    ensures Tokenize(". ") == [".", " "]
  {
    Punctuation(' ');
    Punctuation('.');
    assert Concat([".", " "]) == ". ";
    TokenizeChain([".", " "]);
  }

  /** A bibliographic record whose title span holds an `i` element. */
  const TitleBody: seq<Node> := [Text("Water balance in "), Deco("i", [Text("Monodelphis domestica")])]
  const BibRecord: seq<Node> := [
    Span("au", [Text("Christian, P. D.")]), Text(" "), Span("year", [Text("1983")]), Text(". "),
    Span("title", TitleBody)]

  const AuthorTags: seq<Tag> := [B("au"), I("au"), I("au"), I("au"), I("au"), I("au"), I("au"), I("au")]
  const TitleTags: seq<Tag> := [B("title"), I("title"), I("title"), I("title"), I("title"), I("title"), I("title"), I("title"), I("title")]

  lemma TitleBodyRender()
    ensures Render(TitleBody) == "Water balance in " + "Monodelphis domestica"
  {
    TextAlone("Monodelphis domestica");
    assert TitleBody == [Text("Water balance in ")] + ([Deco("i", [Text("Monodelphis domestica")])] + []);
    TextFirst("Water balance in ", [Deco("i", [Text("Monodelphis domestica")])] + [], 0);
    DecoFirst("i", [Text("Monodelphis domestica")], [], 0);
  }

  lemma SpanDecodesAs(l: string, body: seq<Node>, text: string, ts: seq<string>)
    requires Render(body) == text && Tokenize(text) == ts
    ensures DecodeNode(Span(l, body), Tokenize) == Decoded(ts, SpanTags(l, |ts|))
  {
  }

  lemma TextDecodesAs(t: string, ts: seq<string>)
    requires Tokenize(t) == ts
    ensures DecodeNode(Text(t), Tokenize) == Decoded(ts, Outside(|ts|))
  {
  }

  lemma BibSpanTags()
    ensures SpanTags("au", 8) == AuthorTags
    ensures SpanTags("title", 9) == TitleTags
  {
  }

  lemma AuthorDecoded()
    ensures DecodeNode(Span("au", [Text("Christian, P. D.")]), Tokenize) == Decoded(AuthorTokens, AuthorTags)
  {
    TextAlone("Christian, P. D.");
    AuthorTokenized();
    SpanDecodesAs("au", [Text("Christian, P. D.")], "Christian, P. D.", AuthorTokens);
    BibSpanTags();
  }

  lemma SpaceDecoded()
    ensures DecodeNode(Text(" "), Tokenize) == Decoded([" "], [O])
  {
    SpaceTokenized();
    TextDecodesAs(" ", [" "]);
    assert Outside(1) == [O];
  }

  lemma YearDecoded()
    ensures DecodeNode(Span("year", [Text("1983")]), Tokenize) == Decoded(["1983"], [B("year")])
  {
    TextAlone("1983");
    YearTokenized();
    SpanDecodesAs("year", [Text("1983")], "1983", ["1983"]);
    assert SpanTags("year", 1) == [B("year")];
  }

  lemma StopDecoded()
    ensures DecodeNode(Text(". "), Tokenize) == Decoded([".", " "], [O, O])
  {
    StopTokenized();
    TextDecodesAs(". ", [".", " "]);
    assert Outside(2) == [O, O];
  }

  lemma TitleDecoded()
    ensures DecodeNode(Span("title", TitleBody), Tokenize) == Decoded(TitleTokens, TitleTags)
  {
    TitleBodyRender();
    TitleTokenized();
    SpanDecodesAs("title", TitleBody, "Water balance in " + "Monodelphis domestica", TitleTokens);
    BibSpanTags();
  }

  lemma FiveCons<T>(a: T, b: T, c: T, d: T, e: T)
    ensures [a, b, c, d, e] == [a] + ([b] + ([c] + ([d] + [e])))
  {
  }

  /** Decoding five top-level nodes joins their decodings in order. */
  lemma DecodeFive(n0: Node, n1: Node, n2: Node, n3: Node, n4: Node, d0: Decoded, d1: Decoded, d2: Decoded, d3: Decoded, d4: Decoded)
    requires !n0.Deco? && !n1.Deco? && !n2.Deco? && !n3.Deco? && !n4.Deco?
    requires DecodeNode(n0, Tokenize) == d0 && DecodeNode(n1, Tokenize) == d1 && DecodeNode(n2, Tokenize) == d2
    requires DecodeNode(n3, Tokenize) == d3 && DecodeNode(n4, Tokenize) == d4
    ensures IsRecordContent([n0, n1, n2, n3, n4])
    ensures Decode([n0, n1, n2, n3, n4], Tokenize) == Join(d0, Join(d1, Join(d2, Join(d3, d4))))
  {
    DecodeSingle(n4, Tokenize);
    DecodeCons(n3, [n4]);
    DecodeCons(n2, [n3] + [n4]);
    DecodeCons(n1, [n2] + ([n3] + [n4]));
    DecodeCons(n0, [n1] + ([n2] + ([n3] + [n4])));
    FiveCons(n0, n1, n2, n3, n4);
  }

  /** Decoding the bibliographic record: the `i` text inside the title is tokenized with the
      rest of the title and tagged `I-title`, never labelled on its own. */
  lemma DecodeBibRecord()
    ensures IsRecordContent(BibRecord)
    ensures Decode(BibRecord, Tokenize).tokens == AuthorTokens + ([" "] + (["1983"] + ([".", " "] + TitleTokens)))
    ensures Decode(BibRecord, Tokenize).tags == AuthorTags + ([O] + ([B("year")] + ([O, O] + TitleTags)))
  {
    AuthorDecoded();
    SpaceDecoded();
    YearDecoded();
    StopDecoded();
    TitleDecoded();
    DecodeFive(Span("au", [Text("Christian, P. D.")]), Text(" "), Span("year", [Text("1983")]), Text(". "),
      Span("title", TitleBody),
      Decoded(AuthorTokens, AuthorTags), Decoded([" "], [O]), Decoded(["1983"], [B("year")]),
      Decoded([".", " "], [O, O]), Decoded(TitleTokens, TitleTags));
  }
}
