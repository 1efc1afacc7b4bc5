# BRS span annotations: IOB conversion and span-set evaluation

A Dafny model of the core of `ilabs.brs`. BRS is an XML format: a document element `b` holds
record elements `r`, and each record interleaves plain text with labelled spans
`<s l="label">…</s>`. Other markup (`i`, `div`, `p`, …) may appear inside a record.
The model covers four components:

- **Reference tokenizer** (`tokenzier`). It splits text into maximal runs of word characters
  (letters and digits, not `_`). Every other character becomes a one-character token.
  Module `Tokenizer`.
- **IOB encoder** (`record_from_tokens_and_iob_labels`). It turns parallel sequences of tokens
  and IOB tags into record content:
  - `O` tokens become plain text;
  - `B-L` opens a span labelled `L`;
  - `I-L` extends the open span;
  - adjacent pieces are joined with no separator.

  Modules `Iob` and `Encoder`.
- **IOB decoder** (`tokens_and_iob_labels_from_record`). It walks a record's children:
  - top-level text is tokenized and every token is tagged `O`;
  - each span's full inner text, including text inside nested markup, is tokenized as one string;
  - the span's first token is tagged `B-L` and the rest `I-L`.

  The tokenizer is a parameter. Module `Decoder`. The encode-then-decode round trip is in
  module `RoundTrip`.
- **Span-set extraction and evaluation** (`record_to_set`, `evaluate`):
  - the extraction scans a record's flattened event stream with a running character offset
    and emits half-open `(start, end, label)` triples;
  - `evaluate` sums |G∩S|, |S−G|, |G−S| and |G| over records paired by position. It rejects
    arguments that are not trees with `TypeError`, and non-documents or documents with
    different record counts with `ValueError`.

  Modules `SpanSet` and `Evaluation`.

Record content is a tree of nodes (module `Content`): `Text`, `Span` (the `s` element) and
`Deco` (any other element). `Render` gives the full text of the content in document order.
The concrete records and documents of the test suite are in module `Scenarios`, with what the
model computes for each of them.

The implementation modules of the package are not part of this model. The behaviour is fixed
by the repository's tests and by the tokenizer code in `ilabs/brs/test/test_brs.py`. Where
the tests leave a choice open, the model makes the choice stated under "Left out".

## Model

| member | source | states |
|---|---|---|
| Tokenizer.WordPrefix | ilabs/brs/test/test_brs.py:97 | the regex match `[^\W_]+` taken at a word character: the prefix it measures is all word characters and is maximal (the next character, if any, is not a word character) |
| Tokenizer.Tokenize | ilabs/brs/test/test_brs.py:95-105 | the tokenizer is lossless (the tokens concatenate to exactly the input); every token is a non-empty word run or a single non-word character; no two adjacent tokens are both word runs, so runs are maximal |
| Tokenizer.TokenizeChain | ilabs/brs/test/test_brs.py:95-105 | the converse: any sequence of such tokens with no two adjacent word runs is exactly what the tokenizer returns for its concatenation, so the output shape is unique |
| Iob.ParseTag | ilabs/brs/test/test_brs.py:84 | a tag string parses only if it is `O`, `B-…` or `I-…`, and a parsed tag formats back to the same string; a rejected string is none of these forms |
| Iob.ParseFormat | ilabs/brs/test/test_brs.py:84 | every tag survives formatting followed by parsing |
| Iob.SpanTags | ilabs/brs/test/test_brs.py:112 | the tags of a span of n tokens: exactly n tags, `B-L` first and `I-L` for all the others |
| Encoder.Step | ilabs/brs/test/test_brs.py:82-87 | after each token the open run is the one its tag calls for (plain for `O`, a span labelled L for `B-L`/`I-L`), and emitted content never gains a top-level decoration element |
| Encoder.Encode | ilabs/brs/test/test_brs.py:82-87 | for well-formed equal-length input the encoder produces valid record content: only text runs and spans at the top level |
| Encoder.ScanRender | ilabs/brs/test/test_brs.py:82-87 | from any intermediate state, the content finally emitted renders to the text already emitted or held, followed by the remaining tokens joined |
| Encoder.EncodeRender | ilabs/brs/test/test_brs.py:82-87 | encoding is lossless: the record's rendered text is the concatenation of the input tokens, with no separator inserted |
| Encoder.EncodeMergesText | ilabs/brs/test/test_brs.py:82-87 | consecutive `O` tokens become a single text run: the encoder never emits two text runs side by side (the three plain tokens of the test become one `Hello, `) |
| Encoder.EncodeGreeting | ilabs/brs/test/test_brs.py:80-92 | the test's tokens and tags encode to plain "Hello, ", a `word` span holding "beautiful world", then plain "!" |
| Decoder.DecodeNode | ilabs/brs/test/test_brs.py:107-128 | one top-level child yields as many tags as tokens, in well-formed IOB, never starting with `I` |
| Decoder.Decode | ilabs/brs/test/test_brs.py:107-128 | a whole record yields token and tag sequences of equal length; the tags are well formed (every `I-L` follows a `B-L` or `I-L` of the same label) and never start with `I` |
| Decoder.DecodeAppend | ilabs/brs/test/test_brs.py:107-128 | children are decoded independently and in document order: decoding concatenated content concatenates the decodings |
| Decoder.DecodeLossless | ilabs/brs/test/test_brs.py:109-111 | with a lossless tokenizer, the decoded tokens concatenate to the record's full rendered text, nested markup included |
| Decoder.DecodeSpan | ilabs/brs/test/test_brs.py:116-128 | decoration inside a span does not change how it decodes: the span decodes exactly as a span holding its full inner text as one text run; with a lossless tokenizer a span with text yields tokens that join back to that text and exactly one `B` tag |
| Decoder.DecodeText | ilabs/brs/test/test_brs.py:110-112 | top-level text opens no span: every tag is `O`, no tag begins a span, and with a lossless tokenizer the tokens join back to the text |
| Decoder.DecodeCountsSpans | ilabs/brs/test/test_brs.py:118-128 | with a lossless tokenizer that emits no empty token, the number of `B` tags equals the number of spans that have text |
| Decoder.ReferenceTokenizerLossless | ilabs/brs/test/test_brs.py:95-105 | the reference tokenizer meets both of the decoder's assumptions: it is lossless and never emits an empty token, so the span-count property applies to it |
| RoundTrip.ScanDecode | ilabs/brs/test/test_brs.py:83-84 | the generalised round trip: from any encoder state, decoding the final content gives the decoding of what was already emitted, then the tokens and tags of the open run and of the rest of the input |
| RoundTrip.DecodeEncode | ilabs/brs/test/test_brs.py:83-84 | round trip: decoding the encoder's output with the reference tokenizer gives back the original tokens and tags, for well-formed input whose tokens the tokenizer would split the same way |
| SpanSet.RunEvents | ilabs/brs/test/test_evaluation.py:29-37 | scanning the events of any content advances the offset by the length of its rendered text, leaves enclosing open spans untouched, and adds exactly the spans located on the tree |
| SpanSet.RecordToSetLocates | ilabs/brs/test/test_evaluation.py:29-37 | the extracted set is exactly the set of spans on the tree, each starting where the text before it ends and as long as its full inner text; text inside other markup advances the offset and emits nothing |
| SpanSet.SpansIndexText | ilabs/brs/test/test_evaluation.py:30-37 | every located span's offsets fall inside the rendered text, and slicing there gives the span's inner text |
| SpanSet.RecordToSetIndexesText | ilabs/brs/test/test_evaluation.py:30-37 | every extracted triple is half-open over the record's rendered text, and the slice `[start, end)` is the full inner text of a span with that label |
| Evaluation.PairCounts | ilabs/brs/test/test_evaluation.py:45-52 | for one record pair, tp + fn is the number of gold spans and tp + fp the number of test spans; tp plus the size of the union of the two sets is the sum of their sizes, so tp is exactly the number of shared triples; matching is by exact triple equality: fn is 0 exactly when every gold triple occurs in the test set, fp is 0 exactly when every test triple occurs in the gold set |
| Evaluation.Score | ilabs/brs/test/test_evaluation.py:45-52 | summed over records paired by position: gold_tag_count is the total of the gold span sets, tp + fn = gold_tag_count, tp + fp = total test spans, and tp plus the summed sizes of the per-record unions equals the gold total plus the test total, so tp is the summed number of shared triples; fn = 0 exactly when each gold record's triples all occur in its paired test record, fp = 0 exactly when the converse holds; identical record lists give fp = fn = 0 |
| Evaluation.Evaluate | ilabs/brs/test/test_evaluation.py:40-56 | TypeError exactly when an argument is not a tree; ValueError exactly when both are trees but one is not a document or the record counts differ; otherwise the counts satisfy the identities of Score, including tp as the summed number of shared triples and the exact-match meaning of fn = 0 and fp = 0 |
| Evaluation.EvaluateSelf | ilabs/brs/test/test_evaluation.py:45-52 | a document scored against itself matches every span: tp = gold_tag_count, fp = fn = 0 |
| Scenarios.TwoSpanRecordSet | ilabs/brs/test/test_evaluation.py:11-15 | a record `a <s l1>x</s>m <s l2>y</s>` extracts exactly two triples: l1 from len(a) to len(a)+len(x), and l2 from len(a)+len(x)+len(m) for len(y) characters |
| Scenarios.FirstSampleRecordSet | ilabs/brs/test/test_evaluation.py:29-33 | the first sample record extracts {(7, 13, record), (15, 16, refno)} |
| Scenarios.MarkupRecordSet | ilabs/brs/test/test_evaluation.py:23-25 | the record with `div` and `p` markup extracts {(26, 32, sample), (47, 53, sample), (54, 58, data)} |
| Scenarios.ThirdRecordCounts | ilabs/brs/test/test_evaluation.py:14-20 | the changed third record (span boundary moved past `-`) shares one triple of two: counts (2, 1, 1, 1) |
| Scenarios.EvaluateSamples | ilabs/brs/test/test_evaluation.py:40-52 | evaluating the gold sample against the test sample gives gold_tag_count 6, tp 5, fp 1, fn 1 |
| Scenarios.EvaluateRejects | ilabs/brs/test/test_evaluation.py:54-56 | a non-tree first argument is a TypeError; a root `b` outside the BRS namespace is a ValueError; documents with 3 and 1 records are a ValueError |
| Scenarios.DecodeGreeting | ilabs/brs/test/test_brs.py:107-112 | the greeting record decodes to the test's 7 tokens and tags `O O O B-word I-word I-word O` |
| Scenarios.DecodeBibRecord | ilabs/brs/test/test_brs.py:115-128 | the bibliographic record decodes to the test's 21 tokens; the text inside `i` is tagged `I-title` along with the rest of the title |

## Left out

- Parsing (`parse_brs`): byte checks, namespace handling and XML-schema validation. A parsed
  document is an `Argument` tree and a record is a `Node` sequence.
- The `lxmlx` event scan and unscan, and `et.tostring` serialisation. These are foreign
  library calls. Content is a node tree, and its event stream is `SpanSet.Events`.
- Attributes other than the span label, and namespaces of nested markup. The label is the
  span's `name`. Text after an element inside a record (its XML tail) is the next `Text` node.
  Text directly under the root element is not represented: an `Argument` tree holds only the
  root's tag and its child elements. This drops the whitespace between the records of a parsed
  document and the text `Invalid` of the rejected `<b>Invalid</b>`. `evaluate` never reads that
  text: it scores only the records' content and rejects the root by its tag alone.
- Tokenizer.IsWordChar: the regex class `[^\W_]` is Unicode-aware in Python. The model takes
  ASCII letters and digits only, and does not model Unicode character tables.
- The generator mechanics of `tokenzier` and `evaluation.records`. Both are modelled as
  functions that return whole sequences.
- Encoder.Encode: requires well-formed IOB. An `I-L` that does not follow `B-L` or `I-L` of the
  same label is excluded, because no test shows what the encoder does with one. It also takes
  parsed `Tag` values. Tag strings map to tags through `Iob.ParseTag`. It also requires as many
  tags as tokens: no test shows whether a length mismatch is an error or truncates to the
  shorter sequence, so that input is excluded.
- Decoder.Decode: requires that a record has no top-level element other than spans. No test
  shows what the decoder does with other markup directly inside a record. A parsed record never
  holds two adjacent text runs (`Content.TextsMerged`), and the encoder never produces them
  (`Encoder.EncodeMergesText`). `Decode` does not require this. On a sequence with adjacent
  `Text` nodes it tokenizes each node separately, which a parsed record never presents.
- RoundTrip.DecodeEncode: requires that the tokenizer splits each run back into the same
  tokens. Tokens the tokenizer would split differently, such as two adjacent word tokens in one
  run, do not round-trip, and the source makes no claim for them.
- Nested spans and unbalanced events in the extraction: a stack of open spans is used. An exit
  with no open span is ignored. The tests contain no nested spans.
- Evaluation.Evaluate: the check order (argument types, then document validity, then record
  counts) is a choice. Only the first error is visible in the tests. A non-tree second argument
  is also a TypeError. `Evaluation.IsDocument` is a choice too: a root named `b` in the BRS
  namespace whose children are all `r` elements. The tests show only a root outside the
  namespace being rejected; a `b` root with a non-`r` child is also a ValueError here.
- The precision, recall and F1 that callers derive from the counts are not modelled; the
  tests only read the four counts.
- `adict` and `setup.py`: an attribute-access dictionary and packaging metadata, with no logic
  in the core.
