/** A record's spans as a set of `(start, end, label)` triples: half-open character offsets
    into the record's rendered text, found by one left-to-right scan of its event stream. */
module SpanSet {
  import opened Content

  /** One event of the flattened record: text, or the entry to or exit from an element.
      Spans enter with their label; other markup enters and exits by name. */
  datatype Event = TextEvent(text: string) | SpanEnter(name: string) | SpanExit
                 | OtherEnter(name: string) | OtherExit(name: string)

  /** The event stream of record content, in document order. */
  function Events(c: seq<Node>): seq<Event>
    decreases c
  {
    if |c| == 0 then []
    else
      match c[0]
      case Text(t) => [TextEvent(t)] + Events(c[1..])
      case Span(l, b) => [SpanEnter(l)] + Events(b) + [SpanExit] + Events(c[1..])
      case Deco(n, b) => [OtherEnter(n)] + Events(b) + [OtherExit(n)] + Events(c[1..])
  }

  /** A span entry: half-open offsets `[start, end)` and the span's label. */
  datatype Triple = Triple(start: nat, end: nat, name: string)

  /** A span that has been entered and not yet exited. */
  datatype Opened = Opened(start: nat, name: string)

  /** The scan's state: the running offset, the spans still open (innermost first) and
      the triples found so far. */
  datatype ScanState = ScanState(pos: nat, open: seq<Opened>, found: set<Triple>)

  /** Consumes one event. Text advances the offset; entering a span remembers where it
      starts; leaving it emits its triple. Other markup changes nothing. */
  function Advance(st: ScanState, e: Event): ScanState
  {
    match e
    case TextEvent(t) => st.(pos := st.pos + |t|)
    case SpanEnter(l) => st.(open := [Opened(st.pos, l)] + st.open)
    case SpanExit =>
      if |st.open| == 0 then st
      else st.(open := st.open[1..], found := st.found + {Triple(st.open[0].start, st.pos, st.open[0].name)})
    case OtherEnter(_) => st
    case OtherExit(_) => st
  }

  /** Consumes `evs` in order. */
  function Run(evs: seq<Event>, st: ScanState): ScanState
    decreases |evs|
  {
    if |evs| == 0 then st else Run(evs[1..], Advance(st, evs[0]))
  }

  /** The set of span triples of a record, given its event stream. */
  function RecordToSet(evs: seq<Event>): set<Triple>
  {
    Run(evs, ScanState(0, [], {})).found
  }

  /** A span found in the tree together with its full inner text. */
  datatype Located = Located(span: Triple, text: string)

  /** The spans of `c`, rendered from offset `base`, located directly on the tree: a span
      starts where the text before it ends and is as long as its full inner text. */
  function SpansFrom(c: seq<Node>, base: nat): set<Located>
    decreases c
  {
    if |c| == 0 then {}
    else
      match c[0]
      case Text(t) => SpansFrom(c[1..], base + |t|)
      case Span(l, b) =>
        {Located(Triple(base, base + |Render(b)|, l), Render(b))}
          + SpansFrom(b, base) + SpansFrom(c[1..], base + |Render(b)|)
      case Deco(_, b) => SpansFrom(b, base) + SpansFrom(c[1..], base + |Render(b)|)
  }

  /** The triples of located spans. */
  function Triples(ls: set<Located>): (ts: set<Triple>)
    ensures forall x :: x in ls ==> x.span in ts
    ensures forall t :: t in ts ==> exists x :: x in ls && x.span == t
  {
    set x | x in ls :: x.span
  }

  lemma TriplesUnion(a: set<Located>, b: set<Located>)
    ensures Triples(a + b) == Triples(a) + Triples(b)
  {
  }

  /** Running a concatenation runs its parts in turn. */
  lemma {:induction false} RunAppend(a: seq<Event>, b: seq<Event>, st: ScanState)
    ensures Run(a + b, st) == Run(b, Run(a, st))
    decreases |a|
  {
    if |a| == 0 {
      assert a + b == b;
    } else {
      assert (a + b)[0] == a[0];
      assert (a + b)[1..] == a[1..] + b;
      RunAppend(a[1..], b, Advance(st, a[0]));
    }
  }

  /** The state after scanning content that rendered from `st.pos`: the offset advanced by
      the rendered length, the open spans as they were, the located triples added. */
  function After(c: seq<Node>, st: ScanState): ScanState
  {
    ScanState(st.pos + |Render(c)|, st.open, st.found + Triples(SpansFrom(c, st.pos)))
  }

  /** Scanning a record's events advances the offset by the length of its rendered text,
      leaves the open spans as they were, and adds exactly the triples located on the tree. */
  lemma {:induction false} RunEvents(c: seq<Node>, st: ScanState)
    ensures Run(Events(c), st) == After(c, st)
    decreases c, 1
  {
    if |c| == 0 {
      assert Triples({}) == {};
      assert st.found + {} == st.found;
    } else {
      match c[0]
      case Text(t) => RunEventsText(c, st);
      case Span(l, b) => RunEventsSpan(c, st);
      case Deco(n, b) => RunEventsDeco(c, st);
    }
  }

  lemma {:induction false} RunEventsText(c: seq<Node>, st: ScanState)
    requires |c| > 0 && c[0].Text?
    ensures Run(Events(c), st) == After(c, st)
    decreases c, 0
  {
    var t, rest := c[0].text, c[1..];
    var st1 := Advance(st, TextEvent(t));
    assert Events(c) == [TextEvent(t)] + Events(rest);
    RunAppend([TextEvent(t)], Events(rest), st);
    assert Run([TextEvent(t)], st) == st1;
    RunEvents(rest, st1);
    assert Render(c) == t + Render(rest);
    assert SpansFrom(c, st.pos) == SpansFrom(rest, st1.pos);
  }

  lemma {:induction false} RunEventsSpan(c: seq<Node>, st: ScanState)
    requires |c| > 0 && c[0].Span?
    ensures Run(Events(c), st) == After(c, st)
    decreases c, 0
  {
    var l, b, rest := c[0].name, c[0].body, c[1..];
    var block := [SpanEnter(l)] + Events(b) + [SpanExit];
    var here := Located(Triple(st.pos, st.pos + |Render(b)|, l), Render(b));
    assert Events(c) == block + Events(rest);
    RunAppend(block, Events(rest), st);
    var st3 := Run(block, st);
    RunSpanBlock(l, b, st);
    RunEvents(rest, st3);
    assert Render(c) == Render(b) + Render(rest);
    assert SpansFrom(c, st.pos) == {here} + SpansFrom(b, st.pos) + SpansFrom(rest, st3.pos);
    TriplesUnion({here} + SpansFrom(b, st.pos), SpansFrom(rest, st3.pos));
    TriplesUnion({here}, SpansFrom(b, st.pos));
    assert Triples({here}) == {here.span};
  }

  /** Scanning one span's events emits its triple, after the triples inside it. */
  lemma {:induction false} RunSpanBlock(l: string, b: seq<Node>, st: ScanState)
    ensures Run([SpanEnter(l)] + Events(b) + [SpanExit], st)
         == ScanState(st.pos + |Render(b)|, st.open,
                      st.found + Triples(SpansFrom(b, st.pos)) + {Triple(st.pos, st.pos + |Render(b)|, l)})
    decreases b, 2
  {
    var st1 := Advance(st, SpanEnter(l));
    var st2 := Run(Events(b), st1);
    var st3 := Advance(st2, SpanExit);
    RunAppend([SpanEnter(l)] + Events(b), [SpanExit], st);
    RunAppend([SpanEnter(l)], Events(b), st);
    assert Run([SpanEnter(l)], st) == st1;
    RunEvents(b, st1);
    assert Run([SpanExit], st2) == st3;
    assert ([Opened(st.pos, l)] + st.open)[1..] == st.open;
  }

  lemma {:induction false} RunEventsDeco(c: seq<Node>, st: ScanState)
    requires |c| > 0 && c[0].Deco?
    ensures Run(Events(c), st) == After(c, st)
    decreases c, 0
  {
    var n, b, rest := c[0].name, c[0].body, c[1..];
    var st1 := Advance(st, OtherEnter(n));
    var st2 := Run(Events(b), st1);
    assert Events(c) == [OtherEnter(n)] + Events(b) + [OtherExit(n)] + Events(rest);
    RunAppend([OtherEnter(n)] + Events(b) + [OtherExit(n)], Events(rest), st);
    RunAppend([OtherEnter(n)] + Events(b), [OtherExit(n)], st);
    RunAppend([OtherEnter(n)], Events(b), st);
    assert Run([OtherEnter(n)], st) == st1;
    RunEvents(b, st1);
    assert Run([OtherExit(n)], st2) == st2;
    RunEvents(rest, st2);
    assert Render(c) == Render(b) + Render(rest);
    assert SpansFrom(c, st.pos) == SpansFrom(b, st.pos) + SpansFrom(rest, st2.pos);
    TriplesUnion(SpansFrom(b, st.pos), SpansFrom(rest, st2.pos));
  }

  /** The scan finds exactly the spans located on the tree. */
  lemma RecordToSetLocates(c: seq<Node>)
    ensures RecordToSet(Events(c)) == Triples(SpansFrom(c, 0))
  {
    RunEvents(c, ScanState(0, [], {}));
  }

  /** The offsets of a located span index the rendered text: slicing at them gives back
      the span's full inner text. */
  predicate IndexesText(x: Located, text: string, base: nat)
  {
    base <= x.span.start <= x.span.end <= base + |text| &&
    text[x.span.start - base .. x.span.end - base] == x.text
  }

  lemma SliceLeft(a: string, b: string, i: nat, j: nat)
    requires i <= j <= |a|
    ensures (a + b)[i..j] == a[i..j]
  {
  }

  lemma SliceRight(a: string, b: string, i: nat, j: nat)
    requires i <= j <= |b|
    ensures (a + b)[|a| + i .. |a| + j] == b[i..j]
  {
  }

  /** Every span located in `c` from offset `base` indexes `c`'s rendered text. */
  lemma {:induction false} SpansIndexText(c: seq<Node>, base: nat)
    ensures forall x :: x in SpansFrom(c, base) ==> IndexesText(x, Render(c), base)
    decreases c
  {
    if |c| > 0 {
      var rest := c[1..];
      var inner := match c[0] case Text(t) => t case Span(_, b) => Render(b) case Deco(_, b) => Render(b);
      var base' := base + |inner|;
      assert Render(c) == inner + Render(rest);
      SpansIndexText(rest, base');
      forall x | x in SpansFrom(rest, base')
        ensures IndexesText(x, Render(c), base)
      {
        SliceRight(inner, Render(rest), x.span.start - base', x.span.end - base');
      }
      if !c[0].Text? {
        var b := c[0].body;
        SpansIndexText(b, base);
        forall x | x in SpansFrom(b, base)
          ensures IndexesText(x, Render(c), base)
        {
          SliceLeft(inner, Render(rest), x.span.start - base, x.span.end - base);
        }
        SliceLeft(inner, Render(rest), 0, |inner|);
      }
    }
  }

  /** Every triple the scan finds indexes the record's rendered text, and the text it
      indexes is the full inner text of a span with that label. */
  lemma RecordToSetIndexesText(c: seq<Node>)
    ensures forall t :: t in RecordToSet(Events(c)) ==>
      exists x :: x in SpansFrom(c, 0) && x.span == t && IndexesText(x, Render(c), 0)
  {
    RecordToSetLocates(c);
    SpansIndexText(c, 0);
  }
}
