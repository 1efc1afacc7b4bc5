/** IOB tags: one per token, marking where labelled spans begin and continue. */
module Iob {
  import opened Results

  /** `O` is outside every span; `B(l)` begins a span labelled `l`; `I(l)` continues it. */
  datatype Tag = O | B(name: string) | I(name: string)

  /** A tag sequence is well formed when every `I(l)` directly follows a `B(l)` or an `I(l)`. */
  predicate WellFormed(tags: seq<Tag>)
  {
    forall i :: 0 <= i < |tags| && tags[i].I? ==>
      0 < i && !tags[i - 1].O? && tags[i - 1].name == tags[i].name
  }

  /** The textual form of a tag: `O`, `B-<label>` or `I-<label>`. */
  function FormatTag(t: Tag): string
  {
    match t
    case O => "O"
    case B(l) => "B-" + l
    case I(l) => "I-" + l
  }

  /** Reads a textual tag; anything that is not `O`, `B-…` or `I-…` is rejected. */
  function ParseTag(s: string): (r: Option<Tag>)
    ensures r.Some? ==> FormatTag(r.value) == s
    ensures r.None? ==> s != "O" && !(|s| >= 2 && s[..2] in {"B-", "I-"})
  {
    if s == "O" then Some(O)
    else if |s| >= 2 && s[..2] == "B-" then Some(B(s[2..]))
    else if |s| >= 2 && s[..2] == "I-" then Some(I(s[2..]))
    else None
  }

  /** Every tag survives formatting followed by parsing. */
  lemma ParseFormat(t: Tag)
    ensures ParseTag(FormatTag(t)) == Some(t)
  {
    match t
    case O =>
    case B(l) => assert FormatTag(t)[..2] == "B-" && FormatTag(t)[2..] == l;
    case I(l) => assert FormatTag(t)[..2] == "I-" && FormatTag(t)[2..] == l;
  }

  /** `n` tags, each `O`. */
  function Outside(n: nat): (tags: seq<Tag>)
    ensures |tags| == n && forall k :: 0 <= k < n ==> tags[k] == O
  {
    if n == 0 then [] else [O] + Outside(n - 1)
  }

  /** The tags of one span of `n` tokens labelled `l`: `B(l)` first, `I(l)` after; none when `n == 0`. */
  function SpanTags(l: string, n: nat): (tags: seq<Tag>)
    ensures |tags| == n
    ensures n > 0 ==> tags[0] == B(l)
    ensures forall k :: 0 < k < n ==> tags[k] == I(l)
  {
    if n == 0 then [] else [B(l)] + Continuing(l, n - 1)
  }

  /** `n` tags, each `I(l)`. */
  function Continuing(l: string, n: nat): (tags: seq<Tag>)
    ensures |tags| == n && forall k :: 0 <= k < n ==> tags[k] == I(l)
  {
    if n == 0 then [] else [I(l)] + Continuing(l, n - 1)
  }

  /** The number of span beginnings in `tags`. */
  function CountBegins(tags: seq<Tag>): nat
  {
    if |tags| == 0 then 0 else (if tags[0].B? then 1 else 0) + CountBegins(tags[1..])
  }

  /** Counting span beginnings distributes over append. */
  lemma {:induction false} CountBeginsAppend(a: seq<Tag>, b: seq<Tag>)
    ensures CountBegins(a + b) == CountBegins(a) + CountBegins(b)
  {
    if |a| == 0 {
      assert a + b == b;
    } else {
      assert (a + b)[1..] == a[1..] + b;
      CountBeginsAppend(a[1..], b);
    }
  }

  /** Appending a well-formed sequence that does not start with `I` keeps a sequence well formed. */
  lemma WellFormedAppend(a: seq<Tag>, b: seq<Tag>)
    requires WellFormed(a) && WellFormed(b)
    requires |b| > 0 ==> !b[0].I?
    ensures WellFormed(a + b)
  {
    forall i | 0 <= i < |a + b| && (a + b)[i].I?
      ensures 0 < i && !(a + b)[i - 1].O? && (a + b)[i - 1].name == (a + b)[i].name
    {
      if i >= |a| {
        assert (a + b)[i] == b[i - |a|];
        if i > |a| { assert (a + b)[i - 1] == b[i - 1 - |a|]; }
      }
    }
  }
}
