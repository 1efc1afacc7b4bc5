/** The reference tokenizer: maximal runs of word characters are tokens, and every other
    character is a token of its own. */
module Tokenizer {
  import opened Texts

  /** A word character: a letter or a digit; the underscore is not one. */
  predicate IsWordChar(c: char)
  {
    'a' <= c <= 'z' || 'A' <= c <= 'Z' || '0' <= c <= '9'
  }

  /** A non-empty run of word characters. */
  predicate IsWordRun(t: string)
  {
    |t| > 0 && forall k :: 0 <= k < |t| ==> IsWordChar(t[k])
  }

  /** A token the tokenizer can emit: a word run, or a single non-word character. */
  predicate IsToken(t: string)
  {
    IsWordRun(t) || (|t| == 1 && !IsWordChar(t[0]))
  }

  /** A sequence of tokens no two neighbours of which are word runs: exactly the shape of
      the tokenizer's output, since word runs are maximal. */
  predicate IsChain(ts: seq<string>)
  {
    (forall k :: 0 <= k < |ts| ==> IsToken(ts[k])) &&
    (forall k :: 0 <= k < |ts| - 1 ==> !(IsWordRun(ts[k]) && IsWordRun(ts[k + 1])))
  }

  /** The length of the longest prefix of `s` made of word characters. */
  function WordPrefix(s: string): (n: nat)
    ensures n <= |s|
    ensures forall k :: 0 <= k < n ==> IsWordChar(s[k])
    ensures n < |s| ==> !IsWordChar(s[n])
  {
    if |s| == 0 || !IsWordChar(s[0]) then 0
    else
      var m := WordPrefix(s[1..]);
      assert forall k :: 1 <= k < m + 1 ==> s[k] == s[1..][k - 1];
      1 + m
  }

  /** Splits `text` into tokens, left to right. */
  function Tokenize(text: string): (ts: seq<string>)
    ensures Concat(ts) == text
    ensures IsChain(ts)
    ensures |text| > 0 ==> |ts| > 0 && |ts[0]| > 0 && ts[0][0] == text[0]
    decreases |text|
  {
    if |text| == 0 then []
    else
      var n := if IsWordChar(text[0]) then WordPrefix(text) else 1;
      var rest := Tokenize(text[n..]);
      assert text == text[..n] + text[n..];
      assert IsWordRun(text[..n]) ==> |rest| == 0 || !IsWordRun(rest[0]);
      assert forall k :: 1 <= k < |rest| + 1 ==> ([text[..n]] + rest)[k] == rest[k - 1];
      [text[..n]] + rest
  }

  /** The longest word prefix of a word run followed by a non-word character is that run. */
  lemma WordPrefixOfRun(a: string, b: string)
    requires IsWordRun(a)
    requires |b| == 0 || !IsWordChar(b[0])
    ensures WordPrefix(a + b) == |a|
  {
    assert (a + b)[..|a|] == a;
  }

  /** Tokenizing the concatenation of a chain gives back the chain: the chain is the only
      token sequence the tokenizer can produce for that text. */
  lemma {:induction false} TokenizeChain(ts: seq<string>)
    requires IsChain(ts)
    ensures Tokenize(Concat(ts)) == ts
    decreases |ts|
  {
    if |ts| > 0 {
      var text := Concat(ts);
      var tail := Concat(ts[1..]);
      assert text == ts[0] + tail;
      assert IsChain(ts[1..]) by {
        assert forall k :: 0 <= k < |ts| - 1 ==> ts[1..][k] == ts[k + 1];
      }
      TokenizeChain(ts[1..]);
      if IsWordRun(ts[0]) {
        if |ts| > 1 {
          assert !IsWordRun(ts[1]);
          assert Tokenize(tail)[0][0] == ts[1][0];
        }
        WordPrefixOfRun(ts[0], tail);
        assert text[..|ts[0]|] == ts[0];
        assert text[|ts[0]|..] == tail;
      } else {
        assert text[..1] == ts[0];
        assert text[1..] == tail;
      }
    }
  }
}
