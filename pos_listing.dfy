/**
  The part-of-speech listing of the analyze page: one (word, tag) pair per
  token, rendered as HTML with one line per pair.
 */
module PosListing {
  import opened Tokens

  /** The (word, tag) pairs of a parsed sentence, one per token, in document order. */
  function AnalyzeSentence(doc: seq<Token>): (posTags: seq<(string, string)>)
    ensures |posTags| == |doc|
    ensures forall i :: 0 <= i < |doc| ==> posTags[i] == (doc[i].text, doc[i].pos)
  {
    if doc == [] then [] else [(doc[0].text, doc[0].pos)] + AnalyzeSentence(doc[1..])
  }

  /** The HTML line shown for one word and its tag. */
  function Line(word: string, tag: string): (line: string)
    ensures |line| == |word| + |tag| + 7
    ensures line[..|word|] == word && line[|line| - 5..] == " <br>"
    ensures line[|word|..|word| + 2] == ": " && line[|word| + 2..|line| - 5] == tag
  {
    word + ": " + tag + " <br>"
  }

  /** The lines of all pairs, concatenated in order. */
  function Rendered(posTags: seq<(string, string)>): (html: string)
    ensures |html| >= 7 * |posTags|
  {
    if posTags == [] then "" else Line(posTags[0].0, posTags[0].1) + Rendered(posTags[1..])
  }

  /** Accumulates the HTML line by line, as the analyze page builds it. */
  method VisualizeAnalysis(posTags: seq<(string, string)>) returns (htmlOutput: string)
    ensures htmlOutput == Rendered(posTags)
    ensures |htmlOutput| == TextLength(posTags) + 7 * |posTags|
  {
    htmlOutput := "";
    for i := 0 to |posTags|
      invariant htmlOutput == Rendered(posTags[..i])
    {
      var (word, posTag) := posTags[i];
      assert posTags[..i + 1] == posTags[..i] + [posTags[i]];
      RenderedConcat(posTags[..i], [posTags[i]]);
      htmlOutput := htmlOutput + Line(word, posTag);
    }
    assert posTags[..|posTags|] == posTags;
    RenderedLength(posTags);
  }

  /** The total length of all words and tags. */
  function TextLength(posTags: seq<(string, string)>): nat {
    if posTags == [] then 0 else |posTags[0].0| + |posTags[0].1| + TextLength(posTags[1..])
  }

  /** Listing distributes over joining sentences. */
  lemma AnalyzeSentenceConcat(a: seq<Token>, b: seq<Token>)
    ensures AnalyzeSentence(a + b) == AnalyzeSentence(a) + AnalyzeSentence(b)
  {
  }

  /** Rendering distributes over joining pair lists. */
  lemma {:induction false} RenderedConcat(a: seq<(string, string)>, b: seq<(string, string)>)
    ensures Rendered(a + b) == Rendered(a) + Rendered(b)
  {
    if a == [] {
      assert a + b == b;
    } else {
      assert (a + b)[1..] == a[1..] + b;
      RenderedConcat(a[1..], b);
    }
  }

  /** A single pair renders as its own line. */
  lemma RenderedSingle(pair: (string, string))
    ensures Rendered([pair]) == Line(pair.0, pair.1)
  {
  }

  /** Each pair's line sits between the lines of the pairs before it and those after it. */
  lemma RenderedAt(posTags: seq<(string, string)>, k: nat)
    requires k < |posTags|
    ensures Rendered(posTags) == Rendered(posTags[..k]) + Line(posTags[k].0, posTags[k].1) + Rendered(posTags[k + 1..])
  {
    var pre, rest := posTags[..k], posTags[k..];
    assert Rendered(posTags) == Rendered(pre) + Rendered(rest) by {
      assert posTags == pre + rest;
      RenderedConcat(pre, rest);
    }
    assert rest[1..] == posTags[k + 1..];
  }

  /** Every line adds seven characters of markup to its word and tag. */
  lemma {:induction false} RenderedLength(posTags: seq<(string, string)>)
    ensures |Rendered(posTags)| == TextLength(posTags) + 7 * |posTags|
  {
    if posTags != [] {
      RenderedLength(posTags[1..]);
    }
  }

  /** The rendering is empty exactly when there are no pairs. */
  lemma RenderedEmptyIff(posTags: seq<(string, string)>)
    ensures Rendered(posTags) == "" <==> posTags == []
  {
  }

  /** In the page's listing, token k's word and tag appear between those of the tokens around it. */
  lemma ListingOfSentence(doc: seq<Token>, k: nat)
    requires k < |doc|
    ensures Rendered(AnalyzeSentence(doc))
         == Rendered(AnalyzeSentence(doc[..k])) + Line(doc[k].text, doc[k].pos) + Rendered(AnalyzeSentence(doc[k + 1..]))
  {
    SliceListing(doc, k);
    SliceListing(doc, k + 1);
    RenderedAt(AnalyzeSentence(doc), k);
  }

  /** The listing of a prefix or a suffix of a sentence is that prefix or suffix of its listing. */
  lemma SliceListing(doc: seq<Token>, k: nat)
    requires k <= |doc|
    ensures AnalyzeSentence(doc)[..k] == AnalyzeSentence(doc[..k])
    ensures AnalyzeSentence(doc)[k..] == AnalyzeSentence(doc[k..])
  {
    assert doc == doc[..k] + doc[k..];
    AnalyzeSentenceConcat(doc[..k], doc[k..]);
  }
}
