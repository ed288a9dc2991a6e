/** A corpus of documents paired with their results
    (n_grams/n_grams_classes.py, class `Corpus`), and the extraction of one
    feature dictionary per document. */
module Corpora {
  import opened Wrappers
  import opened FeatureCounts
  import opened Conllu
  import opened NGrams
  import opened AffixNGrams

  /** The documents and, position by position, the result each one is paired
      with. The result type is whatever the caller supplies. */
  datatype Corpus<R> = Corpus(docs: seq<Document>, results: seq<R>)

  /** The bare Exception the constructor raises. */
  datatype CorpusError = LengthMismatch

  /** Every document has exactly one result. */
  predicate Aligned<R>(c: Corpus<R>)
  {
    |c.docs| == |c.results|
  }

  /** `Corpus(docslist, resultslist)`: refuses lists of different lengths,
      and otherwise keeps both lists as they are. */
  function NewCorpus<R>(docs: seq<Document>, results: seq<R>): (r: Result<Corpus<R>, CorpusError>)
    ensures r.Success? <==> |docs| == |results|
    ensures r.Success? ==> r.value.docs == docs && r.value.results == results && Aligned(r.value)
  {
    if |docs| != |results| then Failure(LengthMismatch) else Success(Corpus(docs, results))
  }

  /** The feature dictionary of one document for the given kind of feature:
      word n-grams of the selected attribute for "lessico", prefix and suffix
      n-grams of the forms for "carattere", nothing for any other name. */
  function Extract(doc: Document, element: string, sel: Selector, n: nat): Option<map<string, real>>
    requires n >= 1
  {
    if element == "lessico" then Some(WordNGrams(doc, sel, n))
    else if element == "carattere" then Some(PrefSuffNGrams(doc, n))
    else None
  }

  /** `get_feature_dicts(element, t_type, n_ngram)`: one dictionary per
      document, in the documents' order; `None` when the element is neither
      "lessico" nor "carattere" (the method then falls off its end). */
  function FeatureDicts<R>(c: Corpus<R>, element: string, sel: Selector, n: nat): (r: Option<seq<map<string, real>>>)
    requires n >= 1
    ensures r.Some? <==> element == "lessico" || element == "carattere"
    ensures r.Some? ==> |r.value| == |c.docs|
    ensures r.Some? ==> forall i :: 0 <= i < |r.value| ==> Extract(c.docs[i], element, sel, n) == Some(r.value[i])
  {
    if element == "lessico" || element == "carattere" then
      Some(seq(|c.docs|, i requires 0 <= i < |c.docs| => Extract(c.docs[i], element, sel, n).value))
    else None
  }

  /** The dictionaries line up with the results: dictionary i belongs to the
      document that result i is paired with. */
  lemma FeatureDictsAlignWithResults<R>(docs: seq<Document>, results: seq<R>, element: string, sel: Selector, n: nat)
    requires n >= 1
    requires NewCorpus(docs, results).Success?
    requires element == "lessico" || element == "carattere"
    ensures var dicts := FeatureDicts(NewCorpus(docs, results).value, element, sel, n);
      dicts.Some? && |dicts.value| == |results|
  {
  }

  /** Every dictionary is a frequency distribution: each feature present has a
      frequency in (0, 1], and the frequencies add up to at most one. */
  lemma FeatureDictsAreFrequencies<R>(c: Corpus<R>, element: string, sel: Selector, n: nat)
    requires n >= 1
    requires FeatureDicts(c, element, sel, n).Some?
    ensures var dicts := FeatureDicts(c, element, sel, n).value;
      forall i :: 0 <= i < |dicts| ==>
        (forall k :: k in dicts[i] ==> 0.0 < dicts[i][k] <= 1.0) && Sum(dicts[i]) <= 1.0
  {
    var dicts := FeatureDicts(c, element, sel, n).value;
    forall i | 0 <= i < |dicts|
      ensures forall k :: k in dicts[i] ==> 0.0 < dicts[i][k] <= 1.0
      ensures Sum(dicts[i]) <= 1.0
    {
      if element == "lessico" {
        assert dicts[i] == WordNGrams(c.docs[i], sel, n);
        WordSharesAtMostOne(c.docs[i], sel, n);
      } else {
        assert dicts[i] == PrefSuffNGrams(c.docs[i], n);
        AffixSharesAtMostOne(c.docs[i], n);
      }
    }
  }

  /** For "carattere" the attribute name is not used: prefixes and suffixes
      are always taken from the forms. */
  lemma CharacterIgnoresSelector<R>(c: Corpus<R>, a: Selector, b: Selector, n: nat)
    requires n >= 1
    ensures FeatureDicts(c, "carattere", a, n) == FeatureDicts(c, "carattere", b, n)
  {
    var x, y := FeatureDicts(c, "carattere", a, n), FeatureDicts(c, "carattere", b, n);
    assert |x.value| == |y.value|;
    forall i | 0 <= i < |x.value|
      ensures x.value[i] == y.value[i]
    {
      assert x.value[i] == PrefSuffNGrams(c.docs[i], n) == y.value[i];
    }
    assert x.value == y.value;
  }
}
