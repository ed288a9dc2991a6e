/** Word and character n-grams of a document (n_grams/n_grams_classes.py,
    `Document.get_word_ngrams` and `Document.get_char_ngrams`).

    Each extractor is specified by the list of feature names its loops
    produce, in order (`WordKeys`, `CharKeys`), and by the count it divides
    by (`TokenCount`, `CharCount`): the result is the tally of those names,
    each count divided by that total. The methods run the loops of the
    program and are proved to return exactly that dictionary. */
module NGrams {
  import opened Text
  import opened FeatureCounts
  import opened Conllu

  /** How many windows of width n a list of length len has: one for each
      start in range(0, len - n + 1). */
  function Windows(len: nat, n: nat): (w: nat)
    ensures n >= 1 ==> w <= len
    ensures len >= n ==> w == len - n + 1
    ensures len < n ==> w == 0
  {
    if len >= n then len - n + 1 else 0
  }

  // ----- word n-grams -----

  /** The one-letter tag of a selector, upper-cased: `F`, `L` or `P`. */
  function Label(sel: Selector): string
  {
    match sel
    case Forma => "F"
    case Lemma => "L"
    case Pos => "P"
  }

  /** The feature name of one word n-gram: tag, n and the words, joined by `_`. */
  function WordKey(sel: Selector, n: nat, gram: seq<string>): string
  {
    Label(sel) + "_" + NatToString(n) + "_" + Join("_", gram)
  }

  /** The feature names of one sentence's word list, one per window, left to right. */
  function SentenceWordKeys(words: seq<string>, sel: Selector, n: nat): (r: seq<string>)
    ensures |r| == Windows(|words|, n)
    ensures forall i :: 0 <= i < |r| ==> i + n <= |words| && r[i] == WordKey(sel, n, words[i..i + n])
  {
    seq(Windows(|words|, n), i requires 0 <= i < Windows(|words|, n) => WordKey(sel, n, words[i..i + n]))
  }

  /** The window starting at i is the i-th feature name of the sentence. */
  lemma WordWindowAt(words: seq<string>, sel: Selector, n: nat, i: nat)
    requires i + n <= |words|
    ensures i < |SentenceWordKeys(words, sel, n)|
    ensures SentenceWordKeys(words, sel, n)[i] == WordKey(sel, n, words[i..i + n])
  {
  }

  /** The feature names the loops of `get_word_ngrams` produce, sentence by sentence. */
  function WordKeys(sentences: seq<Sentence>, sel: Selector, n: nat): seq<string>
  {
    if sentences == [] then []
    else
      var last := sentences[|sentences| - 1];
      WordKeys(sentences[..|sentences| - 1], sel, n) + SentenceWordKeys(WordList(last, sel), sel, n)
  }

  /** `wordcount`: the number of tokens of all sentences. */
  function TokenCount(sentences: seq<Sentence>): nat
  {
    if sentences == [] then 0
    else TokenCount(sentences[..|sentences| - 1]) + |sentences[|sentences| - 1].tokens|
  }

  /** The number of windows over all sentences. */
  function WordWindowTotal(sentences: seq<Sentence>, n: nat): nat
  {
    if sentences == [] then 0
    else WordWindowTotal(sentences[..|sentences| - 1], n) + Windows(|sentences[|sentences| - 1].tokens|, n)
  }

  /** Each sentence contributes one feature occurrence per window. */
  lemma {:induction false} WordKeysCount(sentences: seq<Sentence>, sel: Selector, n: nat)
    ensures |WordKeys(sentences, sel, n)| == WordWindowTotal(sentences, n)
  {
    if sentences != [] {
      WordKeysCount(sentences[..|sentences| - 1], sel, n);
    }
  }

  /** For n >= 1 there are never more windows than tokens, and exactly as many for n = 1. */
  lemma {:induction false} WordWindowsAtMostTokens(sentences: seq<Sentence>, n: nat)
    requires n >= 1
    ensures WordWindowTotal(sentences, n) <= TokenCount(sentences)
    ensures n == 1 ==> WordWindowTotal(sentences, n) == TokenCount(sentences)
  {
    if sentences != [] {
      WordWindowsAtMostTokens(sentences[..|sentences| - 1], n);
    }
  }

  /** What `get_word_ngrams(t_type, n)` returns: every feature name seen,
      mapped to the number of its occurrences over the number of tokens of the
      document. A document without tokens has no windows and gives the empty
      dictionary without dividing. */
  function WordNGrams(doc: Document, sel: Selector, n: nat): (r: map<string, real>)
    requires n >= 1
    ensures forall k :: k in r <==> k in WordKeys(doc.sentences, sel, n)
    ensures forall k :: k in r ==>
      (TokenCount(doc.sentences) > 0
       && r[k] == multiset(WordKeys(doc.sentences, sel, n))[k] as real / TokenCount(doc.sentences) as real)
    ensures forall k :: k in r ==> 0.0 < r[k] <= 1.0
    ensures TokenCount(doc.sentences) == 0 ==> r == map[]
  {
    var keys := WordKeys(doc.sentences, sel, n);
    var total := TokenCount(doc.sentences);
    WordKeysCount(doc.sentences, sel, n);
    WordWindowsAtMostTokens(doc.sentences, n);
    if total == 0 then
      assert keys == [];
      Normalise(Tally(keys), total)
    else
      TallyCounts(keys);
      TallySharesBounded(keys, total);
      Normalise(Tally(keys), total)
  }

  /** The first s + 1 sentences: the first s, then sentence s. */
  lemma WordPrefixStep(sentences: seq<Sentence>, s: nat, sel: Selector, n: nat)
    requires s < |sentences|
    ensures TokenCount(sentences[..s + 1]) == TokenCount(sentences[..s]) + |sentences[s].tokens|
    ensures WordKeys(sentences[..s + 1], sel, n)
         == WordKeys(sentences[..s], sel, n) + SentenceWordKeys(WordList(sentences[s], sel), sel, n)
  {
    assert sentences[..s + 1][..s] == sentences[..s];
  }

  /** Without tokens there is nothing to count, so nothing is divided by zero. */
  lemma NoTokensNoWordKeys(sentences: seq<Sentence>, sel: Selector, n: nat)
    requires n >= 1
    ensures TokenCount(sentences) == 0 ==> WordKeys(sentences, sel, n) == [] && Tally(WordKeys(sentences, sel, n)) == map[]
  {
    WordKeysCount(sentences, sel, n);
    WordWindowsAtMostTokens(sentences, n);
  }

  /** The inner loop of `get_word_ngrams`: counts every window of one
      sentence's word list into the feature dictionary. */
  method CountWordWindows(featuredict: map<string, nat>, wordList: seq<string>, sel: Selector, n: nat,
                          ghost seen: seq<string>)
    returns (d: map<string, nat>)
    requires featuredict == Tally(seen)
    ensures d == Tally(seen + SentenceWordKeys(wordList, sel, n))
  {
    ghost var grams := SentenceWordKeys(wordList, sel, n);
    d := featuredict;
    var i := 0;
    assert seen + grams[..0] == seen;
    while i < |wordList| - n + 1
      invariant 0 <= i <= |grams|
      invariant d == Tally(seen + grams[..i])
    {
      var name := WordKey(sel, n, wordList[i..i + n]);
      WordWindowAt(wordList, sel, n, i);
      TallyStep(d, seen, grams, i);
      d := d[name := (if name in d then d[name] else 0) + 1];
      i := i + 1;
    }
    assert grams[..i] == grams;
  }

  /** `get_word_ngrams`: counts every window of every sentence's word list into
      the feature dictionary, adds up the tokens, then divides. */
  method GetWordNGrams(doc: Document, sel: Selector, n: nat) returns (r: map<string, real>)
    requires n >= 1
    ensures r == WordNGrams(doc, sel, n)
  {
    var sentences := doc.sentences;
    var wordcount: nat := 0;
    var featuredict: map<string, nat> := map[];
    for s := 0 to |sentences|
      invariant wordcount == TokenCount(sentences[..s])
      invariant featuredict == Tally(WordKeys(sentences[..s], sel, n))
    {
      var wordList := WordList(sentences[s], sel);
      WordPrefixStep(sentences, s, sel, n);
      wordcount := wordcount + |wordList|;
      featuredict := CountWordWindows(featuredict, wordList, sel, n, WordKeys(sentences[..s], sel, n));
    }
    assert sentences[..|sentences|] == sentences;
    NoTokensNoWordKeys(sentences, sel, n);
    r := Normalise(featuredict, wordcount);
  }

  /** The word frequencies add up to the number of windows over the number of tokens. */
  lemma WordSharesSum(doc: Document, sel: Selector, n: nat)
    requires n >= 1
    requires TokenCount(doc.sentences) > 0
    ensures Sum(WordNGrams(doc, sel, n)) == WordWindowTotal(doc.sentences, n) as real / TokenCount(doc.sentences) as real
  {
    WordKeysCount(doc.sentences, sel, n);
    TallySharesSum(WordKeys(doc.sentences, sel, n), TokenCount(doc.sentences));
  }

  /** The word n-gram frequencies of any document add up to at most one. */
  lemma WordSharesAtMostOne(doc: Document, sel: Selector, n: nat)
    requires n >= 1
    ensures Sum(WordNGrams(doc, sel, n)) <= 1.0
  {
    var total := TokenCount(doc.sentences);
    if total > 0 {
      WordSharesSum(doc, sel, n);
      WordWindowsAtMostTokens(doc.sentences, n);
      DivAtMostOne(WordWindowTotal(doc.sentences, n) as real, total as real);
    }
  }

  /** Unigram frequencies of a document with tokens add up to exactly one. */
  lemma UnigramSharesSumToOne(doc: Document, sel: Selector)
    requires TokenCount(doc.sentences) > 0
    ensures Sum(WordNGrams(doc, sel, 1)) == 1.0
  {
    var total := TokenCount(doc.sentences) as real;
    assert WordWindowTotal(doc.sentences, 1) as real == total by {
      WordWindowsAtMostTokens(doc.sentences, 1);
    }
    WordSharesSum(doc, sel, 1);
    WholeShare(total);
  }

  /** A word feature name splits at `_` into the tag, n and the words, provided
      no word holds an underscore. */
  lemma WordKeyFields(sel: Selector, n: nat, gram: seq<string>)
    requires |gram| >= 1
    requires forall i :: 0 <= i < |gram| ==> '_' !in gram[i]
    ensures Split(WordKey(sel, n, gram), '_') == [Label(sel), NatToString(n)] + gram
  {
    var parts := [Label(sel), NatToString(n)] + gram;
    assert parts == [Label(sel)] + ([NatToString(n)] + gram);
    JoinCons("_", NatToString(n), gram);
    JoinCons("_", Label(sel), [NatToString(n)] + gram);
    assert Join("_", parts) == WordKey(sel, n, gram);
    forall i | 0 <= i < |parts|
      ensures '_' !in parts[i]
    {
      if i == 1 {
        assert forall j :: 0 <= j < |NatToString(n)| ==> IsDigit(NatToString(n)[j]);
      }
    }
    SplitJoin(parts, '_');
  }

  /** Distinct word n-grams have distinct feature names, and a feature name
      also determines the selector and n, provided no word holds an underscore. */
  lemma WordKeyInjective(sel: Selector, n: nat, gram: seq<string>, sel': Selector, n': nat, gram': seq<string>)
    requires |gram| >= 1 && |gram'| >= 1
    requires forall i :: 0 <= i < |gram| ==> '_' !in gram[i]
    requires forall i :: 0 <= i < |gram'| ==> '_' !in gram'[i]
    requires WordKey(sel, n, gram) == WordKey(sel', n', gram')
    ensures sel == sel' && n == n' && gram == gram'
  {
    WordKeyFields(sel, n, gram);
    WordKeyFields(sel', n', gram');
    var fields := [Label(sel), NatToString(n)] + gram;
    var fields' := [Label(sel'), NatToString(n')] + gram';
    assert fields == fields';
    assert Label(sel) == fields[0] == fields'[0] == Label(sel');
    assert NatToString(n) == fields[1] == fields'[1] == NatToString(n');
    DecimalRoundTrip(n);
    DecimalRoundTrip(n');
    assert gram == fields[2..] == fields'[2..] == gram';
  }

  /** Without that proviso names collide: the bigrams `x_y z` and `x y_z` get
      the same feature name. */
  lemma WordKeyUnderscoreCollision(sel: Selector, x: string, y: string, z: string)
    ensures [x + "_" + y, z] != [x, y + "_" + z]
    ensures WordKey(sel, 2, [x + "_" + y, z]) == WordKey(sel, 2, [x, y + "_" + z])
  {
    assert |x + "_" + y| != |x|;
    assert [x + "_" + y, z][..1] == [x + "_" + y] && [x, y + "_" + z][..1] == [x];
    assert Join("_", [x + "_" + y, z]) == x + "_" + y + "_" + z;
    assert Join("_", [x, y + "_" + z]) == x + "_" + (y + "_" + z);
  }

  // ----- character n-grams -----

  /** `' '.join(word_list)` over the forms of a sentence. */
  function Line(s: Sentence): string
  {
    Join(" ", WordList(s, Forma))
  }

  /** The characters of a window, each as a one-character string. */
  function Singletons(w: string): (r: seq<string>)
    ensures |r| == |w|
    ensures forall j :: 0 <= j < |w| ==> r[j] == [w[j]]
  {
    seq(|w|, j requires 0 <= j < |w| => [w[j]])
  }

  /** `'_'.join(window)`: the characters of a window with `_` between them. */
  function Spaced(w: string): string
  {
    Join("_", Singletons(w))
  }

  /** The feature name of one character n-gram: n, then the characters joined by `_`. */
  function CharKey(n: nat, w: string): string
  {
    NatToString(n) + "_" + Spaced(w)
  }

  /** The window's characters sit at the even positions of the joined form,
      with `_` at the odd ones. */
  lemma {:induction false} SpacedLayout(w: string)
    requires |w| >= 1
    ensures |Spaced(w)| == 2 * |w| - 1
    ensures forall j :: 0 <= j < |w| ==> Spaced(w)[2 * j] == w[j]
    ensures forall j :: 0 <= j < |w| - 1 ==> Spaced(w)[2 * j + 1] == '_'
  {
    if |w| > 1 {
      var v, c := w[..|w| - 1], w[|w| - 1];
      SpacedLayout(v);
      var parts := Singletons(w);
      assert parts[..|parts| - 1] == Singletons(v);
      assert Spaced(w) == Spaced(v) + "_" + [c];
    }
  }

  /** Windows of the same width have the same feature name only when they are
      the same window, whatever characters they hold. */
  lemma CharKeyInjective(n: nat, w: string, w': string)
    requires |w| == |w'| == n >= 1
    requires CharKey(n, w) == CharKey(n, w')
    ensures w == w'
  {
    var p := |NatToString(n)| + 1;
    assert Spaced(w) == CharKey(n, w)[p..] == CharKey(n, w')[p..] == Spaced(w');
    SpacedLayout(w);
    SpacedLayout(w');
    forall j | 0 <= j < n
      ensures w[j] == w'[j]
    {
      assert w[j] == Spaced(w)[2 * j] == Spaced(w')[2 * j] == w'[j];
    }
  }

  /** The feature names of one sentence's text, one per window, left to right. */
  function SentenceCharKeys(text: string, n: nat): (r: seq<string>)
    ensures |r| == Windows(|text|, n)
    ensures forall i :: 0 <= i < |r| ==> i + n <= |text| && r[i] == CharKey(n, text[i..i + n])
  {
    seq(Windows(|text|, n), i requires 0 <= i < Windows(|text|, n) => CharKey(n, text[i..i + n]))
  }

  /** The window starting at i is the i-th feature name of the sentence's text. */
  lemma CharWindowAt(text: string, n: nat, i: nat)
    requires i + n <= |text|
    ensures i < |SentenceCharKeys(text, n)|
    ensures SentenceCharKeys(text, n)[i] == CharKey(n, text[i..i + n])
  {
  }

  /** The feature names the loops of `get_char_ngrams` produce: each sentence's
      text is windowed on its own, so no window spans two sentences. */
  function CharKeys(sentences: seq<Sentence>, n: nat): seq<string>
  {
    if sentences == [] then []
    else
      var last := sentences[|sentences| - 1];
      CharKeys(sentences[..|sentences| - 1], n) + SentenceCharKeys(Line(last), n)
  }

  /** `charcount`: the lengths of the sentences' texts, added up. */
  function CharCount(sentences: seq<Sentence>): nat
  {
    if sentences == [] then 0
    else CharCount(sentences[..|sentences| - 1]) + |Line(sentences[|sentences| - 1])|
  }

  /** The number of character windows over all sentences. */
  function CharWindowTotal(sentences: seq<Sentence>, n: nat): nat
  {
    if sentences == [] then 0
    else CharWindowTotal(sentences[..|sentences| - 1], n) + Windows(|Line(sentences[|sentences| - 1])|, n)
  }

  /** Each sentence contributes one feature occurrence per window of its text. */
  lemma {:induction false} CharKeysCount(sentences: seq<Sentence>, n: nat)
    ensures |CharKeys(sentences, n)| == CharWindowTotal(sentences, n)
  {
    if sentences != [] {
      CharKeysCount(sentences[..|sentences| - 1], n);
    }
  }

  /** For n >= 1 there are never more windows than characters, and exactly as many for n = 1. */
  lemma {:induction false} CharWindowsAtMostChars(sentences: seq<Sentence>, n: nat)
    requires n >= 1
    ensures CharWindowTotal(sentences, n) <= CharCount(sentences)
    ensures n == 1 ==> CharWindowTotal(sentences, n) == CharCount(sentences)
  {
    if sentences != [] {
      CharWindowsAtMostChars(sentences[..|sentences| - 1], n);
    }
  }

  /** What `get_char_ngrams(n)` returns: every feature name seen, mapped to the
      number of its occurrences over the number of characters. */
  function CharNGrams(doc: Document, n: nat): (r: map<string, real>)
    requires n >= 1
    ensures forall k :: k in r <==> k in CharKeys(doc.sentences, n)
    ensures forall k :: k in r ==>
      (CharCount(doc.sentences) > 0
       && r[k] == multiset(CharKeys(doc.sentences, n))[k] as real / CharCount(doc.sentences) as real)
    ensures forall k :: k in r ==> 0.0 < r[k] <= 1.0
    ensures CharCount(doc.sentences) == 0 ==> r == map[]
  {
    var keys := CharKeys(doc.sentences, n);
    var total := CharCount(doc.sentences);
    CharKeysCount(doc.sentences, n);
    CharWindowsAtMostChars(doc.sentences, n);
    if total == 0 then
      assert keys == [];
      Normalise(Tally(keys), total)
    else
      TallyCounts(keys);
      TallySharesBounded(keys, total);
      Normalise(Tally(keys), total)
  }

  /** The first s + 1 sentences: the first s, then sentence s. */
  lemma CharPrefixStep(sentences: seq<Sentence>, s: nat, n: nat)
    requires s < |sentences|
    ensures CharCount(sentences[..s + 1]) == CharCount(sentences[..s]) + |Line(sentences[s])|
    ensures CharKeys(sentences[..s + 1], n) == CharKeys(sentences[..s], n) + SentenceCharKeys(Line(sentences[s]), n)
  {
    assert sentences[..s + 1][..s] == sentences[..s];
  }

  /** Without characters there is nothing to count, so nothing is divided by zero. */
  lemma NoCharsNoCharKeys(sentences: seq<Sentence>, n: nat)
    requires n >= 1
    ensures CharCount(sentences) == 0 ==> CharKeys(sentences, n) == [] && Tally(CharKeys(sentences, n)) == map[]
  {
    CharKeysCount(sentences, n);
    CharWindowsAtMostChars(sentences, n);
  }

  /** The inner loop of `get_char_ngrams`: counts every window of one
      sentence's text into the feature dictionary. */
  method CountCharWindows(featuredict: map<string, nat>, charList: string, n: nat, ghost seen: seq<string>)
    returns (d: map<string, nat>)
    requires featuredict == Tally(seen)
    ensures d == Tally(seen + SentenceCharKeys(charList, n))
  {
    ghost var grams := SentenceCharKeys(charList, n);
    d := featuredict;
    var i := 0;
    assert seen + grams[..0] == seen;
    while i < |charList| - n + 1
      invariant 0 <= i <= |grams|
      invariant d == Tally(seen + grams[..i])
    {
      var name := NatToString(n) + "_" + Join("_", Singletons(charList[i..i + n]));
      CharWindowAt(charList, n, i);
      TallyStep(d, seen, grams, i);
      d := d[name := (if name in d then d[name] else 0) + 1];
      i := i + 1;
    }
    assert grams[..i] == grams;
  }

  /** `get_char_ngrams`: counts every window of every sentence's text, adds up
      the text lengths, then divides. */
  method GetCharNGrams(doc: Document, n: nat) returns (r: map<string, real>)
    requires n >= 1
    ensures r == CharNGrams(doc, n)
  {
    var sentences := doc.sentences;
    var charcount: nat := 0;
    var featuredict: map<string, nat> := map[];
    for s := 0 to |sentences|
      invariant charcount == CharCount(sentences[..s])
      invariant featuredict == Tally(CharKeys(sentences[..s], n))
    {
      var charList := Join(" ", WordList(sentences[s], Forma));
      CharPrefixStep(sentences, s, n);
      charcount := charcount + |charList|;
      featuredict := CountCharWindows(featuredict, charList, n, CharKeys(sentences[..s], n));
    }
    assert sentences[..|sentences|] == sentences;
    NoCharsNoCharKeys(sentences, n);
    r := Normalise(featuredict, charcount);
  }

  /** The character frequencies add up to the number of windows over the
      number of characters: the counts, rebuilt exactly. */
  lemma CharSharesSum(doc: Document, n: nat)
    requires n >= 1
    requires CharCount(doc.sentences) > 0
    ensures Sum(CharNGrams(doc, n)) == CharWindowTotal(doc.sentences, n) as real / CharCount(doc.sentences) as real
    ensures Sum(CharNGrams(doc, n)) <= 1.0
  {
    CharKeysCount(doc.sentences, n);
    CharWindowsAtMostChars(doc.sentences, n);
    TallySharesSum(CharKeys(doc.sentences, n), CharCount(doc.sentences));
    DivAtMostOne(CharWindowTotal(doc.sentences, n) as real, CharCount(doc.sentences) as real);
  }
}
