/** Prefix and suffix character n-grams of a document
    (n_grams/n_grams_classes.py, `Document.get_char_pref_suff_ngrams`).

    Each sentence's forms are joined by spaces behind one extra space, and a
    window of width n is slid from offset 1. A window without a space is
    recorded as a prefix when a space precedes it, and otherwise as a suffix
    when a space follows it. Reading the character after a window that ends
    the text raises IndexError, which the program swallows: that window is
    not recorded. The main theorem, `AffixesAreWordEdges`, says what this scan
    amounts to for words without spaces: every word's first n characters, and
    the last n characters of every word that another word follows. */
module AffixNGrams {
  import opened Wrappers
  import opened Text
  import opened FeatureCounts
  import opened Conllu
  import opened NGrams

  /** How a window is recorded. */
  datatype Affix = Prefix | Suffix

  /** `' ' + ' '.join(words)`. */
  function PaddedLine(words: seq<string>): string
  {
    " " + Join(" ", words)
  }

  /** The text the scan runs over for one sentence. */
  function Padded(s: Sentence): string
  {
    PaddedLine(WordList(s, Forma))
  }

  /** What the window of width n at offset i is recorded as, if anything. The
      suffix test is only reached for a window that does not end the text:
      for the last one, reading the next character raises IndexError and the
      window is dropped. */
  function AffixAt(text: string, n: nat, i: nat): Option<Affix>
    requires 1 <= i && i + n <= |text|
  {
    if ' ' in text[i..i + n] then None
    else if text[i - 1] == ' ' then Some(Prefix)
    else if i + n < |text| && text[i + n] == ' ' then Some(Suffix)
    else None
  }

  /** The feature name of a recorded window: `p` or `s`, n, `_`, and the window
      itself. */
  function AffixKey(a: Affix, n: nat, w: string): string
  {
    (if a == Prefix then "p" else "s") + NatToString(n) + "_" + w
  }

  /** One past the last offset of the scan: range(1, len - n + 1), which is
      empty when len < n. */
  function AffixEnd(len: nat, n: nat): (e: nat)
    ensures 1 <= e <= len + 1
    ensures e > 1 ==> e - 1 + n <= len
  {
    if len >= n then len - n + 1 else 1
  }

  /** The feature names recorded at offsets 1 <= i < j, left to right. */
  function AffixKeysBefore(text: string, n: nat, j: nat): seq<string>
    requires 1 <= j <= AffixEnd(|text|, n)
    decreases j
  {
    if j == 1 then []
    else
      var i := j - 1;
      match AffixAt(text, n, i)
      case None => AffixKeysBefore(text, n, i)
      case Some(a) => AffixKeysBefore(text, n, i) + [AffixKey(a, n, text[i..i + n])]
  }

  /** The feature names the scan records over one sentence's text. */
  function SentenceAffixKeys(text: string, n: nat): seq<string>
  {
    AffixKeysBefore(text, n, AffixEnd(|text|, n))
  }

  /** The feature names the loops of `get_char_pref_suff_ngrams` produce. */
  function AffixKeys(sentences: seq<Sentence>, n: nat): seq<string>
  {
    if sentences == [] then []
    else
      var last := sentences[|sentences| - 1];
      AffixKeys(sentences[..|sentences| - 1], n) + SentenceAffixKeys(Padded(last), n)
  }

  /** `charcount`: the lengths of the padded texts, added up. */
  function PaddedCount(sentences: seq<Sentence>): nat
  {
    if sentences == [] then 0
    else PaddedCount(sentences[..|sentences| - 1]) + |Padded(sentences[|sentences| - 1])|
  }

  /** At most one feature name per offset. */
  lemma {:induction false} AffixKeysBeforeCount(text: string, n: nat, j: nat)
    requires 1 <= j <= AffixEnd(|text|, n)
    ensures |AffixKeysBefore(text, n, j)| <= j - 1
    decreases j
  {
    if j > 1 {
      AffixKeysBeforeCount(text, n, j - 1);
    }
  }

  /** No more feature names than characters: at most one per offset, and the
      scan never looks at offset 0. */
  lemma {:induction false} AffixKeysAtMostPadded(sentences: seq<Sentence>, n: nat)
    ensures |AffixKeys(sentences, n)| <= PaddedCount(sentences)
    ensures sentences != [] ==> PaddedCount(sentences) > 0
  {
    if sentences != [] {
      var text := Padded(sentences[|sentences| - 1]);
      AffixKeysAtMostPadded(sentences[..|sentences| - 1], n);
      AffixKeysBeforeCount(text, n, AffixEnd(|text|, n));
    }
  }

  /** What `get_char_pref_suff_ngrams(n)` returns: every prefix and suffix
      feature recorded, mapped to the number of its occurrences over the number
      of characters of the padded texts. */
  function PrefSuffNGrams(doc: Document, n: nat): (r: map<string, real>)
    ensures forall k :: k in r <==> k in AffixKeys(doc.sentences, n)
    ensures forall k :: k in r ==>
      (PaddedCount(doc.sentences) > 0
       && r[k] == multiset(AffixKeys(doc.sentences, n))[k] as real / PaddedCount(doc.sentences) as real)
    ensures forall k :: k in r ==> 0.0 < r[k] <= 1.0
    ensures doc.sentences == [] ==> r == map[]
  {
    var keys := AffixKeys(doc.sentences, n);
    var total := PaddedCount(doc.sentences);
    AffixKeysAtMostPadded(doc.sentences, n);
    TallyCounts(keys);
    if total == 0 then
      assert keys == [];
      Normalise(Tally(keys), total)
    else
      TallySharesBounded(keys, total);
      Normalise(Tally(keys), total)
  }

  /** The first s + 1 sentences: the first s, then sentence s. */
  lemma AffixPrefixStep(sentences: seq<Sentence>, s: nat, n: nat)
    requires s < |sentences|
    ensures PaddedCount(sentences[..s + 1]) == PaddedCount(sentences[..s]) + |Padded(sentences[s])|
    ensures AffixKeys(sentences[..s + 1], n) == AffixKeys(sentences[..s], n) + SentenceAffixKeys(Padded(sentences[s]), n)
  {
    assert sentences[..s + 1][..s] == sentences[..s];
  }

  /** Without characters there is nothing to count, so nothing is divided by zero. */
  lemma NoCharsNoAffixKeys(sentences: seq<Sentence>, n: nat)
    ensures PaddedCount(sentences) == 0 ==> Tally(AffixKeys(sentences, n)) == map[]
  {
    AffixKeysAtMostPadded(sentences, n);
  }

  /** Offset i, recorded: the keys up to i + 1 are the keys up to i and its key. */
  lemma AffixHit(d: map<string, nat>, seen: seq<string>, text: string, n: nat, i: nat, a: Affix)
    requires 1 <= i < AffixEnd(|text|, n)
    requires AffixAt(text, n, i) == Some(a)
    requires d == Tally(seen + AffixKeysBefore(text, n, i))
    ensures var k := AffixKey(a, n, text[i..i + n]);
      d[k := (if k in d then d[k] else 0) + 1] == Tally(seen + AffixKeysBefore(text, n, i + 1))
  {
    var k := AffixKey(a, n, text[i..i + n]);
    var before := AffixKeysBefore(text, n, i);
    AffixRecorded(text, n, i, a);
    assert seen + (before + [k]) == (seen + before) + [k];
    TallySnoc(seen + before, k);
  }

  /** Offset i, recorded as `a`: its key follows the keys before it. */
  lemma AffixRecorded(text: string, n: nat, i: nat, a: Affix)
    requires 1 <= i < AffixEnd(|text|, n)
    requires AffixAt(text, n, i) == Some(a)
    ensures AffixKeysBefore(text, n, i + 1) == AffixKeysBefore(text, n, i) + [AffixKey(a, n, text[i..i + n])]
  {
  }

  /** Offset i, not recorded: nothing changes. */
  lemma AffixMiss(text: string, n: nat, i: nat)
    requires 1 <= i < AffixEnd(|text|, n)
    requires AffixAt(text, n, i) == None
    ensures AffixKeysBefore(text, n, i + 1) == AffixKeysBefore(text, n, i)
  {
  }

  /** One offset of the scan, as the loop body reads it: a prefix, a suffix,
      or nothing is counted. */
  lemma ScanStep(d: map<string, nat>, seen: seq<string>, text: string, n: nat, i: nat)
    requires 1 <= i < AffixEnd(|text|, n)
    requires d == Tally(seen + AffixKeysBefore(text, n, i))
    ensures var w := text[i..i + n];
      var p, s := "p" + NatToString(n) + "_" + w, "s" + NatToString(n) + "_" + w;
      Tally(seen + AffixKeysBefore(text, n, i + 1))
      == if ' ' !in w && text[i - 1] == ' ' then d[p := (if p in d then d[p] else 0) + 1]
         else if ' ' !in w && i + n < |text| && text[i + n] == ' ' then d[s := (if s in d then d[s] else 0) + 1]
         else d
  {
    match AffixAt(text, n, i)
    case None => AffixMiss(text, n, i);
    case Some(a) => AffixHit(d, seen, text, n, i, a);
  }

  /** The inner loop of `get_char_pref_suff_ngrams`: scans one padded text from
      offset 1 and counts the prefixes and suffixes it finds. */
  method CountAffixWindows(featuredict: map<string, nat>, charList: string, n: nat, ghost seen: seq<string>)
    returns (d: map<string, nat>)
    requires featuredict == Tally(seen)
    ensures d == Tally(seen + SentenceAffixKeys(charList, n))
  {
    d := featuredict;
    var i := 1;
    assert seen + AffixKeysBefore(charList, n, 1) == seen;
    while i < |charList| - n + 1
      invariant 1 <= i <= AffixEnd(|charList|, n)
      invariant d == Tally(seen + AffixKeysBefore(charList, n, i))
    {
      ScanStep(d, seen, charList, n, i);
      var ngramma := charList[i..i + n];
      var flag := ' ' !in ngramma;
      if flag && charList[i - 1] == ' ' {
        var name := "p" + NatToString(n) + "_" + ngramma;
        d := d[name := (if name in d then d[name] else 0) + 1];
      } else if flag && i + n < |charList| && charList[i + n] == ' ' {
        // when i + n == |charList|, charList[i + n] raises IndexError, which is swallowed
        var name := "s" + NatToString(n) + "_" + ngramma;
        d := d[name := (if name in d then d[name] else 0) + 1];
      }
      i := i + 1;
    }
  }

  /** `get_char_pref_suff_ngrams`: scans every sentence's padded text, adds up
      the padded lengths, then divides. */
  method GetPrefSuffNGrams(doc: Document, n: nat) returns (r: map<string, real>)
    ensures r == PrefSuffNGrams(doc, n)
  {
    var sentences := doc.sentences;
    var featuredict: map<string, nat> := map[];
    var charcount: nat := 0;
    for s := 0 to |sentences|
      invariant charcount == PaddedCount(sentences[..s])
      invariant featuredict == Tally(AffixKeys(sentences[..s], n))
    {
      var wordList := WordList(sentences[s], Forma);
      var charList := " " + Join(" ", wordList);
      AffixPrefixStep(sentences, s, n);
      charcount := charcount + |charList|;
      featuredict := CountAffixWindows(featuredict, charList, n, AffixKeys(sentences[..s], n));
    }
    assert sentences[..|sentences|] == sentences;
    NoCharsNoAffixKeys(sentences, n);
    r := Normalise(featuredict, charcount);
  }

  /** The prefix and suffix frequencies add up to at most one: no more windows
      are recorded than there are characters. */
  lemma AffixSharesSum(doc: Document, n: nat)
    requires doc.sentences != []
    ensures PaddedCount(doc.sentences) > 0
    ensures Sum(PrefSuffNGrams(doc, n))
         == |AffixKeys(doc.sentences, n)| as real / PaddedCount(doc.sentences) as real
    ensures Sum(PrefSuffNGrams(doc, n)) <= 1.0
  {
    var keys := AffixKeys(doc.sentences, n);
    var total := PaddedCount(doc.sentences);
    AffixKeysAtMostPadded(doc.sentences, n);
    TallySharesSum(keys, total);
    DivAtMostOne(|keys| as real, total as real);
  }

  /** The prefix and suffix frequencies of any document add up to at most one. */
  lemma AffixSharesAtMostOne(doc: Document, n: nat)
    ensures Sum(PrefSuffNGrams(doc, n)) <= 1.0
  {
    if doc.sentences != [] {
      AffixSharesSum(doc, n);
    }
  }

  // ----- what the scan finds: the edges of the words -----

  /** The prefix feature of a word long enough to have one. */
  function PrefixOf(w: string, n: nat): seq<string>
  {
    if |w| >= n then [AffixKey(Prefix, n, w[..n])] else []
  }

  /** The suffix feature of a word longer than n. A word of exactly n
      characters is its own prefix, which wins. */
  function SuffixOf(w: string, n: nat): seq<string>
  {
    if |w| > n then [AffixKey(Suffix, n, w[|w| - n..])] else []
  }

  /** The edges of a sentence's words, in order: the prefix of each word, and
      the suffix of each word that another word follows. The last word's
      suffix is never among them. */
  function EdgeKeys(words: seq<string>, n: nat): seq<string>
  {
    if words == [] then []
    else if |words| == 1 then PrefixOf(words[0], n)
    else
      var init := words[..|words| - 1];
      EdgeKeys(init, n) + SuffixOf(init[|init| - 1], n) + PrefixOf(words[|words| - 1], n)
  }

  /** No word holds a space. */
  predicate NoSpaces(words: seq<string>)
  {
    forall i :: 0 <= i < |words| ==> ' ' !in words[i]
  }

  /** A window that reaches across a space is never recorded. */
  lemma SpaceInWindow(text: string, n: nat, i: nat, p: nat)
    requires 1 <= i && i + n <= |text|
    requires i <= p < i + n && text[p] == ' '
    ensures AffixAt(text, n, i) == None
  {
    assert text[i..i + n][p - i] == ' ';
  }

  /** Offsets with nothing recorded leave the keys as they were. */
  lemma {:induction false} AffixSkip(text: string, n: nat, a: nat, b: nat)
    requires 1 <= a <= b <= AffixEnd(|text|, n)
    requires forall i :: a <= i < b ==> AffixAt(text, n, i) == None
    ensures AffixKeysBefore(text, n, b) == AffixKeysBefore(text, n, a)
    decreases b
  {
    if a < b {
      AffixSkip(text, n, a, b - 1);
    }
  }

  /** An offset whose window, and the characters on both sides of it, lie
      inside `text` is read the same in any extension of `text`. */
  lemma AffixAtExtended(text: string, x: string, n: nat, i: nat)
    requires 1 <= i && i + n < |text|
    ensures AffixAt(text + x, n, i) == AffixAt(text, n, i)
  {
    var t := text + x;
    assert t[i..i + n] == text[i..i + n];
    assert t[i - 1] == text[i - 1] && t[i + n] == text[i + n];
  }

  /** Offsets far enough from the end of `text` are recorded the same in any
      extension of it. */
  lemma {:induction false} AffixKeysExtended(text: string, x: string, n: nat, j: nat)
    requires 1 <= j && (j == 1 || j + n <= |text|)
    ensures j <= AffixEnd(|text|, n) && j <= AffixEnd(|text + x|, n)
    ensures AffixKeysBefore(text + x, n, j) == AffixKeysBefore(text, n, j)
    decreases j
  {
    if j > 1 {
      AffixKeysExtended(text, x, n, j - 1);
      AffixAtExtended(text, x, n, j - 1);
      assert (text + x)[j - 1..j - 1 + n] == text[j - 1..j - 1 + n];
    }
  }

  /** The text of a sentence ends with a space and then its last word. */
  lemma PaddedLineEnd(words: seq<string>)
    requires |words| >= 1
    ensures var t, last := PaddedLine(words), words[|words| - 1];
      && |t| >= |last| + 1 && t[|t| - |last|..] == last && t[|t| - |last| - 1] == ' '
  {
    var last := words[|words| - 1];
    if |words| == 1 {
      assert PaddedLine(words) == " " + last;
    } else {
      var init := words[..|words| - 1];
      assert PaddedLine(words) == (" " + Join(" ", init) + " ") + last;
    }
  }

  /** One more word appends a space and the word to the text. */
  lemma PaddedLineSnoc(words: seq<string>, w: string)
    requires |words| >= 1
    ensures PaddedLine(words + [w]) == PaddedLine(words) + ([' '] + w)
  {
    var ws := words + [w];
    assert ws[..|ws| - 1] == words;
  }

  /** A slice of a text without spaces has none. */
  lemma SliceNoSpace(s: string, i: nat, j: nat)
    requires i <= j <= |s| && ' ' !in s
    ensures ' ' !in s[i..j]
  {
    forall k | 0 <= k < j - i
      ensures s[i..j][k] != ' '
    {
      assert s[i + k] in s;
    }
  }

  /** The last old window when the last word is shorter than n: it reaches
      across the space before that word, in both texts. */
  lemma LastWindowShort(t: string, last: string, x: string, n: nat)
    requires |t| >= n + 1 && |last| < n
    requires |t| >= |last| + 1 && t[|t| - |last| - 1] == ' '
    ensures AffixAt(t, n, |t| - n) == None && AffixAt(t + x, n, |t| - n) == None
  {
    SpaceInWindow(t, n, |t| - n, |t| - |last| - 1);
    SpaceInWindow(t + x, n, |t| - n, |t| - |last| - 1);
  }

  /** The last old window when the last word is at least n long: it is the
      end of that word. */
  lemma LastWindowLong(t: string, last: string, x: string, n: nat)
    requires n >= 1 && |last| >= n
    requires |t| >= |last| + 1 && t[|t| - |last|..] == last
    requires ' ' !in last
    ensures var i := |t| - n;
      && (t + x)[i..i + n] == t[i..i + n] == last[|last| - n..]
      && ' ' !in t[i..i + n]
  {
    var m, i := |t|, |t| - n;
    assert (t + x)[i..i + n] == t[i..i + n];
    assert t[i..i + n] == t[m - |last|..][|last| - n..];
    SliceNoSpace(last, |last| - n, |last|);
  }

  /** A last word of exactly n characters is a prefix, in both texts. */
  lemma LastWindowExact(t: string, last: string, x: string, n: nat)
    requires n >= 1 && |last| == n
    requires |t| >= |last| + 1 && t[|t| - |last|..] == last && t[|t| - |last| - 1] == ' '
    requires ' ' !in last
    ensures AffixAt(t, n, |t| - n) == Some(Prefix) == AffixAt(t + x, n, |t| - n)
  {
    LastWindowLong(t, last, x, n);
    assert (t + x)[|t| - n - 1] == ' ';
  }

  /** A last word longer than n: its end is not recorded in the old text, where
      it ends the text, and is a suffix in the new one, where a space follows. */
  lemma LastWindowSuffix(t: string, last: string, w: string, n: nat)
    requires n >= 1 && |last| > n
    requires |t| >= |last| + 1 && t[|t| - |last|..] == last
    requires ' ' !in last
    ensures AffixAt(t, n, |t| - n) == None
    ensures AffixAt(t + ([' '] + w), n, |t| - n) == Some(Suffix)
  {
    var m, i := |t|, |t| - n;
    var t' := t + ([' '] + w);
    LastWindowLong(t, last, [' '] + w, n);
    assert t[i - 1] == last[|last| - n - 1] by {
      assert t[i - 1] == t[m - |last|..][|last| - n - 1];
    }
    assert last[|last| - n - 1] in last;
    assert t'[i - 1] == t[i - 1] && t'[i + n] == ' ';
  }

  /** The old end of the scan when the last word is shorter than n: nothing
      new is recorded. */
  lemma OldEndShort(t: string, last: string, w: string, n: nat)
    requires n >= 1 && |t| > n && |last| < n
    requires |t| >= |last| + 1 && t[|t| - |last| - 1] == ' '
    ensures AffixEnd(|t|, n) <= AffixEnd(|t + ([' '] + w)|, n)
    ensures AffixKeysBefore(t + ([' '] + w), n, AffixEnd(|t|, n))
         == AffixKeysBefore(t, n, AffixEnd(|t|, n)) + SuffixOf(last, n)
  {
    var i := |t| - n;
    var x := [' '] + w;
    AffixKeysExtended(t, x, n, i);
    LastWindowShort(t, last, x, n);
    AffixMiss(t, n, i);
    AffixMiss(t + x, n, i);
  }

  /** The old end of the scan when the last word is exactly n long: both texts
      record it as a prefix. */
  lemma OldEndExact(t: string, last: string, w: string, n: nat)
    requires n >= 1 && |t| > n && |last| == n && ' ' !in last
    requires |t| >= |last| + 1 && t[|t| - |last|..] == last && t[|t| - |last| - 1] == ' '
    ensures AffixEnd(|t|, n) <= AffixEnd(|t + ([' '] + w)|, n)
    ensures AffixKeysBefore(t + ([' '] + w), n, AffixEnd(|t|, n))
         == AffixKeysBefore(t, n, AffixEnd(|t|, n)) + SuffixOf(last, n)
  {
    var i := |t| - n;
    var x := [' '] + w;
    AffixKeysExtended(t, x, n, i);
    LastWindowExact(t, last, x, n);
    LastWindowLong(t, last, x, n);
    AffixRecorded(t, n, i, Prefix);
    AffixRecorded(t + x, n, i, Prefix);
  }

  /** A last old window that only the longer text records, as a suffix. */
  lemma SuffixAtOldEnd(t: string, x: string, n: nat)
    requires |t| > n
    requires AffixAt(t, n, |t| - n) == None && AffixAt(t + x, n, |t| - n) == Some(Suffix)
    ensures AffixKeysBefore(t + x, n, |t| - n + 1)
         == AffixKeysBefore(t, n, |t| - n + 1) + [AffixKey(Suffix, n, t[|t| - n..])]
  {
    var i := |t| - n;
    AffixKeysExtended(t, x, n, i);
    AffixMiss(t, n, i);
    AffixRecorded(t + x, n, i, Suffix);
    assert (t + x)[i..i + n] == t[i..];
  }

  /** The old end of the scan when the last word is longer than n: the longer
      text records its suffix. */
  lemma OldEndLong(t: string, last: string, w: string, n: nat)
    requires n >= 1 && |t| > n && |last| > n && ' ' !in last
    requires |t| >= |last| + 1 && t[|t| - |last|..] == last
    ensures AffixEnd(|t|, n) <= AffixEnd(|t + ([' '] + w)|, n)
    ensures AffixKeysBefore(t + ([' '] + w), n, AffixEnd(|t|, n))
         == AffixKeysBefore(t, n, AffixEnd(|t|, n)) + SuffixOf(last, n)
  {
    LastWindowSuffix(t, last, w, n);
    SuffixAtOldEnd(t, [' '] + w, n);
    assert t[|t| - n..] == last[|last| - n..] by {
      LastWindowLong(t, last, [' '] + w, n);
    }
  }

  /** Up to the old end of the scan, the longer text records what the shorter
      one did, and at the last old offset it also records the suffix of the
      word that now has a successor. */
  lemma OldEnd(t: string, last: string, w: string, n: nat)
    requires n >= 1
    requires |t| >= |last| + 1 && t[|t| - |last|..] == last && t[|t| - |last| - 1] == ' '
    requires ' ' !in last
    ensures AffixEnd(|t|, n) <= AffixEnd(|t + ([' '] + w)|, n)
    ensures AffixKeysBefore(t + ([' '] + w), n, AffixEnd(|t|, n))
         == AffixKeysBefore(t, n, AffixEnd(|t|, n)) + SuffixOf(last, n)
  {
    if |t| <= n {
      assert AffixEnd(|t|, n) == 1;
    } else if |last| < n {
      OldEndShort(t, last, w, n);
    } else if |last| == n {
      OldEndExact(t, last, w, n);
    } else {
      OldEndLong(t, last, w, n);
    }
  }

  /** Windows that reach across the space before the new word are not recorded. */
  lemma AcrossSpace(t: string, w: string, n: nat, a: nat, b: nat)
    requires n >= 1
    requires 1 <= a <= b <= AffixEnd(|t + ([' '] + w)|, n)
    requires a + n > |t| && b <= |t| + 1
    ensures AffixKeysBefore(t + ([' '] + w), n, b) == AffixKeysBefore(t + ([' '] + w), n, a)
  {
    var t' := t + ([' '] + w);
    forall i | a <= i < b
      ensures AffixAt(t', n, i) == None
    {
      SpaceInWindow(t', n, i, |t|);
    }
    AffixSkip(t', n, a, b);
  }

  /** A window inside the new word past its first character is not recorded. */
  lemma InsideWord(t: string, w: string, n: nat, i: nat)
    requires n >= 1 && ' ' !in w
    requires |t| + 2 <= i && i + n <= |t| + 1 + |w|
    ensures AffixAt(t + ([' '] + w), n, i) == None
  {
    var t' := t + ([' '] + w);
    var m := |t|;
    assert t'[i - 1] == w[i - m - 2];
    assert w[i - m - 2] in w;
    if i + n < |t'| {
      assert t'[i + n] == w[i + n - m - 1];
      assert w[i + n - m - 1] in w;
    }
    assert t'[i..i + n] == w[i - m - 1..i - m - 1 + n];
    SliceNoSpace(w, i - m - 1, i - m - 1 + n);
  }

  /** The window that starts the new word is its prefix, and no later window
      is recorded. */
  lemma NewWord(t: string, w: string, n: nat)
    requires n >= 1 && |w| >= n && ' ' !in w
    ensures |t| + 2 <= AffixEnd(|t + ([' '] + w)|, n)
    ensures AffixKeysBefore(t + ([' '] + w), n, AffixEnd(|t + ([' '] + w)|, n))
         == AffixKeysBefore(t + ([' '] + w), n, |t| + 1) + PrefixOf(w, n)
  {
    var t' := t + ([' '] + w);
    var m := |t|;
    var e' := AffixEnd(|t'|, n);
    assert t'[m + 1..m + 1 + n] == w[..n];
    SliceNoSpace(w, 0, n);
    assert t'[m] == ' ';
    assert AffixAt(t', n, m + 1) == Some(Prefix);
    forall i | m + 2 <= i < e'
      ensures AffixAt(t', n, i) == None
    {
      InsideWord(t, w, n, i);
    }
    AffixSkip(t', n, m + 2, e');
  }

  /** Past the old end of the scan, the longer text records only the prefix
      of the new word. */
  lemma AfterOldEnd(t: string, w: string, n: nat)
    requires n >= 1 && ' ' !in w
    ensures AffixEnd(|t|, n) <= AffixEnd(|t + ([' '] + w)|, n)
    ensures SentenceAffixKeys(t + ([' '] + w), n)
         == AffixKeysBefore(t + ([' '] + w), n, AffixEnd(|t|, n)) + PrefixOf(w, n)
  {
    var t' := t + ([' '] + w);
    var m := |t|;
    var e, e' := AffixEnd(m, n), AffixEnd(|t'|, n);
    if |w| >= n {
      AcrossSpace(t, w, n, e, m + 1);
      NewWord(t, w, n);
    } else {
      AcrossSpace(t, w, n, e, e');
    }
  }

  /** Appending a space and a word to a text that ends with a space and a
      word without spaces: the scan also records the suffix of the old last
      word, and the prefix of the new one. */
  lemma ScanSnoc(t: string, last: string, w: string, n: nat)
    requires n >= 1 && ' ' !in last && ' ' !in w
    requires |t| >= |last| + 1 && t[|t| - |last|..] == last && t[|t| - |last| - 1] == ' '
    ensures SentenceAffixKeys(t + ([' '] + w), n)
         == SentenceAffixKeys(t, n) + SuffixOf(last, n) + PrefixOf(w, n)
  {
    OldEnd(t, last, w, n);
    AfterOldEnd(t, w, n);
  }

  /** The edges of one more word: the suffix of the old last word and the
      prefix of the new one. */
  lemma EdgeKeysSnoc(words: seq<string>, w: string, n: nat)
    requires |words| >= 1
    ensures EdgeKeys(words + [w], n) == EdgeKeys(words, n) + SuffixOf(words[|words| - 1], n) + PrefixOf(w, n)
  {
    var ws := words + [w];
    assert ws[..|ws| - 1] == words;
  }

  /** A word with a successor contributes its suffix, and the successor its prefix. */
  lemma {:induction false} EdgeStep(words: seq<string>, w: string, n: nat)
    requires n >= 1 && |words| >= 1
    requires NoSpaces(words + [w])
    requires SentenceAffixKeys(PaddedLine(words), n) == EdgeKeys(words, n)
    ensures SentenceAffixKeys(PaddedLine(words + [w]), n) == EdgeKeys(words + [w], n)
  {
    var last := words[|words| - 1];
    var ws := words + [w];
    assert ws[|words| - 1] == last && ws[|words|] == w;
    PaddedLineSnoc(words, w);
    PaddedLineEnd(words);
    ScanSnoc(PaddedLine(words), last, w, n);
    EdgeKeysSnoc(words, w, n);
  }

  /** A single word contributes its prefix. */
  lemma EdgeSingle(w: string, n: nat)
    requires n >= 1 && ' ' !in w
    ensures SentenceAffixKeys(PaddedLine([w]), n) == EdgeKeys([w], n)
  {
    var t' := [] + ([' '] + w);
    assert PaddedLine([w]) == t';
    AfterOldEnd([], w, n);
  }

  /** What the scan of a sentence records: the prefix of every word at least n
      long, and the suffix of every word longer than n except the last one,
      word by word. */
  lemma {:induction false} AffixesAreWordEdges(words: seq<string>, n: nat)
    requires n >= 1
    requires NoSpaces(words)
    ensures SentenceAffixKeys(PaddedLine(words), n) == EdgeKeys(words, n)
    decreases |words|
  {
    if words == [] {
      assert PaddedLine(words) == " ";
    } else if |words| == 1 {
      EdgeSingle(words[0], n);
    } else {
      var init, w := words[..|words| - 1], words[|words| - 1];
      assert words == init + [w];
      AffixesAreWordEdges(init, n);
      EdgeStep(init, w, n);
    }
  }
}
