# n-gram feature extraction from CoNLL-U documents

A Dafny model of `n_grams/n_grams_classes.py`, which reads documents in the
CoNLL-U format and turns each one into a dictionary of relative n-gram
frequencies for text classification:

- `Token`, `Sentence` and `Document` are the parsed data. `Document.__init__`
  reads the lines of a CoNLL-U file: a line starting with a digit is a token
  line (its stripped text split at tabs gives form, lemma and tag, and an
  identifier with a hyphen is a multiword range that is skipped), and the line
  `"\n"` closes the current sentence.
- `get_word_ngrams` counts n-grams of forms, lemmas or tags, named
  `F_2_il_cane`, and divides by the number of tokens.
- `get_char_ngrams` counts character n-grams of the space-joined forms, named
  `3_c_a_n`, and divides by the number of characters.
- `get_char_pref_suff_ngrams` counts, for forms without spaces, the first n
  characters of every word that has n (`p3_can`), and the last n characters of
  every word longer than n that is not the last of its sentence (`s3_ane`). A
  form holding a space is scanned as two words. It divides by the number of
  characters of the space-padded sentences.
- `Corpus` pairs documents with results and applies one extractor to every
  document.

Modules:

- `Wrappers`: `Option` and `Result`.
- `Text`: `str.isdigit`, `str.strip`, `str.split`, `str.join` and decimal
  rendering, with the split/join and decimal round trips.
- `FeatureCounts`: the counting dictionary (`Tally`), the final division
  (`Normalise`), and what the frequencies add up to (`Sum`).
- `Conllu`: the data and the parser.
- `NGrams`: word and character n-grams.
- `AffixNGrams`: prefixes and suffixes.
- `Corpora`: the corpus.

The parser and the three extractors are loops in the source. They are modelled
as Dafny methods with loops, and each is proved equal to a specification
function. The properties are proved about those functions:

- which keys occur;
- each value is the count over the total;
- each value lies in (0, 1];
- the values add up to at most one, and to exactly one for unigrams;
- word names are injective for words without `_`, and character names are
  injective for a fixed n;
- the sentence structure of a parsed file;
- which prefixes and suffixes the scan finds.

Frequencies are exact reals.

## Model

| member | source | states |
|---|---|---|
| Conllu.WordListFields | n_grams/n_grams_classes.py:125-126 | `get_wordlist` gives one entry per token, in order, and entry i is token i's form, lemma or tag as selected |
| Conllu.Classify | n_grams/n_grams_classes.py:40-48 | a line ends a sentence exactly when it is `"\n"` |
| Conllu.ReadTokenLine | n_grams/n_grams_classes.py:40-45 | the token step for a line starting with a digit agrees with `Classify`: it fails exactly on a line `Classify` marks as raising IndexError, with the same fault, and otherwise yields that line's token, if any. `ReadsFields` states what this means for a line of tab-separated fields |
| Conllu.ReadsFields | n_grams/n_grams_classes.py:40-45 | a line of tab-separated fields (tab-free, the first starting with a digit, the last not ending in whitespace) followed by a newline is read back field by field: a hyphen in the identifier skips it, fewer than four fields raise IndexError, otherwise fields 1 to 3 are the form, lemma and tag |
| Conllu.NewDocument | n_grams/n_grams_classes.py:35-49 | succeeds exactly when no line raises IndexError; on failure reports the first such line and why; on success the sentences are those closed by `"\n"` lines |
| Conllu.AllReadable | n_grams/n_grams_classes.py:39-45 | no line of the file raises IndexError exactly when every line is readable |
| Conllu.Kinds | n_grams/n_grams_classes.py:39-48 | the lines are read one by one, line j as `Classify` reads it |
| Conllu.Blanks | n_grams/n_grams_classes.py:46-48 | the positions of the `"\n"` lines, strictly increasing |
| Conllu.BlanksComplete | n_grams/n_grams_classes.py:46-48 | every `"\n"` line is among those positions |
| Conllu.OneSentencePerBlank | n_grams/n_grams_classes.py:46-48 | there are as many sentences as `"\n"` lines, empty sentences included |
| Conllu.SentencesAreBlankDelimited | n_grams/n_grams_classes.py:35-49 | sentence i holds exactly the tokens of the lines between the (i-1)-th and the i-th `"\n"` line, in order |
| Conllu.OpenIsTail | n_grams/n_grams_classes.py:36-49 | the tokens after the last `"\n"` line stay in the buffer and never reach the document |
| Text.Strip | n_grams/n_grams_classes.py:41 | `strip()` leaves no whitespace at either end, and leaves the text alone up to the trailing whitespace when it does not start with whitespace |
| Text.Split | n_grams/n_grams_classes.py:41 | `split('\t')` gives at least one field, none holding a tab |
| Text.JoinSplit | n_grams/n_grams_classes.py:41 | joining the fields of a split with the separator gives the text back |
| Text.JoinEnds | n_grams/n_grams_classes.py:41 | a join starts with its first part and ends with its last |
| Text.StripLine | n_grams/n_grams_classes.py:41 | `strip()` of a text that starts and ends with non-whitespace, plus a newline, removes just the newline |
| Text.SplitJoin | n_grams/n_grams_classes.py:67 | splitting a join of separator-free parts gives the parts back |
| Text.NatToString | n_grams/n_grams_classes.py:67 | the decimal rendering of n is a non-empty run of digits, with a leading zero only for zero |
| Text.DecimalRoundTrip | n_grams/n_grams_classes.py:67 | reading the rendered number back gives n |
| FeatureCounts.TallyCounts | n_grams/n_grams_classes.py:68 | the `featuredict.get(k, 0) + 1` loop maps exactly the names seen, each to its number of occurrences |
| FeatureCounts.TallyStep | n_grams/n_grams_classes.py:68 | one increment counts one more name |
| FeatureCounts.SumRemove | n_grams/n_grams_classes.py:70 | the sum of the frequencies does not depend on the order of the keys |
| FeatureCounts.TallySharesSum | n_grams/n_grams_classes.py:70 | the normalised counts add up to the number of names counted over the total |
| FeatureCounts.TallySharesBounded | n_grams/n_grams_classes.py:70 | with at most `total` names counted, every frequency lies in (0, 1] |
| NGrams.Windows | n_grams/n_grams_classes.py:65 | `range(0, len - n + 1)` has `len - n + 1` offsets when `len >= n`, and none otherwise |
| NGrams.SentenceWordKeys | n_grams/n_grams_classes.py:65-67 | a sentence yields one name per window, and name i is made of window i |
| NGrams.WordKeysCount | n_grams/n_grams_classes.py:61-68 | the number of names counted is the number of windows over all sentences |
| NGrams.WordWindowsAtMostTokens | n_grams/n_grams_classes.py:63-65 | there are no more windows than tokens, and exactly as many for unigrams |
| NGrams.WordNGrams | n_grams/n_grams_classes.py:51-70 | the keys are exactly the word n-gram names; each value is the name's count over the number of tokens and lies in (0, 1]; a document without tokens gives `{}` |
| NGrams.CountWordWindows | n_grams/n_grams_classes.py:65-68 | the inner loop adds the names of one sentence's windows to the counts |
| NGrams.GetWordNGrams | n_grams/n_grams_classes.py:51-70 | the loops return exactly `WordNGrams` |
| NGrams.WordSharesSum | n_grams/n_grams_classes.py:70 | the frequencies add up to the number of windows over the number of tokens |
| NGrams.WordSharesAtMostOne | n_grams/n_grams_classes.py:70 | the word n-gram frequencies add up to at most one |
| NGrams.UnigramSharesSumToOne | n_grams/n_grams_classes.py:63-70 | for n = 1 and a document with tokens they add up to exactly one |
| NGrams.WordKeyFields | n_grams/n_grams_classes.py:67 | splitting a name at `_` gives back the label, n and the words, when no word holds `_` |
| NGrams.WordKeyInjective | n_grams/n_grams_classes.py:55-67 | two windows without `_` get the same name only when the label, n and the words agree |
| NGrams.WordKeyUnderscoreCollision | n_grams/n_grams_classes.py:67 | with underscores inside words, the different bigrams `x_y z` and `x y_z` get the same name |
| NGrams.Singletons | n_grams/n_grams_classes.py:83 | the characters of a window, one string each |
| NGrams.SpacedLayout | n_grams/n_grams_classes.py:83 | `'_'.join` of a window puts its characters at even positions and `_` between them |
| NGrams.CharKeyInjective | n_grams/n_grams_classes.py:83 | two windows of width n get the same name only when they are equal |
| NGrams.SentenceCharKeys | n_grams/n_grams_classes.py:81-83 | a joined sentence yields one name per window, and name i is made of window i |
| NGrams.CharKeysCount | n_grams/n_grams_classes.py:76-84 | the number of names counted is the number of windows over all sentences |
| NGrams.CharWindowsAtMostChars | n_grams/n_grams_classes.py:79-81 | there are no more windows than characters, and exactly as many for n = 1 |
| NGrams.CharNGrams | n_grams/n_grams_classes.py:72-86 | the keys are exactly the character n-gram names; each value is the name's count over the number of characters and lies in (0, 1]; no characters gives `{}` |
| NGrams.CountCharWindows | n_grams/n_grams_classes.py:81-84 | the inner loop adds the names of one joined sentence's windows to the counts |
| NGrams.GetCharNGrams | n_grams/n_grams_classes.py:72-86 | the loops return exactly `CharNGrams` |
| NGrams.CharSharesSum | n_grams/n_grams_classes.py:86 | the frequencies add up to the number of windows over the number of characters, hence at most one |
| AffixNGrams.AffixEnd | n_grams/n_grams_classes.py:98 | `range(1, len - n + 1)`: every offset it yields leaves room for a whole window inside the text |
| AffixNGrams.AffixKeysBeforeCount | n_grams/n_grams_classes.py:98-108 | at most one name is recorded per offset |
| AffixNGrams.AffixKeysAtMostPadded | n_grams/n_grams_classes.py:93-98 | at most as many names are recorded as there are padded characters, and a document with a sentence has characters |
| AffixNGrams.PrefSuffNGrams | n_grams/n_grams_classes.py:89-112 | the keys are exactly the prefix and suffix names recorded; each value is the name's count over the padded character count and lies in (0, 1]; a document without sentences gives `{}` |
| AffixNGrams.ScanStep | n_grams/n_grams_classes.py:99-110 | one offset counts a prefix when a space precedes a space-free window, otherwise a suffix when a space follows it, and nothing when the window ends the text (the swallowed IndexError) |
| AffixNGrams.CountAffixWindows | n_grams/n_grams_classes.py:98-110 | the inner loop adds the prefix and suffix names of one padded sentence to the counts |
| AffixNGrams.GetPrefSuffNGrams | n_grams/n_grams_classes.py:89-112 | the loops return exactly `PrefSuffNGrams` |
| AffixNGrams.AffixSharesSum | n_grams/n_grams_classes.py:112 | the frequencies add up to the number of names recorded over the padded character count, which is at most one |
| AffixNGrams.AffixSharesAtMostOne | n_grams/n_grams_classes.py:112 | the prefix and suffix frequencies of any document add up to at most one |
| AffixNGrams.SpaceInWindow | n_grams/n_grams_classes.py:100 | a window holding a space is never recorded |
| AffixNGrams.EdgeStep | n_grams/n_grams_classes.py:95-110 | a word followed by another adds its suffix (when longer than n) and the next word's prefix (when at least n long) |
| AffixNGrams.AffixesAreWordEdges | n_grams/n_grams_classes.py:95-110 | for words without spaces, the scan records, word by word, each word's first n characters when it has n, and its last n characters when it is longer than n and is not the last word |
| Corpora.NewCorpus | n_grams/n_grams_classes.py:14-18 | construction fails exactly when the two lists differ in length, and otherwise keeps both lists |
| Corpora.FeatureDicts | n_grams/n_grams_classes.py:20-24 | a list exactly for "lessico" and "carattere", with one dictionary per document, dictionary i being that document's word n-grams or prefixes and suffixes |
| Corpora.FeatureDictsAlignWithResults | n_grams/n_grams_classes.py:14-24 | for a constructed corpus there are as many dictionaries as results |
| Corpora.FeatureDictsAreFrequencies | n_grams/n_grams_classes.py:20-24 | every dictionary has values in (0, 1] that add up to at most one |
| Corpora.CharacterIgnoresSelector | n_grams/n_grams_classes.py:23-24 | for "carattere" the attribute name makes no difference |

## Left out

- Floating point: frequencies are exact reals, so the rounding of `float(value)/float(total)` is not modelled.
- Text.IsDigit: `str.isdigit` is modelled for the ASCII digits only; other Unicode digits (superscripts, other scripts) are not.
- `getattr(token, t_type)` is modelled for the three attribute names only (`Selector`). Other names behave in two ways in the source. Most raise AttributeError once a sentence has a token. Names of tuple attributes such as `count`, `index` and `_fields` do not raise, because `Token` is a namedtuple. `get_word_ngrams` then reaches the unbound `t_label` at line 67 as soon as a window exists, and it fails nowhere when there is no token or no window. None of these paths is modelled.
- The attribute `lemma` is called `lemmaForm`, because `lemma` is a keyword in Dafny.
- `Sentence.__repr__` is not modelled: it only formats text.
- NGrams.WordNGrams: requires n >= 1. The source accepts any integer: n = 0 counts empty windows, and a negative n takes more offsets than there are windows. The same holds for NGrams.CharNGrams, NGrams.GetWordNGrams, NGrams.GetCharNGrams and Corpora.FeatureDicts. The prefix and suffix extractor takes any n >= 0.
- NGrams.WordKey: word n-gram names are not injective when a word holds `_`. For example, the bigrams `a_b c` and `a b_c` share the name `F_2_a_b_c`, so their counts merge. The model reproduces this, and `WordKeyInjective` assumes words without `_`.
- `get_feature_dicts` returns Python `None` for an unknown element name. This is modelled as `Option.None`.
- `Corpus.__init__` raises a bare Exception; this is modelled as `Failure(LengthMismatch)`.
- Reading files, and the rest of the repository's scripts (training, evaluation), are not part of this model.
- The inner loop of each extractor is a separate method (`CountWordWindows`, `CountCharWindows`, `CountAffixWindows`) called from the outer loop. The source nests the loops in one function.
- Documents with no tokens or no characters: the division never happens, because the dictionary being divided is empty, so the result is `{}`. The model follows the code here and raises no error.
- Conllu.ReadTokenLine: a line starting with a digit is stripped before it is split, so a line without a final newline and one with it read the same. The model follows the code here.
- Conllu.NewDocument: the line `"\n"` is tested after the token test, as in the code. A line starting with a digit can never be `"\n"`, so the order does not matter.
