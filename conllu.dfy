/** Tokens, sentences and documents, and the reading of a document from the
    lines of a CoNLL-U file (n_grams/n_grams_classes.py, `Token`, `Sentence`,
    `Document.__init__`). */
module Conllu {
  import opened Wrappers
  import opened Text

  /** One word of a sentence: its surface form, its lemma (`lemmaForm`, since
      `lemma` is a keyword) and its part-of-speech tag. */
  datatype Token = Token(forma: string, lemmaForm: string, pos: string)

  /** Which field of a token a word list is made of. */
  datatype Selector = Forma | Lemma | Pos

  function Field(t: Token, sel: Selector): string
  {
    match sel
    case Forma => t.forma
    case Lemma => t.lemmaForm
    case Pos => t.pos
  }

  datatype Sentence = Sentence(tokens: seq<Token>)

  /** `Sentence.get_wordlist`: the selected field of every token, in order. */
  function WordList(s: Sentence, sel: Selector): (r: seq<string>)
    ensures |r| == |s.tokens|
    decreases |s.tokens|
  {
    if s.tokens == [] then []
    else
      var k := |s.tokens| - 1;
      WordList(Sentence(s.tokens[..k]), sel) + [Field(s.tokens[k], sel)]
  }

  /** Word i of a word list is the selected field of token i. */
  lemma {:induction false} WordListFields(s: Sentence, sel: Selector)
    ensures forall i :: 0 <= i < |s.tokens| ==> WordList(s, sel)[i] == Field(s.tokens[i], sel)
    decreases |s.tokens|
  {
    if s.tokens != [] {
      var k := |s.tokens| - 1;
      var init := Sentence(s.tokens[..k]);
      WordListFields(init, sel);
      assert forall i :: 0 <= i < k ==> init.tokens[i] == s.tokens[i];
    }
  }

  /** A document is its sentences, in file order. */
  datatype Document = Document(sentences: seq<Sentence>)

  /** Why reading a line raised IndexError: the line is the empty string, or a
      token line has fewer than four tab-separated fields. */
  datatype Fault = EmptyLine | MissingFields

  /** The IndexError the constructor raises, with the index of the offending line. */
  datatype ParseError = IndexError(line: nat, fault: Fault)

  /** What one line contributes: it closes the current sentence, adds a token,
      adds nothing, or makes the constructor fail. */
  datatype LineKind = Boundary | Word(token: Token) | Ignored | Broken(fault: Fault)

  /** How one line is read. A line whose first character is a digit is a token
      line: its stripped text is split at tabs, a first field with a hyphen
      (a multiword range such as `2-3`) is skipped, and otherwise fields 1, 2
      and 3 are the form, lemma and tag. Only the line "\n" ends a sentence. */
  function Classify(line: string): (k: LineKind)
    ensures k == Boundary <==> line == "\n"
  {
    if line == [] then Broken(EmptyLine)
    else if IsDigit(line[0]) then
      var fields := Split(Strip(line), '\t');
      if '-' in fields[0] then Ignored
      else if |fields| < 4 then Broken(MissingFields)
      else Word(Token(fields[1], fields[2], fields[3]))
    else if line == "\n" then Boundary
    else Ignored
  }

  /** How each line of a file is read, line by line. */
  function Kinds(lines: seq<string>): (ks: seq<LineKind>)
    ensures |ks| == |lines|
    ensures forall j :: 0 <= j < |lines| ==> ks[j] == Classify(lines[j])
  {
    seq(|lines|, j requires 0 <= j < |lines| => Classify(lines[j]))
  }

  /** The token a line adds to the current sentence, if any. */
  function TokensOf(k: LineKind): seq<Token>
  {
    match k
    case Word(t) => [t]
    case _ => []
  }

  /** The tokens of a run of lines, in order. */
  function TokensIn(ks: seq<LineKind>): seq<Token>
  {
    if ks == [] then []
    else TokensIn(ks[..|ks| - 1]) + TokensOf(ks[|ks| - 1])
  }

  /** The sentences completed after reading lines of kinds `ks`. */
  function Closed(ks: seq<LineKind>): seq<Sentence>
  {
    if ks == [] then []
    else
      var init := ks[..|ks| - 1];
      if ks[|ks| - 1] == Boundary then Closed(init) + [Sentence(Open(init))]
      else Closed(init)
  }

  /** The tokens of the sentence still open after reading lines of kinds `ks`. */
  function Open(ks: seq<LineKind>): seq<Token>
  {
    if ks == [] then []
    else
      var init := ks[..|ks| - 1];
      if ks[|ks| - 1] == Boundary then [] else Open(init) + TokensOf(ks[|ks| - 1])
  }

  /** No line raises IndexError. */
  function AllReadable(ks: seq<LineKind>): (b: bool)
    ensures b <==> forall j :: 0 <= j < |ks| ==> !ks[j].Broken?
  {
    ks == [] || (AllReadable(ks[..|ks| - 1]) && !ks[|ks| - 1].Broken?)
  }

  /** The token part of one step of `Document.__init__`, for a line that
      starts with a digit: strip, split at tabs, skip a multiword range, and
      otherwise read fields 1 to 3 (IndexError when there are fewer). */
  method ReadTokenLine(line: string) returns (r: Result<seq<Token>, Fault>)
    requires line != [] && IsDigit(line[0])
    ensures r.Failure? <==> Classify(line).Broken?
    ensures r.Failure? ==> Classify(line) == Broken(r.error)
    ensures r.Success? ==> r.value == TokensOf(Classify(line))
  {
    var fields := Split(Strip(line), '\t');
    if '-' in fields[0] {
      return Success([]);
    }
    if |fields| < 4 {
      return Failure(MissingFields);
    }
    r := Success([Token(fields[1], fields[2], fields[3])]);
  }

  /** A token line as a CoNLL-U file holds it: tab-separated fields, the first
      an identifier starting with a digit, the last not ending in whitespace,
      then a newline. Reading it gives the fields back: a hyphenated
      identifier is a multiword range and is skipped, fewer than four fields
      raise IndexError, and otherwise fields 1 to 3 are the form, lemma and
      tag. */
  lemma ReadsFields(fields: seq<string>)
    requires |fields| >= 1 && fields[0] != [] && IsDigit(fields[0][0])
    requires forall i :: 0 <= i < |fields| ==> '\t' !in fields[i]
    requires fields[|fields| - 1] != [] && !IsSpace(fields[|fields| - 1][|fields[|fields| - 1]| - 1])
    ensures var k := Classify(Join("\t", fields) + "\n");
      && ('-' in fields[0] ==> k == Ignored)
      && ('-' !in fields[0] && |fields| < 4 ==> k == Broken(MissingFields))
      && ('-' !in fields[0] && |fields| >= 4 ==> k == Word(Token(fields[1], fields[2], fields[3])))
  {
    var j := Join("\t", fields);
    var last := fields[|fields| - 1];
    JoinEnds("\t", fields);
    assert j[0] == j[..|fields[0]|][0] == fields[0][0];
    assert j[|j| - 1] == j[|j| - |last|..][|last| - 1] == last[|last| - 1];
    StripLine(j);
    SplitJoin(fields, '\t');
    assert (j + "\n")[0] == j[0];
  }

  /** `Document.__init__`: reads the lines in order, appending tokens to the
      open sentence and closing it at every "\n" line. The first line that
      raises IndexError ends the construction with that error; tokens after the
      last "\n" line are not part of the document. */
  method NewDocument(lines: seq<string>) returns (r: Result<Document, ParseError>)
    ensures r.Success? <==> AllReadable(Kinds(lines))
    ensures r.Failure? ==>
      && r.error.line < |lines|
      && AllReadable(Kinds(lines[..r.error.line]))
      && Classify(lines[r.error.line]) == Broken(r.error.fault)
    ensures r.Success? ==> r.value == Document(Closed(Kinds(lines)))
  {
    ghost var ks := Kinds(lines);
    var sentences: seq<Sentence> := [];
    var buffer: seq<Token> := [];
    for j := 0 to |lines|
      invariant sentences == Closed(ks[..j])
      invariant buffer == Open(ks[..j])
      invariant AllReadable(ks[..j])
    {
      var line := lines[j];
      assert ks[..j + 1][..j] == ks[..j] && ks[j] == Classify(line);
      if line == [] {
        assert Kinds(lines[..j]) == ks[..j];
        return Failure(IndexError(j, EmptyLine));
      }
      if IsDigit(line[0]) {
        var read := ReadTokenLine(line);
        if read.Failure? {
          assert Kinds(lines[..j]) == ks[..j];
          return Failure(IndexError(j, read.error));
        }
        buffer := buffer + read.value;
      }
      if line == "\n" {
        sentences := sentences + [Sentence(buffer)];
        buffer := [];
      }
    }
    assert ks[..|lines|] == ks;
    r := Success(Document(sentences));
  }

  /** The positions of the "\n" lines, in increasing order. */
  function Blanks(ks: seq<LineKind>): (r: seq<nat>)
    ensures forall i :: 0 <= i < |r| ==> r[i] < |ks| && ks[r[i]] == Boundary
    ensures forall i, j :: 0 <= i < j < |r| ==> r[i] < r[j]
  {
    if ks == [] then []
    else
      var init := ks[..|ks| - 1];
      Blanks(init) + (if ks[|ks| - 1] == Boundary then [|ks| - 1] else [])
  }

  /** Every "\n" line is among the blanks. */
  lemma {:induction false} BlanksComplete(ks: seq<LineKind>, j: nat)
    requires j < |ks| && ks[j] == Boundary
    ensures j in Blanks(ks)
  {
    var init := ks[..|ks| - 1];
    if j < |init| {
      BlanksComplete(init, j);
    }
  }

  /** Where the i-th sentence's lines start: at the top of the file, or just
      after the previous "\n" line. */
  function SegmentStart(ks: seq<LineKind>, i: nat): (s: nat)
    requires i <= |Blanks(ks)|
    ensures s <= |ks|
    ensures i < |Blanks(ks)| ==> s <= Blanks(ks)[i]
  {
    if i == 0 then 0 else Blanks(ks)[i - 1] + 1
  }

  /** The tokens of one more line follow the tokens of the lines before it. */
  lemma TokensInSnoc(ks: seq<LineKind>, k: LineKind)
    ensures TokensIn(ks + [k]) == TokensIn(ks) + TokensOf(k)
  {
    assert (ks + [k])[..|ks|] == ks;
  }

  /** A slice that ends before the last line is a slice of the lines before it. */
  lemma SliceBeforeLast(ks: seq<LineKind>, a: nat, b: nat)
    requires a <= b < |ks|
    ensures ks[a..b] == ks[..|ks| - 1][a..b]
  {
  }

  /** A slice running to the end is the same slice of the lines before the
      last one, followed by the last line. */
  lemma SliceToLast(ks: seq<LineKind>, a: nat)
    requires a < |ks|
    ensures ks[a..] == ks[..|ks| - 1][a..] + [ks[|ks| - 1]]
  {
  }

  /** One sentence per "\n" line. */
  lemma {:induction false} OneSentencePerBlank(ks: seq<LineKind>)
    ensures |Closed(ks)| == |Blanks(ks)|
  {
    if ks != [] {
      OneSentencePerBlank(ks[..|ks| - 1]);
    }
  }

  /** The open sentence holds the tokens after the last "\n" line; the
      document does not keep them. */
  lemma {:induction false} OpenIsTail(ks: seq<LineKind>)
    ensures Open(ks) == TokensIn(ks[SegmentStart(ks, |Blanks(ks)|)..])
  {
    if ks != [] {
      var init, last := ks[..|ks| - 1], ks[|ks| - 1];
      assert ks == init + [last];
      var b, b' := Blanks(init), Blanks(ks);
      assert b' == b + (if last == Boundary then [|init|] else []);
      OpenIsTail(init);
      var tail := SegmentStart(init, |b|);
      if last == Boundary {
        assert SegmentStart(ks, |b'|) == |ks|;
        assert ks[|ks|..] == [];
      } else {
        assert SegmentStart(ks, |b'|) == tail;
        SliceToLast(ks, tail);
        TokensInSnoc(init[tail..], last);
      }
    }
  }

  /** The i-th sentence is made of the lines between the (i-1)-th and the
      i-th "\n" line. */
  ghost predicate SegmentOk(ks: seq<LineKind>, i: nat)
  {
    && i < |Closed(ks)| && i < |Blanks(ks)|
    && Closed(ks)[i].tokens == TokensIn(ks[SegmentStart(ks, i)..Blanks(ks)[i]])
  }

  /** Every sentence is made of its own lines, one per "\n" line. */
  ghost predicate SegmentsMatch(ks: seq<LineKind>)
  {
    && |Closed(ks)| == |Blanks(ks)|
    && forall i :: 0 <= i < |Closed(ks)| ==> SegmentOk(ks, i)
  }

  /** A sentence is exactly the tokens of the lines between two consecutive
      "\n" lines (or the top of the file and the first one), and there is
      one sentence per "\n" line, in order. */
  lemma {:induction false} SentencesAreBlankDelimited(ks: seq<LineKind>)
    ensures SegmentsMatch(ks)
  {
    if ks != [] {
      var init, last := ks[..|ks| - 1], ks[|ks| - 1];
      assert ks == init + [last];
      SentencesAreBlankDelimited(init);
      SegmentsStep(init, last);
    }
  }

  /** Reading one more line keeps every sentence made of its own lines. */
  lemma SegmentsStep(init: seq<LineKind>, last: LineKind)
    requires SegmentsMatch(init)
    ensures SegmentsMatch(init + [last])
  {
    CountStep(init, last);
    ClosedSegmentsKept(init, last);
    if last == Boundary {
      LastSegment(init);
    }
  }

  /** Reading one more line adds a sentence exactly when it adds a "\n" line. */
  lemma CountStep(init: seq<LineKind>, last: LineKind)
    requires |Closed(init)| == |Blanks(init)|
    ensures |Closed(init + [last])| == |Blanks(init + [last])|
         == |Closed(init)| + (if last == Boundary then 1 else 0)
  {
    var ks := init + [last];
    assert ks[..|ks| - 1] == init;
  }

  /** Reading one more line leaves every sentence already closed as it was. */
  lemma ClosedSegmentsKept(init: seq<LineKind>, last: LineKind)
    requires SegmentsMatch(init)
    ensures forall i :: 0 <= i < |Closed(init)| ==> SegmentOk(init + [last], i)
  {
    forall i | 0 <= i < |Closed(init)|
      ensures SegmentOk(init + [last], i)
    {
      ClosedSegmentKept(init, last, i);
    }
  }

  /** The sentence a "\n" line closes is made of the lines since the previous one. */
  lemma LastSegment(init: seq<LineKind>)
    requires |Closed(init)| == |Blanks(init)|
    ensures SegmentOk(init + [Boundary], |Closed(init)|)
  {
    var ks := init + [Boundary];
    assert ks[..|ks| - 1] == init;
    var b := Blanks(init);
    assert Blanks(ks) == b + [|init|];
    var tail := SegmentStart(init, |b|);
    assert SegmentStart(ks, |b|) == tail;
    OpenIsTail(init);
    SliceBeforeLast(ks, tail, |init|);
    assert init[tail..|init|] == init[tail..];
  }

  /** Reading one more line leaves a sentence already closed as it was. */
  lemma ClosedSegmentKept(init: seq<LineKind>, last: LineKind, i: nat)
    requires |Closed(init)| == |Blanks(init)|
    requires SegmentOk(init, i)
    ensures SegmentOk(init + [last], i)
  {
    var ks := init + [last];
    assert ks[..|ks| - 1] == init;
    var b := Blanks(init);
    assert Closed(ks)[i] == Closed(init)[i];
    assert Blanks(ks)[i] == b[i];
    assert i > 0 ==> Blanks(ks)[i - 1] == b[i - 1];
    assert SegmentStart(ks, i) == SegmentStart(init, i);
    SliceBeforeLast(ks, SegmentStart(init, i), b[i]);
  }
}
