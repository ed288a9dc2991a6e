/** The few Python string operations the feature extractor relies on:
    str.isdigit, str.strip, str.split(sep), sep.join(parts) and the decimal
    rendering of a number inside an f-string. */
module Text {

  /** str.isdigit on one character, restricted to the ASCII decimal digits. */
  predicate IsDigit(c: char) {
    '0' as int <= c as int <= '9' as int
  }

  /** str.isspace on one character: exactly the characters that str.strip() removes. */
  predicate IsSpace(c: char) {
    c == ' ' || '\t' <= c <= '\r' || '\U{1C}' <= c <= '\U{1F}'
    || c == '\U{85}' || c == '\U{A0}' || c == '\U{1680}'
    || '\U{2000}' <= c <= '\U{200A}' || c == '\U{2028}' || c == '\U{2029}'
    || c == '\U{202F}' || c == '\U{205F}' || c == '\U{3000}'
  }

  /** str.lstrip(): the longest suffix of s that does not start with whitespace. */
  function StripStart(s: string): (r: string)
    ensures |r| <= |s| && r == s[|s| - |r|..]
    ensures forall i :: 0 <= i < |s| - |r| ==> IsSpace(s[i])
    ensures r == [] || !IsSpace(r[0])
  {
    if s != [] && IsSpace(s[0]) then StripStart(s[1..]) else s
  }

  /** str.rstrip(): the longest prefix of s that does not end with whitespace. */
  function StripEnd(s: string): (r: string)
    ensures |r| <= |s| && r == s[..|r|]
    ensures forall i :: |r| <= i < |s| ==> IsSpace(s[i])
    ensures r == [] || !IsSpace(r[|r| - 1])
  {
    if s != [] && IsSpace(s[|s| - 1]) then StripEnd(s[..|s| - 1]) else s
  }

  /** str.strip(): whitespace removed at both ends. */
  function Strip(s: string): (r: string)
    ensures r == [] || (!IsSpace(r[0]) && !IsSpace(r[|r| - 1]))
    ensures s != [] && !IsSpace(s[0]) ==> r == StripEnd(s)
  {
    var t := StripStart(s);
    var r := StripEnd(t);
    assert r != [] ==> r[0] == t[0];
    r
  }

  /** str.split(sep) for a one-character separator: the pieces between
      separators, left to right; the empty string gives one empty piece. */
  function Split(s: string, sep: char): (r: seq<string>)
    ensures |r| >= 1
    ensures forall i :: 0 <= i < |r| ==> sep !in r[i]
  {
    if s == [] then [""]
    else
      var fields := Split(s[..|s| - 1], sep);
      var c := s[|s| - 1];
      if c == sep then fields + [""]
      else fields[..|fields| - 1] + [fields[|fields| - 1] + [c]]
  }

  /** sep.join(parts). */
  function Join(sep: string, parts: seq<string>): string
  {
    if parts == [] then ""
    else if |parts| == 1 then parts[0]
    else Join(sep, parts[..|parts| - 1]) + sep + parts[|parts| - 1]
  }

  /** Joining a first part onto the join of the rest. */
  lemma {:induction false} JoinCons(sep: string, a: string, xs: seq<string>)
    requires |xs| >= 1
    ensures Join(sep, [a] + xs) == a + sep + Join(sep, xs)
    decreases |xs|
  {
    var ps := [a] + xs;
    if |xs| == 1 {
      assert ps[..1] == [a];
    } else {
      var ys, z := xs[..|xs| - 1], xs[|xs| - 1];
      assert ps[..|ps| - 1] == [a] + ys;
      JoinCons(sep, a, ys);
    }
  }

  /** A join starts with its first part and ends with its last. */
  lemma JoinEnds(sep: string, parts: seq<string>)
    requires |parts| >= 1
    ensures |Join(sep, parts)| >= |parts[0]| && Join(sep, parts)[..|parts[0]|] == parts[0]
    ensures var j, last := Join(sep, parts), parts[|parts| - 1];
      |j| >= |last| && j[|j| - |last|..] == last
  {
    if |parts| > 1 {
      assert [parts[0]] + parts[1..] == parts;
      JoinCons(sep, parts[0], parts[1..]);
    }
  }

  /** Joining the pieces of a split with the separator gives back the string. */
  lemma {:induction false} JoinSplit(s: string, sep: char)
    ensures Join([sep], Split(s, sep)) == s
  {
    if s != [] {
      var init, c := s[..|s| - 1], s[|s| - 1];
      assert init + [c] == s;
      JoinSplit(init, sep);
      JoinSplitStep(init, sep, c);
    }
  }

  /** One more character: a separator starts a new piece, anything else
      lengthens the last one. */
  lemma JoinSplitStep(init: string, sep: char, c: char)
    requires Join([sep], Split(init, sep)) == init
    ensures Join([sep], Split(init + [c], sep)) == init + [c]
  {
    var fields := Split(init, sep);
    assert (init + [c])[..|init|] == init;
    if c == sep {
      assert (fields + [""])[..|fields|] == fields;
    } else {
      JoinLastGrows(fields, [sep], c);
    }
  }

  /** Appending a character to the last part appends it to the joined string. */
  lemma JoinLastGrows(parts: seq<string>, sep: string, c: char)
    requires |parts| >= 1
    ensures Join(sep, parts[..|parts| - 1] + [parts[|parts| - 1] + [c]]) == Join(sep, parts) + [c]
  {
    var q := parts[..|parts| - 1] + [parts[|parts| - 1] + [c]];
    assert q[..|q| - 1] == parts[..|parts| - 1];
  }

  /** A line whose text neither starts nor ends with whitespace strips to
      that text: `strip()` removes just the newline. */
  lemma StripLine(s: string)
    requires s != [] && !IsSpace(s[0]) && !IsSpace(s[|s| - 1])
    ensures Strip(s + "\n") == s
  {
    var t := s + "\n";
    assert t[..|t| - 1] == s;
    assert StripEnd(t) == StripEnd(s) == s;
  }

  /** Splitting the join of separator-free parts gives back the parts. */
  lemma {:induction false} SplitJoin(parts: seq<string>, sep: char)
    requires |parts| >= 1
    requires forall i :: 0 <= i < |parts| ==> sep !in parts[i]
    ensures Split(Join([sep], parts), sep) == parts
  {
    if |parts| == 1 {
      SplitWithoutSeparator(parts[0], sep);
    } else {
      var init, last := parts[..|parts| - 1], parts[|parts| - 1];
      assert init + [last] == parts;
      assert Join([sep], parts) == Join([sep], init) + [sep] + last;
      SplitJoin(init, sep);
      SplitAfterSeparator(Join([sep], init), sep, last);
    }
  }

  /** A string without the separator splits into itself alone. */
  lemma {:induction false} SplitWithoutSeparator(w: string, sep: char)
    requires sep !in w
    ensures Split(w, sep) == [w]
  {
    if w != [] {
      SplitWithoutSeparator(w[..|w| - 1], sep);
      assert w[..|w| - 1] + [w[|w| - 1]] == w;
    }
  }

  /** A separator followed by a separator-free tail starts exactly one new piece. */
  lemma {:induction false} SplitAfterSeparator(t: string, sep: char, w: string)
    requires sep !in w
    ensures Split(t + [sep] + w, sep) == Split(t, sep) + [w]
    decreases |w|
  {
    var u := t + [sep] + w;
    if w == [] {
      assert u[..|u| - 1] == t;
    } else {
      var w', c := w[..|w| - 1], w[|w| - 1];
      assert u[..|u| - 1] == t + [sep] + w';
      SplitAfterSeparator(t, sep, w');
      var fields := Split(t, sep) + [w'];
      assert fields[..|fields| - 1] == Split(t, sep);
      assert w' + [c] == w;
    }
  }

  /** The character of one decimal digit. */
  function DigitChar(d: nat): (c: char)
    requires d < 10
    ensures IsDigit(c)
  {
    (48 + d) as char
  }

  /** The decimal rendering of a natural number, as f'{n}' writes it. */
  function NatToString(n: nat): (s: string)
    ensures |s| >= 1
    ensures forall i :: 0 <= i < |s| ==> IsDigit(s[i])
    ensures s[0] == '0' <==> n == 0
    decreases n
  {
    if n < 10 then [DigitChar(n)] else NatToString(n / 10) + [DigitChar(n % 10)]
  }

  /** The number a string of decimal digits denotes. */
  function DecimalValue(s: string): nat
    requires forall i :: 0 <= i < |s| ==> IsDigit(s[i])
  {
    if s == [] then 0
    else
      var last := s[|s| - 1];
      assert IsDigit(last);
      DecimalValue(s[..|s| - 1]) * 10 + (last as int - '0' as int)
  }

  /** Reading back the rendered number gives the number. */
  lemma {:induction false} DecimalRoundTrip(n: nat)
    ensures DecimalValue(NatToString(n)) == n
    decreases n
  {
    if n >= 10 {
      var s := NatToString(n);
      assert s[..|s| - 1] == NatToString(n / 10);
      DecimalRoundTrip(n / 10);
    }
  }
}
