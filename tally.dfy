/** The feature dictionary: how occurrences of feature names are counted
    (`featuredict[k] = featuredict.get(k, 0) + 1`), how the counts are turned
    into relative frequencies (`value / total`), and what those frequencies add
    up to. Frequencies are exact reals. */
module FeatureCounts {

  /** One `featuredict.get(k, 0) + 1` update. */
  function Increment(d: map<string, nat>, k: string): map<string, nat>
  {
    d[k := (if k in d then d[k] else 0) + 1]
  }

  /** The dictionary the counting loop leaves after seeing `keys` in order. */
  function Tally(keys: seq<string>): map<string, nat>
  {
    if keys == [] then map[]
    else Increment(Tally(keys[..|keys| - 1]), keys[|keys| - 1])
  }

  /** The tally holds every key seen, mapped to the number of times it was seen. */
  lemma {:induction false} TallyCounts(keys: seq<string>)
    ensures forall k :: k in Tally(keys) <==> k in keys
    ensures forall k :: k in Tally(keys) ==> Tally(keys)[k] == multiset(keys)[k]
    ensures forall k :: k in Tally(keys) ==> 0 < Tally(keys)[k] <= |keys|
  {
    if keys != [] {
      var init, last := keys[..|keys| - 1], keys[|keys| - 1];
      assert keys == init + [last];
      TallyCounts(init);
      assert multiset(keys) == multiset(init) + multiset{last};
    }
  }

  /** Counting one more key is one more increment. */
  lemma TallySnoc(keys: seq<string>, k: string)
    ensures Tally(keys + [k]) == Increment(Tally(keys), k)
  {
    assert (keys + [k])[..|keys|] == keys;
  }

  /** Keys seen so far followed by a prefix one longer: the shorter prefix and
      one more key. */
  lemma PrefixSnoc(seen: seq<string>, keys: seq<string>, i: nat)
    requires i < |keys|
    ensures seen + keys[..i + 1] == seen + keys[..i] + [keys[i]]
  {
    assert keys[..i + 1] == keys[..i] + [keys[i]];
  }

  /** One step of a counting loop over `keys` after `seen`: incrementing the
      count of key i extends the tally by that key. */
  lemma TallyStep(d: map<string, nat>, seen: seq<string>, keys: seq<string>, i: nat)
    requires i < |keys|
    requires d == Tally(seen + keys[..i])
    ensures d[keys[i] := (if keys[i] in d then d[keys[i]] else 0) + 1] == Tally(seen + keys[..i + 1])
  {
    PrefixSnoc(seen, keys, i);
    TallySnoc(seen + keys[..i], keys[i]);
  }

  /** Every count divided by the total: the dictionary comprehension that ends
      each extractor. Division by a zero total only happens with no keys. */
  function Normalise(counts: map<string, nat>, total: nat): (r: map<string, real>)
    requires total > 0 || counts == map[]
  {
    map k | k in counts :: counts[k] as real / total as real
  }

  /** Some key of a non-empty map. */
  ghost function Pick(m: map<string, real>): string
    requires m != map[]
  {
    assert m.Keys != {};
    var k :| k in m; k
  }

  /** The sum of the values of a map. */
  ghost function Sum(m: map<string, real>): real
    decreases |m|
  {
    if m == map[] then 0.0
    else
      var k := Pick(m);
      assert |m - {k}| < |m| by { assert (m - {k}).Keys == m.Keys - {k}; }
      m[k] + Sum(m - {k})
  }

  /** The sum does not depend on the order in which keys are picked. */
  lemma {:induction false} SumRemove(m: map<string, real>, k: string)
    requires k in m
    ensures Sum(m) == m[k] + Sum(m - {k})
    decreases |m|
  {
    var j := Pick(m);
    if j != k {
      assert (m - {j}).Keys == m.Keys - {j};
      assert (m - {k}).Keys == m.Keys - {k};
      SumRemove(m - {j}, k);
      SumRemove(m - {k}, j);
      assert m - {j} - {k} == m - {k} - {j};
    }
  }

  /** Replacing (or adding) one value changes the sum by the difference. */
  lemma SumUpdate(m: map<string, real>, k: string, v: real)
    ensures Sum(m[k := v]) == Sum(m) - (if k in m then m[k] else 0.0) + v
  {
    var m' := m[k := v];
    SumRemove(m', k);
    assert m' - {k} == m - {k};
    if k in m {
      SumRemove(m, k);
    } else {
      assert m - {k} == m;
    }
  }

  /** Normalising after one more increment updates one frequency. */
  lemma NormaliseIncrement(d: map<string, nat>, k: string, total: nat)
    requires total > 0
    ensures Normalise(Increment(d, k), total)
         == Normalise(d, total)[k := Increment(d, k)[k] as real / total as real]
  {
  }

  /** One more increment adds 1/total to the sum of the frequencies. */
  lemma NormaliseSumStep(d: map<string, nat>, k: string, total: nat)
    requires total > 0
    ensures Sum(Normalise(Increment(d, k), total)) == Sum(Normalise(d, total)) + 1.0 / total as real
  {
    var t := total as real;
    var c := if k in d then d[k] else 0;
    var before := Normalise(d, total);
    var v := (c + 1) as real / t;
    var was := if k in before then before[k] else 0.0;
    assert was == c as real / t;
    assert Increment(d, k)[k] == c + 1;
    NormaliseIncrement(d, k, total);
    SumUpdate(before, k, v);
    assert v == (c as real + 1.0) / t;
    ShareStep(c as real, t);
  }

  /** The arithmetic of one counting step: taking c/t out and putting (c+1)/t
      in adds 1/t. */
  lemma ShareStep(c: real, t: real)
    requires t > 0.0
    ensures (c + 1.0) / t - c / t == 1.0 / t
  {
  }

  /** Adding 1/t to a/t gives (a + 1)/t. */
  lemma SumStep(before: real, after: real, a: real, t: real)
    requires t > 0.0
    requires before == a / t && after == before + 1.0 / t
    ensures after == (a + 1.0) / t
  {
  }

  /** The relative frequencies of a tally add up to the number of keys counted
      over the total. */
  lemma {:induction false} TallySharesSum(keys: seq<string>, total: nat)
    requires total > 0
    ensures Sum(Normalise(Tally(keys), total)) == |keys| as real / total as real
  {
    if keys == [] {
      assert Normalise(Tally(keys), total) == map[];
    } else {
      var init, k := keys[..|keys| - 1], keys[|keys| - 1];
      assert keys == init + [k];
      TallySharesSum(init, total);
      TallySharesStep(init, k, total);
    }
  }

  /** Counting one more key adds 1/total to the sum of the frequencies. */
  lemma TallySharesStep(init: seq<string>, k: string, total: nat)
    requires total > 0
    requires Sum(Normalise(Tally(init), total)) == |init| as real / total as real
    ensures Sum(Normalise(Tally(init + [k]), total)) == |init + [k]| as real / total as real
  {
    var t := total as real;
    var before := Sum(Normalise(Tally(init), total));
    var after := Sum(Normalise(Tally(init + [k]), total));
    assert after == before + 1.0 / t by {
      TallySnoc(init, k);
      NormaliseSumStep(Tally(init), k, total);
    }
    assert |init + [k]| as real == |init| as real + 1.0;
    SumStep(before, after, |init| as real, t);
  }

  /** When at most `total` keys are counted, every frequency lies in (0, 1]. */
  lemma TallySharesBounded(keys: seq<string>, total: nat)
    requires |keys| <= total
    requires total > 0
    ensures forall k :: k in Normalise(Tally(keys), total) ==>
      0.0 < Normalise(Tally(keys), total)[k] <= 1.0
  {
    var r := Normalise(Tally(keys), total);
    TallyCounts(keys);
    forall k | k in r
      ensures 0.0 < r[k] <= 1.0
    {
      var c := Tally(keys)[k];
      assert 0.0 < c as real <= total as real;
      DivAtMostOne(c as real, total as real);
    }
  }

  /** A positive total over itself is one. */
  lemma WholeShare(t: real)
    requires t > 0.0
    ensures t / t == 1.0
  {
  }

  /** A share of a positive total that does not exceed it is at most one. */
  lemma DivAtMostOne(c: real, t: real)
    requires 0.0 <= c <= t && t > 0.0
    ensures 0.0 <= c / t <= 1.0
    ensures c > 0.0 ==> c / t > 0.0
  {
  }
}
