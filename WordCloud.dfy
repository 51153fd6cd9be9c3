/**
 * `assignment03/model/WordCloudItem.computeItems`: counts the words, takes
 * the largest count (1 when there is none), makes one item per distinct
 * word with height `sqrt(count) / sqrt(maxFreq)`, and sorts the items by
 * count, largest first.
 *
 * Heights are kept as their squares, `count / maxFreq` as a real: the
 * square root is monotone, so the bounds and the maximum carry over. The
 * `HashMap` gives the entries in an order that is not fixed here, and the
 * order of equal counts after the sort follows it.
 */
module WordCloud {
  import opened Sums

  /** An item; `heightSquared` is the square of the `relativeHeight` of the record. */
  datatype WordCloudItem = WordCloudItem(word: string, heightSquared: real)

  function CountOr0(freq: map<string, nat>, w: string): nat
  {
    if w in freq then freq[w] else 0
  }

  /** The frequency map after the words `ws`. */
  function Freq(ws: seq<string>): map<string, nat>
  {
    if ws == [] then map[]
    else
      var m := Freq(ws[..|ws| - 1]);
      var w := ws[|ws| - 1];
      m[w := CountOr0(m, w) + 1]
  }

  /** Step 1: the counting loop. */
  method CountWords(words: seq<string>) returns (freq: map<string, nat>)
    ensures freq == Freq(words)
  {
    freq := map[];
    for i := 0 to |words|
      invariant freq == Freq(words[..i])
    {
      assert words[..i + 1][..i] == words[..i];
      var w := words[i];
      freq := freq[w := CountOr0(freq, w) + 1];
    }
    assert words[..|words|] == words;
  }

  /** A word is counted iff it occurs, and its count is its number of occurrences. */
  lemma {:induction false} FreqCounts(ws: seq<string>, w: string)
    ensures w in Freq(ws) <==> w in ws
    ensures CountOr0(Freq(ws), w) == multiset(ws)[w]
  {
    if ws != [] {
      var init := ws[..|ws| - 1];
      FreqCounts(init, w);
      assert ws == init + [ws[|ws| - 1]];
    }
  }

  /** The counts add up to the number of words. */
  lemma {:induction false} FreqSum(ws: seq<string>)
    ensures SumValues(Freq(ws)) == |ws|
  {
    if ws == [] {
      SumValuesEmpty(Freq(ws));
    } else {
      var init := ws[..|ws| - 1];
      var w := ws[|ws| - 1];
      var m := Freq(init);
      FreqSum(init);
      if w in m {
        SumValuesUpdate(m, w, m[w] + 1);
      } else {
        SumValuesAdd(m, w, 1);
      }
    }
  }

  /** `m` is what `max(...).orElse(1)` gives over the counts of `freq`. */
  predicate IsMaxFreq(freq: map<string, nat>, m: nat)
  {
    if freq == map[] then m == 1
    else (exists w :: w in freq && freq[w] == m) && forall w :: w in freq ==> freq[w] <= m
  }

  /** Step 2: the largest count, by a pass over the values in map order. */
  method MaxFrequency(freq: map<string, nat>) returns (m: nat)
    ensures IsMaxFreq(freq, m)
  {
    var rest := freq.Keys;
    var best: nat := 0;
    var seen := false;
    while rest != {}
      invariant rest <= freq.Keys
      invariant seen <==> rest != freq.Keys
      invariant seen ==> exists w :: w in freq && w !in rest && freq[w] == best
      invariant forall w :: w in freq && w !in rest ==> freq[w] <= best
      decreases |rest|
    {
      var w :| w in rest;
      if !seen || freq[w] > best {
        best := freq[w];
      }
      seen := true;
      rest := rest - {w};
    }
    if !seen {
      assert freq.Keys == {};
      return 1;
    }
    return best;
  }

  /** Step 3: one item per entry, in map order, each with its height. */
  method MakeItems(freq: map<string, nat>, maxFreq: nat) returns (items: seq<WordCloudItem>)
    requires maxFreq > 0
    ensures |items| == |freq.Keys|
    ensures forall w :: w in freq <==> exists i :: 0 <= i < |items| && items[i].word == w
    ensures forall i :: 0 <= i < |items| ==>
      items[i].word in freq && items[i].heightSquared == freq[items[i].word] as real / maxFreq as real
  {
    items := [];
    var rest := freq.Keys;
    while rest != {}
      invariant rest <= freq.Keys
      invariant |items| + |rest| == |freq.Keys|
      invariant forall w :: w in freq && w !in rest <==> exists i :: 0 <= i < |items| && items[i].word == w
      invariant forall i :: 0 <= i < |items| ==>
        items[i].word in freq && items[i].heightSquared == freq[items[i].word] as real / maxFreq as real
      decreases |rest|
    {
      var w :| w in rest;
      ghost var before := items;
      items := items + [WordCloudItem(w, freq[w] as real / maxFreq as real)];
      rest := rest - {w};
      assert forall i :: 0 <= i < |before| ==> items[i] == before[i];
      assert items[|before|].word == w;
    }
  }

  /** `xs` is in non-increasing order of `key`. */
  predicate SortedDesc<T>(xs: seq<T>, key: T -> nat)
  {
    forall i, j :: 0 <= i < j < |xs| ==> key(xs[i]) >= key(xs[j])
  }

  /** Puts `x` after every element of `sorted` whose key is at least its own. */
  function Insert<T>(x: T, sorted: seq<T>, key: T -> nat): seq<T>
  {
    if sorted == [] then [x]
    else if key(sorted[0]) >= key(x) then [sorted[0]] + Insert(x, sorted[1..], key)
    else [x] + sorted
  }

  /** A stable insertion sort by descending key. */
  function SortDesc<T>(xs: seq<T>, key: T -> nat): seq<T>
  {
    if xs == [] then [] else Insert(xs[|xs| - 1], SortDesc(xs[..|xs| - 1], key), key)
  }

  lemma {:induction false} InsertPermutes<T>(x: T, sorted: seq<T>, key: T -> nat)
    ensures multiset(Insert(x, sorted, key)) == multiset(sorted) + multiset{x}
  {
    if sorted != [] && key(sorted[0]) >= key(x) {
      InsertPermutes(x, sorted[1..], key);
      assert sorted == [sorted[0]] + sorted[1..];
    }
  }

  /** Inserting an element no larger than the bound `b` into elements no larger than `b` gives elements no larger than `b`. */
  lemma {:induction false} InsertBounded<T>(x: T, sorted: seq<T>, key: T -> nat, b: nat)
    requires key(x) <= b && forall i :: 0 <= i < |sorted| ==> key(sorted[i]) <= b
    ensures forall i :: 0 <= i < |Insert(x, sorted, key)| ==> key(Insert(x, sorted, key)[i]) <= b
  {
    if sorted != [] && key(sorted[0]) >= key(x) {
      InsertBounded(x, sorted[1..], key, b);
    }
  }

  lemma {:induction false} InsertSorted<T>(x: T, sorted: seq<T>, key: T -> nat)
    requires SortedDesc(sorted, key)
    ensures SortedDesc(Insert(x, sorted, key), key)
  {
    if sorted != [] && key(sorted[0]) >= key(x) {
      var tail := sorted[1..];
      assert forall i :: 0 <= i < |tail| ==> key(tail[i]) <= key(sorted[0]) by {
        forall i | 0 <= i < |tail|
          ensures key(tail[i]) <= key(sorted[0])
        {
          assert tail[i] == sorted[i + 1];
        }
      }
      InsertSorted(x, tail, key);
      InsertBounded(x, tail, key, key(sorted[0]));
      var r := Insert(x, tail, key);
      var whole := [sorted[0]] + r;
      forall i, j | 0 <= i < j < |whole|
        ensures key(whole[i]) >= key(whole[j])
      {
        assert whole[j] == r[j - 1];
        if i > 0 {
          assert whole[i] == r[i - 1];
        }
      }
    }
  }

  /** The sort is a permutation into non-increasing key order. */
  lemma {:induction false} SortDescFacts<T>(xs: seq<T>, key: T -> nat)
    ensures multiset(SortDesc(xs, key)) == multiset(xs)
    ensures SortedDesc(SortDesc(xs, key), key)
  {
    if xs != [] {
      var init := xs[..|xs| - 1];
      SortDescFacts(init, key);
      InsertPermutes(xs[|xs| - 1], SortDesc(init, key), key);
      InsertSorted(xs[|xs| - 1], SortDesc(init, key), key);
      assert xs == init + [xs[|xs| - 1]];
    }
  }

  /** The key the comparator of step 4 compares: the count of the item's word. */
  function CountKey(freq: map<string, nat>): WordCloudItem -> nat
  {
    (x: WordCloudItem) => CountOr0(freq, x.word)
  }

  /** The items are in non-increasing order of count. */
  predicate SortedByCount(items: seq<WordCloudItem>, freq: map<string, nat>)
  {
    forall i, j :: 0 <= i < j < |items| ==> CountOr0(freq, items[i].word) >= CountOr0(freq, items[j].word)
  }

  /** Step 4: `items.sort` by descending count; `List.sort` is stable. */
  function SortByCount(items: seq<WordCloudItem>, freq: map<string, nat>): (r: seq<WordCloudItem>)
    ensures multiset(r) == multiset(items)
    ensures SortedByCount(r, freq)
  {
    SortDescFacts(items, CountKey(freq));
    var r := SortDesc(items, CountKey(freq));
    assert forall i, j :: 0 <= i < j < |r| ==> CountKey(freq)(r[i]) >= CountKey(freq)(r[j]);
    r
  }

  /** A permutation has the same words and keeps every property of its items. */
  lemma PermutationWords(a: seq<WordCloudItem>, b: seq<WordCloudItem>, w: string)
    requires multiset(a) == multiset(b)
    ensures |a| == |b|
    ensures (exists i :: 0 <= i < |a| && a[i].word == w) <==> (exists j :: 0 <= j < |b| && b[j].word == w)
  {
    assert |a| == |multiset(a)| == |multiset(b)| == |b|;
    if i :| 0 <= i < |a| && a[i].word == w {
      assert a[i] in multiset(b);
      var j :| 0 <= j < |b| && b[j] == a[i];
    }
    if j :| 0 <= j < |b| && b[j].word == w {
      assert b[j] in multiset(a);
      var i :| 0 <= i < |a| && a[i] == b[j];
    }
  }

  /** Every counted word occurs at least once. */
  lemma PositiveCounts(words: seq<string>, w: string)
    requires w in Freq(words)
    ensures Freq(words)[w] >= 1
  {
    FreqCounts(words, w);
  }

  /**
   * `computeItems`: exactly one item per distinct word, sorted by count,
   * largest first, each with height `count / maxFreq` (squared).
   */
  method ComputeItems(words: seq<string>) returns (items: seq<WordCloudItem>)
    ensures |items| == |Freq(words).Keys|
    ensures forall w :: w in words <==> exists i :: 0 <= i < |items| && items[i].word == w
    ensures SortedByCount(items, Freq(words))
    ensures exists m :: m > 0 && IsMaxFreq(Freq(words), m) && forall i :: 0 <= i < |items| ==>
      items[i].word in Freq(words) && items[i].heightSquared == Freq(words)[items[i].word] as real / m as real
  {
    var freq := CountWords(words);
    var maxFreq := MaxFrequency(freq);
    if freq != map[] {
      var w :| w in freq && freq[w] == maxFreq;
      PositiveCounts(words, w);
    }
    var unsorted := MakeItems(freq, maxFreq);
    items := SortByCount(unsorted, freq);
    forall w
      ensures w in words <==> exists i :: 0 <= i < |items| && items[i].word == w
    {
      FreqCounts(words, w);
      PermutationWords(unsorted, items, w);
    }
    forall i | 0 <= i < |items|
      ensures items[i].word in freq && items[i].heightSquared == freq[items[i].word] as real / maxFreq as real
    {
      assert items[i] in multiset(unsorted);
    }
  }

  /** For counts `1 <= a <= b`, the ratio lies in (0, 1] and is 1 exactly when `a == b`. */
  lemma RatioBounds(a: nat, b: nat)
    requires 1 <= a <= b
    ensures 0.0 < a as real / b as real <= 1.0
    ensures a as real / b as real == 1.0 <==> a == b
  {
    var q := a as real / b as real;
    assert q * b as real == a as real;
  }

  /**
   * Every height lies in (0, 1], and it is 1 exactly for the largest count:
   * a counted word occurs at least once, and no count exceeds `maxFreq`.
   */
  lemma HeightBounds(words: seq<string>, m: nat, w: string)
    requires IsMaxFreq(Freq(words), m) && w in Freq(words)
    ensures m >= 1
    ensures 0.0 < Freq(words)[w] as real / m as real <= 1.0
    ensures Freq(words)[w] as real / m as real == 1.0 <==> Freq(words)[w] == m
  {
    PositiveCounts(words, w);
    RatioBounds(Freq(words)[w], m);
  }
}
