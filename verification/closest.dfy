/**
  * `closest_matches` (src/lib.rs): count, for every preset, the observed
  * pairs it holds exactly; stable-sort the (name, count) list by count in
  * ascending order in place; then reverse it in place. The outcome is
  * descending by count with tied presets in reverse table order.
  */
module Closest {
  import opened Catalog

  /** One `(String, usize)` entry of the ranking. */
  datatype Candidate = Candidate(name: string, count: nat)

  lemma SubsetCardinality<T>(a: set<T>, b: set<T>)
    requires a <= b
    ensures |a| <= |b|
  {
    assert b == a + (b - a);
  }

  /** Observed keys on which the preset holds exactly the observed value. */
  function AgreedKeys(settings: Settings, preset: Settings): set<string>
  {
    set k | k in settings && k in preset && preset[k] == settings[k]
  }

  /**
    * The per-preset count of `closest_matches`: observed pairs the preset
    * holds with the identical value. A key the preset lacks earns nothing.
    */
  function AgreementCount(settings: Settings, preset: Settings): (n: nat)
    ensures n <= |settings|
  {
    var agreed := AgreedKeys(settings, preset);
    SubsetCardinality(agreed, settings.Keys);
    |agreed|
  }

  /** The count reaches the number of observed keys exactly when the preset holds every observed pair. */
  lemma AgreementCountFull(settings: Settings, preset: Settings)
    ensures AgreementCount(settings, preset) == |settings| <==>
      forall k :: k in settings ==> k in preset && preset[k] == settings[k]
  {
    var agreed := AgreedKeys(settings, preset);
    if agreed != settings.Keys {
      var k :| k in settings.Keys && k !in agreed;
      SubsetCardinality(agreed, settings.Keys - {k});
    }
  }

  /** The vector built before sorting: one candidate per preset, in table order. */
  function Counts(presets: seq<Preset>, settings: Settings): seq<Candidate>
  {
    seq(|presets|, i requires 0 <= i < |presets| =>
      Candidate(presets[i].name, AgreementCount(settings, presets[i].settings)))
  }

  predicate Ascending(s: seq<Candidate>)
  {
    forall i, j :: 0 <= i < j < |s| ==> s[i].count <= s[j].count
  }

  predicate Descending(s: seq<Candidate>)
  {
    forall i, j :: 0 <= i < j < |s| ==> s[i].count >= s[j].count
  }

  /** The candidates with the given count, in the order they occur. */
  function Tied(s: seq<Candidate>, count: nat): seq<Candidate>
  {
    if s == [] then []
    else Tied(s[..|s| - 1], count) + (if s[|s| - 1].count == count then [s[|s| - 1]] else [])
  }

  /** Insert `x` after every element whose count is not above its own (the step of a stable insertion sort). */
  function InsertByCount(x: Candidate, s: seq<Candidate>): seq<Candidate>
  {
    if s == [] || s[|s| - 1].count <= x.count then s + [x]
    else InsertByCount(x, s[..|s| - 1]) + [s[|s| - 1]]
  }

  /** `sort_by_key` on the count: a stable sort in ascending order. */
  function SortByCount(s: seq<Candidate>): seq<Candidate>
  {
    if s == [] then [] else InsertByCount(s[|s| - 1], SortByCount(s[..|s| - 1]))
  }

  /** `Vec::reverse`. */
  function Reversed(s: seq<Candidate>): seq<Candidate>
  {
    if s == [] then [] else [s[|s| - 1]] + Reversed(s[..|s| - 1])
  }

  /** What `closest_matches` returns. */
  function Ranking(presets: seq<Preset>, settings: Settings): seq<Candidate>
  {
    Reversed(SortByCount(Counts(presets, settings)))
  }

  // ---------------------------------------------------------------------
  // Sorting, reversing and ties

  lemma {:induction false} TiedAppend(a: seq<Candidate>, b: seq<Candidate>, count: nat)
    ensures Tied(a + b, count) == Tied(a, count) + Tied(b, count)
    decreases |b|
  {
    if b == [] {
      assert a + b == a;
    } else {
      var b' := b[..|b| - 1];
      assert (a + b)[..|a + b| - 1] == a + b';
      TiedAppend(a, b', count);
    }
  }

  lemma {:induction false} InsertByCountContents(x: Candidate, s: seq<Candidate>)
    ensures |InsertByCount(x, s)| == |s| + 1
    ensures multiset(InsertByCount(x, s)) == multiset(s) + multiset{x}
    decreases |s|
  {
    if s != [] && s[|s| - 1].count > x.count {
      var init := s[..|s| - 1];
      InsertByCountContents(x, init);
      assert s == init + [s[|s| - 1]];
    }
  }

  lemma AscendingSnoc(r: seq<Candidate>, y: Candidate)
    requires Ascending(r)
    requires forall i :: 0 <= i < |r| ==> r[i].count <= y.count
    ensures Ascending(r + [y])
  {
  }

  lemma InsertedBelow(x: Candidate, s: seq<Candidate>, bound: nat)
    requires x.count <= bound
    requires forall i :: 0 <= i < |s| ==> s[i].count <= bound
    ensures forall i :: 0 <= i < |InsertByCount(x, s)| ==> InsertByCount(x, s)[i].count <= bound
  {
    var r := InsertByCount(x, s);
    InsertByCountContents(x, s);
    forall i | 0 <= i < |r| ensures r[i].count <= bound {
      assert r[i] in multiset(r);
      if r[i] != x {
        assert r[i] in multiset(s);
        var k :| 0 <= k < |s| && s[k] == r[i];
      }
    }
  }

  /** Inserting keeps an ascending sequence ascending. */
  lemma {:induction false} InsertByCountAscending(x: Candidate, s: seq<Candidate>)
    requires Ascending(s)
    ensures Ascending(InsertByCount(x, s))
    decreases |s|
  {
    if s == [] || s[|s| - 1].count <= x.count {
      AscendingSnoc(s, x);
    } else {
      var init, last := s[..|s| - 1], s[|s| - 1];
      assert Ascending(init);
      InsertByCountAscending(x, init);
      InsertedBelow(x, init, last.count);
      AscendingSnoc(InsertByCount(x, init), last);
    }
  }

  lemma TiedSingle(x: Candidate, count: nat)
    ensures Tied([x], count) == if x.count == count then [x] else []
  {
    assert [x][..0] == [];
  }

  /** Stability of one insertion: among equal counts, `x` comes after the elements already there. */
  lemma {:induction false} InsertByCountTied(x: Candidate, s: seq<Candidate>, count: nat)
    ensures Tied(InsertByCount(x, s), count) == Tied(s, count) + (if x.count == count then [x] else [])
    decreases |s|
  {
    if s == [] || s[|s| - 1].count <= x.count {
      assert (s + [x])[..|s|] == s;
    } else {
      var init, last := s[..|s| - 1], s[|s| - 1];
      var r := InsertByCount(x, init);
      assert InsertByCount(x, s) == r + [last];
      assert (r + [last])[..|r|] == r;
      InsertByCountTied(x, init, count);
      if x.count == count {
        assert last.count != count;
      }
    }
  }

  /** `SortByCount` is ascending, a permutation, and stable: each run of equal counts keeps its order. */
  lemma SortByCountSpec(s: seq<Candidate>)
    ensures Ascending(SortByCount(s))
    ensures |SortByCount(s)| == |s| && multiset(SortByCount(s)) == multiset(s)
    ensures forall count: nat :: Tied(SortByCount(s), count) == Tied(s, count)
  {
    SortByCountAscending(s);
    SortByCountPermutes(s);
    forall count: nat ensures Tied(SortByCount(s), count) == Tied(s, count) {
      SortByCountStable(s, count);
    }
  }

  lemma {:induction false} SortByCountAscending(s: seq<Candidate>)
    ensures Ascending(SortByCount(s))
    decreases |s|
  {
    if s != [] {
      var init, last := s[..|s| - 1], s[|s| - 1];
      SortByCountAscending(init);
      InsertByCountAscending(last, SortByCount(init));
    }
  }

  lemma {:induction false} SortByCountPermutes(s: seq<Candidate>)
    ensures |SortByCount(s)| == |s| && multiset(SortByCount(s)) == multiset(s)
    decreases |s|
  {
    if s != [] {
      var init, last := s[..|s| - 1], s[|s| - 1];
      SortByCountPermutes(init);
      var r := SortByCount(init);
      assert SortByCount(s) == InsertByCount(last, r);
      InsertByCountContents(last, r);
      assert s == init + [last];
      assert multiset(s) == multiset(init) + multiset{last};
    }
  }

  /** Each run of equal counts keeps its order through the sort. */
  lemma {:induction false} SortByCountStable(s: seq<Candidate>, count: nat)
    ensures Tied(SortByCount(s), count) == Tied(s, count)
    decreases |s|
  {
    if s != [] {
      var init, last := s[..|s| - 1], s[|s| - 1];
      SortByCountStable(init, count);
      InsertByCountTied(last, SortByCount(init), count);
    }
  }

  lemma {:induction false} ReversedSpec(s: seq<Candidate>)
    ensures |Reversed(s)| == |s|
    ensures forall k :: 0 <= k < |s| ==> Reversed(s)[k] == s[|s| - 1 - k]
    ensures multiset(Reversed(s)) == multiset(s)
    decreases |s|
  {
    if s != [] {
      var init, last := s[..|s| - 1], s[|s| - 1];
      ReversedSpec(init);
      var r := Reversed(s);
      assert r == [last] + Reversed(init);
      forall k | 0 <= k < |s| ensures r[k] == s[|s| - 1 - k] {
        if k > 0 {
          assert r[k] == Reversed(init)[k - 1] == init[|init| - 1 - (k - 1)];
        }
      }
      assert s == init + [last];
      assert multiset(r) == multiset{last} + multiset(Reversed(init));
    }
  }

  /** Reversing reverses each run of equal counts. */
  lemma {:induction false} ReversedTied(s: seq<Candidate>, count: nat)
    ensures Tied(Reversed(s), count) == Reversed(Tied(s, count))
    decreases |s|
  {
    if s != [] {
      var init, last := s[..|s| - 1], s[|s| - 1];
      ReversedTied(init, count);
      TiedAppend([last], Reversed(init), count);
      assert Tied([last], count) == Tied([], count) + (if last.count == count then [last] else []);
      var t := Tied(init, count) + (if last.count == count then [last] else []);
      if last.count == count {
        assert t[..|t| - 1] == Tied(init, count);
      } else {
        assert t == Tied(init, count);
      }
    }
  }

  lemma ReversedDescending(s: seq<Candidate>)
    requires Ascending(s)
    ensures Descending(Reversed(s))
  {
    ReversedSpec(s);
  }

  // ---------------------------------------------------------------------
  // What `closest_matches` promises

  /** The ranking is ordered by count, highest first. */
  lemma RankingDescending(presets: seq<Preset>, settings: Settings)
    ensures Descending(Ranking(presets, settings))
  {
    SortByCountSpec(Counts(presets, settings));
    ReversedDescending(SortByCount(Counts(presets, settings)));
  }

  /** One entry per preset: the ranking is a permutation of the per-preset counts in table order. */
  lemma RankingPermutes(presets: seq<Preset>, settings: Settings)
    ensures |Ranking(presets, settings)| == |presets|
    ensures multiset(Ranking(presets, settings)) == multiset(Counts(presets, settings))
  {
    SortByCountSpec(Counts(presets, settings));
    ReversedSpec(SortByCount(Counts(presets, settings)));
  }

  /**
    * Every entry names a preset and carries that preset's exact-agreement
    * count, which is at most the number of observed keys.
    */
  lemma RankingEntries(presets: seq<Preset>, settings: Settings)
    ensures forall e :: e in Ranking(presets, settings) <==>
      exists i :: 0 <= i < |presets| && e == Candidate(presets[i].name, AgreementCount(settings, presets[i].settings))
    ensures forall e :: e in Ranking(presets, settings) ==> e.count <= |settings|
  {
    RankingPermutes(presets, settings);
    var r, cs := Ranking(presets, settings), Counts(presets, settings);
    forall e
      ensures e in r <==> exists i :: 0 <= i < |presets| && e == Candidate(presets[i].name, AgreementCount(settings, presets[i].settings))
    {
      assert e in r <==> e in multiset(r);
      assert e in cs <==> e in multiset(cs);
      if e in cs {
        var i :| 0 <= i < |cs| && cs[i] == e;
        assert e == Candidate(presets[i].name, AgreementCount(settings, presets[i].settings));
      }
      if exists i :: 0 <= i < |presets| && e == Candidate(presets[i].name, AgreementCount(settings, presets[i].settings)) {
        var i :| 0 <= i < |presets| && e == Candidate(presets[i].name, AgreementCount(settings, presets[i].settings));
        assert cs[i] == e;
      }
    }
  }

  /**
    * The tie order: the presets that share a count appear in the ranking in
    * the reverse of their table order (a stable ascending sort followed by a
    * full reverse, not a stable descending sort).
    */
  lemma RankingTies(presets: seq<Preset>, settings: Settings, count: nat)
    ensures Tied(Ranking(presets, settings), count) == Reversed(Tied(Counts(presets, settings), count))
  {
    var cs := Counts(presets, settings);
    SortByCountSpec(cs);
    ReversedTied(SortByCount(cs), count);
  }

  // ---------------------------------------------------------------------
  // The in-place implementation

  /**
    * The state of the inner loop that inserts `x` (first found at index `i`)
    * into the sorted prefix `sorted`: `x` sits at `j`, the elements before it
    * are untouched, the ones between `j` and `i` have moved up by one.
    */
  ghost predicate Sinking(a: seq<Candidate>, sorted: seq<Candidate>, after: seq<Candidate>, x: Candidate, i: nat, j: nat)
  {
    && |sorted| == i && i < |a| && j <= i
    && a[j] == x
    && a[..j] == sorted[..j]
    && a[j + 1..i + 1] == sorted[j..]
    && a[i + 1..] == after
    && InsertByCount(x, sorted) == InsertByCount(x, sorted[..j]) + sorted[j..]
  }

  /** One inner-loop step: swapping `x` with a larger element below it. */
  lemma SinkStep(a: seq<Candidate>, sorted: seq<Candidate>, after: seq<Candidate>, x: Candidate, i: nat, j: nat)
    requires Sinking(a, sorted, after, x, i, j)
    requires 0 < j && a[j - 1].count > x.count
    ensures Sinking(a[j - 1 := a[j]][j := a[j - 1]], sorted, after, x, i, j - 1)
  {
    var b := a[j - 1 := a[j]][j := a[j - 1]];
    assert sorted[..j][..j - 1] == sorted[..j - 1];
    assert sorted[j - 1..] == [sorted[j - 1]] + sorted[j..];
    assert b[..j - 1] == a[..j - 1];
    assert b[j..i + 1] == [a[j - 1]] + a[j + 1..i + 1];
    assert b[i + 1..] == a[i + 1..];
  }

  /** Where the inner loop stops, the prefix holds `x` inserted into `sorted`. */
  lemma SinkDone(a: seq<Candidate>, sorted: seq<Candidate>, after: seq<Candidate>, x: Candidate, i: nat, j: nat)
    requires Sinking(a, sorted, after, x, i, j)
    requires j == 0 || a[j - 1].count <= x.count
    ensures a[..i + 1] == InsertByCount(x, sorted) && a[i + 1..] == after
  {
    assert InsertByCount(x, sorted[..j]) == sorted[..j] + [x];
    assert a[..i + 1] == a[..j] + [x] + a[j + 1..i + 1];
  }

  /** Insertion of `a[i]` into the sorted prefix `a[..i]` by adjacent swaps. */
  method InsertInPlace(a: array<Candidate>, i: nat)
    requires i < a.Length
    modifies a
    ensures a[..i + 1] == InsertByCount(old(a[i]), old(a[..i]))
    ensures a[i + 1..] == old(a[i + 1..])
  {
    ghost var sorted := a[..i];
    ghost var after := a[i + 1..];
    var x := a[i];
    var j := i;
    assert a[..] == a[..i] + [x] + a[i + 1..];
    while j > 0 && a[j - 1].count > x.count
      invariant Sinking(a[..], sorted, after, x, i, j)
    {
      SinkStep(a[..], sorted, after, x, i, j);
      a[j - 1], a[j] := a[j], a[j - 1];
      j := j - 1;
    }
    SinkDone(a[..], sorted, after, x, i, j);
  }

  lemma SortByCountStep(s: seq<Candidate>, i: nat)
    requires i < |s|
    ensures SortByCount(s[..i + 1]) == InsertByCount(s[i], SortByCount(s[..i]))
  {
    assert s[..i + 1][..i] == s[..i];
  }

  /** `sort_by_key(|(_, count)| count)`, as a stable insertion sort. */
  method SortByCountInPlace(a: array<Candidate>)
    modifies a
    ensures a[..] == SortByCount(old(a[..]))
  {
    ghost var original := a[..];
    var i := 0;
    while i < a.Length
      invariant 0 <= i <= a.Length
      invariant a[..i] == SortByCount(original[..i])
      invariant a[i..] == original[i..]
    {
      assert a[i] == a[i..][0] && original[i] == original[i..][0];
      assert a[i + 1..] == a[i..][1..] && original[i + 1..] == original[i..][1..];
      InsertInPlace(a, i);
      SortByCountStep(original, i);
      i := i + 1;
    }
    assert a[..] == a[..a.Length] && original == original[..a.Length];
  }

  /** `Vec::reverse`. */
  method ReverseInPlace(a: array<Candidate>)
    modifies a
    ensures a[..] == Reversed(old(a[..]))
  {
    ghost var original := a[..];
    var n := a.Length;
    var i := 0;
    while i < n / 2
      invariant 0 <= i <= n / 2
      invariant forall k {:trigger a[k]} :: 0 <= k < n && (k < i || k >= n - i) ==> a[k] == original[n - 1 - k]
      invariant forall k {:trigger a[k]} :: i <= k < n - i ==> a[k] == original[k]
    {
      a[i], a[n - 1 - i] := a[n - 1 - i], a[i];
      i := i + 1;
    }
    forall k | 0 <= k < n
      ensures a[..][k] == original[n - 1 - k]
    {
      if i <= k < n - i {
        assert k == n - 1 - k;
      }
    }
    ReversedByIndex(original, a[..]);
  }

  lemma ReversedByIndex(s: seq<Candidate>, r: seq<Candidate>)
    requires |r| == |s|
    requires forall k :: 0 <= k < |s| ==> r[k] == s[|s| - 1 - k]
    ensures r == Reversed(s)
  {
    ReversedSpec(s);
  }

  /** `closest_matches`: count per preset, sort ascending in place, then reverse in place. */
  method ClosestMatches(presets: seq<Preset>, settings: Settings) returns (ranking: seq<Candidate>)
    ensures ranking == Ranking(presets, settings)
  {
    var counts := Counts(presets, settings);
    var matches := new Candidate[|counts|](i requires 0 <= i < |counts| => counts[i]);
    assert matches[..] == counts;
    SortByCountInPlace(matches);
    ReverseInPlace(matches);
    ranking := matches[..];
  }
}
