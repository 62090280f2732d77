/**
  * `preset_matches`, `determine_preset` and the normalisation done by
  * `determine_preset_from_str` (src/lib.rs).
  */
module Matcher {
  import opened Wrappers
  import opened Tokenizer
  import opened Catalog
  import opened Closest

  /**
    * `preset_matches`: every observed pair is either unknown to the preset
    * or held by it with the identical value.
    */
  predicate PresetMatches(input: Settings, preset: Settings)
  {
    forall k :: k in input ==> k !in preset || preset[k] == input[k]
  }

  /** `a` holds a subset of the pairs of `b`. */
  predicate Submap(a: Settings, b: Settings)
  {
    forall k :: k in a ==> k in b && b[k] == a[k]
  }

  // ---------------------------------------------------------------------
  // The matcher

  /** With nothing observed, every preset matches. */
  lemma EmptyInputMatches(preset: Settings)
    ensures PresetMatches(map[], preset)
  {
  }

  /** Matching is antitone in the input: dropping observed pairs never turns a match into a mismatch. */
  lemma MatchesAntitone(smaller: Settings, larger: Settings, preset: Settings)
    requires Submap(smaller, larger)
    ensures PresetMatches(larger, preset) ==> PresetMatches(smaller, preset)
  {
  }

  /** Adding a pair for a new key can never turn a mismatch into a match. */
  lemma AddPairKeepsMismatch(input: Settings, key: string, value: string, preset: Settings)
    requires key !in input
    requires !PresetMatches(input, preset)
    ensures !PresetMatches(input[key := value], preset)
  {
    MatchesAntitone(input, input[key := value], preset);
  }

  /** Observed keys the preset does not know play no part. */
  lemma MatchesOnKnownKeys(input: Settings, preset: Settings)
    ensures PresetMatches(input, preset) <==> PresetMatches(Restrict(input, preset.Keys), preset)
  {
    var known := Restrict(input, preset.Keys);
    if PresetMatches(known, preset) {
      forall k | k in input && k in preset ensures preset[k] == input[k] {
        assert k in known;
      }
    }
  }

  lemma AgreementCountBound(input: Settings, preset: Settings)
    ensures AgreementCount(input, preset) <= |input.Keys * preset.Keys|
  {
    SubsetCardinality(AgreedKeys(input, preset), input.Keys * preset.Keys);
  }

  /**
    * The matcher against the ranking's count: a preset matches exactly when
    * it agrees on every observed key it knows, which is the most any preset
    * with the same keys can score.
    */
  lemma MatchesIffFullAgreement(input: Settings, preset: Settings)
    ensures AgreementCount(input, preset) <= |input.Keys * preset.Keys|
    ensures PresetMatches(input, preset) <==> AgreementCount(input, preset) == |input.Keys * preset.Keys|
  {
    var agreed, both := AgreedKeys(input, preset), input.Keys * preset.Keys;
    AgreementCountBound(input, preset);
    if agreed == both {
      forall k | k in input && k in preset ensures preset[k] == input[k] {
        assert k in both;
      }
    } else {
      var k :| k in both && k !in agreed;
      SubsetCardinality(agreed, both - {k});
      assert !(k !in preset || preset[k] == input[k]);
    }
  }

  /**
    * When some preset matches and every preset knows the same keys, the
    * first entry of `closest_matches` has the highest possible count, and
    * every entry with that count belongs to a matching preset.
    */
  lemma RankingTopMatches(presets: seq<Preset>, input: Settings, keys: set<string>, m: nat)
    requires forall i :: 0 <= i < |presets| ==> presets[i].settings.Keys == keys
    requires m < |presets| && PresetMatches(input, presets[m].settings)
    ensures |Ranking(presets, input)| == |presets|
    ensures Ranking(presets, input)[0].count == |input.Keys * keys|
    ensures forall e :: e in Ranking(presets, input) && e.count == |input.Keys * keys| ==>
      exists i :: 0 <= i < |presets| && e.name == presets[i].name && PresetMatches(input, presets[i].settings)
  {
    RankingPermutes(presets, input);
    RankingTopCount(presets, input, keys, m);
    RankingFullAreMatches(presets, input, keys);
  }

  /** The first entry of the ranking scores as high as the matching preset `m`. */
  lemma RankingTopCount(presets: seq<Preset>, input: Settings, keys: set<string>, m: nat)
    requires forall i :: 0 <= i < |presets| ==> presets[i].settings.Keys == keys
    requires m < |presets| && PresetMatches(input, presets[m].settings)
    ensures |Ranking(presets, input)| == |presets|
    ensures Ranking(presets, input)[0].count == |input.Keys * keys|
  {
    var r := Ranking(presets, input);
    RankingPermutes(presets, input);
    RankingEntries(presets, input);
    RankingDescending(presets, input);
    MatchesIffFullAgreement(input, presets[m].settings);
    var best := Candidate(presets[m].name, AgreementCount(input, presets[m].settings));
    assert best in r;
    var p :| 0 <= p < |r| && r[p] == best;
    assert r[0].count >= r[p].count;
    assert r[0] in r;
    var i0 :| 0 <= i0 < |presets| && r[0] == Candidate(presets[i0].name, AgreementCount(input, presets[i0].settings));
    AgreementCountBound(input, presets[i0].settings);
  }

  /** A ranking entry with the full count belongs to a matching preset. */
  lemma RankingFullAreMatches(presets: seq<Preset>, input: Settings, keys: set<string>)
    requires forall i :: 0 <= i < |presets| ==> presets[i].settings.Keys == keys
    ensures forall e :: e in Ranking(presets, input) && e.count == |input.Keys * keys| ==>
      exists i :: 0 <= i < |presets| && e.name == presets[i].name && PresetMatches(input, presets[i].settings)
  {
    var r := Ranking(presets, input);
    RankingEntries(presets, input);
    forall e | e in r && e.count == |input.Keys * keys|
      ensures exists i :: 0 <= i < |presets| && e.name == presets[i].name && PresetMatches(input, presets[i].settings)
    {
      var i :| 0 <= i < |presets| && e == Candidate(presets[i].name, AgreementCount(input, presets[i].settings));
      MatchesIffFullAgreement(input, presets[i].settings);
    }
  }

  // ---------------------------------------------------------------------
  // The classifier

  /** The positions of the matching presets, as `filter` visits them. */
  function MatchingIndices(presets: seq<Preset>, settings: Settings): (idx: seq<nat>)
    ensures forall k :: 0 <= k < |idx| ==> idx[k] < |presets|
    ensures forall k, l :: 0 <= k < l < |idx| ==> idx[k] < idx[l]
    ensures forall i :: 0 <= i < |presets| ==> (i in idx <==> PresetMatches(settings, presets[i].settings))
    decreases |presets|
  {
    if presets == [] then []
    else
      var last := |presets| - 1;
      MatchingIndices(presets[..last], settings)
        + (if PresetMatches(settings, presets[last].settings) then [last] else [])
  }

  /** `matching_presets`: the names of the matching presets, in table order. */
  function MatchingNames(presets: seq<Preset>, settings: Settings): seq<string>
  {
    var idx := MatchingIndices(presets, settings);
    seq(|idx|, k requires 0 <= k < |idx| => presets[idx[k]].name)
  }

  /** Why no single preset could be named. */
  datatype Failure =
    | NoMatchClosest(ranking: seq<Candidate>)  // no match, `verbose == 0`: the `closest_matches` list
    | NoMatchPartial(settings: Settings)       // no match, `verbose > 0`: the partial-match table of these settings
    | MultipleMatches(names: seq<string>)      // two or more matches, in table order

  /** `determine_preset`. */
  function DeterminePreset(presets: seq<Preset>, settings: Settings, verbose: nat): Result<string, Failure>
  {
    var names := MatchingNames(presets, settings);
    if |names| == 0 then
      if verbose > 0 then Err(NoMatchPartial(settings)) else Err(NoMatchClosest(Ranking(presets, settings)))
    else if |names| == 1 then Ok(names[0])
    else Err(MultipleMatches(names))
  }

  /** A strictly increasing index list holding exactly the matching positions. */
  lemma MatchingNone(presets: seq<Preset>, settings: Settings)
    ensures |MatchingNames(presets, settings)| == 0 <==>
      forall i :: 0 <= i < |presets| ==> !PresetMatches(settings, presets[i].settings)
  {
    var idx := MatchingIndices(presets, settings);
    if |idx| > 0 {
      assert idx[0] in idx;
    }
  }

  lemma TwoFromNames(presets: seq<Preset>, settings: Settings)
    requires |MatchingNames(presets, settings)| >= 2
    ensures exists i, j :: 0 <= i < j < |presets| && PresetMatches(settings, presets[i].settings) && PresetMatches(settings, presets[j].settings)
  {
    var idx := MatchingIndices(presets, settings);
    var i, j := idx[0], idx[1];
    assert i in idx && j in idx;
    assert PresetMatches(settings, presets[i].settings) && PresetMatches(settings, presets[j].settings);
  }

  lemma NamesFromTwo(presets: seq<Preset>, settings: Settings, i: nat, j: nat)
    requires i < j < |presets| && PresetMatches(settings, presets[i].settings) && PresetMatches(settings, presets[j].settings)
    ensures |MatchingNames(presets, settings)| >= 2
  {
    var idx := MatchingIndices(presets, settings);
    assert i in idx && j in idx;
    var a :| 0 <= a < |idx| && idx[a] == i;
    var b :| 0 <= b < |idx| && idx[b] == j;
    assert a != b;
  }

  lemma MatchingTwo(presets: seq<Preset>, settings: Settings)
    ensures |MatchingNames(presets, settings)| >= 2 <==>
      exists i, j :: 0 <= i < j < |presets| && PresetMatches(settings, presets[i].settings) && PresetMatches(settings, presets[j].settings)
  {
    if |MatchingNames(presets, settings)| >= 2 {
      TwoFromNames(presets, settings);
    }
    if exists i, j :: 0 <= i < j < |presets| && PresetMatches(settings, presets[i].settings) && PresetMatches(settings, presets[j].settings) {
      var i, j :| 0 <= i < j < |presets| && PresetMatches(settings, presets[i].settings) && PresetMatches(settings, presets[j].settings);
      NamesFromTwo(presets, settings, i, j);
    }
  }

  lemma MatchingCount(presets: seq<Preset>, settings: Settings)
    ensures |MatchingNames(presets, settings)| == 0 <==>
      forall i :: 0 <= i < |presets| ==> !PresetMatches(settings, presets[i].settings)
    ensures |MatchingNames(presets, settings)| >= 2 <==>
      exists i, j :: 0 <= i < j < |presets| && PresetMatches(settings, presets[i].settings) && PresetMatches(settings, presets[j].settings)
  {
    MatchingNone(presets, settings);
    MatchingTwo(presets, settings);
  }

  /** `Ok(name)` exactly when one preset matches, and `name` is that preset's. */
  lemma UniqueMatch(presets: seq<Preset>, settings: Settings, verbose: nat, name: string)
    ensures DeterminePreset(presets, settings, verbose) == Ok(name) <==>
      exists i :: 0 <= i < |presets| && PresetMatches(settings, presets[i].settings) && presets[i].name == name &&
        forall j :: 0 <= j < |presets| && PresetMatches(settings, presets[j].settings) ==> j == i
  {
    var idx := MatchingIndices(presets, settings);
    MatchingCount(presets, settings);
    if DeterminePreset(presets, settings, verbose) == Ok(name) {
      var i := idx[0];
      assert i in idx;
      forall j | 0 <= j < |presets| && PresetMatches(settings, presets[j].settings) ensures j == i {
        assert j in idx;
      }
    }
    if exists i :: 0 <= i < |presets| && PresetMatches(settings, presets[i].settings) && presets[i].name == name &&
        forall j :: 0 <= j < |presets| && PresetMatches(settings, presets[j].settings) ==> j == i {
      var i :| 0 <= i < |presets| && PresetMatches(settings, presets[i].settings) && presets[i].name == name &&
        forall j :: 0 <= j < |presets| && PresetMatches(settings, presets[j].settings) ==> j == i;
      assert i in idx;
      assert idx[0] in idx;
      assert idx[0] == i;
    }
  }

  /** No match: the closest-match list when quiet, the partial-match table when verbose. */
  lemma NoMatch(presets: seq<Preset>, settings: Settings, verbose: nat)
    ensures (forall i :: 0 <= i < |presets| ==> !PresetMatches(settings, presets[i].settings)) <==>
      DeterminePreset(presets, settings, verbose) ==
        if verbose > 0 then Err(NoMatchPartial(settings)) else Err(NoMatchClosest(Ranking(presets, settings)))
  {
    MatchingCount(presets, settings);
  }

  /** Two or more matches: an error naming every matching preset, in table order. */
  lemma AmbiguousMatch(presets: seq<Preset>, settings: Settings, verbose: nat)
    ensures (exists i, j :: 0 <= i < j < |presets| && PresetMatches(settings, presets[i].settings) && PresetMatches(settings, presets[j].settings)) <==>
      DeterminePreset(presets, settings, verbose) == Err(MultipleMatches(MatchingNames(presets, settings)))
  {
    MatchingCount(presets, settings);
  }

  /** The names in a `MultipleMatches` error are those of the matching presets, in table order. */
  lemma AmbiguousNames(presets: seq<Preset>, settings: Settings, verbose: nat, names: seq<string>)
    requires DeterminePreset(presets, settings, verbose) == Err(MultipleMatches(names))
    ensures |names| >= 2
    ensures exists idx: seq<nat> ::
      && |idx| == |names|
      && (forall k :: 0 <= k < |idx| ==> idx[k] < |presets| && names[k] == presets[idx[k]].name)
      && (forall k, l :: 0 <= k < l < |idx| ==> idx[k] < idx[l])
      && (forall i :: 0 <= i < |presets| ==> (i in idx <==> PresetMatches(settings, presets[i].settings)))
  {
    var idx := MatchingIndices(presets, settings);
    assert |idx| == |names|;
  }

  /** With nothing observed, every preset matches, so a table of two or more is ambiguous in full. */
  lemma EmptyInputAmbiguous(presets: seq<Preset>, verbose: nat)
    requires |presets| >= 2
    ensures DeterminePreset(presets, map[], verbose) == Err(MultipleMatches(Names(presets)))
  {
    var idx := MatchingIndices(presets, map[]);
    forall i | 0 <= i < |presets| ensures i in idx {
      EmptyInputMatches(presets[i].settings);
    }
    IndicesAreAll(idx, |presets|);
    var names := MatchingNames(presets, map[]);
    assert |names| == |Names(presets)|;
    forall k | 0 <= k < |names| ensures names[k] == Names(presets)[k] {
      assert idx[k] == k;
    }
    assert names == Names(presets);
  }

  /** A strictly increasing list of indices below `n` that holds all of them is `0, 1, ..., n - 1`. */
  lemma {:induction false} IndicesAreAll(idx: seq<nat>, n: nat)
    requires forall k :: 0 <= k < |idx| ==> idx[k] < n
    requires forall k, l :: 0 <= k < l < |idx| ==> idx[k] < idx[l]
    requires forall i :: 0 <= i < n ==> i in idx
    ensures forall k :: 0 <= k < |idx| ==> idx[k] == k
    ensures |idx| == n
    decreases n
  {
    if n > 0 {
      var last := n - 1;
      assert last in idx;
      var top := |idx| - 1;
      assert idx[top] == last by {
        var p :| 0 <= p < |idx| && idx[p] == last;
        assert idx[p] <= idx[top];
      }
      var init := idx[..top];
      forall k | 0 <= k < |init| ensures init[k] < last {
        assert idx[k] < idx[top];
      }
      forall i | 0 <= i < last ensures i in init {
        assert i in idx;
        var q :| 0 <= q < |idx| && idx[q] == i;
        assert q != top;
        assert init[q] == i;
      }
      IndicesAreAll(init, last);
      assert idx == init + [last];
      forall k | 0 <= k < n ensures idx[k] == k {
        if k < last {
          assert idx[k] == init[k];
        }
      }
    } else {
      FirstIndexBelow(idx, n);
    }
  }

  lemma FirstIndexBelow(idx: seq<nat>, n: nat)
    requires forall k :: 0 <= k < |idx| ==> idx[k] < n
    ensures |idx| > 0 ==> idx[0] < n
  {
  }

  // ---------------------------------------------------------------------
  // Normalisation and the string entry point

  /**
    * What `determine_preset_from_str` does to the parsed map: `me` is
    * dropped, and `lookahead-slices` reading `0` is read as `1`.
    */
  function Normalized(settings: Settings): (r: Settings)
    ensures "me" !in r
    ensures r.Keys == settings.Keys - {"me"}
    ensures forall k :: k in r ==>
      r[k] == if k == "lookahead-slices" && settings[k] == "0" then "1" else settings[k]
  {
    var m := settings - {"me"};
    if "lookahead-slices" in m && m["lookahead-slices"] == "0" then m["lookahead-slices" := "1"] else m
  }

  /** Normalising twice is normalising once. */
  lemma NormalizedIdempotent(settings: Settings)
    ensures Normalized(Normalized(settings)) == Normalized(settings)
  {
    var n := Normalized(settings);
    assert Normalized(n).Keys == n.Keys;
  }

  /**
    * `determine_preset_from_str`: parse, remove `me` from the map, rewrite
    * `lookahead-slices` in place, then classify.
    */
  method DeterminePresetFromStr(presets: seq<Preset>, input: string, verbose: nat) returns (r: Result<string, Failure>)
    ensures r == DeterminePreset(presets, Normalized(ParseString(input)), verbose)
  {
    var encoderSettings := ParseString(input);
    encoderSettings := encoderSettings - {"me"};
    if "lookahead-slices" in encoderSettings && encoderSettings["lookahead-slices"] == "0" {
      encoderSettings := encoderSettings["lookahead-slices" := "1"];
    }
    r := DeterminePreset(presets, encoderSettings, verbose);
  }
}
