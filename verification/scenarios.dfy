/**
  * The assertions of `test_encoding_params` (src/lib.rs) that name a preset
  * table outcome, carried through the model: tokenizing the test's input,
  * normalising it, and classifying it against the ten-preset table.
  */
module Scenarios {
  import opened Wrappers
  import opened Tokenizer
  import opened Catalog
  import opened Closest
  import opened Matcher

  // ---------------------------------------------------------------------
  // The three parameters the test inputs set, per preset

  /** A preset's `ctu`, `min-cu-size` and `bframes` values. */
  predicate Core(preset: Settings, ctu: string, minCuSize: string, bframes: string)
  {
    && "ctu" in preset && preset["ctu"] == ctu
    && "min-cu-size" in preset && preset["min-cu-size"] == minCuSize
    && "bframes" in preset && preset["bframes"] == bframes
  }

  // One `*At` and one `*Core` lemma per preset, and below one `*Row` lemma
  // per row: each proof unfolds a single preset's 31-entry map display, which
  // keeps every proof obligation small. `PresetCore` gathers them by index.

  lemma UltrafastAt()
    ensures Presets()[0] == Preset("ultrafast", Ultrafast())
  {
  }

  lemma UltrafastCore()
    ensures Core(Ultrafast(), "32", "16", "3")
  {
  }

  lemma SuperfastAt()
    ensures Presets()[1] == Preset("superfast", Superfast())
  {
  }

  lemma SuperfastCore()
    ensures Core(Superfast(), "32", "8", "3")
  {
  }

  lemma VeryfastAt()
    ensures Presets()[2] == Preset("veryfast", Veryfast())
  {
  }

  lemma VeryfastCore()
    ensures Core(Veryfast(), "64", "8", "4")
  {
  }

  lemma FasterAt()
    ensures Presets()[3] == Preset("faster", Faster())
  {
  }

  lemma FasterCore()
    ensures Core(Faster(), "64", "8", "4")
  {
  }

  lemma FastAt()
    ensures Presets()[4] == Preset("fast", Fast())
  {
  }

  lemma FastCore()
    ensures Core(Fast(), "64", "8", "4")
  {
  }

  lemma MediumAt()
    ensures Presets()[5] == Preset("medium", Medium())
  {
  }

  lemma MediumCore()
    ensures Core(Medium(), "64", "8", "4")
  {
  }

  lemma SlowAt()
    ensures Presets()[6] == Preset("slow", Slow())
  {
  }

  lemma SlowCore()
    ensures Core(Slow(), "64", "8", "4")
  {
  }

  lemma SlowerAt()
    ensures Presets()[7] == Preset("slower", Slower())
  {
  }

  lemma SlowerCore()
    ensures Core(Slower(), "64", "8", "8")
  {
  }

  lemma VeryslowAt()
    ensures Presets()[8] == Preset("veryslow", Veryslow())
  {
  }

  lemma VeryslowCore()
    ensures Core(Veryslow(), "64", "8", "8")
  {
  }

  lemma PlaceboAt()
    ensures Presets()[9] == Preset("placebo", Placebo())
  {
  }

  lemma PlaceboCore()
    ensures Core(Placebo(), "64", "8", "8")
  {
  }

  // ---------------------------------------------------------------------
  // Tokenizing the test inputs

  /** `ctu=32` as pairs. */
  function CtuPairs(): seq<(string, string)>
  {
    [("ctu", "32")]
  }

  /** `ctu=32 min-cu-size=8` as pairs. */
  function SuperfastPairs(): seq<(string, string)>
  {
    [("ctu", "32"), ("min-cu-size", "8")]
  }

  /** `ctu=32 min-cu-size=8 bframes=8` as pairs. */
  function NoMatchPairs(): seq<(string, string)>
  {
    [("ctu", "32"), ("min-cu-size", "8"), ("bframes", "8")]
  }

  lemma JoinTwo(a: string, b: string)
    ensures JoinWords([a, b]) == a + " " + b
  {
    assert [a, b][1..] == [b];
  }

  lemma JoinThree(a: string, b: string, c: string)
    ensures JoinWords([a, b, c]) == a + " " + b + " " + c
  {
    assert [a, b, c][1..] == [b, c];
    JoinTwo(b, c);
  }

  lemma CtuTokens()
    ensures (forall i :: 0 <= i < |CtuPairs()| ==> PlainPair(CtuPairs()[i]))
    ensures JoinWords(PairTokens(CtuPairs())) == "ctu=32"
    ensures PairsToMap(CtuPairs()) == CtuInput()
  {
    var pairs := CtuPairs();
    assert PlainPair(pairs[0]);
    assert PairTokens(pairs)[0] == "ctu=32";
    assert pairs[..0] == [];
  }

  lemma SuperfastPlain()
    ensures forall i :: 0 <= i < |SuperfastPairs()| ==> PlainPair(SuperfastPairs()[i])
  {
    var pairs := SuperfastPairs();
    assert PlainPair(pairs[0]) && PlainPair(pairs[1]);
  }

  lemma SuperfastTokens()
    ensures PairTokens(SuperfastPairs()) == ["ctu=32", "min-cu-size=8"]
  {
    var ts := PairTokens(SuperfastPairs());
    assert ts[0] == "ctu=32" && ts[1] == "min-cu-size=8";
  }

  lemma SuperfastText()
    ensures JoinWords(["ctu=32", "min-cu-size=8"]) == "ctu=32 min-cu-size=8"
  {
    JoinTwo("ctu=32", "min-cu-size=8");
  }

  lemma SuperfastJoined()
    ensures JoinWords(PairTokens(SuperfastPairs())) == "ctu=32 min-cu-size=8"
  {
    SuperfastTokens();
    SuperfastText();
  }

  lemma SuperfastMap()
    ensures PairsToMap(SuperfastPairs()) == SuperfastInput()
  {
    var pairs := SuperfastPairs();
    assert pairs[..1] == [("ctu", "32")];
    assert PairsToMap(pairs[..1]) == map["ctu" := "32"];
  }

  lemma NoMatchPlain()
    ensures forall i :: 0 <= i < |NoMatchPairs()| ==> PlainPair(NoMatchPairs()[i])
  {
    var pairs := NoMatchPairs();
    assert PlainPair(pairs[0]) && PlainPair(pairs[1]) && PlainPair(pairs[2]);
  }

  lemma NoMatchTokens()
    ensures PairTokens(NoMatchPairs()) == ["ctu=32", "min-cu-size=8", "bframes=8"]
  {
    var ts := PairTokens(NoMatchPairs());
    assert ts[0] == "ctu=32" && ts[1] == "min-cu-size=8" && ts[2] == "bframes=8";
  }

  lemma NoMatchText()
    ensures JoinWords(["ctu=32", "min-cu-size=8", "bframes=8"]) == "ctu=32 min-cu-size=8 bframes=8"
  {
    JoinThree("ctu=32", "min-cu-size=8", "bframes=8");
  }

  lemma NoMatchJoined()
    ensures JoinWords(PairTokens(NoMatchPairs())) == "ctu=32 min-cu-size=8 bframes=8"
  {
    NoMatchTokens();
    NoMatchText();
  }

  lemma NoMatchMap()
    ensures PairsToMap(NoMatchPairs()) == ClosestInput()
  {
    var pairs := NoMatchPairs();
    assert pairs[..2][..1] == [("ctu", "32")];
    assert pairs[..2] == [("ctu", "32"), ("min-cu-size", "8")];
    assert PairsToMap(pairs[..2][..1]) == map["ctu" := "32"];
  }

  /** The observed settings of `ctu=32 min-cu-size=8`. */
  function SuperfastInput(): Settings
  {
    map["ctu" := "32", "min-cu-size" := "8"]
  }

  /** The observed settings of `ctu=32`. */
  function CtuInput(): Settings
  {
    map["ctu" := "32"]
  }

  /** The observed settings of `ctu=32 min-cu-size=8 bframes=8`. */
  function ClosestInput(): Settings
  {
    map["ctu" := "32", "min-cu-size" := "8", "bframes" := "8"]
  }

  /** The test input `ctu=32` tokenizes to its one pair. */
  lemma ParseCtu(input: string)
    requires input == "ctu=32"
    ensures ParseString(input) == CtuInput()
  {
    CtuTokens();
    ParseJoinedPairs(CtuPairs());
  }

  /** The test input `ctu=32 min-cu-size=8` tokenizes to its two pairs. */
  lemma ParseSuperfast(input: string)
    requires input == "ctu=32 min-cu-size=8"
    ensures ParseString(input) == SuperfastInput()
  {
    SuperfastPlain();
    SuperfastJoined();
    SuperfastMap();
    ParseJoinedPairs(SuperfastPairs());
  }

  /** The test input `ctu=32 min-cu-size=8 bframes=8` tokenizes to its three pairs. */
  lemma ParseClosest(input: string)
    requires input == "ctu=32 min-cu-size=8 bframes=8"
    ensures ParseString(input) == ClosestInput()
  {
    NoMatchPlain();
    NoMatchJoined();
    NoMatchMap();
    ParseJoinedPairs(NoMatchPairs());
  }

  /** None of the three inputs sets `me` or `lookahead-slices`, so normalising leaves them as read. */
  lemma InputsNormal()
    ensures Normalized(CtuInput()) == CtuInput()
    ensures Normalized(SuperfastInput()) == SuperfastInput()
    ensures Normalized(ClosestInput()) == ClosestInput()
  {
    assert Normalized(CtuInput()).Keys == CtuInput().Keys;
    assert Normalized(SuperfastInput()).Keys == SuperfastInput().Keys;
    assert Normalized(ClosestInput()).Keys == ClosestInput().Keys;
  }

  // ---------------------------------------------------------------------
  // The table's core parameters, row by row

  /** A preset's name with its `ctu`, `min-cu-size` and `bframes` values. */
  datatype CoreRow = CoreRow(name: string, ctu: string, minCuSize: string, bframes: string)

  function CoreRows(): seq<CoreRow>
  {
    [ CoreRow("ultrafast", "32", "16", "3"),
      CoreRow("superfast", "32", "8", "3"),
      CoreRow("veryfast", "64", "8", "4"),
      CoreRow("faster", "64", "8", "4"),
      CoreRow("fast", "64", "8", "4"),
      CoreRow("medium", "64", "8", "4"),
      CoreRow("slow", "64", "8", "4"),
      CoreRow("slower", "64", "8", "8"),
      CoreRow("veryslow", "64", "8", "8"),
      CoreRow("placebo", "64", "8", "8") ]
  }

  /** Row 0 of the table agrees with `CoreRows()`; the nine lemmas after it do the same for rows 1 to 9. */
  lemma UltrafastRow()
    ensures |Presets()| == 10 && |CoreRows()| == 10
    ensures Presets()[0].name == CoreRows()[0].name
    ensures Core(Presets()[0].settings, CoreRows()[0].ctu, CoreRows()[0].minCuSize, CoreRows()[0].bframes)
  {
    UltrafastAt();
    UltrafastCore();
  }

  lemma SuperfastRow()
    ensures |Presets()| == 10 && |CoreRows()| == 10
    ensures Presets()[1].name == CoreRows()[1].name
    ensures Core(Presets()[1].settings, CoreRows()[1].ctu, CoreRows()[1].minCuSize, CoreRows()[1].bframes)
  {
    SuperfastAt();
    SuperfastCore();
  }

  lemma VeryfastRow()
    ensures |Presets()| == 10 && |CoreRows()| == 10
    ensures Presets()[2].name == CoreRows()[2].name
    ensures Core(Presets()[2].settings, CoreRows()[2].ctu, CoreRows()[2].minCuSize, CoreRows()[2].bframes)
  {
    VeryfastAt();
    VeryfastCore();
  }

  lemma FasterRow()
    ensures |Presets()| == 10 && |CoreRows()| == 10
    ensures Presets()[3].name == CoreRows()[3].name
    ensures Core(Presets()[3].settings, CoreRows()[3].ctu, CoreRows()[3].minCuSize, CoreRows()[3].bframes)
  {
    FasterAt();
    FasterCore();
  }

  lemma FastRow()
    ensures |Presets()| == 10 && |CoreRows()| == 10
    ensures Presets()[4].name == CoreRows()[4].name
    ensures Core(Presets()[4].settings, CoreRows()[4].ctu, CoreRows()[4].minCuSize, CoreRows()[4].bframes)
  {
    FastAt();
    FastCore();
  }

  lemma MediumRow()
    ensures |Presets()| == 10 && |CoreRows()| == 10
    ensures Presets()[5].name == CoreRows()[5].name
    ensures Core(Presets()[5].settings, CoreRows()[5].ctu, CoreRows()[5].minCuSize, CoreRows()[5].bframes)
  {
    MediumAt();
    MediumCore();
  }

  lemma SlowRow()
    ensures |Presets()| == 10 && |CoreRows()| == 10
    ensures Presets()[6].name == CoreRows()[6].name
    ensures Core(Presets()[6].settings, CoreRows()[6].ctu, CoreRows()[6].minCuSize, CoreRows()[6].bframes)
  {
    SlowAt();
    SlowCore();
  }

  lemma SlowerRow()
    ensures |Presets()| == 10 && |CoreRows()| == 10
    ensures Presets()[7].name == CoreRows()[7].name
    ensures Core(Presets()[7].settings, CoreRows()[7].ctu, CoreRows()[7].minCuSize, CoreRows()[7].bframes)
  {
    SlowerAt();
    SlowerCore();
  }

  lemma VeryslowRow()
    ensures |Presets()| == 10 && |CoreRows()| == 10
    ensures Presets()[8].name == CoreRows()[8].name
    ensures Core(Presets()[8].settings, CoreRows()[8].ctu, CoreRows()[8].minCuSize, CoreRows()[8].bframes)
  {
    VeryslowAt();
    VeryslowCore();
  }

  lemma PlaceboRow()
    ensures |Presets()| == 10 && |CoreRows()| == 10
    ensures Presets()[9].name == CoreRows()[9].name
    ensures Core(Presets()[9].settings, CoreRows()[9].ctu, CoreRows()[9].minCuSize, CoreRows()[9].bframes)
  {
    PlaceboAt();
    PlaceboCore();
  }

  /** Row `i` of the table has the name and core values of `CoreRows()[i]`. */
  lemma PresetCore(i: nat)
    requires i < 10
    ensures |Presets()| == 10 && |CoreRows()| == 10
    ensures Presets()[i].name == CoreRows()[i].name
    ensures Core(Presets()[i].settings, CoreRows()[i].ctu, CoreRows()[i].minCuSize, CoreRows()[i].bframes)
  {
    if i == 0 { UltrafastRow(); }
    else if i == 1 { SuperfastRow(); }
    else if i == 2 { VeryfastRow(); }
    else if i == 3 { FasterRow(); }
    else if i == 4 { FastRow(); }
    else if i == 5 { MediumRow(); }
    else if i == 6 { SlowRow(); }
    else if i == 7 { SlowerRow(); }
    else if i == 8 { VeryslowRow(); }
    else { PlaceboRow(); }
  }

  // ---------------------------------------------------------------------
  // Matching the observed maps against one row

  lemma MatchesCtu(preset: Settings, row: CoreRow, ctu: string)
    requires Core(preset, row.ctu, row.minCuSize, row.bframes)
    ensures PresetMatches(map["ctu" := ctu], preset) <==> row.ctu == ctu
  {
    var input := map["ctu" := ctu];
    assert "ctu" in input;
  }

  lemma MatchesTwo(preset: Settings, row: CoreRow, ctu: string, minCuSize: string)
    requires Core(preset, row.ctu, row.minCuSize, row.bframes)
    ensures PresetMatches(map["ctu" := ctu, "min-cu-size" := minCuSize], preset) <==>
      row.ctu == ctu && row.minCuSize == minCuSize
  {
    var input := map["ctu" := ctu, "min-cu-size" := minCuSize];
    assert "ctu" in input && "min-cu-size" in input;
  }

  lemma MatchesThree(preset: Settings, row: CoreRow, ctu: string, minCuSize: string, bframes: string)
    requires Core(preset, row.ctu, row.minCuSize, row.bframes)
    ensures PresetMatches(map["ctu" := ctu, "min-cu-size" := minCuSize, "bframes" := bframes], preset) <==>
      row.ctu == ctu && row.minCuSize == minCuSize && row.bframes == bframes
  {
    var input := map["ctu" := ctu, "min-cu-size" := minCuSize, "bframes" := bframes];
    assert "ctu" in input && "min-cu-size" in input && "bframes" in input;
  }

  // ---------------------------------------------------------------------
  // Generic outcomes of the matcher

  /** Exactly one row matches: `determine_preset` names it. */
  lemma Identified(presets: seq<Preset>, settings: Settings, verbose: nat, i: nat)
    requires i < |presets| && PresetMatches(settings, presets[i].settings)
    requires forall j :: 0 <= j < |presets| && PresetMatches(settings, presets[j].settings) ==> j == i
    ensures DeterminePreset(presets, settings, verbose) == Ok(presets[i].name)
  {
    UniqueMatch(presets, settings, verbose, presets[i].name);
  }

  /** A strictly increasing sequence over the values `a < b` that holds both is `[a, b]`. */
  lemma IncreasingPair(idx: seq<nat>, a: nat, b: nat)
    requires forall k, l :: 0 <= k < l < |idx| ==> idx[k] < idx[l]
    requires forall k :: 0 <= k < |idx| ==> idx[k] == a || idx[k] == b
    requires a < b && a in idx && b in idx
    ensures idx == [a, b]
  {
    assert |idx| >= 2;
    assert idx[0] == a;
    assert idx[1] == b;
    assert idx[|idx| - 1] == b;
  }

  /** Exactly rows `a < b` match: `determine_preset` names both, in table order. */
  lemma TwoMatches(presets: seq<Preset>, settings: Settings, verbose: nat, a: nat, b: nat)
    requires a < b < |presets|
    requires forall j :: 0 <= j < |presets| ==> (PresetMatches(settings, presets[j].settings) <==> j == a || j == b)
    ensures DeterminePreset(presets, settings, verbose) == Err(MultipleMatches([presets[a].name, presets[b].name]))
  {
    var idx := MatchingIndices(presets, settings);
    assert a in idx && b in idx;
    forall k | 0 <= k < |idx| ensures idx[k] == a || idx[k] == b {
      assert idx[k] in idx;
    }
    IncreasingPair(idx, a, b);
    assert idx == [a, b];
    var names := MatchingNames(presets, settings);
    assert names[0] == presets[a].name && names[1] == presets[b].name;
    assert names == [presets[a].name, presets[b].name];
    AmbiguousMatch(presets, settings, verbose);
  }

  // ---------------------------------------------------------------------
  // The three short inputs of the test, resolved against the table

  lemma SuperfastRows(j: nat)
    requires j < 10
    ensures |CoreRows()| == 10
    ensures CoreRows()[j].ctu == "32" && CoreRows()[j].minCuSize == "8" <==> j == 1
  {
  }

  lemma CtuRows(j: nat)
    requires j < 10
    ensures |CoreRows()| == 10
    ensures CoreRows()[j].ctu == "32" <==> j == 0 || j == 1
  {
  }

  lemma ClosestRows(j: nat)
    requires j < 10
    ensures |CoreRows()| == 10
    ensures !(CoreRows()[j].ctu == "32" && CoreRows()[j].minCuSize == "8" && CoreRows()[j].bframes == "8")
  {
  }

  lemma SuperfastOnly(j: nat)
    requires j < 10
    ensures |Presets()| == 10
    ensures PresetMatches(SuperfastInput(), Presets()[j].settings) <==> j == 1
  {
    PresetCore(j);
    SuperfastRows(j);
    MatchesTwo(Presets()[j].settings, CoreRows()[j], "32", "8");
  }

  lemma CtuOnly(j: nat)
    requires j < 10
    ensures |Presets()| == 10
    ensures PresetMatches(CtuInput(), Presets()[j].settings) <==> j == 0 || j == 1
  {
    PresetCore(j);
    CtuRows(j);
    MatchesCtu(Presets()[j].settings, CoreRows()[j], "32");
  }

  lemma ClosestNone(j: nat)
    requires j < 10
    ensures |Presets()| == 10
    ensures !PresetMatches(ClosestInput(), Presets()[j].settings)
  {
    PresetCore(j);
    ClosestRows(j);
    MatchesThree(Presets()[j].settings, CoreRows()[j], "32", "8", "8");
  }

  // ---------------------------------------------------------------------
  // Agreement counts for `ctu=32 min-cu-size=8 bframes=8`

  /** One observed pair's contribution to a preset's count. */
  function Hit(preset: Settings, key: string, value: string): nat
  {
    if key in preset && preset[key] == value then 1 else 0
  }

  lemma AgreementCountEmpty(preset: Settings)
    ensures AgreementCount(map[], preset) == 0
  {
    assert AgreedKeys(map[], preset) == {};
  }

  /** Observing one more key adds that key's agreement to the count. */
  lemma AgreementCountInsert(settings: Settings, key: string, value: string, preset: Settings)
    requires key !in settings
    ensures AgreementCount(settings[key := value], preset) == AgreementCount(settings, preset) + Hit(preset, key, value)
  {
    var agreed := AgreedKeys(settings, preset);
    if Hit(preset, key, value) == 1 {
      assert AgreedKeys(settings[key := value], preset) == agreed + {key};
    } else {
      assert AgreedKeys(settings[key := value], preset) == agreed;
    }
  }

  lemma ClosestAgreement(preset: Settings)
    ensures AgreementCount(ClosestInput(), preset) ==
      Hit(preset, "ctu", "32") + Hit(preset, "min-cu-size", "8") + Hit(preset, "bframes", "8")
  {
    var m0: Settings := map[];
    var m1 := m0["ctu" := "32"];
    var m2 := m1["min-cu-size" := "8"];
    AgreementCountEmpty(preset);
    AgreementCountInsert(m0, "ctu", "32", preset);
    AgreementCountInsert(m1, "min-cu-size", "8", preset);
    AgreementCountInsert(m2, "bframes", "8", preset);
    assert ClosestInput() == m2["bframes" := "8"];
  }

  /** How many of `ctu=32`, `min-cu-size=8`, `bframes=8` a row agrees with. */
  function RowAgreement(row: CoreRow): nat
  {
    (if row.ctu == "32" then 1 else 0) + (if row.minCuSize == "8" then 1 else 0) + (if row.bframes == "8" then 1 else 0)
  }

  /** The per-preset counts for the input, in table order. */
  function ClosestCounts(): seq<Candidate>
  {
    [ Candidate("ultrafast", 1), Candidate("superfast", 2), Candidate("veryfast", 1), Candidate("faster", 1),
      Candidate("fast", 1), Candidate("medium", 1), Candidate("slow", 1), Candidate("slower", 2),
      Candidate("veryslow", 2), Candidate("placebo", 2) ]
  }

  lemma ClosestCountsRows(i: nat)
    requires i < 10
    ensures |ClosestCounts()| == 10 && |CoreRows()| == 10
    ensures ClosestCounts()[i] == Candidate(CoreRows()[i].name, RowAgreement(CoreRows()[i]))
  {
  }

  lemma CountAt(i: nat)
    requires i < 10
    ensures |Counts(Presets(), ClosestInput())| == 10
    ensures Counts(Presets(), ClosestInput())[i] == ClosestCounts()[i]
  {
    PresetCore(i);
    ClosestAgreement(Presets()[i].settings);
    ClosestCountsRows(i);
  }

  /** Two ten-element sequences that agree at every position are equal. */
  lemma TenEqual(a: seq<Candidate>, b: seq<Candidate>)
    requires |a| == 10 && |b| == 10
    requires a[0] == b[0] && a[1] == b[1] && a[2] == b[2] && a[3] == b[3] && a[4] == b[4]
    requires a[5] == b[5] && a[6] == b[6] && a[7] == b[7] && a[8] == b[8] && a[9] == b[9]
    ensures a == b
  {
    forall i | 0 <= i < 10 ensures a[i] == b[i] {
    }
  }

  lemma CountsOfClosest()
    ensures Counts(Presets(), ClosestInput()) == ClosestCounts()
  {
    CountAt(0);
    CountAt(1);
    CountAt(2);
    CountAt(3);
    CountAt(4);
    CountAt(5);
    CountAt(6);
    CountAt(7);
    CountAt(8);
    CountAt(9);
    TenEqual(Counts(Presets(), ClosestInput()), ClosestCounts());
  }

  // ---------------------------------------------------------------------
  // Ranking them

  /** `Tied` read from the front. */
  lemma TiedFront(s: seq<Candidate>, count: nat)
    requires s != []
    ensures Tied(s, count) == (if s[0].count == count then [s[0]] else []) + Tied(s[1..], count)
  {
    assert s == [s[0]] + s[1..];
    TiedAppend([s[0]], s[1..], count);
    TiedSingle(s[0], count);
  }

  lemma {:induction false} TiedNone(s: seq<Candidate>, count: nat)
    requires forall k :: 0 <= k < |s| ==> s[k].count != count
    ensures Tied(s, count) == []
    decreases |s|
  {
    if s != [] {
      TiedNone(s[..|s| - 1], count);
    }
  }

  /** A descending sequence holding only the counts `hi > lo` is its `hi` entries followed by its `lo` entries. */
  lemma {:induction false} DescendingGroups(s: seq<Candidate>, hi: nat, lo: nat)
    requires Descending(s) && lo < hi
    requires forall k :: 0 <= k < |s| ==> s[k].count == hi || s[k].count == lo
    ensures s == Tied(s, hi) + Tied(s, lo)
    decreases |s|
  {
    if s != [] {
      var init, last := s[..|s| - 1], s[|s| - 1];
      assert s == init + [last];
      assert Descending(init) by {
        forall i, j | 0 <= i < j < |init| ensures init[i].count >= init[j].count {
          assert s[i].count >= s[j].count;
        }
      }
      DescendingGroups(init, hi, lo);
      if last.count == hi {
        forall k | 0 <= k < |init| ensures init[k].count != lo {
          assert s[k].count >= s[|s| - 1].count;
        }
        TiedNone(init, lo);
        assert Tied(s, hi) == Tied(init, hi) + [last];
        assert Tied(s, lo) == [];
      } else {
        assert Tied(s, hi) == Tied(init, hi);
        assert Tied(s, lo) == Tied(init, lo) + [last];
      }
    }
  }

  lemma TiedTwoTail()
    ensures Tied(ClosestCounts()[5..], 2) == [Candidate("slower", 2), Candidate("veryslow", 2), Candidate("placebo", 2)]
  {
    var c := ClosestCounts();
    TiedFront(c[5..], 2);
    TiedFront(c[6..], 2);
    TiedFront(c[7..], 2);
    TiedFront(c[8..], 2);
    TiedFront(c[9..], 2);
    assert c[10..] == [];
  }

  lemma TiedTwo()
    ensures Tied(ClosestCounts(), 2) ==
      [Candidate("superfast", 2), Candidate("slower", 2), Candidate("veryslow", 2), Candidate("placebo", 2)]
  {
    var c := ClosestCounts();
    TiedTwoTail();
    TiedFront(c[0..], 2);
    TiedFront(c[1..], 2);
    TiedFront(c[2..], 2);
    TiedFront(c[3..], 2);
    TiedFront(c[4..], 2);
    assert c[0..] == c;
  }

  lemma TiedOneTail()
    ensures Tied(ClosestCounts()[5..], 1) == [Candidate("medium", 1), Candidate("slow", 1)]
  {
    var c := ClosestCounts();
    TiedFront(c[5..], 1);
    TiedFront(c[6..], 1);
    TiedFront(c[7..], 1);
    TiedFront(c[8..], 1);
    TiedFront(c[9..], 1);
    assert c[10..] == [];
  }

  lemma TiedOne()
    ensures Tied(ClosestCounts(), 1) ==
      [Candidate("ultrafast", 1), Candidate("veryfast", 1), Candidate("faster", 1), Candidate("fast", 1),
       Candidate("medium", 1), Candidate("slow", 1)]
  {
    var c := ClosestCounts();
    TiedOneTail();
    TiedFront(c[0..], 1);
    TiedFront(c[1..], 1);
    TiedFront(c[2..], 1);
    TiedFront(c[3..], 1);
    TiedFront(c[4..], 1);
    assert c[0..] == c;
  }

  /** The list the test expects `closest_matches` to print. */
  function ClosestRanking(): seq<Candidate>
  {
    [ Candidate("placebo", 2), Candidate("veryslow", 2), Candidate("slower", 2), Candidate("superfast", 2),
      Candidate("slow", 1), Candidate("medium", 1), Candidate("fast", 1), Candidate("faster", 1),
      Candidate("veryfast", 1), Candidate("ultrafast", 1) ]
  }

  lemma ReversedTwo()
    ensures Reversed([Candidate("superfast", 2), Candidate("slower", 2), Candidate("veryslow", 2), Candidate("placebo", 2)])
      == ClosestRanking()[..4]
  {
    ReversedByIndex([Candidate("superfast", 2), Candidate("slower", 2), Candidate("veryslow", 2), Candidate("placebo", 2)],
      ClosestRanking()[..4]);
  }

  lemma ReversedOne()
    ensures Reversed([Candidate("ultrafast", 1), Candidate("veryfast", 1), Candidate("faster", 1), Candidate("fast", 1),
                      Candidate("medium", 1), Candidate("slow", 1)])
      == ClosestRanking()[4..]
  {
    ReversedByIndex([Candidate("ultrafast", 1), Candidate("veryfast", 1), Candidate("faster", 1), Candidate("fast", 1),
                     Candidate("medium", 1), Candidate("slow", 1)], ClosestRanking()[4..]);
  }

  /**
    * When every count is `hi` or `lo`, `closest_matches` lists the `hi`
    * entries and then the `lo` entries, each group in reverse table order.
    */
  lemma RankingByGroups(presets: seq<Preset>, settings: Settings, hi: nat, lo: nat)
    requires lo < hi
    requires forall k :: 0 <= k < |presets| ==> Counts(presets, settings)[k].count == hi || Counts(presets, settings)[k].count == lo
    ensures Ranking(presets, settings) ==
      Reversed(Tied(Counts(presets, settings), hi)) + Reversed(Tied(Counts(presets, settings), lo))
  {
    var r, cs := Ranking(presets, settings), Counts(presets, settings);
    RankingDescending(presets, settings);
    RankingPermutes(presets, settings);
    forall k | 0 <= k < |r| ensures r[k].count == hi || r[k].count == lo {
      assert r[k] in multiset(cs);
      var i :| 0 <= i < |cs| && cs[i] == r[k];
    }
    DescendingGroups(r, hi, lo);
    RankingTies(presets, settings, hi);
    RankingTies(presets, settings, lo);
  }

  lemma ClosestCountValues()
    ensures forall k :: 0 <= k < |ClosestCounts()| ==> ClosestCounts()[k].count == 2 || ClosestCounts()[k].count == 1
  {
  }

  lemma RankingOfCounts(presets: seq<Preset>, settings: Settings)
    requires Counts(presets, settings) == ClosestCounts()
    ensures Ranking(presets, settings) == ClosestRanking()
  {
    ClosestCountValues();
    RankingByGroups(presets, settings, 2, 1);
    TiedTwo();
    TiedOne();
    ReversedTwo();
    ReversedOne();
    assert ClosestRanking() == ClosestRanking()[..4] + ClosestRanking()[4..];
  }

  lemma ClosestRanked()
    ensures Ranking(Presets(), ClosestInput()) == ClosestRanking()
  {
    CountsOfClosest();
    RankingOfCounts(Presets(), ClosestInput());
  }

  // ---------------------------------------------------------------------
  // The assertions of the test

  lemma SuperfastMatches()
    ensures |Presets()| == 10
    ensures forall j :: 0 <= j < 10 ==> (PresetMatches(SuperfastInput(), Presets()[j].settings) <==> j == 1)
  {
    PresetNames();
    forall j | 0 <= j < 10 ensures PresetMatches(SuperfastInput(), Presets()[j].settings) <==> j == 1 {
      SuperfastOnly(j);
    }
  }

  lemma SuperfastResolved(verbose: nat)
    ensures DeterminePreset(Presets(), SuperfastInput(), verbose) == Ok("superfast")
  {
    SuperfastMatches();
    SuperfastAt();
    Identified(Presets(), SuperfastInput(), verbose, 1);
  }

  /** `ctu=32 min-cu-size=8` identifies `superfast`, at any verbosity. */
  lemma SuperfastIdentified(input: string, verbose: nat)
    requires input == "ctu=32 min-cu-size=8"
    ensures DeterminePreset(Presets(), Normalized(ParseString(input)), verbose) == Ok("superfast")
  {
    ParseSuperfast(input);
    InputsNormal();
    SuperfastResolved(verbose);
  }

  lemma CtuMatches()
    ensures |Presets()| == 10
    ensures forall j :: 0 <= j < 10 ==> (PresetMatches(CtuInput(), Presets()[j].settings) <==> j == 0 || j == 1)
  {
    PresetNames();
    forall j | 0 <= j < 10 ensures PresetMatches(CtuInput(), Presets()[j].settings) <==> j == 0 || j == 1 {
      CtuOnly(j);
    }
  }

  lemma CtuResolved(verbose: nat)
    ensures DeterminePreset(Presets(), CtuInput(), verbose) == Err(MultipleMatches(["ultrafast", "superfast"]))
  {
    CtuMatches();
    UltrafastAt();
    SuperfastAt();
    TwoMatches(Presets(), CtuInput(), verbose, 0, 1);
  }

  /** `ctu=32` is matched by `ultrafast` and `superfast`, reported in that order. */
  lemma CtuAmbiguous(input: string, verbose: nat)
    requires input == "ctu=32"
    ensures DeterminePreset(Presets(), Normalized(ParseString(input)), verbose) ==
      Err(MultipleMatches(["ultrafast", "superfast"]))
  {
    ParseCtu(input);
    InputsNormal();
    CtuResolved(verbose);
  }

  lemma ClosestMatchesNone()
    ensures forall j :: 0 <= j < |Presets()| ==> !PresetMatches(ClosestInput(), Presets()[j].settings)
  {
    PresetNames();
    forall j | 0 <= j < |Presets()| ensures !PresetMatches(ClosestInput(), Presets()[j].settings) {
      ClosestNone(j);
    }
  }

  lemma ClosestResolved(verbose: nat)
    ensures DeterminePreset(Presets(), ClosestInput(), verbose) ==
      if verbose > 0 then Err(NoMatchPartial(ClosestInput())) else Err(NoMatchClosest(ClosestRanking()))
  {
    ClosestMatchesNone();
    NoMatch(Presets(), ClosestInput(), verbose);
    ClosestRanked();
  }

  /**
    * `ctu=32 min-cu-size=8 bframes=8` matches no preset: quietly the ranking
    * above is reported, verbosely the partial-match table of the input.
    */
  lemma ClosestReported(input: string, verbose: nat)
    requires input == "ctu=32 min-cu-size=8 bframes=8"
    ensures DeterminePreset(Presets(), Normalized(ParseString(input)), verbose) ==
      if verbose > 0 then Err(NoMatchPartial(ClosestInput())) else Err(NoMatchClosest(ClosestRanking()))
  {
    ParseClosest(input);
    InputsNormal();
    ClosestResolved(verbose);
  }

  // ---------------------------------------------------------------------
  // The encoder's flag dump

  /**
    * What of the flag dump the classification depends on: every flag the
    * table knows agrees with `veryslow`, and the dump sets `bframes=8`,
    * `limit-refs=0` and `rc-lookahead=40`, which rule out the presets below
    * `slower`, `slower` itself and `placebo` respectively.
    */
  predicate VeryslowDump(settings: Settings)
  {
    && PresetMatches(settings, Veryslow())
    && "bframes" in settings && settings["bframes"] == "8"
    && "limit-refs" in settings && settings["limit-refs"] == "0"
    && "rc-lookahead" in settings && settings["rc-lookahead"] == "40"
  }

  lemma BframesRows(j: nat)
    requires j < 10
    ensures |CoreRows()| == 10
    ensures CoreRows()[j].bframes == "8" <==> 7 <= j
  {
  }

  lemma SlowerLimitRefs()
    ensures "limit-refs" in Slower() && Slower()["limit-refs"] == "1"
  {
  }

  lemma PlaceboLookahead()
    ensures "rc-lookahead" in Placebo() && Placebo()["rc-lookahead"] == "60"
  {
  }

  lemma VeryslowOnly(settings: Settings, j: nat)
    requires VeryslowDump(settings)
    requires j < 10
    ensures |Presets()| == 10
    ensures PresetMatches(settings, Presets()[j].settings) <==> j == 8
  {
    PresetCore(j);
    BframesRows(j);
    if j == 7 {
      SlowerAt();
      SlowerLimitRefs();
    } else if j == 8 {
      VeryslowAt();
    } else if j == 9 {
      PlaceboAt();
      PlaceboLookahead();
    }
  }

  lemma VeryslowMatches(settings: Settings)
    requires VeryslowDump(settings)
    ensures |Presets()| == 10
    ensures forall j :: 0 <= j < 10 ==> (PresetMatches(settings, Presets()[j].settings) <==> j == 8)
  {
    PresetNames();
    forall j | 0 <= j < 10 ensures PresetMatches(settings, Presets()[j].settings) <==> j == 8 {
      VeryslowOnly(settings, j);
    }
  }

  /** A flag dump consistent with `veryslow` that sets those three flags identifies `veryslow`, whatever else it holds. */
  lemma VeryslowIdentified(settings: Settings, verbose: nat)
    requires VeryslowDump(settings)
    ensures DeterminePreset(Presets(), settings, verbose) == Ok("veryslow")
  {
    VeryslowMatches(settings);
    VeryslowAt();
    Identified(Presets(), settings, verbose, 8);
  }

  // ---------------------------------------------------------------------
  // The determiner the test builds

  /**
    * The test builds its determiner with `Determiner::default()`, whose
    * table is empty: at the default verbosity every input, the four test
    * inputs included, is reported as matching nothing, with an empty
    * closest list, and never as a preset.
    */
  lemma DefaultDeterminerMatchesNothing(input: string, name: string)
    ensures DeterminePreset(DefaultPresets(), Normalized(ParseString(input)), 0) == Err(NoMatchClosest([]))
    ensures DeterminePreset(DefaultPresets(), Normalized(ParseString(input)), 0) != Ok(name)
  {
    var settings := Normalized(ParseString(input));
    assert MatchingIndices(DefaultPresets(), settings) == [];
    assert Counts(DefaultPresets(), settings) == [];
  }
}
