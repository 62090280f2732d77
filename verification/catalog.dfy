/**
  * The preset table of `Determiner::new` (src/lib.rs): the ten x265 presets
  * from the x265 documentation's presets page, in declaration order, each
  * with the settings the source writes as one `key=value` string.
  */
module Catalog {
  import opened Text
  import Tokenizer

  type Settings = Tokenizer.Settings

  /** `m` on the keys in `keys` only. */
  function Restrict(m: Settings, keys: set<string>): (r: Settings)
    ensures r.Keys == m.Keys * keys
    ensures forall k :: k in r ==> r[k] == m[k]
  {
    map k | k in m && k in keys :: m[k]
  }

  /** A named reference preset. */
  datatype Preset = Preset(name: string, settings: Settings)

  /** The names in table order. */
  function Names(presets: seq<Preset>): (names: seq<string>)
    ensures |names| == |presets|
    ensures forall i :: 0 <= i < |presets| ==> names[i] == presets[i].name
  {
    seq(|presets|, i requires 0 <= i < |presets| => presets[i].name)
  }

  /** No two presets share a name. */
  predicate DistinctNames(presets: seq<Preset>)
  {
    forall i, j :: 0 <= i < j < |presets| ==> presets[i].name != presets[j].name
  }

  /** The parameter names of the first preset, which the renderer treats as the schema of all. */
  function Schema(presets: seq<Preset>): set<string>
    requires presets != []
  {
    presets[0].settings.Keys
  }

  /**
    * What the rest of the model relies on about a preset table: it is not
    * empty (the renderer expects a first preset), names are distinct,
    * non-empty ASCII, and every preset sets the same parameters.
    */
  predicate WellFormed(presets: seq<Preset>)
  {
    && presets != []
    && DistinctNames(presets)
    && (forall i :: 0 <= i < |presets| ==> presets[i].name != [] && IsAscii(presets[i].name))
    && (forall i :: 0 <= i < |presets| ==> presets[i].settings.Keys == Schema(presets))
  }

  /** `Determiner::default()`: the derived `Default` gives an empty preset vector. */
  function DefaultPresets(): seq<Preset>
  {
    []
  }

  /** `Determiner::new`: the preset table, in declaration order. */
  function Presets(): seq<Preset>
  {
    [ Preset("ultrafast", Ultrafast()),
      Preset("superfast", Superfast()),
      Preset("veryfast", Veryfast()),
      Preset("faster", Faster()),
      Preset("fast", Fast()),
      Preset("medium", Medium()),
      Preset("slow", Slow()),
      Preset("slower", Slower()),
      Preset("veryslow", Veryslow()),
      Preset("placebo", Placebo()) ]
  }

  function Ultrafast(): Settings
  {
    map[
        "ctu" := "32", "min-cu-size" := "16", "bframes" := "3", "b-adapt" := "0", "rc-lookahead" := "5", "lookahead-slices" := "8",
        "scenecut" := "0", "ref" := "1", "limit-refs" := "0", "me" := "dia", "merange" := "57", "subme" := "0",
        "rect" := "0", "amp" := "0", "limit-modes" := "0", "max-merge" := "2", "early-skip" := "1", "recursion-skip" := "1",
        "fast-intra" := "1", "b-intra" := "0", "sao" := "0", "signhide" := "0", "weightp" := "0", "weightb" := "0",
        "aq-mode" := "0", "cuTree" := "1", "rdLevel" := "2", "rdoq-level" := "0", "tu-intra" := "1", "tu-inter" := "1",
        "limit-tu" := "0"]
  }

  function Superfast(): Settings
  {
    map[
        "ctu" := "32", "min-cu-size" := "8", "bframes" := "3", "b-adapt" := "0", "rc-lookahead" := "10", "lookahead-slices" := "8",
        "scenecut" := "40", "ref" := "1", "limit-refs" := "0", "me" := "hex", "merange" := "57", "subme" := "1",
        "rect" := "0", "amp" := "0", "limit-modes" := "0", "max-merge" := "2", "early-skip" := "1", "recursion-skip" := "1",
        "fast-intra" := "1", "b-intra" := "0", "sao" := "0", "signhide" := "1", "weightp" := "0", "weightb" := "0",
        "aq-mode" := "0", "cuTree" := "1", "rdLevel" := "2", "rdoq-level" := "0", "tu-intra" := "1", "tu-inter" := "1",
        "limit-tu" := "0"]
  }

  function Veryfast(): Settings
  {
    map[
        "ctu" := "64", "min-cu-size" := "8", "bframes" := "4", "b-adapt" := "0", "rc-lookahead" := "15", "lookahead-slices" := "8",
        "scenecut" := "40", "ref" := "2", "limit-refs" := "3", "me" := "hex", "merange" := "57", "subme" := "1",
        "rect" := "0", "amp" := "0", "limit-modes" := "0", "max-merge" := "2", "early-skip" := "1", "recursion-skip" := "1",
        "fast-intra" := "1", "b-intra" := "0", "sao" := "1", "signhide" := "1", "weightp" := "1", "weightb" := "0",
        "aq-mode" := "2", "cuTree" := "1", "rdLevel" := "2", "rdoq-level" := "0", "tu-intra" := "1", "tu-inter" := "1",
        "limit-tu" := "0"]
  }

  function Faster(): Settings
  {
    map[
        "ctu" := "64", "min-cu-size" := "8", "bframes" := "4", "b-adapt" := "0", "rc-lookahead" := "15", "lookahead-slices" := "8",
        "scenecut" := "40", "ref" := "2", "limit-refs" := "3", "me" := "hex", "merange" := "57", "subme" := "2",
        "rect" := "0", "amp" := "0", "limit-modes" := "0", "max-merge" := "2", "early-skip" := "1", "recursion-skip" := "1",
        "fast-intra" := "1", "b-intra" := "0", "sao" := "1", "signhide" := "1", "weightp" := "1", "weightb" := "0",
        "aq-mode" := "2", "cuTree" := "1", "rdLevel" := "2", "rdoq-level" := "0", "tu-intra" := "1", "tu-inter" := "1",
        "limit-tu" := "0"]
  }

  function Fast(): Settings
  {
    map[
        "ctu" := "64", "min-cu-size" := "8", "bframes" := "4", "b-adapt" := "0", "rc-lookahead" := "15", "lookahead-slices" := "8",
        "scenecut" := "40", "ref" := "3", "limit-refs" := "3", "me" := "hex", "merange" := "57", "subme" := "2",
        "rect" := "0", "amp" := "0", "limit-modes" := "0", "max-merge" := "2", "early-skip" := "0", "recursion-skip" := "1",
        "fast-intra" := "1", "b-intra" := "0", "sao" := "1", "signhide" := "1", "weightp" := "1", "weightb" := "0",
        "aq-mode" := "2", "cuTree" := "1", "rdLevel" := "2", "rdoq-level" := "0", "tu-intra" := "1", "tu-inter" := "1",
        "limit-tu" := "0"]
  }

  function Medium(): Settings
  {
    map[
        "ctu" := "64", "min-cu-size" := "8", "bframes" := "4", "b-adapt" := "2", "rc-lookahead" := "20", "lookahead-slices" := "8",
        "scenecut" := "40", "ref" := "3", "limit-refs" := "1", "me" := "hex", "merange" := "57", "subme" := "2",
        "rect" := "0", "amp" := "0", "limit-modes" := "0", "max-merge" := "3", "early-skip" := "1", "recursion-skip" := "1",
        "fast-intra" := "0", "b-intra" := "1", "sao" := "1", "signhide" := "1", "weightp" := "1", "weightb" := "0",
        "aq-mode" := "2", "cuTree" := "1", "rdLevel" := "3", "rdoq-level" := "0", "tu-intra" := "1", "tu-inter" := "1",
        "limit-tu" := "0"]
  }

  function Slow(): Settings
  {
    map[
        "ctu" := "64", "min-cu-size" := "8", "bframes" := "4", "b-adapt" := "2", "rc-lookahead" := "25", "lookahead-slices" := "4",
        "scenecut" := "40", "ref" := "4", "limit-refs" := "3", "me" := "star", "merange" := "57", "subme" := "3",
        "rect" := "1", "amp" := "0", "limit-modes" := "1", "max-merge" := "3", "early-skip" := "0", "recursion-skip" := "1",
        "fast-intra" := "0", "b-intra" := "0", "sao" := "1", "signhide" := "1", "weightp" := "1", "weightb" := "0",
        "aq-mode" := "2", "cuTree" := "1", "rdLevel" := "4", "rdoq-level" := "2", "tu-intra" := "1", "tu-inter" := "1",
        "limit-tu" := "0"]
  }

  function Slower(): Settings
  {
    map[
        "ctu" := "64", "min-cu-size" := "8", "bframes" := "8", "b-adapt" := "2", "rc-lookahead" := "40", "lookahead-slices" := "1",
        "scenecut" := "40", "ref" := "5", "limit-refs" := "1", "me" := "star", "merange" := "57", "subme" := "4",
        "rect" := "1", "amp" := "1", "limit-modes" := "1", "max-merge" := "4", "early-skip" := "0", "recursion-skip" := "1",
        "fast-intra" := "0", "b-intra" := "1", "sao" := "1", "signhide" := "1", "weightp" := "1", "weightb" := "1",
        "aq-mode" := "2", "cuTree" := "1", "rdLevel" := "6", "rdoq-level" := "2", "tu-intra" := "3", "tu-inter" := "3",
        "limit-tu" := "4"]
  }

  function Veryslow(): Settings
  {
    map[
        "ctu" := "64", "min-cu-size" := "8", "bframes" := "8", "b-adapt" := "2", "rc-lookahead" := "40", "lookahead-slices" := "1",
        "scenecut" := "40", "ref" := "5", "limit-refs" := "0", "me" := "star", "merange" := "57", "subme" := "4",
        "rect" := "1", "amp" := "1", "limit-modes" := "0", "max-merge" := "5", "early-skip" := "0", "recursion-skip" := "1",
        "fast-intra" := "0", "b-intra" := "1", "sao" := "1", "signhide" := "1", "weightp" := "1", "weightb" := "1",
        "aq-mode" := "2", "cuTree" := "1", "rdLevel" := "6", "rdoq-level" := "2", "tu-intra" := "3", "tu-inter" := "3",
        "limit-tu" := "0"]
  }

  function Placebo(): Settings
  {
    map[
        "ctu" := "64", "min-cu-size" := "8", "bframes" := "8", "b-adapt" := "2", "rc-lookahead" := "60", "lookahead-slices" := "1",
        "scenecut" := "40", "ref" := "5", "limit-refs" := "0", "me" := "star", "merange" := "92", "subme" := "5",
        "rect" := "1", "amp" := "1", "limit-modes" := "0", "max-merge" := "5", "early-skip" := "0", "recursion-skip" := "0",
        "fast-intra" := "0", "b-intra" := "1", "sao" := "1", "signhide" := "1", "weightp" := "1", "weightb" := "1",
        "aq-mode" := "2", "cuTree" := "1", "rdLevel" := "6", "rdoq-level" := "2", "tu-intra" := "4", "tu-inter" := "4",
        "limit-tu" := "0"]
  }

  /** The table has ten presets with these names, in this order. */
  lemma PresetNames()
    ensures |Presets()| == 10
    ensures Names(Presets()) == ["ultrafast", "superfast", "veryfast", "faster", "fast",
                                 "medium", "slow", "slower", "veryslow", "placebo"]
  {
  }

  lemma SuperfastParameters() ensures Superfast().Keys == Ultrafast().Keys {}
  lemma VeryfastParameters() ensures Veryfast().Keys == Ultrafast().Keys {}
  lemma FasterParameters() ensures Faster().Keys == Ultrafast().Keys {}
  lemma FastParameters() ensures Fast().Keys == Ultrafast().Keys {}
  lemma MediumParameters() ensures Medium().Keys == Ultrafast().Keys {}
  lemma SlowParameters() ensures Slow().Keys == Ultrafast().Keys {}
  lemma SlowerParameters() ensures Slower().Keys == Ultrafast().Keys {}
  lemma VeryslowParameters() ensures Veryslow().Keys == Ultrafast().Keys {}
  lemma PlaceboParameters() ensures Placebo().Keys == Ultrafast().Keys {}

  /** Every preset of the table sets the same parameters. */
  lemma PresetsShareSchema()
    ensures forall i :: 0 <= i < |Presets()| ==> Presets()[i].settings.Keys == Schema(Presets())
  {
    SuperfastParameters();
    VeryfastParameters();
    FasterParameters();
    FastParameters();
    MediumParameters();
    SlowParameters();
    SlowerParameters();
    VeryslowParameters();
    PlaceboParameters();
  }

  lemma PresetNamesDistinct()
    ensures DistinctNames(Presets())
  {
    PresetNames();
    var names := Names(Presets());
    assert forall i, j :: 0 <= i < j < |names| ==> names[i] != names[j];
  }

  lemma PresetNamesAscii()
    ensures forall i :: 0 <= i < |Presets()| ==> Presets()[i].name != [] && IsAscii(Presets()[i].name)
  {
    PresetNames();
    var names := Names(Presets());
    assert forall i :: 0 <= i < |names| ==> names[i] != [] && IsAscii(names[i]);
  }

  /** The table meets what the rest of the model relies on. */
  lemma PresetsWellFormed()
    ensures WellFormed(Presets())
  {
    PresetNamesDistinct();
    PresetNamesAscii();
    PresetsShareSchema();
  }
}
