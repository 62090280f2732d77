/**
  * `partially_matching_presets` and its helper `width_of_values`
  * (src/lib.rs), with colour off: the side-by-side table of the observed
  * values and the three closest presets that the verbose no-match error
  * shows.
  *
  * The two `HashMap`s whose iteration order fixes the layout (the shown
  * presets, which give the column order, and the filtered observed
  * settings, which give the row order), and the first preset's map, whose
  * key order fixes `preset_enc_params`, are taken as explicit sequences.
  */
module DiffTable {
  import opened Wrappers
  import opened Text
  import opened Catalog
  import opened Closest
  import opened Matcher

  // ---------------------------------------------------------------------
  // Widths

  /** The widest byte length among `values`. */
  function MaxLen(values: seq<string>): (n: nat)
    requires values != []
    ensures forall v :: v in values ==> ByteLen(v) <= n
    ensures exists v :: v in values && ByteLen(v) == n
  {
    var last := values[|values| - 1];
    if |values| == 1 then ByteLen(last)
    else
      var init := values[..|values| - 1];
      assert values == init + [last];
      Max(MaxLen(init), ByteLen(last))
  }

  /** Extending a prefix by one value. */
  lemma MaxLenStep(values: seq<string>, i: nat)
    requires i < |values|
    ensures MaxLen(values[..i + 1]) == if i == 0 then ByteLen(values[0]) else Max(MaxLen(values[..i]), ByteLen(values[i]))
  {
    assert values[..i + 1][..i] == values[..i];
  }

  /**
    * `width_of_values`: one pass keeping the longest length seen so far in
    * an `Option`, which is still `None` only for an empty input (the
    * `expect` there panics).
    */
  method WidthOfValues(values: seq<string>) returns (width: nat)
    requires values != []
    ensures width == MaxLen(values)
  {
    var maxLen: Option<nat> := None;
    var i := 0;
    while i < |values|
      invariant 0 <= i <= |values|
      invariant maxLen.None? <==> i == 0
      invariant maxLen.Some? ==> maxLen.value == MaxLen(values[..i])
    {
      var len := ByteLen(values[i]);
      MaxLenStep(values, i);
      if maxLen.None? || len > maxLen.value {
        maxLen := Some(len);
      }
      i := i + 1;
    }
    assert values[..i] == values;
    width := maxLen.value;
  }

  // ---------------------------------------------------------------------
  // The layout and the text it renders to

  /**
    * Everything the drawing loops read: the shown observed pairs and their
    * row order, the shown presets (name to shown values) and their column
    * order, and the column widths.
    */
  datatype Layout = Layout(
    input: Settings,
    rows: seq<string>,
    columns: seq<string>,
    values: map<string, Settings>,
    paramWidth: nat,
    inputWidth: nat,
    widths: map<string, nat>)

  /** What a preset column shows for a parameter: its value, or `-` when it has none. */
  function Cell(l: Layout, column: string, key: string): string
    requires column in l.values
  {
    if key in l.values[column] then l.values[column][key] else "-"
  }

  /** Every cell fits its column, so no padding computation underflows. */
  predicate Fits(l: Layout)
  {
    && 5 <= l.inputWidth
    && RowsFit(l)
    && NamesFit(l)
    && CellsFit(l)
  }

  /** Every parameter has an observed value, and both fit their columns. */
  predicate RowsFit(l: Layout)
  {
    forall k :: k in l.rows ==> k in l.input && ByteLen(k) <= l.paramWidth && ByteLen(l.input[k]) <= l.inputWidth
  }

  /** Every preset column has values and a width, and its name fits it. */
  predicate NamesFit(l: Layout)
  {
    forall c :: c in l.columns ==> c in l.values && c in l.widths && ByteLen(c) <= l.widths[c]
  }

  /** Every cell fits its column. */
  predicate CellsFit(l: Layout)
    requires NamesFit(l)
  {
    forall c, k :: c in l.columns && k in l.rows ==> ByteLen(Cell(l, c, k)) <= l.widths[c]
  }

  /** The heading of the observed-values column is five bytes long. */
  lemma InputHeadingLen()
    ensures ByteLen("input") == 5
  {
    ByteLenBounds("input");
  }

  /** The heading of the `j`-th preset column: its name padded to the column width. */
  function Heading(l: Layout, j: nat): (cell: string)
    requires Fits(l) && j < |l.columns|
    ensures ByteLen(cell) == l.widths[l.columns[j]]
  {
    assert l.columns[j] in l.columns;
    Pad(l.columns[j], l.widths[l.columns[j]])
  }

  /** The `j`-th preset's cell on the line of `key`: its value, or `-`, padded to the column width. */
  function Entry(l: Layout, key: string, j: nat): (cell: string)
    requires Fits(l) && key in l.rows && j < |l.columns|
    ensures ByteLen(cell) == l.widths[l.columns[j]]
  {
    assert l.columns[j] in l.columns;
    Pad(Cell(l, l.columns[j], key), l.widths[l.columns[j]])
  }

  /** `first` followed by each of `cells`, each after a ` | ` separator. */
  function JoinCells(first: string, cells: seq<string>): string
  {
    if cells == [] then first
    else JoinCells(first, cells[..|cells| - 1]) + " | " + cells[|cells| - 1]
  }

  /** The header's first two cells: a blank parameter cell and the `input` heading. */
  function HeaderStart(l: Layout): string
    requires Fits(l)
  {
    InputHeadingLen();
    Repeat(' ', l.paramWidth) + " | " + Pad("input", l.inputWidth)
  }

  /** The preset headings, in column order. */
  function Headings(l: Layout): (cells: seq<string>)
    requires Fits(l)
    ensures |cells| == |l.columns|
  {
    seq(|l.columns|, j requires 0 <= j < |l.columns| => Heading(l, j))
  }

  /** The first two cells of the line of `key`: its name and its observed value. */
  function LineStart(l: Layout, key: string): string
    requires Fits(l) && key in l.rows
  {
    Pad(key, l.paramWidth) + " | " + Pad(l.input[key], l.inputWidth)
  }

  /** The preset cells of the line of `key`, in column order. */
  function Entries(l: Layout, key: string): (cells: seq<string>)
    requires Fits(l) && key in l.rows
    ensures |cells| == |l.columns|
  {
    seq(|l.columns|, j requires 0 <= j < |l.columns| => Entry(l, key, j))
  }

  /** The header line, without its newline. */
  function Header(l: Layout): string
    requires Fits(l)
  {
    JoinCells(HeaderStart(l), Headings(l))
  }

  /** The line of one parameter, without its newline. */
  function Line(l: Layout, key: string): string
    requires Fits(l) && key in l.rows
  {
    JoinCells(LineStart(l, key), Entries(l, key))
  }

  /** The dash line under the header: one dash per byte of the header. */
  function Separator(l: Layout): string
    requires Fits(l)
  {
    Repeat('-', ByteLen(Header(l)))
  }

  /** The header line and the dash line under it, each with its newline. */
  function Prelude(l: Layout): string
    requires Fits(l)
  {
    Header(l) + "\n" + Separator(l) + "\n"
  }

  /** `start` followed by each of `lines` with its newline. */
  function JoinLines(start: string, lines: seq<string>): string
  {
    if lines == [] then start
    else JoinLines(start, lines[..|lines| - 1]) + lines[|lines| - 1] + "\n"
  }

  /** The parameter lines, in row order, without their newlines. */
  function Lines(l: Layout): (lines: seq<string>)
    requires Fits(l)
    ensures |lines| == |l.rows|
  {
    seq(|l.rows|, k requires 0 <= k < |l.rows| => assert l.rows[k] in l.rows; Line(l, l.rows[k]))
  }

  /** The whole table: header, separator, then one line per parameter in row order. */
  function Table(l: Layout): string
    requires Fits(l)
  {
    JoinLines(Prelude(l), Lines(l))
  }

  // ---------------------------------------------------------------------
  // The table cell by cell

  /**
    * The header's cells: a blank parameter cell, `input`, then each shown
    * preset's name, each padded with spaces to its column's width.
    */
  lemma HeaderCellsPadded(l: Layout)
    requires Fits(l)
    ensures Padded(Repeat(' ', l.paramWidth), "", l.paramWidth)
    ensures ByteLen("input") <= l.inputWidth && Padded(Pad("input", l.inputWidth), "input", l.inputWidth)
    ensures forall j :: 0 <= j < |l.columns| ==> Padded(Heading(l, j), l.columns[j], l.widths[l.columns[j]])
  {
    BlankIsPadded(l.paramWidth);
    InputHeadingLen();
    PadIsPadded("input", l.inputWidth);
    forall j | 0 <= j < |l.columns| ensures Padded(Heading(l, j), l.columns[j], l.widths[l.columns[j]]) {
      assert l.columns[j] in l.columns;
      PadIsPadded(l.columns[j], l.widths[l.columns[j]]);
    }
  }

  /**
    * A parameter's cells: its name, its observed value, then for each shown
    * preset its value or `-` when it has none, each padded with spaces to
    * its column's width.
    */
  lemma LineCellsPadded(l: Layout, key: string)
    requires Fits(l) && key in l.rows
    ensures Padded(Pad(key, l.paramWidth), key, l.paramWidth)
    ensures Padded(Pad(l.input[key], l.inputWidth), l.input[key], l.inputWidth)
    ensures forall j :: 0 <= j < |l.columns| ==> Padded(Entry(l, key, j), Cell(l, l.columns[j], key), l.widths[l.columns[j]])
  {
    PadIsPadded(key, l.paramWidth);
    PadIsPadded(l.input[key], l.inputWidth);
    forall j | 0 <= j < |l.columns| ensures Padded(Entry(l, key, j), Cell(l, l.columns[j], key), l.widths[l.columns[j]]) {
      assert l.columns[j] in l.columns;
      PadIsPadded(Cell(l, l.columns[j], key), l.widths[l.columns[j]]);
    }
  }

  lemma LineStartWidth(l: Layout, key: string)
    requires Fits(l) && key in l.rows
    ensures ByteLen(LineStart(l, key)) == ByteLen(HeaderStart(l))
  {
    InputHeadingLen();
    var a, b := Pad(key, l.paramWidth), Pad(l.input[key], l.inputWidth);
    var c, d := Repeat(' ', l.paramWidth), Pad("input", l.inputWidth);
    RepeatAsciiByteLen(' ', l.paramWidth);
    ByteLenAppend(a, " | ");
    ByteLenAppend(a + " | ", b);
    ByteLenAppend(c, " | ");
    ByteLenAppend(c + " | ", d);
  }

  /** Joining cells of equal byte lengths gives rows of equal byte length. */
  lemma {:induction false} JoinCellsWidth(a: string, xs: seq<string>, b: string, ys: seq<string>)
    requires ByteLen(a) == ByteLen(b) && |xs| == |ys|
    requires forall k :: 0 <= k < |xs| ==> ByteLen(xs[k]) == ByteLen(ys[k])
    ensures ByteLen(JoinCells(a, xs)) == ByteLen(JoinCells(b, ys))
  {
    if xs != [] {
      var n := |xs|;
      JoinCellsWidth(a, xs[..n - 1], b, ys[..n - 1]);
      var p, q := JoinCells(a, xs[..n - 1]), JoinCells(b, ys[..n - 1]);
      ByteLenAppend(p, " | ");
      ByteLenAppend(p + " | ", xs[n - 1]);
      ByteLenAppend(q, " | ");
      ByteLenAppend(q + " | ", ys[n - 1]);
    }
  }

  /**
    * The columns line up: every parameter's line is exactly as long in
    * bytes as the header, and the separator has one dash per header byte.
    */
  lemma ColumnsAligned(l: Layout, key: string)
    requires Fits(l) && key in l.rows
    ensures ByteLen(Line(l, key)) == ByteLen(Header(l))
    ensures |Separator(l)| == ByteLen(Header(l)) && ByteLen(Separator(l)) == ByteLen(Header(l))
    ensures forall i :: 0 <= i < |Separator(l)| ==> Separator(l)[i] == '-'
  {
    LineStartWidth(l, key);
    JoinCellsWidth(LineStart(l, key), Entries(l, key), HeaderStart(l), Headings(l));
    RepeatAsciiByteLen('-', ByteLen(Header(l)));
    RepeatChars('-', ByteLen(Header(l)));
  }

  // ---------------------------------------------------------------------
  // The drawing loops

  lemma NewlineByteLen(s: string)
    ensures ByteLen(s + "\n") == ByteLen(s) + 1
  {
    ByteLenAppend(s, "\n");
    ByteLenBounds("\n");
  }

  /** One more preset heading pushed onto the row. */
  lemma HeadingStep(l: Layout, start: string, j: nat)
    requires Fits(l) && j < |l.columns|
    ensures l.columns[j] in l.columns && ByteLen(l.columns[j]) <= l.widths[l.columns[j]]
    ensures JoinCells(start, Headings(l)[..j + 1])
      == JoinCells(start, Headings(l)[..j]) + " | " + Pad(l.columns[j], l.widths[l.columns[j]])
  {
    assert l.columns[j] in l.columns;
    assert Headings(l)[..j + 1][..j] == Headings(l)[..j];
  }

  /** One more preset cell of the line of `key` pushed onto the row. */
  lemma EntryStep(l: Layout, key: string, start: string, j: nat)
    requires Fits(l) && key in l.rows && j < |l.columns|
    ensures l.columns[j] in l.columns && ByteLen(Cell(l, l.columns[j], key)) <= l.widths[l.columns[j]]
    ensures JoinCells(start, Entries(l, key)[..j + 1])
      == JoinCells(start, Entries(l, key)[..j]) + " | " + Pad(Cell(l, l.columns[j], key), l.widths[l.columns[j]])
  {
    assert l.columns[j] in l.columns;
    assert Entries(l, key)[..j + 1][..j] == Entries(l, key)[..j];
  }

  /** The `presets.keys()` loop of the header: each preset name, padded to its column. */
  method PushHeadings(l: Layout, start: string) returns (row: string)
    requires Fits(l)
    ensures row == JoinCells(start, Headings(l))
  {
    row := start;
    var j := 0;
    while j < |l.columns|
      invariant 0 <= j <= |l.columns|
      invariant row == JoinCells(start, Headings(l)[..j])
    {
      var name := l.columns[j];
      HeadingStep(l, start, j);
      row := row + " | " + Pad(name, l.widths[name]);
      j := j + 1;
    }
    assert Headings(l)[..j] == Headings(l);
  }

  /** The `presets.iter()` loop of a parameter line: each preset's value or `-`, padded to its column. */
  method PushEntries(l: Layout, key: string, start: string) returns (row: string)
    requires Fits(l) && key in l.rows
    ensures row == JoinCells(start, Entries(l, key))
  {
    row := start;
    var j := 0;
    while j < |l.columns|
      invariant 0 <= j <= |l.columns|
      invariant row == JoinCells(start, Entries(l, key)[..j])
    {
      var name := l.columns[j];
      EntryStep(l, key, start, j);
      var value := Cell(l, name, key);
      row := row + " | " + Pad(value, l.widths[name]);
      j := j + 1;
    }
    assert Entries(l, key)[..j] == Entries(l, key);
  }

  /** The header line, pushed piece by piece onto the empty `row` buffer. */
  method DrawHeader(l: Layout) returns (row: string)
    requires Fits(l)
    ensures row == Header(l)
  {
    InputHeadingLen();
    row := Repeat(' ', l.paramWidth) + " | " + Pad("input", l.inputWidth);
    row := PushHeadings(l, row);
  }

  /** The line of one parameter, pushed piece by piece onto the empty `row` buffer. */
  method DrawLine(l: Layout, key: string) returns (row: string)
    requires Fits(l) && key in l.rows
    ensures row == Line(l, key)
  {
    var value := l.input[key];
    row := Pad(key, l.paramWidth) + " | " + Pad(value, l.inputWidth);
    row := PushEntries(l, key, row);
  }

  /**
    * The first two `add_finished_row` calls: the header, then as many dashes
    * as the table is long without its newline.
    */
  method DrawPrelude(l: Layout) returns (table: string)
    requires Fits(l)
    ensures table == Prelude(l)
  {
    var row := DrawHeader(l);
    table := row + "\n";
    NewlineByteLen(row);
    row := Repeat('-', ByteLen(table) - 1);
    table := table + row + "\n";
  }

  /**
    * The parameter loop of `partially_matching_presets`: one line per
    * parameter, in row order, each pushed onto `table` by
    * `add_finished_row` with its newline.
    */
  method DrawRows(l: Layout, start: string) returns (table: string)
    requires Fits(l)
    ensures table == JoinLines(start, Lines(l))
  {
    table := start;
    var i := 0;
    while i < |l.rows|
      invariant 0 <= i <= |l.rows|
      invariant table == JoinLines(start, Lines(l)[..i])
    {
      assert l.rows[i] in l.rows;
      var row := DrawLine(l, l.rows[i]);
      assert Lines(l)[..i + 1][..i] == Lines(l)[..i];
      table := table + row + "\n";
      i := i + 1;
    }
    assert Lines(l)[..i] == Lines(l);
  }

  /** The whole `row`/`table` buffer drawing of `partially_matching_presets`. */
  method Draw(l: Layout) returns (table: string)
    requires Fits(l)
    ensures table == Table(l)
  {
    table := DrawPrelude(l);
    table := DrawRows(l, table);
  }

  // ---------------------------------------------------------------------
  // What is shown

  /** `order` lists the members of `s`, each once: an iteration order of a map's keys. */
  predicate Enumerates(order: seq<string>, s: set<string>)
  {
    && (forall i, j :: 0 <= i < j < |order| ==> order[i] != order[j])
    && (forall x :: x in order ==> x in s)
    && (forall x :: x in s ==> x in order)
  }

  /** The elements of `order` that are in `keep`, in their order. */
  function Filter(order: seq<string>, keep: set<string>): (r: seq<string>)
    ensures forall x :: x in r <==> x in order && x in keep
  {
    if order == [] then []
    else
      var init, last := order[..|order| - 1], order[|order| - 1];
      assert order == init + [last];
      Filter(init, keep) + (if last in keep then [last] else [])
  }

  /**
    * `preset_enc_params`: the first preset's parameter names in its map
    * order `schemaOrder`, kept only where observed unless `verbose >= 2`.
    */
  function Params(schemaOrder: seq<string>, settings: Settings, verbose: nat): seq<string>
  {
    if verbose < 2 then Filter(schemaOrder, settings.Keys) else schemaOrder
  }

  /** The filtered `input_keys`: the observed parameters that get a line. */
  function ShownKeys(schemaOrder: seq<string>, settings: Settings, verbose: nat): set<string>
  {
    if verbose < 2 then set k | k in settings && k in Params(schemaOrder, settings, verbose)
    else settings.Keys
  }

  /** `preset_names`: the names of the first three entries of a ranking. */
  function TopNames(ranking: seq<Candidate>): (names: seq<string>)
    ensures |names| == if |ranking| < 3 then |ranking| else 3
    ensures forall k :: 0 <= k < |names| ==> names[k] == ranking[k].name
  {
    var n := if |ranking| < 3 then |ranking| else 3;
    seq(n, k requires 0 <= k < n => ranking[k].name)
  }

  /**
    * The shown presets: every preset of the table named in `top`, with its
    * values on `params` only, collected into a map (of two presets with one
    * name, the later one is kept).
    */
  function ShownPresets(presets: seq<Preset>, top: seq<string>, params: set<string>): (shown: map<string, Settings>)
    ensures forall c :: c in shown <==> c in top && exists i :: 0 <= i < |presets| && presets[i].name == c
    ensures forall c :: c in shown ==>
      exists i :: 0 <= i < |presets| && presets[i].name == c && shown[c] == Restrict(presets[i].settings, params)
  {
    if presets == [] then map[]
    else
      var init, last := presets[..|presets| - 1], presets[|presets| - 1];
      assert presets == init + [last];
      var rest := ShownPresets(init, top, params);
      if last.name in top then rest[last.name := Restrict(last.settings, params)] else rest
  }

  /** The values of `m` at the keys of `order` that it has, in that order. */
  function ValuesAlong(m: Settings, order: seq<string>): (values: seq<string>)
    ensures forall k :: k in order && k in m ==> m[k] in values
    ensures forall v :: v in values ==> exists k :: k in order && k in m && m[k] == v
  {
    if order == [] then []
    else
      var init, last := order[..|order| - 1], order[|order| - 1];
      assert order == init + [last];
      ValuesAlong(m, init) + (if last in m then [m[last]] else [])
  }

  /** The presets shown for `settings`: the three closest, on the shown parameters. */
  function Shown(presets: seq<Preset>, settings: Settings, verbose: nat, schemaOrder: seq<string>): map<string, Settings>
  {
    var params := Params(schemaOrder, settings, verbose);
    ShownPresets(presets, TopNames(Ranking(presets, settings)), set k | k in params)
  }

  /**
    * What `partially_matching_presets` needs in order not to panic, given
    * the map orders it iterates: a first preset (`There must be a
    * preset`), at least one shown parameter (`width_of_values` on the
    * shown observed keys), at least one value in every shown preset
    * (`Preset must have values`), and room for `-` in any column that
    * shows one (its padding is an unsigned subtraction).
    */
  predicate Renderable(presets: seq<Preset>, settings: Settings, verbose: nat,
                       schemaOrder: seq<string>, columns: seq<string>, rows: seq<string>)
  {
    && presets != []
    && Enumerates(schemaOrder, presets[0].settings.Keys)
    && Enumerates(rows, ShownKeys(schemaOrder, settings, verbose))
    && Enumerates(columns, Shown(presets, settings, verbose, schemaOrder).Keys)
    && rows != []
    && Drawable(Shown(presets, settings, verbose, schemaOrder), Params(schemaOrder, settings, verbose), columns, rows)
  }

  /** Every shown preset has a value, and a column that shows `-` is at least one byte wide. */
  predicate Drawable(shown: map<string, Settings>, params: seq<string>, columns: seq<string>, rows: seq<string>)
  {
    forall c :: c in columns && c in shown ==>
      && shown[c] != map[]
      && ((exists k :: k in rows && k !in shown[c]) ==> 1 <= ColumnWidth(c, shown[c], params))
  }

  /** A preset column's width: the longer of its name and its widest shown value. */
  function ColumnWidth(name: string, values: Settings, params: seq<string>): nat
  {
    var vs := ValuesAlong(values, params);
    if vs == [] then ByteLen(name) else Max(ByteLen(name), MaxLen(vs))
  }

  lemma ShownWithinParams(presets: seq<Preset>, settings: Settings, verbose: nat, schemaOrder: seq<string>, c: string)
    requires c in Shown(presets, settings, verbose, schemaOrder)
    ensures forall k :: k in Shown(presets, settings, verbose, schemaOrder)[c] ==> k in Params(schemaOrder, settings, verbose)
  {
  }

  /**
    * The layout `partially_matching_presets` draws: the observed pairs on
    * the shown parameters, the shown presets, and the widths computed from
    * them with `width_of_values`.
    */
  function Plan(presets: seq<Preset>, settings: Settings, verbose: nat,
                schemaOrder: seq<string>, columns: seq<string>, rows: seq<string>): Layout
    requires Renderable(presets, settings, verbose, schemaOrder, columns, rows)
  {
    var params := Params(schemaOrder, settings, verbose);
    var input := Restrict(settings, ShownKeys(schemaOrder, settings, verbose));
    var shown := Shown(presets, settings, verbose, schemaOrder);
    assert rows[0] in rows;
    Layout(input, rows, columns, shown,
      MaxLen(rows),
      Max(5, MaxLen(ValuesAlong(input, rows))),
      map c | c in columns :: ColumnWidth(c, shown[c], params))
  }

  lemma DashByteLen()
    ensures ByteLen("-") == 1
  {
    ByteLenBounds("-");
  }

  lemma PlanRowsFit(presets: seq<Preset>, settings: Settings, verbose: nat,
                    schemaOrder: seq<string>, columns: seq<string>, rows: seq<string>)
    requires Renderable(presets, settings, verbose, schemaOrder, columns, rows)
    ensures var l := Plan(presets, settings, verbose, schemaOrder, columns, rows);
      forall k :: k in l.rows ==> k in l.input && ByteLen(k) <= l.paramWidth && ByteLen(l.input[k]) <= l.inputWidth
  {
    var l := Plan(presets, settings, verbose, schemaOrder, columns, rows);
    forall k | k in rows
      ensures k in l.input && ByteLen(k) <= l.paramWidth && ByteLen(l.input[k]) <= l.inputWidth
    {
      assert l.input[k] in ValuesAlong(l.input, rows);
    }
  }

  lemma CellWithinColumn(name: string, values: Settings, params: seq<string>, key: string)
    requires forall k :: k in values ==> k in params
    requires key !in values ==> 1 <= ColumnWidth(name, values, params)
    ensures ByteLen(if key in values then values[key] else "-") <= ColumnWidth(name, values, params)
  {
    DashByteLen();
    if key in values {
      assert values[key] in ValuesAlong(values, params);
    }
  }

  lemma ColumnsFit(l: Layout, params: seq<string>)
    requires forall c :: c in l.columns ==>
      && c in l.values && c in l.widths && l.widths[c] == ColumnWidth(c, l.values[c], params)
      && forall k :: k in l.values[c] ==> k in params
    requires Drawable(l.values, params, l.columns, l.rows)
    ensures forall c :: c in l.columns ==> c in l.values && c in l.widths && ByteLen(c) <= l.widths[c]
    ensures forall c, k :: c in l.columns && k in l.rows ==> ByteLen(Cell(l, c, k)) <= l.widths[c]
  {
    forall c, k | c in l.columns && k in l.rows
      ensures ByteLen(Cell(l, c, k)) <= l.widths[c]
    {
      CellWithinColumn(c, l.values[c], params, k);
    }
  }

  lemma PlanCellsFit(presets: seq<Preset>, settings: Settings, verbose: nat,
                     schemaOrder: seq<string>, columns: seq<string>, rows: seq<string>)
    requires Renderable(presets, settings, verbose, schemaOrder, columns, rows)
    ensures var l := Plan(presets, settings, verbose, schemaOrder, columns, rows);
      && (forall c :: c in l.columns ==> c in l.values && c in l.widths && ByteLen(c) <= l.widths[c])
      && (forall c, k :: c in l.columns && k in l.rows ==> ByteLen(Cell(l, c, k)) <= l.widths[c])
  {
    var l := Plan(presets, settings, verbose, schemaOrder, columns, rows);
    var params := Params(schemaOrder, settings, verbose);
    forall c | c in columns
      ensures forall k :: k in l.values[c] ==> k in params
    {
      ShownWithinParams(presets, settings, verbose, schemaOrder, c);
    }
    ColumnsFit(l, params);
  }

  /** Every width the plan computes is wide enough: no padding underflows and every cell fits. */
  lemma PlanFits(presets: seq<Preset>, settings: Settings, verbose: nat,
                 schemaOrder: seq<string>, columns: seq<string>, rows: seq<string>)
    requires Renderable(presets, settings, verbose, schemaOrder, columns, rows)
    ensures Fits(Plan(presets, settings, verbose, schemaOrder, columns, rows))
  {
    PlanRowsFit(presets, settings, verbose, schemaOrder, columns, rows);
    PlanCellsFit(presets, settings, verbose, schemaOrder, columns, rows);
  }

  // ---------------------------------------------------------------------
  // The renderer

  /**
    * `partially_matching_presets` with colour off: rank the presets, keep
    * the three closest, restrict them and the observed pairs to the shown
    * parameters, measure the columns with `width_of_values`, then draw.
    */
  method PartiallyMatchingPresets(presets: seq<Preset>, settings: Settings, verbose: nat,
                                  schemaOrder: seq<string>, columns: seq<string>, rows: seq<string>)
    returns (table: string)
    requires Renderable(presets, settings, verbose, schemaOrder, columns, rows)
    ensures Fits(Plan(presets, settings, verbose, schemaOrder, columns, rows))
    ensures table == Table(Plan(presets, settings, verbose, schemaOrder, columns, rows))
  {
    var params := Params(schemaOrder, settings, verbose);
    var keys := ShownKeys(schemaOrder, settings, verbose);
    var ranking := ClosestMatches(presets, settings);
    var top := TopNames(ranking);
    var shown := ShownPresets(presets, top, set k | k in params);
    var input := Restrict(settings, keys);
    var paramWidth := WidthOfValues(rows);
    assert rows[0] in rows;
    var valuesWidth := WidthOfValues(ValuesAlong(input, rows));
    InputHeadingLen();
    var inputWidth := Max(ByteLen("input"), valuesWidth);
    var widths := map c | c in columns :: ColumnWidth(c, shown[c], params);
    PlanFits(presets, settings, verbose, schemaOrder, columns, rows);
    table := Draw(Layout(input, rows, columns, shown, paramWidth, inputWidth, widths));
  }

  // ---------------------------------------------------------------------
  // What the table shows

  /**
    * The lines: quiet, the observed parameters the presets know; with
    * `verbose >= 2`, every observed parameter. Each shows its observed value.
    */
  lemma PlanRows(presets: seq<Preset>, settings: Settings, verbose: nat,
                 schemaOrder: seq<string>, columns: seq<string>, rows: seq<string>)
    requires Renderable(presets, settings, verbose, schemaOrder, columns, rows)
    ensures var l := Plan(presets, settings, verbose, schemaOrder, columns, rows);
      && (forall k :: k in l.rows <==> k in settings && (verbose >= 2 || k in presets[0].settings))
      && (forall k :: k in l.rows ==> k in l.input && l.input[k] == settings[k])
  {
  }

  lemma {:induction false} DistinctCard(a: seq<string>)
    requires forall i, j :: 0 <= i < j < |a| ==> a[i] != a[j]
    ensures |set x | x in a| == |a|
  {
    if a != [] {
      var init, last := a[..|a| - 1], a[|a| - 1];
      assert a == init + [last];
      DistinctCard(init);
      assert (set x | x in a) == (set x | x in init) + {last};
    }
  }

  lemma {:induction false} SeqCard(b: seq<string>)
    ensures |set x | x in b| <= |b|
  {
    if b != [] {
      var init, last := b[..|b| - 1], b[|b| - 1];
      assert b == init + [last];
      SeqCard(init);
      assert (set x | x in b) == (set x | x in init) + {last};
    }
  }

  /** The columns: the (at most three) closest presets by the ranking, each once. */
  lemma PlanColumns(presets: seq<Preset>, settings: Settings, verbose: nat,
                    schemaOrder: seq<string>, columns: seq<string>, rows: seq<string>)
    requires Renderable(presets, settings, verbose, schemaOrder, columns, rows)
    ensures var l := Plan(presets, settings, verbose, schemaOrder, columns, rows);
      && (forall c :: c in l.columns <==> c in TopNames(Ranking(presets, settings)))
      && |l.columns| <= 3
  {
    var ranking := Ranking(presets, settings);
    var top := TopNames(ranking);
    RankingEntries(presets, settings);
    forall c | c in top ensures exists i :: 0 <= i < |presets| && presets[i].name == c {
      var k :| 0 <= k < |top| && top[k] == c;
      assert ranking[k] in ranking;
    }
    DistinctCard(columns);
    SeqCard(top);
    SubsetCardinality(set x | x in columns, set x | x in top);
  }

  /**
    * The widths, as `width_of_values` and the two `max`es compute them: the
    * parameter column is as wide as the longest shown parameter name; the
    * observed column as the longest shown value, but never narrower than
    * its heading `input`; a preset column as the longer of its name and
    * its longest shown value.
    */
  lemma PlanWidths(presets: seq<Preset>, settings: Settings, verbose: nat,
                   schemaOrder: seq<string>, columns: seq<string>, rows: seq<string>)
    requires Renderable(presets, settings, verbose, schemaOrder, columns, rows)
    ensures var l := Plan(presets, settings, verbose, schemaOrder, columns, rows);
      && (forall k :: k in rows ==> ByteLen(k) <= l.paramWidth)
      && (exists k :: k in rows && ByteLen(k) == l.paramWidth)
    ensures var l := Plan(presets, settings, verbose, schemaOrder, columns, rows);
      && ByteLen("input") <= l.inputWidth
      && (forall k :: k in rows ==> k in l.input && ByteLen(l.input[k]) <= l.inputWidth)
      && (l.inputWidth == ByteLen("input") || exists k :: k in rows && k in l.input && ByteLen(l.input[k]) == l.inputWidth)
    ensures var l := Plan(presets, settings, verbose, schemaOrder, columns, rows);
      forall c :: c in columns ==>
        && c in l.values && c in l.widths && ByteLen(c) <= l.widths[c]
        && (forall k :: k in l.values[c] ==> ByteLen(l.values[c][k]) <= l.widths[c])
        && (l.widths[c] == ByteLen(c) || exists k :: k in l.values[c] && ByteLen(l.values[c][k]) == l.widths[c])
  {
    var l := Plan(presets, settings, verbose, schemaOrder, columns, rows);
    InputHeadingLen();
    PlanRowsFit(presets, settings, verbose, schemaOrder, columns, rows);
    var vs := ValuesAlong(l.input, rows);
    assert rows[0] in rows;
    if l.inputWidth != 5 {
      var v :| v in vs && ByteLen(v) == l.inputWidth;
      var k :| k in rows && k in l.input && l.input[k] == v;
    }
    var params := Params(schemaOrder, settings, verbose);
    forall c | c in columns
      ensures && c in l.values && c in l.widths && ByteLen(c) <= l.widths[c]
              && (forall k :: k in l.values[c] ==> ByteLen(l.values[c][k]) <= l.widths[c])
              && (l.widths[c] == ByteLen(c) || exists k :: k in l.values[c] && ByteLen(l.values[c][k]) == l.widths[c])
    {
      ShownWithinParams(presets, settings, verbose, schemaOrder, c);
      ColumnWidthSpec(c, l.values[c], params);
    }
  }

  /** A column's width covers its name and every value it shows, and is one of them. */
  lemma ColumnWidthSpec(name: string, values: Settings, params: seq<string>)
    requires forall k :: k in values ==> k in params
    ensures ByteLen(name) <= ColumnWidth(name, values, params)
    ensures forall k :: k in values ==> ByteLen(values[k]) <= ColumnWidth(name, values, params)
    ensures ColumnWidth(name, values, params) == ByteLen(name) ||
      exists k :: k in values && ByteLen(values[k]) == ColumnWidth(name, values, params)
  {
    var vs := ValuesAlong(values, params);
    forall k | k in values ensures ByteLen(values[k]) <= ColumnWidth(name, values, params) {
      assert values[k] in vs;
    }
    if ColumnWidth(name, values, params) != ByteLen(name) {
      var v :| v in vs && ByteLen(v) == MaxLen(vs);
      var k :| k in params && k in values && values[k] == v;
    }
  }

  /** With distinct names, a preset's column holds that preset's values on the shown parameters. */
  lemma PlanColumnValues(presets: seq<Preset>, settings: Settings, verbose: nat,
                         schemaOrder: seq<string>, columns: seq<string>, rows: seq<string>, i: nat)
    requires Renderable(presets, settings, verbose, schemaOrder, columns, rows)
    requires DistinctNames(presets) && i < |presets| && presets[i].name in columns
    ensures var l := Plan(presets, settings, verbose, schemaOrder, columns, rows);
      && presets[i].name in l.values
      && l.values[presets[i].name] == Restrict(presets[i].settings, set k | k in Params(schemaOrder, settings, verbose))
  {
    var params := Params(schemaOrder, settings, verbose);
    ShownPresetOf(presets, TopNames(Ranking(presets, settings)), (set k | k in params), i);
  }

  /**
    * A preset column shows, on each line, the preset's own value when it
    * has one for a parameter of the first preset, and `-` otherwise.
    */
  lemma PlanCells(presets: seq<Preset>, settings: Settings, verbose: nat,
                  schemaOrder: seq<string>, columns: seq<string>, rows: seq<string>, i: nat, key: string)
    requires Renderable(presets, settings, verbose, schemaOrder, columns, rows)
    requires DistinctNames(presets) && i < |presets| && presets[i].name in columns && key in rows
    ensures var l := Plan(presets, settings, verbose, schemaOrder, columns, rows);
      && presets[i].name in l.values
      && Cell(l, presets[i].name, key) ==
           if key in presets[i].settings && key in presets[0].settings then presets[i].settings[key] else "-"
  {
    PlanColumnValues(presets, settings, verbose, schemaOrder, columns, rows, i);
    RowParam(presets, settings, verbose, schemaOrder, rows, key);
  }

  /** With distinct names, a shown preset's column holds that preset's values. */
  lemma ShownPresetOf(presets: seq<Preset>, top: seq<string>, params: set<string>, i: nat)
    requires DistinctNames(presets) && i < |presets|
    requires presets[i].name in ShownPresets(presets, top, params)
    ensures ShownPresets(presets, top, params)[presets[i].name] == Restrict(presets[i].settings, params)
  {
    var shown := ShownPresets(presets, top, params);
    var j :| 0 <= j < |presets| && presets[j].name == presets[i].name && shown[presets[i].name] == Restrict(presets[j].settings, params);
    assert j == i;
  }

  lemma RowParam(presets: seq<Preset>, settings: Settings, verbose: nat,
                 schemaOrder: seq<string>, rows: seq<string>, key: string)
    requires presets != [] && Enumerates(schemaOrder, presets[0].settings.Keys)
    requires Enumerates(rows, ShownKeys(schemaOrder, settings, verbose)) && key in rows
    ensures key in Params(schemaOrder, settings, verbose) <==> key in presets[0].settings
  {
  }

  /**
    * Quiet, over a table whose presets all set the same parameters, no
    * cell is `-`: every line is a parameter every preset sets.
    */
  lemma QuietNoPlaceholder(presets: seq<Preset>, settings: Settings, verbose: nat,
                           schemaOrder: seq<string>, columns: seq<string>, rows: seq<string>, i: nat, key: string)
    requires Renderable(presets, settings, verbose, schemaOrder, columns, rows)
    requires WellFormed(presets) && verbose < 2
    requires i < |presets| && presets[i].name in columns && key in rows
    ensures var l := Plan(presets, settings, verbose, schemaOrder, columns, rows);
      && presets[i].name in l.values
      && key in presets[i].settings
      && Cell(l, presets[i].name, key) == presets[i].settings[key]
  {
    PlanRows(presets, settings, verbose, schemaOrder, columns, rows);
    PlanCells(presets, settings, verbose, schemaOrder, columns, rows, i, key);
  }

  /**
    * The verbose no-match error always renders: over a well-formed table,
    * when no preset matches, the table has a line and every shown preset a
    * value and a non-empty name, whatever the map orders.
    */
  lemma NoMatchRenders(presets: seq<Preset>, settings: Settings, verbose: nat,
                       schemaOrder: seq<string>, columns: seq<string>, rows: seq<string>)
    requires WellFormed(presets)
    requires forall i :: 0 <= i < |presets| ==> !PresetMatches(settings, presets[i].settings)
    requires Enumerates(schemaOrder, presets[0].settings.Keys)
    requires Enumerates(rows, ShownKeys(schemaOrder, settings, verbose))
    requires Enumerates(columns, Shown(presets, settings, verbose, schemaOrder).Keys)
    ensures Renderable(presets, settings, verbose, schemaOrder, columns, rows)
  {
    var params := Params(schemaOrder, settings, verbose);
    var shown := Shown(presets, settings, verbose, schemaOrder);
    assert !PresetMatches(settings, presets[0].settings);
    var key :| key in settings && key in presets[0].settings && presets[0].settings[key] != settings[key];
    assert key in params;
    assert key in rows;
    forall c | c in columns && c in shown
      ensures shown[c] != map[] && 1 <= ColumnWidth(c, shown[c], params)
    {
      var j :| 0 <= j < |presets| && presets[j].name == c && shown[c] == Restrict(presets[j].settings, set k | k in params);
      assert key in shown[c];
      ByteLenBounds(c);
      ShownWithinParams(presets, settings, verbose, schemaOrder, c);
      ColumnWidthSpec(c, shown[c], params);
    }
  }
}
