/**
 * Chart-data preparation and trace selection of a radar (spider) chart of
 * skill levels.
 *
 * A skill→level mapping becomes a table with one row per skill (`Skills`,
 * `MyLevel`), sorted by level, with one constant column per proficiency
 * boundary, and closed by repeating its first row at the end. One polar trace
 * is then drawn per boundary and one for `MyLevel`, each with one of two fixed
 * style bundles.
 */
module Radar {

  /** Levels and thresholds are only copied and compared, never computed with. */
  type Score = real

  /** One entry of the input skill mapping. */
  datatype Skill = Skill(name: string, level: Score)

  /** One entry of the ordered proficiency-boundary mapping. */
  datatype Boundary = Boundary(name: string, threshold: Score)

  /** One table row: the `Skills` and `MyLevel` cells and one cell per boundary column. */
  datatype Row = Row(skill: string, level: Score, bands: map<string, Score>)

  /** Taking the first row of an empty table fails. */
  datatype PrepareError = EmptySkills

  datatype Result<T> = Ok(value: T) | Err(error: PrepareError)

  const SkillsColumn: string := "Skills"
  const MyLevelColumn: string := "MyLevel"

  // ---------------------------------------------------------------------------
  // Inputs
  // ---------------------------------------------------------------------------

  /** Boundary names are the keys of a dictionary, so they are distinct. */
  predicate DistinctNames(bs: seq<Boundary>) {
    forall i, j :: 0 <= i < j < |bs| ==> bs[i].name != bs[j].name
  }

  /** Distinct boundary names, none of which collides with a skill-table column. */
  predicate ValidBoundaries(bs: seq<Boundary>) {
    && DistinctNames(bs)
    && forall k :: 0 <= k < |bs| ==> bs[k].name != SkillsColumn && bs[k].name != MyLevelColumn
  }

  function BoundaryNames(bs: seq<Boundary>): set<string> {
    set k | 0 <= k < |bs| :: bs[k].name
  }

  // ---------------------------------------------------------------------------
  // Views of the table
  // ---------------------------------------------------------------------------

  function Entry(row: Row): Skill {
    Skill(row.skill, row.level)
  }

  /** The `Skills` and `MyLevel` columns read together, row by row. */
  function Entries(rows: seq<Row>): (es: seq<Skill>)
    ensures |es| == |rows|
  {
    seq(|rows|, i requires 0 <= i < |rows| => Entry(rows[i]))
  }

  /** Rows in non-decreasing order of `MyLevel`. */
  predicate SortedByLevel(frame: seq<Skill>) {
    forall i, j :: 0 <= i < j < |frame| ==> frame[i].level <= frame[j].level
  }

  /** The `Skills` column. */
  function SkillColumn(rows: seq<Row>): (c: seq<string>)
    ensures |c| == |rows|
    ensures forall i :: 0 <= i < |rows| ==> c[i] == rows[i].skill
  {
    seq(|rows|, i requires 0 <= i < |rows| => rows[i].skill)
  }

  /** Every row has a cell for every boundary. */
  predicate HasBandColumns(rows: seq<Row>, bs: seq<Boundary>) {
    forall i, k :: 0 <= i < |rows| && 0 <= k < |bs| ==> bs[k].name in rows[i].bands
  }

  /** The column called `name`: `MyLevel` or one of the boundary columns. */
  function Column(rows: seq<Row>, name: string): (c: seq<Score>)
    requires name == MyLevelColumn || forall i :: 0 <= i < |rows| ==> name in rows[i].bands
    ensures |c| == |rows|
    ensures name == MyLevelColumn ==> forall i :: 0 <= i < |rows| ==> c[i] == rows[i].level
    ensures name != MyLevelColumn ==> forall i :: 0 <= i < |rows| ==> c[i] == rows[i].bands[name]
  {
    if name == MyLevelColumn then seq(|rows|, i requires 0 <= i < |rows| => rows[i].level)
    else seq(|rows|, i requires 0 <= i < |rows| => rows[i].bands[name])
  }

  // ---------------------------------------------------------------------------
  // Steps 1 and 2: the two-column table (`Skills`, `MyLevel`), one row per
  // skill in the mapping's order, sorted by `MyLevel`
  // ---------------------------------------------------------------------------

  /** A lower bound on every level survives any reordering. */
  lemma LevelBoundPermuted(v: Score, s: seq<Skill>, t: seq<Skill>)
    requires multiset(t) == multiset(s)
    requires forall i :: 0 <= i < |s| ==> v <= s[i].level
    ensures forall j :: 0 <= j < |t| ==> v <= t[j].level
  {
    forall j | 0 <= j < |t| ensures v <= t[j].level {
      assert t[j] in multiset(s) by {
        assert t[j] in multiset(t);
      }
      var i :| 0 <= i < |s| && s[i] == t[j];
    }
  }

  /** A row at or below every level of a sorted table can go in front of it. */
  lemma ConsSorted(h: Skill, t: seq<Skill>)
    requires SortedByLevel(t)
    requires forall j :: 0 <= j < |t| ==> h.level <= t[j].level
    ensures SortedByLevel([h] + t)
  {
    var r := [h] + t;
    forall i, j | 0 <= i < j < |r| ensures r[i].level <= r[j].level {
      if i > 0 {
        assert r[i] == t[i - 1] && r[j] == t[j - 1];
      }
    }
  }

  /**
   * When `x` goes behind the first row, the first row followed by the rest
   * with `x` inserted is sorted and holds the rows plus `x`.
   */
  lemma InsertBehind(x: Skill, s: seq<Skill>, rest: seq<Skill>)
    requires SortedByLevel(s) && s != [] && s[0].level < x.level
    requires SortedByLevel(rest) && multiset(rest) == multiset(s[1..]) + multiset{x}
    ensures SortedByLevel([s[0]] + rest)
    ensures multiset([s[0]] + rest) == multiset(s) + multiset{x}
  {
    assert s == [s[0]] + s[1..];
    LevelBoundPermuted(s[0].level, s[1..] + [x], rest);
    ConsSorted(s[0], rest);
  }

  /** Places `x` before the first row whose level is not below its own. */
  function Insert(x: Skill, s: seq<Skill>): (r: seq<Skill>)
    requires SortedByLevel(s)
    ensures SortedByLevel(r)
    ensures multiset(r) == multiset(s) + multiset{x}
  {
    if s == [] || x.level <= s[0].level then
      ConsSorted(x, s);
      [x] + s
    else
      var rest := Insert(x, s[1..]);
      InsertBehind(x, s, rest);
      [s[0]] + rest
  }

  /**
   * The row sort. Only sortedness and the permutation are stated: the library
   * sort it models is not stable, so no order among equal levels is promised.
   */
  function SortByLevel(frame: seq<Skill>): (r: seq<Skill>)
    ensures SortedByLevel(r)
    ensures multiset(r) == multiset(frame)
  {
    if frame == [] then []
    else
      assert frame == [frame[0]] + frame[1..];
      Insert(frame[0], SortByLevel(frame[1..]))
  }

  /** The same table as rows that have no boundary cells yet. */
  function Widen(frame: seq<Skill>): (rows: seq<Row>)
    ensures Entries(rows) == frame
    ensures forall i :: 0 <= i < |rows| ==> rows[i].bands == map[]
  {
    seq(|frame|, i requires 0 <= i < |frame| => Row(frame[i].name, frame[i].level, map[]))
  }

  // ---------------------------------------------------------------------------
  // Step 3: one constant column per boundary
  // ---------------------------------------------------------------------------

  /** `table[name] = value`: the same cell value in every row. */
  function SetColumn(rows: seq<Row>, name: string, value: Score): (r: seq<Row>)
    ensures |r| == |rows|
    ensures Entries(r) == Entries(rows)
    ensures forall i :: 0 <= i < |r| ==> r[i].bands == rows[i].bands[name := value]
  {
    seq(|rows|, i requires 0 <= i < |rows| => rows[i].(bands := rows[i].bands[name := value]))
  }

  /** The table after the boundary loop has set one column per boundary, in order. */
  function WithBoundaryColumns(rows: seq<Row>, bs: seq<Boundary>): (r: seq<Row>)
    requires DistinctNames(bs)
    ensures |r| == |rows|
    ensures Entries(r) == Entries(rows)
    ensures forall i, k :: 0 <= i < |r| && 0 <= k < |bs| ==>
              bs[k].name in r[i].bands && r[i].bands[bs[k].name] == bs[k].threshold
  {
    if bs == [] then rows
    else
      var init := bs[..|bs| - 1];
      var last := bs[|bs| - 1];
      assert forall k :: 0 <= k < |init| ==> init[k] == bs[k];
      SetColumn(WithBoundaryColumns(rows, init), last.name, last.threshold)
  }

  /** The boundary loop adds exactly the boundary names as new columns. */
  lemma {:induction false} BoundaryColumnKeys(rows: seq<Row>, bs: seq<Boundary>)
    requires DistinctNames(bs)
    ensures var r := WithBoundaryColumns(rows, bs);
      forall i :: 0 <= i < |r| ==> r[i].bands.Keys == rows[i].bands.Keys + BoundaryNames(bs)
  {
    if bs != [] {
      var init := bs[..|bs| - 1];
      var last := bs[|bs| - 1];
      assert forall k :: 0 <= k < |init| ==> init[k] == bs[k];
      assert BoundaryNames(bs) == BoundaryNames(init) + {last.name} by {
        assert last.name in BoundaryNames(bs);
      }
      BoundaryColumnKeys(rows, init);
    }
  }

  /**
   * The boundary loop, which adds one column per iteration to the sorted
   * table.
   */
  method AddBoundaryColumns(rows: seq<Row>, bs: seq<Boundary>) returns (table: seq<Row>)
    requires DistinctNames(bs)
    ensures table == WithBoundaryColumns(rows, bs)
  {
    table := rows;
    for k := 0 to |bs|
      invariant table == WithBoundaryColumns(rows, bs[..k])
    {
      assert bs[..k + 1][..k] == bs[..k];
      table := SetColumn(table, bs[k].name, bs[k].threshold);
    }
    assert bs[..|bs|] == bs;
  }

  // ---------------------------------------------------------------------------
  // Step 4: close the loop by repeating the first row
  // ---------------------------------------------------------------------------

  function CloseLoop(table: seq<Row>): (r: Result<seq<Row>>)
    ensures r.Err? <==> table == []
    ensures r.Ok? ==> |r.value| == |table| + 1 && r.value[..|table|] == table
    ensures r.Ok? ==> r.value[|table|] == r.value[0]
  {
    if table == [] then Err(EmptySkills) else Ok(table + [table[0]])
  }

  /** The whole preparation: sort the (skill, level) pairs, build the rows, add boundary columns, close. */
  function Prepare(skills: seq<Skill>, bs: seq<Boundary>): (r: Result<seq<Row>>)
    requires ValidBoundaries(bs)
    ensures r.Err? <==> skills == []
    ensures r.Ok? ==> |r.value| == |skills| + 1
    ensures r.Ok? ==> multiset(Entries(r.value[..|skills|])) == multiset(skills)
    ensures r.Ok? ==> SortedByLevel(Entries(r.value[..|skills|]))
    ensures r.Ok? ==> r.value[|skills|] == r.value[0]
    ensures r.Ok? ==> forall i :: 0 <= i < |r.value| ==> r.value[i].bands.Keys == BoundaryNames(bs)
    ensures r.Ok? ==> forall i, k :: 0 <= i < |r.value| && 0 <= k < |bs| ==>
              bs[k].name in r.value[i].bands && r.value[i].bands[bs[k].name] == bs[k].threshold
  {
    var sorted := SortByLevel(skills);
    assert |sorted| == |multiset(sorted)| == |skills|;
    var table := WithBoundaryColumns(Widen(sorted), bs);
    BoundaryColumnKeys(Widen(sorted), bs);
    CloseLoop(table)
  }

  /**
   * The closed table, read column by column: every boundary column repeats its
   * threshold in every row, and the `Skills` and `MyLevel` columns end where
   * they start.
   */
  lemma PreparedColumns(skills: seq<Skill>, bs: seq<Boundary>)
    requires ValidBoundaries(bs) && skills != []
    ensures var data := Prepare(skills, bs).value;
      && HasBandColumns(data, bs)
      && (forall k, i :: 0 <= k < |bs| && 0 <= i < |data| ==> Column(data, bs[k].name)[i] == bs[k].threshold)
      && Column(data, MyLevelColumn)[|skills|] == Column(data, MyLevelColumn)[0]
      && SkillColumn(data)[|skills|] == SkillColumn(data)[0]
  {
  }

  /** A single skill gives two identical rows. */
  lemma SingleSkill(s: Skill, bs: seq<Boundary>)
    requires ValidBoundaries(bs)
    ensures var data := Prepare([s], bs).value;
      && |data| == 2 && data[0] == data[1]
      && Entry(data[0]) == s
  {
    var data := Prepare([s], bs).value;
    assert multiset(Entries(data[..1])) == multiset{s};
    assert Entries(data[..1]) == [Entry(data[0])];
  }

  /**
   * The repeated row is a lowest-level skill of the input: its pair is one of
   * the input's, and no input level is below it.
   */
  lemma ClosingRowIsLowest(skills: seq<Skill>, bs: seq<Boundary>)
    requires ValidBoundaries(bs) && skills != []
    ensures var data := Prepare(skills, bs).value;
      && Entry(data[|skills|]) in skills
      && forall j :: 0 <= j < |skills| ==> data[|skills|].level <= skills[j].level
  {
    var n := |skills|;
    var data := Prepare(skills, bs).value;
    var es := Entries(data[..n]);
    assert es[0] == Entry(data[0]);
    assert es[0] in multiset(skills) by {
      assert es[0] in multiset(es);
    }
    forall j | 0 <= j < n ensures data[n].level <= skills[j].level {
      assert skills[j] in multiset(es) by {
        assert skills[j] in multiset(skills);
      }
      var i :| 0 <= i < n && es[i] == skills[j];
      assert es[0].level <= es[i].level;
    }
  }

  lemma SingleBoundaryNames(low: Boundary)
    ensures BoundaryNames([low]) == {low.name}
  {
    var bs := [low];
    assert bs[0].name in BoundaryNames(bs);
    forall x | x in BoundaryNames(bs) ensures x == low.name {
      var k :| 0 <= k < |bs| && bs[k].name == x;
    }
  }

  /** In a sorted arrangement of three pairs, the one above the other two is last. */
  lemma HighestOfThreeLast(es: seq<Skill>, a: Skill, b: Skill, c: Skill)
    requires multiset(es) == multiset{a, b, c} && SortedByLevel(es)
    requires b.level < a.level && c.level < a.level
    ensures |es| == 3 && es[2] == a && multiset{es[0], es[1]} == multiset{b, c}
  {
    assert |es| == |multiset(es)| == 3;
    assert es == [es[0], es[1]] + [es[2]];
    assert a in multiset(es);
    var i :| 0 <= i < 3 && es[i] == a;
    assert a.level <= es[2].level;
    var top := es[2];
    assert top in multiset{a, b, c} by {
      assert top in multiset(es);
    }
    assert top == a;
    assert multiset(es) == multiset{es[0], es[1]} + multiset{a};
  }

  /**
   * Three skills in any mapping order, two of them below the third (for
   * instance tied at the lowest level): the highest one comes last among the
   * skill rows, the other two fill the first two rows in some order, and the
   * closing row repeats whichever of them came first.
   */
  lemma ThreeSkillScenario(skills: seq<Skill>, a: Skill, b: Skill, c: Skill, low: Boundary)
    requires multiset(skills) == multiset{a, b, c}
    requires b.level < a.level && c.level < a.level
    requires low.name != SkillsColumn && low.name != MyLevelColumn
    ensures var data := Prepare(skills, [low]).value;
      && |data| == 4
      && Entry(data[2]) == a
      && multiset{Entry(data[0]), Entry(data[1])} == multiset{b, c}
      && data[3] == data[0]
      && forall i :: 0 <= i < 4 ==> data[i].bands.Keys == {low.name} && data[i].bands[low.name] == low.threshold
  {
    var bs := [low];
    SingleBoundaryNames(low);
    assert |skills| == |multiset(skills)| == 3;
    var data := Prepare(skills, bs).value;
    HighestOfThreeLast(Entries(data[..3]), a, b, c);
  }

  // ---------------------------------------------------------------------------
  // Traces
  // ---------------------------------------------------------------------------

  datatype Fill = NoFill | ToNext

  /** A style bundle: fill mode, opacity and line width. */
  datatype TraceOptions = TraceOptions(fill: Fill, opacity: real, lineWidth: nat)

  const ProficiencyTraceOptions: TraceOptions := TraceOptions(ToNext, 0.5, 1)
  const MyLevelTraceOptions: TraceOptions := TraceOptions(NoFill, 1.0, 4)

  /** A polar line trace: radius and angle label per point. */
  datatype Trace = Trace(name: string, radius: seq<Score>, theta: seq<string>, options: TraceOptions)

  /** The style rule: only the `MyLevel` trace gets the emphasised, unfilled bundle. */
  function OptionsFor(name: string): (o: TraceOptions)
    ensures o.fill == NoFill <==> name == MyLevelColumn
    ensures o.lineWidth == (if name == MyLevelColumn then 4 else 1)
  {
    if name != MyLevelColumn then ProficiencyTraceOptions else MyLevelTraceOptions
  }

  /** The names traced: the boundaries in insertion order, then `MyLevel`. */
  function TraceNames(bs: seq<Boundary>): (names: seq<string>)
    ensures |names| == |bs| + 1 && names[|bs|] == MyLevelColumn
    ensures forall k :: 0 <= k < |bs| ==> names[k] == bs[k].name
    ensures ValidBoundaries(bs) ==> forall k :: 0 <= k < |names| ==> (names[k] == MyLevelColumn <==> k == |bs|)
    ensures ValidBoundaries(bs) ==> forall i, j :: 0 <= i < j < |names| ==> names[i] != names[j]
  {
    seq(|bs|, k requires 0 <= k < |bs| => bs[k].name) + [MyLevelColumn]
  }

  /** The three proficiency bands the chart draws. */
  const ChartBoundaries: seq<Boundary> :=
    [Boundary("Basic", 4.0), Boundary("Full", 7.5), Boundary("Advanced", 10.0)]

  /** The chart's bands are usable boundaries, and its traces come in this order. */
  lemma ChartTraceOrder()
    ensures ValidBoundaries(ChartBoundaries)
    ensures TraceNames(ChartBoundaries) == ["Basic", "Full", "Advanced", "MyLevel"]
  {
    var bs := ChartBoundaries;
    assert bs[0].name[0] == 'B' && bs[1].name[0] == 'F' && bs[2].name[0] == 'A';
  }

  /** A trace that ends where it starts draws a closed polygon. */
  predicate Closed(t: Trace) {
    |t.radius| == |t.theta| && |t.radius| > 0
    && t.radius[|t.radius| - 1] == t.radius[0]
    && t.theta[|t.theta| - 1] == t.theta[0]
  }

  /**
   * The trace loop: one trace per name of TraceNames, in order, each drawing
   * its own column against the `Skills` column. A table that ends with its
   * first row gives closed traces only.
   */
  method PlotTraces(data: seq<Row>, bs: seq<Boundary>) returns (traces: seq<Trace>)
    requires ValidBoundaries(bs)
    requires HasBandColumns(data, bs)
    ensures |traces| == |bs| + 1
    ensures forall k :: 0 <= k < |bs| ==>
              traces[k] == Trace(bs[k].name, Column(data, bs[k].name), SkillColumn(data), ProficiencyTraceOptions)
    ensures traces[|bs|] == Trace(MyLevelColumn, Column(data, MyLevelColumn), SkillColumn(data), MyLevelTraceOptions)
    ensures forall k :: 0 <= k < |traces| ==>
              traces[k].name == TraceNames(bs)[k] && traces[k].options == OptionsFor(traces[k].name)
    ensures forall k :: 0 <= k < |traces| ==> |traces[k].radius| == |data|
    ensures |data| > 0 && data[|data| - 1] == data[0] ==> forall k :: 0 <= k < |traces| ==> Closed(traces[k])
  {
    var names := TraceNames(bs);
    traces := [];
    for i := 0 to |names|
      invariant |traces| == i
      invariant forall k :: 0 <= k < i && k < |bs| ==>
                  traces[k] == Trace(bs[k].name, Column(data, bs[k].name), SkillColumn(data), ProficiencyTraceOptions)
      invariant i == |bs| + 1 ==>
                  traces[|bs|] == Trace(MyLevelColumn, Column(data, MyLevelColumn), SkillColumn(data), MyLevelTraceOptions)
    {
      var name := names[i];
      var options := OptionsFor(name);
      traces := traces + [Trace(name, Column(data, name), SkillColumn(data), options)];
    }
    forall k | 0 <= k < |traces|
      ensures traces[k] == Trace(names[k], Column(data, names[k]), SkillColumn(data), OptionsFor(names[k]))
    {
    }
  }

  /**
   * The script as a whole: prepare the table (the boundary columns added by
   * the loop), then add the traces. Every trace of the chart is closed.
   */
  method RadarTraces(skills: seq<Skill>, bs: seq<Boundary>) returns (r: Result<seq<Trace>>)
    requires ValidBoundaries(bs)
    ensures r.Err? <==> skills == []
    ensures r.Ok? ==> |r.value| == |bs| + 1 && TraceNames(bs)[|bs|] == r.value[|bs|].name
    ensures r.Ok? ==> forall k :: 0 <= k < |r.value| ==>
              r.value[k].name == TraceNames(bs)[k] && r.value[k].options == OptionsFor(r.value[k].name)
    ensures r.Ok? ==> forall k :: 0 <= k < |r.value| ==> |r.value[k].radius| == |skills| + 1 && Closed(r.value[k])
    ensures r.Ok? ==> forall k, i :: 0 <= k < |bs| && 0 <= i <= |skills| ==> r.value[k].radius[i] == bs[k].threshold
    ensures r.Ok? ==> Prepare(skills, bs).Ok?
    ensures r.Ok? ==> r.value[|bs|].radius == Column(Prepare(skills, bs).value, MyLevelColumn)
    ensures r.Ok? ==> forall k :: 0 <= k < |r.value| ==> r.value[k].theta == SkillColumn(Prepare(skills, bs).value)
  {
    var sorted := SortByLevel(skills);
    var table := AddBoundaryColumns(Widen(sorted), bs);
    var closed := CloseLoop(table);
    assert closed == Prepare(skills, bs);
    if closed.Err? {
      return Err(closed.error);
    }
    var data := closed.value;
    PreparedColumns(skills, bs);
    var traces := PlotTraces(data, bs);
    r := Ok(traces);
  }
}
