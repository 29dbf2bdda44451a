/**
  The data behind the radar chart that compares the target with one
  recommendation: both rows are projected onto six headline categories and
  each series repeats its first point at the end so the polygon closes. The
  chart object itself (colours, fill, axis range, layout) is not modelled.
 */
module Radar {
  import opened Players
  import Scout

  /** The six headline categories, in the order they are drawn. */
  const RadarCategories: seq<string> := ["pace", "shooting", "passing", "dribbling", "defending", "physic"]

  /** One series of the chart: legend name, radial values and angular labels. */
  datatype Trace = Trace(name: string, r: seq<int>, theta: seq<string>)

  /** The two series: the target in the first, the recommendation in the second. */
  datatype Chart = Chart(target: Trace, candidate: Trace)

  /** `xs += xs[:1]`: append the first element, so the last point meets the first; an empty list stays empty. */
  function Close<T>(s: seq<T>): (r: seq<T>)
    ensures s == [] ==> r == []
    ensures s != [] ==> |r| == |s| + 1 && r[..|s|] == s && r[|s|] == r[0]
  {
    s + s[..if s == [] then 0 else 1]
  }

  /** `frame[categories].values.flatten().tolist()`: the six category values of every row, row after row. */
  function Flatten(rows: seq<Player>): (r: seq<int>)
    requires forall p <- rows :: HasColumns(p, RadarCategories)
    ensures |r| == 6 * |rows|
    ensures rows != [] ==> r[..6] == Project(rows[0], RadarCategories)
  {
    if rows == [] then []
    else
      var head := Project(rows[0], RadarCategories);
      var r := head + Flatten(rows[1..]);
      assert r[..6] == head;
      r
  }

  /**
    Row-major layout of the flattened values: the value at `6 * i + j` is
    row `i`'s value in category `j`.
   */
  lemma {:induction false} FlattenAt(rows: seq<Player>, i: nat, j: nat)
    requires forall p <- rows :: HasColumns(p, RadarCategories)
    requires i < |rows| && j < 6
    ensures 6 * i + j < |Flatten(rows)|
    ensures RadarCategories[j] in rows[i].skills
    ensures Flatten(rows)[6 * i + j] == rows[i].skills[RadarCategories[j]]
  {
    assert rows[i] in rows;
    if i > 0 {
      var rest := rows[1..];
      assert forall p <- rest :: p in rows;
      FlattenAt(rest, i - 1, j);
      FlattenShift(rows, 6 * (i - 1) + j);
      assert rest[i - 1] == rows[i];
      assert 6 * i + j == 6 + (6 * (i - 1) + j);
    } else {
      assert Flatten(rows)[j] == Flatten(rows)[..6][j];
    }
  }

  /** Past the first row's six values, a flattened frame continues with the flattened remaining rows. */
  lemma FlattenShift(rows: seq<Player>, k: nat)
    requires forall p <- rows :: HasColumns(p, RadarCategories)
    requires rows != [] && k < 6 * (|rows| - 1)
    ensures 6 + k < |Flatten(rows)|
    ensures Flatten(rows)[6 + k] == Flatten(rows[1..])[k]
  {
    var head := Project(rows[0], RadarCategories);
    assert Flatten(rows) == head + Flatten(rows[1..]);
  }


  /**
    `plot_radar_chart` as written: each argument is a frame of rows and all of
    its rows are flattened into one series; the legend takes the first row's name.
   */
  function RadarChart(player1: seq<Player>, player2: seq<Player>): (c: Chart)
    requires player1 != [] && player2 != []
    requires forall p <- player1 :: HasColumns(p, RadarCategories)
    requires forall p <- player2 :: HasColumns(p, RadarCategories)
    ensures c.target.theta == c.candidate.theta == RadarCategories + ["pace"]
    ensures |c.target.r| == 6 * |player1| + 1 && |c.candidate.r| == 6 * |player2| + 1
    ensures c.target.r[|c.target.r| - 1] == c.target.r[0]
    ensures c.candidate.r[|c.candidate.r| - 1] == c.candidate.r[0]
    ensures c.target.r[..6] == Project(player1[0], RadarCategories)
    ensures c.candidate.r[..6] == Project(player2[0], RadarCategories)
    ensures c.target.name == player1[0].shortName && c.candidate.name == player2[0].shortName
    ensures c.target.r == Close(Flatten(player1))
    ensures c.candidate.r == Close(Flatten(player2))
  {
    var val1 := Flatten(player1);
    var val2 := Flatten(player2);
    assert Close(val1)[..6] == val1[..6];
    assert Close(val2)[..6] == val2[..6];
    var theta := Close(RadarCategories);
    Chart(Trace(player1[0].shortName, Close(val1), theta),
          Trace(player2[0].shortName, Close(val2), theta))
  }

  /**
    When two table rows carry the selected name, the target frame (the rows
    with that name, which the step passes to the chart) has at least two
    rows: its series gets 6 values per row plus the closing one, 13 or more,
    against 7 category labels, and value 6, drawn against the closing "pace"
    label, is the second namesake's pace.
   */
  lemma NamesakeTargetMisalignsRadar(corpus: seq<Player>, name: string, i: nat, j: nat, c: Player)
    requires forall p <- corpus :: HasColumns(p, RadarCategories)
    requires i < j < |corpus| && corpus[i].shortName == name && corpus[j].shortName == name
    requires HasColumns(c, RadarCategories)
    ensures var target := Scout.RowsNamed(corpus, name);
            |target| >= 2 &&
            (forall p <- target :: HasColumns(p, RadarCategories)) &&
            var chart := RadarChart(target, [c]);
            |chart.target.r| == 6 * |target| + 1 && |chart.target.r| >= 13 &&
            |chart.target.theta| == 7 && |chart.candidate.r| == 7 &&
            chart.target.r[6] == target[1].skills["pace"]
  {
    var target := Scout.RowsNamed(corpus, name);
    Scout.NamesakesFillTarget(corpus, name, i, j);
    FlattenAt(target, 1, 0);
  }

  /** The chart drawn from the first target row only, the row the neighbour query is built from. */
  function RadarChartFirstRow(player1: seq<Player>, player2: seq<Player>): (c: Chart)
    requires player1 != [] && player2 != []
    requires forall p <- player1 :: HasColumns(p, RadarCategories)
    requires forall p <- player2 :: HasColumns(p, RadarCategories)
    ensures |c.target.r| == |c.target.theta| == 7
    ensures |c.candidate.r| == |c.candidate.theta| == 7
    ensures c.target.name == player1[0].shortName && c.candidate.name == player2[0].shortName
  {
    assert player1[0] in player1;
    RadarChart([player1[0]], player2[..1])
  }

  /** The radar categories are the first six columns of the feature schema. */
  lemma RadarCategoriesLeadSchema()
    ensures RadarCategories == FeatureCols[..6]
  {
  }

  /**
    Each closed series has seven points, ends where it starts, and its first
    six points are the row's pace, shooting, passing, dribbling, defending and
    physic values, which are also the first six entries of its feature vector.
   */
  lemma ClosedSeriesShape(p: Player)
    requires Conforms(p)
    ensures HasColumns(p, RadarCategories)
    ensures var s := Close(Project(p, RadarCategories));
            |s| == 7 && s[6] == s[0] &&
            s[..6] == FeatureVector(p)[..6] &&
            s[0] == p.skills["pace"] && s[1] == p.skills["shooting"] && s[2] == p.skills["passing"] &&
            s[3] == p.skills["dribbling"] && s[4] == p.skills["defending"] && s[5] == p.skills["physic"]
  {
  }

  /** With the first-row chart, both series have the closed shape of their rows. */
  lemma FirstRowChartIsClosed(player1: seq<Player>, player2: seq<Player>)
    requires player1 != [] && player2 != []
    requires forall p <- player1 :: Conforms(p)
    requires forall p <- player2 :: Conforms(p)
    ensures forall p <- player1 + player2 :: HasColumns(p, RadarCategories)
    ensures var c := RadarChartFirstRow(player1, player2);
            c.target.r == Close(Project(player1[0], RadarCategories)) &&
            c.candidate.r == Close(Project(player2[0], RadarCategories)) &&
            c.target.theta == c.candidate.theta == Close(RadarCategories) &&
            c.target.r[6] == c.target.r[0] && c.candidate.r[6] == c.candidate.r[0] &&
            c.target.r[..6] == FeatureVector(player1[0])[..6] &&
            c.candidate.r[..6] == FeatureVector(player2[0])[..6]
  {
  }
}
