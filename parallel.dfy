/**
 * `get_parallel_data`: the rows of the player's team, one entry per row with
 * a value for every metric of the metric map. `Position` goes through
 * `get_primary_position`, `Value` through `convert_value_to_millions`; the
 * database variant passes every other value through, the spreadsheet variant
 * coerces it with `float()` and 0.0 on failure.
 */
module Parallel {
  import opened Wrappers
  import opened Decimal
  import opened Cells
  import opened Parsers
  import opened Frames
  import opened Radar
  import opened Text

  /** The axis domain the response declares for `Position`. */
  const PositionDomain: seq<string> := ["GK", "DF", "MF", "FW"]

  /** One entry of `data`: the player and the metric values, in metric order. */
  datatype PlayerValues<V> = PlayerValues(player: string, values: Dict<V>)

  /** The response: `players`, `metrics`, `data` and the `Position` domain. */
  datatype Parallel<V> = Parallel(players: seq<string>, metrics: seq<string>, data: seq<PlayerValues<V>>, domain: seq<string>)

  /** The player names of the team rows, in order. */
  function Players(rows: seq<Record>): seq<string> {
    seq(|rows|, i requires 0 <= i < |rows| => rows[i].player)
  }

  // ---------------------------------------------------------------------------
  // Database variant.

  /**
   * `convert_value_to_millions` on a database cell: `str(None)` is "None",
   * which does not parse (0.0); a number's numeral has no 'm' or 'k' and is
   * read as units; text goes through the parser. A number is scaled to
   * millions, and a missing value or text without a digit is worth nothing.
   */
  function MoneyPg(c: Cell): (r: real)
    ensures c.Num? ==> r * 1000000.0 == c.value
    ensures c.Null? || (c.Text? && !HasDigit(c.text)) ==> r == 0.0
  {
    match c
    case Null => 0.0
    case Num(x) => x / 1000000.0
    case Text(t) => MillionsPg(t)
  }

  /**
   * One value of the database transform: a metric the row lacks is None (the
   * KeyError is caught before any special handling); otherwise `Position` is
   * the code of the primary position, `Value` the money in millions, and any
   * other metric the cell as fetched.
   */
  function ValuePg(row: Row, metric: string): (r: Cell)
    ensures metric !in row ==> r == Null
    ensures metric in row && metric == "Position" ==>
              r == Text(Code(PrimaryPosition(row[metric]))) && (r.text in PositionDomain || r.text == "NA")
    ensures metric in row && metric == "Value" ==> r == Num(MoneyPg(row[metric]))
    ensures metric in row && metric != "Position" && metric != "Value" ==> r == row[metric]
  {
    if metric !in row then Null
    else if metric == "Position" then
      CodeInDomain(PrimaryPosition(row[metric]));
      Text(Code(PrimaryPosition(row[metric])))
    else if metric == "Value" then Num(MoneyPg(row[metric]))
    else row[metric]
  }

  /** The values of one row, one per metric, in metric order. */
  function RowValuesPg(row: Row, metrics: seq<string>): Dict<Cell> {
    seq(|metrics|, j requires 0 <= j < |metrics| => (metrics[j], ValuePg(row, metrics[j])))
  }

  /** The transformed rows: one entry per row, in row order, each with one value per metric in metric order. */
  function DataPg(rows: seq<Record>, metrics: seq<string>): (r: seq<PlayerValues<Cell>>)
    ensures |r| == |rows|
    ensures forall i | 0 <= i < |r| :: r[i].player == rows[i].player && Keys(r[i].values) == metrics && |r[i].values| == |metrics|
    ensures forall i, j | 0 <= i < |r| && 0 <= j < |metrics| :: r[i].values[j].1 == ValuePg(rows[i].cells, metrics[j])
  {
    var r := seq(|rows|, i requires 0 <= i < |rows| => PlayerValues(rows[i].player, RowValuesPg(rows[i].cells, metrics)));
    assert forall i | 0 <= i < |r| :: Keys(r[i].values) == metrics by {
      forall i | 0 <= i < |r| ensures Keys(r[i].values) == metrics {
        assert |Keys(r[i].values)| == |metrics|;
      }
    }
    r
  }

  /** The transform loop of the database route: one entry per row, one value per metric. */
  method TransformPg(rows: seq<Record>, metrics: seq<string>) returns (data: seq<PlayerValues<Cell>>)
    ensures data == DataPg(rows, metrics)
  {
    data := [];
    var i := 0;
    while i < |rows|
      invariant 0 <= i <= |rows|
      invariant data == DataPg(rows[..i], metrics)
    {
      var row := rows[i];
      var values: Dict<Cell> := [];
      var j := 0;
      while j < |metrics|
        invariant 0 <= j <= |metrics|
        invariant values == RowValuesPg(row.cells, metrics[..j])
      {
        values := values + [(metrics[j], ValuePg(row.cells, metrics[j]))];
        j := j + 1;
        assert metrics[..j] == metrics[..j - 1] + [metrics[j - 1]];
      }
      assert metrics[..j] == metrics;
      data := data + [PlayerValues(row.player, values)];
      i := i + 1;
      assert rows[..i] == rows[..i - 1] + [rows[i - 1]];
    }
    assert rows[..i] == rows;
  }

  /**
   * `WHERE pi.team = %s`: a NULL team compares equal to no row (SQL's
   * `= NULL` is never true); otherwise `teamRows` stands for the query's result.
   */
  function TeamQuery(t: Cell, teamRows: Cell -> seq<Record>): (r: seq<Record>)
    ensures t == Null ==> r == []
    ensures t != Null ==> r == teamRows(t)
  {
    if t == Null then [] else teamRows(t)
  }

  /**
   * The database route: "Player not found" without a team, "No data found"
   * when the team query returns no row, else the transformed rows: an entry
   * per team row, in row order, each with one value per metric in metric order.
   */
  function ParallelPg(team: Option<Cell>, teamRows: Cell -> seq<Record>, metrics: Dict<string>): (r: Result<Parallel<Cell>, Error>)
    ensures team.None? ==> r == Failure(NotFound)
    ensures r.Failure? ==> r.error == NotFound || r.error == NoData
    ensures r.Success? ==>
              |r.value.data| == |r.value.players| > 0 && r.value.metrics == Keys(metrics) && r.value.domain == PositionDomain &&
              forall i | 0 <= i < |r.value.data| :: r.value.data[i].player == r.value.players[i] && Keys(r.value.data[i].values) == r.value.metrics
    ensures r.Success? ==>
              var rows := TeamQuery(team.value, teamRows);
              r.value.players == Players(rows) &&
              forall i, j | 0 <= i < |rows| && 0 <= j < |metrics| ::
                |r.value.data[i].values| == |metrics| && r.value.data[i].values[j].1 == ValuePg(rows[i].cells, metrics[j].0)
  {
    match team
    case None => Failure(NotFound)
    case Some(t) =>
      var rows := TeamQuery(t, teamRows);
      if rows == [] then Failure(NoData)
      else Success(Parallel(Players(rows), Keys(metrics), DataPg(rows, Keys(metrics)), PositionDomain))
  }

  method ParallelDataPg(team: Option<Cell>, teamRows: Cell -> seq<Record>, metrics: Dict<string>)
    returns (r: Result<Parallel<Cell>, Error>)
    ensures r == ParallelPg(team, teamRows, metrics)
  {
    if team.None? {
      return Failure(NotFound);
    }
    var rows := TeamQuery(team.value, teamRows);
    if rows == [] {
      return Failure(NoData);
    }
    var data := TransformPg(rows, Keys(metrics));
    return Success(Parallel(Players(rows), Keys(metrics), data, PositionDomain));
  }

  /** Every code is one of the domain's or "NA". */
  lemma CodeInDomain(p: Position)
    ensures Code(p) in PositionDomain || Code(p) == "NA"
  {
    match p
    case GK => assert PositionDomain[0] == "GK";
    case DF => assert PositionDomain[1] == "DF";
    case MF => assert PositionDomain[2] == "MF";
    case FW => assert PositionDomain[3] == "FW";
    case NA =>
  }

  /**
   * The money of a database cell is that of its text `str(value)`: a number x
   * reads as any decimal numeral of x would (`str` of a number has no 'm' or
   * 'k'), in particular as `str(n)` of a whole number n; a missing value reads
   * as the text "None" would.
   */
  lemma MoneyPgAsText(d: string, x: real, n: nat)
    requires ParseNumber(d) == Some(x)
    ensures MoneyPg(Num(x)) == MillionsPg(d)
    ensures MoneyPg(Num(n as real)) == MillionsPg(Render(n))
    ensures MoneyPg(Null) == MillionsPg("None")
  {
    PgBare(d, x);
    MillionsOfRender(n);
    MillionsPgOfNone("None");
  }

  /**
   * The route fails only for a missing player or an empty team; a player
   * whose team is NULL gets "No data found", as the query matches no row.
   */
  lemma ParallelPgFails(team: Option<Cell>, teamRows: Cell -> seq<Record>, metrics: Dict<string>)
    ensures ParallelPg(team, teamRows, metrics).Failure? <==> team.None? || TeamQuery(team.value, teamRows) == []
    ensures team.None? ==> ParallelPg(team, teamRows, metrics) == Failure(NotFound)
    ensures team == Some(Null) ==> ParallelPg(team, teamRows, metrics) == Failure(NoData)
  {
  }

  // ---------------------------------------------------------------------------
  // Spreadsheet variant.

  /** A value of the spreadsheet transform: a position code or a float. */
  datatype ValueXl = Label(code: string) | Amount(amount: Float)

  /** pandas' `==`: equal numbers or equal text; a missing value equals nothing. */
  predicate SameCell(a: Cell, b: Cell) {
    a != Null && a == b
  }

  /** `df[df['team'] == team]`: the rows of the team, in order. */
  function TeamRows(rows: seq<Record>, team: Cell): (r: seq<Record>)
    ensures forall i | 0 <= i < |r| :: r[i] in rows && SameCell(Get(r[i].cells, "team"), team)
    ensures forall i | 0 <= i < |rows| :: SameCell(Get(rows[i].cells, "team"), team) ==> rows[i] in r
    ensures team == Null ==> r == []
  {
    if rows == [] then []
    else
      var p := rows[..|rows| - 1];
      var x := rows[|rows| - 1];
      assert forall i | 0 <= i < |p| :: p[i] == rows[i];
      if SameCell(Get(x.cells, "team"), team) then TeamRows(p, team) + [x] else TeamRows(p, team)
  }

  /**
   * The selection over two runs of rows is the first run's followed by the
   * second's: rows keep their order and each matching row appears once.
   */
  lemma {:induction false} TeamRowsAppend(a: seq<Record>, b: seq<Record>, team: Cell)
    ensures TeamRows(a + b, team) == TeamRows(a, team) + TeamRows(b, team)
  {
    if b == [] {
      assert a + b == a;
    } else {
      var q := b[..|b| - 1];
      assert (a + b)[..|a + b| - 1] == a + q;
      assert (a + b)[|a + b| - 1] == b[|b| - 1];
      TeamRowsAppend(a, q, team);
    }
  }

  /** One row is kept exactly when its `team` cell equals the team. */
  lemma TeamRowsOne(x: Record, team: Cell)
    ensures TeamRows([x], team) == if SameCell(Get(x.cells, "team"), team) then [x] else []
  {
    assert [x][..0] == [];
  }

  /**
   * `convert_value_to_millions` on a sheet cell: `str(nan)` is "nan", which
   * Python reads back as NaN; a number's numeral is read as units; text goes
   * through the case-sensitive parser. Only a missing value gives NaN; a
   * number is scaled to millions, and text without a digit is worth nothing.
   */
  function MoneyXl(c: Cell): (r: Float)
    ensures r.NaN? <==> c.Null?
    ensures c.Num? ==> r.value * 1000000.0 == c.value
    ensures c.Text? && !HasDigit(c.text) ==> r == Real(0.0)
  {
    match c
    case Null => NaN
    case Num(x) => Real(x / 1000000.0)
    case Text(t) => Real(MillionsXl(t))
  }

  /**
   * `float(value)` with 0.0 on TypeError or ValueError: it agrees with plain
   * `float()` wherever that succeeds (NaN stays NaN), and is 0.0 where it raises.
   */
  function FloatOrZero(c: Cell): (r: Float)
    ensures ToFloat(c).Success? ==> r == ToFloat(c).value
    ensures ToFloat(c).Failure? ==> r == Real(0.0)
  {
    match c
    case Null => NaN
    case Num(x) => Real(x)
    case Text(t) => Real(ParseFloat(t).GetOr(0.0))
  }

  /**
   * One value: `Position` always comes from the row's `pos_` cell, whatever
   * column the metric names, and is a code of the domain or "NA"; `Value` is
   * money; every other metric is a float, NaN exactly when the cell is missing.
   */
  function ValueOfXl(row: Record, metric: (string, string)): (r: ValueXl)
    ensures metric.0 == "Position" ==>
              r == Label(Code(PrimaryPosition(Get(row.cells, "pos_")))) && (r.code in PositionDomain || r.code == "NA")
    ensures metric.0 != "Position" ==> r.Amount? && (r.amount.NaN? <==> Get(row.cells, metric.1) == Null)
    ensures metric.0 == "Value" ==> r == Amount(MoneyXl(Get(row.cells, metric.1)))
    ensures metric.0 != "Position" && metric.0 != "Value" ==> r == Amount(FloatOrZero(Get(row.cells, metric.1)))
  {
    var (name, column) := metric;
    if name == "Position" then
      CodeInDomain(PrimaryPosition(Get(row.cells, "pos_")));
      Label(Code(PrimaryPosition(Get(row.cells, "pos_"))))
    else if name == "Value" then Amount(MoneyXl(Get(row.cells, column)))
    else Amount(FloatOrZero(Get(row.cells, column)))
  }

  function RowValuesXl(row: Record, metrics: Dict<string>): Dict<ValueXl> {
    seq(|metrics|, j requires 0 <= j < |metrics| => (metrics[j].0, ValueOfXl(row, metrics[j])))
  }

  /** The transformed rows: one entry per row, in row order, each keyed by the metrics' names in order. */
  function DataXl(rows: seq<Record>, metrics: Dict<string>): (r: seq<PlayerValues<ValueXl>>)
    ensures |r| == |rows|
    ensures forall i | 0 <= i < |r| :: r[i].player == rows[i].player && Keys(r[i].values) == Keys(metrics) && |r[i].values| == |metrics|
    ensures forall i, j | 0 <= i < |r| && 0 <= j < |metrics| :: r[i].values[j].1 == ValueOfXl(rows[i], metrics[j])
  {
    var r := seq(|rows|, i requires 0 <= i < |rows| => PlayerValues(rows[i].player, RowValuesXl(rows[i], metrics)));
    assert forall i | 0 <= i < |r| :: Keys(r[i].values) == Keys(metrics) by {
      forall i | 0 <= i < |r| ensures Keys(r[i].values) == Keys(metrics) {
        assert |Keys(r[i].values)| == |metrics|;
      }
    }
    r
  }

  /** The first column of the metric map that the sheet lacks. */
  function FirstMissing(metrics: Dict<string>, columns: seq<string>): (r: Option<string>)
    ensures r.None? <==> forall k | 0 <= k < |metrics| :: metrics[k].1 in columns
    ensures r.Some? ==> exists k | 0 <= k < |metrics| :: metrics[k].1 == r.value && r.value !in columns &&
                          forall j | 0 <= j < k :: metrics[j].1 in columns
  {
    if metrics == [] then None
    else if metrics[0].1 !in columns then Some(metrics[0].1)
    else
      var r := FirstMissing(metrics[1..], columns);
      assert forall k | 1 <= k < |metrics| :: metrics[k] == metrics[1..][k - 1];
      r
  }

  /** The first missing column is the one at the first position whose column is missing. */
  lemma {:induction false} FirstMissingAt(metrics: Dict<string>, columns: seq<string>, j: nat)
    requires j < |metrics| && metrics[j].1 !in columns && forall m | 0 <= m < j :: metrics[m].1 in columns
    ensures FirstMissing(metrics, columns) == Some(metrics[j].1)
  {
    if j > 0 {
      assert forall m | 0 <= m < j - 1 :: metrics[1..][m] == metrics[m + 1];
      FirstMissingAt(metrics[1..], columns, j - 1);
    }
  }

  /**
   * The transform loop over the team rows: `player[column]` raises KeyError
   * for the first metric whose column the sheet lacks, as soon as there is a
   * row to read it from; otherwise one entry per row, in row order.
   */
  function TransformXlSpec(rows: seq<Record>, metrics: Dict<string>, columns: seq<string>): (r: Result<seq<PlayerValues<ValueXl>>, Error>)
    ensures r.Failure? <==> rows != [] && exists k | 0 <= k < |metrics| :: metrics[k].1 !in columns
    ensures r.Failure? ==> exists k | 0 <= k < |metrics| :: r.error == KeyError(metrics[k].1) && metrics[k].1 !in columns
    ensures r.Success? ==>
              |r.value| == |rows| &&
              (forall i | 0 <= i < |rows| ::
                 r.value[i].player == rows[i].player && Keys(r.value[i].values) == Keys(metrics) && |r.value[i].values| == |metrics|) &&
              forall i, j | 0 <= i < |rows| && 0 <= j < |metrics| :: r.value[i].values[j].1 == ValueOfXl(rows[i], metrics[j])
  {
    if rows != [] && FirstMissing(metrics, columns).Some? then Failure(KeyError(FirstMissing(metrics, columns).value))
    else Success(DataXl(rows, metrics))
  }

  /** The inner loop over the metrics for one row: KeyError at the first column the sheet lacks. */
  method RowXl(row: Record, metrics: Dict<string>, columns: seq<string>) returns (r: Result<Dict<ValueXl>, Error>)
    ensures FirstMissing(metrics, columns).None? ==> r == Success(RowValuesXl(row, metrics))
    ensures FirstMissing(metrics, columns).Some? ==> r == Failure(KeyError(FirstMissing(metrics, columns).value))
  {
    var values: Dict<ValueXl> := [];
    var j := 0;
    while j < |metrics|
      invariant 0 <= j <= |metrics|
      invariant forall m | 0 <= m < j :: metrics[m].1 in columns
      invariant values == RowValuesXl(row, metrics[..j])
    {
      if metrics[j].1 !in columns {
        FirstMissingAt(metrics, columns, j);
        return Failure(KeyError(metrics[j].1));
      }
      values := values + [(metrics[j].0, ValueOfXl(row, metrics[j]))];
      j := j + 1;
      assert metrics[..j] == metrics[..j - 1] + [metrics[j - 1]];
    }
    assert metrics[..j] == metrics;
    return Success(values);
  }

  method TransformXl(rows: seq<Record>, metrics: Dict<string>, columns: seq<string>)
    returns (r: Result<seq<PlayerValues<ValueXl>>, Error>)
    ensures r == TransformXlSpec(rows, metrics, columns)
  {
    var data: seq<PlayerValues<ValueXl>> := [];
    var i := 0;
    while i < |rows|
      invariant 0 <= i <= |rows|
      invariant i > 0 ==> FirstMissing(metrics, columns).None?
      invariant data == DataXl(rows[..i], metrics)
    {
      var row := rows[i];
      var values := RowXl(row, metrics, columns);
      if values.Failure? {
        return Failure(values.error);
      }
      data := data + [PlayerValues(row.player, values.value)];
      i := i + 1;
      assert rows[..i] == rows[..i - 1] + [rows[i - 1]];
    }
    assert rows[..i] == rows;
    return Success(data);
  }

  /** The column the route adds to the team's rows before the transform. */
  const Category := "position_category"

  /**
   * `team_players['position_category'] = team_players['pos_'].apply(get_primary_position)`:
   * every team row gains (or has overwritten) that column, holding the code
   * of its primary position; the rows, their players and their other cells
   * stay as they were.
   */
  function WithCategory(rows: seq<Record>): (r: seq<Record>)
    ensures |r| == |rows| && Players(r) == Players(rows)
    ensures forall i | 0 <= i < |r| :: Get(r[i].cells, Category) == Text(Code(PrimaryPosition(Get(rows[i].cells, "pos_"))))
    ensures forall i, k | 0 <= i < |r| && k != Category :: Get(r[i].cells, k) == Get(rows[i].cells, k)
  {
    var r := seq(|rows|, i requires 0 <= i < |rows| =>
      Record(rows[i].player, rows[i].cells[Category := Text(Code(PrimaryPosition(Get(rows[i].cells, "pos_"))))]));
    assert Players(r) == Players(rows);
    r
  }

  /**
   * The spreadsheet route: KeyError without a `team` column, IndexError
   * without a row for the player, KeyError without a `pos_` column, then the
   * transform of the team's rows with the added column: an entry per team
   * row, in row order, each with one value per metric in metric order.
   */
  function ParallelXl(f: Frame, name: string, metrics: Dict<string>): (r: Result<Parallel<ValueXl>, Error>)
    ensures "team" !in f.columns ==> r == Failure(KeyError("team"))
    ensures "team" in f.columns && FirstRowOf(f.rows, name).None? ==> r == Failure(IndexError)
    ensures "team" in f.columns && FirstRowOf(f.rows, name).Some? && "pos_" !in f.columns ==> r == Failure(KeyError("pos_"))
    ensures r.Failure? ==>
              r.error == KeyError("team") || r.error == IndexError || r.error == KeyError("pos_") ||
              exists k | 0 <= k < |metrics| :: r.error == KeyError(metrics[k].1)
    ensures r.Success? ==>
              |r.value.data| == |r.value.players| && r.value.metrics == Keys(metrics) && r.value.domain == PositionDomain &&
              forall i | 0 <= i < |r.value.data| :: r.value.data[i].player == r.value.players[i] && Keys(r.value.data[i].values) == r.value.metrics
    ensures r.Success? ==>
              var rows := WithCategory(TeamRows(f.rows, Get(FirstRowOf(f.rows, name).value.cells, "team")));
              r.value.players == Players(rows) &&
              forall i, j | 0 <= i < |rows| && 0 <= j < |metrics| ::
                |r.value.data[i].values| == |metrics| && r.value.data[i].values[j].1 == ValueOfXl(rows[i], metrics[j])
  {
    if "team" !in f.columns then Failure(KeyError("team"))
    else
      match FirstRowOf(f.rows, name)
      case None => Failure(IndexError)
      case Some(p) =>
        var rows := WithCategory(TeamRows(f.rows, Get(p.cells, "team")));
        if "pos_" !in f.columns then Failure(KeyError("pos_"))
        else
          match TransformXlSpec(rows, metrics, f.columns + [Category])
          case Failure(e) => Failure(e)
          case Success(data) => Success(Parallel(Players(rows), Keys(metrics), data, PositionDomain))
  }

  method ParallelDataXl(f: Frame, name: string, metrics: Dict<string>) returns (r: Result<Parallel<ValueXl>, Error>)
    ensures r == ParallelXl(f, name, metrics)
  {
    if "team" !in f.columns {
      return Failure(KeyError("team"));
    }
    var player := FirstRowOf(f.rows, name);
    if player.None? {
      return Failure(IndexError);
    }
    var team := TeamRows(f.rows, Get(player.value.cells, "team"));
    if "pos_" !in f.columns {
      return Failure(KeyError("pos_"));
    }
    var rows := WithCategory(team);
    var data := TransformXl(rows, metrics, f.columns + [Category]);
    if data.Failure? {
      return Failure(data.error);
    }
    return Success(Parallel(Players(rows), Keys(metrics), data.value, PositionDomain));
  }

  /**
   * The spreadsheet route's players are those of the sheet's rows that share
   * the player's team, in sheet order, each row once (see `TeamRowsAppend`);
   * every such row is included, and a player whose team is missing gets an
   * empty transform.
   */
  lemma ParallelXlRows(f: Frame, name: string, metrics: Dict<string>)
    requires ParallelXl(f, name, metrics).Success?
    ensures var r := ParallelXl(f, name, metrics).value;
            var team := Get(FirstRowOf(f.rows, name).value.cells, "team");
            r.players == Players(TeamRows(f.rows, team)) &&
            (team == Null ==> r.data == []) &&
            (forall i | 0 <= i < |f.rows| :: SameCell(Get(f.rows[i].cells, "team"), team) ==> f.rows[i].player in r.players)
  {
    var p := FirstRowOf(f.rows, name).value;
    var rows := WithCategory(TeamRows(f.rows, Get(p.cells, "team")));
    assert ParallelXl(f, name, metrics).value.players == Players(rows);
    ParallelXlTeam(f, name, metrics);
  }

  lemma ParallelXlTeam(f: Frame, name: string, metrics: Dict<string>)
    requires ParallelXl(f, name, metrics).Success?
    ensures var r := ParallelXl(f, name, metrics).value;
            var team := Get(FirstRowOf(f.rows, name).value.cells, "team");
            forall i | 0 <= i < |f.rows| :: SameCell(Get(f.rows[i].cells, "team"), team) ==> f.rows[i].player in r.players
  {
    var p := FirstRowOf(f.rows, name).value;
    var team := TeamRows(f.rows, Get(p.cells, "team"));
    assert ParallelXl(f, name, metrics).value.players == Players(WithCategory(team));
    TeamRowsPlayers(f.rows, Get(p.cells, "team"));
  }

  /** Every row of the team gives its player to the selection's players. */
  lemma TeamRowsPlayers(rows: seq<Record>, team: Cell)
    ensures forall i | 0 <= i < |rows| :: SameCell(Get(rows[i].cells, "team"), team) ==> rows[i].player in Players(TeamRows(rows, team))
  {
    var t := TeamRows(rows, team);
    forall i | 0 <= i < |rows| && SameCell(Get(rows[i].cells, "team"), team)
      ensures rows[i].player in Players(t)
    {
      var k :| 0 <= k < |t| && t[k] == rows[i];
      assert Players(t)[k] == rows[i].player;
    }
  }

  /** A position code is not a number: `float()` rejects it, and so does the money parser. */
  lemma CodeIsNotNumber(p: Position)
    ensures ParseFloat(Code(p)).None? && MillionsXl(Code(p)) == 0.0
  {
    CodeLetters(p);
    var x := Code(p);
    LetterIsNotNumeral(x[0]);
    ParseFloatChars(x);
    assert '€' !in x && 'm' !in x && 'k' !in x;
    assert RemoveAll(x, '€') == x;
  }

  /** On rows given the added column, a metric mapped to it other than `Position` reads 0.0 in every entry. */
  lemma CategoryRowsReadZero(team: seq<Record>, metrics: Dict<string>)
    ensures var d := DataXl(WithCategory(team), metrics);
            forall i, j | 0 <= i < |d| && 0 <= j < |metrics| && metrics[j].1 == Category && metrics[j].0 != "Position" ::
              |d[i].values| == |metrics| && d[i].values[j].1 == Amount(Real(0.0))
  {
    var rows := WithCategory(team);
    var d := DataXl(rows, metrics);
    forall i, j | 0 <= i < |d| && 0 <= j < |metrics| && metrics[j].1 == Category && metrics[j].0 != "Position"
      ensures |d[i].values| == |metrics| && d[i].values[j].1 == Amount(Real(0.0))
    {
      assert d[i].values == RowValuesXl(rows[i], metrics);
      CodeCellReadsZero(rows[i], metrics[j], PrimaryPosition(Get(team[i].cells, "pos_")));
    }
  }

  /** A cell holding a position code reads 0.0 under any metric name but `Position`. */
  lemma CodeCellReadsZero(row: Record, metric: (string, string), p: Position)
    requires metric.0 != "Position" && Get(row.cells, metric.1) == Text(Code(p))
    ensures ValueOfXl(row, metric) == Amount(Real(0.0))
  {
    CodeIsNotNumber(p);
  }

  /**
   * A metric mapped to the added `position_category` column reads the code
   * text: 0.0 both as a float (any name but `Position` and `Value`) and as money.
   */
  lemma CategoryReadsZero(f: Frame, name: string, metrics: Dict<string>)
    requires ParallelXl(f, name, metrics).Success?
    ensures var r := ParallelXl(f, name, metrics).value;
            forall i, j | 0 <= i < |r.data| && 0 <= j < |metrics| && metrics[j].1 == Category && metrics[j].0 != "Position" ::
              |r.data[i].values| == |metrics| && r.data[i].values[j].1 == Amount(Real(0.0))
  {
    var p := FirstRowOf(f.rows, name).value;
    var team := TeamRows(f.rows, Get(p.cells, "team"));
    assert ParallelXl(f, name, metrics).value.data == DataXl(WithCategory(team), metrics);
    CategoryRowsReadZero(team, metrics);
  }
}
