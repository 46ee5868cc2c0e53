/**
 * `get_radar_data` in both variants. For every (display name, column) pair
 * of the metric map, in order, the route computes the minimum, maximum and
 * mean of the column over a reference group, the player's percentile, the
 * group average's percentile and the raw numbers, and records them in three
 * insertion-ordered dictionaries; `metrics` lists every display name.
 */
module Radar {
  import opened Wrappers
  import opened Decimal
  import opened Cells
  import opened Stats
  import opened Percentile
  import opened Frames

  /** A Python dict with its insertion order: keys in the order they were first stored. */
  type Dict<V> = seq<(string, V)>

  function Keys<V>(d: Dict<V>): seq<string> {
    seq(|d|, i requires 0 <= i < |d| => d[i].0)
  }

  /** The keys of a dict are distinct (as in a dict parsed from a JSON object). */
  predicate DistinctKeys<V>(d: Dict<V>) {
    forall i, j | 0 <= i < j < |d| :: d[i].0 != d[j].0
  }

  /** What one metric contributes: the two percentiles and the raw numbers. */
  datatype Stat<P, R> = Stat(percentile: P, average: P, raw: R)

  /** The response: `player`, `league_average`, `raw_values` and `metrics`. */
  datatype Response<P, R> = Response(player: Dict<P>, leagueAverage: Dict<P>, raw: Dict<R>, metrics: seq<string>)

  /**
   * The loop over the metric map, with the outcome of a metric given by
   * `step` on its column: a failure ends the request, `None` skips the metric
   * (`continue`), and `Some(s)` stores s under the display name. At most one
   * entry is stored per metric, and a failure is the failure of some step.
   */
  function Assemble<S>(metrics: Dict<string>, step: string -> Result<Option<S>, Error>): (r: Result<Dict<S>, Error>)
    ensures r.Success? ==> |r.value| <= |metrics|
    ensures r.Failure? ==> exists k | 0 <= k < |metrics| :: step(metrics[k].1) == Failure(r.error)
  {
    if metrics == [] then Success([])
    else
      var p := metrics[..|metrics| - 1];
      assert forall k | 0 <= k < |p| :: p[k] == metrics[k];
      match Assemble(p, step)
      case Failure(e) => Failure(e)
      case Success(es) =>
        var (name, column) := metrics[|metrics| - 1];
        match step(column)
        case Failure(e) => Failure(e)
        case Success(None) => Success(es)
        case Success(Some(s)) => Success(es + [(name, s)])
  }

  /** Does `step` keep the metric on `column`? */
  predicate KeptBy<S>(step: string -> Result<Option<S>, Error>, column: string) {
    step(column).Success? && step(column).value.Some?
  }

  /** The display names of the metrics `step` keeps, in input order: the reference for the three dicts' keys. */
  function Kept<S>(metrics: Dict<string>, step: string -> Result<Option<S>, Error>): seq<string> {
    if metrics == [] then []
    else
      var m := metrics[|metrics| - 1];
      Kept(metrics[..|metrics| - 1], step) + if KeptBy(step, m.1) then [m.0] else []
  }

  /** The loop succeeds exactly when every step does. */
  lemma {:induction false} AssembleSucceeds<S>(metrics: Dict<string>, step: string -> Result<Option<S>, Error>)
    ensures Assemble(metrics, step).Success? <==> forall k | 0 <= k < |metrics| :: step(metrics[k].1).Success?
  {
    if metrics != [] {
      var p := metrics[..|metrics| - 1];
      assert forall k | 0 <= k < |p| :: p[k] == metrics[k];
      AssembleSucceeds(p, step);
    }
  }

  /** A successful loop stores exactly the kept metrics, in input order, each with its step's value. */
  lemma {:induction false} AssembleStores<S>(metrics: Dict<string>, step: string -> Result<Option<S>, Error>)
    requires Assemble(metrics, step).Success?
    ensures Keys(Assemble(metrics, step).value) == Kept(metrics, step)
    ensures var es := Assemble(metrics, step).value;
            forall i | 0 <= i < |es| :: exists k | 0 <= k < |metrics| ::
              metrics[k].0 == es[i].0 && step(metrics[k].1) == Success(Some(es[i].1))
  {
    if metrics != [] {
      var p := metrics[..|metrics| - 1];
      var m := metrics[|metrics| - 1];
      assert forall k | 0 <= k < |p| :: p[k] == metrics[k];
      var es := Assemble(p, step).value;
      AssembleStores(p, step);
      if step(m.1).value.Some? {
        var es' := es + [(m.0, step(m.1).value.value)];
        assert Keys(es') == Keys(es) + [m.0];
        assert forall i | 0 <= i < |es| :: es'[i] == es[i];
      }
    }
  }

  /** A failing loop fails with the error of the first failing step. */
  lemma {:induction false} AssembleFailsFirst<S>(metrics: Dict<string>, step: string -> Result<Option<S>, Error>)
    requires Assemble(metrics, step).Failure?
    ensures exists k | 0 <= k < |metrics| :: step(metrics[k].1) == Failure(Assemble(metrics, step).error) &&
              forall j | 0 <= j < k :: step(metrics[j].1).Success?
  {
    var p := metrics[..|metrics| - 1];
    var m := metrics[|metrics| - 1];
    assert forall k | 0 <= k < |p| :: p[k] == metrics[k];
    if Assemble(p, step).Failure? {
      AssembleFailsFirst(p, step);
      var k :| 0 <= k < |p| && step(p[k].1) == Failure(Assemble(p, step).error) &&
               forall j | 0 <= j < k :: step(p[j].1).Success?;
      assert step(metrics[k].1) == Failure(Assemble(metrics, step).error);
    } else {
      AssembleSucceeds(p, step);
      assert step(metrics[|p|].1) == Failure(Assemble(metrics, step).error);
    }
  }

  /**
   * The loop succeeds exactly when every step does; it then stores exactly
   * the kept metrics, in input order, each with the value its step produced;
   * when it fails, it fails with the error of the first failing step.
   */
  lemma AssembleSpec<S>(metrics: Dict<string>, step: string -> Result<Option<S>, Error>)
    ensures Assemble(metrics, step).Success? <==> forall k | 0 <= k < |metrics| :: step(metrics[k].1).Success?
    ensures Assemble(metrics, step).Success? ==> Keys(Assemble(metrics, step).value) == Kept(metrics, step)
    ensures Assemble(metrics, step).Success? ==>
              var es := Assemble(metrics, step).value;
              forall i | 0 <= i < |es| :: exists k | 0 <= k < |metrics| ::
                metrics[k].0 == es[i].0 && step(metrics[k].1) == Success(Some(es[i].1))
    ensures Assemble(metrics, step).Failure? ==>
              exists k | 0 <= k < |metrics| :: step(metrics[k].1) == Failure(Assemble(metrics, step).error) &&
                forall j | 0 <= j < k :: step(metrics[j].1).Success?
  {
    AssembleSucceeds(metrics, step);
    if Assemble(metrics, step).Success? {
      AssembleStores(metrics, step);
    } else {
      AssembleFailsFirst(metrics, step);
    }
  }

  /** A failure on a prefix of the metric map is the failure of the whole loop. */
  lemma {:induction false} AssemblePrefixFailure<S>(metrics: Dict<string>, n: nat, step: string -> Result<Option<S>, Error>)
    requires n <= |metrics| && Assemble(metrics[..n], step).Failure?
    ensures Assemble(metrics, step) == Assemble(metrics[..n], step)
    decreases |metrics| - n
  {
    if n < |metrics| {
      var q := metrics[..n + 1];
      assert q[..n] == metrics[..n];
      assert Assemble(q, step) == Assemble(metrics[..n], step);
      AssemblePrefixFailure(metrics, n + 1, step);
    } else {
      assert metrics[..n] == metrics;
    }
  }

  /** With distinct display names, a metric's name is among the kept ones exactly when its step keeps it. */
  lemma {:induction false} KeptMember<S>(metrics: Dict<string>, step: string -> Result<Option<S>, Error>, k: nat)
    requires DistinctKeys(metrics) && k < |metrics|
    ensures metrics[k].0 in Kept(metrics, step) <==> KeptBy(step, metrics[k].1)
  {
    var p := metrics[..|metrics| - 1];
    var m := metrics[|metrics| - 1];
    assert forall i | 0 <= i < |p| :: p[i] == metrics[i];
    KeptNames(p, step);
    if k < |p| {
      KeptMember(p, step, k);
      assert m.0 != metrics[k].0;
    } else {
      assert forall i | 0 <= i < |p| :: p[i].0 != m.0;
    }
  }

  /** Every kept name is a display name of the metric map. */
  lemma {:induction false} KeptNames<S>(metrics: Dict<string>, step: string -> Result<Option<S>, Error>)
    ensures forall x | x in Kept(metrics, step) :: x in Keys(metrics)
  {
    if metrics != [] {
      var p := metrics[..|metrics| - 1];
      KeptNames(p, step);
      assert forall x | x in Keys(p) :: x in Keys(metrics) by {
        assert forall i | 0 <= i < |p| :: Keys(p)[i] == Keys(metrics)[i];
      }
      assert Keys(metrics)[|metrics| - 1] == metrics[|metrics| - 1].0;
    }
  }

  /** When every step keeps its metric, the loop stores every metric, position for position. */
  lemma {:induction false} AssembleTotal<S>(metrics: Dict<string>, step: string -> Result<Option<S>, Error>)
    requires forall k | 0 <= k < |metrics| :: KeptBy(step, metrics[k].1)
    ensures Assemble(metrics, step).Success?
    ensures var es := Assemble(metrics, step).value;
            |es| == |metrics| &&
            forall i | 0 <= i < |es| :: es[i].0 == metrics[i].0 && step(metrics[i].1) == Success(Some(es[i].1))
  {
    if metrics != [] {
      var p := metrics[..|metrics| - 1];
      assert forall k | 0 <= k < |p| :: p[k] == metrics[k];
      AssembleTotal(p, step);
    }
  }

  /** The three dicts the loop fills, read off the stored stats. */
  function Percentiles<P, R>(es: Dict<Stat<P, R>>): Dict<P> {
    seq(|es|, i requires 0 <= i < |es| => (es[i].0, es[i].1.percentile))
  }

  function Averages<P, R>(es: Dict<Stat<P, R>>): Dict<P> {
    seq(|es|, i requires 0 <= i < |es| => (es[i].0, es[i].1.average))
  }

  function Raws<P, R>(es: Dict<Stat<P, R>>): Dict<R> {
    seq(|es|, i requires 0 <= i < |es| => (es[i].0, es[i].1.raw))
  }

  function ResponseOf<P, R>(es: Dict<Stat<P, R>>, metrics: Dict<string>): Response<P, R> {
    Response(Percentiles(es), Averages(es), Raws(es), Keys(metrics))
  }

  /** One more metric: the loop on a prefix one longer. */
  lemma AssembleSnoc<S>(metrics: Dict<string>, i: nat, step: string -> Result<Option<S>, Error>, es: Dict<S>)
    requires i < |metrics| && Assemble(metrics[..i], step) == Success(es)
    ensures Assemble(metrics[..i + 1], step) ==
              match step(metrics[i].1)
              case Failure(e) => Failure(e)
              case Success(None) => Success(es)
              case Success(Some(s)) => Success(es + [(metrics[i].0, s)])
  {
    assert metrics[..i + 1][..i] == metrics[..i];
  }

  /** Storing one more stat appends one entry to each of the three dicts. */
  lemma ProjectSnoc<P, R>(es: Dict<Stat<P, R>>, name: string, s: Stat<P, R>)
    ensures Percentiles(es + [(name, s)]) == Percentiles(es) + [(name, s.percentile)]
    ensures Averages(es + [(name, s)]) == Averages(es) + [(name, s.average)]
    ensures Raws(es + [(name, s)]) == Raws(es) + [(name, s.raw)]
  {
  }

  // ---------------------------------------------------------------------------
  // Database variant: league rows from SQL, Python min/max/sum on the values.

  /** The raw numbers of one metric: the player's cell as fetched, the league mean and the league maximum. */
  datatype RawPg = RawPg(player: Cell, leagueAvg: real, max: real)

  type StatPg = Stat<real, RawPg>

  /**
   * `[row[column] for row in league_data if row[column] is not None]`: the
   * non-null values of the column in row order, or KeyError when a row has no
   * such column.
   */
  function LeagueValues(league: seq<Row>, column: string): (r: Result<seq<Cell>, Error>)
    ensures r.Success? ==> forall i | 0 <= i < |r.value| :: r.value[i] != Null
  {
    if league == [] then Success([])
    else
      var row := league[|league| - 1];
      match LeagueValues(league[..|league| - 1], column)
      case Failure(e) => Failure(e)
      case Success(vs) =>
        if column !in row then Failure(KeyError(column))
        else if row[column] == Null then Success(vs)
        else Success(vs + [row[column]])
  }

  /**
   * The comprehension fails exactly when a row lacks the column; otherwise
   * every value comes from some row, and the list is empty exactly when the
   * column is null in every row.
   */
  lemma {:induction false} LeagueValuesSpec(league: seq<Row>, column: string)
    ensures LeagueValues(league, column).Success? <==> forall i | 0 <= i < |league| :: column in league[i]
    ensures LeagueValues(league, column).Failure? ==> LeagueValues(league, column).error == KeyError(column)
    ensures LeagueValues(league, column).Success? ==>
              var vs := LeagueValues(league, column).value;
              (vs == [] <==> forall i | 0 <= i < |league| :: league[i][column] == Null) &&
              forall j | 0 <= j < |vs| :: exists i | 0 <= i < |league| :: league[i][column] == vs[j]
  {
    if league != [] {
      var p := league[..|league| - 1];
      assert forall i | 0 <= i < |p| :: p[i] == league[i];
      LeagueValuesSpec(p, column);
    }
  }

  /** The numbers of a list of numeric cells. */
  function Numbers(vs: seq<Cell>): seq<real>
    requires forall i | 0 <= i < |vs| :: vs[i].Num?
  {
    seq(|vs|, i requires 0 <= i < |vs| => vs[i].value)
  }

  /**
   * One iteration of the loop: skip when the league has no value; TypeError
   * when text is among the values (Python cannot order or add text and
   * numbers); otherwise min, max and mean, the player's percentile by the
   * coercing `normalize_value`, and the mean's percentile.
   */
  function MetricPg(player: Row, league: seq<Row>, column: string): (r: Result<Option<StatPg>, Error>)
    ensures r.Failure? ==> r.error == KeyError(column) || r.error == TypeError
    ensures r.Success? && r.value.Some? ==>
              0.0 <= r.value.value.average <= 100.0 && r.value.value.raw.leagueAvg <= r.value.value.raw.max
    ensures r.Success? && r.value.Some? ==> StatOfPg(player, league, column, r.value.value)
  {
    LeagueValuesSpec(league, column);
    match LeagueValues(league, column)
    case Failure(e) => Failure(e)
    case Success(vs) =>
      if vs == [] then Success(None)
      else if exists i | 0 <= i < |vs| :: vs[i].Text? then Failure(TypeError)
      else
        var xs := Numbers(vs);
        MeanBetween(xs);
        var lo, hi, avg := Min(xs), Max(xs), Mean(xs);
        var value := Get(player, column);
        Success(Some(Stat(NormalizePg(value, Num(lo), Num(hi)), NormalizePg(Num(avg), Num(lo), Num(hi)),
                          RawPg(value, avg, hi))))
  }

  /**
   * Entry i of the three dicts comes from a metric of the map with the same
   * display name, and holds the stats of that metric's column over the
   * league's values.
   */
  predicate EntriesOfPg(player: Row, league: seq<Row>, metrics: Dict<string>, r: Response<real, RawPg>) {
    |r.player| == |r.leagueAverage| == |r.raw| &&
    forall i | 0 <= i < |r.player| :: exists k | 0 <= k < |metrics| ::
      metrics[k].0 == r.player[i].0 &&
      StatOfPg(player, league, metrics[k].1, Stat(r.player[i].1, r.leagueAverage[i].1, r.raw[i].1))
  }

  function StepPg(player: Row, league: seq<Row>): string -> Result<Option<StatPg>, Error> {
    column => MetricPg(player, league, column)
  }

  /** The database route: "Player not found" when the player query returned no row, else the loop's response. */
  function RadarPg(player: Option<Row>, league: seq<Row>, metrics: Dict<string>): (r: Result<Response<real, RawPg>, Error>)
    ensures player.None? ==> r == Failure(NotFound)
    ensures r.Failure? ==>
              r.error == NotFound || r.error == TypeError || exists k | 0 <= k < |metrics| :: r.error == KeyError(metrics[k].1)
    ensures r.Success? ==>
              r.value.metrics == Keys(metrics) && |r.value.player| <= |metrics| &&
              Keys(r.value.player) == Keys(r.value.leagueAverage) == Keys(r.value.raw)
  {
    match player
    case None => Failure(NotFound)
    case Some(p) =>
      match Assemble(metrics, StepPg(p, league))
      case Failure(e) => Failure(e)
      case Success(es) =>
        assert Keys(Percentiles(es)) == Keys(es) && Keys(Averages(es)) == Keys(es) && Keys(Raws(es)) == Keys(es);
        Success(ResponseOf(es, metrics))
  }

  /**
   * The radar loop of the database route, filling the three dicts in place
   * one metric at a time.
   */
  method RadarDataPg(player: Option<Row>, league: seq<Row>, metrics: Dict<string>)
    returns (r: Result<Response<real, RawPg>, Error>)
    ensures r == RadarPg(player, league, metrics)
  {
    if player.None? {
      return Failure(NotFound);
    }
    var p := player.value;
    var playerValues: Dict<real> := [];
    var leagueAverages: Dict<real> := [];
    var rawValues: Dict<RawPg> := [];
    ghost var es: Dict<StatPg> := [];
    var i := 0;
    while i < |metrics|
      invariant 0 <= i <= |metrics|
      invariant Assemble(metrics[..i], StepPg(p, league)) == Success(es)
      invariant playerValues == Percentiles(es) && leagueAverages == Averages(es) && rawValues == Raws(es)
    {
      var (name, column) := metrics[i];
      var outcome := StepPg(p, league)(column);
      AssembleSnoc(metrics, i, StepPg(p, league), es);
      match outcome {
        case Failure(e) =>
          AssemblePrefixFailure(metrics, i + 1, StepPg(p, league));
          return Failure(e);
        case Success(None) =>
        case Success(Some(s)) =>
          ProjectSnoc(es, name, s);
          playerValues := playerValues + [(name, s.percentile)];
          leagueAverages := leagueAverages + [(name, s.average)];
          rawValues := rawValues + [(name, s.raw)];
          es := es + [(name, s)];
      }
      i := i + 1;
    }
    assert metrics[..i] == metrics;
    return Success(Response(playerValues, leagueAverages, rawValues, Keys(metrics)));
  }

  /**
   * The stats of one metric over the league's values `vs` of its column: the
   * player's percentile is `normalize_value` of the player's cell against the
   * minimum and maximum of `vs`, the average's percentile that of their mean,
   * and the raw numbers are the player's cell, the mean and the maximum.
   */
  predicate StatOfPg(player: Row, league: seq<Row>, column: string, s: StatPg) {
    LeagueValues(league, column).Success? &&
    var vs := LeagueValues(league, column).value;
    vs != [] && (forall i | 0 <= i < |vs| :: vs[i].Num?) &&
    var xs := Numbers(vs);
    s.percentile == NormalizePg(Get(player, column), Num(Min(xs)), Num(Max(xs))) &&
    s.average == NormalizePg(Num(Mean(xs)), Num(Min(xs)), Num(Max(xs))) &&
    s.raw == RawPg(Get(player, column), Mean(xs), Max(xs))
  }

  /**
   * A kept metric's league average lies in [0, 100] and between the league
   * minimum and maximum, its maximum bounds every league value, and its raw
   * player value is the player's cell as fetched.
   */
  lemma MetricPgBounds(player: Row, league: seq<Row>, column: string, s: StatPg)
    requires MetricPg(player, league, column) == Success(Some(s))
    ensures 0.0 <= s.average <= 100.0 && s.raw.leagueAvg <= s.raw.max
    ensures forall i | 0 <= i < |league| :: column in league[i] && league[i][column].Num? ==>
              league[i][column].value <= s.raw.max
    ensures s.raw.player == Get(player, column)
  {
    LeagueValuesSpec(league, column);
    var vs := LeagueValues(league, column).value;
    var xs := Numbers(vs);
    MeanBetween(xs);
    forall i | 0 <= i < |league| && column in league[i] && league[i][column].Num?
      ensures league[i][column].value <= s.raw.max
    {
      LeagueValuesIn(league, column, i);
      var j :| 0 <= j < |vs| && vs[j] == league[i][column];
      assert xs[j] == league[i][column].value;
    }
  }

  /** A non-null value of the column in some row is among the comprehension's values. */
  lemma {:induction false} LeagueValuesIn(league: seq<Row>, column: string, i: nat)
    requires LeagueValues(league, column).Success? && i < |league|
    requires column in league[i] && league[i][column] != Null
    ensures exists j | 0 <= j < |LeagueValues(league, column).value| :: LeagueValues(league, column).value[j] == league[i][column]
  {
    var p := league[..|league| - 1];
    var vs := LeagueValues(p, column).value;
    if i < |p| {
      assert p[i] == league[i];
      LeagueValuesIn(p, column, i);
      var j :| 0 <= j < |vs| && vs[j] == league[i][column];
      assert LeagueValues(league, column).value[j] == vs[j];
    } else {
      assert LeagueValues(league, column).value[|vs|] == league[i][column];
    }
  }

  /** A league value exists for the column: some row holds a non-null cell in it. */
  predicate HasLeagueValue(league: seq<Row>, column: string) {
    exists i | 0 <= i < |league| :: column in league[i] && league[i][column] != Null
  }

  /**
   * One metric ends the request exactly when a league row lacks its column
   * (KeyError) or text is among its non-null league values (TypeError), and
   * it is skipped exactly when no row holds a value for it.
   */
  lemma MetricPgOutcome(player: Row, league: seq<Row>, column: string)
    ensures MetricPg(player, league, column).Failure? <==>
              (exists i | 0 <= i < |league| :: column !in league[i]) ||
              (exists i | 0 <= i < |league| :: column in league[i] && league[i][column].Text?)
    ensures MetricPg(player, league, column) == Success(None) <==>
              (forall i | 0 <= i < |league| :: column in league[i]) && !HasLeagueValue(league, column)
  {
    LeagueValuesSpec(league, column);
    if LeagueValues(league, column).Success? {
      var vs := LeagueValues(league, column).value;
      forall i | 0 <= i < |league| && column in league[i] && league[i][column].Text?
        ensures exists j | 0 <= j < |vs| :: vs[j].Text?
      {
        LeagueValuesIn(league, column, i);
      }
      if HasLeagueValue(league, column) {
        var i :| 0 <= i < |league| && column in league[i] && league[i][column] != Null;
        LeagueValuesIn(league, column, i);
      }
    }
  }

  /**
   * The database route's response, when there is one: `metrics` lists every
   * display name in input order; the three dicts have the same keys, in
   * input order; and a metric is among them exactly when some league row
   * holds a value for its column.
   */
  lemma RadarPgKeys(player: Option<Row>, league: seq<Row>, metrics: Dict<string>, k: nat)
    requires DistinctKeys(metrics) && k < |metrics|
    requires RadarPg(player, league, metrics).Success?
    ensures var r := RadarPg(player, league, metrics).value;
            r.metrics == Keys(metrics) &&
            Keys(r.player) == Keys(r.leagueAverage) == Keys(r.raw) == Kept(metrics, StepPg(player.value, league)) &&
            (metrics[k].0 in Keys(r.player) <==> HasLeagueValue(league, metrics[k].1))
  {
    var step := StepPg(player.value, league);
    AssembleSpec(metrics, step);
    var es := Assemble(metrics, step).value;
    assert RadarPg(player, league, metrics).value == ResponseOf(es, metrics);
    assert Keys(Percentiles(es)) == Keys(es) && Keys(Averages(es)) == Keys(es) && Keys(Raws(es)) == Keys(es);
    KeptMember(metrics, step, k);
    assert step(metrics[k].1).Success?;
    MetricPgOutcome(player.value, league, metrics[k].1);
  }

  /**
   * Every league-average percentile of the database route lies in [0, 100],
   * and every raw league mean is at most the raw maximum.
   */
  lemma RadarPgAveragesBounded(player: Option<Row>, league: seq<Row>, metrics: Dict<string>)
    requires RadarPg(player, league, metrics).Success?
    ensures var r := RadarPg(player, league, metrics).value;
            (forall i | 0 <= i < |r.leagueAverage| :: 0.0 <= r.leagueAverage[i].1 <= 100.0) &&
            (forall i | 0 <= i < |r.raw| :: r.raw[i].1.leagueAvg <= r.raw[i].1.max)
  {
    var step := StepPg(player.value, league);
    AssembleSpec(metrics, step);
    var es := Assemble(metrics, step).value;
    forall i | 0 <= i < |es|
      ensures 0.0 <= es[i].1.average <= 100.0 && es[i].1.raw.leagueAvg <= es[i].1.raw.max
    {
      var k :| 0 <= k < |metrics| && metrics[k].0 == es[i].0 && step(metrics[k].1) == Success(Some(es[i].1));
      MetricPgBounds(player.value, league, metrics[k].1, es[i].1);
    }
  }

  /** The values of the database route's response: each entry holds the stats of its metric's column. */
  lemma RadarPgEntries(player: Option<Row>, league: seq<Row>, metrics: Dict<string>)
    requires RadarPg(player, league, metrics).Success?
    ensures EntriesOfPg(player.value, league, metrics, RadarPg(player, league, metrics).value)
  {
    var step := StepPg(player.value, league);
    AssembleSpec(metrics, step);
    var es := Assemble(metrics, step).value;
    var r := RadarPg(player, league, metrics).value;
    assert r == ResponseOf(es, metrics);
    forall i | 0 <= i < |r.player|
      ensures exists k | 0 <= k < |metrics| ::
                metrics[k].0 == r.player[i].0 &&
                StatOfPg(player.value, league, metrics[k].1, Stat(r.player[i].1, r.leagueAverage[i].1, r.raw[i].1))
    {
      var k :| 0 <= k < |metrics| && metrics[k].0 == es[i].0 && step(metrics[k].1) == Success(Some(es[i].1));
      assert Stat(r.player[i].1, r.leagueAverage[i].1, r.raw[i].1) == es[i].1;
    }
  }

  /** The goals of the worked example's league: 0, 5 and 10. */
  function ExampleLeague(): seq<Row> {
    [map["goals" := Num(0.0)], map["goals" := Num(5.0)], map["goals" := Num(10.0)]]
  }

  /** The comprehension over the example league lists its three goal counts. */
  lemma ExampleLeagueValues()
    ensures LeagueValues(ExampleLeague(), "goals") == Success([Num(0.0), Num(5.0), Num(10.0)])
  {
    var league := ExampleLeague();
    var l1, l2 := league[..1], league[..2];
    assert l1[..0] == [] && l2[..1] == l1 && league[..|league| - 1] == l2;
    assert LeagueValues(l1[..0], "goals") == Success([]);
    assert LeagueValues(l1, "goals").value == [] + [Num(0.0)];
    assert LeagueValues(l2, "goals").value == [Num(0.0)] + [Num(5.0)];
    assert LeagueValues(league, "goals").Success?;
    assert LeagueValues(league, "goals").value == [Num(0.0), Num(5.0)] + [Num(10.0)];
    assert [Num(0.0), Num(5.0)] + [Num(10.0)] == [Num(0.0), Num(5.0), Num(10.0)];
  }

  /** The minimum, maximum and mean of 0, 5 and 10. */
  lemma ExampleStats()
    ensures Min([0.0, 5.0, 10.0]) == 0.0 && Max([0.0, 5.0, 10.0]) == 10.0 && Mean([0.0, 5.0, 10.0]) == 5.0
  {
    var xs := [0.0, 5.0, 10.0];
    assert xs[..2][..1][..0] == [] && xs[..2][..1] == xs[..1] && xs[..|xs| - 1] == xs[..2];
    assert Sum(xs[..1]) == 0.0;
    assert Sum(xs[..2]) == 5.0;
    assert Sum(xs) == 15.0;
  }

  /**
   * A worked example of the database route: league goals 0, 5 and 10 and a
   * player with 5 give the player and the league average both the 50th
   * percentile, a raw league mean of 5 and a raw maximum of 10.
   */
  lemma RadarPgExample()
    ensures var player: Row := map["goals" := Num(5.0)];
            RadarPg(Some(player), ExampleLeague(), [("Goals", "goals")]) ==
              Success(Response([("Goals", 50.0)], [("Goals", 50.0)], [("Goals", RawPg(Num(5.0), 5.0, 10.0))], ["Goals"]))
  {
    var player: Row := map["goals" := Num(5.0)];
    var league := ExampleLeague();
    var vs := [Num(0.0), Num(5.0), Num(10.0)];
    ExampleLeagueValues();
    ExampleStats();
    assert !exists i | 0 <= i < |vs| :: vs[i].Text?;
    assert Numbers(vs) == [0.0, 5.0, 10.0];
    assert Normalize(5.0, 0.0, 10.0) == 50.0;
    var stat := Stat(50.0, 50.0, RawPg(Num(5.0), 5.0, 10.0));
    assert MetricPg(player, league, "goals") == Success(Some(stat));
    var metrics := [("Goals", "goals")];
    var es := [("Goals", stat)];
    assert metrics[..0] == [] && es == [] + [("Goals", stat)];
    assert Assemble(metrics[..0], StepPg(player, league)) == Success([]);
    assert Assemble(metrics, StepPg(player, league)) == Success(es);
    assert RadarPg(Some(player), league, metrics) == Success(ResponseOf(es, metrics));
    assert Percentiles(es) == [("Goals", 50.0)] && Averages(es) == [("Goals", 50.0)];
    assert Raws(es) == [("Goals", RawPg(Num(5.0), 5.0, 10.0))] && Keys(metrics) == ["Goals"];
  }

  /**
   * The database route fails exactly when the player is missing or some
   * metric meets a league row without its column or text among its values.
   */
  lemma RadarPgFails(player: Option<Row>, league: seq<Row>, metrics: Dict<string>)
    ensures RadarPg(player, league, metrics).Failure? <==>
              player.None? ||
              exists k | 0 <= k < |metrics| ::
                (exists i | 0 <= i < |league| :: metrics[k].1 !in league[i]) ||
                (exists i | 0 <= i < |league| :: metrics[k].1 in league[i] && league[i][metrics[k].1].Text?)
    ensures player.None? ==> RadarPg(player, league, metrics) == Failure(NotFound)
  {
    if player.Some? {
      var step := StepPg(player.value, league);
      AssembleSpec(metrics, step);
      forall k | 0 <= k < |metrics| {
        MetricPgOutcome(player.value, league, metrics[k].1);
      }
    }
  }

  // ---------------------------------------------------------------------------
  // Spreadsheet variant: midfielders of the sheet, pandas reductions, no skipping.

  /** The raw numbers of one metric: `float()` of the player's cell, the midfielder mean and maximum. */
  datatype RawXl = RawXl(player: Float, leagueAvg: Float, max: Float)

  type StatXl = Stat<Float, RawXl>

  /** pandas' `min()`, `max()` and `mean()` of one column. */
  datatype Summary = Summary(lo: Float, hi: Float, mean: Float)

  /** Is there text among the cells? */
  predicate HasText(vs: seq<Cell>) {
    exists i | 0 <= i < |vs| :: vs[i].Text?
  }

  /**
   * The reductions skip missing cells; they raise TypeError when text is among
   * the rest, and give NaN when nothing is left.
   */
  function ColumnSummary(rows: seq<Record>, column: string): (r: Result<Summary, Error>)
    ensures r.Failure? <==> HasText(ColumnValues(rows, column))
    ensures r.Failure? ==> r.error == TypeError
    ensures r.Success? && ColumnValues(rows, column) == [] ==> r.value == Summary(NaN, NaN, NaN)
    ensures r.Success? && ColumnValues(rows, column) != [] ==>
              var vs := ColumnValues(rows, column);
              (forall i | 0 <= i < |vs| :: vs[i].Num?) &&
              var xs := Numbers(vs);
              r.value == Summary(Real(Min(xs)), Real(Max(xs)), Real(Mean(xs))) && Min(xs) <= Mean(xs) <= Max(xs)
  {
    var vs := ColumnValues(rows, column);
    if HasText(vs) then Failure(TypeError)
    else if vs == [] then Success(Summary(NaN, NaN, NaN))
    else
      var xs := Numbers(vs);
      MeanBetween(xs);
      Success(Summary(Real(Min(xs)), Real(Max(xs)), Real(Mean(xs))))
  }

  /** `float(cell)`: NaN for a missing cell, the number, or the parsed text; ValueError when text does not parse. */
  function ToFloat(c: Cell): (r: Result<Float, Error>)
    ensures r.Failure? <==> c.Text? && ParseFloat(c.text).None?
    ensures r.Failure? ==> r.error == ValueError
    ensures r.Success? ==> (r.value.NaN? <==> c.Null?)
    ensures c.Num? ==> r == Success(Real(c.value))
    ensures c.Text? && r.Success? ==> r.value == Real(ParseFloat(c.text).value)
  {
    match c
    case Null => Success(NaN)
    case Num(x) => Success(Real(x))
    case Text(t) => if ParseFloat(t).Some? then Success(Real(ParseFloat(t).value)) else Failure(ValueError)
  }

  /**
   * The spreadsheet `normalize_value` on the player's cell as read from the
   * sheet: 50 for a range of one number; otherwise text cannot be subtracted
   * (TypeError), and NaN propagates.
   */
  function NormalizeCell(v: Cell, lo: Float, hi: Float): (r: Result<Float, Error>)
    ensures lo.Real? && hi.Real? && lo.value == hi.value ==> r == Success(Real(50.0))
    ensures r.Failure? <==> v.Text? && !(lo.Real? && hi.Real? && lo.value == hi.value)
    ensures r.Failure? ==> r.error == TypeError
    ensures v.Null? ==> r == Success(NormalizeFloat(NaN, lo, hi))
    ensures v.Num? ==> r == Success(NormalizeFloat(Real(v.value), lo, hi))
    ensures r.Success? ==> (r.value.NaN? <==> (v.Null? || lo.NaN? || hi.NaN?) && !(lo.Real? && hi.Real? && lo.value == hi.value))
    ensures r.Success? && v.Num? && lo.Real? && hi.Real? && lo.value <= v.value <= hi.value ==> 0.0 <= r.value.value <= 100.0
  {
    if lo.Real? && hi.Real? && lo.value == hi.value then Success(Real(50.0))
    else
      match v
      case Text(_) => Failure(TypeError)
      case Null => Success(NormalizeFloat(NaN, lo, hi))
      case Num(x) => Success(NormalizeFloat(Real(x), lo, hi))
  }

  /**
   * The stats of one metric over the midfielders' summary of its column: the
   * player's percentile is `normalize_value` of the player's cell against the
   * summary's minimum and maximum, the average's percentile that of the
   * summary's mean, and the raw numbers are `float()` of the player's cell,
   * the mean and the maximum.
   */
  predicate StatOfXl(player: Record, mids: seq<Record>, column: string, s: StatXl) {
    ColumnSummary(mids, column).Success? &&
    var sm := ColumnSummary(mids, column).value;
    NormalizeCell(Get(player.cells, column), sm.lo, sm.hi) == Success(s.percentile) &&
    s.average == NormalizeFloat(sm.mean, sm.lo, sm.hi) &&
    ToFloat(Get(player.cells, column)) == Success(s.raw.player) && s.raw.leagueAvg == sm.mean && s.raw.max == sm.hi
  }

  /**
   * One iteration: KeyError for a column the sheet lacks; then the summary,
   * `float()` of the player's cell, and the two percentiles, each of which can
   * raise. The spreadsheet variant never skips a metric.
   */
  function MetricXl(player: Record, mids: seq<Record>, columns: seq<string>, column: string): (r: Result<Option<StatXl>, Error>)
    ensures column !in columns ==> r == Failure(KeyError(column))
    ensures r.Failure? ==> r.error == KeyError(column) || r.error == TypeError || r.error == ValueError
    ensures r.Success? ==> r.value.Some? && StatOfXl(player, mids, column, r.value.value)
  {
    if column !in columns then Failure(KeyError(column))
    else
      match ColumnSummary(mids, column)
      case Failure(e) => Failure(e)
      case Success(sm) =>
        var cell := Get(player.cells, column);
        match ToFloat(cell)
        case Failure(e) => Failure(e)
        case Success(raw) =>
          match NormalizeCell(cell, sm.lo, sm.hi)
          case Failure(e) => Failure(e)
          case Success(pp) => Success(Some(Stat(pp, NormalizeFloat(sm.mean, sm.lo, sm.hi), RawXl(raw, sm.mean, sm.hi))))
  }

  function StepXl(player: Record, mids: seq<Record>, columns: seq<string>): string -> Result<Option<StatXl>, Error> {
    column => MetricXl(player, mids, columns, column)
  }

  /**
   * The spreadsheet route: the midfielders (KeyError without a `pos_`
   * column), the player's first row (IndexError when there is none), then the loop.
   */
  function RadarXl(f: Frame, name: string, metrics: Dict<string>): (r: Result<Response<Float, RawXl>, Error>)
    ensures "pos_" !in f.columns ==> r == Failure(KeyError("pos_"))
    ensures r.Failure? ==>
              r.error == KeyError("pos_") || r.error == IndexError || r.error == TypeError || r.error == ValueError ||
              exists k | 0 <= k < |metrics| :: r.error == KeyError(metrics[k].1)
    ensures r.Success? ==>
              r.value.metrics == Keys(metrics) && Keys(r.value.player) == Keys(metrics) &&
              Keys(r.value.leagueAverage) == Keys(metrics) && Keys(r.value.raw) == Keys(metrics)
    ensures r.Success? ==>
              Midfielders(f).Success? && FirstRowOf(f.rows, name).Some? &&
              var p, mids := FirstRowOf(f.rows, name).value, Midfielders(f).value;
              |r.value.player| == |r.value.leagueAverage| == |r.value.raw| == |metrics| &&
              forall i | 0 <= i < |metrics| ::
                StatOfXl(p, mids, metrics[i].1, Stat(r.value.player[i].1, r.value.leagueAverage[i].1, r.value.raw[i].1))
  {
    match Midfielders(f)
    case Failure(e) => Failure(e)
    case Success(mids) =>
      match FirstRowOf(f.rows, name)
      case None => Failure(IndexError)
      case Some(p) =>
        match Assemble(metrics, StepXl(p, mids, f.columns))
        case Failure(e) => Failure(e)
        case Success(es) =>
          AssembleXl(p, mids, f.columns, metrics, es);
          ResponseKeys(es, metrics);
          assert forall i | 0 <= i < |metrics| :: StatOfXl(p, mids, metrics[i].1, es[i].1);
          Success(ResponseOf(es, metrics))
  }

  /** The radar loop of the spreadsheet route, filling the three dicts in place. */
  method RadarDataXl(f: Frame, name: string, metrics: Dict<string>) returns (r: Result<Response<Float, RawXl>, Error>)
    ensures r == RadarXl(f, name, metrics)
  {
    var mids := Midfielders(f);
    if mids.Failure? {
      return Failure(mids.error);
    }
    var player := FirstRowOf(f.rows, name);
    if player.None? {
      return Failure(IndexError);
    }
    var p := player.value;
    var step := StepXl(p, mids.value, f.columns);
    var playerValues: Dict<Float> := [];
    var leagueAverages: Dict<Float> := [];
    var rawValues: Dict<RawXl> := [];
    ghost var es: Dict<StatXl> := [];
    var i := 0;
    while i < |metrics|
      invariant 0 <= i <= |metrics|
      invariant Assemble(metrics[..i], step) == Success(es)
      invariant playerValues == Percentiles(es) && leagueAverages == Averages(es) && rawValues == Raws(es)
    {
      var (name, column) := metrics[i];
      var outcome := step(column);
      AssembleSnoc(metrics, i, step, es);
      match outcome {
        case Failure(e) =>
          AssemblePrefixFailure(metrics, i + 1, step);
          return Failure(e);
        case Success(None) =>
        case Success(Some(s)) =>
          ProjectSnoc(es, name, s);
          playerValues := playerValues + [(name, s.percentile)];
          leagueAverages := leagueAverages + [(name, s.average)];
          rawValues := rawValues + [(name, s.raw)];
          es := es + [(name, s)];
      }
      i := i + 1;
    }
    assert metrics[..i] == metrics;
    return Success(Response(playerValues, leagueAverages, rawValues, Keys(metrics)));
  }

  /** pandas' `max()` of a column: a number some row holds, and no row's number is larger. */
  predicate IsColumnMax(m: real, rows: seq<Record>, column: string) {
    (exists k | 0 <= k < |rows| :: Get(rows[k].cells, column) == Num(m)) &&
    forall k | 0 <= k < |rows| :: Get(rows[k].cells, column).Num? ==> Get(rows[k].cells, column).value <= m
  }

  /**
   * What one metric stores: `raw.player` is `float()` of the player's cell;
   * the league average and raw maximum are NaN exactly when no midfielder has
   * a value in the column; otherwise the maximum is the column's largest
   * midfielder value, the average's percentile lies in [0, 100] and the raw
   * mean is at most the raw maximum.
   */
  lemma MetricXlStats(player: Record, mids: seq<Record>, columns: seq<string>, column: string)
    requires MetricXl(player, mids, columns, column).Success?
    ensures MetricXl(player, mids, columns, column).value.Some?
    ensures var s := MetricXl(player, mids, columns, column).value.value;
            ToFloat(Get(player.cells, column)) == Success(s.raw.player) &&
            (s.average.NaN? <==> ColumnValues(mids, column) == []) &&
            (s.raw.max.NaN? <==> ColumnValues(mids, column) == []) &&
            (s.raw.max.Real? ==> IsColumnMax(s.raw.max.value, mids, column)) &&
            (s.average.Real? ==> 0.0 <= s.average.value <= 100.0) &&
            (s.raw.leagueAvg.Real? ==> s.raw.leagueAvg.value <= s.raw.max.value)
  {
    var vs := ColumnValues(mids, column);
    if vs != [] {
      var xs := Numbers(vs);
      MeanBetween(xs);
      var lo, hi, avg := Min(xs), Max(xs), Mean(xs);
      if lo < hi {
        NormalizeEndpoints(avg, lo, hi);
      }
      ColumnMax(mids, column, vs, xs);
    }
  }

  /** The largest number of a column's values is its pandas maximum over the rows. */
  lemma ColumnMax(mids: seq<Record>, column: string, vs: seq<Cell>, xs: seq<real>)
    requires vs == ColumnValues(mids, column) && vs != []
    requires forall i | 0 <= i < |vs| :: vs[i].Num?
    requires xs == Numbers(vs)
    ensures IsColumnMax(Max(xs), mids, column)
  {
    var hi := Max(xs);
    var j :| 0 <= j < |xs| && xs[j] == hi;
    var k :| 0 <= k < |mids| && Get(mids[k].cells, column) == vs[j];
    assert Get(mids[k].cells, column) == Num(hi);
    forall k | 0 <= k < |mids| && Get(mids[k].cells, column).Num?
      ensures Get(mids[k].cells, column).value <= hi
    {
      var c := Get(mids[k].cells, column);
      assert c in vs;
      var i :| 0 <= i < |vs| && vs[i] == c;
      assert xs[i] == c.value;
    }
  }

  /**
   * One metric fails exactly when its column is not in the sheet, text is
   * among the midfielders' values, or the player's cell is text that either
   * does not parse or meets a range that is not a single number.
   */
  lemma MetricXlFails(player: Record, mids: seq<Record>, columns: seq<string>, column: string)
    ensures MetricXl(player, mids, columns, column).Failure? <==>
              column !in columns || HasText(ColumnValues(mids, column)) ||
              (Get(player.cells, column).Text? &&
                (ParseFloat(Get(player.cells, column).text).None? ||
                 !(ColumnSummary(mids, column).value.lo.Real? &&
                   ColumnSummary(mids, column).value.lo == ColumnSummary(mids, column).value.hi)))
  {
    if column in columns && !HasText(ColumnValues(mids, column)) {
      var sm := ColumnSummary(mids, column).value;
      var cell := Get(player.cells, column);
      assert ColumnSummary(mids, column) == Success(sm);
      PlayerCellFails(cell, sm.lo, sm.hi);
    }
  }

  /** Reading and normalising the player's cell fails only for text that does not parse or meets a real range. */
  lemma PlayerCellFails(cell: Cell, lo: Float, hi: Float)
    ensures (ToFloat(cell).Failure? || NormalizeCell(cell, lo, hi).Failure?) <==>
              cell.Text? && (ParseFloat(cell.text).None? || !(lo.Real? && lo == hi))
  {
  }

  /** The response's three dicts are keyed like the stored stats, and `metrics` lists the display names. */
  lemma ResponseKeys<P, R>(es: Dict<Stat<P, R>>, metrics: Dict<string>)
    requires |es| == |metrics| && forall i | 0 <= i < |es| :: es[i].0 == metrics[i].0
    ensures var r := ResponseOf(es, metrics);
            r.metrics == Keys(metrics) && Keys(r.player) == Keys(metrics) &&
            Keys(r.leagueAverage) == Keys(metrics) && Keys(r.raw) == Keys(metrics) &&
            |r.player| == |es| && (forall i | 0 <= i < |es| :: r.player[i].1 == es[i].1.percentile) &&
            |r.leagueAverage| == |es| && (forall i | 0 <= i < |es| :: r.leagueAverage[i].1 == es[i].1.average) &&
            |r.raw| == |es| && (forall i | 0 <= i < |es| :: r.raw[i].1 == es[i].1.raw)
  {
  }

  /** The spreadsheet loop, when it succeeds, stores every metric, in order, each with its own stats. */
  lemma AssembleXl(p: Record, mids: seq<Record>, columns: seq<string>, metrics: Dict<string>, es: Dict<StatXl>)
    requires Assemble(metrics, StepXl(p, mids, columns)) == Success(es)
    ensures |es| == |metrics|
    ensures forall i | 0 <= i < |es| ::
              es[i].0 == metrics[i].0 && MetricXl(p, mids, columns, metrics[i].1) == Success(Some(es[i].1))
  {
    var step := StepXl(p, mids, columns);
    AssembleSucceeds(metrics, step);
    assert forall k | 0 <= k < |metrics| :: KeptBy(step, metrics[k].1);
    AssembleTotal(metrics, step);
  }

  /**
   * The response built from the spreadsheet loop's entries: position i holds
   * the stats of the i-th metric's column.
   */
  lemma ResponseEntriesXl(p: Record, mids: seq<Record>, columns: seq<string>, metrics: Dict<string>, es: Dict<StatXl>)
    requires Assemble(metrics, StepXl(p, mids, columns)) == Success(es)
    ensures var r := ResponseOf(es, metrics);
            |r.player| == |r.raw| == |r.leagueAverage| == |metrics| &&
            forall i | 0 <= i < |metrics| ::
              StatOfXl(p, mids, metrics[i].1, Stat(r.player[i].1, r.leagueAverage[i].1, r.raw[i].1)) &&
              ToFloat(Get(p.cells, metrics[i].1)) == Success(r.raw[i].1.player) &&
              (r.leagueAverage[i].1.NaN? <==> ColumnValues(mids, metrics[i].1) == []) &&
              (r.raw[i].1.max.NaN? <==> ColumnValues(mids, metrics[i].1) == []) &&
              (r.raw[i].1.max.Real? ==> IsColumnMax(r.raw[i].1.max.value, mids, metrics[i].1)) &&
              (r.leagueAverage[i].1.Real? ==> 0.0 <= r.leagueAverage[i].1.value <= 100.0) &&
              (r.raw[i].1.leagueAvg.Real? && r.raw[i].1.max.Real? ==> r.raw[i].1.leagueAvg.value <= r.raw[i].1.max.value)
  {
    AssembleXl(p, mids, columns, metrics, es);
    ResponseKeys(es, metrics);
    forall i | 0 <= i < |metrics|
      ensures var s := es[i].1;
              StatOfXl(p, mids, metrics[i].1, s) &&
              ToFloat(Get(p.cells, metrics[i].1)) == Success(s.raw.player) &&
              (s.average.NaN? <==> ColumnValues(mids, metrics[i].1) == []) &&
              (s.raw.max.NaN? <==> ColumnValues(mids, metrics[i].1) == []) &&
              (s.raw.max.Real? ==> IsColumnMax(s.raw.max.value, mids, metrics[i].1)) &&
              (s.average.Real? ==> 0.0 <= s.average.value <= 100.0) &&
              (s.raw.leagueAvg.Real? ==> s.raw.leagueAvg.value <= s.raw.max.value)
    {
      MetricXlStats(p, mids, columns, metrics[i].1);
    }
  }

  /**
   * The spreadsheet route's response, when there is one: position i of the
   * three dicts holds the stats of the i-th metric's column: `raw_values`
   * holds `float()` of the player's cell, the midfielder mean and the
   * midfielder maximum (NaN, like the average, exactly when no midfielder has
   * a value in the column), and the average's percentile lies in [0, 100].
   */
  lemma RadarXlEntries(f: Frame, name: string, metrics: Dict<string>)
    requires RadarXl(f, name, metrics).Success?
    ensures var r := RadarXl(f, name, metrics).value;
            var mids := Midfielders(f).value;
            var p := FirstRowOf(f.rows, name).value;
            |r.player| == |r.raw| == |r.leagueAverage| == |metrics| &&
            forall i | 0 <= i < |metrics| ::
              StatOfXl(p, mids, metrics[i].1, Stat(r.player[i].1, r.leagueAverage[i].1, r.raw[i].1)) &&
              ToFloat(Get(p.cells, metrics[i].1)) == Success(r.raw[i].1.player) &&
              (r.leagueAverage[i].1.NaN? <==> ColumnValues(mids, metrics[i].1) == []) &&
              (r.raw[i].1.max.NaN? <==> ColumnValues(mids, metrics[i].1) == []) &&
              (r.raw[i].1.max.Real? ==> IsColumnMax(r.raw[i].1.max.value, mids, metrics[i].1)) &&
              (r.leagueAverage[i].1.Real? ==> 0.0 <= r.leagueAverage[i].1.value <= 100.0) &&
              (r.raw[i].1.leagueAvg.Real? && r.raw[i].1.max.Real? ==> r.raw[i].1.leagueAvg.value <= r.raw[i].1.max.value)
  {
    var mids := Midfielders(f).value;
    var p := FirstRowOf(f.rows, name).value;
    var es := Assemble(metrics, StepXl(p, mids, f.columns)).value;
    assert RadarXl(f, name, metrics).value == ResponseOf(es, metrics);
    ResponseEntriesXl(p, mids, f.columns, metrics, es);
  }

  /** The spreadsheet route's lookups fail first: `pos_` before the player. */
  lemma RadarXlLookups(f: Frame, name: string, metrics: Dict<string>)
    ensures "pos_" !in f.columns ==> RadarXl(f, name, metrics) == Failure(KeyError("pos_"))
    ensures "pos_" in f.columns && (forall i | 0 <= i < |f.rows| :: f.rows[i].player != name) ==>
              RadarXl(f, name, metrics) == Failure(IndexError)
  {
  }
}
