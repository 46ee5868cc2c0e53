/**
 * `get_season_heatmap_data` and the rescale of `get_heatmap`, identical in
 * both variants. The season's matches and the per-match scrape are inputs:
 * `scrape` maps a match id to what `scrape_heatmaps` returns or to an
 * exception.
 */
module Heatmap {
  import opened Wrappers
  import opened Text

  /** One heatmap sample, (x, y). */
  type Point = (real, real)

  /** A match as the season listing gives it: its id and the two team names. */
  datatype Match = Match(id: int, home: string, away: string)

  /** A participant's record in the scraped heatmaps. */
  datatype HeatRecord =
    | Blank                     // an empty record: falsy, so nothing is added
    | Heat(points: seq<Point>)  // a record with its 'heatmap' samples
    | NoHeatmap                 // a non-empty record without 'heatmap': KeyError

  /** What scraping one match gives: participant ids with their records, in order, or an exception. */
  datatype Scrape = Scraped(participants: seq<(string, HeatRecord)>) | ScrapeFailed

  /** `team_name in home name or team_name in away name`. */
  predicate ForTeam(m: Match, team: string) {
    Contains(m.home, team) || Contains(m.away, team)
  }

  /** The team's matches, in season order. */
  function TeamMatches(ms: seq<Match>, team: string): (r: seq<Match>)
    ensures forall i | 0 <= i < |r| :: r[i] in ms && ForTeam(r[i], team)
    ensures forall i | 0 <= i < |ms| :: ForTeam(ms[i], team) ==> ms[i] in r
  {
    if ms == [] then []
    else
      var p := ms[..|ms| - 1];
      var m := ms[|ms| - 1];
      assert forall i | 0 <= i < |p| :: p[i] == ms[i];
      TeamMatches(p, team) + if ForTeam(m, team) then [m] else []
  }

  /** The filter distributes over concatenation (so it keeps the season order). */
  lemma {:induction false} TeamMatchesAppend(a: seq<Match>, b: seq<Match>, team: string)
    ensures TeamMatches(a + b, team) == TeamMatches(a, team) + TeamMatches(b, team)
  {
    if b == [] {
      assert a + b == a;
    } else {
      var q := b[..|b| - 1];
      assert (a + b)[..|a + b| - 1] == a + q;
      TeamMatchesAppend(a, q, team);
    }
  }

  /** One match is kept exactly when it involves the team. */
  lemma TeamMatchesOne(m: Match, team: string)
    ensures TeamMatches([m], team) == if ForTeam(m, team) then [m] else []
  {
    assert [m][..0] == [];
  }

  /** `player_name.lower() in player_id.lower()`. */
  predicate Names(id: string, player: string) {
    Contains(Lower(id), Lower(player))
  }

  /** The record of the first participant whose id names the player: a record of one that does, or none when none does. */
  function FirstParticipant(ps: seq<(string, HeatRecord)>, player: string): (r: Option<HeatRecord>)
    ensures r.None? <==> forall i | 0 <= i < |ps| :: !Names(ps[i].0, player)
    ensures r.Some? ==> exists k | 0 <= k < |ps| :: Names(ps[k].0, player) && ps[k].1 == r.value
  {
    if ps == [] then None
    else if Names(ps[0].0, player) then Some(ps[0].1)
    else
      assert forall i | 1 <= i < |ps| :: ps[i] == ps[1..][i - 1];
      FirstParticipant(ps[1..], player)
  }

  /** No record exactly when no participant names the player; otherwise the first one's record. */
  lemma {:induction false} FirstParticipantSpec(ps: seq<(string, HeatRecord)>, player: string)
    ensures var r := FirstParticipant(ps, player);
            (r.None? <==> forall i | 0 <= i < |ps| :: !Names(ps[i].0, player)) &&
            (r.Some? ==> exists k | 0 <= k < |ps| :: Names(ps[k].0, player) && ps[k].1 == r.value &&
                           forall j | 0 <= j < k :: !Names(ps[j].0, player))
  {
    if ps != [] && !Names(ps[0].0, player) {
      FirstParticipantSpec(ps[1..], player);
      assert forall i | 1 <= i < |ps| :: ps[i] == ps[1..][i - 1];
      if FirstParticipant(ps, player).Some? {
        var k :| 0 <= k < |ps[1..]| && Names(ps[1..][k].0, player) && ps[1..][k].1 == FirstParticipant(ps, player).value &&
                 forall j | 0 <= j < k :: !Names(ps[1..][j].0, player);
        assert Names(ps[k + 1].0, player) && forall j | 0 <= j < k + 1 :: !Names(ps[j].0, player);
      }
    }
  }

  /** The scan of the scraped participants, stopping (`break`) at the first that names the player. */
  method FindParticipant(ps: seq<(string, HeatRecord)>, player: string) returns (r: Option<HeatRecord>)
    ensures r == FirstParticipant(ps, player)
  {
    r := None;
    var i := 0;
    while i < |ps|
      invariant 0 <= i <= |ps|
      invariant FirstParticipant(ps, player) == FirstParticipant(ps[i..], player)
      invariant r == None
    {
      if Names(ps[i].0, player) {
        r := Some(ps[i].1);
        break;
      }
      assert ps[i..][1..] == ps[i + 1..];
      i := i + 1;
    }
    if i == |ps| {
      assert ps[i..] == [];
    }
  }

  /**
   * One match: None when it is skipped (the scrape raised, or the player's
   * record has no 'heatmap'), else the samples it adds, none when no
   * participant names the player.
   */
  function Outcome(s: Scrape, player: string): (r: Option<seq<Point>>)
    ensures s.ScrapeFailed? ==> r.None?
    ensures s.Scraped? && (forall i | 0 <= i < |s.participants| :: !Names(s.participants[i].0, player)) ==> r == Some([])
  {
    match s
    case ScrapeFailed => None
    case Scraped(ps) =>
      match FirstParticipant(ps, player)
      case None => Some([])
      case Some(Blank) => Some([])
      case Some(Heat(pts)) => Some(pts)
      case Some(NoHeatmap) => None
  }

  /**
   * Where the outcome comes from: the samples a match adds are the 'heatmap'
   * of the first participant that names the player, and a scraped match is
   * skipped only when that first participant's record has no 'heatmap'.
   * Conversely, the first participant that names the player decides: its
   * 'heatmap' is added, a record without one skips the match, and an empty
   * record adds nothing.
   */
  lemma OutcomeSpec(s: Scrape, player: string)
    ensures var r := Outcome(s, player);
            (r.Some? && r.value != [] ==>
               s.Scraped? && exists k | 0 <= k < |s.participants| ::
                 Names(s.participants[k].0, player) && s.participants[k].1 == Heat(r.value) &&
                 forall j | 0 <= j < k :: !Names(s.participants[j].0, player)) &&
            (r.None? && s.Scraped? ==>
               exists k | 0 <= k < |s.participants| ::
                 Names(s.participants[k].0, player) && s.participants[k].1 == NoHeatmap &&
                 forall j | 0 <= j < k :: !Names(s.participants[j].0, player))
    ensures s.Scraped? ==>
              forall k | 0 <= k < |s.participants| && Names(s.participants[k].0, player) &&
                         (forall j | 0 <= j < k :: !Names(s.participants[j].0, player)) ::
                (s.participants[k].1.Heat? ==> Outcome(s, player) == Some(s.participants[k].1.points)) &&
                (s.participants[k].1 == NoHeatmap ==> Outcome(s, player) == None) &&
                (s.participants[k].1 == Blank ==> Outcome(s, player) == Some([]))
  {
    if s.Scraped? {
      var ps := s.participants;
      FirstParticipantSpec(ps, player);
      forall k | 0 <= k < |ps| && Names(ps[k].0, player) && (forall j | 0 <= j < k :: !Names(ps[j].0, player))
        ensures FirstParticipant(ps, player) == Some(ps[k].1)
      {
        var k' :| 0 <= k' < |ps| && Names(ps[k'].0, player) && ps[k'].1 == FirstParticipant(ps, player).value &&
                  forall j | 0 <= j < k' :: !Names(ps[j].0, player);
        assert k' == k;
      }
    }
  }

  /** What the loop makes of each match for the given player: the outcome of scraping it. */
  function MatchOutcome(scrape: int -> Scrape, player: string): Match -> Option<seq<Point>> {
    (m: Match) => Outcome(scrape(m.id), player)
  }

  /**
   * The samples collected over a list of matches, in match order, a skipped
   * match adding nothing: every sample comes from some match's outcome, and
   * every sample of every match's outcome is collected.
   */
  function Collected(ms: seq<Match>, outcome: Match -> Option<seq<Point>>): (r: seq<Point>)
    ensures forall x | x in r :: exists i | 0 <= i < |ms| :: outcome(ms[i]).Some? && x in outcome(ms[i]).value
    ensures forall i, x | 0 <= i < |ms| && outcome(ms[i]).Some? && x in outcome(ms[i]).value :: x in r
  {
    if ms == [] then []
    else
      var p := ms[..|ms| - 1];
      assert forall k | 0 <= k < |p| :: p[k] == ms[k];
      Collected(p, outcome) + outcome(ms[|ms| - 1]).GetOr([])
  }

  /** The number of skipped matches: at most all of them, and none exactly when every match has an outcome. */
  function Skipped(ms: seq<Match>, outcome: Match -> Option<seq<Point>>): (r: nat)
    ensures r <= |ms|
    ensures r == 0 <==> forall i | 0 <= i < |ms| :: outcome(ms[i]).Some?
  {
    if ms == [] then 0
    else
      var p := ms[..|ms| - 1];
      assert forall k | 0 <= k < |p| :: p[k] == ms[k];
      Skipped(p, outcome) + if outcome(ms[|ms| - 1]).None? then 1 else 0
  }

  /**
   * `get_season_heatmap_data`: keep the team's matches, then fetch them.
   * Returns the coordinates, and the number of skipped matches that the
   * route only prints.
   */
  method SeasonHeatmapData(matches: seq<Match>, scrape: int -> Scrape, player: string, team: string)
    returns (coords: seq<Point>, skipped: nat)
    ensures coords == Collected(TeamMatches(matches, team), MatchOutcome(scrape, player))
    ensures skipped == Skipped(TeamMatches(matches, team), MatchOutcome(scrape, player))
  {
    coords, skipped := FetchMatches(TeamMatches(matches, team), scrape, player);
  }

  /**
   * The fetch loop over the team's matches: scrape each, find the player,
   * extend the coordinates or count the match as skipped.
   */
  method FetchMatches(teamMatches: seq<Match>, scrape: int -> Scrape, player: string)
    returns (coords: seq<Point>, skipped: nat)
    ensures coords == Collected(teamMatches, MatchOutcome(scrape, player))
    ensures skipped == Skipped(teamMatches, MatchOutcome(scrape, player))
  {
    ghost var outcome := MatchOutcome(scrape, player);
    coords := [];
    skipped := 0;
    var i := 0;
    while i < |teamMatches|
      invariant 0 <= i <= |teamMatches|
      invariant coords == Collected(teamMatches[..i], outcome)
      invariant skipped == Skipped(teamMatches[..i], outcome)
    {
      var m := teamMatches[i];
      assert teamMatches[..i + 1] == teamMatches[..i] + [m];
      CollectedSnoc(teamMatches[..i], m, outcome);
      SkippedSnoc(teamMatches[..i], m, outcome);
      var s := scrape(m.id);
      assert outcome(m) == Outcome(s, player);
      match s {
        case ScrapeFailed =>
          skipped := skipped + 1;
        case Scraped(ps) =>
          var data := FindParticipant(ps, player);
          match data {
            case None =>
              assert outcome(m) == Some([]);
            case Some(Blank) =>
              assert outcome(m) == Some([]);
            case Some(Heat(pts)) =>
              assert outcome(m) == Some(pts);
              if pts != [] {
                coords := coords + pts;
              }
            case Some(NoHeatmap) =>
              assert outcome(m) == None;
              skipped := skipped + 1;
          }
      }
      i := i + 1;
    }
    assert teamMatches[..i] == teamMatches;
  }

  /** One more match adds its own samples at the end. */
  lemma CollectedSnoc(ms: seq<Match>, m: Match, outcome: Match -> Option<seq<Point>>)
    ensures Collected(ms + [m], outcome) == Collected(ms, outcome) + outcome(m).GetOr([])
  {
    var t := ms + [m];
    assert t[..|t| - 1] == ms;
  }

  /** One more match adds one to the count when it is skipped. */
  lemma SkippedSnoc(ms: seq<Match>, m: Match, outcome: Match -> Option<seq<Point>>)
    ensures Skipped(ms + [m], outcome) == Skipped(ms, outcome) + if outcome(m).None? then 1 else 0
  {
    var t := ms + [m];
    assert t[..|t| - 1] == ms;
  }

  /** Collecting over two runs of matches is collecting over each, one after the other. */
  lemma {:induction false} CollectedAppend(a: seq<Match>, b: seq<Match>, outcome: Match -> Option<seq<Point>>)
    ensures Collected(a + b, outcome) == Collected(a, outcome) + Collected(b, outcome)
  {
    if b == [] {
      assert a + b == a;
    } else {
      var q, m := b[..|b| - 1], b[|b| - 1];
      assert a + b == (a + q) + [m] && b == q + [m];
      CollectedAppend(a, q, outcome);
      CollectedSnoc(a + q, m, outcome);
      CollectedSnoc(q, m, outcome);
    }
  }

  /** Counting skips over two runs of matches is adding the two counts. */
  lemma {:induction false} SkippedAppend(a: seq<Match>, b: seq<Match>, outcome: Match -> Option<seq<Point>>)
    ensures Skipped(a + b, outcome) == Skipped(a, outcome) + Skipped(b, outcome)
  {
    if b == [] {
      assert a + b == a;
    } else {
      var q, m := b[..|b| - 1], b[|b| - 1];
      assert a + b == (a + q) + [m] && b == q + [m];
      SkippedAppend(a, q, outcome);
      SkippedSnoc(a + q, m, outcome);
      SkippedSnoc(q, m, outcome);
    }
  }

  /** When every scrape fails, every match is skipped and nothing is collected. */
  lemma {:induction false} SkippedBounds(ms: seq<Match>, scrape: int -> Scrape, player: string)
    ensures (forall i | 0 <= i < |ms| :: scrape(ms[i].id).ScrapeFailed?) ==>
              Skipped(ms, MatchOutcome(scrape, player)) == |ms| && Collected(ms, MatchOutcome(scrape, player)) == []
  {
    if ms != [] {
      var p := ms[..|ms| - 1];
      assert forall i | 0 <= i < |p| :: p[i] == ms[i];
      SkippedBounds(p, scrape, player);
    }
  }

  /** A player no participant of any match names collects nothing, and no match is skipped on that account. */
  lemma {:induction false} CollectedUnnamed(ms: seq<Match>, scrape: int -> Scrape, player: string)
    requires forall i | 0 <= i < |ms| :: scrape(ms[i].id).Scraped? &&
               forall j | 0 <= j < |scrape(ms[i].id).participants| :: !Names(scrape(ms[i].id).participants[j].0, player)
    ensures Collected(ms, MatchOutcome(scrape, player)) == [] && Skipped(ms, MatchOutcome(scrape, player)) == 0
  {
    if ms != [] {
      var p := ms[..|ms| - 1];
      assert forall i | 0 <= i < |p| :: p[i] == ms[i];
      CollectedUnnamed(p, scrape, player);
    }
  }

  // ---------------------------------------------------------------------------
  // The rescale of `get_heatmap` and the pitch it is drawn on.

  const XScale: real := 1.29
  const YScale: real := 0.9
  const XOffset: real := 0.0
  const YOffset: real := 0.0
  const PitchWidth: int := 130
  const PitchHeight: int := 90

  /**
   * Each (x, y) becomes (x * x_scale + x_offset, y * y_scale + y_offset): one
   * point per sample, in order, and nothing is lost, as Unscale undoes it.
   */
  function Rescale(coords: seq<Point>): (r: seq<Point>)
    ensures |r| == |coords| && Unscale(r) == coords
  {
    var r := seq(|coords|, i requires 0 <= i < |coords| => (coords[i].0 * XScale + XOffset, coords[i].1 * YScale + YOffset));
    assert forall i | 0 <= i < |coords| :: Unscale(r)[i] == coords[i];
    r
  }

  /** The inverse map, from pitch coordinates back to samples. */
  function Unscale(coords: seq<Point>): seq<Point> {
    seq(|coords|, i requires 0 <= i < |coords| => ((coords[i].0 - XOffset) / XScale, (coords[i].1 - YOffset) / YScale))
  }

  /** Every point of the pitch is the image of a sample: the rescale undoes Unscale. */
  lemma RescaleInverse(coords: seq<Point>)
    ensures Rescale(Unscale(coords)) == coords
  {
    assert forall i | 0 <= i < |coords| :: Rescale(Unscale(coords))[i] == coords[i];
  }

  /** Samples in the 0-100 square land on the 130 x 90 pitch. */
  lemma RescaleOnPitch(coords: seq<Point>)
    requires forall i | 0 <= i < |coords| :: 0.0 <= coords[i].0 <= 100.0 && 0.0 <= coords[i].1 <= 100.0
    ensures forall i | 0 <= i < |Rescale(coords)| ::
              0.0 <= Rescale(coords)[i].0 <= PitchWidth as real && 0.0 <= Rescale(coords)[i].1 <= PitchHeight as real
  {
  }

  /** A sample at (10, 10) is drawn at (12.9, 9.0). */
  lemma RescaleExample(coords: seq<Point>)
    requires coords == [(10.0, 10.0)]
    ensures Rescale(coords) == [(12.9, 9.0)]
  {
    assert Rescale(coords)[0] == (12.9, 9.0);
  }

  /** Rescaling commutes with collecting: the rescaled samples of two runs are the two rescaled runs. */
  lemma RescaleAppend(a: seq<Point>, b: seq<Point>)
    ensures Rescale(a + b) == Rescale(a) + Rescale(b)
  {
  }

  /** The response of `get_heatmap`: the rescaled coordinates and the pitch dimensions. */
  datatype Response = Response(coordinates: seq<Point>, width: int, height: int)

  /** The team the route always asks for. */
  const RouteTeam: string := "Manchester United"

  method GetHeatmap(matches: seq<Match>, scrape: int -> Scrape, player: string) returns (r: Response)
    ensures r.coordinates == Rescale(Collected(TeamMatches(matches, RouteTeam), MatchOutcome(scrape, player)))
    ensures r.width == PitchWidth && r.height == PitchHeight
  {
    var coords, _ := SeasonHeatmapData(matches, scrape, player, RouteTeam);
    r := Response(Rescale(coords), PitchWidth, PitchHeight);
  }
}
