/** A player of the universe and its per-week memo (models/player.py:7-53).
    The league the Python object points back to is passed as the scoring
    weights the methods read. */
module Players {
  import opened Wrappers
  import opened Sums
  import opened Settings
  import opened Scoring

  class Player {
    const id: int
    const name: string
    const nflTeam: string
    const position: Position
    var teamId: Option<int>
    var projectionsByWeek: map<int, Projection>
    var pointsByWeek: map<int, real>

    /** A player is created from the first projection seen for its id,
        undrafted and with an empty memo (models/player.py:8-17). */
    constructor (projection: Projection)
      ensures id == projection.id && name == projection.player
      ensures nflTeam == projection.tm && position == projection.position
      ensures teamId == None
      ensures projectionsByWeek == map[projection.week := projection]
      ensures pointsByWeek == map[]
    {
      id := projection.id;
      name := projection.player;
      nflTeam := projection.tm;
      position := projection.position;
      teamId := None;
      projectionsByWeek := map[];
      pointsByWeek := map[];
      new;
      AddProjection(projection);
    }

    /** Stores the record under its week; a later record for the same week
        replaces the earlier one and other weeks are untouched. */
    method AddProjection(projection: Projection)
      modifies this`projectionsByWeek
      ensures projectionsByWeek == old(projectionsByWeek)[projection.week := projection]
      ensures pointsByWeek == old(pointsByWeek) && teamId == old(teamId)
    {
      projectionsByWeek := projectionsByWeek[projection.week := projection];
    }

    /** `_weekly_points`: sums weight times stat over the scoring categories
        and caches the result; a week without projection caches 0.0 and
        returns None. */
    method ComputeWeeklyPoints(scoring: map<string, real>, week: int) returns (r: Option<real>)
      modifies this`pointsByWeek
      ensures pointsByWeek == old(pointsByWeek)[week := PointsFor(scoring, projectionsByWeek, week)]
      ensures week in projectionsByWeek ==> r == Some(PointsFor(scoring, projectionsByWeek, week))
      ensures week !in projectionsByWeek ==> r == None && pointsByWeek[week] == 0.0
    {
      var points := 0.0;
      if week !in projectionsByWeek {
        pointsByWeek := pointsByWeek[week := points];
        return None;
      }
      var stats := projectionsByWeek[week].stats;
      ghost var terms := Terms(scoring, stats);
      var left := scoring.Keys;
      assert Restrict(terms, left) == terms;
      while left != {}
        invariant left <= scoring.Keys
        invariant pointsByWeek == old(pointsByWeek)
        invariant points + MapSum(Restrict(terms, left)) == MapSum(terms)
        decreases left
      {
        var c :| c in left;
        RestrictRemove(terms, left, c);
        points := points + Term(scoring[c], StatOr0(stats, c));
        left := left - {c};
      }
      assert Restrict(terms, left).Keys == {};
      assert points == PointsFor(scoring, projectionsByWeek, week);
      pointsByWeek := pointsByWeek[week := points];
      r := Some(points);
    }

    /** `weekly_points`: the cached value when it is truthy, otherwise a
        recomputation. */
    method WeeklyPoints(scoring: map<string, real>, week: int) returns (r: Option<real>)
      modifies this`pointsByWeek
      ensures pointsByWeek == Refreshed(old(pointsByWeek), projectionsByWeek, scoring, week)
      ensures r == WeeklyResult(old(pointsByWeek), projectionsByWeek, scoring, week)
    {
      if week in pointsByWeek && pointsByWeek[week] != 0.0 {
        r := Some(pointsByWeek[week]);
      } else {
        r := ComputeWeeklyPoints(scoring, week);
      }
    }

    /** `season_points`: fills the memo for weeks 1 to 16 and returns the
        sum of every cached value. */
    method SeasonPoints(scoring: map<string, real>) returns (total: real)
      modifies this`pointsByWeek
      ensures pointsByWeek == SeasonCache(old(pointsByWeek), projectionsByWeek, scoring)
      ensures Settled(pointsByWeek, projectionsByWeek, scoring)
      ensures total == MapSum(pointsByWeek)
    {
      var week := 1;
      ghost var start, projections := pointsByWeek, projectionsByWeek;
      RefreshedThroughNone(start, projections, scoring);
      while week <= 16
        invariant 1 <= week <= 17 && projectionsByWeek == projections
        invariant pointsByWeek == RefreshedThrough(start, projections, scoring, week - 1)
      {
        SettleWeek(start, scoring, week);
        week := week + 1;
      }
      SeasonCacheSettled(start, projections, scoring);
      total := SumOfValues(pointsByWeek);
    }

    /** One round of the `season_points` loop: `weekly_points(week)` extends
        the refreshed memo by that week. */
    method SettleWeek(ghost start: map<int, real>, scoring: map<string, real>, week: int)
      requires 1 <= week <= 16
      requires pointsByWeek == RefreshedThrough(start, projectionsByWeek, scoring, week - 1)
      modifies this`pointsByWeek
      ensures pointsByWeek == RefreshedThrough(start, projectionsByWeek, scoring, week)
    {
      RefreshedThroughStep(start, projectionsByWeek, scoring, week - 1);
      var _ := WeeklyPoints(scoring, week);
    }
  }
}
