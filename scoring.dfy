/** Weekly fantasy points and the per-week memo (models/player.py:35-53),
    stated as functions of the memo, the projections and the scoring weights.
    The class that holds the memo is `Players.Player`. */
module Scoring {
  import opened Wrappers
  import opened Sums
  import opened Settings

  /** One projection record of the feed: who, which week, and the projected
      stat per category. */
  datatype Projection = Projection(
    id: int, player: string, tm: string, position: Position, week: int,
    stats: map<string, real>)

  /** The weeks of a fantasy season. */
  const SeasonWeeks: set<int> := set w | 1 <= w <= 16

  /** `projection.get(category, 0)`. */
  function StatOr0(stats: map<string, real>, category: string): real
  {
    if category in stats then stats[category] else 0.0
  }

  /** A category's contribution: its weight times the projected stat. */
  function Term(weight: real, stat: real): real
  {
    weight * stat
  }

  /** One term per scoring category: its weight times the projected stat. */
  ghost function Terms(scoring: map<string, real>, stats: map<string, real>): (t: map<string, real>)
    ensures t.Keys == scoring.Keys
  {
    map c | c in scoring :: Term(scoring[c], StatOr0(stats, c))
  }

  /** Fantasy points of one projection: the sum over scoring categories of
      weight times stat, a category the projection lacks counting as 0. */
  ghost function WeightedPoints(scoring: map<string, real>, stats: map<string, real>): real
  {
    MapSum(Terms(scoring, stats))
  }

  /** The value `_weekly_points` computes and caches for a week: 0.0 when
      there is no projection for it. */
  ghost function PointsFor(scoring: map<string, real>, projections: map<int, Projection>, week: int): real
  {
    if week in projections then WeightedPoints(scoring, projections[week].stats) else 0.0
  }

  /** The memo after `weekly_points(week)`: a truthy cached value is kept,
      anything else is recomputed and written. */
  ghost function Refreshed(cache: map<int, real>, projections: map<int, Projection>,
                           scoring: map<string, real>, week: int): map<int, real>
  {
    if week in cache && cache[week] != 0.0 then cache
    else cache[week := PointsFor(scoring, projections, week)]
  }

  /** What `weekly_points(week)` returns: the truthy cached value, else the
      recomputed points, else None when the week has no projection. */
  ghost function WeeklyResult(cache: map<int, real>, projections: map<int, Projection>,
                              scoring: map<string, real>, week: int): Option<real>
  {
    if week in cache && cache[week] != 0.0 then Some(cache[week])
    else if week in projections then Some(PointsFor(scoring, projections, week))
    else None
  }

  function WeeksThrough(n: int): set<int>
  {
    set w | w in SeasonWeeks && w <= n
  }

  /** The memo after `weekly_points(1)`, ..., `weekly_points(n)`. */
  ghost function RefreshedThrough(cache: map<int, real>, projections: map<int, Projection>,
                                  scoring: map<string, real>, n: int): map<int, real>
  {
    map k | k in cache.Keys + WeeksThrough(n) ::
      if k in WeeksThrough(n) && !(k in cache && cache[k] != 0.0)
      then PointsFor(scoring, projections, k) else cache[k]
  }

  /** The memo after `season_points()`. */
  ghost function SeasonCache(cache: map<int, real>, projections: map<int, Projection>,
                             scoring: map<string, real>): map<int, real>
  {
    RefreshedThrough(cache, projections, scoring, 16)
  }

  /** Every cached week holds the points its projection gives. */
  ghost predicate Consistent(cache: map<int, real>, projections: map<int, Projection>,
                             scoring: map<string, real>)
  {
    forall w :: w in cache ==> cache[w] == PointsFor(scoring, projections, w)
  }

  /** Every season week is cached, and a cached 0.0 is what recomputing gives. */
  ghost predicate Settled(cache: map<int, real>, projections: map<int, Projection>,
                          scoring: map<string, real>)
  {
    forall w :: w in SeasonWeeks ==>
      w in cache && (cache[w] == 0.0 ==> PointsFor(scoring, projections, w) == 0.0)
  }

  /** The key `weekly_points(week)` contributes to a ranking: its value when
      truthy, otherwise 0.0. */
  function RankKey(r: Option<real>): real
  {
    if r.Some? && r.value != 0.0 then r.value else 0.0
  }

  /** Refreshing no week leaves the memo as it is. */
  lemma RefreshedThroughNone(cache: map<int, real>, projections: map<int, Projection>,
                             scoring: map<string, real>)
    ensures RefreshedThrough(cache, projections, scoring, 0) == cache
  {
    assert WeeksThrough(0) == {};
  }

  /** Refreshing one more week extends the closed form by that week. */
  lemma RefreshedThroughStep(cache: map<int, real>, projections: map<int, Projection>,
                             scoring: map<string, real>, n: int)
    requires 0 <= n < 16
    ensures RefreshedThrough(cache, projections, scoring, n + 1)
         == Refreshed(RefreshedThrough(cache, projections, scoring, n), projections, scoring, n + 1)
  {
    var a := RefreshedThrough(cache, projections, scoring, n);
    var b := RefreshedThrough(cache, projections, scoring, n + 1);
    var c := Refreshed(a, projections, scoring, n + 1);
    assert n + 1 in SeasonWeeks;
    assert WeeksThrough(n + 1) == WeeksThrough(n) + {n + 1};
    assert b.Keys == c.Keys;
    forall k | k in b ensures b[k] == c[k] {
    }
  }

  /** After `season_points()` the memo is settled, whatever it held before. */
  lemma SeasonCacheSettled(cache: map<int, real>, projections: map<int, Projection>,
                           scoring: map<string, real>)
    ensures Settled(SeasonCache(cache, projections, scoring), projections, scoring)
    ensures SeasonCache(cache, projections, scoring).Keys == cache.Keys + SeasonWeeks
  {
    assert WeeksThrough(16) == SeasonWeeks;
  }

  /** On a settled memo `weekly_points` changes nothing and its ranking key
      is the cached value: the calls inside `team_independent_start_pct` are
      reads of the memo. */
  lemma SettledWeeklyPoints(cache: map<int, real>, projections: map<int, Projection>,
                            scoring: map<string, real>, week: int)
    requires Settled(cache, projections, scoring)
    requires week in SeasonWeeks
    ensures Refreshed(cache, projections, scoring, week) == cache
    ensures RankKey(WeeklyResult(cache, projections, scoring, week)) == cache[week]
  {
  }

  /** `season_points()` twice leaves the memo as the first call left it, so
      the second call returns the same total. */
  lemma SeasonCacheIdempotent(cache: map<int, real>, projections: map<int, Projection>,
                              scoring: map<string, real>)
    ensures SeasonCache(SeasonCache(cache, projections, scoring), projections, scoring)
         == SeasonCache(cache, projections, scoring)
  {
    var once := SeasonCache(cache, projections, scoring);
    var twice := SeasonCache(once, projections, scoring);
    assert WeeksThrough(16) == SeasonWeeks;
    assert twice.Keys == once.Keys;
    forall k | k in once ensures twice[k] == once[k] {
    }
  }

  /** A consistent memo stays consistent, and recomputing a cached week
      writes the value already there. */
  lemma RefreshedConsistent(cache: map<int, real>, projections: map<int, Projection>,
                            scoring: map<string, real>, week: int)
    requires Consistent(cache, projections, scoring)
    ensures Consistent(Refreshed(cache, projections, scoring, week), projections, scoring)
    ensures week in cache ==> Refreshed(cache, projections, scoring, week) == cache
  {
  }

  /** On a consistent memo holding only season weeks, `season_points()`
      returns the sum of the points of weeks 1 to 16. */
  lemma {:induction false} SeasonTotal(cache: map<int, real>, projections: map<int, Projection>,
                                       scoring: map<string, real>)
    requires Consistent(cache, projections, scoring)
    requires cache.Keys <= SeasonWeeks
    ensures MapSum(SeasonCache(cache, projections, scoring))
         == RangeSum(w => PointsFor(scoring, projections, w), 1, 17)
  {
    var s := SeasonCache(cache, projections, scoring);
    assert WeeksThrough(16) == SeasonWeeks;
    assert forall w :: w in s <==> 1 <= w < 17;
    MapSumOfRange(s, 1, 17);
    RangeSumAgree(k => if k in s then s[k] else 0.0, w => PointsFor(scoring, projections, w), 1, 17);
  }
}
