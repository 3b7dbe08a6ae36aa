/** Value over replacement and the team-independent start percentage
    (models/player.py:55-119), as functions of a player's weekly points, the
    injury table of its position, the replacement level and the weekly
    rankings of the player universe. The binomial CDF is a parameter. */
module Valuation {
  import opened Wrappers
  import opened Settings
  import opened Ranking

  /** `s.sum()` over an array. */
  function Total(s: seq<real>): real
  {
    if s == [] then 0.0 else Total(s[..|s| - 1]) + s[|s| - 1]
  }

  /** `v[v < 0] = 0`. */
  function Clamp(v: real): (r: real)
    ensures r >= 0.0 && r >= v
  {
    if v < 0.0 then 0.0 else v
  }

  /** A week's value before clamping: the chance of being healthy times the
      points above the weekly replacement level. */
  function WeekValue(injury: real, points: real, replacement: real): real
  {
    (1.0 - injury) * (points - replacement / 16.0)
  }

  /** `player_weekly_values *= start_pct`. */
  function Scale(v: real, pct: real): real
  {
    v * pct
  }

  /** numpy broadcasting of the player's weekly points against the 16-week
      injury array: 16 values line up week by week, a single value is used
      for every week, anything else does not broadcast. */
  predicate Broadcasts(points: seq<real>)
  {
    |points| == 16 || |points| == 1
  }

  function PointsAt(points: seq<real>, w: nat): real
    requires Broadcasts(points) && w < 16
  {
    if |points| == 1 then points[0] else points[w]
  }

  /** The clamped value of week `w + 1`, with the start percentage applied
      in auction mode. */
  function Weekly(points: seq<real>, injury: seq<real>, replacement: real,
                  startPcts: Option<seq<real>>, w: nat): (r: real)
    requires Broadcasts(points) && |injury| == 16 && w < 16
    requires startPcts.Some? ==> |startPcts.value| == 16
    ensures r >= 0.0
  {
    var v := WeekValue(injury[w], PointsAt(points, w), replacement);
    Clamp(if startPcts.Some? then Scale(v, startPcts.value[w]) else v)
  }

  function WeeklyValues(points: seq<real>, injury: seq<real>, replacement: real,
                        startPcts: Option<seq<real>>): (r: seq<real>)
    requires Broadcasts(points) && |injury| == 16
    requires startPcts.Some? ==> |startPcts.value| == 16
    ensures |r| == 16
    ensures forall w :: 0 <= w < 16 ==> r[w] == Weekly(points, injury, replacement, startPcts, w)
  {
    seq(16, w requires 0 <= w < 16 => Weekly(points, injury, replacement, startPcts, w))
  }

  /** `value_over_replacement(auction)`: the sum over the 16 weeks of the
      clamped weekly values; weekly points that do not broadcast against the
      injury array are `ShapeMismatch`. */
  function ValueOverReplacement(points: seq<real>, injury: seq<real>, replacement: real,
                                startPcts: Option<seq<real>>): (r: Result<real>)
    requires |injury| == 16
    requires startPcts.Some? ==> |startPcts.value| == 16
    ensures r.Err? <==> !Broadcasts(points)
    ensures r.Err? ==> r.error == ShapeMismatch
  {
    if !Broadcasts(points) then Err(ShapeMismatch)
    else Ok(Total(WeeklyValues(points, injury, replacement, startPcts)))
  }

  lemma {:induction false} TotalNonNegative(s: seq<real>)
    requires forall i :: 0 <= i < |s| ==> s[i] >= 0.0
    ensures Total(s) >= 0.0
  {
    if s != [] {
      TotalNonNegative(s[..|s| - 1]);
    }
  }

  /** A sum of non-negative values is zero exactly when every value is. */
  lemma {:induction false} TotalZeroIff(s: seq<real>)
    requires forall i :: 0 <= i < |s| ==> s[i] >= 0.0
    ensures Total(s) == 0.0 <==> forall i :: 0 <= i < |s| ==> s[i] == 0.0
  {
    if s != [] {
      var init := s[..|s| - 1];
      TotalZeroIff(init);
      TotalNonNegative(init);
      if Total(s) == 0.0 {
        forall i | 0 <= i < |s| ensures s[i] == 0.0 {
          if i < |s| - 1 {
            assert s[i] == init[i];
          }
        }
      }
    }
  }

  lemma {:induction false} TotalMonotone(a: seq<real>, b: seq<real>)
    requires |a| == |b|
    requires forall i :: 0 <= i < |a| ==> a[i] <= b[i]
    ensures Total(a) <= Total(b)
  {
    if a != [] {
      TotalMonotone(a[..|a| - 1], b[..|b| - 1]);
    }
  }

  /** The value over replacement is never negative. */
  lemma VorNonNegative(points: seq<real>, injury: seq<real>, replacement: real, startPcts: Option<seq<real>>)
    requires |injury| == 16
    requires startPcts.Some? ==> |startPcts.value| == 16
    requires Broadcasts(points)
    ensures ValueOverReplacement(points, injury, replacement, startPcts).value >= 0.0
  {
    TotalNonNegative(WeeklyValues(points, injury, replacement, startPcts));
  }

  /** The value over replacement is zero exactly when no week is worth more
      than the replacement level once weighted. */
  lemma VorZeroIff(points: seq<real>, injury: seq<real>, replacement: real, startPcts: Option<seq<real>>)
    requires |injury| == 16
    requires startPcts.Some? ==> |startPcts.value| == 16
    requires Broadcasts(points)
    ensures ValueOverReplacement(points, injury, replacement, startPcts).value == 0.0
            <==> forall w :: 0 <= w < 16 ==> Weekly(points, injury, replacement, startPcts, w) == 0.0
  {
    var v := WeeklyValues(points, injury, replacement, startPcts);
    TotalZeroIff(v);
  }

  lemma MulNonNegative(a: real, b: real)
    requires (a >= 0.0 && b >= 0.0) || (a <= 0.0 && b <= 0.0)
    ensures a * b >= 0.0
  {
  }

  /** Weighting a week by a start percentage in [0, 1] never raises its
      clamped value. */
  lemma ScaleAtMost(v: real, pct: real)
    requires 0.0 <= pct <= 1.0
    ensures Clamp(Scale(v, pct)) <= Clamp(v)
  {
    if v >= 0.0 {
      MulNonNegative(v, 1.0 - pct);
      assert v - v * pct == v * (1.0 - pct);
    } else {
      MulNonNegative(-v, pct);
      assert -(v * pct) == (-v) * pct;
    }
  }

  /** With start percentages in [0, 1], the auction-mode value over
      replacement is at most the plain one. */
  lemma AuctionVorAtMostPlain(points: seq<real>, injury: seq<real>, replacement: real, startPcts: seq<real>)
    requires |injury| == 16 && |startPcts| == 16
    requires Broadcasts(points)
    requires forall w :: 0 <= w < 16 ==> 0.0 <= startPcts[w] <= 1.0
    ensures ValueOverReplacement(points, injury, replacement, Some(startPcts)).value
         <= ValueOverReplacement(points, injury, replacement, None).value
  {
    var a := WeeklyValues(points, injury, replacement, Some(startPcts));
    var b := WeeklyValues(points, injury, replacement, None);
    forall w | 0 <= w < 16 ensures a[w] <= b[w] {
      ScaleAtMost(WeekValue(injury[w], PointsAt(points, w), replacement), startPcts[w]);
    }
    TotalMonotone(a, b);
  }

  /** A player's weekly ranking entry, keyed by its weekly points when its
      position is one of `ps` and by 0.0 otherwise. */
  function Keyed(views: seq<Entry>, ps: set<Position>): (r: seq<Entry>)
    ensures |r| == |views|
    ensures forall i :: 0 <= i < |r| ==> r[i].id == views[i].id && r[i].position == views[i].position
  {
    seq(|views|, i requires 0 <= i < |views| =>
      Entry(views[i].id, views[i].position, if views[i].position in ps then views[i].points else 0.0))
  }

  /** `sorted(universe, key, reverse=True).index(self)`. */
  function RankIn(views: seq<Entry>, ps: set<Position>, id: int): (rank: nat)
    requires exists i :: 0 <= i < |views| && views[i].id == id
    ensures rank < |views|
    ensures SortDesc(Keyed(views, ps))[rank].id == id
  {
    var keyed := Keyed(views, ps);
    var ranked := SortDesc(keyed);
    assert exists j :: 0 <= j < |ranked| && ranked[j].id == id by {
      var i :| 0 <= i < |views| && views[i].id == id;
      assert keyed[i] in multiset(ranked);
      var j :| 0 <= j < |ranked| && ranked[j] == keyed[i];
    }
    IndexOf(ranked, id)
  }

  /** The probability of starting given a rank and a number of starters: 1
      inside the starters, otherwise the chance that more than
      `rank - starters` of the `rank` players ahead are hurt. */
  function Threshold(rank: int, starters: int, rate: real, cdf: (int, int, real) -> real): (r: real)
    requires forall k, n, p :: 0.0 <= cdf(k, n, p) <= 1.0
    ensures 0.0 <= r <= 1.0
    ensures rank < starters ==> r == 1.0
    ensures rank >= starters ==> r == 1.0 - cdf(rank - starters, rank, rate)
  {
    if rank < starters then 1.0 else 1.0 - cdf(rank - starters, rank, rate)
  }

  /** The flex branch's result: `(1 - p) * p`. */
  function FlexShare(p: real): (r: real)
    requires 0.0 <= p <= 1.0
    ensures 0.0 <= r <= 0.25
  {
    MulNonNegative(1.0 - p, p);
    MulNonNegative(p - 0.5, p - 0.5);
    assert (1.0 - p) * p == 0.25 - (p - 0.5) * (p - 0.5);
    (1.0 - p) * p
  }

  /** `sum(roster_settings[pos] for pos in flex_positions)`. */
  function FlexSlots(c: RosterConfig, ps: seq<Position>): int
  {
    if ps == [] then 0 else FlexSlots(c, ps[..|ps| - 1]) + Slots(c, ps[|ps| - 1])
  }

  /** `team_independent_start_pct(week)`. `views` lists the universe in
      dictionary order, each with its cached points for the week; `rate` is
      the week's injury rate for the player's own position. */
  function StartPct(views: seq<Entry>, id: int, position: Position, c: RosterConfig,
                    rate: real, cdf: (int, int, real) -> real): (r: real)
    requires exists i :: 0 <= i < |views| && views[i].id == id
    requires forall k, n, p :: 0.0 <= cdf(k, n, p) <= 1.0
    ensures 0.0 <= r <= 1.0
  {
    var p := Threshold(RankIn(views, {position}, id), Slots(c, position) * c.teams, rate, cdf);
    if position !in c.flexPositions || p == 1.0 then p
    else
      var flex := set q | q in c.flexPositions;
      FlexShare(Threshold(RankIn(views, flex, id), FlexSlots(c, c.flexPositions) * c.teams, rate, cdf))
  }

  /** The start percentage is exactly 1 for a player ranked inside its
      position's starters; otherwise a position outside the flex gets the
      binomial tail, and a flex position gets either 1 or a value of at most
      a quarter. */
  lemma StartPctCases(views: seq<Entry>, id: int, position: Position, c: RosterConfig,
                      rate: real, cdf: (int, int, real) -> real)
    requires exists i :: 0 <= i < |views| && views[i].id == id
    requires forall k, n, p :: 0.0 <= cdf(k, n, p) <= 1.0
    ensures var rank := RankIn(views, {position}, id);
            var starters := Slots(c, position) * c.teams;
            var r := StartPct(views, id, position, c, rate, cdf);
            (rank < starters ==> r == 1.0)
            && (rank >= starters && position !in c.flexPositions ==> r == 1.0 - cdf(rank - starters, rank, rate))
            && (position in c.flexPositions ==> r == 1.0 || r <= 0.25)
  {
  }
}
