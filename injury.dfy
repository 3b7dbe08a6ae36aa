/** One trial of the injury simulation (models/league.py:163-180), with the
    random draws given in advance: for every week, whether a healthy player
    gets hurt (`np.random.random_sample() <= likelihood`) and how long the
    injury lasts (`np.random.poisson(duration_mean)`). A draw is only looked
    at in a week the player enters healthy, as in the source. The weekly
    rates of a position are the mean over trials of the marked weeks. */
module Injury {

  /** The weeks of a simulated season. */
  const Weeks: nat := 16

  /** The draws of one simulated season, one per week. */
  datatype Draws = Draws(hurt: seq<bool>, length: seq<int>)

  predicate WellFormed(d: Draws)
  {
    |d.hurt| == Weeks && |d.length| == Weeks
  }

  function Min(a: int, b: int): int
  {
    if a < b then a else b
  }

  /** `injured[from:to] = [1] * (to - from)`. */
  function Mark(s: seq<int>, from: int, to: int): (r: seq<int>)
    requires 0 <= from <= to <= |s|
    ensures |r| == |s|
    ensures forall i :: 0 <= i < |s| ==> r[i] == if from <= i < to then 1 else s[i]
  {
    s[..from] + seq(to - from, _ => 1) + s[to..]
  }

  /** A new injury starts in week `w`: the player enters it healthy, the
      draw says hurt, and the drawn length is positive. */
  predicate Onset(marks: seq<int>, d: Draws, w: nat)
    requires WellFormed(d) && |marks| == Weeks && w < Weeks
  {
    marks[w] == 0 && d.hurt[w] && d.length[w] > 0
  }

  /** The marks after the first `k` weeks of the trial. */
  function Walk(d: Draws, k: nat): (r: seq<int>)
    requires WellFormed(d) && k <= Weeks
    ensures |r| == Weeks
  {
    if k == 0 then seq(Weeks, _ => 0)
    else
      var prev := Walk(d, k - 1);
      var w := k - 1;
      if Onset(prev, d, w) then Mark(prev, w, Min(w + d.length[w], Weeks)) else prev
  }

  /** The marked weeks of a whole trial. */
  function Season(d: Draws): (r: seq<int>)
    requires WellFormed(d)
    ensures |r| == Weeks
  {
    Walk(d, Weeks)
  }

  /** The loop over the 16 weeks of one trial. */
  method SimulateSeason(d: Draws) returns (injured: seq<int>)
    requires WellFormed(d)
    ensures injured == Season(d)
    ensures forall w :: 0 <= w < |injured| ==> injured[w] == 0 || injured[w] == 1
  {
    injured := seq(Weeks, _ => 0);
    var week := 0;
    while week < Weeks
      invariant 0 <= week <= Weeks
      invariant injured == Walk(d, week)
    {
      if injured[week] == 0 {
        if d.hurt[week] {
          var injuryLength := d.length[week];
          if injuryLength > 0 {
            var lastInjuredWeek := Min(week + injuryLength, Weeks);
            injured := Mark(injured, week, lastInjuredWeek);
          }
        }
      }
      week := week + 1;
    }
    WalkBinary(d, Weeks);
  }

  /** Every mark is 0 or 1. */
  lemma {:induction false} WalkBinary(d: Draws, k: nat)
    requires WellFormed(d) && k <= Weeks
    ensures forall w :: 0 <= w < Weeks ==> Walk(d, k)[w] == 0 || Walk(d, k)[w] == 1
  {
    if k > 0 {
      WalkBinary(d, k - 1);
    }
  }

  /** A marked week stays marked as the trial goes on. */
  lemma {:induction false} WalkGrows(d: Draws, j: nat, k: nat, w: nat)
    requires WellFormed(d) && j <= k <= Weeks && w < Weeks
    requires Walk(d, j)[w] == 1
    ensures Walk(d, k)[w] == 1
    decreases k - j
  {
    if j < k {
      WalkGrows(d, j, k - 1, w);
    }
  }

  /** After the first `k` weeks, week `w` is marked exactly when an injury
      began in one of them, no later than `w`, and lasts beyond `w`. */
  lemma {:induction false} WalkMarked(d: Draws, k: nat, w: nat)
    requires WellFormed(d) && k <= Weeks && w < Weeks
    ensures Walk(d, k)[w] == 1 <==>
              exists s :: 0 <= s < k && s <= w && Onset(Walk(d, s), d, s) && w < s + d.length[s]
  {
    if k > 0 {
      WalkMarked(d, k - 1, w);
      var prev := Walk(d, k - 1);
      var s := k - 1;
      if Onset(prev, d, s) && s <= w < s + d.length[s] {
        assert Walk(d, k)[w] == 1;
      }
      if Walk(d, k)[w] == 1 && !(Onset(prev, d, s) && s <= w < s + d.length[s]) {
        assert prev[w] == 1;
      }
    } else {
      assert Walk(d, 0)[w] == 0;
    }
  }

  /** A week of the season is injured exactly when an injury that started in
      it or in an earlier week the player entered healthy, with a positive
      drawn length, still runs: its start plus its length lies beyond the
      week. */
  lemma SeasonMarked(d: Draws, w: nat)
    requires WellFormed(d) && w < Weeks
    ensures Season(d)[w] == 1 <==>
              exists s :: 0 <= s <= w && Onset(Walk(d, s), d, s) && w < s + d.length[s]
  {
    WalkMarked(d, Weeks, w);
  }

  /** A week the player enters injured draws nothing: no injury starts in it. */
  lemma NoRerollWhileInjured(d: Draws, w: nat)
    requires WellFormed(d) && w < Weeks && Walk(d, w)[w] == 1
    ensures !Onset(Walk(d, w), d, w)
    ensures Walk(d, w + 1) == Walk(d, w)
  {
  }

  /** The number of trials in which week `w` is marked. */
  function Count(seasons: seq<seq<int>>, w: nat): (n: int)
  {
    if seasons == [] then 0
    else
      var last := seasons[|seasons| - 1];
      Count(seasons[..|seasons| - 1], w) + (if w < |last| && last[w] == 1 then 1 else 0)
  }

  lemma {:induction false} CountBounds(seasons: seq<seq<int>>, w: nat)
    ensures 0 <= Count(seasons, w) <= |seasons|
  {
    if seasons != [] {
      CountBounds(seasons[..|seasons| - 1], w);
    }
  }

  /** `injury_weeks.mean(axis=0)` over trials whose marks are 0 or 1: the
      share of trials in which each week is marked. */
  function Rates(seasons: seq<seq<int>>): (r: seq<real>)
    requires |seasons| > 0
    requires forall t, w :: 0 <= t < |seasons| && 0 <= w < |seasons[t]| ==> seasons[t][w] == 0 || seasons[t][w] == 1
    ensures |r| == Weeks
    ensures forall w :: 0 <= w < Weeks ==> 0.0 <= r[w] <= 1.0
  {
    var n := |seasons| as real;
    var r := seq(Weeks, w requires 0 <= w < Weeks => Count(seasons, w) as real / n);
    forall w | 0 <= w < Weeks ensures 0.0 <= r[w] <= 1.0 {
      CountBounds(seasons, w);
    }
    r
  }

  /** The trials of one position: every trial's marks, then their mean per
      week. Each rate is a probability. */
  method SimulatePosition(trials: seq<Draws>) returns (rates: seq<real>)
    requires |trials| > 0 && forall t :: 0 <= t < |trials| ==> WellFormed(trials[t])
    ensures |rates| == Weeks
    ensures forall w :: 0 <= w < Weeks ==> 0.0 <= rates[w] <= 1.0
    ensures forall w :: 0 <= w < Weeks ==>
              rates[w] == Count(seq(|trials|, t requires 0 <= t < |trials| => Season(trials[t])), w) as real
                          / |trials| as real
  {
    var injuryWeeks: seq<seq<int>> := [];
    var simulation := 0;
    while simulation < |trials|
      invariant 0 <= simulation <= |trials| && |injuryWeeks| == simulation
      invariant forall t :: 0 <= t < simulation ==> injuryWeeks[t] == Season(trials[t])
      invariant forall t, w :: 0 <= t < simulation && 0 <= w < |injuryWeeks[t]| ==>
                  injuryWeeks[t][w] == 0 || injuryWeeks[t][w] == 1
    {
      var injured := SimulateSeason(trials[simulation]);
      injuryWeeks := injuryWeeks + [injured];
      simulation := simulation + 1;
    }
    assert injuryWeeks == seq(|trials|, t requires 0 <= t < |trials| => Season(trials[t]));
    rates := Rates(injuryWeeks);
  }
}
