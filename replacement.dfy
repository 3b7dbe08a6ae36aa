/** The replacement-level partition of models/league.py:182-249.

    The ranking of the whole player universe by season points is cut in five
    steps: the starters at each position (plus a tenth of the bench at
    quarterback), then the flex starters and the rest of the bench among the
    flex-eligible positions. Each step takes a Python slice of the players at
    its positions and removes them by id. The first player left at each
    position sets that position's replacement level. */
module Replacement {
  import opened Wrappers
  import opened Settings
  import opened Ranking

  /** `filter(lambda x: x.id not in ids, s)`. */
  function Without(s: seq<Entry>, ids: seq<int>): (r: seq<Entry>)
    ensures |r| <= |s|
    ensures forall x :: x in r ==> x in s && x.id !in ids
  {
    if s == [] then []
    else if s[0].id in ids then Without(s[1..], ids)
    else [s[0]] + Without(s[1..], ids)
  }

  lemma {:induction false} WithoutConcat(a: seq<Entry>, b: seq<Entry>, ids: seq<int>)
    ensures Without(a + b, ids) == Without(a, ids) + Without(b, ids)
  {
    if a == [] {
      assert a + b == b;
    } else {
      assert (a + b)[1..] == a[1..] + b;
      WithoutConcat(a[1..], b, ids);
    }
  }

  lemma {:induction false} WithoutKeepsAll(s: seq<Entry>, ids: seq<int>)
    requires forall x :: x in s ==> x.id !in ids
    ensures Without(s, ids) == s
  {
    if s != [] {
      assert s[0] in s;
      assert forall x :: x in s[1..] ==> x in s;
      WithoutKeepsAll(s[1..], ids);
      assert s == [s[0]] + s[1..];
    }
  }

  lemma {:induction false} WithoutDropsAll(s: seq<Entry>, ids: seq<int>)
    requires forall x :: x in s ==> x.id in ids
    ensures Without(s, ids) == []
  {
    if s != [] {
      assert s[0] in s;
      assert forall x :: x in s[1..] ==> x in s;
      WithoutDropsAll(s[1..], ids);
    }
  }

  lemma {:induction false} WithoutFilter(s: seq<Entry>, ids: seq<int>, ps: set<Position>)
    ensures FilterIn(Without(s, ids), ps) == Without(FilterIn(s, ps), ids)
  {
    if s != [] {
      WithoutFilter(s[1..], ids, ps);
    }
  }

  lemma {:induction false} WithoutUnique(s: seq<Entry>, ids: seq<int>)
    requires UniqueIds(s)
    ensures UniqueIds(Without(s, ids))
  {
    if s != [] {
      assert s == [s[0]] + s[1..];
      UniqueCons(s[0], s[1..]);
      WithoutUnique(s[1..], ids);
      if s[0].id !in ids {
        UniqueCons(s[0], Without(s[1..], ids));
      }
    }
  }

  /** The players one step takes: the first `k` (a Python slice bound) of
      those whose position is in `ps`. */
  function Chosen(s: seq<Entry>, ps: set<Position>, k: int): (r: seq<Entry>)
    ensures |r| == SliceLen(k, |FilterIn(s, ps)|)
    ensures forall x :: x in r ==> x in s && x.position in ps
  {
    var f := FilterIn(s, ps);
    f[..SliceLen(k, |f|)]
  }

  /** One step splits every position's ranking in two: the players it took
      at that position come first, those it left follow. */
  lemma {:induction false} StageSplits(s: seq<Entry>, ps: set<Position>, k: int, q: Position)
    requires UniqueIds(s)
    ensures AtPos(s, q) == AtPos(Chosen(s, ps, k), q) + AtPos(Without(s, Ids(Chosen(s, ps, k))), q)
  {
    var t := Chosen(s, ps, k);
    WithoutFilter(s, Ids(t), {q});
    if q in ps {
      StageSplitsTaken(s, ps, k, q);
    } else {
      StageSplitsOther(s, ps, k, q);
    }
  }

  lemma {:induction false} IdsOfMembers(t: seq<Entry>)
    ensures forall x :: x in t ==> x.id in Ids(t)
  {
    forall x | x in t ensures x.id in Ids(t) {
      var i :| 0 <= i < |t| && t[i] == x;
      assert Ids(t)[i] == x.id;
    }
  }

  /** In a list without repeated ids, no id of a prefix occurs after it. */
  lemma {:induction false} PrefixIdsDisjoint(f: seq<Entry>, n: nat)
    requires UniqueIds(f) && n <= |f|
    ensures forall x :: x in f[n..] ==> x.id !in Ids(f[..n])
  {
    var ids := Ids(f[..n]);
    forall x | x in f[n..] ensures x.id !in ids {
      var j :| 0 <= j < |f[n..]| && f[n..][j] == x;
      assert f[n + j] == x;
      forall i | 0 <= i < |ids| ensures ids[i] != x.id {
        assert ids[i] == f[i].id;
      }
    }
  }

  /** At a position the step takes from, the step removes a prefix. */
  lemma {:induction false} StageSplitsTaken(s: seq<Entry>, ps: set<Position>, k: int, q: Position)
    requires UniqueIds(s) && q in ps
    ensures AtPos(s, q) == AtPos(Chosen(s, ps, k), q) + Without(AtPos(s, q), Ids(Chosen(s, ps, k)))
  {
    var f := FilterIn(s, ps);
    PrefixSplit(s, ps, SliceLen(k, |f|), q);
  }

  lemma {:induction false} PrefixSplit(s: seq<Entry>, ps: set<Position>, n: nat, q: Position)
    requires UniqueIds(s) && q in ps && n <= |FilterIn(s, ps)|
    ensures AtPos(s, q) == AtPos(FilterIn(s, ps)[..n], q) + Without(AtPos(s, q), Ids(FilterIn(s, ps)[..n]))
  {
    var f := FilterIn(s, ps);
    var t, rest := f[..n], f[n..];
    var ids := Ids(t);
    FilterFilter(s, ps, {q});
    assert ps * {q} == {q};
    assert f == t + rest;
    FilterConcat(t, rest, {q});
    assert AtPos(s, q) == AtPos(t, q) + AtPos(rest, q);
    WithoutConcat(AtPos(t, q), AtPos(rest, q), ids);
    IdsOfMembers(t);
    WithoutDropsAll(AtPos(t, q), ids);
    FilterUnique(s, ps);
    PrefixIdsDisjoint(f, n);
    WithoutKeepsAll(AtPos(rest, q), ids);
    assert Without(AtPos(s, q), ids) == AtPos(rest, q);
  }

  /** At a position the step does not take from, the step removes nobody. */
  lemma {:induction false} StageSplitsOther(s: seq<Entry>, ps: set<Position>, k: int, q: Position)
    requires UniqueIds(s) && q !in ps
    ensures var t := Chosen(s, ps, k);
            AtPos(t, q) == [] && Without(AtPos(s, q), Ids(t)) == AtPos(s, q)
  {
    var t := Chosen(s, ps, k);
    var ids := Ids(t);
    forall x | x in t ensures x.position !in {q} {
    }
    FilterNone(t, {q});
    forall x | x in AtPos(s, q) ensures x.id !in ids {
      forall i | 0 <= i < |ids| ensures ids[i] != x.id {
        assert t[i] in t;
        assert t[i] != x;
        UniqueDiffer(s, t[i], x);
      }
    }
    WithoutKeepsAll(AtPos(s, q), ids);
  }

  /** The players the partition has taken out so far, and those still ranked. */
  datatype Split = Split(removed: seq<Entry>, remaining: seq<Entry>)

  /** The positions and the slice bound of each removal step, in the order
      the source performs them. */
  function Steps(c: RosterConfig): (r: seq<(set<Position>, int)>)
    ensures |r| == 5
  {
    [({QB}, StarterCount(c, QB)), ({WR}, StarterCount(c, WR)),
     ({RB}, StarterCount(c, RB)), ({TE}, StarterCount(c, TE)),
     (FlexSet(c), c.flex * c.teams + BenchAfterQuarterbacks(c))]
  }

  /** `player.position in flex_positions`. */
  function FlexSet(c: RosterConfig): set<Position>
  {
    set p | p in c.flexPositions
  }

  /** The state after performing `steps` in order on the ranking `s`. */
  function Apply(s: seq<Entry>, steps: seq<(set<Position>, int)>): Split
  {
    if steps == [] then Split([], s)
    else
      var prev := Apply(s, steps[..|steps| - 1]);
      var chosen := Chosen(prev.remaining, steps[|steps| - 1].0, steps[|steps| - 1].1);
      Split(prev.removed + chosen, Without(prev.remaining, Ids(chosen)))
  }

  /** Performing one more step extends the fold by that step. */
  lemma ApplyStep(s: seq<Entry>, steps: seq<(set<Position>, int)>, i: nat)
    requires i < |steps|
    ensures var prev := Apply(s, steps[..i]);
            var chosen := Chosen(prev.remaining, steps[i].0, steps[i].1);
            Apply(s, steps[..i + 1]) == Split(prev.removed + chosen, Without(prev.remaining, Ids(chosen)))
  {
    assert steps[..i + 1][..i] == steps[..i];
  }

  /** However many steps are performed, the remaining list keeps unique
      ids and holds no one new. */
  lemma {:induction false} ApplyUnique(s: seq<Entry>, steps: seq<(set<Position>, int)>)
    requires UniqueIds(s)
    ensures UniqueIds(Apply(s, steps).remaining)
    ensures forall x :: x in Apply(s, steps).remaining ==> x in s
  {
    if steps != [] {
      var n := |steps| - 1;
      ApplyUnique(s, steps[..n]);
      ApplyStep(s, steps, n);
      assert steps[..n + 1] == steps;
      var prev := Apply(s, steps[..n]);
      WithoutUnique(prev.remaining, Ids(Chosen(prev.remaining, steps[n].0, steps[n].1)));
    }
  }

  /** However many steps are performed, the players taken at position `q`
      are a prefix of that position's ranking and the rest of it is still
      ranked. */
  lemma {:induction false} ApplySplits(s: seq<Entry>, steps: seq<(set<Position>, int)>, q: Position)
    requires UniqueIds(s)
    ensures AtPos(s, q) == AtPos(Apply(s, steps).removed, q) + AtPos(Apply(s, steps).remaining, q)
  {
    if steps == [] {
      assert AtPos([], q) == [];
    } else {
      var n := |steps| - 1;
      ApplySplits(s, steps[..n], q);
      ApplyUnique(s, steps[..n]);
      ApplyStep(s, steps, n);
      assert steps[..n + 1] == steps;
      var prev := Apply(s, steps[..n]);
      var chosen := Chosen(prev.remaining, steps[n].0, steps[n].1);
      StageSplits(prev.remaining, steps[n].0, steps[n].1, q);
      SplitsStep(s, prev, chosen, Without(prev.remaining, Ids(chosen)), q);
    }
  }

  /** One step keeps the split of a position's ranking: what it takes joins
      the removed part, and what it leaves stays in the remaining part. */
  lemma SplitsStep(s: seq<Entry>, prev: Split, chosen: seq<Entry>, rest: seq<Entry>, q: Position)
    requires AtPos(s, q) == AtPos(prev.removed, q) + AtPos(prev.remaining, q)
    requires AtPos(prev.remaining, q) == AtPos(chosen, q) + AtPos(rest, q)
    ensures AtPos(s, q) == AtPos(prev.removed + chosen, q) + AtPos(rest, q)
  {
    FilterConcat(prev.removed, chosen, {q});
  }

  function Partition(ranking: seq<Entry>, c: RosterConfig): Split
  {
    Apply(ranking, Steps(c))
  }

  /** The first player left at position `q`, if any. */
  function Best(remaining: seq<Entry>, q: Position): Option<Entry>
  {
    var f := AtPos(remaining, q);
    if f == [] then None else Some(f[0])
  }

  /** The season points of the first player left at each position, after
      the count check at models/league.py:238-241 (`CountMismatch`); a
      position with nobody left is `NoReplacement`. */
  function Levels(p: Split, c: RosterConfig): (r: Result<map<Position, real>>)
    ensures r.Ok? ==> forall q: Position :: q in r.value
  {
    if |p.removed| != RosteredCount(c) then Err(CountMismatch)
    else if Best(p.remaining, QB).None? || Best(p.remaining, WR).None?
         || Best(p.remaining, RB).None? || Best(p.remaining, TE).None? then Err(NoReplacement)
    else
      var levels := map[QB := Best(p.remaining, QB).value.points, WR := Best(p.remaining, WR).value.points,
                        RB := Best(p.remaining, RB).value.points, TE := Best(p.remaining, TE).value.points];
      assert forall q: Position :: q in levels by {
        forall q: Position ensures q in levels {
          assert q.QB? || q.WR? || q.RB? || q.TE?;
        }
      }
      Ok(levels)
  }

  /** The four position steps and the flex step of the partition, each
      rebinding `remaining_players` and extending `removed_ids`. */
  method PartitionRanking(ranking: seq<Entry>, c: RosterConfig) returns (removedIds: seq<int>, remaining: seq<Entry>)
    ensures remaining == Partition(ranking, c).remaining
    ensures removedIds == Ids(Partition(ranking, c).removed)
  {
    var steps := Steps(c);
    remaining := ranking;
    removedIds := [];
    ghost var removed: seq<Entry> := [];
    var i := 0;
    while i < |steps|
      invariant 0 <= i <= |steps|
      invariant Split(removed, remaining) == Apply(ranking, steps[..i])
      invariant removedIds == Ids(removed)
    {
      var positionFiltered := FilterIn(remaining, steps[i].0);
      var taken := positionFiltered[..SliceLen(steps[i].1, |positionFiltered|)];
      var idsToRemove := Ids(taken);
      ApplyStep(ranking, steps, i);
      IdsConcat(removed, taken);
      remaining := Without(remaining, idsToRemove);
      removedIds := removedIds + idsToRemove;
      removed := removed + taken;
      i := i + 1;
    }
    assert steps[..i] == steps;
  }

  lemma LevelsComplete(p: Split, c: RosterConfig, levels: map<Position, real>)
    requires |p.removed| == RosteredCount(c)
    requires QB in levels && WR in levels && RB in levels && TE in levels
    requires forall q :: q in levels ==> Best(p.remaining, q).Some? && levels[q] == Best(p.remaining, q).value.points
    ensures Levels(p, c) == Ok(levels)
  {
    var a, b, d, e := Best(p.remaining, QB), Best(p.remaining, WR), Best(p.remaining, RB), Best(p.remaining, TE);
    assert a.Some? && b.Some? && d.Some? && e.Some?;
    var want := map[QB := a.value.points, WR := b.value.points, RB := d.value.points, TE := e.value.points];
    assert Levels(p, c) == Ok(want);
    assert want[QB] == levels[QB] && want[WR] == levels[WR] && want[RB] == levels[RB] && want[TE] == levels[TE];
    forall q | q in levels ensures q in want {
      assert q.QB? || q.WR? || q.RB? || q.TE?;
    }
    assert want.Keys == levels.Keys;
    forall q | q in want ensures want[q] == levels[q] {
      assert q.QB? || q.WR? || q.RB? || q.TE?;
    }
    assert want == levels;
  }

  lemma LevelsMissing(p: Split, c: RosterConfig, q: Position)
    requires |p.removed| == RosteredCount(c)
    requires Best(p.remaining, q).None?
    ensures Levels(p, c) == Err(NoReplacement)
  {
    assert q.QB? || q.WR? || q.RB? || q.TE?;
  }

  /** `calculate_replacement_level` from the ranking on: the partition, the
      count check, and the pick of the first player left at each position. */
  method CalculateReplacementLevel(ranking: seq<Entry>, c: RosterConfig) returns (r: Result<map<Position, real>>)
    ensures r == Levels(Partition(ranking, c), c)
  {
    var removedIds, remaining := PartitionRanking(ranking, c);
    ghost var p := Partition(ranking, c);
    assert |removedIds| == |p.removed|;
    if |removedIds| != RosteredCount(c) {
      return Err(CountMismatch);
    }
    var levels: map<Position, real> := map[];
    var positions := [QB, WR, RB, TE];
    var j := 0;
    while j < |positions|
      invariant 0 <= j <= |positions|
      invariant forall k :: 0 <= k < j ==> positions[k] in levels
      invariant forall q :: q in levels ==> Best(remaining, q).Some? && levels[q] == Best(remaining, q).value.points
    {
      var positionFiltered := AtPos(remaining, positions[j]);
      if positionFiltered == [] {
        LevelsMissing(p, c, positions[j]);
        return Err(NoReplacement);
      }
      levels := levels[positions[j] := positionFiltered[0].points];
      j := j + 1;
    }
    assert positions[0] in levels && positions[1] in levels;
    assert positions[2] in levels && positions[3] in levels;
    LevelsComplete(p, c, levels);
    r := Ok(levels);
  }

  /** A position's level is the points of the first player left there. */
  lemma LevelsAt(p: Split, c: RosterConfig, q: Position)
    requires Levels(p, c).Ok?
    ensures Best(p.remaining, q).Some? && Levels(p, c).value[q] == Best(p.remaining, q).value.points
  {
    match q
    case QB =>
    case WR =>
    case RB =>
    case TE =>
  }

  /** In a list sorted best first and cut in two, everything before the cut
      is at least as good as the first entry after it, and everything after
      it is at most as good. */
  lemma SortedCut(r: seq<Entry>, a: seq<Entry>, b: seq<Entry>)
    requires r == a + b && SortedDesc(r) && b != []
    ensures r[|a|] == b[0]
    ensures forall x :: x in a ==> x.points >= b[0].points
    ensures forall x :: x in b ==> x.points <= b[0].points
  {
    forall x | x in a ensures x.points >= b[0].points {
      var i :| 0 <= i < |a| && a[i] == x;
      assert r[i] == x && r[|a|] == b[0];
    }
    forall x | x in b ensures x.points <= b[0].points {
      var j :| 0 <= j < |b| && b[j] == x;
      if j > 0 {
        assert r[|a| + j] == x && r[|a|] == b[0];
      }
    }
  }

  /** On a ranking sorted by season points, a position's replacement level
      is the season points of the best player at that position the partition
      did not remove: the one right after the removed prefix of that
      position's ranking. It is at most the points of every removed player
      at the position and at least those of every other player left. */
  lemma {:induction false} LevelBounds(ranking: seq<Entry>, c: RosterConfig, q: Position)
    requires UniqueIds(ranking) && SortedDesc(ranking)
    requires Levels(Partition(ranking, c), c).Ok?
    ensures var p := Partition(ranking, c);
            var level := Levels(p, c).value[q];
            |AtPos(p.removed, q)| < |AtPos(ranking, q)|
            && level == AtPos(ranking, q)[|AtPos(p.removed, q)|].points
            && (forall x :: x in AtPos(p.removed, q) ==> x.points >= level)
            && (forall x :: x in AtPos(p.remaining, q) ==> x.points <= level)
  {
    var p := Partition(ranking, c);
    ApplySplits(ranking, Steps(c), q);
    FilterSorted(ranking, {q});
    var a, b := AtPos(p.removed, q), AtPos(p.remaining, q);
    LevelsAt(p, c, q);
    SortedCut(AtPos(ranking, q), a, b);
  }

  /** Every step finds at least as many players as its bound lets it take. */
  ghost predicate EveryStepFull(s: seq<Entry>, steps: seq<(set<Position>, int)>)
  {
    forall i :: 0 <= i < |steps| ==>
      0 <= steps[i].1 <= |FilterIn(Apply(s, steps[..i]).remaining, steps[i].0)|
  }

  /** The sum of the steps' bounds. */
  function StepTotal(steps: seq<(set<Position>, int)>): int
  {
    if steps == [] then 0 else StepTotal(steps[..|steps| - 1]) + steps[|steps| - 1].1
  }

  /** When every step finds enough players, `removed_ids` grows by exactly
      each step's bound. */
  lemma {:induction false} RemovedCount(s: seq<Entry>, steps: seq<(set<Position>, int)>)
    requires EveryStepFull(s, steps)
    ensures |Apply(s, steps).removed| == StepTotal(steps)
  {
    if steps != [] {
      var n := |steps| - 1;
      assert EveryStepFull(s, steps[..n]) by {
        forall i | 0 <= i < n ensures steps[..n][..i] == steps[..i] {
        }
      }
      RemovedCount(s, steps[..n]);
      ApplyStep(s, steps, n);
      assert steps[..n + 1] == steps;
    }
  }

  /** The bounds of the five steps add up to every starting slot of every
      team plus the two rounded parts of the bench. */
  lemma StepsTotal(c: RosterConfig)
    ensures StepTotal(Steps(c))
         == c.qb * c.teams + c.wr * c.teams + c.rb * c.teams + c.te * c.teams + c.flex * c.teams
            + RoundTenth(TotalBenchSpots(c)) + RoundTenth(9 * TotalBenchSpots(c))
  {
    var steps := Steps(c);
    assert steps[..5] == steps;
    assert StepTotal(steps[..1]) == steps[0].1 by { assert steps[..1][..0] == []; }
    assert StepTotal(steps[..2]) == StepTotal(steps[..1]) + steps[1].1 by { assert steps[..2][..1] == steps[..1]; }
    assert StepTotal(steps[..3]) == StepTotal(steps[..2]) + steps[2].1 by { assert steps[..3][..2] == steps[..2]; }
    assert StepTotal(steps[..4]) == StepTotal(steps[..3]) + steps[3].1 by { assert steps[..4][..3] == steps[..3]; }
    assert StepTotal(steps) == StepTotal(steps[..4]) + steps[4].1;
    assert steps[0].1 == c.qb * c.teams + RoundTenth(TotalBenchSpots(c));
    assert steps[1].1 == c.wr * c.teams && steps[2].1 == c.rb * c.teams && steps[3].1 == c.te * c.teams;
  }

  /** The players the count check demands are the bench plus every starting
      slot of every team. */
  lemma RosteredIsBenchPlusStarters(c: RosterConfig)
    ensures RosteredCount(c)
         == TotalBenchSpots(c) + c.qb * c.teams + c.wr * c.teams + c.rb * c.teams + c.te * c.teams + c.flex * c.teams
  {
    var t := c.teams;
    assert TotalBenchSpots(c) == t * c.rosterSize - t * (c.defense + c.kicker + c.qb + c.rb + c.wr + c.te + c.flex);
    assert t * (c.defense + c.kicker + c.qb + c.rb + c.wr + c.te + c.flex)
        == t * c.defense + t * c.kicker + t * c.qb + t * c.rb + t * c.wr + t * c.te + t * c.flex;
  }

  /** When every step finds enough players, the count check at
      models/league.py:238-241 passes exactly when the bench size does not
      end in 5: the quarterback tenth and the remaining nine tenths are
      rounded separately, half to even, and then lose or gain a spot. */
  lemma {:induction false} CountCheckPasses(ranking: seq<Entry>, c: RosterConfig)
    requires EveryStepFull(ranking, Steps(c))
    ensures |Partition(ranking, c).removed| == RosteredCount(c) <==> TotalBenchSpots(c) % 10 != 5
  {
    RemovedCount(ranking, Steps(c));
    StepsTotal(c);
    RosteredIsBenchPlusStarters(c);
    BenchSplitConserves(TotalBenchSpots(c));
  }

  /** Nine teams of fourteen with the default starting slots have 45 bench
      spots: 4 go to quarterbacks and 40 stay, one short, so the count check
      fails however deep the player pool is. */
  lemma NineTeamLeagueFailsCount(ranking: seq<Entry>, c: RosterConfig)
    requires c == RosterConfig(9, 14, 1, 1, 1, 2, 2, 1, 1, [RB, WR, TE], None)
    requires EveryStepFull(ranking, Steps(c))
    ensures TotalBenchSpots(c) == 45 && RosteredCount(c) == 108
    ensures |Partition(ranking, c).removed| == 107
    ensures Levels(Partition(ranking, c), c) == Err(CountMismatch)
  {
    assert RoundTenth(45) == 4 && RoundTenth(405) == 40;
    RemovedCount(ranking, Steps(c));
    StepsTotal(c);
  }
}
