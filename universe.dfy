/** Merging the projection feed into the player universe by id
    (models/league.py:101-107), as functions of the records seen so far:
    which ids exist, in which order they arrived, what each player's
    per-week records are and which record created it. The loop that
    performs the merge is `Leagues.League.FillPlayerUniverse`. */
module Universe {
  import opened Scoring

  /** The ids of a sequence of projection records. */
  function IdsOf(projs: seq<Projection>): (r: set<int>)
  {
    set p | p in projs :: p.id
  }

  lemma IdsOfStep(projs: seq<Projection>, i: nat)
    requires i < |projs|
    ensures IdsOf(projs[..i + 1]) == IdsOf(projs[..i]) + {projs[i].id}
  {
    assert projs[..i + 1] == projs[..i] + [projs[i]];
  }

  /** The ids in order of first appearance, leaving out those already
      `known`: the order in which the universe dictionary gains its keys. */
  function Arrivals(projs: seq<Projection>, known: set<int>): seq<int>
  {
    if projs == [] then []
    else
      var prev := projs[..|projs| - 1];
      var last := projs[|projs| - 1];
      Arrivals(prev, known) + (if last.id in known || last.id in IdsOf(prev) then [] else [last.id])
  }

  lemma ArrivalsStep(projs: seq<Projection>, known: set<int>, i: nat)
    requires i < |projs|
    ensures Arrivals(projs[..i + 1], known)
         == Arrivals(projs[..i], known)
            + (if projs[i].id in known || projs[i].id in IdsOf(projs[..i]) then [] else [projs[i].id])
  {
    assert projs[..i + 1][..i] == projs[..i];
  }

  /** Every id arrives exactly once, unless it was already known. */
  lemma {:induction false} ArrivalsDistinct(projs: seq<Projection>, known: set<int>)
    ensures forall k :: k in Arrivals(projs, known) <==> k in IdsOf(projs) && k !in known
    ensures forall i, j :: 0 <= i < j < |Arrivals(projs, known)| ==>
              Arrivals(projs, known)[i] != Arrivals(projs, known)[j]
  {
    if projs != [] {
      var n := |projs| - 1;
      var prev := projs[..n];
      ArrivalsDistinct(prev, known);
      ArrivalsStep(projs, known, n);
      IdsOfStep(projs, n);
      assert projs[..n + 1] == projs;
    }
  }

  /** A player's records by week after the merge: each week holds the last
      record for `id` and that week, and `base` where there is none. */
  function WeeksOf(base: map<int, Projection>, projs: seq<Projection>, id: int): map<int, Projection>
  {
    if projs == [] then base
    else
      var m := WeeksOf(base, projs[..|projs| - 1], id);
      var last := projs[|projs| - 1];
      if last.id == id then m[last.week := last] else m
  }

  lemma WeeksOfStep(base: map<int, Projection>, projs: seq<Projection>, id: int, i: nat)
    requires i < |projs|
    ensures WeeksOf(base, projs[..i + 1], id)
         == if projs[i].id == id then WeeksOf(base, projs[..i], id)[projs[i].week := projs[i]]
            else WeeksOf(base, projs[..i], id)
  {
    assert projs[..i + 1][..i] == projs[..i];
  }

  /** Records for other players leave a player's weeks alone. */
  lemma {:induction false} WeeksOfAbsent(base: map<int, Projection>, projs: seq<Projection>, id: int)
    requires id !in IdsOf(projs)
    ensures WeeksOf(base, projs, id) == base
  {
    if projs != [] {
      var n := |projs| - 1;
      IdsOfStep(projs, n);
      assert projs[..n + 1] == projs;
      WeeksOfAbsent(base, projs[..n], id);
    }
  }

  /** A week holds the last record for this player and week: a later record
      for the same week replaces an earlier one. */
  lemma {:induction false} WeeksOfLatest(base: map<int, Projection>, projs: seq<Projection>, id: int, i: nat)
    requires i < |projs| && projs[i].id == id
    requires forall j :: i < j < |projs| ==> !(projs[j].id == id && projs[j].week == projs[i].week)
    ensures projs[i].week in WeeksOf(base, projs, id)
    ensures WeeksOf(base, projs, id)[projs[i].week] == projs[i]
  {
    var n := |projs| - 1;
    assert projs[..n + 1] == projs;
    if i < n {
      WeeksOfLatest(base, projs[..n], id, i);
    }
  }

  /** A week no record of this player mentions keeps what `base` had. */
  lemma {:induction false} WeeksOfUntouched(base: map<int, Projection>, projs: seq<Projection>, id: int, week: int)
    requires forall j :: 0 <= j < |projs| ==> !(projs[j].id == id && projs[j].week == week)
    ensures week in WeeksOf(base, projs, id) <==> week in base
    ensures week in base ==> WeeksOf(base, projs, id)[week] == base[week]
  {
    if projs != [] {
      var n := |projs| - 1;
      assert projs[..n + 1] == projs;
      WeeksOfUntouched(base, projs[..n], id, week);
    }
  }

  /** The first record for `id`, from which its player takes name, team
      and position. */
  function FirstFor(projs: seq<Projection>, id: int): (r: Projection)
    requires id in IdsOf(projs)
    ensures r.id == id
    ensures exists i :: 0 <= i < |projs| && projs[i] == r && forall j :: 0 <= j < i ==> projs[j].id != id
  {
    var n := |projs| - 1;
    var prev := projs[..n];
    IdsOfStep(projs, n);
    assert projs[..n + 1] == projs;
    if id in IdsOf(prev) then
      var r := FirstFor(prev, id);
      ghost var i :| 0 <= i < |prev| && prev[i] == r && forall j :: 0 <= j < i ==> prev[j].id != id;
      assert projs[i] == r && forall j :: 0 <= j < i ==> projs[j] == prev[j];
      r
    else
      assert forall j :: 0 <= j < n ==> projs[j].id != id by {
        forall j | 0 <= j < n ensures projs[j].id != id {
          assert prev[j] == projs[j];
        }
      }
      projs[n]
  }

  lemma FirstForStep(projs: seq<Projection>, id: int, i: nat)
    requires i < |projs| && id in IdsOf(projs[..i])
    ensures id in IdsOf(projs[..i + 1]) && FirstFor(projs[..i + 1], id) == FirstFor(projs[..i], id)
  {
    IdsOfStep(projs, i);
    assert projs[..i + 1][..i] == projs[..i];
  }
}
