/** The two roster moves of models/team.py:14-31 on values: a player moves
    from the league's available pool into a team's roster and back. The
    classes in module `Leagues` are proved to perform exactly these moves.
    `V` is whatever the dictionaries hold (the player objects). */
module Rosters {
  import opened Wrappers

  /** A team's roster and the league's available pool, both keyed by player id. */
  datatype Pools<V> = Pools(roster: map<int, V>, available: map<int, V>)

  /** `add_player`: an id missing from the pool is `NotAvailable` (checked
      first), a full roster is `RosterFull`; otherwise the player joins the
      roster under its id and leaves the pool. */
  function Acquire<V>(p: Pools<V>, id: int, player: V, capacity: int, teamId: int): (r: Result<Pools<V>>)
    ensures id !in p.available ==> r == Err(NotAvailable(id))
    ensures id in p.available && |p.roster| >= capacity ==> r == Err(RosterFull(teamId))
    ensures r.Ok? <==> id in p.available && |p.roster| < capacity
    ensures r.Ok? ==> id in r.value.roster && r.value.roster[id] == player && id !in r.value.available
    ensures r.Ok? ==> forall k :: k != id ==>
              (k in r.value.roster <==> k in p.roster) && (k in r.value.available <==> k in p.available)
  {
    if id !in p.available then Err(NotAvailable(id))
    else if |p.roster| < capacity then Ok(Pools(p.roster[id := player], p.available - {id}))
    else Err(RosterFull(teamId))
  }

  /** `remove_player`: an id not on the roster is `NotOnRoster`; otherwise
      the player leaves the roster and returns to the pool under its id. */
  function Release<V>(p: Pools<V>, id: int): (r: Result<Pools<V>>)
    ensures r.Ok? <==> id in p.roster
    ensures r.Err? ==> r.error == NotOnRoster(id)
    ensures r.Ok? ==> id !in r.value.roster && id in r.value.available
                      && r.value.available[id] == p.roster[id]
    ensures r.Ok? ==> forall k :: k != id ==>
              (k in r.value.roster <==> k in p.roster) && (k in r.value.available <==> k in p.available)
  {
    if id !in p.roster then Err(NotOnRoster(id))
    else Ok(Pools(p.roster - {id}, p.available[id := p.roster[id]]))
  }

  /** `dict.pop(id)` seen on the order of a dictionary's keys: `id` leaves
      and every other key keeps its place. */
  function Withdraw(order: seq<int>, id: int): (r: seq<int>)
    ensures forall k :: k in r <==> k in order && k != id
  {
    if order == [] then []
    else
      assert forall k :: k in order <==> k == order[0] || k in order[1..];
      if order[0] == id then Withdraw(order[1..], id) else [order[0]] + Withdraw(order[1..], id)
  }

  /** `d[id] = v` seen on the order of the keys `keys` of `d`: a new key
      goes to the end, a key already there keeps its place. */
  function Reinsert(order: seq<int>, keys: set<int>, id: int): seq<int>
  {
    if id in keys then order else order + [id]
  }

  /** No player is both available and on the roster. */
  predicate Disjoint<V>(p: Pools<V>)
  {
    p.roster.Keys !! p.available.Keys
  }

  /** Adding and then removing the same player restores both dictionaries,
      provided the roster did not hold the id and the pool held that very
      player (as it does when the two are `Disjoint`). */
  lemma AcquireReleaseRoundTrip<V>(p: Pools<V>, id: int, player: V, capacity: int, teamId: int)
    requires id !in p.roster
    requires id in p.available && p.available[id] == player
    requires Acquire(p, id, player, capacity, teamId).Ok?
    ensures Release(Acquire(p, id, player, capacity, teamId).value, id) == Ok(p)
  {
    var q := Acquire(p, id, player, capacity, teamId).value;
    assert q.roster - {id} == p.roster;
    assert q.available[id := player] == p.available;
  }

  /** Removing and then re-adding the same player restores both dictionaries;
      the roster has room again because the removal freed a place. */
  lemma ReleaseAcquireRoundTrip<V>(p: Pools<V>, id: int, capacity: int, teamId: int)
    requires Disjoint(p)
    requires id in p.roster && |p.roster| <= capacity
    ensures Release(p, id).Ok?
    ensures Acquire(Release(p, id).value, id, p.roster[id], capacity, teamId) == Ok(p)
  {
    var q := Release(p, id).value;
    RemoveOne(p.roster, id);
    assert q.roster[id := p.roster[id]] == p.roster;
    assert q.available - {id} == p.available;
  }

  /** `add_player` keeps the pool and the roster apart, keeps every player
      in one of the two, and never overfills the roster. */
  lemma AcquirePreservesInvariants<V>(p: Pools<V>, id: int, player: V, capacity: int, teamId: int)
    requires Disjoint(p) && |p.roster| <= capacity
    requires Acquire(p, id, player, capacity, teamId).Ok?
    ensures var q := Acquire(p, id, player, capacity, teamId).value;
            Disjoint(q) && |q.roster| == |p.roster| + 1 && |q.roster| <= capacity
            && q.roster.Keys + q.available.Keys == p.roster.Keys + p.available.Keys
  {
    assert id !in p.roster;
    AddOne(p.roster, id, player);
    assert (p.available - {id}).Keys == p.available.Keys - {id};
  }

  lemma AddOne<V>(m: map<int, V>, id: int, v: V)
    requires id !in m
    ensures m[id := v].Keys == m.Keys + {id}
    ensures |m[id := v]| == |m| + 1
  {
    assert m[id := v].Keys == m.Keys + {id};
  }

  /** `remove_player` keeps the pool and the roster apart, keeps every
      player in one of the two, and frees one place. */
  lemma ReleasePreservesInvariants<V>(p: Pools<V>, id: int)
    requires Disjoint(p)
    requires Release(p, id).Ok?
    ensures var q := Release(p, id).value;
            Disjoint(q) && |q.roster| == |p.roster| - 1
            && q.roster.Keys + q.available.Keys == p.roster.Keys + p.available.Keys
  {
    var roster, available := p.roster - {id}, p.available[id := p.roster[id]];
    assert Release(p, id) == Ok(Pools(roster, available));
    RemoveOne(p.roster, id);
    assert available.Keys == p.available.Keys + {id};
    assert roster.Keys !! available.Keys;
    MoveKey(p.roster.Keys, p.available.Keys, id);
  }

  lemma RemoveOne<V>(m: map<int, V>, id: int)
    requires id in m
    ensures (m - {id}).Keys == m.Keys - {id}
    ensures |m - {id}| == |m| - 1
  {
    assert (m - {id}).Keys == m.Keys - {id};
  }

  /** Moving a key from one set to another keeps their union. */
  lemma MoveKey(a: set<int>, b: set<int>, id: int)
    requires id in a
    ensures (a - {id}) + (b + {id}) == a + b
  {
  }
}
