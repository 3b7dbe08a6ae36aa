/** Auction pricing and the draft board (models/league.py:251-283): the
    league's remaining money shared out in proportion to value over
    replacement, and the best available players by a chosen metric. */
module Auction {
  import opened Wrappers
  import opened Sums
  import opened Settings
  import opened Ranking

  /** A price as numpy computes it: a number, or `nan` from dividing by a
      zero total value (every available player is then worth 0, and 0/0 is
      `nan`). */
  datatype Price = Value(amount: real) | NotANumber

  /** The money left in the league: every team's budget less its kicker and
      defense dollar, less what has been spent. */
  function TotalAvailableBudget(c: RosterConfig, spent: int): int
    requires c.auctionBudget.Some?
  {
    (c.auctionBudget.value - c.defense - c.kicker) * c.teams - spent
  }

  /** `vor * budget / total`. */
  function Share(vor: real, budget: int, total: real): real
    requires total != 0.0
  {
    vor * (budget as real) / total
  }

  function PriceOf(vor: real, budget: int, total: real): (r: Price)
    ensures r.NotANumber? <==> total == 0.0
  {
    if total == 0.0 then NotANumber else Value(Share(vor, budget, total))
  }

  /** The auction value of every available player: its share of the budget
      in proportion to its value over replacement. */
  ghost function Allocation(vors: map<int, real>, budget: int): (r: map<int, Price>)
    ensures r.Keys == vors.Keys
  {
    map k | k in vors :: PriceOf(vors[k], budget, MapSum(vors))
  }

  /** The pricing loop of `calculate_auction_values`: the total first, then
      every player's share of `budget`. */
  method Allocate(vors: map<int, real>, budget: int) returns (prices: map<int, Price>)
    ensures prices == Allocation(vors, budget)
  {
    var total := SumOfValues(vors);
    prices := map[];
    var left := vors.Keys;
    while left != {}
      invariant left <= vors.Keys
      invariant prices.Keys == vors.Keys - left
      invariant forall k :: k in prices ==> prices[k] == PriceOf(vors[k], budget, total)
      decreases left
    {
      var k := Pick(left);
      prices := prices[k := PriceOf(vors[k], budget, total)];
      left := left - {k};
    }
    assert prices.Keys == Allocation(vors, budget).Keys;
    assert forall k :: k in prices ==> prices[k] == Allocation(vors, budget)[k];
  }

  /** Prices that are all numbers or all `nan`. */
  predicate Uniform(prices: map<int, Price>)
  {
    (forall k :: k in prices ==> prices[k].Value?) || (forall k :: k in prices ==> prices[k].NotANumber?)
  }

  /** One allocation never mixes numbers with `nan`: every price is `nan`
      exactly when the total value is zero. */
  lemma AllocationUniform(vors: map<int, real>, budget: int)
    ensures Uniform(Allocation(vors, budget))
    ensures forall k :: k in vors ==> (Allocation(vors, budget)[k].NotANumber? <==> MapSum(vors) == 0.0)
  {
  }

  /** The amounts of a priced allocation. */
  ghost function Amounts(prices: map<int, Price>): (r: map<int, real>)
    requires forall k :: k in prices ==> prices[k].Value?
    ensures r.Keys == prices.Keys
  {
    map k | k in prices :: prices[k].amount
  }

  lemma ShareAdd(a: real, b: real, budget: int, total: real)
    requires total != 0.0
    ensures Share(a, budget, total) + Share(b, budget, total) == Share(a + b, budget, total)
  {
    assert a * (budget as real) + b * (budget as real) == (a + b) * (budget as real);
  }

  /** Sharing every value of `m` is sharing their sum. */
  lemma {:induction false} SumOfShares<K>(m: map<K, real>, budget: int, total: real)
    requires total != 0.0
    ensures MapSum(map k | k in m :: Share(m[k], budget, total)) == Share(MapSum(m), budget, total)
    decreases m.Keys
  {
    var shares := map k | k in m :: Share(m[k], budget, total);
    if m.Keys == {} {
      assert shares.Keys == {};
    } else {
      var k :| k in m;
      SumRemove(m, k);
      SumRemove(shares, k);
      var rest := m - {k};
      assert shares - {k} == map j | j in rest :: Share(rest[j], budget, total);
      SumOfShares(rest, budget, total);
      ShareAdd(m[k], MapSum(rest), budget, total);
    }
  }

  /** When the available players are worth anything at all, their auction
      values add up to exactly the money left in the league. */
  lemma AllocationSpendsBudget(vors: map<int, real>, budget: int)
    requires MapSum(vors) != 0.0
    ensures forall k :: k in Allocation(vors, budget) ==> Allocation(vors, budget)[k].Value?
    ensures MapSum(Amounts(Allocation(vors, budget))) == budget as real
  {
    var total := MapSum(vors);
    var amounts := Amounts(Allocation(vors, budget));
    assert amounts == map k | k in vors :: Share(vors[k], budget, total) by {
      forall k | k in vors ensures amounts[k] == Share(vors[k], budget, total) {
        assert Allocation(vors, budget)[k] == Value(Share(vors[k], budget, total));
      }
    }
    SumOfShares(vors, budget, total);
    ShareOfWhole(budget, total);
  }

  lemma ShareOfWhole(budget: int, total: real)
    requires total != 0.0
    ensures Share(total, budget, total) == budget as real
  {
    var b := budget as real;
    assert total * b == b * total;
  }

  /** Prices are proportional to value: a player worth more is priced at
      least as high whenever the budget is not negative. */
  lemma AllocationMonotone(vors: map<int, real>, budget: int, i: int, j: int)
    requires budget >= 0 && MapSum(vors) > 0.0
    requires i in vors && j in vors && vors[i] <= vors[j]
    ensures Allocation(vors, budget)[i].amount <= Allocation(vors, budget)[j].amount
  {
    var total := MapSum(vors);
    var b := budget as real;
    assert vors[i] * b <= vors[j] * b by {
      assert vors[j] * b - vors[i] * b == (vors[j] - vors[i]) * b;
    }
  }

  /** numpy's `np.round`: the nearest integer, ties to the even one. */
  function RoundHalfEven(x: real): (r: int)
    ensures -0.5 <= x - r as real <= 0.5
    ensures (x - r as real == 0.5 || x - r as real == -0.5) ==> r % 2 == 0
  {
    var f := x.Floor;
    var d := x - f as real;
    if d < 0.5 then f
    else if d > 0.5 then f + 1
    else if f % 2 == 0 then f
    else f + 1
  }

  /** Rounding never reverses an order. */
  lemma RoundMonotone(x: real, y: real)
    requires x <= y
    ensures RoundHalfEven(x) <= RoundHalfEven(y)
  {
    if x.Floor < y.Floor {
      assert RoundHalfEven(x) <= x.Floor + 1 <= y.Floor <= RoundHalfEven(y);
    }
  }

  /** The players eligible for the board: all of them, or those at the
      requested position. */
  function Eligible(candidates: seq<Entry>, position: Option<Position>): seq<Entry>
  {
    if position.Some? then FilterIn(candidates, {position.value}) else candidates
  }

  /** The eligible players sorted by the metric, best first, cut by the
      Python slice `[:n]`. */
  function Top(candidates: seq<Entry>, position: Option<Position>, n: int): (r: seq<Entry>)
    ensures r == SortDesc(Eligible(candidates, position))[..SliceLen(n, |Eligible(candidates, position)|)]
    ensures n >= 0 ==> |r| <= n
    ensures forall x :: x in r ==> x in candidates
    ensures position.Some? ==> forall x :: x in r ==> x.position == position.value
    ensures SortedDesc(r)
  {
    var eligible := Eligible(candidates, position);
    var ranked := SortDesc(eligible);
    SortedPrefix(eligible, ranked, SliceLen(n, |eligible|));
    ranked[..SliceLen(n, |eligible|)]
  }

  /** A prefix of a sorted permutation of `s` is sorted and holds only
      entries of `s`. */
  lemma SortedPrefix(s: seq<Entry>, ranked: seq<Entry>, k: nat)
    requires multiset(ranked) == multiset(s) && SortedDesc(ranked) && k <= |ranked|
    ensures SortedDesc(ranked[..k]) && forall x :: x in ranked[..k] ==> x in s
  {
    var top := ranked[..k];
    SameMembers(ranked, s);
    forall i, j | 0 <= i < j < |top| ensures top[i].points >= top[j].points {
      assert top[i] == ranked[i] && top[j] == ranked[j];
    }
  }

  /** Each board entry paired with its rounded metric. */
  function Rounded(top: seq<Entry>): (r: seq<(Entry, int)>)
    requires SortedDesc(top)
    ensures |r| == |top|
    ensures forall i :: 0 <= i < |r| ==> r[i].0 == top[i] && r[i].1 == RoundHalfEven(top[i].points)
    ensures forall i, j :: 0 <= i < j < |r| ==> r[i].1 >= r[j].1
  {
    var r := seq(|top|, i requires 0 <= i < |top| => (top[i], RoundHalfEven(top[i].points)));
    forall i, j | 0 <= i < j < |r| ensures r[i].1 >= r[j].1 {
      RoundMonotone(top[j].points, top[i].points);
    }
    r
  }

  /** The entries of the board's rows. */
  function Entries(rows: seq<(Entry, int)>): (r: seq<Entry>)
    ensures |r| == |rows| && forall i :: 0 <= i < |rows| ==> r[i] == rows[i].0
  {
    seq(|rows|, i requires 0 <= i < |rows| => rows[i].0)
  }

  /** `best_available_players(position, n)`: the best `n` eligible players
      by the metric, best first, each with its rounded metric. */
  function BestAvailable(candidates: seq<Entry>, position: Option<Position>, n: int): (r: seq<(Entry, int)>)
    ensures Entries(r) == Top(candidates, position, n)
    ensures n >= 0 ==> |r| <= n
    ensures |r| == SliceLen(n, |Eligible(candidates, position)|)
    ensures forall i :: 0 <= i < |r| ==> r[i].0 in candidates && r[i].1 == RoundHalfEven(r[i].0.points)
    ensures position.Some? ==> forall i :: 0 <= i < |r| ==> r[i].0.position == position.value
    ensures forall i, j :: 0 <= i < j < |r| ==> r[i].0.points >= r[j].0.points && r[i].1 >= r[j].1
  {
    var top := Top(candidates, position, n);
    assert forall i :: 0 <= i < |top| ==> top[i] in top;
    Rounded(top)
  }

  /** No eligible player left off the board has a better metric than one
      on it. */
  lemma BestAvailableIsTop(candidates: seq<Entry>, position: Option<Position>, n: int, x: Entry)
    requires x in Eligible(candidates, position) && x !in Top(candidates, position, n)
    ensures forall y :: y in Top(candidates, position, n) ==> x.points <= y.points
  {
    var ranked := SortDesc(Eligible(candidates, position));
    var top := Top(candidates, position, n);
    assert x in multiset(ranked);
    var j :| 0 <= j < |ranked| && ranked[j] == x;
    assert j >= |top| by {
      assert forall i :: 0 <= i < |top| ==> top[i] == ranked[i];
    }
    forall y | y in top ensures x.points <= y.points {
      var i :| 0 <= i < |top| && top[i] == y;
      assert ranked[i] == y;
    }
  }

  /** Players tied on the metric reach the board in the order the
      candidates list them: the board's entries tied on any value are a
      prefix of the eligible candidates tied on it. */
  lemma BestAvailableTies(candidates: seq<Entry>, position: Option<Position>, n: int, v: real)
    ensures Tied(Entries(BestAvailable(candidates, position, n)), v) <= Tied(Eligible(candidates, position), v)
  {
    var eligible := Eligible(candidates, position);
    TiedPrefix(SortDesc(eligible), SliceLen(n, |eligible|), v);
  }
}
