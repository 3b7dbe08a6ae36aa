/** The league and its teams (models/league.py, models/team.py): the
    settings merge, team creation, the projection merge into the player
    universe, the replacement level and auction values computed at setup,
    the draft board, the name lookups and the roster moves. Projections,
    the injury table and the binomial CDF are given to the constructor. */
module Leagues {
  import opened Wrappers
  import opened Sums
  import opened Settings
  import opened Scoring
  import opened Players
  import opened Ranking
  import Replacement
  import opened Valuation
  import opened Auction
  import opened Rosters
  import opened Universe
  import opened Text

  /** `str(team.name)`: a team without a name prints as "None". */
  function NameText(name: Option<string>): string
  {
    if name.Some? then name.value else "None"
  }

  /** What `player_fuzzy_match` returns: the one player found, or the list
      of all of them. */
  datatype FuzzyMatch = One(player: Player) | Many(players: seq<Player>)

  /** The injury table: for each position, the share of simulated seasons
      in which a player of that position is hurt, week by week. */
  ghost predicate InjuryTable(injury: map<Position, seq<real>>)
  {
    forall q: Position :: q in injury && |injury[q]| == 16
      && forall w :: 0 <= w < 16 ==> 0.0 <= injury[q][w] <= 1.0
  }

  /** A binomial CDF: every value is a probability. */
  ghost predicate CdfInRange(cdf: (int, int, real) -> real)
  {
    forall k, n, p :: 0.0 <= cdf(k, n, p) <= 1.0
  }

  /** `order` lists every key of `keys` exactly once. */
  ghost predicate Listing(order: seq<int>, keys: set<int>)
  {
    (forall i, j :: 0 <= i < j < |order| ==> order[i] != order[j])
    && (forall k :: k in keys <==> k in order)
  }

  /** A new key goes at the end of the listing. */
  lemma ListingAppend(order: seq<int>, keys: set<int>, id: int)
    requires Listing(order, keys) && id !in keys
    ensures Listing(order + [id], keys + {id})
  {
  }

  /** `dict.pop(id)` keeps the order a listing of the remaining keys. */
  lemma {:induction false} ListingWithdraw(order: seq<int>, keys: set<int>, id: int)
    requires Listing(order, keys)
    ensures Listing(Withdraw(order, id), keys - {id})
  {
    if order != [] {
      assert forall k :: k in order <==> k == order[0] || k in order[1..];
      ListingWithdraw(order[1..], keys - {order[0]}, id);
      var rest := Withdraw(order[1..], id);
      if order[0] != id {
        assert order[0] !in rest;
        var r := [order[0]] + rest;
        forall i, j | 0 <= i < j < |r| ensures r[i] != r[j] {
          if i == 0 {
            assert r[j] in rest;
          } else {
            assert r[i] == rest[i - 1] && r[j] == rest[j - 1];
          }
        }
      }
    }
  }

  /** `d[id] = v` keeps the order a listing of the keys, `id` included. */
  lemma ListingReinsert(order: seq<int>, keys: set<int>, id: int)
    requires Listing(order, keys)
    ensures Listing(Reinsert(order, keys, id), keys + {id})
  {
    if id in keys {
      assert keys + {id} == keys;
    } else {
      ListingAppend(order, keys, id);
    }
  }

  /** No id occurs twice. */
  predicate Distinct(ids: seq<int>)
  {
    forall i, j :: 0 <= i < j < |ids| ==> ids[i] != ids[j]
  }

  /** The ids of `ids` that are in `keep`, in order: the list comprehensions
      `[id for id, x in d.items() if ...]` over a dictionary whose keys come
      in the order `ids`. */
  function Select(ids: seq<int>, keep: set<int>): (r: seq<int>)
    ensures forall k :: k in r <==> k in ids && k in keep
    ensures Distinct(ids) ==> Distinct(r)
  {
    if ids == [] then []
    else
      var rest := Select(ids[1..], keep);
      assert forall k :: k in ids <==> k == ids[0] || k in ids[1..];
      if ids[0] in keep then [ids[0]] + rest else rest
  }

  /** An index of `order` holding `id`, or `|order|` when none does: over
      a dictionary's keys, the place of that key. */
  function Place(order: seq<int>, id: int): (n: nat)
    ensures n <= |order| && (n < |order| <==> id in order)
    ensures n < |order| ==> order[n] == id
  {
    if order == [] then 0
    else if order[0] == id then 0
    else 1 + Place(order[1..], id)
  }

  /** The ids of `ids` come in the order `order` lists them. */
  ghost predicate Follows(ids: seq<int>, order: seq<int>)
  {
    forall i, j :: 0 <= i < j < |ids| ==> Place(order, ids[i]) < Place(order, ids[j])
  }

  /** `Select` keeps the order of `ids`. */
  lemma {:induction false} SelectKeepsOrder(ids: seq<int>, keep: set<int>)
    requires Distinct(ids)
    ensures Follows(Select(ids, keep), ids)
  {
    if ids != [] {
      var x, t := ids[0], ids[1..];
      var rest := Select(t, keep);
      assert ids == [x] + t;
      assert Distinct(t);
      SelectKeepsOrder(t, keep);
      assert x !in rest;
      if x in keep {
        FollowsCons(x, rest, t);
      } else {
        FollowsBehind(x, rest, t);
      }
    }
  }

  /** A head that the tail does not list goes first in the order. */
  lemma FollowsCons(x: int, r: seq<int>, t: seq<int>)
    requires Follows(r, t) && x !in r
    ensures Follows([x] + r, [x] + t)
  {
    var xs, xt := [x] + r, [x] + t;
    assert xt[0] == x && xt[1..] == t;
    forall i, j | 0 <= i < j < |xs| ensures Place(xt, xs[i]) < Place(xt, xs[j]) {
      var b := r[j - 1];
      assert xs[j] == b && b in r;
      assert Place(xt, b) == 1 + Place(t, b);
      if i > 0 {
        var a := r[i - 1];
        assert xs[i] == a && a in r;
        assert Place(xt, a) == 1 + Place(t, a);
        assert Place(t, a) < Place(t, b);
      }
    }
  }

  /** Ids that are not the head keep their relative order behind it. */
  lemma FollowsBehind(x: int, r: seq<int>, t: seq<int>)
    requires Follows(r, t) && x !in r
    ensures Follows(r, [x] + t)
  {
    var xt := [x] + t;
    assert xt[0] == x && xt[1..] == t;
    forall i, j | 0 <= i < j < |r| ensures Place(xt, r[i]) < Place(xt, r[j]) {
      assert r[i] in r && r[j] in r;
    }
  }

  /** The tuple unpacking `x, = [...]` over the matching ids succeeds
      exactly when one id matches, and then yields that id. */
  lemma SelectOne(ids: seq<int>, keep: set<int>)
    requires Distinct(ids) && forall k :: k in keep ==> k in ids
    ensures |Select(ids, keep)| == 1 <==> exists k :: keep == {k}
    ensures |Select(ids, keep)| == 1 ==> keep == {Select(ids, keep)[0]}
  {
    var r := Select(ids, keep);
    if |r| == 1 {
      assert r[0] in r;
      forall j | j in keep ensures j == r[0] {
        assert j in r;
      }
      assert keep == {r[0]};
    } else if exists k :: keep == {k} {
      var k :| keep == {k};
      assert k in r;
      DistinctPair(r);
    }
  }

  /** `ps` lists the players of `universe` whose ids are in `found`: each
      under its own id, each once, every one of them, and in the order
      `order` gives the keys, which is exactly `Select(order, found)`. */
  ghost predicate MatchList(ps: seq<Player>, universe: map<int, Player>, order: seq<int>, found: set<int>)
  {
    |ps| == |Select(order, found)|
    && (forall i :: 0 <= i < |ps| ==> ps[i].id == Select(order, found)[i])
    && (forall i :: 0 <= i < |ps| ==> ps[i].id in found && ps[i].id in universe && ps[i] == universe[ps[i].id])
    && (forall k :: k in found ==> exists i :: 0 <= i < |ps| && ps[i].id == k)
    && (forall i, j :: 0 <= i < j < |ps| ==> ps[i] != ps[j])
    && (forall i, j :: 0 <= i < j < |ps| ==> Place(order, ps[i].id) < Place(order, ps[j].id))
  }

  /** Looking up the selected ids in dictionary order gives the match list. */
  lemma Matched(universe: map<int, Player>, order: seq<int>, found: set<int>)
    requires forall k :: k in universe ==> universe[k].id == k
    requires Listing(order, universe.Keys) && found <= universe.Keys
    ensures forall i :: 0 <= i < |Select(order, found)| ==> Select(order, found)[i] in universe
    ensures MatchList(Lookup(universe, Select(order, found)), universe, order, found)
  {
    var ids := Select(order, found);
    assert Distinct(order);
    assert forall i :: 0 <= i < |ids| ==> ids[i] in ids;
    SelectKeepsOrder(order, found);
    var ps := Lookup(universe, ids);
    forall k | k in found ensures exists i :: 0 <= i < |ps| && ps[i].id == k {
      assert k in ids;
      var i :| 0 <= i < |ids| && ids[i] == k;
      assert ps[i].id == k;
    }
  }

  /** A list of distinct ids with more than one entry holds two different ids. */
  lemma DistinctPair(r: seq<int>)
    requires Distinct(r) && |r| >= 2
    ensures r[0] in r && r[1] in r && r[0] != r[1]
  {
  }

  /** What the valuation reads of a player: its position, its records by
      week and its memo. */
  datatype Card = Card(position: Position, weeks: map<int, Projection>, points: map<int, real>)

  /** Every card after `season_points()`. */
  ghost function SeasonCards(cards: map<int, Card>, scoring: map<string, real>): (r: map<int, Card>)
    ensures r.Keys == cards.Keys
  {
    map k | k in cards :: cards[k].(points := SeasonCache(cards[k].points, cards[k].weeks, scoring))
  }

  /** Every listed player has a card whose memo holds exactly weeks 1 to
      16, as every memo does once `season_points` has run on an empty one. */
  predicate Seasoned(order: seq<int>, cards: map<int, Card>)
  {
    forall j :: 0 <= j < |order| ==> order[j] in cards && cards[order[j]].points.Keys == SeasonWeeks
  }

  lemma SeasonedHas(order: seq<int>, cards: map<int, Card>)
    requires Seasoned(order, cards)
    ensures forall k :: k in order ==> k in cards && cards[k].points.Keys == SeasonWeeks
  {
    forall k | k in order ensures k in cards && cards[k].points.Keys == SeasonWeeks {
      var j :| 0 <= j < |order| && order[j] == k;
    }
  }

  /** `np.array([points_by_week[w] for w in sorted(points_by_week)])` on a
      memo holding weeks 1 to 16. */
  function WeekPoints(cache: map<int, real>): (r: seq<real>)
    requires cache.Keys == SeasonWeeks
    ensures |r| == 16 && forall w :: 0 <= w < 16 ==> r[w] == cache[w + 1]
  {
    seq(16, w requires 0 <= w < 16 => cache[w + 1])
  }

  /** The universe in dictionary order, each player keyed by its cached
      points for `week`: the key `weekly_points(week)` on a settled memo. */
  function WeekViews(order: seq<int>, cards: map<int, Card>, week: int): (r: seq<Entry>)
    requires Seasoned(order, cards) && week in SeasonWeeks
    ensures |r| == |order|
    ensures forall j :: 0 <= j < |order| ==>
              r[j] == Entry(order[j], cards[order[j]].position, cards[order[j]].points[week])
  {
    seq(|order|, j requires 0 <= j < |order| => Entry(order[j], cards[order[j]].position, cards[order[j]].points[week]))
  }

  /** `team_independent_start_pct(week)` of player `id`, whose injury rate
      is its own position's rate in that week. */
  function StartPctOf(order: seq<int>, cards: map<int, Card>, id: int, c: RosterConfig,
                      injury: map<Position, seq<real>>, cdf: (int, int, real) -> real, week: int): (r: real)
    requires Seasoned(order, cards) && id in order && week in SeasonWeeks
    requires InjuryTable(injury) && CdfInRange(cdf)
    ensures 0.0 <= r <= 1.0
  {
    var views := WeekViews(order, cards, week);
    SeasonedHas(order, cards);
    var position := cards[id].position;
    assert exists i :: 0 <= i < |views| && views[i].id == id by {
      var i :| 0 <= i < |order| && order[i] == id;
      assert views[i].id == id;
    }
    StartPct(views, id, position, c, injury[position][week - 1], cdf)
  }

  /** The start percentages of weeks 1 to 16. */
  function StartPcts(order: seq<int>, cards: map<int, Card>, id: int, c: RosterConfig,
                     injury: map<Position, seq<real>>, cdf: (int, int, real) -> real): (r: seq<real>)
    requires Seasoned(order, cards) && id in order
    requires InjuryTable(injury) && CdfInRange(cdf)
    ensures |r| == 16
    ensures forall w :: 0 <= w < 16 ==> 0.0 <= r[w] <= 1.0
  {
    seq(16, w requires 0 <= w < 16 => StartPctOf(order, cards, id, c, injury, cdf, w + 1))
  }

  /** `value_over_replacement(auction)` of player `id`: its memo against
      its position's injury row and replacement level, weighted by the
      start percentages in auction mode. */
  function Vor(order: seq<int>, cards: map<int, Card>, id: int, c: RosterConfig,
               injury: map<Position, seq<real>>, levels: map<Position, real>,
               cdf: (int, int, real) -> real, auction: bool): (r: real)
    requires Seasoned(order, cards) && id in order
    requires InjuryTable(injury) && CdfInRange(cdf)
    requires forall q: Position :: q in levels
    ensures r >= 0.0
  {
    SeasonedHas(order, cards);
    var card := cards[id];
    var points := WeekPoints(card.points);
    var pcts := if auction then Some(StartPcts(order, cards, id, c, injury, cdf)) else None;
    VorNonNegative(points, injury[card.position], levels[card.position], pcts);
    ValueOverReplacement(points, injury[card.position], levels[card.position], pcts).value
  }

  /** Weighting by start percentages never raises a player's value. */
  lemma VorAuctionAtMostPlain(order: seq<int>, cards: map<int, Card>, id: int, c: RosterConfig,
                              injury: map<Position, seq<real>>, levels: map<Position, real>,
                              cdf: (int, int, real) -> real)
    requires Seasoned(order, cards) && id in order
    requires InjuryTable(injury) && CdfInRange(cdf)
    requires forall q: Position :: q in levels
    ensures Vor(order, cards, id, c, injury, levels, cdf, true)
         <= Vor(order, cards, id, c, injury, levels, cdf, false)
  {
    SeasonedHas(order, cards);
    var card := cards[id];
    AuctionVorAtMostPlain(WeekPoints(card.points), injury[card.position], levels[card.position],
                          StartPcts(order, cards, id, c, injury, cdf));
  }

  /** The auction-mode value of every available player. */
  function AuctionVors(order: seq<int>, cards: map<int, Card>, available: set<int>, c: RosterConfig,
                       injury: map<Position, seq<real>>, levels: map<Position, real>,
                       cdf: (int, int, real) -> real): (r: map<int, real>)
    requires Seasoned(order, cards) && forall k :: k in available ==> k in order
    requires InjuryTable(injury) && CdfInRange(cdf)
    requires forall q: Position :: q in levels
    ensures r.Keys == available
    ensures forall k :: k in r ==> r[k] >= 0.0
  {
    var r := map k | k in available :: Vor(order, cards, k, c, injury, levels, cdf, true);
    assert forall k :: k in r ==> r[k] == Vor(order, cards, k, c, injury, levels, cdf, true);
    r
  }

  /** The available players in pool order, each with the metric the
      board sorts on. */
  function Candidates(order: seq<int>, cards: map<int, Card>, available: set<int>,
                      metric: map<int, real>): (r: seq<Entry>)
    requires forall k :: k in order && k in available ==> k in cards && k in metric
    ensures Ids(r) == Select(order, available)
    ensures forall x :: x in r ==>
              x.id in order && x.id in available && x.position == cards[x.id].position
              && x.points == metric[x.id]
    ensures forall k :: k in order && k in available ==> exists x :: x in r && x.id == k
  {
    if order == [] then []
    else
      var k := order[0];
      var rest := Candidates(order[1..], cards, available, metric);
      assert forall j :: j in order <==> j == k || j in order[1..];
      if k in available then
        var head := Entry(k, cards[k].position, metric[k]);
        assert head in [head] + rest;
        assert ([head] + rest)[1..] == rest;
        [head] + rest
      else rest
  }

  /** The players the board considers, in pool order: every available one,
      or only those at the requested position. */
  function EligibleIds(pool: seq<int>, cards: map<int, Card>, position: Option<Position>): (r: seq<int>)
    requires forall k :: k in pool ==> k in cards
    ensures forall k :: k in r <==> k in pool && (position.None? || cards[k].position == position.value)
  {
    if pool == [] then []
    else
      var k := pool[0];
      assert forall j :: j in pool <==> j == k || j in pool[1..];
      var rest := EligibleIds(pool[1..], cards, position);
      if position.None? || cards[k].position == position.value then [k] + rest else rest
  }

  /** The first of `ids` without an auction value: the player whose sort
      key raises the KeyError of `auction_value`. */
  function Unpriced(ids: seq<int>, prices: map<int, Price>): (r: Option<int>)
    ensures r.None? <==> forall k :: k in ids ==> k in prices
    ensures r.Some? ==> r.value in ids && r.value !in prices
    ensures r.Some? ==> exists j :: 0 <= j < |ids| && ids[j] == r.value && forall i :: 0 <= i < j ==> ids[i] in prices
  {
    if ids == [] then None
    else if ids[0] !in prices then
      var k := ids[0];
      assert k in ids && k !in prices;
      Some(k)
    else
      assert forall j :: j in ids <==> j == ids[0] || j in ids[1..];
      var r := Unpriced(ids[1..], prices);
      if r.Some? then
        var j :| 0 <= j < |ids[1..]| && ids[1..][j] == r.value && forall i :: 0 <= i < j ==> ids[1..][i] in prices;
        assert ids[j + 1] == r.value && forall i :: 0 <= i < j + 1 ==> ids[i] in prices;
        r
      else r
  }

  /** The numeric auction values, 0 for a player without one. */
  function Amount(prices: map<int, Price>, k: int): real
  {
    if k in prices && prices[k].Value? then prices[k].amount else 0.0
  }

  /** The metric the board ranks by: the auction value, or the value over
      replacement, of every available player. */
  function Metric(order: seq<int>, cards: map<int, Card>, available: set<int>, c: RosterConfig,
                  injury: map<Position, seq<real>>, levels: map<Position, real>,
                  cdf: (int, int, real) -> real, prices: map<int, Price>, auction: bool): (m: map<int, real>)
    requires Seasoned(order, cards) && forall k :: k in available ==> k in order
    requires InjuryTable(injury) && CdfInRange(cdf)
    requires forall q: Position :: q in levels
    ensures m.Keys == available
  {
    if auction then map k | k in available :: Amount(prices, k)
    else map k | k in available :: Vor(order, cards, k, c, injury, levels, cdf, false)
  }

  /** A row of the board: an available player, of the requested position
      when there is one, with its numeric auction value or its value over
      replacement, and that metric rounded half to even. */
  predicate OnBoard(row: (Entry, int), order: seq<int>, cards: map<int, Card>, available: set<int>,
                    c: RosterConfig, injury: map<Position, seq<real>>, levels: map<Position, real>,
                    cdf: (int, int, real) -> real, prices: map<int, Price>,
                    position: Option<Position>, auction: bool)
    requires Seasoned(order, cards) && forall k :: k in available ==> k in order
    requires InjuryTable(injury) && CdfInRange(cdf)
    requires forall q: Position :: q in levels
  {
    var e := row.0;
    e.id in available && e.id in cards && e.position == cards[e.id].position
    && (position.Some? ==> e.position == position.value)
    && (if auction then e.id in prices && prices[e.id].Value? && e.points == prices[e.id].amount
        else e.points == Vor(order, cards, e.id, c, injury, levels, cdf, false))
    && row.1 == RoundHalfEven(e.points)
  }

  /** What `best_available_players` returns: rows ranked by a numeric
      metric, each with its rounding; or, when the auction value of every
      eligible player is `nan` (so that no comparison holds and the sort
      keeps its input), the first players in pool order, each shown with
      `nan` as value and as rounding. */
  datatype Rows = Ranked(rows: seq<(Entry, int)>) | Unranked(ids: seq<int>)

  /** How the auction values of the eligible players decide the board. */
  datatype Pricing = Missing(id: int) | AllNaN | Mixed | Numeric

  /** `Missing` names the first eligible player without an auction value;
      otherwise the values are all `nan` (and there is at least one), all
      numbers, or a mix of the two. */
  function Classify(ids: seq<int>, prices: map<int, Price>): (p: Pricing)
    ensures p.Missing? <==> Unpriced(ids, prices).Some?
    ensures p.Missing? ==> p.id == Unpriced(ids, prices).value
    ensures p == AllNaN <==>
              (forall k :: k in ids ==> k in prices && prices[k].NotANumber?) && ids != []
    ensures p == Numeric <==> forall k :: k in ids ==> k in prices && prices[k].Value?
    ensures p == Mixed <==>
              (forall k :: k in ids ==> k in prices)
              && (exists k :: k in ids && prices[k].NotANumber?) && (exists k :: k in ids && prices[k].Value?)
  {
    var missing := Unpriced(ids, prices);
    if missing.Some? then Missing(missing.value)
    else if ids != [] && forall k :: k in ids ==> prices[k].NotANumber? then AllNaN
    else if exists k :: k in ids && prices[k].NotANumber? then Mixed
    else Numeric
  }

  /** `best_available_players(position, n, auction)` on values. The players
      of the pool `pool` (the keys of `available`, in dictionary order) are
      ranked by value over replacement, or by auction value when `auction`
      holds. An eligible player missing from the auction values is
      `NotPriced`; eligible values that are all `nan` leave the pool order
      as it is; numbers mixed with `nan` are `UnorderedPrices`. */
  function Board(order: seq<int>, cards: map<int, Card>, pool: seq<int>, available: set<int>, c: RosterConfig,
                 injury: map<Position, seq<real>>, levels: map<Position, real>,
                 cdf: (int, int, real) -> real, prices: map<int, Price>,
                 position: Option<Position>, n: int, auction: bool): (r: Result<Rows>)
    requires Seasoned(order, cards) && forall k :: k in available ==> k in order
    requires forall k :: k in pool <==> k in available
    requires InjuryTable(injury) && CdfInRange(cdf)
    requires forall q: Position :: q in levels
    ensures var ids := EligibleIds(pool, cards, position);
            var p := Classify(ids, prices);
            && (!auction || p.Numeric? <==> r.Ok? && r.value.Ranked?)
            && (auction && p.Missing? ==> r == Err(NotPriced(p.id)))
            && (auction && p.Mixed? ==> r == Err(UnorderedPrices))
            && (auction && p.AllNaN? ==> r == Ok(Unranked(ids[..SliceLen(n, |ids|)])))
    ensures r.Ok? && r.value.Ranked? ==>
              r.value.rows == BestAvailable(Candidates(pool, cards, available,
                                                       Metric(order, cards, available, c, injury, levels, cdf, prices, auction)),
                                            position, n)
    ensures r.Ok? && r.value.Ranked? ==> n >= 0 ==> |r.value.rows| <= n
    ensures r.Ok? && r.value.Ranked? ==> forall i :: 0 <= i < |r.value.rows| ==>
              OnBoard(r.value.rows[i], order, cards, available, c, injury, levels, cdf, prices, position, auction)
    ensures r.Ok? && r.value.Ranked? ==> forall i, j :: 0 <= i < j < |r.value.rows| ==>
              r.value.rows[i].0.points >= r.value.rows[j].0.points && r.value.rows[i].1 >= r.value.rows[j].1
  {
    SeasonedHas(order, cards);
    var ids := EligibleIds(pool, cards, position);
    var pricing := if auction then Classify(ids, prices) else Numeric;
    match pricing
    case Missing(k) => Err(NotPriced(k))
    case AllNaN => Ok(Unranked(ids[..SliceLen(n, |ids|)]))
    case Mixed => Err(UnorderedPrices)
    case Numeric =>
      BoardRows(order, cards, pool, available, c, injury, levels, cdf, prices, position, n, auction);
      Ok(Ranked(BestAvailable(Candidates(pool, cards, available,
                                         Metric(order, cards, available, c, injury, levels, cdf, prices, auction)),
                              position, n)))
  }

  /** Once every eligible player has a numeric auction value, each row of
      the board ranked by `Metric` is a row `OnBoard` describes. */
  lemma BoardRows(order: seq<int>, cards: map<int, Card>, pool: seq<int>, available: set<int>, c: RosterConfig,
                  injury: map<Position, seq<real>>, levels: map<Position, real>,
                  cdf: (int, int, real) -> real, prices: map<int, Price>,
                  position: Option<Position>, n: int, auction: bool)
    requires Seasoned(order, cards) && forall k :: k in available ==> k in order
    requires forall k :: k in pool <==> k in available
    requires InjuryTable(injury) && CdfInRange(cdf)
    requires forall q: Position :: q in levels
    requires forall k :: k in order ==> k in cards
    requires auction ==> forall k :: k in EligibleIds(pool, cards, position) ==> k in prices && prices[k].Value?
    ensures var r := BestAvailable(Candidates(pool, cards, available,
                                              Metric(order, cards, available, c, injury, levels, cdf, prices, auction)),
                                   position, n);
            forall i :: 0 <= i < |r| ==>
              OnBoard(r[i], order, cards, available, c, injury, levels, cdf, prices, position, auction)
  {
    var metric := Metric(order, cards, available, c, injury, levels, cdf, prices, auction);
    var candidates := Candidates(pool, cards, available, metric);
    var r := BestAvailable(candidates, position, n);
    forall i | 0 <= i < |r|
      ensures OnBoard(r[i], order, cards, available, c, injury, levels, cdf, prices, position, auction)
    {
      var e := r[i].0;
      assert e in candidates;
      assert e.id in available && e.points == metric[e.id];
      assert e.id in EligibleIds(pool, cards, position);
    }
  }

  /** With prices that are all numbers or all `nan`, as every allocation
      is, the board is never `UnorderedPrices`. */
  lemma UniformPricesOrdered(order: seq<int>, cards: map<int, Card>, pool: seq<int>, available: set<int>,
                             c: RosterConfig, injury: map<Position, seq<real>>, levels: map<Position, real>,
                             cdf: (int, int, real) -> real, prices: map<int, Price>,
                             position: Option<Position>, n: int, auction: bool)
    requires Seasoned(order, cards) && forall k :: k in available ==> k in order
    requires forall k :: k in pool <==> k in available
    requires InjuryTable(injury) && CdfInRange(cdf)
    requires forall q: Position :: q in levels
    requires Uniform(prices)
    ensures Board(order, cards, pool, available, c, injury, levels, cdf, prices, position, n, auction)
            != Err(UnorderedPrices)
  {
  }

  /** Players tied on the metric come onto a ranked board in pool order:
      the board's entries tied on any value are a prefix of the eligible
      available players tied on it, listed as the pool lists them. */
  lemma BoardTies(order: seq<int>, cards: map<int, Card>, pool: seq<int>, available: set<int>, c: RosterConfig,
                  injury: map<Position, seq<real>>, levels: map<Position, real>,
                  cdf: (int, int, real) -> real, prices: map<int, Price>,
                  position: Option<Position>, n: int, auction: bool, v: real)
    requires Seasoned(order, cards) && forall k :: k in available ==> k in order
    requires forall k :: k in pool <==> k in available
    requires InjuryTable(injury) && CdfInRange(cdf)
    requires forall q: Position :: q in levels
    requires Board(order, cards, pool, available, c, injury, levels, cdf, prices, position, n, auction).Ok?
    requires Board(order, cards, pool, available, c, injury, levels, cdf, prices, position, n, auction).value.Ranked?
    ensures var candidates := Candidates(pool, cards, available,
                                         Metric(order, cards, available, c, injury, levels, cdf, prices, auction));
            var rows := Board(order, cards, pool, available, c, injury, levels, cdf, prices, position, n, auction).value.rows;
            && Ids(candidates) == Select(pool, available)
            && Tied(Entries(rows), v) <= Tied(Eligible(candidates, position), v)
  {
    var metric := Metric(order, cards, available, c, injury, levels, cdf, prices, auction);
    var candidates := Candidates(pool, cards, available, metric);
    BestAvailableTies(candidates, position, n, v);
  }

  /** Player `p`'s season ranking entry: id, position and the sum of its memo. */
  ghost predicate SeasonEntry(e: Entry, p: Player)
    reads p`pointsByWeek
  {
    e == Entry(p.id, p.position, MapSum(p.pointsByWeek))
  }

  /** The universe in dictionary order, each player keyed by the sum of its
      memo: what `sorted(..., key=season_points)` ranks. */
  ghost function SeasonRanking(order: seq<int>, cards: map<int, Card>): (r: seq<Entry>)
    requires forall k :: k in order ==> k in cards
    ensures |r| == |order|
    ensures forall j :: 0 <= j < |order| ==>
              order[j] in cards && r[j] == Entry(order[j], cards[order[j]].position, MapSum(cards[order[j]].points))
  {
    if order == [] then []
    else
      var k := order[|order| - 1];
      assert k in order;
      SeasonRanking(order[..|order| - 1], cards) + [Entry(k, cards[k].position, MapSum(cards[k].points))]
  }

  lemma SlicesGrow(s: seq<int>, i: nat)
    requires i < |s|
    ensures forall k :: k in s[..i + 1] <==> k in s[..i] || k == s[i]
  {
    assert s[..i + 1] == s[..i] + [s[i]];
  }

  /** `range(n)`. */
  function Range(n: int): (r: seq<int>)
    ensures Distinct(r) && forall k :: k in r <==> 0 <= k < n
  {
    if n <= 0 then []
    else
      var front := Range(n - 1);
      assert forall i :: 0 <= i < |front| ==> front[i] in front;
      front + [n - 1]
  }

  /** The players under `ids`, in that order. */
  function Lookup(universe: map<int, Player>, ids: seq<int>): (r: seq<Player>)
    requires forall i :: 0 <= i < |ids| ==> ids[i] in universe && universe[ids[i]].id == ids[i]
    ensures |r| == |ids|
    ensures forall i :: 0 <= i < |r| ==> r[i] == universe[ids[i]] && r[i].id == ids[i]
  {
    if ids == [] then [] else [universe[ids[0]]] + Lookup(universe, ids[1..])
  }

  /** Every card of `order` holds a memo of exactly weeks 1 to 16, and
      every memo is settled. */
  ghost predicate Prepared(order: seq<int>, cards: map<int, Card>, scoring: map<string, real>)
  {
    Seasoned(order, cards)
    && forall k :: k in cards ==> Settled(cards[k].points, cards[k].weeks, scoring)
  }

  /** The cards of a universe just filled from `projections`: the position
      of each player's first record, all its records by week, and an empty
      memo. */
  ghost function FreshCards(projections: seq<Projection>): (r: map<int, Card>)
    ensures r.Keys == IdsOf(projections)
  {
    map k | k in IdsOf(projections) ::
      Card(FirstFor(projections, k).position, WeeksOf(map[], projections, k), map[])
  }

  /** `season_points()` on players with empty memos prepares them all. */
  lemma SeasonCardsPrepared(order: seq<int>, cards: map<int, Card>, scoring: map<string, real>)
    requires forall k :: k in cards ==> cards[k].points == map[]
    requires forall j :: 0 <= j < |order| ==> order[j] in cards
    ensures Prepared(order, SeasonCards(cards, scoring), scoring)
  {
    var r := SeasonCards(cards, scoring);
    forall k | k in r
      ensures r[k].points.Keys == SeasonWeeks && Settled(r[k].points, r[k].weeks, scoring)
    {
      SeasonCacheSettled(cards[k].points, cards[k].weeks, scoring);
    }
  }

  /** The card of every player of `universe`. */
  function CardsOf(universe: map<int, Player>): (m: map<int, Card>)
    reads universe.Values`projectionsByWeek, universe.Values`pointsByWeek
    ensures m.Keys == universe.Keys
    ensures forall k :: k in m ==>
              m[k] == Card(universe[k].position, universe[k].projectionsByWeek, universe[k].pointsByWeek)
  {
    map k | k in universe :: Card(universe[k].position, universe[k].projectionsByWeek, universe[k].pointsByWeek)
  }

  /** `universe` holds one player per id of `projections`, with the name,
      NFL team and position of the first record for that id. */
  ghost predicate Introduced(universe: map<int, Player>, projections: seq<Projection>)
  {
    universe.Keys == IdsOf(projections)
    && forall k :: k in universe ==>
         && universe[k].name == FirstFor(projections, k).player
         && universe[k].nflTeam == FirstFor(projections, k).tm
         && universe[k].position == FirstFor(projections, k).position
  }

  /** One roster move: the player under `pid` joins or leaves `team`, one of
      the teams of `league`. */
  datatype Move = Move(league: League, team: Team, pid: int)

  /** `add_player` on one of the league's teams keeps the bookkeeping: the
      pool's player under `m.pid` joins `m.team` and leaves the pool, and no
      other roster and no other player's `team_id` changes. */
  twostate lemma AfterAdd(m: Move)
    requires m.team.league == m.league && unchanged(m.league`teams)
    requires m.pid in old(m.league.availablePlayers)
    requires m.team.playersById == old(m.team.playersById)[m.pid := old(m.league.availablePlayers)[m.pid]]
    requires forall t :: t in m.league.teams && m.league.teams[t] != m.team ==>
               m.league.teams[t].playersById == old(m.league.teams[t].playersById)
    requires m.league.availablePlayers == old(m.league.availablePlayers) - {m.pid}
    requires Listing(m.league.availableOrder, m.league.availablePlayers.Keys)
    requires old(m.league.availablePlayers)[m.pid].teamId == Some(m.team.id)
    requires forall q :: (q in old(m.league.Rostered()) + old(m.league.availablePlayers.Values)
                          && q != old(m.league.availablePlayers)[m.pid]) ==> q.teamId == old(q.teamId)
    ensures old(m.league.Bookkept()) && m.team.id in m.league.teams && m.league.teams[m.team.id] == m.team
            ==> m.league.Bookkept()
  {
    var Move(league, team, pid) := m;
    if !(old(league.Bookkept()) && team.id in league.teams && league.teams[team.id] == team) {
      return;
    }
    var player := old(league.availablePlayers)[pid];
    forall k | k in league.availablePlayers
      ensures league.availablePlayers[k].id == k && league.availablePlayers[k].teamId == None
    {
      assert league.availablePlayers[k] == old(league.availablePlayers)[k] && k != pid;
    }
    forall t | t in league.teams
      ensures forall k :: k in league.teams[t].playersById ==>
                && league.teams[t].playersById[k] in league.Rostered()
                && league.teams[t].playersById[k].id == k && league.teams[t].playersById[k].teamId == Some(t)
                && k !in league.availablePlayers
    {
      var roster := league.teams[t].playersById;
      assert league.teams[t] in league.teams.Values;
      forall k | k in roster
        ensures roster[k] in league.Rostered() && roster[k].id == k && roster[k].teamId == Some(t)
                && k !in league.availablePlayers
      {
        var q := roster[k];
        assert q in roster.Values;
        if k != pid {
          assert k in old(league.teams[t].playersById) && q == old(league.teams[t].playersById)[k];
          assert q.id == k && q != player;
        } else {
          assert league.teams[t] == team;
          assert t == team.id && q == player;
        }
      }
    }
    forall t, u | t in league.teams && u in league.teams && t != u
      ensures league.teams[t].playersById.Keys !! league.teams[u].playersById.Keys
    {
      assert league.teams[t] != league.teams[u];
    }
  }

  /** `remove_player` on one of the league's teams keeps the bookkeeping:
      the roster's player under `m.pid` leaves `m.team` for the pool, on no
      team, and no other roster and no other player's `team_id` changes. */
  twostate lemma AfterRemove(m: Move)
    requires m.team.league == m.league && unchanged(m.league`teams)
    requires m.pid in old(m.team.playersById)
    requires m.team.playersById == old(m.team.playersById) - {m.pid}
    requires forall t :: t in m.league.teams && m.league.teams[t] != m.team ==>
               m.league.teams[t].playersById == old(m.league.teams[t].playersById)
    requires m.league.availablePlayers == old(m.league.availablePlayers)[m.pid := old(m.team.playersById)[m.pid]]
    requires Listing(m.league.availableOrder, m.league.availablePlayers.Keys)
    requires old(m.team.playersById)[m.pid].teamId == None
    requires forall q :: (q in old(m.league.Rostered()) + old(m.league.availablePlayers.Values)
                          && q != old(m.team.playersById)[m.pid]) ==> q.teamId == old(q.teamId)
    ensures old(m.league.Bookkept()) && m.team.id in m.league.teams && m.league.teams[m.team.id] == m.team
            ==> m.league.Bookkept()
  {
    var Move(league, team, pid) := m;
    if !(old(league.Bookkept()) && team.id in league.teams && league.teams[team.id] == team) {
      return;
    }
    var removed := old(team.playersById)[pid];
    assert pid in old(league.teams[team.id].playersById);
    assert removed in old(league.Rostered()) && removed.id == pid;
    forall k | k in league.availablePlayers
      ensures league.availablePlayers[k].id == k && league.availablePlayers[k].teamId == None
    {
      if k != pid {
        assert league.availablePlayers[k] == old(league.availablePlayers)[k];
        assert league.availablePlayers[k] in old(league.availablePlayers.Values);
      }
    }
    forall t | t in league.teams
      ensures forall k :: k in league.teams[t].playersById ==>
                && league.teams[t].playersById[k] in league.Rostered()
                && league.teams[t].playersById[k].id == k && league.teams[t].playersById[k].teamId == Some(t)
                && k !in league.availablePlayers
    {
      var roster := league.teams[t].playersById;
      assert league.teams[t] in league.teams.Values;
      forall k | k in roster
        ensures roster[k] in league.Rostered() && roster[k].id == k && roster[k].teamId == Some(t)
                && k !in league.availablePlayers
      {
        var q := roster[k];
        assert q in roster.Values;
        assert k in old(league.teams[t].playersById) && q == old(league.teams[t].playersById)[k];
        assert k != pid;
        assert q.id == k && q != removed;
        assert q in old(league.Rostered());
      }
    }
  }

  class Team {
    const id: int
    const league: League
    var name: Option<string>
    var playersById: map<int, Player>

    /** A team starts with the given name, `None` by default, and an empty
        roster (models/team.py:5-9). */
    constructor (id: int, league: League, name: Option<string>)
      ensures this.id == id && this.league == league
      ensures this.name == name && playersById == map[]
    {
      this.id := id;
      this.league := league;
      this.name := name;
      playersById := map[];
    }

    /** `add_player`: the move `Rosters.Acquire` from the league's available
        pool into this roster, bounded by the league's `roster_size`; on
        success the player's `team_id` becomes this team's id. On an error
        nothing changes. */
    method AddPlayer(player: Player) returns (o: Outcome)
      modifies this`playersById, league`availablePlayers, league`availableOrder, player`teamId
      ensures var r := Acquire(Pools(old(playersById), old(league.availablePlayers)),
                               player.id, player, league.config.rosterSize, id);
              if r.Ok? then
                o == Pass && playersById == r.value.roster
                && league.availablePlayers == r.value.available && player.teamId == Some(id)
                && league.availableOrder == Withdraw(old(league.availableOrder), player.id)
              else
                o == Fail(r.error) && playersById == old(playersById)
                && league.availablePlayers == old(league.availablePlayers)
                && league.availableOrder == old(league.availableOrder)
                && player.teamId == old(player.teamId)
      ensures old(league.Bookkept()) && id in league.teams && league.teams[id] == this
              && (player.id in old(league.availablePlayers) ==> old(league.availablePlayers)[player.id] == player)
              ==> league.Bookkept()
    {
      ghost var wasKept := league.Bookkept();
      if player.id !in league.availablePlayers {
        return Fail(NotAvailable(player.id));
      }
      if |playersById| < league.config.rosterSize {
        ghost var keys := league.availablePlayers.Keys;
        playersById := playersById[player.id := player];
        player.teamId := Some(id);
        league.availablePlayers := league.availablePlayers - {player.id};
        league.availableOrder := Withdraw(league.availableOrder, player.id);
        o := Pass;
        if wasKept {
          ListingWithdraw(old(league.availableOrder), keys, player.id);
        }
        if wasKept && old(league.availablePlayers)[player.id] == player {
          AfterAdd(Move(league, this, player.id));
        }
      } else {
        o := Fail(RosterFull(id));
      }
    }

    /** `remove_player`: the move `Rosters.Release` from this roster back
        into the league's available pool; on success the removed player's
        `team_id` becomes None. No other player changes; on an error
        nothing changes. */
    method RemovePlayer(playerId: int) returns (o: Outcome)
      modifies this`playersById, league`availablePlayers, league`availableOrder, playersById.Values`teamId
      ensures var r := Release(Pools(old(playersById), old(league.availablePlayers)), playerId);
              if r.Ok? then
                o == Pass && playersById == r.value.roster
                && league.availablePlayers == r.value.available
                && old(playersById)[playerId].teamId == None
                && league.availableOrder
                   == Reinsert(old(league.availableOrder), old(league.availablePlayers).Keys, playerId)
              else
                o == Fail(r.error) && playersById == old(playersById)
                && league.availablePlayers == old(league.availablePlayers)
                && league.availableOrder == old(league.availableOrder)
      ensures forall p :: p in old(playersById).Values && !(playerId in old(playersById) && p == old(playersById)[playerId])
                ==> p.teamId == old(p.teamId)
      ensures old(league.Bookkept()) && id in league.teams && league.teams[id] == this ==> league.Bookkept()
    {
      ghost var wasKept := league.Bookkept();
      if playerId !in playersById {
        return Fail(NotOnRoster(playerId));
      }
      var keys := league.availablePlayers.Keys;
      var removed := playersById[playerId];
      playersById := playersById - {playerId};
      removed.teamId := None;
      league.availablePlayers := league.availablePlayers[playerId := removed];
      league.availableOrder := Reinsert(league.availableOrder, keys, playerId);
      o := Pass;
      if wasKept {
        ListingReinsert(old(league.availableOrder), keys, playerId);
      }
      if wasKept {
        AfterRemove(Move(league, this, playerId));
      }
    }

    /** `add_player(player)` followed by `remove_player(player.id)`, for a
        player not on this roster whom the pool, if it holds the id, holds
        as this very object. Both dictionaries end as they began. When the
        addition succeeds the removal does too, the player's `team_id` ends
        None and the id moves to the end of the pool's order; when it fails
        the removal fails as well and nothing changes. */
    method AddThenRemove(player: Player) returns (added: Outcome, removed: Outcome)
      requires player.id !in playersById
      requires player.id in league.availablePlayers ==> league.availablePlayers[player.id] == player
      modifies this`playersById, league`availablePlayers, league`availableOrder, player`teamId,
               playersById.Values`teamId
      ensures playersById == old(playersById) && league.availablePlayers == old(league.availablePlayers)
      ensures added == Pass <==> player.id in old(league.availablePlayers) && |old(playersById)| < league.config.rosterSize
      ensures added == Pass ==>
                removed == Pass && player.teamId == None
                && league.availableOrder == Withdraw(old(league.availableOrder), player.id) + [player.id]
      ensures added != Pass ==>
                removed == Fail(NotOnRoster(player.id)) && player.teamId == old(player.teamId)
                && league.availableOrder == old(league.availableOrder)
      ensures forall p :: p in old(playersById).Values && p != player ==> p.teamId == old(p.teamId)
    {
      ghost var pool, roster := league.availablePlayers, playersById;
      added := AddPlayer(player);
      if added == Pass {
        ghost var before := Pools(roster, pool);
        AcquireReleaseRoundTrip(before, player.id, player, league.config.rosterSize, id);
        assert Pools(playersById, league.availablePlayers)
               == Acquire(before, player.id, player, league.config.rosterSize, id).value;
        label added:
        removed := RemovePlayer(player.id);
        forall p | p in roster.Values && p != player
          ensures p.teamId == old(p.teamId)
        {
          assert p in old@added(playersById).Values;
        }
      } else {
        assert playersById == roster && league.availablePlayers == pool;
        removed := RemovePlayer(player.id);
      }
    }
  }

  class League {
    const scoringSettings: map<string, real>
    const rosterSettings: map<string, SettingValue>
    const config: RosterConfig
    const injury: map<Position, seq<real>>
    const binomCdf: (int, int, real) -> real
    var teams: map<int, Team>
    var playerUniverse: map<int, Player>
    /** The order in which `player_universe` gained its keys. */
    var universeOrder: seq<int>
    var availablePlayers: map<int, Player>
    /** The order in which `available_players` holds its keys: a key the
        pool regains goes to the end. */
    var availableOrder: seq<int>
    var replacementLevel: Result<map<Position, real>>
    var auctionBudgetSpent: int
    var auctionValues: map<int, Price>

    /** Every player sits under its own id, and `universeOrder` lists each
        key once. */
    ghost predicate Indexed()
      reads this`playerUniverse, this`universeOrder
    {
      (forall k :: k in playerUniverse ==> playerUniverse[k].id == k)
      && Listing(universeOrder, playerUniverse.Keys)
    }

    /** The teams are `0..teams-1`, each under its own id and in this league. */
    ghost predicate TeamsIndexed()
      reads this`teams
    {
      (forall k :: k in teams <==> 0 <= k < config.teams)
      && forall k :: k in teams ==> teams[k].id == k && teams[k].league == this
    }

    /** Every team is unnamed and has an empty roster, as `Team.__init__`
        leaves it. */
    ghost predicate TeamsEmpty()
      reads this`teams, teams.Values`name, teams.Values`playersById
    {
      forall k :: k in teams ==> teams[k].name == None && teams[k].playersById == map[]
    }


    /** No player of the universe is on a team. */
    ghost predicate Undrafted()
      reads this`playerUniverse, playerUniverse.Values`teamId
    {
      forall k :: k in playerUniverse ==> playerUniverse[k].teamId == None
    }

    /** The players on some team's roster. */
    ghost function Rostered(): set<Player>
      reads this`teams, teams.Values`playersById
    {
      set t, p | t in teams.Values && p in t.playersById.Values :: p
    }

    /** The draft bookkeeping the roster moves keep. The teams are
        `0..teams-1`; `availableOrder` lists the pool; every player in the
        pool or on a roster sits under its own id; a player in the pool is on
        no team, a rostered player's team id is its team's; no player is both
        available and rostered, and none is on two rosters. */
    ghost predicate Bookkept()
      reads this`teams, this`availablePlayers, this`availableOrder, teams.Values`playersById,
            availablePlayers.Values`teamId, Rostered()
    {
      && TeamsIndexed()
      && Listing(availableOrder, availablePlayers.Keys)
      && (forall k :: k in availablePlayers ==> availablePlayers[k].id == k && availablePlayers[k].teamId == None)
      && (forall t :: t in teams ==> forall k :: k in teams[t].playersById ==>
            && teams[t].playersById[k] in Rostered()
            && teams[t].playersById[k].id == k && teams[t].playersById[k].teamId == Some(t)
            && k !in availablePlayers)
      && (forall t, u :: t in teams && u in teams && t != u ==>
            teams[t].playersById.Keys !! teams[u].playersById.Keys)
    }

    /** What the valuation reads of each player: position and memo. */
    function Cards(): map<int, Card>
      reads this`playerUniverse, playerUniverse.Values`projectionsByWeek, playerUniverse.Values`pointsByWeek
    {
      CardsOf(playerUniverse)
    }

    /** The state `season_points` leaves behind on every player of a new
        league: each memo holds exactly weeks 1 to 16 and is settled. */
    ghost predicate Ready()
      reads this`playerUniverse, this`universeOrder, playerUniverse.Values`pointsByWeek,
            playerUniverse.Values`projectionsByWeek
    {
      Indexed() && Prepared(universeOrder, Cards(), scoringSettings)
    }

    lemma OrderInUniverse()
      requires Indexed()
      ensures forall j :: 0 <= j < |universeOrder| ==>
                universeOrder[j] in playerUniverse && playerUniverse[universeOrder[j]].id == universeOrder[j]
    {
      forall j | 0 <= j < |universeOrder|
        ensures universeOrder[j] in playerUniverse
      {
        assert universeOrder[j] in universeOrder;
      }
    }

    /** `calculate_replacement_level`: every player's `season_points()` (which
        fills its memo) ranks the universe, stably and best first; the
        partition of that ranking gives the level of each position. */
    method CalculateReplacementLevel()
      requires Indexed()
      modifies this`replacementLevel, playerUniverse.Values`pointsByWeek
      ensures Cards() == SeasonCards(old(Cards()), scoringSettings)
      ensures unchanged(playerUniverse.Values`teamId)
      ensures replacementLevel
              == Replacement.Levels(Replacement.Partition(SortDesc(
                   SeasonRanking(universeOrder, SeasonCards(old(Cards()), scoringSettings))), config), config)
    {
      ghost var before := Cards();
      var entries := SeasonAll();
      ghost var after := Cards();
      assert after == SeasonCards(before, scoringSettings);
      var level := Replacement.CalculateReplacementLevel(SortDesc(entries), config);
      StoreLevel(level);
      assert Cards() == after;
    }

    /** Sets `replacement_level`, which no card reads. */
    method StoreLevel(level: Result<map<Position, real>>)
      modifies this`replacementLevel
      ensures replacementLevel == level && Cards() == old(Cards())
    {
      replacementLevel := level;
    }

    /** The keys of `sorted(player_universe.values(), key=season_points)`:
        `season_points()` of every player in dictionary order. */
    method SeasonAll() returns (entries: seq<Entry>)
      requires Indexed()
      modifies playerUniverse.Values`pointsByWeek
      ensures Cards() == SeasonCards(old(Cards()), scoringSettings)
      ensures entries == SeasonRanking(universeOrder, Cards())
      ensures unchanged(playerUniverse.Values`teamId)
    {
      ghost var before := Cards();
      entries := [];
      var i := 0;
      OrderInUniverse();
      while i < |universeOrder|
        invariant 0 <= i <= |universeOrder| && |entries| == i
        invariant unchanged(playerUniverse.Values`teamId)
        invariant forall j :: 0 <= j < i ==>
                    SeasonEntry(entries[j], playerUniverse[universeOrder[j]])
        invariant forall j :: 0 <= j < |universeOrder| ==>
                    var p := playerUniverse[universeOrder[j]];
                    p.pointsByWeek == if j < i then SeasonCache(before[p.id].points, p.projectionsByWeek, scoringSettings)
                                      else before[p.id].points
      {
        var player := playerUniverse[universeOrder[i]];
        var points := player.SeasonPoints(scoringSettings);
        entries := entries + [Entry(player.id, player.position, points)];
        i := i + 1;
      }
      SeasonCardsAll(before);
      RankingAll(entries);
    }

    /** Entries taken player by player in universe order are the ranking of
        the universe. */
    lemma RankingAll(entries: seq<Entry>)
      requires Indexed() && |entries| == |universeOrder|
      requires forall j :: 0 <= j < |universeOrder| ==>
                 universeOrder[j] in playerUniverse && SeasonEntry(entries[j], playerUniverse[universeOrder[j]])
      ensures entries == SeasonRanking(universeOrder, Cards())
    {
      var cards := Cards();
      forall j | 0 <= j < |entries| ensures entries[j] == SeasonRanking(universeOrder, cards)[j] {
        assert universeOrder[j] in cards;
      }
    }

    /** Once every player in the order has run `season_points()`, the cards
        are the settled ones. */
    lemma SeasonCardsAll(before: map<int, Card>)
      requires Indexed() && before.Keys == playerUniverse.Keys
      requires forall k :: k in before ==>
                 before[k].position == playerUniverse[k].position
                 && before[k].weeks == playerUniverse[k].projectionsByWeek
      requires forall j :: 0 <= j < |universeOrder| ==>
                 universeOrder[j] in playerUniverse &&
                 var p := playerUniverse[universeOrder[j]];
                 p.pointsByWeek == SeasonCache(before[universeOrder[j]].points, p.projectionsByWeek, scoringSettings)
      ensures Cards() == SeasonCards(before, scoringSettings)
    {
      var cards := Cards();
      var settled := SeasonCards(before, scoringSettings);
      forall k | k in cards ensures cards[k] == settled[k] {
        assert k in universeOrder;
        var j :| 0 <= j < |universeOrder| && universeOrder[j] == k;
      }
    }

    /** What the valuation needs of a league after setup: settled memos of
        weeks 1 to 16, available players from the universe, a complete
        replacement level, the injury table and a binomial CDF. */
    ghost predicate Valued()
      reads this`playerUniverse, this`universeOrder, this`availablePlayers, this`availableOrder,
            this`replacementLevel, playerUniverse.Values`pointsByWeek, playerUniverse.Values`projectionsByWeek
    {
      Ready() && availablePlayers.Keys <= playerUniverse.Keys
      && Listing(availableOrder, availablePlayers.Keys)
      && InjuryTable(injury) && CdfInRange(binomCdf)
      && replacementLevel.Ok? && forall q: Position :: q in replacementLevel.value
    }

    lemma AvailableListed()
      requires Valued()
      ensures forall k :: k in availablePlayers.Keys ==> k in universeOrder
    {
    }

    /** `value_over_replacement(auction=True)` of every available player. */
    function AvailableVors(): (r: map<int, real>)
      requires Valued()
      reads this`playerUniverse, this`universeOrder, this`availablePlayers, this`availableOrder, this`replacementLevel,
            playerUniverse.Values`pointsByWeek, playerUniverse.Values`projectionsByWeek
    {
      AvailableListed();
      AuctionVors(universeOrder, Cards(), availablePlayers.Keys, config, injury, replacementLevel.value, binomCdf)
    }

    /** `calculate_auction_values`: without an auction budget nothing
        happens; otherwise every available player, and only those, is priced
        at its share of the money left, `vor * budget / total`. */
    method CalculateAuctionValues()
      requires Valued()
      modifies this`auctionValues
      ensures Valued() && Cards() == old(Cards()) && AvailableVors() == old(AvailableVors())
      ensures !AuctionEnabled(config) ==> auctionValues == old(auctionValues)
      ensures AuctionEnabled(config) ==>
                auctionValues == Allocation(AvailableVors(), TotalAvailableBudget(config, auctionBudgetSpent))
      ensures unchanged(this`playerUniverse) && unchanged(playerUniverse.Values`teamId)
    {
      if !AuctionEnabled(config) {
        return;
      }
      var budget := TotalAvailableBudget(config, auctionBudgetSpent);
      var vors := AvailableVors();
      var values := Allocate(vors, budget);
      StoreValues(values);
    }

    /** Sets `auction_values`, which neither the valuation nor any card
        reads. */
    method StoreValues(values: map<int, Price>)
      requires Valued()
      modifies this`auctionValues
      ensures auctionValues == values
      ensures Valued() == old(Valued()) && Cards() == old(Cards()) && AvailableVors() == old(AvailableVors())
      ensures unchanged(this`playerUniverse) && unchanged(playerUniverse.Values`teamId)
    {
      auctionValues := values;
    }

    /** `best_available_players(position, n, auction)`; its properties are
        those of `Board`. */
    function BestAvailablePlayers(position: Option<Position>, n: int, auction: bool): Result<Rows>
      requires Valued()
      reads this`playerUniverse, this`universeOrder, this`availablePlayers, this`availableOrder, this`replacementLevel,
            this`auctionValues, playerUniverse.Values`pointsByWeek, playerUniverse.Values`projectionsByWeek
    {
      AvailableListed();
      Board(universeOrder, Cards(), availableOrder, availablePlayers.Keys, config, injury, replacementLevel.value,
            binomCdf, auctionValues, position, n, auction)
    }

    /** The ids of the teams, in dictionary order. */
    function TeamIds(): (r: seq<int>)
      requires TeamsIndexed()
      reads this`teams
      ensures Distinct(r) && forall k :: k in r <==> k in teams
    {
      Range(config.teams)
    }

    /** The teams whose `str(name)` is `teamName`. */
    function TeamsNamed(teamName: string): set<int>
      reads this`teams, teams.Values`name
    {
      set k | k in teams && NameText(teams[k].name) == teamName
    }

    /** `team_by_name`: exactly one team must print as `teamName`; none or
        several is the ValueError of the tuple unpacking. */
    function TeamByName(teamName: string): (r: Result<Team>)
      requires TeamsIndexed()
      reads this`teams, teams.Values`name
      ensures r.Ok? <==> exists k :: TeamsNamed(teamName) == {k}
      ensures r.Ok? ==> TeamsNamed(teamName) == {r.value.id} && r.value.id in teams
                        && r.value == teams[r.value.id]
      ensures r.Err? ==> r.error == NotExactlyOne
    {
      var named := TeamsNamed(teamName);
      var ids := Select(TeamIds(), named);
      SelectOne(TeamIds(), named);
      if |ids| == 1 then Ok(teams[ids[0]]) else Err(NotExactlyOne)
    }

    /** The players whose name is `playerName`. */
    function PlayersNamed(playerName: string): set<int>
      reads this`playerUniverse
    {
      set k | k in playerUniverse && playerUniverse[k].name == playerName
    }

    /** `player_by_name`: exactly one player must bear the name, and the
        `if not player_id` test turns a found id 0 into "not found". */
    function PlayerByName(playerName: string): (r: Result<Player>)
      requires Indexed()
      reads this`playerUniverse, this`universeOrder
      ensures r.Ok? <==> exists k :: k != 0 && PlayersNamed(playerName) == {k}
      ensures r.Ok? ==> PlayersNamed(playerName) == {r.value.id} && r.value.id in playerUniverse
                        && r.value == playerUniverse[r.value.id] && r.value.name == playerName
      ensures r == Err(NotFound) <==> PlayersNamed(playerName) == {0}
      ensures r == Err(NotExactlyOne) <==> !exists k :: PlayersNamed(playerName) == {k}
    {
      var named := PlayersNamed(playerName);
      var ids := Select(universeOrder, named);
      SelectOne(universeOrder, named);
      if |ids| != 1 then Err(NotExactlyOne)
      else if ids[0] == 0 then Err(NotFound)
      else
        assert ids[0] in named;
        Ok(playerUniverse[ids[0]])
    }

    /** The players whose lowered name contains `sub` lowered. */
    function PlayersContaining(sub: string): set<int>
      reads this`playerUniverse
    {
      set k | k in playerUniverse && Contains(Lower(sub), Lower(playerUniverse[k].name))
    }

    /** `player_fuzzy_match`: every player whose name contains the
        substring, ignoring case; none is a KeyError, one is that player, more
        are the list of them in dictionary order. */
    function PlayerFuzzyMatch(sub: string): (r: Result<FuzzyMatch>)
      requires Indexed()
      reads this`playerUniverse, this`universeOrder
      ensures r.Err? <==> PlayersContaining(sub) == {}
      ensures r.Err? ==> r.error == NotFound
      ensures r.Ok? && r.value.One? ==>
                PlayersContaining(sub) == {r.value.player.id} && r.value.player.id in playerUniverse
                && r.value.player == playerUniverse[r.value.player.id]
      ensures r.Ok? && r.value.Many? ==>
                |r.value.players| >= 2
                && MatchList(r.value.players, playerUniverse, universeOrder, PlayersContaining(sub))
    {
      var found := PlayersContaining(sub);
      var ids := Select(universeOrder, found);
      SelectOne(universeOrder, found);
      if ids == [] then
        assert forall k :: k in found ==> k in ids;
        Err(NotFound)
      else if |ids| == 1 then
        Ok(One(playerUniverse[ids[0]]))
      else
        Matched(playerUniverse, universeOrder, found);
        Ok(Many(Lookup(playerUniverse, ids)))
    }

    /** The team `add_to_team` picks: `teams[team_id]` when the id is truthy
        (so id 0 is not), otherwise `team_by_name` when the name is truthy,
        otherwise none at all. */
    function AcquiringTeam(teamId: Option<int>, teamName: Option<string>): (r: Result<Team>)
      requires TeamsIndexed()
      reads this`teams, teams.Values`name
      ensures r.Ok? ==> r.value.id in teams && r.value == teams[r.value.id]
      ensures teamId.Some? && teamId.value != 0 ==>
                (r.Ok? <==> teamId.value in teams) && (r.Ok? ==> r.value.id == teamId.value)
                && (r.Err? ==> r.error == NoSuchTeam(teamId.value))
      ensures (teamId.None? || teamId.value == 0) && teamName.Some? && teamName.value != "" ==>
                r == TeamByName(teamName.value)
      ensures (teamId.None? || teamId.value == 0) && (teamName.None? || teamName.value == "") ==>
                r == Err(NoTeamGiven)
    {
      if teamId.Some? && teamId.value != 0 then
        if teamId.value in teams then Ok(teams[teamId.value]) else Err(NoSuchTeam(teamId.value))
      else if teamName.Some? && teamName.value != "" then
        TeamByName(teamName.value)
      else Err(NoTeamGiven)
    }

    /** Team 0 cannot be chosen by id: with id 0 the choice goes by name, and
        without a name there is none, although team 0 exists. */
    lemma TeamZeroByName(teamName: Option<string>)
      requires TeamsIndexed() && config.teams >= 1
      ensures 0 in teams
      ensures teamName.None? ==> AcquiringTeam(Some(0), teamName) == Err(NoTeamGiven)
      ensures teamName.Some? && teamName.value != "" ==>
                AcquiringTeam(Some(0), teamName) == TeamByName(teamName.value)
    {
    }

    /** `Player.add_to_team`: the chosen team's `add_player`, or the error of
        choosing it. Only that team's roster, the pool and the player's team
        can change. */
    method AddToTeam(player: Player, teamId: Option<int>, teamName: Option<string>) returns (o: Outcome)
      requires TeamsIndexed()
      modifies teams.Values`playersById, this`availablePlayers, this`availableOrder, player`teamId
      ensures var t := old(AcquiringTeam(teamId, teamName));
              t.Err? ==>
                o == Fail(t.error) && availablePlayers == old(availablePlayers)
                && availableOrder == old(availableOrder) && player.teamId == old(player.teamId)
      ensures var t := old(AcquiringTeam(teamId, teamName));
              t.Ok? ==>
                var r := Acquire(Pools(old(t.value.playersById), old(availablePlayers)),
                                 player.id, player, config.rosterSize, t.value.id);
                if r.Ok? then
                  o == Pass && t.value.playersById == r.value.roster
                  && availablePlayers == r.value.available && player.teamId == Some(t.value.id)
                  && availableOrder == Withdraw(old(availableOrder), player.id)
                else
                  o == Fail(r.error) && t.value.playersById == old(t.value.playersById)
                  && availablePlayers == old(availablePlayers) && availableOrder == old(availableOrder)
                  && player.teamId == old(player.teamId)
      ensures forall k :: k in teams && !(old(AcquiringTeam(teamId, teamName)).Ok? && teams[k] == old(AcquiringTeam(teamId, teamName)).value)
                ==> teams[k].playersById == old(teams[k].playersById)
      ensures old(Bookkept()) && (player.id in old(availablePlayers) ==> old(availablePlayers)[player.id] == player)
              ==> Bookkept()
    {
      var t := AcquiringTeam(teamId, teamName);
      if t.Err? {
        return Fail(t.error);
      }
      o := t.value.AddPlayer(player);
    }

    /** `League(name, scoring_settings, roster_settings)`: both settings
        merged over their defaults, empty teams `0..teams-1`, the universe
        filled from `projections`, every player available, then the
        replacement level and, with an auction budget, the auction values. */
    constructor (scoringOverrides: map<string, real>, rosterOverrides: map<string, SettingValue>,
                 projections: seq<Projection>, injury: map<Position, seq<real>>,
                 binomCdf: (int, int, real) -> real)
      requires Decode(Merge(DefaultRoster, rosterOverrides)).Ok?
      requires InjuryTable(injury) && CdfInRange(binomCdf)
      ensures scoringSettings == Merge(DefaultScoring, scoringOverrides)
      ensures rosterSettings == Merge(DefaultRoster, rosterOverrides)
      ensures config == Decode(rosterSettings).value
      ensures this.injury == injury && this.binomCdf == binomCdf
      ensures TeamsIndexed() && forall k :: k in teams ==> fresh(teams[k])
      ensures TeamsEmpty() && Introduced(playerUniverse, projections) && Undrafted() && Bookkept()
      ensures Ranked(projections)
      ensures AuctionEnabled(config) ==> auctionBudgetSpent == 0
      ensures replacementLevel.Ok? ==> Valued()
      ensures replacementLevel.Ok? && AuctionEnabled(config) ==>
                auctionValues == Allocation(AvailableVors(), TotalAvailableBudget(config, 0))
      ensures !(replacementLevel.Ok? && AuctionEnabled(config)) ==> auctionValues == map[]
    {
      var scoring := MergeSettings(DefaultScoring, scoringOverrides);
      var roster := MergeSettings(DefaultRoster, rosterOverrides);
      scoringSettings := scoring;
      rosterSettings := roster;
      config := Decode(roster).value;
      this.injury := injury;
      this.binomCdf := binomCdf;
      teams := map[];
      playerUniverse := map[];
      universeOrder := [];
      availablePlayers := map[];
      availableOrder := [];
      replacementLevel := Err(NoReplacement);
      auctionBudgetSpent := 0;
      auctionValues := map[];
      new;
      Build(projections);
    }

    /** Everything the constructor does once the settings are in place. */
    method Build(projections: seq<Projection>)
      requires playerUniverse == map[] && universeOrder == [] && auctionValues == map[]
      requires InjuryTable(injury) && CdfInRange(binomCdf)
      modifies this`teams, this`playerUniverse, this`universeOrder, this`availablePlayers, this`availableOrder,
               this`replacementLevel, this`auctionBudgetSpent, this`auctionValues
      ensures TeamsIndexed() && forall k :: k in teams ==> fresh(teams[k])
      ensures TeamsEmpty() && Introduced(playerUniverse, projections) && Undrafted() && Bookkept()
      ensures Ranked(projections)
      ensures AuctionEnabled(config) ==> auctionBudgetSpent == 0
      ensures replacementLevel.Ok? ==> Valued()
      ensures replacementLevel.Ok? && AuctionEnabled(config) ==>
                auctionValues == Allocation(AvailableVors(), TotalAvailableBudget(config, 0))
      ensures !(replacementLevel.Ok? && AuctionEnabled(config)) ==> auctionValues == map[]
    {
      CreateTeams();
      Setup(projections);
      BookkeptFresh();
    }

    /** A league whose teams are empty and whose pool is its whole universe,
        undrafted, keeps the draft bookkeeping. */
    lemma BookkeptFresh()
      requires TeamsIndexed() && TeamsEmpty() && Indexed() && Undrafted()
      requires availablePlayers == playerUniverse && availableOrder == universeOrder
      ensures Bookkept()
    {
    }

    /** Everything the constructor does after creating the teams. */
    method Setup(projections: seq<Projection>)
      requires playerUniverse == map[] && universeOrder == [] && auctionValues == map[]
      requires InjuryTable(injury) && CdfInRange(binomCdf) && TeamsIndexed()
      modifies this`playerUniverse, this`universeOrder, this`availablePlayers, this`availableOrder,
               this`replacementLevel, this`auctionBudgetSpent, this`auctionValues
      ensures TeamsIndexed() && Ranked(projections) && Introduced(playerUniverse, projections) && Undrafted()
      ensures AuctionEnabled(config) ==> auctionBudgetSpent == 0
      ensures replacementLevel.Ok? ==> Valued()
      ensures replacementLevel.Ok? && AuctionEnabled(config) ==>
                auctionValues == Allocation(AvailableVors(), TotalAvailableBudget(config, 0))
      ensures !(replacementLevel.Ok? && AuctionEnabled(config)) ==> auctionValues == map[]
    {
      Populate(projections);
      Evaluate(projections);
    }

    /** The replacement level, then the auction values, of a filled universe. */
    method Evaluate(ghost projections: seq<Projection>)
      requires Filled(projections) && Cards() == FreshCards(projections) && auctionValues == map[]
      requires InjuryTable(injury) && CdfInRange(binomCdf) && TeamsIndexed()
      modifies this`replacementLevel, playerUniverse.Values`pointsByWeek,
               this`auctionBudgetSpent, this`auctionValues
      ensures TeamsIndexed() && Ranked(projections)
      ensures AuctionEnabled(config) ==> auctionBudgetSpent == 0
      ensures replacementLevel.Ok? ==> Valued()
      ensures replacementLevel.Ok? && AuctionEnabled(config) ==>
                auctionValues == Allocation(AvailableVors(), TotalAvailableBudget(config, 0))
      ensures !(replacementLevel.Ok? && AuctionEnabled(config)) ==> auctionValues == map[]
      ensures unchanged(this`playerUniverse) && unchanged(playerUniverse.Values`teamId)
    {
      Rank(projections);
      Price(projections);
    }

    /** The universe holds one player per id of `projections`, listed in
        order of arrival, and every player is available. */
    ghost predicate Filled(projections: seq<Projection>)
      reads this`playerUniverse, this`universeOrder, this`availablePlayers, this`availableOrder
    {
      Indexed() && playerUniverse.Keys == IdsOf(projections) && universeOrder == Arrivals(projections, {})
      && availablePlayers == playerUniverse && availableOrder == universeOrder
    }

    /** After `calculate_replacement_level` on a fresh universe: every memo
        is the fresh one after `season_points()`, and the level is that of
        the stable ranking of the season totals. */
    ghost predicate Ranked(projections: seq<Projection>)
      reads this`playerUniverse, this`universeOrder, this`availablePlayers, this`availableOrder, this`replacementLevel,
            playerUniverse.Values`pointsByWeek, playerUniverse.Values`projectionsByWeek
    {
      Filled(projections)
      && Cards() == SeasonCards(FreshCards(projections), scoringSettings) && Ready()
      && replacementLevel
         == Replacement.Levels(Replacement.Partition(SortDesc(SeasonRanking(universeOrder, Cards())), config), config)
    }

    /** `fill_player_universe()` and `available_players = player_universe.copy()`. */
    method Populate(projections: seq<Projection>)
      requires playerUniverse == map[] && universeOrder == [] && TeamsIndexed()
      modifies this`playerUniverse, this`universeOrder, this`availablePlayers, this`availableOrder
      ensures TeamsIndexed() == old(TeamsIndexed())
      ensures Filled(projections) && Cards() == FreshCards(projections)
      ensures Introduced(playerUniverse, projections) && Undrafted()
      ensures forall k :: k in playerUniverse ==> fresh(playerUniverse[k])
    {
      FillPlayerUniverse(projections);
      FreshAfterFill(projections);
      forall k | k in playerUniverse
        ensures MergedFrom(playerUniverse[k], projections)
      {
      }
      MakeAvailable();
    }

    /** `calculate_replacement_level()` on the fresh universe. */
    method Rank(ghost projections: seq<Projection>)
      requires Filled(projections) && Cards() == FreshCards(projections) && TeamsIndexed()
      modifies this`replacementLevel, playerUniverse.Values`pointsByWeek
      ensures TeamsIndexed() == old(TeamsIndexed()) && Ranked(projections)
      ensures replacementLevel.Ok? ==> forall q: Position :: q in replacementLevel.value
      ensures unchanged(this`playerUniverse) && unchanged(playerUniverse.Values`teamId)
    {
      CalculateReplacementLevel();
      RankedFrom(projections);
    }

    /** A filled universe whose memos and level are those that
        `calculate_replacement_level` leaves on the fresh cards is ranked. */
    twostate lemma RankedFrom(projections: seq<Projection>)
      requires old(Filled(projections)) && old(Cards()) == FreshCards(projections)
      requires unchanged(this`playerUniverse, this`universeOrder, this`availablePlayers, this`availableOrder)
      requires Cards() == SeasonCards(old(Cards()), scoringSettings)
      requires replacementLevel
               == Replacement.Levels(Replacement.Partition(SortDesc(
                    SeasonRanking(universeOrder, SeasonCards(old(Cards()), scoringSettings))), config), config)
      ensures Ranked(projections)
    {
      assert Filled(projections);
      SeasonCardsPrepared(universeOrder, FreshCards(projections), scoringSettings);
    }

    /** With an auction budget, `auction_budget_spent = 0` and, given a
        level, `calculate_auction_values()`; otherwise no auction values. */
    method Price(ghost projections: seq<Projection>)
      requires Ranked(projections) && InjuryTable(injury) && CdfInRange(binomCdf) && auctionValues == map[]
      requires replacementLevel.Ok? ==> forall q: Position :: q in replacementLevel.value
      requires TeamsIndexed()
      modifies this`auctionBudgetSpent, this`auctionValues
      ensures TeamsIndexed() && Ranked(projections)
      ensures AuctionEnabled(config) ==> auctionBudgetSpent == 0
      ensures replacementLevel.Ok? ==> Valued()
      ensures replacementLevel.Ok? && AuctionEnabled(config) ==>
                auctionValues == Allocation(AvailableVors(), TotalAvailableBudget(config, 0))
      ensures !(replacementLevel.Ok? && AuctionEnabled(config)) ==> auctionValues == map[]
      ensures unchanged(this`playerUniverse) && unchanged(playerUniverse.Values`teamId)
    {
      if AuctionEnabled(config) {
        SpendNothing(projections);
        if replacementLevel.Ok? {
          ValueAuction(projections);
        }
      }
    }

    /** `calculate_auction_values()`, keeping the ranked state. */
    method ValueAuction(ghost projections: seq<Projection>)
      requires Ranked(projections) && Valued()
      modifies this`auctionValues
      ensures Ranked(projections) == old(Ranked(projections)) && Valued() == old(Valued())
      ensures AuctionEnabled(config) ==>
                auctionValues == Allocation(AvailableVors(), TotalAvailableBudget(config, auctionBudgetSpent))
      ensures unchanged(this`playerUniverse) && unchanged(playerUniverse.Values`teamId)
    {
      CalculateAuctionValues();
      RankedKept(projections);
    }

    /** `auction_budget_spent = 0`, which no card reads. */
    method SpendNothing(ghost projections: seq<Projection>)
      modifies this`auctionBudgetSpent
      ensures auctionBudgetSpent == 0 && Ranked(projections) == old(Ranked(projections))
      ensures Valued() == old(Valued())
      ensures unchanged(this`playerUniverse) && unchanged(playerUniverse.Values`teamId)
    {
      auctionBudgetSpent := 0;
    }

    /** Whether the universe is ranked depends on the cards and on the
        fields of the league that list and rank them, and on nothing else. */
    twostate lemma RankedKept(projections: seq<Projection>)
      requires unchanged(this`playerUniverse, this`universeOrder, this`availablePlayers, this`availableOrder,
                         this`replacementLevel)
      requires Cards() == old(Cards())
      ensures Ranked(projections) == old(Ranked(projections))
    {
    }

    /** Right after the merge the cards are the fresh ones. */
    lemma FreshAfterFill(projections: seq<Projection>)
      requires MergedState(projections)
      ensures Cards() == FreshCards(projections)
    {
      var cards := Cards();
      var filled := FreshCards(projections);
      forall k | k in cards ensures cards[k] == filled[k] {
        assert MergedFrom(playerUniverse[k], projections);
      }
    }

    /** `available_players = player_universe.copy()`: the same players, in
        the same order. */
    method MakeAvailable()
      modifies this`availablePlayers, this`availableOrder
      ensures availablePlayers == playerUniverse && availableOrder == universeOrder && Cards() == old(Cards())
    {
      availablePlayers := playerUniverse;
      availableOrder := universeOrder;
    }

    /** Creates `teams` empty teams with ids `0..teams-1` (models/league.py:56-59). */
    method CreateTeams()
      modifies this`teams
      ensures forall k :: k in teams <==> 0 <= k < config.teams
      ensures forall k :: k in teams ==>
                fresh(teams[k]) && teams[k].id == k && teams[k].league == this
                && teams[k].name == None && teams[k].playersById == map[]
    {
      teams := map[];
      var id := 0;
      while id < config.teams
        invariant forall k :: k in teams <==> 0 <= k < id && k < config.teams
        invariant forall k :: k in teams ==>
                    fresh(teams[k]) && teams[k].id == k && teams[k].league == this
                    && teams[k].name == None && teams[k].playersById == map[]
      {
        var team := new Team(id, this, None);
        teams := teams[id := team];
        id := id + 1;
      }
    }

    /** The merge loop of `fill_player_universe`, run on the empty universe
        of a new league: the first record for an id creates its player; every
        record is then stored under its week. */
    method FillPlayerUniverse(projections: seq<Projection>)
      requires playerUniverse == map[] && universeOrder == []
      modifies this`playerUniverse, this`universeOrder
      ensures MergedState(projections)
      ensures forall k :: k in playerUniverse ==> fresh(playerUniverse[k])
    {
      var i := 0;
      assert IdsOf(projections[..0]) == {};
      while i < |projections|
        invariant 0 <= i <= |projections|
        invariant MergedState(projections[..i])
        invariant forall k :: k in playerUniverse ==> fresh(playerUniverse[k])
      {
        MergeRecord(projections, i);
        i := i + 1;
      }
      assert projections[..i] == projections;
    }

    /** The universe is the one the records `projections` build: one player
        per id, listed in order of arrival, each merged from its records. */
    ghost predicate MergedState(projections: seq<Projection>)
      reads this`playerUniverse, this`universeOrder, playerUniverse.Values
    {
      Indexed()
      && playerUniverse.Keys == IdsOf(projections)
      && universeOrder == Arrivals(projections, {})
      && forall k :: k in playerUniverse ==> MergedFrom(playerUniverse[k], projections)
    }

    /** One pass of the merge loop: record `i` creates its player or is
        added to the existing one. */
    method MergeRecord(projections: seq<Projection>, i: nat)
      requires i < |projections| && MergedState(projections[..i])
      modifies this`playerUniverse, this`universeOrder, playerUniverse.Values`projectionsByWeek
      ensures MergedState(projections[..i + 1])
      ensures forall k :: k in playerUniverse ==>
                (k in old(playerUniverse) && playerUniverse[k] == old(playerUniverse)[k]) || fresh(playerUniverse[k])
    {
      if projections[i].id !in playerUniverse {
        CreatePlayer(projections, i);
      } else {
        AddRecord(projections, i);
      }
    }

    /** The first record for an id creates its player at the end of the
        universe. */
    method CreatePlayer(projections: seq<Projection>, i: nat)
      requires i < |projections| && MergedState(projections[..i])
      requires projections[i].id !in playerUniverse
      modifies this`playerUniverse, this`universeOrder
      ensures MergedState(projections[..i + 1])
      ensures playerUniverse == old(playerUniverse)[projections[i].id := playerUniverse[projections[i].id]]
      ensures fresh(playerUniverse[projections[i].id])
    {
      var projection := projections[i];
      IdsOfStep(projections, i);
      ArrivalsStep(projections, {}, i);
      forall k | k in playerUniverse
        ensures MergedFrom(playerUniverse[k], projections[..i + 1])
      {
        MergedOther(playerUniverse[k], projections, i);
      }
      var player := new Player(projection);
      MergedStart(player, projections, i);
      ListingAppend(universeOrder, playerUniverse.Keys, projection.id);
      var keys := playerUniverse.Keys;
      playerUniverse := playerUniverse[projection.id := player];
      universeOrder := universeOrder + [projection.id];
      assert playerUniverse.Keys == keys + {projection.id};
    }

    /** A later record for a known id is stored into that player. */
    method AddRecord(projections: seq<Projection>, i: nat)
      requires i < |projections| && MergedState(projections[..i])
      requires projections[i].id in playerUniverse
      modifies playerUniverse.Values`projectionsByWeek
      ensures MergedState(projections[..i + 1])
    {
      var projection := projections[i];
      IdsOfStep(projections, i);
      ArrivalsStep(projections, {}, i);
      var player := playerUniverse[projection.id];
      ghost var weeks := player.projectionsByWeek;
      player.AddProjection(projection);
      MergedAdd(player, projections, i, weeks);
      forall k | k in playerUniverse && k != projection.id
        ensures MergedFrom(playerUniverse[k], projections[..i + 1])
      {
        MergedOther(playerUniverse[k], projections, i);
      }
      SetAbsorbs(IdsOf(projections[..i]), projection.id);
    }

    lemma SetAbsorbs(s: set<int>, x: int)
      requires x in s
      ensures s + {x} == s
    {
    }

    /** The player is the one `projections` build for its id: created from
        the first record for it, undrafted, with an empty memo, and holding
        the last record for each week. */
    ghost predicate MergedFrom(p: Player, projections: seq<Projection>)
      reads p
    {
      p.id in IdsOf(projections)
      && p.projectionsByWeek == WeeksOf(map[], projections, p.id)
      && p.pointsByWeek == map[] && p.teamId == None
      && p.name == FirstFor(projections, p.id).player
      && p.nflTeam == FirstFor(projections, p.id).tm
      && p.position == FirstFor(projections, p.id).position
    }

    lemma MergedStart(p: Player, projections: seq<Projection>, i: nat)
      requires i < |projections| && projections[i].id !in IdsOf(projections[..i])
      requires p.id == projections[i].id && p.name == projections[i].player
      requires p.nflTeam == projections[i].tm && p.position == projections[i].position
      requires p.teamId == None && p.pointsByWeek == map[]
      requires p.projectionsByWeek == map[projections[i].week := projections[i]]
      ensures MergedFrom(p, projections[..i + 1])
    {
      IdsOfStep(projections, i);
      WeeksOfAbsent(map[], projections[..i], p.id);
      WeeksOfStep(map[], projections, p.id, i);
      var t := projections[..i + 1];
      assert t[..i] == projections[..i] && t[i] == projections[i];
    }

    lemma MergedAdd(p: Player, projections: seq<Projection>, i: nat, weeks: map<int, Projection>)
      requires i < |projections| && p.id == projections[i].id && p.id in IdsOf(projections[..i])
      requires weeks == WeeksOf(map[], projections[..i], p.id)
      requires p.projectionsByWeek == weeks[projections[i].week := projections[i]]
      requires p.pointsByWeek == map[] && p.teamId == None
      requires p.name == FirstFor(projections[..i], p.id).player
      requires p.nflTeam == FirstFor(projections[..i], p.id).tm
      requires p.position == FirstFor(projections[..i], p.id).position
      ensures MergedFrom(p, projections[..i + 1])
    {
      WeeksOfStep(map[], projections, p.id, i);
      FirstForStep(projections, p.id, i);
    }

    lemma MergedOther(p: Player, projections: seq<Projection>, i: nat)
      requires i < |projections| && p.id != projections[i].id
      requires MergedFrom(p, projections[..i])
      ensures MergedFrom(p, projections[..i + 1])
    {
      WeeksOfStep(map[], projections, p.id, i);
      FirstForStep(projections, p.id, i);
    }
  }
}
