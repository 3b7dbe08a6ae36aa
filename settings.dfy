/** League configuration (models/league.py:14-59 and 193-209): default
    scoring weights and roster settings, the merge of caller overrides into
    them, and the bench sizing used by the replacement-level partition. */
module Settings {
  import opened Wrappers

  datatype Position = QB | RB | WR | TE

  /** A roster setting as the settings dictionary holds it: an integer, a
      list of position names, or Python's None. */
  datatype SettingValue = Count(n: int) | Names(names: seq<string>) | Nothing

  /** Scoring weights per stat category (models/league.py:23-35). */
  const DefaultScoring: map<string, real> := map[
    "pass yds" := 0.04, "pass tds" := 4.0, "int" := -2.0,
    "rush yds" := 0.1, "rush tds" := 6.0,
    "rec" := 0.0, "rec yds" := 0.1, "rec tds" := 6.0,
    "fum" := -2.0]

  /** Roster settings (models/league.py:41-53). */
  const DefaultRoster: map<string, SettingValue> := map[
    "teams" := Count(10), "roster_size" := Count(16),
    "defense" := Count(1), "kicker" := Count(1),
    "qb" := Count(1), "rb" := Count(2), "wr" := Count(2), "te" := Count(1),
    "flex" := Count(1), "flex_positions" := Names(["rb", "wr", "te"]),
    "auction_budget" := Nothing]

  /** The settings dictionary once the caller's entries are written over the
      defaults. */
  function Merge<K, V>(defaults: map<K, V>, overrides: map<K, V>): map<K, V>
  {
    map k | k in defaults.Keys + overrides.Keys :: if k in overrides then overrides[k] else defaults[k]
  }

  /** A caller's entry always wins, and every default the caller does not
      name is kept as it is. */
  lemma MergeOverwritesOnlyNamed<K, V>(defaults: map<K, V>, overrides: map<K, V>)
    ensures Merge(defaults, overrides).Keys == defaults.Keys + overrides.Keys
    ensures forall k :: k in overrides ==> Merge(defaults, overrides)[k] == overrides[k]
    ensures forall k :: k in defaults && k !in overrides ==> Merge(defaults, overrides)[k] == defaults[k]
  {
  }

  /** Overwrites the defaults with every entry the caller supplies, one key
      at a time; a caller that passes nothing passes the empty map. */
  method MergeSettings<K, V>(defaults: map<K, V>, overrides: map<K, V>) returns (merged: map<K, V>)
    ensures merged == Merge(defaults, overrides)
  {
    merged := defaults;
    var left := overrides.Keys;
    while left != {}
      invariant left <= overrides.Keys
      invariant merged.Keys == defaults.Keys + (overrides.Keys - left)
      invariant forall k :: k in overrides && k !in left ==> merged[k] == overrides[k]
      invariant forall k :: k in defaults && k !in overrides ==> merged[k] == defaults[k]
      invariant forall k :: k in defaults && k in left ==> merged[k] == defaults[k]
      decreases left
    {
      var k :| k in left;
      merged := merged[k := overrides[k]];
      left := left - {k};
    }
  }

  /** The roster settings once every value has the kind the engine reads it as. */
  datatype RosterConfig = RosterConfig(
    teams: int, rosterSize: int, defense: int, kicker: int,
    qb: int, rb: int, wr: int, te: int, flex: int,
    flexPositions: seq<Position>, auctionBudget: Option<int>)

  /** `roster_settings[position]`: starting slots per team at a position. */
  function Slots(c: RosterConfig, p: Position): int
  {
    match p
    case QB => c.qb
    case RB => c.rb
    case WR => c.wr
    case TE => c.te
  }

  /** `if self.roster_settings['auction_budget']`: None and 0 are both falsy. */
  predicate AuctionEnabled(c: RosterConfig)
  {
    c.auctionBudget.Some? && c.auctionBudget.value != 0
  }

  function ParsePosition(name: string): Option<Position>
  {
    if name == "qb" then Some(QB)
    else if name == "rb" then Some(RB)
    else if name == "wr" then Some(WR)
    else if name == "te" then Some(TE)
    else None
  }

  /** The position names of `flex_positions`, read one by one; a name that
      is not a position spoils the whole list. */
  function ParsePositions(names: seq<string>): (r: Option<seq<Position>>)
    ensures r.Some? ==> |r.value| == |names|
    ensures r.Some? <==> forall i :: 0 <= i < |names| ==> ParsePosition(names[i]).Some?
    ensures r.Some? ==> forall i :: 0 <= i < |names| ==> Some(r.value[i]) == ParsePosition(names[i])
  {
    if names == [] then Some([])
    else match (ParsePosition(names[0]), ParsePositions(names[1..]))
      case (Some(p), Some(ps)) => Some([p] + ps)
      case _ => None
  }

  function CountOf(m: map<string, SettingValue>, key: string): Option<int>
  {
    if key in m && m[key].Count? then Some(m[key].n) else None
  }

  /** The keys the engine reads as integers. */
  const CountKeys: set<string> :=
    {"teams", "roster_size", "defense", "kicker", "qb", "rb", "wr", "te", "flex"}

  /** Every roster setting is present with the kind the engine reads it as:
      the counts are integers, `flex_positions` a list of position names and
      `auction_budget` an integer or None. */
  ghost predicate WellKinded(m: map<string, SettingValue>)
  {
    && (forall k :: k in CountKeys ==> k in m && m[k].Count?)
    && "flex_positions" in m && m["flex_positions"].Names?
    && (forall i :: 0 <= i < |m["flex_positions"].names| ==>
          ParsePosition(m["flex_positions"].names[i]).Some?)
    && "auction_budget" in m && (m["auction_budget"].Count? || m["auction_budget"].Nothing?)
  }

  /** Reads the merged settings dictionary as a `RosterConfig`. It succeeds
      exactly when every setting has the right kind, and then every field is
      the setting of that name; otherwise it is `BadSettings`. */
  function Decode(m: map<string, SettingValue>): (r: Result<RosterConfig>)
    ensures r.Ok? <==> WellKinded(m)
    ensures r.Err? ==> r.error == BadSettings
    ensures r.Ok? ==> && r.value.teams == m["teams"].n && r.value.rosterSize == m["roster_size"].n
                      && r.value.defense == m["defense"].n && r.value.kicker == m["kicker"].n
                      && r.value.qb == m["qb"].n && r.value.rb == m["rb"].n
                      && r.value.wr == m["wr"].n && r.value.te == m["te"].n
                      && r.value.flex == m["flex"].n
    ensures r.Ok? ==> && |r.value.flexPositions| == |m["flex_positions"].names|
                      && forall i :: 0 <= i < |r.value.flexPositions| ==>
                           Some(r.value.flexPositions[i]) == ParsePosition(m["flex_positions"].names[i])
    ensures r.Ok? ==> r.value.auctionBudget == if m["auction_budget"].Count? then Some(m["auction_budget"].n) else None
  {
    if || CountOf(m, "teams").None? || CountOf(m, "roster_size").None?
       || CountOf(m, "defense").None? || CountOf(m, "kicker").None?
       || CountOf(m, "qb").None? || CountOf(m, "rb").None?
       || CountOf(m, "wr").None? || CountOf(m, "te").None? || CountOf(m, "flex").None?
    then Err(BadSettings)
    else if "flex_positions" !in m || !m["flex_positions"].Names? then Err(BadSettings)
    else if "auction_budget" !in m || !(m["auction_budget"].Count? || m["auction_budget"].Nothing?) then Err(BadSettings)
    else match ParsePositions(m["flex_positions"].names)
      case None => Err(BadSettings)
      case Some(flex) =>
        Ok(RosterConfig(
          CountOf(m, "teams").value, CountOf(m, "roster_size").value,
          CountOf(m, "defense").value, CountOf(m, "kicker").value,
          CountOf(m, "qb").value, CountOf(m, "rb").value, CountOf(m, "wr").value,
          CountOf(m, "te").value, CountOf(m, "flex").value,
          flex, CountOf(m, "auction_budget")))
  }

  /** Overriding some of the integer settings with integers always decodes:
      the named settings take the caller's values, the others keep the
      defaults, the flex positions stay RB, WR and TE and no auction runs. */
  lemma CountOverridesDecode(overrides: map<string, SettingValue>)
    requires forall k :: k in overrides ==> k in CountKeys && overrides[k].Count?
    ensures Decode(Merge(DefaultRoster, overrides)).Ok?
    ensures var c := Decode(Merge(DefaultRoster, overrides)).value;
            && c.teams == (if "teams" in overrides then overrides["teams"].n else 10)
            && c.rosterSize == (if "roster_size" in overrides then overrides["roster_size"].n else 16)
            && c.flexPositions == [RB, WR, TE]
            && c.auctionBudget == None
  {
    var m := Merge(DefaultRoster, overrides);
    MergeOverwritesOnlyNamed(DefaultRoster, overrides);
    DefaultsKinded();
    assert "flex_positions" !in CountKeys && "auction_budget" !in CountKeys;
    assert m["flex_positions"] == Names(["rb", "wr", "te"]);
    assert m["auction_budget"] == Nothing;
    assert forall k :: k in CountKeys ==> k in m && m[k].Count?;
    assert WellKinded(m);
    var c := Decode(m).value;
    assert |c.flexPositions| == 3;
    assert Some(c.flexPositions[0]) == ParsePosition("rb");
    assert Some(c.flexPositions[1]) == ParsePosition("wr");
    assert Some(c.flexPositions[2]) == ParsePosition("te");
  }

  lemma DefaultsKinded()
    ensures forall k :: k in CountKeys ==> k in DefaultRoster && DefaultRoster[k].Count?
    ensures DefaultRoster["teams"] == Count(10) && DefaultRoster["roster_size"] == Count(16)
  {
  }

  /** numpy's `np.round(n / 10)` on an integer `n`: the nearest integer,
      ties to the even neighbour. */
  function RoundTenth(n: int): (r: int)
    ensures -5 <= n - 10 * r <= 5
    ensures (n - 10 * r == 5 || n - 10 * r == -5) ==> r % 2 == 0
  {
    var q, rem := n / 10, n % 10;
    if rem < 5 then q
    else if rem > 5 then q + 1
    else if q % 2 == 0 then q
    else q + 1
  }

  /** `total_bench_spots` before the quarterback adjustment (models/league.py:193-198). */
  function TotalBenchSpots(c: RosterConfig): int
  {
    c.teams * (c.rosterSize - (c.defense + c.kicker + c.qb + c.rb + c.wr + c.te + c.flex))
  }

  /** Players the partition removes at a position before the flex step:
      its starters, and for quarterbacks a tenth of the bench as well
      (models/league.py:199-209). */
  function StarterCount(c: RosterConfig, p: Position): int
  {
    Slots(c, p) * c.teams + (if p == QB then RoundTenth(TotalBenchSpots(c)) else 0)
  }

  /** `total_bench_spots` after the adjustment: nine tenths, rounded. */
  function BenchAfterQuarterbacks(c: RosterConfig): int
  {
    RoundTenth(9 * TotalBenchSpots(c))
  }

  /** The number of players the count check at models/league.py:238-241 demands. */
  function RosteredCount(c: RosterConfig): int
  {
    (c.rosterSize - c.kicker - c.defense) * c.teams
  }

  /** `RoundTenth` of a number written as `10 * q + r` with a last digit `r`. */
  lemma RoundTenthAt(q: int, r: int)
    requires 0 <= r < 10
    ensures RoundTenth(10 * q + r) == if r < 5 || (r == 5 && q % 2 == 0) then q else q + 1
  {
    assert (10 * q + r) / 10 == q && (10 * q + r) % 10 == r;
  }

  /** Splitting the bench into a quarterback tenth and the rest, each rounded
      half to even, keeps every spot exactly when the bench size does not end
      in 5; a bench ending in 5 loses or gains one spot. */
  lemma {:induction false} BenchSplitConserves(b: int)
    ensures RoundTenth(b) + RoundTenth(9 * b) == b <==> b % 10 != 5
  {
    var q, r := b / 10, b % 10;
    var t, u := 9 * r / 10, 9 * r % 10;
    assert b == 10 * q + r;
    assert 9 * b == 10 * (9 * q + t) + u;
    RoundTenthAt(q, r);
    RoundTenthAt(9 * q + t, u);
    if r == 5 {
      assert t == 4 && u == 5;
      assert (9 * q + 4) % 2 == q % 2;
    } else {
      assert u == 5 <==> r == 5;
      assert u < 5 <==> r > 5 || r == 0;
    }
  }

  /** With the defaults the bench holds 70 players: 7 go to quarterbacks
      (17 quarterback starters) and 63 stay on the bench; 140 must be removed. */
  lemma DefaultBenchSizing(c: RosterConfig)
    requires c == RosterConfig(10, 16, 1, 1, 1, 2, 2, 1, 1, [RB, WR, TE], None)
    ensures TotalBenchSpots(c) == 70
    ensures StarterCount(c, QB) == 17 && BenchAfterQuarterbacks(c) == 63
    ensures RosteredCount(c) == 140
  {
  }
}
