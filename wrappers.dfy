/** Option, Result and the error kinds the valuation engine and the draft
    bookkeeping raise. Each error names the Python exception it stands for. */
module Wrappers {

  datatype Option<+T> = None | Some(value: T)

  datatype Result<+T> = Ok(value: T) | Err(error: Error)

  /** Result of an operation that changes state and returns nothing. */
  datatype Outcome = Pass | Fail(error: Error)

  datatype Error =
    | NotAvailable(playerId: int)   // KeyError: player not in the available pool
    | RosterFull(teamId: int)       // ValueError: roster already holds roster_size players
    | NotOnRoster(playerId: int)    // KeyError: id not on this team's roster
    | NotExactlyOne                 // ValueError: single-element unpacking of a lookup found 0 or 2+ matches
    | NotFound                      // KeyError raised by a name lookup
    | NoSuchTeam(teamId: int)       // KeyError on league.teams[team_id]
    | NoTeamGiven                   // UnboundLocalError: neither a truthy team id nor a team name
    | CountMismatch                 // AssertionError: removed players do not fill the rosters
    | NoReplacement                 // IndexError: no player left at a position
    | BadSettings                   // a roster setting of the wrong kind
    | ShapeMismatch                 // numpy cannot broadcast the weekly points against 16 weeks
    | NotPriced(pid: int)           // KeyError on league.auction_values[id]
    | UnorderedPrices               // sorting numbers together with nan, whose order the model leaves open
}
