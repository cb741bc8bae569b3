/**
 * The records shared by the roster screen and the balancer (types.ts).
 *
 * Ratings and skills are exact real numbers: the source stores them as
 * JavaScript numbers on a 0..10 scale with half-point steps; the rounding
 * of those floating-point values is not modelled.
 */
module Types {

  datatype Option<+T> = None | Some(value: T)

  /** The four position categories a player can be rated for. */
  datatype Position = GK | DEF | MID | FWD

  /** A rating for each of the four positions; all four are always present. */
  datatype PositionSkills = PositionSkills(gk: real, def: real, mid: real, fwd: real) {
    /** The rating for `pos`, as `positionSkills[pos]` reads it. */
    function Rating(pos: Position): real {
      match pos
      case GK => gk
      case DEF => def
      case MID => mid
      case FWD => fwd
    }
  }

  datatype Player = Player(
    id: string,
    name: string,
    skill: real,
    positions: seq<Position>,
    positionSkills: PositionSkills)

  /** One side of a generated match. */
  datatype Team = Team(name: string, players: seq<Player>, totalSkill: real, averageSkill: real)

  datatype MatchResult = MatchResult(teamA: Team, teamB: Team, skillDifference: real)
}
