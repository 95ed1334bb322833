/** The participant record of a replay header and the vocabulary of team order. */
module Players {

  /** Go's `byte`. */
  type Byte = x: int | 0 <= x < 0x100

  /** Go's `uint16`. */
  type Uint16 = x: int | 0 <= x < 0x1_0000

  /** One participant of the game. `race` is the race's display letter; the
      player type and colour are external value types and are not kept. */
  datatype Player = Player(slotId: Uint16, id: Byte, race: char, team: Byte, name: string)

  /** Player `i` opens a new team in `ps`: it is not the first one and its
      team differs from the team of the player just before it. */
  predicate TeamChange(ps: seq<Player>, i: int)
    requires 0 <= i < |ps|
  {
    i > 0 && ps[i].team != ps[i - 1].team
  }

  /** The number of adjacent team changes in `ps`. */
  function TeamChanges(ps: seq<Player>): nat
  {
    if |ps| <= 1 then 0
    else TeamChanges(ps[..|ps| - 1]) + (if TeamChange(ps, |ps| - 1) then 1 else 0)
  }

  /** The distinct teams that occur in `ps`. */
  function Teams(ps: seq<Player>): set<Byte>
  {
    set p | p in ps :: p.team
  }

  /** `ps` is ordered by non-decreasing team. */
  predicate SortedByTeam(ps: seq<Player>)
  {
    forall i, j :: 0 <= i < j < |ps| ==> ps[i].team <= ps[j].team
  }

  /** `r` holds exactly the players of `ps` (as a multiset), in team order. */
  predicate IsTeamOrderOf(r: seq<Player>, ps: seq<Player>)
  {
    SortedByTeam(r) && multiset(r) == multiset(ps)
  }
}
