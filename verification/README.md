# Replay header views (screp `rep/header.go`)

A Dafny model of the replay header of `screp`, a StarCraft replay parser, and
of the derived views the header offers over its player list:

- `MapSize`: the map dimensions rendered as `"<width>x<height>"`.
- `TeamPlayers`: the real players sorted by team. The sorted copy is computed on the first call,
  stored in the header, and returned unchanged on every later call.
- `Matchup`: the race letters in team order, with a `'v'` before each player who opens a new
  team, for example `"PTZvZTP"`.
- `PlayerNames`: the names in team order. `" VS "` goes before a player who opens a new team and
  `", "` goes before every other player except the first.

Layout:

- `players.dfy` (`Players`): the `Player` record (slot id, id, race letter, team, name), Go's
  `byte`/`uint16` ranges, and the team-order vocabulary: team change, number of team changes,
  set of teams, sortedness, "is a team order of".
- `team_order.dfy` (`TeamOrder`): an insertion sort by team. It proves that the result is sorted
  and is a permutation of the input. It also proves that in team order the number of team
  changes is one less than the number of distinct teams.
- `team_strings.dfy` (`TeamStrings`): the matchup and the name list, defined piece by piece, one
  piece per player. It also proves how each player's stretch of text sits inside the whole
  string.
- `header.dfy` (`ReplayHeader`): the `Header` record with its lazily filled `teamPlayers` cache.
  The cache is modelled by state passing: `TeamPlayers(h)` returns the header as it is after
  the call, together with the players. The file also holds the two loops that build the
  matchup and the name list the way the Go code does (with a "previous team" variable), and
  `MapSize` with its parse-back partner.
- `decimal.dfy` (`Decimal`): decimal rendering of naturals, which is what `fmt.Sprint` does for
  unsigned integers, and its inverse.
- `scenarios.dfy` (`Scenarios`): worked examples.
- `wrappers.dfy` (`Wrappers`): `Option`.

One might expect players of the same team to keep their input order. The
code sorts with `sort.Slice` (rep/header.go:77), which does not promise that, so `TeamPlayers`
promises only that its result is ordered by non-decreasing team and holds the same players.
The model's own sort happens to keep input order, but no contract says so. The matchup and
name-list lemmas hold for any team order of the players. Where a lemma depends on the order
within a team, it is stated for an already team-ordered sequence (the Alice/Bob/Carol
example).

## Model

| member | source | states |
|---|---|---|
| TeamOrder.SortByTeam | rep/header.go:75-79 | the copy sorted by team has the same length as the players, holds exactly the same players (same multiset), and is ordered by non-decreasing team |
| TeamOrder.Insert | rep/header.go:77-79 | inserting a player into a team-ordered list keeps it team-ordered and adds exactly that player |
| TeamOrder.TeamChangesOfSorted | rep/header.go:77-79 | in any team order of a non-empty list, the number of adjacent team changes is the number of distinct teams minus one |
| TeamOrder.TeamsOfPermutation | rep/header.go:75-76 | a copy with the same players has the same set of teams |
| ReplayHeader.TeamPlayers | rep/header.go:73-82 | the first call (cache empty) returns the players in team order and stores exactly that sequence in the cache. A later call returns the cached sequence and leaves the header as it is. Nothing but the cache changes, so `players` is never modified. A consistent cache stays consistent |
| ReplayHeader.TeamPlayersIdempotent | rep/header.go:74-81 | a second call returns the same sequence and the same header as the first |
| ReplayHeader.TeamPlayersFrozen | rep/header.go:74-81 | once the cache is set, replacing `players` does not change what later calls return |
| ReplayHeader.MatchupLoop | rep/header.go:87-96 | the loop over the team order, with its previous-team variable, produces exactly the piecewise matchup: a `'v'` before each player who opens a new team, then the race letter |
| ReplayHeader.Matchup | rep/header.go:86-97 | the matchup is computed over `TeamPlayers` and fills the cache the same way. With a consistent cache it is empty for no players and a single race letter for one player. Otherwise its length is the number of players plus the number of distinct teams minus one |
| ReplayHeader.MatchupOfTeamOrder | rep/header.go:89-95 | for every team order of the players: an empty matchup for no players, the one race letter for one player, and length = players + teams − 1 otherwise |
| ReplayHeader.NamesLoop | rep/header.go:102-115 | the loop with " VS " / ", " separators and the previous-team variable produces exactly the piecewise name list |
| ReplayHeader.PlayerNames | rep/header.go:101-116 | the name list is computed over `TeamPlayers` and fills the cache the same way. With a consistent cache it is empty for no players and the one name for one player. Otherwise its length is the total length of the players' names (in any order) plus 2·(players − 1) plus 2·(teams − 1), so there are players − 1 separators and one " VS " per extra team |
| ReplayHeader.NamesOfTeamOrder | rep/header.go:104-114 | for every team order of the players: empty for no players and the name alone for one |
| ReplayHeader.NamesLengthOfTeamOrder | rep/header.go:104-114 | for every team order of non-empty players: length = the team order's total name length + 2·(players − 1) + 2·(teams − 1), i.e. players − 1 separators with one " VS " per extra team (`PlayerNames` restates it over the players' own names through `NameLengthsOfPermutation`) |
| ReplayHeader.MapSize | rep/header.go:67-70 | the map size reads back as exactly (width, height). Around its first `'x'` stand two plain decimal numerals with no leading zero (only `"0"` itself starts with `'0'`) and nothing else, so the string is the unique `fmt.Sprint` rendering; 3 to 11 characters for 16-bit sizes |
| ReplayHeader.MapSizeParses | rep/header.go:69 | in the decimal width, `'x'` and the decimal height, the first `'x'` is the one between the numerals, and the string parses back to the two numbers |
| Decimal.Show | rep/header.go:69 | the decimal rendering is canonical (non-empty, all digits, no leading zero except for `"0"`) and has exactly as many digits as the number needs |
| Decimal.ParseShow | rep/header.go:69 | reading a rendering back gives the rendered number |
| TeamStrings.MatchupPiece | rep/header.go:90-93 | a player's matchup piece is its race letter, preceded by `'v'` exactly when the player opens a new team |
| TeamStrings.NameSeparator | rep/header.go:105-111 | the separator before a player is empty exactly for the first player, " VS " exactly at a team change, and ", " otherwise |
| TeamStrings.MatchupOf | rep/header.go:89-95 | the matchup has one letter per player plus one `'v'` per team change, and starts with the first player's race letter, never with a separating `'v'` |
| TeamStrings.PlayerNamesOf | rep/header.go:104-114 | the name list is empty for no players and otherwise starts with the first player's name (so it starts with a separator only when that name is empty) |
| TeamStrings.NameLengthsOfPermutation | rep/header.go:75-76 | reordering the players, as the team sort does, leaves the total length of their names unchanged |
| TeamStrings.NamesShape | rep/header.go:104-114 | the name list ends with the last player's name. Its length is the total name length plus 2·(players − 1) plus 2·(team changes) |
| TeamStrings.MatchupPrefix | rep/header.go:89-95 | the matchup of the first i players followed by player i's piece is a prefix of the whole matchup |
| TeamStrings.NamesPrefix | rep/header.go:104-114 | the name list of the first i players followed by player i's piece is a prefix of the whole name list |
| TeamStrings.SameTeamChangePoints | rep/header.go:89-111 | player i's stretch of the matchup is `'v'` plus its letter exactly when its stretch of the name list is " VS " plus its name, and both happen exactly when player i opens a new team |
| Scenarios.TrioMatchup | rep/header.go:84-96 | Alice (team 1, P), Bob (team 1, T), Carol (team 2, Z) in team order give `"PTvZ"` |
| Scenarios.TrioNames | rep/header.go:99-115 | the same three players give `"Alice, Bob VS Carol"` |
| Scenarios.NoPlayersViews | rep/header.go:74-115 | with no players the team order, matchup and name list are all empty |
| Scenarios.MapSize64x64 | rep/header.go:67-70 | a 64 by 64 map gives `"64x64"` |
| Scenarios.MapSize128x64 | rep/header.go:67-70 | a 128 by 64 map gives `"128x64"` |
| Scenarios.MapSize0x0 | rep/header.go:67-70 | a 0 by 0 map gives `"0x0"` |

## Left out

- `Duration` (rep/header.go:63-65): it delegates to the frame type's duration conversion and to
  `time.Duration`, which are outside this file. `frames` is kept only as data.
- The `repcore` value types (engine, speed, game type, player type, colour, race internals):
  they are external. A player keeps only its race's letter, and the player type and colour
  fields are dropped.
- Start time, title, host, map name, available slot count and sub-type are plain data with no
  logic. They are kept as fields where they are simple values.
- The `json:"-"` tag on `Slots`: serialisation plumbing.
- Any relation between `Players` and `Slots`: the code neither checks nor uses one.
- Pointer identity: the Go slices hold `*Player`. The model compares players by value, so
  "same players" means the same multiset of values.
- Aliasing of the returned slice: `TeamPlayers` hands out the cached slice itself, so a caller
  could reorder it in place. The model returns an immutable sequence.
- Concurrency around the lazy cache: the code is single-threaded and has no synchronisation.
- Stability of the team sort, and which of several same-team players comes first:
  `sort.Slice` promises neither.
- A nil `Race` pointer makes `Matchup` panic in Go. The model's players always have a race
  letter.
- A nil `*Player` in `Players` panics in the sort's comparison and in both loops
  (rep/header.go:78, 90, 106). The model's player list holds no nil entries.
- Go strings are byte strings and a name may hold invalid UTF-8. The model's names are
  `seq<char>`, which cannot represent such bytes.
- The `[]rune` to `string` conversion in `Matchup` is UTF-8 encoding. The model keeps the
  characters as `seq<char>`.
- ReplayHeader.Matchup: the count and edge-case clauses are stated only for a header whose
  cache is consistent with `players`. If `players` is replaced after the cache was filled, the
  source returns views of the stale cache, and the model does the same (see
  `TeamPlayersFrozen`).
- ReplayHeader.PlayerNames: the same consistency condition as for `Matchup`.
