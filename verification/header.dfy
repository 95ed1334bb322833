/** The replay header and its derived views: map size, players in team
    order (computed once and cached), matchup and player-name list. */
module ReplayHeader {
  import opened Wrappers
  import opened Players
  import opened TeamOrder
  import opened TeamStrings
  import Decimal

  /** The replay header. `players` are the real participants in the order
      the decoder stored them; `slots` also holds open and closed slots.
      `teamPlayers` is the lazily filled cache: `None` until the first
      request for the team order. Engine, speed, game type and start time
      are external value types and are not kept; `frames` only feeds the
      duration, which is not modelled. */
  datatype Header = Header(
    frames: nat,
    title: string,
    mapWidth: Uint16,
    mapHeight: Uint16,
    availSlotsCount: Byte,
    subType: Uint16,
    host: string,
    mapName: string,
    slots: seq<Player>,
    players: seq<Player>,
    teamPlayers: Option<seq<Player>>)

  /** The cache, when filled, holds the current players in team order. This
      holds for a header as the decoder hands it out (cache not filled) and
      is kept by every view, as long as nobody replaces `players` after the
      cache was filled. */
  predicate CacheConsistent(h: Header)
  {
    h.teamPlayers.Some? ==> IsTeamOrderOf(h.teamPlayers.value, h.players)
  }

  /** The players in team order, with the header as it is afterwards. The
      first call sorts a copy of `players` and stores it; every later call
      returns the stored sequence and leaves the header alone. Nothing but
      the cache ever changes, and `players` never does. */
  function TeamPlayers(h: Header): (res: (Header, seq<Player>))
    ensures res.0 == h.(teamPlayers := Some(res.1))
    ensures h.teamPlayers.Some? ==> res.1 == h.teamPlayers.value && res.0 == h
    ensures h.teamPlayers.None? ==> IsTeamOrderOf(res.1, h.players)
    ensures CacheConsistent(h) ==> IsTeamOrderOf(res.1, h.players) && CacheConsistent(res.0)
    ensures CacheConsistent(h) ==> |res.1| == |h.players|
  {
    match h.teamPlayers
    case Some(tp) =>
      assert |multiset(tp)| == |tp| && |multiset(h.players)| == |h.players|;
      (h, tp)
    case None =>
      var tp := SortByTeam(h.players);
      (h.(teamPlayers := Some(tp)), tp)
  }

  /** Asking twice gives the same answer and does not change the header
      again. */
  lemma TeamPlayersIdempotent(h: Header)
    ensures TeamPlayers(TeamPlayers(h).0) == TeamPlayers(h)
  {
  }

  /** Once filled, the cache is frozen: replacing `players` afterwards does
      not change what later calls return. */
  lemma TeamPlayersFrozen(h: Header, later: seq<Player>)
    ensures TeamPlayers(TeamPlayers(h).0.(players := later)).1 == TeamPlayers(h).1
  {
  }

  /** A one-player team order is that player. */
  lemma TeamOrderOfOne(tp: seq<Player>, ps: seq<Player>)
    requires IsTeamOrderOf(tp, ps)
    requires |ps| == 1
    ensures tp == ps
  {
    assert |multiset(tp)| == |tp|;
    assert ps == [ps[0]];
    assert tp[0] in multiset(ps);
  }

  /** The matchup of any team order of `ps`: empty for no players, the race
      letter alone for one, and otherwise one letter per player plus one 'v'
      per team beyond the first, whatever the order within a team. */
  lemma MatchupOfTeamOrder(tp: seq<Player>, ps: seq<Player>)
    requires IsTeamOrderOf(tp, ps)
    ensures |ps| == 0 ==> MatchupOf(tp) == ""
    ensures |ps| == 1 ==> MatchupOf(tp) == [ps[0].race]
    ensures |ps| > 0 ==> |MatchupOf(tp)| == |ps| + |Teams(ps)| - 1
  {
    assert |multiset(tp)| == |tp| && |multiset(ps)| == |ps|;
    if |ps| == 1 {
      TeamOrderOfOne(tp, ps);
    }
    if |ps| > 0 {
      TeamChangesOfSorted(tp);
      TeamsOfPermutation(tp, ps);
    }
  }

  /** The name list of any team order of `ps`: empty for no players and
      the name alone for one. */
  lemma NamesOfTeamOrder(tp: seq<Player>, ps: seq<Player>)
    requires IsTeamOrderOf(tp, ps)
    ensures |ps| == 0 ==> PlayerNamesOf(tp) == ""
    ensures |ps| == 1 ==> PlayerNamesOf(tp) == ps[0].name
  {
    assert |multiset(tp)| == |tp| && |multiset(ps)| == |ps|;
    if |ps| == 1 {
      TeamOrderOfOne(tp, ps);
      assert PlayerNamesOf(tp) == PlayerNamesOf(tp[..0]) + NamePiece(tp, 0);
    }
  }

  /** The name list of any team order of a non-empty `ps` holds the names
      plus |ps| - 1 separators, of which one " VS " per team beyond the
      first. */
  lemma NamesLengthOfTeamOrder(tp: seq<Player>, ps: seq<Player>)
    requires IsTeamOrderOf(tp, ps)
    requires |ps| > 0
    ensures |PlayerNamesOf(tp)| == NameLengths(tp) + 2 * (|ps| - 1) + 2 * (|Teams(ps)| - 1)
  {
    assert |multiset(tp)| == |tp| && |multiset(ps)| == |ps|;
    NamesShape(tp);
    TeamChangesOfSorted(tp);
    TeamsOfPermutation(tp, ps);
  }

  /** The loop of `Header.Matchup` over a team-ordered list: walking it with
      the previous player's team at hand, emit a 'v' before a player whose
      team differs from it, then the player's race letter. */
  method MatchupLoop(tp: seq<Player>) returns (m: string)
    ensures m == MatchupOf(tp)
  {
    m := [];
    var prevTeam: Byte := 0;
    for i := 0 to |tp|
      invariant m == MatchupOf(tp[..i])
      invariant i > 0 ==> prevTeam == tp[i - 1].team
    {
      var p := tp[i];
      PiecesOfPrefix(tp, i);
      if i > 0 && p.team != prevTeam {
        m := m + ['v'];
      }
      m := m + [p.race];
      prevTeam := p.team;
    }
    assert tp[..|tp|] == tp;
  }

  /** The matchup of the header: the matchup loop over the team order. For
      a consistent header it is empty without players, the race letter
      alone for one player, and otherwise has one letter per player and
      one 'v' per team beyond the first. */
  method Matchup(h: Header) returns (h': Header, m: string)
    ensures h' == TeamPlayers(h).0
    ensures m == MatchupOf(TeamPlayers(h).1)
    ensures CacheConsistent(h) && |h.players| == 0 ==> m == ""
    ensures CacheConsistent(h) && |h.players| == 1 ==> m == [h.players[0].race]
    ensures CacheConsistent(h) && |h.players| > 0 ==> |m| == |h.players| + |Teams(h.players)| - 1
  {
    var res := TeamPlayers(h);
    h' := res.0;
    m := MatchupLoop(res.1);
    if CacheConsistent(h) {
      MatchupOfTeamOrder(res.1, h.players);
    }
  }

  /** The loop of `Header.PlayerNames` over a team-ordered list: the names, with
      " VS " before a player whose team differs from the previous player's
      and ", " before any other player but the first. */
  method NamesLoop(tp: seq<Player>) returns (s: string)
    ensures s == PlayerNamesOf(tp)
  {
    s := [];
    var prevTeam: Byte := 0;
    for i := 0 to |tp|
      invariant s == PlayerNamesOf(tp[..i])
      invariant i > 0 ==> prevTeam == tp[i - 1].team
    {
      var p := tp[i];
      NamesStep(tp, i);
      ghost var next := PlayerNamesOf(tp[..i + 1]);
      if i > 0 {
        if p.team != prevTeam {
          s := s + " VS ";
        } else {
          s := s + ", ";
        }
      }
      s := s + p.name;
      assert s == next;
      prevTeam := p.team;
    }
    assert tp[..|tp|] == tp;
  }

  /** The player-name list of the header: the name loop over the team
      order. For a consistent header it is empty without players, the name
      alone for one player, and otherwise the names plus |players| - 1
      separators, one " VS " per team beyond the first. */
  method PlayerNames(h: Header) returns (h': Header, s: string)
    ensures h' == TeamPlayers(h).0
    ensures s == PlayerNamesOf(TeamPlayers(h).1)
    ensures CacheConsistent(h) && |h.players| == 0 ==> s == ""
    ensures CacheConsistent(h) && |h.players| == 1 ==> s == h.players[0].name
    ensures CacheConsistent(h) && |h.players| > 0 ==>
      |s| == NameLengths(h.players) + 2 * (|h.players| - 1) + 2 * (|Teams(h.players)| - 1)
  {
    var res := TeamPlayers(h);
    h' := res.0;
    s := NamesLoop(res.1);
    if CacheConsistent(h) {
      NamesOfTeamOrder(res.1, h.players);
      if |h.players| > 0 {
        NamesLengthOfTeamOrder(res.1, h.players);
        NameLengthsOfPermutation(res.1, h.players);
      }
    }
  }

  /** The map size "<width>x<height>": the width and the height as plain
      decimal numerals (no leading zeros, no spaces) around one 'x'. */
  function MapSize(h: Header): (s: string)
    ensures ParseMapSize(s) == Some((h.mapWidth as nat, h.mapHeight as nat))
    ensures IndexOf(s, 'x').Some?
    ensures Decimal.Canonical(s[..IndexOf(s, 'x').value])
    ensures Decimal.Canonical(s[IndexOf(s, 'x').value + 1..])
    ensures 3 <= |s| <= 11
  {
    var w := Decimal.Show(h.mapWidth);
    var t := Decimal.Show(h.mapHeight);
    MapSizeParses(w, t, h.mapWidth, h.mapHeight);
    assert (w + "x" + t)[..|w|] == w;
    assert (w + "x" + t)[|w| + 1..] == t;
    Decimal.ShowLength(h.mapWidth, 5);
    Decimal.ShowLength(h.mapHeight, 5);
    w + "x" + t
  }

  /** The position of the first `c` in `s`, if any. */
  function IndexOf(s: string, c: char): (r: Option<nat>)
    ensures r.Some? ==> r.value < |s| && s[r.value] == c
    ensures r.Some? ==> forall k :: 0 <= k < r.value ==> s[k] != c
    ensures r.None? ==> forall k :: 0 <= k < |s| ==> s[k] != c
  {
    if |s| == 0 then None
    else if s[0] == c then Some(0)
    else match IndexOf(s[1..], c)
      case None => None
      case Some(k) => Some(k + 1)
  }

  /** Reads "<width>x<height>" back: two non-empty digit strings around the
      first 'x'. */
  function ParseMapSize(s: string): Option<(nat, nat)>
  {
    match IndexOf(s, 'x')
    case None => None
    case Some(k) =>
      match (Decimal.Parse(s[..k]), Decimal.Parse(s[k + 1..]))
      case (Some(w), Some(t)) => Some((w, t))
      case _ => None
  }

  /** Two renderings joined by 'x' read back as the two numbers. */
  lemma MapSizeParses(w: string, t: string, width: nat, height: nat)
    requires w == Decimal.Show(width) && t == Decimal.Show(height)
    ensures IndexOf(w + "x" + t, 'x') == Some(|w|)
    ensures ParseMapSize(w + "x" + t) == Some((width, height))
  {
    var s := w + "x" + t;
    assert forall k :: 0 <= k < |w| ==> s[k] == w[k] && s[k] != 'x';
    assert s[|w|] == 'x';
    assert IndexOf(s, 'x') == Some(|w|);
    assert s[..|w|] == w;
    assert s[|w| + 1..] == t;
    Decimal.ParseShow(width);
    Decimal.ParseShow(height);
  }
}
