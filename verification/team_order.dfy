/** Sorting players by team, and what team order implies about team changes. */
module TeamOrder {
  import opened Players

  /** Inserts `p` into the team-ordered `s` before the first player of a
      higher-or-equal team. */
  function Insert(p: Player, s: seq<Player>): (r: seq<Player>)
    requires SortedByTeam(s)
    ensures SortedByTeam(r)
    ensures multiset(r) == multiset(s) + multiset{p}
    ensures |r| == |s| + 1
  {
    if |s| == 0 || p.team <= s[0].team then [p] + s
    else
      var rest := Insert(p, s[1..]);
      assert s == [s[0]] + s[1..];
      AllFromAtLeast(rest, s[1..], p, s[0].team);
      [s[0]] + rest
  }

  /** Every player of `rest` is `p` or one of `s`; if all those have a team
      of at least `t`, so does every player of `rest`. */
  lemma AllFromAtLeast(rest: seq<Player>, s: seq<Player>, p: Player, t: int)
    requires multiset(rest) == multiset(s) + multiset{p}
    requires t <= p.team
    requires forall j :: 0 <= j < |s| ==> t <= s[j].team
    ensures forall j :: 0 <= j < |rest| ==> t <= rest[j].team
  {
    forall j | 0 <= j < |rest|
      ensures t <= rest[j].team
    {
      assert rest[j] in multiset(rest);
      if rest[j] != p {
        assert rest[j] in multiset(s);
      }
    }
  }

  /** Sorts `ps` by team. Which of several same-team players comes first is
      not part of the contract. */
  function SortByTeam(ps: seq<Player>): (r: seq<Player>)
    ensures IsTeamOrderOf(r, ps)
    ensures |r| == |ps|
  {
    if |ps| == 0 then []
    else
      assert ps == [ps[0]] + ps[1..];
      Insert(ps[0], SortByTeam(ps[1..]))
  }

  /** Players with the same multiset of players have the same set of teams. */
  lemma TeamsOfPermutation(r: seq<Player>, ps: seq<Player>)
    requires multiset(r) == multiset(ps)
    ensures Teams(r) == Teams(ps)
  {
    forall t | t in Teams(r) ensures t in Teams(ps) {
      var p :| p in r && p.team == t;
      assert p in multiset(r);
    }
    forall t | t in Teams(ps) ensures t in Teams(r) {
      var p :| p in ps && p.team == t;
      assert p in multiset(ps);
    }
  }

  /** The teams of `init + [last]` are those of `init` plus `last`'s. */
  lemma TeamsSnoc(init: seq<Player>, last: Player)
    ensures Teams(init + [last]) == Teams(init) + {last.team}
  {
    var ps := init + [last];
    forall t | t in Teams(ps) ensures t in Teams(init) + {last.team} {
      var p :| p in ps && p.team == t;
      if p != last {
        assert p in init;
      }
    }
  }

  /** A single player makes a single team. */
  lemma TeamsSingleton(p: Player)
    ensures |Teams([p])| == 1
  {
    assert Teams([p]) == {p.team};
  }

  /** In team order a player whose team differs from its predecessor's has a
      team that no earlier player has. */
  lemma NewTeamAtChange(ps: seq<Player>)
    requires SortedByTeam(ps)
    requires |ps| >= 2
    requires TeamChange(ps, |ps| - 1)
    ensures ps[|ps| - 1].team !in Teams(ps[..|ps| - 1])
  {
    var n := |ps|;
    var init := ps[..n - 1];
    forall k | 0 <= k < |init| ensures init[k].team < ps[n - 1].team {
      assert init[k].team <= ps[n - 2].team;
    }
  }

  /** In team order the number of teams grows by one exactly at a team
      change. */
  lemma TeamsGrow(ps: seq<Player>)
    requires SortedByTeam(ps)
    requires |ps| >= 2
    ensures |Teams(ps)| == |Teams(ps[..|ps| - 1])| + (if TeamChange(ps, |ps| - 1) then 1 else 0)
  {
    var n := |ps|;
    var init := ps[..n - 1];
    var last := ps[n - 1];
    assert ps == init + [last];
    TeamsSnoc(init, last);
    if TeamChange(ps, n - 1) {
      NewTeamAtChange(ps);
    } else {
      assert init[n - 2] in init;
      assert Teams(ps) == Teams(init);
    }
  }

  /** In team order every team change opens a team not seen before, so the
      number of team changes is one less than the number of distinct teams. */
  lemma {:induction false} TeamChangesOfSorted(ps: seq<Player>)
    requires SortedByTeam(ps)
    requires |ps| > 0
    ensures TeamChanges(ps) == |Teams(ps)| - 1
  {
    var n := |ps|;
    if n == 1 {
      TeamsSingleton(ps[0]);
      assert ps == [ps[0]];
    } else {
      var init := ps[..n - 1];
      assert SortedByTeam(init);
      TeamChangesOfSorted(init);
      TeamsGrow(ps);
    }
  }
}
