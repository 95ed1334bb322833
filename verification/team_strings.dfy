/** The two team-separated renderings of a team-ordered player list: the
    race matchup ("PTZvZTP") and the player-name list ("A, B VS C").
    Both are defined here piece by piece, one piece per player. */
module TeamStrings {
  import opened Players

  /** Player `i`'s part of the matchup: a 'v' when it opens a new team,
      then its race letter. */
  function MatchupPiece(ps: seq<Player>, i: nat): (piece: string)
    requires i < |ps|
    ensures piece == ['v', ps[i].race] || piece == [ps[i].race]
    ensures |piece| == 2 <==> TeamChange(ps, i)
  {
    (if TeamChange(ps, i) then "v" else "") + [ps[i].race]
  }

  /** What precedes player `i`'s name in the name list: nothing for the
      first player, " VS " when it opens a new team, ", " otherwise. */
  function NameSeparator(ps: seq<Player>, i: nat): (sep: string)
    requires i < |ps|
    ensures i == 0 <==> sep == ""
    ensures sep == " VS " <==> TeamChange(ps, i)
    ensures i > 0 && !TeamChange(ps, i) <==> sep == ", "
  {
    if i == 0 then "" else if ps[i].team != ps[i - 1].team then " VS " else ", "
  }

  /** Player `i`'s part of the name list. */
  function NamePiece(ps: seq<Player>, i: nat): string
    requires i < |ps|
  {
    NameSeparator(ps, i) + ps[i].name
  }

  /** The matchup of `ps`: its players' pieces in order. One letter per
      player plus one 'v' per team change, and it opens with the first
      player's letter. */
  function MatchupOf(ps: seq<Player>): (m: string)
    ensures |m| == |ps| + TeamChanges(ps)
    ensures |ps| > 0 ==> m[0] == ps[0].race
  {
    if |ps| == 0 then ""
    else MatchupOf(ps[..|ps| - 1]) + MatchupPiece(ps, |ps| - 1)
  }

  /** The total length of the names in `ps`. */
  function NameLengths(ps: seq<Player>): nat
  {
    if |ps| == 0 then 0 else NameLengths(ps[..|ps| - 1]) + |ps[|ps| - 1].name|
  }

  /** The name lengths of two lists add up. */
  lemma {:induction false} NameLengthsConcat(a: seq<Player>, b: seq<Player>)
    ensures NameLengths(a + b) == NameLengths(a) + NameLengths(b)
  {
    if |b| > 0 {
      var b' := b[..|b| - 1];
      assert (a + b)[..|a + b| - 1] == a + b';
      NameLengthsConcat(a, b');
    } else {
      assert a + b == a;
    }
  }

  /** Taking player k out of `b` removes one copy of it and its name. */
  lemma RemoveAt(b: seq<Player>, k: nat)
    requires k < |b|
    ensures multiset(b[..k] + b[k + 1..]) == multiset(b) - multiset{b[k]}
    ensures NameLengths(b) == NameLengths(b[..k] + b[k + 1..]) + |b[k].name|
  {
    var x := b[k];
    assert b == b[..k] + [x] + b[k + 1..];
    assert multiset(b) == multiset(b[..k]) + multiset{x} + multiset(b[k + 1..]);
    NameLengthsConcat(b[..k] + [x], b[k + 1..]);
    NameLengthsConcat(b[..k], [x]);
    NameLengthsConcat(b[..k], b[k + 1..]);
    assert [x][..0] == [];
  }

  /** The total name length does not depend on the order of the players. */
  lemma {:induction false} NameLengthsOfPermutation(a: seq<Player>, b: seq<Player>)
    requires multiset(a) == multiset(b)
    ensures NameLengths(a) == NameLengths(b)
  {
    if |a| == 0 {
      assert |multiset(b)| == |b|;
    } else {
      var x := a[|a| - 1];
      var a' := a[..|a| - 1];
      assert a == a' + [x];
      assert multiset(a') == multiset(a) - multiset{x};
      assert x in multiset(b);
      var k :| 0 <= k < |b| && b[k] == x;
      RemoveAt(b, k);
      NameLengthsOfPermutation(a', b[..k] + b[k + 1..]);
    }
  }

  /** The name list of `ps`: its players' pieces in order. It opens with the
      first player's name. */
  function PlayerNamesOf(ps: seq<Player>): (s: string)
    ensures |ps| == 0 ==> s == ""
    ensures |ps| > 0 ==> ps[0].name <= s
  {
    if |ps| == 0 then ""
    else PlayerNamesOf(ps[..|ps| - 1]) + NamePiece(ps, |ps| - 1)
  }

  /** The name list closes with the last player's name, and besides the
      names it holds |ps| - 1 separators, the " VS " ones two characters
      longer than the ", " ones. */
  lemma {:induction false} NamesShape(ps: seq<Player>)
    requires |ps| > 0
    ensures var s := PlayerNamesOf(ps); var last := ps[|ps| - 1].name;
      |last| <= |s| && s[|s| - |last|..] == last
    ensures |PlayerNamesOf(ps)| == NameLengths(ps) + 2 * (|ps| - 1) + 2 * TeamChanges(ps)
  {
    var n := |ps|;
    var init := ps[..n - 1];
    var s := PlayerNamesOf(ps);
    assert s == PlayerNamesOf(init) + NamePiece(ps, n - 1);
    if n > 1 {
      NamesShape(init);
    }
  }

  /** The name list grows by the last player's piece. */
  lemma NamesSnoc(ps: seq<Player>)
    requires |ps| > 0
    ensures PlayerNamesOf(ps) == PlayerNamesOf(ps[..|ps| - 1]) + NamePiece(ps, |ps| - 1)
  {
  }

  /** The name list of the first i + 1 players extends that of the first i
      players by player i's separator and name. */
  lemma NamesStep(ps: seq<Player>, i: nat)
    requires i < |ps|
    ensures PlayerNamesOf(ps[..i + 1]) == PlayerNamesOf(ps[..i]) + NameSeparator(ps, i) + ps[i].name
  {
    PiecesOfPrefix(ps, i);
    NamesSnoc(ps[..i + 1]);
  }

  /** Cutting `ps` after player `i` keeps the pieces of players 0 .. i. */
  lemma PiecesOfPrefix(ps: seq<Player>, i: nat)
    requires i < |ps|
    ensures ps[..i + 1][..i] == ps[..i]
    ensures MatchupPiece(ps[..i + 1], i) == MatchupPiece(ps, i)
    ensures NamePiece(ps[..i + 1], i) == NamePiece(ps, i)
  {
  }

  /** The matchup of the first i players, followed by player i's piece, is a
      prefix of the whole matchup. */
  lemma {:induction false} MatchupPrefix(ps: seq<Player>, i: nat)
    requires i < |ps|
    ensures MatchupOf(ps[..i]) + MatchupPiece(ps, i) <= MatchupOf(ps)
  {
    var n := |ps|;
    var init := ps[..n - 1];
    var whole := MatchupOf(ps);
    assert whole == MatchupOf(init) + MatchupPiece(ps, n - 1);
    if i < n - 1 {
      var pre := MatchupOf(ps[..i]) + MatchupPiece(ps, i);
      MatchupPrefix(init, i);
      assert init[..i] == ps[..i];
      assert MatchupPiece(init, i) == MatchupPiece(ps, i);
      assert pre <= MatchupOf(init);
      assert MatchupOf(init) <= whole;
    }
  }

  /** The name list of the first i players, followed by player i's piece, is
      a prefix of the whole name list. */
  lemma {:induction false} NamesPrefix(ps: seq<Player>, i: nat)
    requires i < |ps|
    ensures PlayerNamesOf(ps[..i]) + NamePiece(ps, i) <= PlayerNamesOf(ps)
  {
    var n := |ps|;
    var init := ps[..n - 1];
    assert PlayerNamesOf(ps) == PlayerNamesOf(init) + NamePiece(ps, n - 1);
    if i < n - 1 {
      NamesPrefix(init, i);
      assert init[..i] == ps[..i];
      assert NamePiece(init, i) == NamePiece(ps, i);
    }
  }

  /** Player i's stretch of the matchup is its piece. */
  lemma MatchupStretch(ps: seq<Player>, i: nat)
    requires i < |ps|
    ensures |MatchupOf(ps[..i])| <= |MatchupOf(ps[..i + 1])| <= |MatchupOf(ps)|
    ensures MatchupOf(ps)[|MatchupOf(ps[..i])|..|MatchupOf(ps[..i + 1])|] == MatchupPiece(ps, i)
  {
    MatchupPrefix(ps, i);
    PiecesOfPrefix(ps, i);
    var pre := MatchupOf(ps[..i]);
    var piece := MatchupPiece(ps, i);
    assert MatchupOf(ps[..i + 1]) == pre + piece;
    assert (pre + piece)[|pre|..] == piece;
  }

  /** Player i's stretch of the name list is its piece. */
  lemma NamesStretch(ps: seq<Player>, i: nat)
    requires i < |ps|
    ensures |PlayerNamesOf(ps[..i])| <= |PlayerNamesOf(ps[..i + 1])| <= |PlayerNamesOf(ps)|
    ensures PlayerNamesOf(ps)[|PlayerNamesOf(ps[..i])|..|PlayerNamesOf(ps[..i + 1])|] == NamePiece(ps, i)
  {
    NamesPrefix(ps, i);
    PiecesOfPrefix(ps, i);
    var pre := PlayerNamesOf(ps[..i]);
    var piece := NamePiece(ps, i);
    assert PlayerNamesOf(ps[..i + 1]) == pre + piece;
    assert (pre + piece)[|pre|..] == piece;
  }

  /** Player i's stretch of the matchup and of the name list: the matchup
      shows 'v' and the letter exactly when the name list shows " VS " and
      the name, and that is exactly when player i opens a new team. */
  lemma {:induction false} SameTeamChangePoints(ps: seq<Player>, i: nat)
    requires i < |ps|
    ensures
      var m := MatchupOf(ps);
      var a := |MatchupOf(ps[..i])|;
      var b := |MatchupOf(ps[..i + 1])|;
      var s := PlayerNamesOf(ps);
      var c := |PlayerNamesOf(ps[..i])|;
      var d := |PlayerNamesOf(ps[..i + 1])|;
      && a <= b <= |m| && c <= d <= |s|
      && (m[a..b] == [ps[i].race] || m[a..b] == ['v', ps[i].race])
      && (m[a..b] == ['v', ps[i].race] <==> TeamChange(ps, i))
      && (s[c..d] == " VS " + ps[i].name <==> TeamChange(ps, i))
      && (i > 0 ==> s[c..d] == " VS " + ps[i].name || s[c..d] == ", " + ps[i].name)
  {
    MatchupStretch(ps, i);
    NamesStretch(ps, i);
    var sep := NameSeparator(ps, i);
    if sep + ps[i].name == " VS " + ps[i].name {
      assert sep == (sep + ps[i].name)[..|sep|];
    }
  }
}
