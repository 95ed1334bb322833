/** Worked examples of the header's views. */
module Scenarios {
  import opened Wrappers
  import opened Players
  import opened TeamStrings
  import opened ReplayHeader
  import Decimal

  const alice := Player(0, 0, 'P', 1, "Alice")
  const bob := Player(1, 1, 'T', 1, "Bob")
  const carol := Player(2, 2, 'Z', 2, "Carol")

  /** Alice and Bob on team 1, Carol on team 2, in team order: "PTvZ" and
      "Alice, Bob VS Carol". */
  lemma TrioMatchup()
    ensures MatchupOf([alice, bob, carol]) == "PTvZ"
  {
    assert [alice, bob, carol][..2] == [alice, bob];
    assert [alice, bob][..1] == [alice];
    assert MatchupOf([alice]) == "P";
    assert MatchupOf([alice, bob]) == "PT";
  }

  lemma TrioNames()
    ensures PlayerNamesOf([alice, bob, carol]) == "Alice, Bob VS Carol"
  {
    var one, two, three := [alice], [alice, bob], [alice, bob, carol];
    assert three[..2] == two && two[..1] == one && one[..0] == [];
    NamesSnoc(one);
    NamesSnoc(two);
    NamesSnoc(three);
    assert NameSeparator(two, 1) == ", ";
    assert NameSeparator(three, 2) == " VS ";
  }

  /** Any header with no players has empty views. */
  lemma NoPlayersViews(tp: seq<Player>)
    requires IsTeamOrderOf(tp, [])
    ensures tp == [] && MatchupOf(tp) == "" && PlayerNamesOf(tp) == ""
  {
    assert |multiset(tp)| == |tp|;
  }

  function Sized(width: Uint16, height: Uint16): Header
  {
    Header(0, "", width, height, 0, 0, "", "", [], [], None)
  }

  /** The numeral of a two-digit number is its tens digit, then its units. */
  lemma ShowTwoDigits(n: nat)
    requires 10 <= n < 100
    ensures Decimal.Show(n) == [Decimal.DigitChar(n / 10), Decimal.DigitChar(n % 10)]
  {
    assert Decimal.Show(n / 10) == [Decimal.DigitChar(n / 10)];
  }

  lemma MapSize64x64()
    ensures MapSize(Sized(64, 64)) == "64x64"
  {
    ShowTwoDigits(64);
    assert Decimal.DigitChar(6) == '6' && Decimal.DigitChar(4) == '4';
    assert MapSize(Sized(64, 64)) == Decimal.Show(64) + "x" + Decimal.Show(64);
  }

  lemma MapSize128x64()
    ensures MapSize(Sized(128, 64)) == "128x64"
  {
    ShowTwoDigits(12);
    ShowTwoDigits(64);
    assert Decimal.DigitChar(1) == '1' && Decimal.DigitChar(2) == '2' && Decimal.DigitChar(8) == '8';
    assert Decimal.DigitChar(6) == '6' && Decimal.DigitChar(4) == '4';
    assert Decimal.Show(128) == Decimal.Show(12) + [Decimal.DigitChar(8)] == "128";
    assert MapSize(Sized(128, 64)) == Decimal.Show(128) + "x" + Decimal.Show(64);
  }

  lemma MapSize0x0()
    ensures MapSize(Sized(0, 0)) == "0x0"
  {
    assert Decimal.Show(0) == "0";
  }
}
