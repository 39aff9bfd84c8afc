/**
 * The two columns of the achievement table of src/achievements.ts, the
 * PSN ids and the names, with the facts about them that the table relies
 * on: the ids count the rows from 1 and the names are pairwise distinct.
 */
module AchievementColumns {
  /** The decimal numeral of `n`. */
  function Decimal(n: nat): (r: string)
    ensures |r| >= 1
    decreases n
  {
    var digit := "0123456789"[n % 10];
    if n < 10 then [digit] else Decimal(n / 10) + [digit]
  }

  /** The PSN ids of the rows of Achievements, in order. */
  const PsnIds: seq<string> := ["1", "2", "3", "4", "5", "6", "7", "8", "9", "10", "11", "12", "13", "14", "15", "16", "17", "18", "19", "20", "21", "22", "23", "24", "25", "26", "27", "28", "29", "30", "31", "32", "33", "34", "35"]

  /** The names of the rows of Achievements, in order. */
  const Names: seq<string> := [
    "survive_20",
    "survive_35",
    "survive_55",
    "survive_70",
    "build_researchlab",
    "build_researchlab2",
    "build_researchlab3",
    "build_researchlab4",
    "wormhole_used",
    "pigking_trader",
    "growfrombutterfly",
    "honey_harvester",
    "sewing_kit",
    "pigman_posse",
    "rocky_posse",
    "hatch_tallbirdegg",
    "pacify_forest",
    "cave_entrance_opened",
    "survive_earthquake",
    "tentacle_pillar_hole_used",
    "snail_armour_set",
    "join_game",
    "host_for_days",
    "hasrevivedplayer",
    "helping_hand",
    "party_time",
    "equip_skin_clothing",
    "trade_inn",
    "deerclops_killed",
    "spiderqueen_killed",
    "minotaur_killed",
    "moosegoose_killed",
    "bearger_killed",
    "dragonfly_killed",
    "domesticated_beefalo"
  ]

  /** The ids of rows `lo` to `hi - 1` are their row numbers, counted from 1. */
  ghost predicate NumberedRows(lo: nat, hi: nat)
  {
    forall i :: lo <= i < hi && i < |PsnIds| ==> PsnIds[i] == Decimal(i + 1)
  }

  lemma NumberedRows0()
    ensures NumberedRows(0, 5)
  {
    assert PsnIds[0] == Decimal(1);
    assert PsnIds[1] == Decimal(2);
    assert PsnIds[2] == Decimal(3);
    assert PsnIds[3] == Decimal(4);
    assert PsnIds[4] == Decimal(5);
  }

  lemma NumberedRows5()
    ensures NumberedRows(5, 10)
  {
    assert PsnIds[5] == Decimal(6);
    assert PsnIds[6] == Decimal(7);
    assert PsnIds[7] == Decimal(8);
    assert PsnIds[8] == Decimal(9);
    assert PsnIds[9] == Decimal(10);
  }

  lemma NumberedRows10()
    ensures NumberedRows(10, 15)
  {
    assert PsnIds[10] == Decimal(11);
    assert PsnIds[11] == Decimal(12);
    assert PsnIds[12] == Decimal(13);
    assert PsnIds[13] == Decimal(14);
    assert PsnIds[14] == Decimal(15);
  }

  lemma NumberedRows15()
    ensures NumberedRows(15, 20)
  {
    assert PsnIds[15] == Decimal(16);
    assert PsnIds[16] == Decimal(17);
    assert PsnIds[17] == Decimal(18);
    assert PsnIds[18] == Decimal(19);
    assert PsnIds[19] == Decimal(20);
  }

  lemma NumberedRows20()
    ensures NumberedRows(20, 25)
  {
    assert PsnIds[20] == Decimal(21);
    assert PsnIds[21] == Decimal(22);
    assert PsnIds[22] == Decimal(23);
    assert PsnIds[23] == Decimal(24);
    assert PsnIds[24] == Decimal(25);
  }

  lemma NumberedRows25()
    ensures NumberedRows(25, 30)
  {
    assert PsnIds[25] == Decimal(26);
    assert PsnIds[26] == Decimal(27);
    assert PsnIds[27] == Decimal(28);
    assert PsnIds[28] == Decimal(29);
    assert PsnIds[29] == Decimal(30);
  }

  lemma NumberedRows30()
    ensures NumberedRows(30, 35)
  {
    assert PsnIds[30] == Decimal(31);
    assert PsnIds[31] == Decimal(32);
    assert PsnIds[32] == Decimal(33);
    assert PsnIds[33] == Decimal(34);
    assert PsnIds[34] == Decimal(35);
  }

  /** The names of rows 0 to 2 differ from the names of all earlier rows. */
  lemma FreshNames0()
    ensures forall i, j :: 0 <= i < j < |Names| && 0 <= j < 3 ==> Names[i] != Names[j]
  {
    assert forall i :: 0 <= i < 1 ==> Names[i] != Names[1];
    assert forall i :: 0 <= i < 2 ==> Names[i] != Names[2];
  }

  /** The names of rows 3 to 5 differ from the names of all earlier rows. */
  lemma FreshNames3()
    ensures forall i, j :: 0 <= i < j < |Names| && 3 <= j < 6 ==> Names[i] != Names[j]
  {
    assert forall i :: 0 <= i < 3 ==> Names[i] != Names[3];
    assert forall i :: 0 <= i < 4 ==> Names[i] != Names[4];
    assert forall i :: 0 <= i < 5 ==> Names[i] != Names[5];
  }

  /** The names of rows 6 to 8 differ from the names of all earlier rows. */
  lemma FreshNames6()
    ensures forall i, j :: 0 <= i < j < |Names| && 6 <= j < 9 ==> Names[i] != Names[j]
  {
    assert forall i :: 0 <= i < 6 ==> Names[i] != Names[6];
    assert forall i :: 0 <= i < 7 ==> Names[i] != Names[7];
    assert forall i :: 0 <= i < 8 ==> Names[i] != Names[8];
  }

  /** The names of rows 9 to 11 differ from the names of all earlier rows. */
  lemma FreshNames9()
    ensures forall i, j :: 0 <= i < j < |Names| && 9 <= j < 12 ==> Names[i] != Names[j]
  {
    assert forall i :: 0 <= i < 9 ==> Names[i] != Names[9];
    assert forall i :: 0 <= i < 10 ==> Names[i] != Names[10];
    assert forall i :: 0 <= i < 11 ==> Names[i] != Names[11];
  }

  /** The names of rows 12 to 14 differ from the names of all earlier rows. */
  lemma FreshNames12()
    ensures forall i, j :: 0 <= i < j < |Names| && 12 <= j < 15 ==> Names[i] != Names[j]
  {
    assert forall i :: 0 <= i < 12 ==> Names[i] != Names[12];
    assert forall i :: 0 <= i < 13 ==> Names[i] != Names[13];
    assert forall i :: 0 <= i < 14 ==> Names[i] != Names[14];
  }

  /** The names of rows 15 to 17 differ from the names of all earlier rows. */
  lemma FreshNames15()
    ensures forall i, j :: 0 <= i < j < |Names| && 15 <= j < 18 ==> Names[i] != Names[j]
  {
    assert forall i :: 0 <= i < 15 ==> Names[i] != Names[15];
    assert forall i :: 0 <= i < 16 ==> Names[i] != Names[16];
    assert forall i :: 0 <= i < 17 ==> Names[i] != Names[17];
  }

  /** The names of rows 18 to 20 differ from the names of all earlier rows. */
  lemma FreshNames18()
    ensures forall i, j :: 0 <= i < j < |Names| && 18 <= j < 21 ==> Names[i] != Names[j]
  {
    assert forall i :: 0 <= i < 18 ==> Names[i] != Names[18];
    assert forall i :: 0 <= i < 19 ==> Names[i] != Names[19];
    assert forall i :: 0 <= i < 20 ==> Names[i] != Names[20];
  }

  /** The names of rows 21 to 23 differ from the names of all earlier rows. */
  lemma FreshNames21()
    ensures forall i, j :: 0 <= i < j < |Names| && 21 <= j < 24 ==> Names[i] != Names[j]
  {
    assert forall i :: 0 <= i < 21 ==> Names[i] != Names[21];
    assert forall i :: 0 <= i < 22 ==> Names[i] != Names[22];
    assert forall i :: 0 <= i < 23 ==> Names[i] != Names[23];
  }

  /** The names of rows 24 to 26 differ from the names of all earlier rows. */
  lemma FreshNames24()
    ensures forall i, j :: 0 <= i < j < |Names| && 24 <= j < 27 ==> Names[i] != Names[j]
  {
    assert forall i :: 0 <= i < 24 ==> Names[i] != Names[24];
    assert forall i :: 0 <= i < 25 ==> Names[i] != Names[25];
    assert forall i :: 0 <= i < 26 ==> Names[i] != Names[26];
  }

  /** The names of rows 27 to 29 differ from the names of all earlier rows. */
  lemma FreshNames27()
    ensures forall i, j :: 0 <= i < j < |Names| && 27 <= j < 30 ==> Names[i] != Names[j]
  {
    assert forall i :: 0 <= i < 27 ==> Names[i] != Names[27];
    assert forall i :: 0 <= i < 28 ==> Names[i] != Names[28];
    assert forall i :: 0 <= i < 29 ==> Names[i] != Names[29];
  }

  /** The names of rows 30 to 32 differ from the names of all earlier rows. */
  lemma FreshNames30()
    ensures forall i, j :: 0 <= i < j < |Names| && 30 <= j < 33 ==> Names[i] != Names[j]
  {
    assert forall i :: 0 <= i < 30 ==> Names[i] != Names[30];
    assert forall i :: 0 <= i < 31 ==> Names[i] != Names[31];
    assert forall i :: 0 <= i < 32 ==> Names[i] != Names[32];
  }

  /** The names of rows 33 to 34 differ from the names of all earlier rows. */
  lemma FreshNames33()
    ensures forall i, j :: 0 <= i < j < |Names| && 33 <= j < 35 ==> Names[i] != Names[j]
  {
    assert forall i :: 0 <= i < 33 ==> Names[i] != Names[33];
    assert forall i :: 0 <= i < 34 ==> Names[i] != Names[34];
  }

  /** The PSN ids count the rows from 1. */
  lemma IdsNumbered()
    ensures |PsnIds| == |Names| == 35
    ensures forall i :: 0 <= i < |PsnIds| ==> PsnIds[i] == Decimal(i + 1)
  {
    NumberedRows0();
    NumberedRows5();
    NumberedRows10();
    NumberedRows15();
    NumberedRows20();
    NumberedRows25();
    NumberedRows30();
    forall i | 0 <= i < |PsnIds|
      ensures PsnIds[i] == Decimal(i + 1)
    {
      assert NumberedRows(i / 5 * 5, i / 5 * 5 + 5);
    }
  }

  /** No two rows share a name. */
  lemma NamesDistinct()
    ensures forall i, j :: 0 <= i < j < |Names| ==> Names[i] != Names[j]
  {
    FreshNames0();
    FreshNames3();
    FreshNames6();
    FreshNames9();
    FreshNames12();
    FreshNames15();
    FreshNames18();
    FreshNames21();
    FreshNames24();
    FreshNames27();
    FreshNames30();
    FreshNames33();
  }
}

/**
 * The achievement table of src/achievements.ts.  Each achievement has the
 * name the game code uses and its platform ids: the Steam id is the PSN id
 * and the name joined by "_".
 */
module Achievements {
  import opened AchievementColumns

  datatype AchievementId = AchievementId(steam: string, psn: string)

  datatype Achievement = Achievement(name: string, id: AchievementId)

  /** ACHIEVEMENT(id, name). */
  function MakeAchievement(id: string, name: string): Achievement
  {
    Achievement(name, AchievementId(id + "_" + name, id))
  }

  /**
   * The Steam id of an achievement splits back into its PSN id and its
   * name at the "_" that follows the PSN id.
   */
  lemma SteamIdSplits(id: string, name: string)
    ensures var a := MakeAchievement(id, name);
      && a.id.psn == id && a.name == name
      && |a.id.steam| == |id| + 1 + |name|
      && a.id.steam[..|id|] == a.id.psn && a.id.steam[|id|] == '_' && a.id.steam[|id| + 1..] == a.name
  {
    var s := id + "_" + name;
    assert s[..|id|] == id && s[|id| + 1..] == name;
  }

  /** The rows ACHIEVEMENT(ids[i], names[i]), in order. */
  function Rows(ids: seq<string>, names: seq<string>): (r: seq<Achievement>)
    requires |ids| == |names|
    ensures |r| == |names|
    ensures forall i :: 0 <= i < |r| ==> r[i] == MakeAchievement(ids[i], names[i])
  {
    if names == [] then []
    else
      var n := |names| - 1;
      Rows(ids[..n], names[..n]) + [MakeAchievement(ids[n], names[n])]
  }

  /** Achievements. */
  const Table: seq<Achievement> := Rows(PsnIds, Names)

  /**
   * The table has 35 achievements numbered 1 to 35 in order, and every
   * Steam id is built from its PSN id and name.
   */
  lemma TableIds()
    ensures |Table| == 35
    ensures forall i :: 0 <= i < |Table| ==> Table[i].id.psn == Decimal(i + 1)
    ensures forall i :: 0 <= i < |Table| ==> Table[i].id.steam == Table[i].id.psn + "_" + Table[i].name
  {
    IdsNumbered();
  }

  /** No two achievements of the table share a name. */
  lemma TableNamesDistinct()
    ensures forall i, j :: 0 <= i < j < |Table| ==> Table[i].name != Table[j].name
  {
    NamesDistinct();
  }
}
