/** The Tai Sui engine of utils/fengshui.ts: the zodiac sign of a year and
    the list of signs in conflict with it (值 Value, 沖 Clash, 害 Harm,
    刑 Punish, 破 Break). */
module TaiSui {
  import opened Types
  import JsArith

  /** ZODIACS: the cycle, Rat first. */
  const ZODIACS: seq<ZodiacSign> :=
    [Rat, Ox, Tiger, Rabbit, Dragon, Snake, Horse, Goat, Monkey, Rooster, Dog, Pig]

  /** The glyph the application shows for each sign. */
  function Glyph(z: ZodiacSign): string
  {
    match z
    case Rat => "鼠"
    case Ox => "牛"
    case Tiger => "虎"
    case Rabbit => "兔"
    case Dragon => "龍"
    case Snake => "蛇"
    case Horse => "馬"
    case Goat => "羊"
    case Monkey => "猴"
    case Rooster => "雞"
    case Dog => "狗"
    case Pig => "豬"
  }

  /** `ZODIACS.indexOf(sign)`: every sign is found, at its own position. */
  function SignIndex(z: ZodiacSign): (i: int)
    ensures 0 <= i < |ZODIACS| && ZODIACS[i] == z
  {
    match z
    case Rat => 0
    case Ox => 1
    case Tiger => 2
    case Rabbit => 3
    case Dragon => 4
    case Snake => 5
    case Horse => 6
    case Goat => 7
    case Monkey => 8
    case Rooster => 9
    case Dog => 10
    case Pig => 11
  }

  /** ZODIACS holds each sign once: indexOf undoes indexing. */
  lemma SignIndexAt(i: int)
    requires 0 <= i < |ZODIACS|
    ensures SignIndex(ZODIACS[i]) == i
  {
  }

  /** The year's position in the cycle: `(year - 4) % 12` with JavaScript's
      remainder, a negative result moved up by 12. It is the Euclidean
      remainder, so it always lies in 0..11. */
  function YearIndex(year: int): (idx: int)
    ensures 0 <= idx < 12
    ensures idx == (year - 4) % 12
  {
    var offset := JsArith.Rem(year - 4, 12);
    if offset < 0 then offset + 12 else offset
  }

  /** The sign of a year repeats every twelve years and advances by one
      place each year. */
  lemma YearIndexCycle(year: int)
    ensures YearIndex(year + 12) == YearIndex(year)
    ensures YearIndex(year + 1) == (YearIndex(year) + 1) % 12
  {
  }

  /** 2020 is a Rat year, 2022 a Tiger year, 2024 a Dragon year. */
  lemma YearIndexExamples()
    ensures ZODIACS[YearIndex(2020)] == Rat && Glyph(ZODIACS[YearIndex(2020)]) == "鼠"
    ensures ZODIACS[YearIndex(2022)] == Tiger
    ensures ZODIACS[YearIndex(2024)] == Dragon
  {
  }

  /** harmMap (害): Rat-Goat, Ox-Horse, Tiger-Snake, Rabbit-Dragon,
      Monkey-Pig, Rooster-Dog. */
  const HARM_MAP: map<int, int> :=
    map[0 := 7, 1 := 6, 2 := 5, 3 := 4, 4 := 3, 5 := 2, 6 := 1, 7 := 0, 8 := 11, 9 := 10, 10 := 9, 11 := 8]

  /** poMap (破): Rat-Rooster, Ox-Dragon, Tiger-Pig, Rabbit-Horse,
      Monkey-Snake, Goat-Dog. */
  const PO_MAP: map<int, int> :=
    map[0 := 9, 1 := 4, 2 := 11, 3 := 6, 4 := 1, 5 := 8, 6 := 3, 7 := 10, 8 := 5, 9 := 0, 10 := 7, 11 := 2]

  /** Both tables are total on the cycle and are symmetric pairings with no
      fixed point: Harm pairs the indices summing to 7 modulo 12, Break pairs
      an even index with the one 9 places on and an odd index with the one 3
      places on. */
  lemma PairingTables(i: int)
    requires 0 <= i < 12
    ensures i in HARM_MAP && i in PO_MAP
    ensures HARM_MAP[i] == (7 - i) % 12 && HARM_MAP[i] != i
    ensures HARM_MAP[i] in HARM_MAP && HARM_MAP[HARM_MAP[i]] == i
    ensures PO_MAP[i] == (if i % 2 == 0 then i + 9 else i + 3) % 12 && PO_MAP[i] != i
    ensures PO_MAP[i] in PO_MAP && PO_MAP[PO_MAP[i]] == i
  {
    if i == 0 {} else if i == 1 {} else if i == 2 {} else if i == 3 {}
    else if i == 4 {} else if i == 5 {} else if i == 6 {} else if i == 7 {}
    else if i == 8 {} else if i == 9 {} else if i == 10 {} else {}
  }

  /** getXing (刑): Rat and Rabbit punish each other; Ox, Dog and Goat form a
      directed triangle, and so do Tiger, Snake and Monkey; Dragon, Horse,
      Rooster and Pig punish themselves and have no entry. */
  function GetXing(yearIndex: int): (r: Option<int>)
    ensures r.Some? <==> yearIndex in {0, 1, 2, 3, 5, 7, 8, 10}
    ensures r.Some? ==> 0 <= r.value < 12 && r.value != yearIndex
  {
    if yearIndex == 0 then Some(3)
    else if yearIndex == 3 then Some(0)
    else if yearIndex == 1 then Some(10)
    else if yearIndex == 10 then Some(7)
    else if yearIndex == 7 then Some(1)
    else if yearIndex == 2 then Some(5)
    else if yearIndex == 5 then Some(8)
    else if yearIndex == 8 then Some(2)
    else None
  }

  /** Following Punish from Rat or Rabbit returns after two steps; from any
      sign of either triangle it returns after three. */
  lemma XingCycles(i: int)
    requires GetXing(i).Some?
    ensures GetXing(GetXing(i).value).Some?
    ensures i in {0, 3} ==> GetXing(GetXing(i).value).value == i
    ensures i !in {0, 3} ==>
      GetXing(GetXing(GetXing(i).value).value).Some? &&
      GetXing(GetXing(GetXing(i).value).value).value == i
  {
  }

  /** `conflicts.map(c => c.sign)`. */
  function Signs(cs: seq<Conflict>): (r: seq<ZodiacSign>)
    ensures |r| == |cs|
    ensures forall i | 0 <= i < |cs| :: r[i] == cs[i].sign
  {
    if cs == [] then [] else Signs(cs[..|cs| - 1]) + [cs[|cs| - 1].sign]
  }

  /** Whether the Punish entry is listed: getXing has an entry that is
      neither the year's sign nor its clash (Harm is not consulted). */
  predicate PunishListed(idx: int)
  {
    GetXing(idx).Some? && GetXing(idx).value != idx && GetXing(idx).value != (idx + 6) % 12
  }

  /** Whether the Break entry is listed: its sign is none of those already
      listed (Value, Clash, Harm, and Punish when that is listed). */
  predicate BreakListed(idx: int)
    requires 0 <= idx < 12
  {
    PairingTables(idx);
    var po := PO_MAP[idx];
    po != idx && po != (idx + 6) % 12 && po != HARM_MAP[idx]
    && !(PunishListed(idx) && po == GetXing(idx).value)
  }

  /** The entries listed before the Break check: Value, Clash and Harm
      always, then Punish when PunishListed. */
  function ListedBeforeBreak(idx: int): (cs: seq<Conflict>)
    requires 0 <= idx < 12
  {
    PairingTables(idx);
    [Conflict(ZODIACS[idx], Value),
     Conflict(ZODIACS[(idx + 6) % 12], Clash),
     Conflict(ZODIACS[HARM_MAP[idx]], Harm)]
    + (if PunishListed(idx) then [Conflict(ZODIACS[GetXing(idx).value], Punish)] else [])
  }

  /** The conflict list of the year with index idx: the entries listed before
      the Break check, then Break when BreakListed. */
  function ConflictsFor(idx: int): (cs: seq<Conflict>)
    requires 0 <= idx < 12
  {
    PairingTables(idx);
    ListedBeforeBreak(idx)
    + (if BreakListed(idx) then [Conflict(ZODIACS[PO_MAP[idx]], Break)] else [])
  }

  /** The duplicate check on the Break sign (`includes` on the signs listed so
      far) rejects it exactly when BreakListed says it is not listed, because
      distinct indices name distinct signs. */
  lemma BreakGuard(idx: int)
    requires 0 <= idx < 12
    ensures idx in PO_MAP
    ensures ZODIACS[PO_MAP[idx]] in Signs(ListedBeforeBreak(idx)) <==> !BreakListed(idx)
  {
    PairingTables(idx);
    var po, clash, harm := PO_MAP[idx], (idx + 6) % 12, HARM_MAP[idx];
    SignsBeforeBreak(idx);
    SignsDistinct(po, idx);
    SignsDistinct(po, clash);
    SignsDistinct(po, harm);
    if PunishListed(idx) {
      SignsDistinct(po, GetXing(idx).value);
    }
  }

  /** The signs the duplicate check sees, one per listed entry. */
  lemma SignsBeforeBreak(idx: int)
    requires 0 <= idx < 12
    ensures idx in HARM_MAP
    ensures var front := [ZODIACS[idx], ZODIACS[(idx + 6) % 12], ZODIACS[HARM_MAP[idx]]];
      Signs(ListedBeforeBreak(idx))
        == if PunishListed(idx) then front + [ZODIACS[GetXing(idx).value]] else front
  {
    PairingTables(idx);
    var listed := ListedBeforeBreak(idx);
    assert listed[0].sign == ZODIACS[idx];
    assert listed[1].sign == ZODIACS[(idx + 6) % 12];
    assert listed[2].sign == ZODIACS[HARM_MAP[idx]];
  }

  /** Distinct indices name distinct signs. */
  lemma SignsDistinct(j: int, k: int)
    requires 0 <= j < 12 && 0 <= k < 12
    ensures ZODIACS[j] == ZODIACS[k] <==> j == k
  {
    SignIndexAt(j);
    SignIndexAt(k);
  }

  /** calculateTaiSui: the year's sign, then the conflict list built by
      successive pushes. */
  method CalculateTaiSui(year: int) returns (info: TaiSuiInfo)
    ensures info.yearSign == ZODIACS[YearIndex(year)]
    ensures info.conflicts == ConflictsFor(YearIndex(year))
  {
    var offset := JsArith.Rem(year - 4, 12);
    var yearIndex := if offset < 0 then offset + 12 else offset;
    assert yearIndex == YearIndex(year);
    var yearSign := ZODIACS[yearIndex];
    PairingTables(yearIndex);

    var conflicts: seq<Conflict> := [];
    conflicts := conflicts + [Conflict(yearSign, Value)];

    var clashIndex := (yearIndex + 6) % 12;
    conflicts := conflicts + [Conflict(ZODIACS[clashIndex], Clash)];

    if yearIndex in HARM_MAP {
      conflicts := conflicts + [Conflict(ZODIACS[HARM_MAP[yearIndex]], Harm)];
    }
    ghost var always := conflicts;
    assert always == [Conflict(ZODIACS[yearIndex], Value), Conflict(ZODIACS[(yearIndex + 6) % 12], Clash), Conflict(ZODIACS[HARM_MAP[yearIndex]], Harm)];

    var xingIndex := GetXing(yearIndex);
    if xingIndex.Some? && xingIndex.value != yearIndex && xingIndex.value != clashIndex {
      conflicts := conflicts + [Conflict(ZODIACS[xingIndex.value], Punish)];
    }
    assert conflicts == ListedBeforeBreak(yearIndex) by {
      assert conflicts == always + (if PunishListed(yearIndex) then [Conflict(ZODIACS[GetXing(yearIndex).value], Punish)] else []);
    }

    var actualPoIndex := PO_MAP[yearIndex];
    var alreadyAdded := Signs(conflicts);
    BreakGuard(yearIndex);
    ghost var listed := conflicts;
    if ZODIACS[actualPoIndex] !in alreadyAdded {
      conflicts := conflicts + [Conflict(ZODIACS[actualPoIndex], Break)];
    }
    assert conflicts == listed + (if BreakListed(yearIndex) then [Conflict(ZODIACS[PO_MAP[yearIndex]], Break)] else []);

    info := TaiSuiInfo(yearSign, conflicts);
  }

  /** The shape of every year's list: Value, Clash and Harm first (the Harm
      sign being the one at `(11 - year) % 12`), and four or five entries. */
  lemma TaiSuiShape(year: int)
    ensures var cs := ConflictsFor(YearIndex(year));
      4 <= |cs| <= 5
      && cs[0] == Conflict(ZODIACS[YearIndex(year)], Value)
      && cs[1] == Conflict(ZODIACS[(YearIndex(year) + 6) % 12], Clash)
      && cs[2] == Conflict(ZODIACS[(11 - year) % 12], Harm)
  {
    var idx := YearIndex(year);
    PairingTables(idx);
    ConflictCount(idx);
    HarmOfYear(year);
  }

  /** The Harm index of a year, (7 - index) mod 12, is (11 - year) mod 12. */
  lemma HarmOfYear(year: int)
    ensures (7 - (year - 4) % 12) % 12 == (11 - year) % 12
  {
    var q := (year - 4) / 12;
    var idx := (year - 4) % 12;
    assert year - 4 == 12 * q + idx;
    assert 11 - year == 12 * (-q) + (7 - idx);
  }

  /** Punish is listed for Rat, Ox, Tiger, Rabbit, Snake and Dog years; for
      Goat and Monkey years getXing gives the clash sign and it is skipped. */
  lemma PunishListedIff(idx: int)
    requires 0 <= idx < 12
    ensures PunishListed(idx) <==> idx in {0, 1, 2, 3, 5, 10}
  {
    if idx == 7 {
      assert GetXing(7).value == 1;
    } else if idx == 8 {
      assert GetXing(8).value == 2;
    }
  }

  /** Break is dropped exactly in Snake and Dog years, where its sign is the
      Punish sign. */
  lemma BreakListedIff(idx: int)
    requires 0 <= idx < 12
    ensures BreakListed(idx) <==> idx !in {5, 10}
  {
    PairingTables(idx);
    PunishListedIff(idx);
    if idx == 0 {} else if idx == 1 {} else if idx == 2 {} else if idx == 3 {}
    else if idx == 4 {} else if idx == 5 {} else if idx == 6 {} else if idx == 7 {}
    else if idx == 8 {} else if idx == 9 {} else if idx == 10 {} else {}
  }

  /** The list holds five entries for indices 0..3 and four otherwise. */
  lemma ConflictCount(idx: int)
    requires 0 <= idx < 12
    ensures PunishListed(idx) <==> idx in {0, 1, 2, 3, 5, 10}
    ensures BreakListed(idx) <==> idx !in {5, 10}
    ensures |ConflictsFor(idx)| == if idx <= 3 then 5 else 4
  {
    PunishListedIff(idx);
    BreakListedIff(idx);
  }

  /** The Break entry, when listed, repeats none of the signs before it. */
  lemma BreakNeverDuplicates(idx: int)
    requires 0 <= idx < 12
    ensures BreakListed(idx) ==>
      forall i | 0 <= i < |ConflictsFor(idx)| - 1 ::
        ConflictsFor(idx)[i].sign != ConflictsFor(idx)[|ConflictsFor(idx)| - 1].sign
  {
    BreakGuard(idx);
    var listed := ListedBeforeBreak(idx);
    if BreakListed(idx) {
      var cs := ConflictsFor(idx);
      forall i | 0 <= i < |cs| - 1
        ensures cs[i].sign != cs[|cs| - 1].sign
      {
        assert cs[i] == listed[i];
        assert Signs(listed)[i] == listed[i].sign;
      }
    }
  }

  /** Because the Punish guard does not look at the Harm sign, a Tiger year
      such as 2022 lists the Snake twice, as Harm and as Punish. */
  lemma TigerYearListsSnakeTwice()
    ensures YearIndex(2022) == 2
    ensures ConflictsFor(2)[2] == Conflict(Snake, Harm)
    ensures ConflictsFor(2)[3] == Conflict(Snake, Punish)
  {
    ConflictCount(2);
  }

  /** Every other year lists each sign at most once. */
  lemma DistinctSignsExceptTiger(idx: int)
    requires 0 <= idx < 12
    ensures (forall i, j | 0 <= i < j < |ConflictsFor(idx)| ::
               ConflictsFor(idx)[i].sign != ConflictsFor(idx)[j].sign) <==> idx != 2
  {
    ConflictCount(idx);
    var cs := ConflictsFor(idx);
    if idx == 2 {
      TigerYearListsSnakeTwice();
    } else if idx == 0 {
    } else if idx == 1 {
    } else if idx == 3 {
    } else if idx == 4 {
    } else if idx == 5 {
    } else if idx == 6 {
    } else if idx == 7 {
    } else if idx == 8 {
    } else if idx == 9 {
    } else if idx == 10 {
    } else {
    }
  }
}
