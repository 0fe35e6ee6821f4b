/** The static tables of constants.ts: the star catalogue, the per-direction
    angles, names and trigrams, and the 24-mountain table built from the raw
    (name, octant, centre angle) triples. */
module Constants {
  import opened Types

  // ---------------------------------------------------------------- stars

  /** STAR_DATA, keyed by star number; display strings are not modelled. */
  const STAR_DATA: map<int, StarInfo> := map[
    1 := StarInfo(1, "一白貪狼星", Water, true),
    2 := StarInfo(2, "二黑巨門星", Earth, false),
    3 := StarInfo(3, "三碧祿存星", Wood, false),
    4 := StarInfo(4, "四綠文曲星", Wood, true),
    5 := StarInfo(5, "五黃廉貞星", Earth, false),
    6 := StarInfo(6, "六白武曲星", Metal, true),
    7 := StarInfo(7, "七赤破軍星", Metal, false),
    8 := StarInfo(8, "八白左輔星", Earth, true),
    9 := StarInfo(9, "九紫右弼星", Fire, true)
  ]

  /** `STAR_DATA[k]`: a key outside the catalogue reads as `undefined`. The
      catalogue holds exactly the stars 1..9, each under its own number, with
      the auspicious stars and the elements of the Lo Shu tradition. */
  function StarLookup(k: int): (r: Option<StarInfo>)
    ensures r.Some? <==> 1 <= k <= 9
    ensures r.Some? ==> r.value.number == k
    ensures r.Some? ==> (r.value.auspicious <==> k in {1, 4, 6, 8, 9})
    ensures r.Some? ==> (r.value.element == Water <==> k == 1)
    ensures r.Some? ==> (r.value.element == Earth <==> k in {2, 5, 8})
    ensures r.Some? ==> (r.value.element == Wood <==> k in {3, 4})
    ensures r.Some? ==> (r.value.element == Metal <==> k in {6, 7})
    ensures r.Some? ==> (r.value.element == Fire <==> k == 9)
  {
    if k in STAR_DATA then Some(STAR_DATA[k]) else None
  }

  // ----------------------------------------------------------- directions

  /** DIRECTION_ANGLES: the compass bearing of each octant; the centre reads 0. */
  function DirectionAngle(d: DirectionId): int
  {
    match d
    case N => 0
    case NE => 45
    case E => 90
    case SE => 135
    case S => 180
    case SW => 225
    case W => 270
    case NW => 315
    case C => 0
  }

  /** DIRECTION_NAMES. */
  function DirectionName(d: DirectionId): string
  {
    match d
    case N => "正北"
    case NE => "東北"
    case E => "正東"
    case SE => "東南"
    case S => "正南"
    case SW => "西南"
    case W => "正西"
    case NW => "西北"
    case C => "中宮"
  }

  /** DIRECTION_TRIGRAMS: the Later Heaven trigram of each octant. */
  function DirectionTrigram(d: DirectionId): string
  {
    match d
    case N => "坎"
    case NE => "艮"
    case E => "震"
    case SE => "巽"
    case S => "離"
    case SW => "坤"
    case W => "兌"
    case NW => "乾"
    case C => "中"
  }

  /** The octants clockwise from North, in the order the mountain table visits them. */
  const OCTANTS: seq<DirectionId> := [N, NE, E, SE, S, SW, W, NW]

  /** The octant diametrically across the compass; the centre stays put. */
  function Opposite(d: DirectionId): (o: DirectionId)
    ensures d != C ==> DirectionAngle(o) == (DirectionAngle(d) + 180) % 360
    ensures o == C <==> d == C
  {
    match d
    case N => S
    case NE => SW
    case E => W
    case SE => NW
    case S => N
    case SW => NE
    case W => E
    case NW => SE
    case C => C
  }

  /** Opposite is an involution. */
  lemma OppositeInvolution(d: DirectionId)
    ensures Opposite(Opposite(d)) == d
  {
  }

  /** The eight octants are distinct and are exactly the directions other
      than the centre; their angles step by 45 degrees. */
  lemma OctantsAt(k: int)
    requires 0 <= k < 8
    ensures OCTANTS[k] != C
    ensures DirectionAngle(OCTANTS[k]) == 45 * k
    ensures forall j | 0 <= j < 8 :: OCTANTS[j] == OCTANTS[k] ==> j == k
    ensures OCTANTS[(k + 4) % 8] == Opposite(OCTANTS[k])
  {
  }

  // ------------------------------------------------------------ mountains

  /** RAW_MOUNTAINS: clockwise from 壬, so that 子 (North) is entry 1. */
  const RAW_MOUNTAINS: seq<(string, DirectionId, int)> := [
    ("壬", N, 345), ("子", N, 0), ("癸", N, 15),
    ("丑", NE, 30), ("艮", NE, 45), ("寅", NE, 60),
    ("甲", E, 75), ("卯", E, 90), ("乙", E, 105),
    ("辰", SE, 120), ("巽", SE, 135), ("巳", SE, 150),
    ("丙", S, 165), ("午", S, 180), ("丁", S, 195),
    ("未", SW, 210), ("坤", SW, 225), ("申", SW, 240),
    ("庚", W, 255), ("酉", W, 270), ("辛", W, 285),
    ("戌", NW, 300), ("乾", NW, 315), ("亥", NW, 330)
  ]

  /** The callback of the `.map` that builds MOUNTAINS: a 15-degree arc around
      the centre angle (the start moved into [0,360) when negative), the name
      of the entry twelve places on as the sitting, and the octant's trigram. */
  function MountainEntry(index: int): MountainInfo
    requires 0 <= index < |RAW_MOUNTAINS|
  {
    var name, dir, angle := RAW_MOUNTAINS[index].0, RAW_MOUNTAINS[index].1, RAW_MOUNTAINS[index].2;
    var start := angle as real - 7.5;
    var end := angle as real + 7.5;
    var start := if start < 0.0 then start + 360.0 else start;
    var oppositeIndex := (index + 12) % 24;
    var sitting := RAW_MOUNTAINS[oppositeIndex].0;
    MountainInfo(name, angle, start, end, dir, sitting, DirectionTrigram(dir))
  }

  /** `RAW_MOUNTAINS.map(...)` over the first n raw entries: entry i of the
      result is built from raw entry i, and nothing else is in it. */
  function MapRawMountains(n: int): (r: seq<MountainInfo>)
    requires 0 <= n <= |RAW_MOUNTAINS|
    ensures |r| == n
    ensures forall i | 0 <= i < n :: r[i] == MountainEntry(i)
  {
    seq(n, i requires 0 <= i < n => MountainEntry(i))
  }

  /** MOUNTAINS. */
  const MOUNTAINS: seq<MountainInfo> := MapRawMountains(|RAW_MOUNTAINS|)

  /** The angle of each raw entry, read off the literal table. */
  lemma RawAngleAt(i: int)
    requires 0 <= i < 24
    ensures RAW_MOUNTAINS[i].2 == if i == 0 then 345 else 15 * (i - 1)
  {
    if i == 0 {} else if i == 1 {} else if i == 2 {} else if i == 3 {}
    else if i == 4 {} else if i == 5 {} else if i == 6 {} else if i == 7 {}
    else if i == 8 {} else if i == 9 {} else if i == 10 {} else if i == 11 {}
    else if i == 12 {} else if i == 13 {} else if i == 14 {} else if i == 15 {}
    else if i == 16 {} else if i == 17 {} else if i == 18 {} else if i == 19 {}
    else if i == 20 {} else if i == 21 {} else if i == 22 {} else {}
  }

  /** The octant of each raw entry, read off the literal table. */
  lemma RawOctantAt(i: int)
    requires 0 <= i < 24
    ensures RAW_MOUNTAINS[i].1 == OCTANTS[i / 3]
  {
    if i == 0 {} else if i == 1 {} else if i == 2 {} else if i == 3 {}
    else if i == 4 {} else if i == 5 {} else if i == 6 {} else if i == 7 {}
    else if i == 8 {} else if i == 9 {} else if i == 10 {} else if i == 11 {}
    else if i == 12 {} else if i == 13 {} else if i == 14 {} else if i == 15 {}
    else if i == 16 {} else if i == 17 {} else if i == 18 {} else if i == 19 {}
    else if i == 20 {} else if i == 21 {} else if i == 22 {} else {}
  }

  /** The centre angle of entry i, linear in i. */
  lemma AngleAt(i: int)
    requires 0 <= i < 24
    ensures |MOUNTAINS| == 24
    ensures MOUNTAINS[i].angle == if i == 0 then 345 else 15 * (i - 1)
  {
    RawAngleAt(i);
  }

  /** Every field of MOUNTAINS[i] as a closed formula in i: entry i is centred
      on 15(i-1) degrees (so 壬 sits at 345 and 子 at 0), its arc runs 7.5
      degrees either side (only 子's start is moved past 360), its octant is
      the (i/3)-th clockwise from North, its sitting is the name of the entry
      twelve places on, and its trigram is its octant's. */
  lemma MountainAt(i: int)
    requires 0 <= i < 24
    ensures |MOUNTAINS| == 24
    ensures MOUNTAINS[i].name == RAW_MOUNTAINS[i].0
    ensures MOUNTAINS[i].angle == if i == 0 then 345 else 15 * (i - 1)
    ensures MOUNTAINS[i].end == MOUNTAINS[i].angle as real + 7.5
    ensures MOUNTAINS[i].start == if i == 1 then 352.5 else MOUNTAINS[i].angle as real - 7.5
    ensures MOUNTAINS[i].direction == OCTANTS[i / 3]
    ensures MOUNTAINS[i].sitting == MOUNTAINS[(i + 12) % 24].name
    ensures MOUNTAINS[i].trigram == DirectionTrigram(MOUNTAINS[i].direction)
  {
    RawAngleAt(i);
    RawOctantAt(i);
  }

  /** Entry i is centred on (15(i-1) mod 360) degrees: 壬 at 345, 子 at 0. */
  lemma MountainAngle(i: int)
    requires 0 <= i < 24
    ensures 0 <= MOUNTAINS[i].angle < 360
    ensures MOUNTAINS[i].angle == (15 * (i - 1)) % 360
  {
    AngleAt(i);
    if i == 0 {
      assert 15 * (i - 1) == -15 == 360 * (-1) + 345;
    } else {
      assert 0 <= 15 * (i - 1) < 360;
    }
  }

  /** The arc of entry i, linear in i: 15(i-1) - 7.5 to 15(i-1) + 7.5, except
      that 壬's arc is 337.5 to 352.5 and 子's runs from 352.5 round to 7.5. */
  lemma ArcAt(i: int)
    requires 0 <= i < 24
    ensures |MOUNTAINS| == 24
    ensures MOUNTAINS[i].start == if i == 0 then 337.5 else if i == 1 then 352.5 else 15.0 * (i - 1) as real - 7.5
    ensures MOUNTAINS[i].end == if i == 0 then 352.5 else 15.0 * (i - 1) as real + 7.5
  {
    RawAngleAt(i);
  }

  /** Position of a mountain name in the table (a reference definition used
      to show the names are pairwise distinct). */
  function NameIndex(name: string): int
  {
    if |name| != 1 then -1 else
    match name[0]
    case '壬' => 0
    case '子' => 1
    case '癸' => 2
    case '丑' => 3
    case '艮' => 4
    case '寅' => 5
    case '甲' => 6
    case '卯' => 7
    case '乙' => 8
    case '辰' => 9
    case '巽' => 10
    case '巳' => 11
    case '丙' => 12
    case '午' => 13
    case '丁' => 14
    case '未' => 15
    case '坤' => 16
    case '申' => 17
    case '庚' => 18
    case '酉' => 19
    case '辛' => 20
    case '戌' => 21
    case '乾' => 22
    case '亥' => 23
    case _ => -1
  }

  lemma NameIndexAt(i: int)
    requires 0 <= i < 24
    ensures NameIndex(RAW_MOUNTAINS[i].0) == i
  {
    if i == 0 {} else if i == 1 {} else if i == 2 {} else if i == 3 {}
    else if i == 4 {} else if i == 5 {} else if i == 6 {} else if i == 7 {}
    else if i == 8 {} else if i == 9 {} else if i == 10 {} else if i == 11 {}
    else if i == 12 {} else if i == 13 {} else if i == 14 {} else if i == 15 {}
    else if i == 16 {} else if i == 17 {} else if i == 18 {} else if i == 19 {}
    else if i == 20 {} else if i == 21 {} else if i == 22 {} else {}
  }

  /** The 24 mountain names are pairwise distinct, so a name identifies its entry. */
  lemma MountainNamesDistinct(i: int, j: int)
    requires 0 <= i < 24 && 0 <= j < 24
    ensures MOUNTAINS[i].name == MOUNTAINS[j].name <==> i == j
  {
    MountainAt(i);
    MountainAt(j);
    NameIndexAt(i);
    NameIndexAt(j);
  }

  /** Only 子 has an arc whose start lies after its end (352.5 to 7.5). */
  lemma OnlyZiWraps(i: int)
    requires 0 <= i < 24
    ensures MOUNTAINS[i].start > MOUNTAINS[i].end <==> i == 1
    ensures i == 1 ==> MOUNTAINS[i].start == 352.5 && MOUNTAINS[i].end == 7.5
  {
    ArcAt(i);
  }

  /** Entry 1 is 子, due North at 0 degrees, sat on 午 and under trigram 坎. */
  lemma ZiIsNorth()
    ensures |MOUNTAINS| == 24
    ensures MOUNTAINS[1] == MountainInfo("子", 0, 352.5, 7.5, N, "午", "坎")
  {
    MountainAt(1);
    assert RAW_MOUNTAINS[1].0 == "子";
    assert RAW_MOUNTAINS[13].0 == "午";
  }

  /** Consecutive arcs share their endpoints, and the last arc closes on the
      first, so the arcs go once round the circle. */
  lemma ArcsChain(i: int)
    requires 0 <= i < 24
    ensures MOUNTAINS[i].end == MOUNTAINS[(i + 1) % 24].start
  {
    var j := if i == 23 then 0 else i + 1;
    assert j == (i + 1) % 24;
    MountainAt(i);
    MountainAt(j);
  }

  /** The centre-angle formula of AngleAt, twelve places on, is 180 degrees
      further round. */
  lemma CentreAnglesOpposite(i: int)
    requires 0 <= i < 24
    ensures var j := (i + 12) % 24;
      (if j == 0 then 345 else 15 * (j - 1)) == ((if i == 0 then 345 else 15 * (i - 1)) + 180) % 360
  {
    if i == 0 {
      assert (i + 12) % 24 == 12;
    } else if i < 12 {
      assert (i + 12) % 24 == i + 12;
      assert (15 * (i - 1) + 180) % 360 == 15 * (i - 1) + 180;
    } else if i == 12 {
      assert (i + 12) % 24 == 0;
    } else {
      assert (i + 12) % 24 == i - 12;
      assert 15 * (i - 1) + 180 == 360 + 15 * (i - 13);
      assert (15 * (i - 1) + 180) % 360 == 15 * (i - 13);
    }
  }

  /** The mountain twelve places on is centred 180 degrees further round. */
  lemma SittingAngle(i: int)
    requires 0 <= i < 24
    ensures MOUNTAINS[(i + 12) % 24].angle == (MOUNTAINS[i].angle + 180) % 360
  {
    AngleAt(i);
    AngleAt((i + 12) % 24);
    CentreAnglesOpposite(i);
  }

  /** The sitting relation pairs each mountain with the one diametrically
      opposite: it is an involution, its angle is 180 degrees on, and its
      octant is the opposite octant. */
  lemma SittingIsOpposite(i: int)
    requires 0 <= i < 24
    ensures var j := (i + 12) % 24;
      && MOUNTAINS[i].sitting == MOUNTAINS[j].name
      && MOUNTAINS[j].sitting == MOUNTAINS[i].name
      && MOUNTAINS[j].angle == (MOUNTAINS[i].angle + 180) % 360
      && MOUNTAINS[j].direction == Opposite(MOUNTAINS[i].direction)
  {
    var j := if i < 12 then i + 12 else i - 12;
    assert j == (i + 12) % 24 && i == (j + 12) % 24;
    MountainAt(i);
    MountainAt(j);
    SittingAngle(i);
    var k := i / 3;
    OctantsAt(k);
    if i < 12 {
      assert j / 3 == k + 4;
    } else {
      assert j / 3 == k - 4;
    }
    assert MOUNTAINS[j].direction == OCTANTS[(k + 4) % 8];
  }

  /** Each octant owns exactly three consecutive entries (3k, 3k+1, 3k+2),
      all carrying that octant's trigram. */
  lemma OctantOwnsTriple(k: int, i: int)
    requires 0 <= k < 8 && 0 <= i < 24
    ensures MOUNTAINS[i].direction == OCTANTS[k] <==> 3 * k <= i < 3 * k + 3
    ensures MOUNTAINS[i].direction == OCTANTS[k] ==> MOUNTAINS[i].trigram == DirectionTrigram(OCTANTS[k])
  {
    MountainAt(i);
    OctantsAt(i / 3);
  }

  /** The middle mountain of each octant's triple lies on that octant's
      DIRECTION_ANGLES bearing (子 0 N, 艮 45 NE, ..., 乾 315 NW). */
  lemma MiddleMountainOnOctantAngle(k: int)
    requires 0 <= k < 8
    ensures MOUNTAINS[3 * k + 1].direction == OCTANTS[k]
    ensures MOUNTAINS[3 * k + 1].angle == DirectionAngle(OCTANTS[k])
  {
    MountainAt(3 * k + 1);
    OctantsAt(k);
  }
}
