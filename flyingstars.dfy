/** The flying-star engine of utils/fengshui.ts: the Lo Shu centre star of a
    year, the flight of the nine stars round the nine palaces, and the fixed
    3x3 display order. */
module FlyingStars {
  import opened Types
  import opened Constants
  import JsArith

  /** calculateCenterStar: `(11 - year % 9) % 9`, with 0 read as 9, using
      JavaScript's remainder. For every year, negative ones included, this is
      a star in 1..9 given by a Euclidean formula. */
  function CenterStar(year: int): (star: int)
    ensures 1 <= star <= 9
    ensures star == (10 - year) % 9 + 1
  {
    CenterStarIsEuclidean(year);
    var star := JsArith.Rem(11 - JsArith.Rem(year, 9), 9);
    if star == 0 then 9 else star
  }

  /** `11 - year % 9` is always positive, so the outer remainder is the
      Euclidean one, and the whole expression is a residue of 10 - year. */
  lemma CenterStarIsEuclidean(year: int)
    ensures var star := JsArith.Rem(11 - JsArith.Rem(year, 9), 9);
      (if star == 0 then 9 else star) == (10 - year) % 9 + 1
  {
    var r := JsArith.Rem(year, 9);
    var q := JsArith.Quot(year, 9);
    assert 2 < 11 - r < 20;
    var e := (10 - year) % 9;
    var k := (10 - year) / 9;
    assert 10 - year == 9 * k + e;
    assert 11 - r == 9 * (k + q) + (e + 1);
    if e == 8 {
      assert 11 - r == 9 * (k + q + 1);
      assert (11 - r) % 9 == 0;
    } else {
      assert (11 - r) % 9 == e + 1;
    }
  }

  /** The centre star repeats every nine years. */
  lemma CenterStarPeriodic(year: int)
    ensures CenterStar(year + 9) == CenterStar(year)
  {
  }

  /** The centre star drops by one each year, 1 wrapping round to 9. */
  lemma CenterStarDescends(year: int)
    ensures CenterStar(year + 1) == if CenterStar(year) == 1 then 9 else CenterStar(year) - 1
  {
    ResidueStepsDown(10 - year);
    assert 10 - (year + 1) == 10 - year - 1;
  }

  /** Stepping down by one steps the residue modulo 9 down, 0 wrapping to 8. */
  lemma ResidueStepsDown(n: int)
    ensures (n - 1) % 9 == if n % 9 == 0 then 8 else n % 9 - 1
  {
    var a := n % 9;
    assert n == 9 * (n / 9) + a;
    if a == 0 {
      assert n - 1 == 9 * (n / 9 - 1) + 8;
    } else {
      assert n - 1 == 9 * (n / 9) + (a - 1);
    }
  }

  /** 2023 is a 4 year and 2024 a 3 year. */
  lemma CenterStarExamples()
    ensures CenterStar(2023) == 4
    ensures CenterStar(2024) == 3
  {
  }

  /** The Lo Shu path: centre, NW, W, NE, S, N, SW, E, SE. */
  const PATH: seq<DirectionId> := [C, NW, W, NE, S, N, SW, E, SE]

  /** The step at which the path reaches a palace; the path visits each
      palace exactly once. */
  function PathIndex(d: DirectionId): (i: int)
    ensures 0 <= i < |PATH| && PATH[i] == d
  {
    match d
    case C => 0
    case NW => 1
    case W => 2
    case NE => 3
    case S => 4
    case N => 5
    case SW => 6
    case E => 7
    case SE => 8
  }

  lemma PathIndexAt(i: int)
    requires 0 <= i < |PATH|
    ensures PathIndex(PATH[i]) == i
  {
  }

  /** The star that lands in palace d when star c flies into the centre: c
      advanced by d's step on the path and wrapped into 1..9. */
  function StarAt(c: int, d: DirectionId): int
  {
    (c + PathIndex(d) - 1) % 9 + 1
  }

  /** calculateFlyingStarGrid: for each step i of the path, `centerStar + i`
      brought into 1..9 by repeated subtraction and addition of 9, recorded
      for the palace at that step. Any integer centre is accepted. */
  method CalculateFlyingStarGrid(centerStar: int) returns (grid: map<DirectionId, int>)
    ensures forall d: DirectionId :: d in grid
    ensures forall i | 0 <= i < |PATH| :: grid[PATH[i]] == (centerStar + i - 1) % 9 + 1
    ensures forall d: DirectionId :: grid[d] == StarAt(centerStar, d)
  {
    grid := map[];
    for i := 0 to |PATH|
      invariant forall j | 0 <= j < i :: PATH[j] in grid && grid[PATH[j]] == (centerStar + j - 1) % 9 + 1
      invariant forall d | d in grid :: PathIndex(d) < i
    {
      var direction := PATH[i];
      var starNum := centerStar + i;
      while starNum > 9
        invariant (starNum - 1) % 9 == (centerStar + i - 1) % 9
      {
        starNum := starNum - 9;
      }
      while starNum < 1
        invariant starNum <= 9
        invariant (starNum - 1) % 9 == (centerStar + i - 1) % 9
      {
        starNum := starNum + 9;
      }
      forall j | 0 <= j < i
        ensures PATH[j] != direction
      {
        PathIndexAt(j);
        PathIndexAt(i);
      }
      grid := grid[direction := starNum];
    }
    forall d: DirectionId
      ensures d in grid && grid[d] == StarAt(centerStar, d)
    {
      assert PATH[PathIndex(d)] == d;
    }
  }

  /** The palace where star s lands when star c flies into the centre: the
      one (s - c) steps along the path. */
  function PalaceOf(c: int, s: int): DirectionId
  {
    PATH[(s - c) % 9]
  }

  /** Two steps of the path that agree modulo 9 are the same step. */
  lemma StepsDistinctModNine(a: int, i1: int, i2: int)
    requires 0 <= i1 < 9 && 0 <= i2 < 9
    requires (a + i1) % 9 == (a + i2) % 9
    ensures i1 == i2
  {
    var q1, q2 := (a + i1) / 9, (a + i2) / 9;
    assert a + i1 == 9 * q1 + (a + i1) % 9;
    assert a + i2 == 9 * q2 + (a + i2) % 9;
    assert i1 - i2 == 9 * (q1 - q2);
  }

  /** No two palaces receive the same star. */
  lemma FlightInjective(c: int, d1: DirectionId, d2: DirectionId)
    ensures StarAt(c, d1) == StarAt(c, d2) ==> d1 == d2
  {
    if StarAt(c, d1) == StarAt(c, d2) {
      StepsDistinctModNine(c - 1, PathIndex(d1), PathIndex(d2));
    }
  }

  /** PalaceOf finds the palace where a star lands. */
  lemma PalaceOfFindsStar(c: int, s: int)
    requires 1 <= s <= 9
    ensures StarAt(c, PalaceOf(c, s)) == s
  {
    var i := (s - c) % 9;
    PathIndexAt(i);
    assert s - c == 9 * ((s - c) / 9) + i;
    assert c + i - 1 == s - 1 - 9 * ((s - c) / 9);
  }

  /** The star in a palace leads back to that palace. */
  lemma PalaceOfStarAt(c: int, d: DirectionId)
    ensures PalaceOf(c, StarAt(c, d)) == d
  {
    var i := PathIndex(d);
    var s := StarAt(c, d);
    assert c + i - 1 == 9 * ((c + i - 1) / 9) + (s - 1);
    assert s - c == i - 9 * ((c + i - 1) / 9);
    assert (s - c) % 9 == i;
  }

  /** Whatever the centre, the flight is a bijection from the nine palaces
      onto the stars 1..9: the centre holds c itself (wrapped), no two
      palaces share a star, and PalaceOf is its inverse. */
  lemma FlightIsBijection(c: int)
    ensures StarAt(c, C) == (c - 1) % 9 + 1
    ensures forall d: DirectionId :: 1 <= StarAt(c, d) <= 9
    ensures forall d1: DirectionId, d2: DirectionId :: StarAt(c, d1) == StarAt(c, d2) ==> d1 == d2
    ensures forall s | 1 <= s <= 9 :: StarAt(c, PalaceOf(c, s)) == s
    ensures forall d: DirectionId :: PalaceOf(c, StarAt(c, d)) == d
  {
    forall d1: DirectionId, d2: DirectionId
      ensures StarAt(c, d1) == StarAt(c, d2) ==> d1 == d2
    {
      FlightInjective(c, d1, d2);
    }
    forall s | 1 <= s <= 9
      ensures StarAt(c, PalaceOf(c, s)) == s
    {
      PalaceOfFindsStar(c, s);
    }
    forall d: DirectionId
      ensures PalaceOf(c, StarAt(c, d)) == d
    {
      PalaceOfStarAt(c, d);
    }
  }

  /** Every star the flight produces has an entry in the star catalogue. */
  lemma FlownStarsAreCatalogued(c: int, d: DirectionId)
    ensures StarLookup(StarAt(c, d)).Some?
    ensures StarLookup(StarAt(c, d)).value.number == StarAt(c, d)
  {
    FlightIsBijection(c);
  }

  /** getGridLayout: the 3x3 reading order, south at the top. */
  function GridLayout(): (layout: seq<DirectionId>)
    ensures |layout| == 9
    ensures layout[4] == C
    ensures forall i, j | 0 <= i < j < |layout| :: layout[i] != layout[j]
  {
    [SE, S, SW,
     E, C, W,
     NE, N, NW]
  }

  /** Every palace appears in the layout; as the layout has nine distinct
      entries, each of the nine palaces appears exactly once. */
  lemma GridLayoutListsEveryPalace(d: DirectionId)
    ensures d in GridLayout()
  {
    var g := GridLayout();
    match d
    case SE => assert g[0] == d;
    case S => assert g[1] == d;
    case SW => assert g[2] == d;
    case E => assert g[3] == d;
    case C => assert g[4] == d;
    case W => assert g[5] == d;
    case NE => assert g[6] == d;
    case N => assert g[7] == d;
    case NW => assert g[8] == d;
  }

  /** With star 5 in the centre, the grid read in display order is the Lo Shu
      magic square: every row, column and diagonal sums to 15. */
  lemma LoShuMagicSquare()
    ensures var g := GridLayout();
      [StarAt(5, g[0]), StarAt(5, g[1]), StarAt(5, g[2]),
       StarAt(5, g[3]), StarAt(5, g[4]), StarAt(5, g[5]),
       StarAt(5, g[6]), StarAt(5, g[7]), StarAt(5, g[8])] == [4, 9, 2, 3, 5, 7, 8, 1, 6]
    ensures var sq := [4, 9, 2, 3, 5, 7, 8, 1, 6];
      && (forall r | 0 <= r < 3 :: sq[3 * r] + sq[3 * r + 1] + sq[3 * r + 2] == 15)
      && (forall col | 0 <= col < 3 :: sq[col] + sq[col + 3] + sq[col + 6] == 15)
      && sq[0] + sq[4] + sq[8] == 15 && sq[2] + sq[4] + sq[6] == 15
  {
  }
}
