/** The birth-year projector of utils/fengshui.ts (getAffectedBirthYears):
    the years of a sign from the analysis year back about ninety years, in
    ascending order. */
module BirthYears {
  import opened Types
  import opened TaiSui
  import JsArith

  /** Ascending order, as `sort((a, b) => a - b)` leaves it. */
  predicate Ascending(s: seq<int>)
  {
    forall i, j | 0 <= i < j < |s| :: s[i] <= s[j]
  }

  /** Descending order, as the stride loop produces it. */
  predicate Descending(s: seq<int>)
  {
    forall i, j | 0 <= i < j < |s| :: s[i] >= s[j]
  }

  /** The list read back to front. */
  function Reverse(s: seq<int>): (r: seq<int>)
    ensures |r| == |s|
    ensures forall i | 0 <= i < |s| :: r[i] == s[|s| - 1 - i]
  {
    if s == [] then [] else [s[|s| - 1]] + Reverse(s[..|s| - 1])
  }

  /** Reversing keeps every element with its multiplicity. */
  lemma {:induction false} ReversePermutes(s: seq<int>)
    ensures multiset(Reverse(s)) == multiset(s)
  {
    if s != [] {
      var init := s[..|s| - 1];
      ReversePermutes(init);
      assert s == init + [s[|s| - 1]];
      assert Reverse(s) == [s[|s| - 1]] + Reverse(init);
    }
  }

  /** The head of an ascending list is its least element. */
  lemma HeadIsLeast(a: seq<int>, x: int)
    requires Ascending(a)
    requires x in multiset(a)
    ensures a[0] <= x
  {
    var k :| 0 <= k < |a| && a[k] == x;
  }

  /** The tail of an ascending list is ascending. */
  lemma AscendingTail(a: seq<int>)
    requires Ascending(a) && a != []
    ensures Ascending(a[1..])
  {
    var t := a[1..];
    forall i, j | 0 <= i < j < |t|
      ensures t[i] <= t[j]
    {
      assert t[i] == a[i + 1] && t[j] == a[j + 1];
    }
  }

  /** Two non-empty ascending lists with the same elements start with the
      same element, and what follows holds the same elements. */
  lemma SameHeadSameRest(a: seq<int>, b: seq<int>)
    requires Ascending(a) && Ascending(b) && a != [] && b != []
    requires multiset(a) == multiset(b)
    ensures a[0] == b[0]
    ensures multiset(a[1..]) == multiset(b[1..])
  {
    HeadIsLeast(b, a[0]);
    HeadIsLeast(a, b[0]);
    MultisetOfTail(a);
    MultisetOfTail(b);
  }

  /** The tail holds the elements of the list less one copy of its head. */
  lemma MultisetOfTail(a: seq<int>)
    requires a != []
    ensures multiset(a[1..]) == multiset(a) - multiset{a[0]}
  {
    assert a == [a[0]] + a[1..];
  }

  /** Two ascending lists holding the same elements are the same list: the
      sorted order of a list is unique. */
  lemma {:induction false} SortedPermutationUnique(a: seq<int>, b: seq<int>)
    requires Ascending(a) && Ascending(b)
    requires multiset(a) == multiset(b)
    ensures a == b
  {
    assert |multiset(a)| == |a| && |multiset(b)| == |b|;
    if a != [] {
      SameHeadSameRest(a, b);
      AscendingTail(a);
      AscendingTail(b);
      SortedPermutationUnique(a[1..], b[1..]);
      assert a == [a[0]] + a[1..];
      assert b == [b[0]] + b[1..];
    }
  }

  /** Sorting a descending list ascending reverses it: the reverse is an
      ascending permutation, and it is the only one. */
  lemma SortOfDescending(s: seq<int>, t: seq<int>)
    requires Descending(s)
    requires Ascending(t) && multiset(t) == multiset(s)
    ensures Ascending(Reverse(s))
    ensures multiset(Reverse(s)) == multiset(s)
    ensures t == Reverse(s)
  {
    ReversePermutes(s);
    SortedPermutationUnique(t, Reverse(s));
  }

  /** The years of one sign are the years in one residue class modulo 12. */
  lemma SameSignIffTwelveApart(y: int, z: int)
    ensures YearIndex(y) == YearIndex(z) <==> (y - z) % 12 == 0
  {
    var qy, qz := (y - 4) / 12, (z - 4) / 12;
    assert y - 4 == 12 * qy + YearIndex(y);
    assert z - 4 == 12 * qz + YearIndex(z);
    assert y - z == 12 * (qy - qz) + (YearIndex(y) - YearIndex(z));
    if YearIndex(y) == YearIndex(z) {
      assert y - z == 12 * (qy - qz);
    } else {
      var d := YearIndex(y) - YearIndex(z);
      if d > 0 {
        assert (y - z) % 12 == d;
      } else {
        assert y - z == 12 * (qy - qz - 1) + (d + 12);
        assert (y - z) % 12 == d + 12;
      }
    }
  }

  /** A year has the sign with index t exactly when it is 4 + t plus a
      multiple of 12. */
  lemma IndexIffResidue(z: int, t: int)
    requires 0 <= t < 12
    ensures YearIndex(z) == t <==> (z - 4 - t) % 12 == 0
  {
    SameSignIffTwelveApart(z, t + 4);
    assert YearIndex(t + 4) == t;
  }

  /** A multiple of 12 moved up by 1..11 is not a multiple of 12. */
  lemma OffMultiple(q: int, d: int)
    requires 0 < d < 12
    ensures (12 * q + d) % 12 == d
  {
  }

  /** One round of the search: the year in hand has the sign exactly when
      the search has taken all its steps; otherwise one more step keeps the
      count. */
  lemma SearchStep(currentYear: int, targetIndex: int, steps: int, yearIterator: int)
    requires 0 <= targetIndex < 12
    requires steps == (currentYear - 4 - targetIndex) % 12
    requires currentYear - steps <= yearIterator <= currentYear
    requires (yearIterator - 4 - targetIndex) % 12 == steps - (currentYear - yearIterator)
    ensures YearIndex(yearIterator) == targetIndex <==> yearIterator == currentYear - steps
    ensures YearIndex(yearIterator) != targetIndex ==>
      (yearIterator - 1 - 4 - targetIndex) % 12 == steps - (currentYear - (yearIterator - 1))
  {
    IndexIffResidue(yearIterator, targetIndex);
    var q := (yearIterator - 4 - targetIndex) / 12;
    assert yearIterator - 4 - targetIndex == 12 * q + (steps - (currentYear - yearIterator));
  }

  /** The search stops at currentYear minus the distance, modulo 12, from
      the sign's index to the year's: a year of the sign, at most 11 years
      back, with no year of the sign after it up to currentYear. */
  lemma SearchStopsAtMostRecent(currentYear: int, targetIndex: int, found: int)
    requires 0 <= targetIndex < 12
    requires found == currentYear - (currentYear - 4 - targetIndex) % 12
    ensures YearIndex(found) == targetIndex
    ensures currentYear - 12 < found <= currentYear
    ensures forall z | found < z <= currentYear :: YearIndex(z) != targetIndex
  {
    var q := (currentYear - 4 - targetIndex) / 12;
    assert found - 4 - targetIndex == 12 * q;
    IndexIffResidue(found, targetIndex);
    forall z | found < z <= currentYear
      ensures YearIndex(z) != targetIndex
    {
      IndexIffResidue(z, targetIndex);
      OffMultiple(q, z - found);
      assert z - 4 - targetIndex == 12 * q + (z - found);
    }
  }

  /** The stride loop's list holds exactly the years from top down to the
      bound that are a multiple of 12 below top. */
  lemma StrideMembership(years: seq<int>, top: int, bound: int, z: int)
    requires forall i | 0 <= i < |years| :: years[i] == top - 12 * i
    requires top - 12 * |years| < bound
    requires |years| > 0 ==> years[|years| - 1] >= bound
    ensures z in years <==> bound <= z <= top && (top - z) % 12 == 0
  {
    if z in years {
      var i :| 0 <= i < |years| && years[i] == z;
      assert top - z == 12 * i;
    }
    if bound <= z <= top && (top - z) % 12 == 0 {
      var k := (top - z) / 12;
      assert top - z == 12 * k;
      assert k < |years|;
      assert years[k] == z;
    }
  }

  /** What the sort returns, given the facts the two loops establish: the
      reverse of the stride list is non-empty, climbs by 12, ends at the most
      recent year of the sign and holds exactly that sign's years back to
      the bound. */
  lemma SortedStrideList(years: seq<int>, top: int, currentYear: int, targetSign: ZodiacSign)
    requires YearIndex(top) == SignIndex(targetSign)
    requires currentYear - 12 < top <= currentYear
    requires forall z | top < z <= currentYear :: YearIndex(z) != SignIndex(targetSign)
    requires forall i | 0 <= i < |years| :: years[i] == top - 12 * i
    requires top - 12 * |years| < currentYear - 90
    requires |years| > 0 ==> years[|years| - 1] >= currentYear - 90
    ensures var r := Reverse(years);
      && |r| >= 1
      && Ascending(r)
      && (forall i | 0 <= i < |r| - 1 :: r[i + 1] == r[i] + 12)
      && r[|r| - 1] == top
      && currentYear - 90 <= r[0]
      && (forall y :: y in r <==>
            currentYear - 90 <= y <= currentYear && ZODIACS[YearIndex(y)] == targetSign)
  {
    var r := Reverse(years);
    ReversePermutes(years);
    forall z
      ensures z in r <==> currentYear - 90 <= z <= currentYear && ZODIACS[YearIndex(z)] == targetSign
    {
      assert z in r <==> z in multiset(years);
      StrideMembership(years, top, currentYear - 90, z);
      SignIndexAt(YearIndex(z));
      assert ZODIACS[YearIndex(z)] == targetSign <==> YearIndex(z) == SignIndex(targetSign);
      SameSignIffTwelveApart(top, z);
    }
  }

  /** getAffectedBirthYears: step back from currentYear to the most recent
      year of the sign, collect every twelfth year while it is no earlier
      than currentYear - 90, and sort the list ascending. The result is
      never empty, climbs by exactly 12, ends within the last twelve years,
      and holds exactly the years of the sign in [currentYear - 90,
      currentYear]. */
  method GetAffectedBirthYears(targetSign: ZodiacSign, currentYear: int) returns (result: seq<int>)
    ensures |result| >= 1
    ensures Ascending(result)
    ensures forall i | 0 <= i < |result| - 1 :: result[i + 1] == result[i] + 12
    ensures currentYear - 12 < result[|result| - 1] <= currentYear
    ensures currentYear - 90 <= result[0]
    ensures forall y :: y in result <==>
      currentYear - 90 <= y <= currentYear && ZODIACS[YearIndex(y)] == targetSign
  {
    var targetIndex := SignIndex(targetSign);

    // The search takes `steps` decrements, at most 11.
    ghost var steps := (currentYear - 4 - targetIndex) % 12;
    var yearIterator := currentYear;
    while true
      invariant currentYear - steps <= yearIterator <= currentYear
      invariant (yearIterator - 4 - targetIndex) % 12 == steps - (currentYear - yearIterator)
      decreases yearIterator - (currentYear - steps)
    {
      var offset := JsArith.Rem(yearIterator - 4, 12);
      var idx := if offset < 0 then offset + 12 else offset;
      assert idx == YearIndex(yearIterator);
      SearchStep(currentYear, targetIndex, steps, yearIterator);
      if idx == targetIndex {
        break;
      }
      yearIterator := yearIterator - 1;
    }
    SearchStopsAtMostRecent(currentYear, targetIndex, yearIterator);

    // The stride loop: yearIterator, yearIterator - 12, ... down to currentYear - 90.
    var years: seq<int> := [];
    var y := yearIterator;
    while y >= currentYear - 90
      invariant y == yearIterator - 12 * |years|
      invariant forall i | 0 <= i < |years| :: years[i] == yearIterator - 12 * i
      invariant |years| > 0 ==> years[|years| - 1] >= currentYear - 90
      decreases y - (currentYear - 90)
    {
      years := years + [y];
      y := y - 12;
    }

    // `years.sort((a, b) => a - b)`: the list is descending, so its
    // ascending order is its reverse, and no other ascending list has the
    // same elements.
    assert Descending(years);
    result := Reverse(years);
    ReversePermutes(years);
    SortedStrideList(years, yearIterator, currentYear, targetSign);
    SortOfDescending(years, result);
  }
}
