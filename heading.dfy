/** The heading resolver of utils/fengshui.ts (getMountainInfo): which of the
    24 mountains encloses a compass heading. Headings are exact reals; the
    IEEE corner cases (NaN, infinities, negative zero) are not modelled. */
module HeadingResolver {
  import opened Types
  import opened Constants
  import JsArith

  /** `(heading % 360 + 360) % 360`: the heading brought into [0, 360), which
      is the Euclidean remainder of the heading by a full turn. */
  function Normalize(heading: real): (r: real)
    ensures 0.0 <= r < 360.0
    ensures r == heading - 360.0 * (heading / 360.0).Floor as real
  {
    DoubleRemIsEuclidean(heading);
    JsArith.RemReal(JsArith.RemReal(heading, 360.0) + 360.0, 360.0)
  }

  lemma DoubleRemIsEuclidean(heading: real)
    ensures JsArith.RemReal(JsArith.RemReal(heading, 360.0) + 360.0, 360.0)
         == heading - 360.0 * (heading / 360.0).Floor as real
  {
    var t := JsArith.Trunc(heading / 360.0);
    var n := JsArith.RemReal(heading, 360.0) + 360.0;
    assert n == heading - 360.0 * t as real + 360.0;
    assert n > 0.0;
    assert n / 360.0 == heading / 360.0 + (1 - t) as real;
    JsArith.FloorShift(heading / 360.0, 1 - t);
  }

  /** The predicate handed to `MOUNTAINS.find`: an arc whose start lies after
      its end crosses 0 degrees and contains what lies past its start or
      before its end; any other arc is the half-open interval [start, end). */
  predicate InArc(m: MountainInfo, x: real)
  {
    if m.start > m.end then x >= m.start || x < m.end
    else x >= m.start && x < m.end
  }

  /** `Array.prototype.find`: the first entry satisfying the predicate, or
      nothing when no entry does. */
  function Find(ms: seq<MountainInfo>, x: real): (r: Option<MountainInfo>)
    ensures r.Some? ==> r.value in ms && InArc(r.value, x)
    ensures r.None? <==> forall k | 0 <= k < |ms| :: !InArc(ms[k], x)
    ensures forall k | 0 <= k < |ms| && InArc(ms[k], x) ::
              (forall j | 0 <= j < k :: !InArc(ms[j], x)) ==> r == Some(ms[k])
  {
    if |ms| == 0 then None
    else if InArc(ms[0], x) then Some(ms[0])
    else
      assert forall k | 1 <= k < |ms| :: ms[k] == ms[1..][k - 1];
      Find(ms[1..], x)
  }

  /** The index of the mountain whose arc encloses a normalised heading: the
      15-degree band counted from -7.5 degrees, shifted by one because the
      table starts at 壬; the band past 352.5 degrees is 子's again. */
  function ArcIndex(x: real): (i: int)
    requires 0.0 <= x < 360.0
    ensures 0 <= i < 24
  {
    var band := ((x + 7.5) / 15.0).Floor;
    assert 0 <= band <= 24;
    (band + 1) % 24
  }

  /** A point lies in the 15-degree band centred on 15k degrees exactly when
      its band number is k. */
  lemma BandOf(x: real, k: int)
    ensures (15.0 * k as real - 7.5 <= x < 15.0 * k as real + 7.5) <==> ((x + 7.5) / 15.0).Floor == k
  {
    var y := (x + 7.5) / 15.0;
    assert x + 7.5 == 15.0 * y;
    assert y.Floor as real <= y < y.Floor as real + 1.0;
  }

  /** The arcs of MOUNTAINS partition [0, 360): a normalised heading lies in
      the arc of entry i exactly when i is its ArcIndex. */
  lemma ArcMembership(i: int, x: real)
    requires 0 <= i < 24
    requires 0.0 <= x < 360.0
    ensures InArc(MOUNTAINS[i], x) <==> i == ArcIndex(x)
  {
    ArcAt(i);
    var band := ((x + 7.5) / 15.0).Floor;
    assert 0 <= band <= 24 && ArcIndex(x) == (band + 1) % 24;
    if i == 0 {
      BandOf(x, 23);
    } else if i == 1 {
      BandOf(x, 0);
      BandOf(x, 24);
    } else {
      BandOf(x, i - 1);
    }
  }

  /** Exactly one entry of MOUNTAINS satisfies the find predicate for any
      normalised heading. */
  lemma ExactlyOneArc(x: real)
    requires 0.0 <= x < 360.0
    ensures |MOUNTAINS| == 24
    ensures InArc(MOUNTAINS[ArcIndex(x)], x)
    ensures forall i | 0 <= i < 24 :: InArc(MOUNTAINS[i], x) ==> i == ArcIndex(x)
  {
    MountainAt(0);
    forall i | 0 <= i < 24
      ensures InArc(MOUNTAINS[i], x) <==> i == ArcIndex(x)
    {
      ArcMembership(i, x);
    }
  }

  /** `MOUNTAINS.find` returns the one entry whose arc encloses the heading. */
  lemma FindFindsEnclosingArc(x: real)
    requires 0.0 <= x < 360.0
    ensures Find(MOUNTAINS, x) == Some(MOUNTAINS[ArcIndex(x)])
  {
    ExactlyOneArc(x);
  }

  /** getMountainInfo: the mountain whose arc encloses the normalised
      heading, falling back to MOUNTAINS[1] (子) when `find` finds nothing.
      With exact arithmetic the fallback is never taken. */
  function GetMountainInfo(heading: real): (r: MountainInfo)
    ensures r in MOUNTAINS
  {
    if Find(MOUNTAINS, Normalize(heading)).Some? then Find(MOUNTAINS, Normalize(heading)).value
    else MOUNTAINS[1]
  }

  /** `find` always succeeds, so the fallback to 子 is unreachable, and the
      mountain found is the one whose arc encloses the normalised heading. */
  lemma GetMountainInfoEnclosing(heading: real)
    ensures Find(MOUNTAINS, Normalize(heading)).Some?
    ensures GetMountainInfo(heading) == MOUNTAINS[ArcIndex(Normalize(heading))]
    ensures InArc(GetMountainInfo(heading), Normalize(heading))
  {
    FindFindsEnclosingArc(Normalize(heading));
  }

  /** Headings a whole number of turns apart resolve to the same mountain. */
  lemma {:induction false} GetMountainInfoPeriodic(heading: real, k: int)
    ensures Normalize(heading + 360.0 * k as real) == Normalize(heading)
    ensures GetMountainInfo(heading + 360.0 * k as real) == GetMountainInfo(heading)
  {
    assert (heading + 360.0 * k as real) / 360.0 == heading / 360.0 + k as real;
    JsArith.FloorShift(heading / 360.0, k);
  }

  /** Selecting a mountain by its centre angle resolves back to that same
      mountain (what the quick-select list relies on). */
  lemma GetMountainInfoRoundTrip(i: int)
    requires 0 <= i < 24
    ensures |MOUNTAINS| == 24
    ensures GetMountainInfo(MOUNTAINS[i].angle as real) == MOUNTAINS[i]
  {
    AngleAt(i);
    var a := MOUNTAINS[i].angle as real;
    assert Normalize(a) == a by {
      assert (a / 360.0).Floor == 0;
    }
    ArcMembership(i, a);
    GetMountainInfoEnclosing(a);
  }

  /** Facing north: 子, sat on 午, trigram 坎. */
  lemma FacingNorth()
    ensures GetMountainInfo(0.0).name == "子"
    ensures GetMountainInfo(0.0).sitting == "午"
    ensures GetMountainInfo(0.0).trigram == "坎"
  {
    GetMountainInfoRoundTrip(1);
    ZiIsNorth();
  }
}
