# Feng shui calculation core, modelled in Dafny

This project models the divination core of a feng shui compass application. All of it is deterministic arithmetic over small tables:

- **Flying stars** (`flyingstars.dfy`). A year gives its Lo Shu centre star. The nine stars then fly along the path C, NW, W, NE, S, N, SW, E, SE, and the result is laid out in the fixed 3x3 display order.
- **The 24 mountains** (`constants.dfy`, `heading.dfy`). The mountain table is built from the raw (name, octant, centre angle) triples. Each entry gets a 15-degree arc, a sitting mountain and a trigram. A compass heading resolves to the mountain whose arc encloses it.
- **Tai Sui** (`taisui.dfy`). A year gives its zodiac sign. The conflict list is then built by conditional pushes, in this order:
  - 值 Value;
  - 沖 Clash;
  - 害 Harm;
  - 刑 Punish, only when it is neither the year's sign nor the clash;
  - 破 Break, only when its sign is not already listed.
- **Birth years** (`birthyears.dfy`). For a sign and an analysis year, the model gives every year of that sign from the analysis year back to ninety years earlier, in ascending order.
- **Star catalogue and direction tables** (`constants.dfy`).
- **Common definitions.** `types.dfy` holds the entity datatypes. `jsarith.dfy` holds JavaScript's truncating `%`.

Some source operations change state step by step, and those are methods whose loops are proved against specification functions:

- `calculateFlyingStarGrid` has a `for` loop with two normalising `while` loops.
- `calculateTaiSui` builds its list by successive pushes.
- `getAffectedBirthYears` has a search loop and a stride loop.

Everything else is functions and lemmas.

Years are unbounded integers and headings are exact reals. JavaScript's `%` truncates toward zero, and the model writes that out explicitly (`JsArith.Rem`, `JsArith.RemReal`). The lemmas then show that every place the source uses it is the Euclidean remainder.

## Model

| member | source | states |
|---|---|---|
| JsArith.Rem | utils/fengshui.ts:9 | `a % m` for a positive m is what truncated division leaves over: `a == m * Quot(a, m) + r`. It equals the Euclidean remainder for a ≥ 0 and lies in (-m, 0] for a < 0. |
| JsArith.RemReal | utils/fengshui.ts:47 | `x % m` on a heading, as in `heading % 360`, removes a whole number of moduli, `Trunc(x / m)` of them. What is left lies in [0, m) for x ≥ 0 and in (-m, 0] for x < 0. |
| Constants.StarLookup | constants.ts:3-121 | The catalogue has an entry exactly for the keys 1..9, and each entry carries its own number. The auspicious stars are exactly 1, 4, 6, 8 and 9. The elements are: 1 Water; 2, 5, 8 Earth; 3, 4 Wood; 6, 7 Metal; 9 Fire. |
| Constants.Opposite | constants.ts:124-134 | The opposite octant lies 180 degrees round by DIRECTION_ANGLES, and only the centre maps to the centre. |
| Constants.OppositeInvolution | constants.ts:124-134 | Taking the opposite twice gives back the direction. |
| Constants.OctantsAt | constants.ts:124-134 | The eight octants clockwise from North are distinct and are not the centre. The k-th sits at 45k degrees, and the one four places on is its opposite. |
| Constants.RawAngleAt | constants.ts:164-173 | Raw entry 0 (壬) is centred at 345 degrees and raw entry i ≥ 1 at 15(i-1). |
| Constants.RawOctantAt | constants.ts:164-173 | Raw entry i belongs to the (i/3)-th octant clockwise from North. |
| Constants.AngleAt | constants.ts:164-186 | MOUNTAINS has 24 entries, and entry i is centred at 345 for i = 0 and at 15(i-1) otherwise. |
| Constants.MountainAt | constants.ts:175-193 | Gives every field of entry i as a formula in i:<br>• the name is raw entry i's;<br>• the arc ends 7.5 degrees past the angle;<br>• the arc starts 7.5 degrees before it, moved to 352.5 only for 子;<br>• the direction is the (i/3)-th octant;<br>• the sitting is the name of entry (i+12) mod 24;<br>• the trigram is DIRECTION_TRIGRAMS of the direction. |
| Constants.MountainAngle | constants.ts:164-173 | The centre angle of entry i is (15(i-1)) mod 360, which lies in [0, 360). |
| Constants.ArcAt | constants.ts:176-179 | Gives the start and end of every arc in closed form: 壬 covers 337.5..352.5 and 子 covers 352.5..7.5. |
| Constants.NameIndexAt | constants.ts:164-173 | A reference index function recovers each raw entry's position from its name. |
| Constants.MountainNamesDistinct | constants.ts:164-173 | Two entries have the same name iff they are the same entry. |
| Constants.OnlyZiWraps | constants.ts:176-179 | An arc starts after it ends iff it is 子's, which runs from 352.5 to 7.5. |
| Constants.ZiIsNorth | constants.ts:175-193 | Entry 1 is 子: centred at 0, arc 352.5..7.5, direction N, sitting 午, trigram 坎. |
| Constants.ArcsChain | constants.ts:176-179 | Each arc ends where the next one starts, and the last arc closes on the first. |
| Constants.SittingAngle | constants.ts:180-182 | The entry twelve places on is centred 180 degrees further round, modulo 360. |
| Constants.CentreAnglesOpposite | constants.ts:164-173 | The centre-angle formula taken twelve places on is 180 degrees further round, modulo 360. |
| Constants.SittingIsOpposite | constants.ts:180-182 | The sitting relation is an involution: the sitting mountain's angle is 180 degrees on, and its direction is the opposite octant. |
| Constants.OctantOwnsTriple | constants.ts:164-173 | Entry i belongs to octant k iff 3k ≤ i < 3k+3. Such an entry carries that octant's trigram. |
| Constants.MiddleMountainOnOctantAngle | constants.ts:124-134 | The middle entry of octant k lies exactly on that octant's DIRECTION_ANGLES bearing. |
| HeadingResolver.Normalize | utils/fengshui.ts:47 | `(h % 360 + 360) % 360`, with truncating `%`, lies in [0, 360) and equals the Euclidean remainder h - 360·floor(h/360). |
| HeadingResolver.DoubleRemIsEuclidean | utils/fengshui.ts:47 | The double truncated remainder equals the floor-based remainder for every real heading. |
| HeadingResolver.Find | utils/fengshui.ts:52-58 | `find` returns the first entry satisfying the predicate, and returns nothing iff no entry satisfies it. |
| HeadingResolver.ArcIndex | utils/fengshui.ts:52-58 | The reference index of the enclosing arc lies in 0..23. |
| HeadingResolver.BandOf | utils/fengshui.ts:52-58 | A point lies in the half-open 15-degree band centred on 15k degrees iff its band number floor((x + 7.5)/15) is k. |
| HeadingResolver.ArcMembership | utils/fengshui.ts:52-58 | A normalised heading satisfies entry i's arc predicate, including the wrap-round rule for 子, iff i is its ArcIndex. |
| HeadingResolver.ExactlyOneArc | utils/fengshui.ts:52-58 | For every normalised heading exactly one entry satisfies the predicate, so the arcs tile [0, 360). |
| HeadingResolver.FindFindsEnclosingArc | utils/fengshui.ts:52-58 | `find` returns the entry at ArcIndex. |
| HeadingResolver.GetMountainInfo | utils/fengshui.ts:45-61 | The result is always an entry of MOUNTAINS. |
| HeadingResolver.GetMountainInfoEnclosing | utils/fengshui.ts:45-61 | `find` always succeeds, so the 子 fallback is unreachable. The result is the entry whose arc encloses the normalised heading. |
| HeadingResolver.GetMountainInfoPeriodic | utils/fengshui.ts:45-47 | Headings a whole number of turns apart normalise alike and resolve to the same mountain. |
| HeadingResolver.GetMountainInfoRoundTrip | utils/fengshui.ts:45-61 | Resolving any mountain's centre angle returns that mountain. |
| HeadingResolver.FacingNorth | utils/fengshui.ts:45-61 | Heading 0 resolves to 子, sitting 午, trigram 坎. |
| FlyingStars.CenterStar | utils/fengshui.ts:8-11 | For every integer year, negative ones included, the centre star is in 1..9 and equals (10 - year) mod 9 + 1. |
| FlyingStars.CenterStarIsEuclidean | utils/fengshui.ts:8-11 | With JavaScript's truncating `%`, the expression `(11 - year % 9) % 9`, with 0 read as 9, equals (10 - year) mod 9 + 1 for every integer year. |
| FlyingStars.CenterStarPeriodic | utils/fengshui.ts:8-11 | The centre star has period 9. |
| FlyingStars.CenterStarDescends | utils/fengshui.ts:8-11 | The centre star drops by one each year, and 1 wraps to 9. |
| FlyingStars.CenterStarExamples | utils/fengshui.ts:8-11 | 2023 gives 4 and 2024 gives 3. |
| FlyingStars.PathIndex | utils/fengshui.ts:20 | Every palace is on the flight path, and the index returned is where it is. |
| FlyingStars.PathIndexAt | utils/fengshui.ts:20 | The path visits each palace once. |
| FlyingStars.CalculateFlyingStarGrid | utils/fengshui.ts:17-32 | The grid has an entry for every palace. Path step i holds (c+i-1) mod 9 + 1, which is StarAt(c, palace). |
| FlyingStars.FlightInjective | utils/fengshui.ts:17-32 | Two palaces receive the same star only if they are the same palace. |
| FlyingStars.PalaceOfFindsStar | utils/fengshui.ts:17-32 | For each star s in 1..9, the palace PalaceOf(c, s) receives s. |
| FlyingStars.PalaceOfStarAt | utils/fengshui.ts:17-32 | The star a palace receives leads back to that palace through PalaceOf. |
| FlyingStars.FlightIsBijection | utils/fengshui.ts:17-32 | For every centre c, the centre palace holds c wrapped into 1..9, and every palace holds a star in 1..9. No two palaces share a star. PalaceOf is the inverse in both directions. |
| FlyingStars.FlownStarsAreCatalogued | utils/fengshui.ts:17-32 | Every star the flight produces has a catalogue entry under its own number. |
| FlyingStars.GridLayout | utils/fengshui.ts:34-40 | The layout has nine distinct entries, with C at index 4. |
| FlyingStars.GridLayoutListsEveryPalace | utils/fengshui.ts:34-40 | Every palace appears in the layout, so each appears exactly once. |
| FlyingStars.LoShuMagicSquare | utils/fengshui.ts:17-40 | With centre 5, the grid read in layout order is 4 9 2 / 3 5 7 / 8 1 6, and every row, column and diagonal of it sums to 15. |
| TaiSui.SignIndex | utils/fengshui.ts:66 | `ZODIACS.indexOf` finds every sign, at its own position. |
| TaiSui.SignIndexAt | utils/fengshui.ts:66 | ZODIACS lists each sign once. |
| TaiSui.YearIndex | utils/fengshui.ts:72-74 | The truncated remainder plus the +12 fix lies in 0..11 and equals (year - 4) mod 12. |
| TaiSui.YearIndexCycle | utils/fengshui.ts:72-74 | The index has period 12 and advances by one each year. |
| TaiSui.YearIndexExamples | utils/fengshui.ts:66-74 | 2020 is 鼠 (Rat), 2022 is Tiger and 2024 is Dragon. |
| TaiSui.PairingTables | utils/fengshui.ts:101-134 | harmMap and poMap are defined on all of 0..11 and are fixed-point-free involutions:<br>• harm(i) = (7 - i) mod 12;<br>• po(i) = i + 9 for even i and i + 3 for odd i, mod 12. |
| TaiSui.GetXing | utils/fengshui.ts:154-172 | getXing has an entry exactly for 0, 1, 2, 3, 5, 7, 8 and 10. The entry is a sign index other than the argument. |
| TaiSui.XingCycles | utils/fengshui.ts:154-172 | Following getXing, Rat and Rabbit return after two steps. The Ox/Dog/Goat and Tiger/Snake/Monkey triangles return after three. |
| TaiSui.Signs | utils/fengshui.ts:138 | `conflicts.map(c => c.sign)` keeps the length and takes the sign of each entry. |
| TaiSui.SignsBeforeBreak | utils/fengshui.ts:138 | The signs the duplicate check sees are the Value, Clash and Harm signs, then the Punish sign when it is listed. |
| TaiSui.SignsDistinct | utils/fengshui.ts:66 | Two indices name the same sign iff they are equal. |
| TaiSui.BreakGuard | utils/fengshui.ts:136-139 | The `includes` check on the signs listed so far rejects the Break sign iff that sign is the Value, Clash or Harm sign, or the listed Punish sign. |
| TaiSui.CalculateTaiSui | utils/fengshui.ts:68-152 | The year sign is ZODIACS[YearIndex(year)]. The list equals ConflictsFor of that index:<br>• Value, Clash and Harm;<br>• then Punish iff PunishListed;<br>• then Break iff BreakListed. |
| TaiSui.TaiSuiShape | utils/fengshui.ts:76-152 | Every list has 4 or 5 entries. Entries 0..2 are Value (the year sign), Clash (index + 6) and Harm (the sign at (11 - year) mod 12). |
| TaiSui.HarmOfYear | utils/fengshui.ts:72-101 | The Harm index (7 - index) mod 12 of a year is (11 - year) mod 12. |
| TaiSui.PunishListedIff | utils/fengshui.ts:121 | The Punish guard admits the indices 0, 1, 2, 3, 5 and 10 and no others. For Goat and Monkey, getXing gives the clash. |
| TaiSui.BreakListedIff | utils/fengshui.ts:134-139 | Break is listed for every index except 5 (Snake) and 10 (Dog), where its sign is the Punish sign. |
| TaiSui.ConflictCount | utils/fengshui.ts:121-139 | Punish is listed iff the index is in {0, 1, 2, 3, 5, 10}. Break is listed iff the index is not 5 or 10. The list has 5 entries iff the index ≤ 3. |
| TaiSui.BreakNeverDuplicates | utils/fengshui.ts:138-139 | A listed Break sign differs from every sign before it. |
| TaiSui.TigerYearListsSnakeTwice | utils/fengshui.ts:101-128 | In a Tiger year such as 2022, entry 2 is Snake as Harm and entry 3 is Snake as Punish. |
| TaiSui.DistinctSignsExceptTiger | utils/fengshui.ts:101-139 | The list repeats no sign iff the year is not a Tiger year. |
| BirthYears.Reverse | utils/fengshui.ts:197 | Reversal keeps the length and reads the list back to front. |
| BirthYears.ReversePermutes | utils/fengshui.ts:197 | Reversal keeps the multiset of years. |
| BirthYears.SortedPermutationUnique | utils/fengshui.ts:197 | Two ascending lists with the same multiset are equal. |
| BirthYears.SameHeadSameRest | utils/fengshui.ts:197 | Two non-empty ascending lists with the same multiset have the same head and tails with the same multiset. |
| BirthYears.SortOfDescending | utils/fengshui.ts:197 | The only ascending permutation of a descending list is its reverse, which is what the sort returns. |
| BirthYears.SameSignIffTwelveApart | utils/fengshui.ts:184-186 | Two years have the same sign index iff they differ by a multiple of 12. |
| BirthYears.IndexIffResidue | utils/fengshui.ts:184-186 | A year has sign index t iff year - 4 - t is a multiple of 12. |
| BirthYears.SearchStep | utils/fengshui.ts:183-189 | One round of the search: the year in hand has the target sign iff all the steps have been taken. Otherwise one more decrement keeps the step count. |
| BirthYears.SearchStopsAtMostRecent | utils/fengshui.ts:182-189 | The search stops after at most 11 decrements, at a year of the sign. No later year up to the analysis year has that sign. |
| BirthYears.StrideMembership | utils/fengshui.ts:193-195 | The stride list holds exactly the years from the start year down to the bound that are a multiple of 12 below the start. |
| BirthYears.SortedStrideList | utils/fengshui.ts:182-197 | The sorted stride list has all of these properties:<br>• it is non-empty and ascending;<br>• it climbs by exactly 12;<br>• it ends at the most recent year of the sign;<br>• it begins no earlier than the bound;<br>• it holds exactly the years of the sign in the window. |
| BirthYears.GetAffectedBirthYears | utils/fengshui.ts:178-198 | The result has all of these properties:<br>• it is non-empty and ascending;<br>• consecutive years differ by 12;<br>• the last year is in (cur - 12, cur];<br>• the first year is ≥ cur - 90;<br>• a year is in the result iff it is in [cur - 90, cur] and its sign is the target sign. |

### Behaviour of the code worth knowing

The model follows `utils/fengshui.ts` as written:

- **Centre star examples.** The formula at lines 8-11 gives centre star 3 for 2024 and 4 for 2023 (`FlyingStars.CenterStarExamples`).
- **Duplicate signs.** The comments at line 121 ("avoid duplicates if already listed") and line 137 ("filter duplicates") announce de-duplication. Only the Break entry is checked against every sign already in the list. The Punish guard compares with the Value and Clash signs but not with the Harm sign, so a Tiger year such as 2022 lists the Snake twice (`TaiSui.TigerYearListsSnakeTwice`, `TaiSui.DistinctSignsExceptTiger`).
- **Harm and Break counts.** Harm is always listed, because harmMap covers all of 0..11. Break is dropped in Snake and Dog years, where it equals the Punish sign (`TaiSui.ConflictCount`).
- **2024's index.** `(2024 - 4) % 12` is 4, which is Dragon (`TaiSui.YearIndexExamples`).
- **Trigram field.** `types.ts` declares no `trigram` field on MountainInfo, but the entries built in `constants.ts` carry one. The model's `MountainInfo` includes it.

## Left out

- Display strings are not modelled. This covers the star descriptions, colours, recommendations and taboos, the conflict descriptions and remedies, and the zodiac glyphs beyond `TaiSui.Glyph`. They are opaque text with nothing to prove about them.
- `Constants.DirectionName` is modelled as the plain table, and no property about it is stated.
- IEEE floating point is not modelled. Headings are exact reals, so NaN and the infinities, the only inputs that reach the 子 fallback at `utils/fengshui.ts:60`, are not represented; neither is negative zero, which normalises to 0 and resolves to 子 through its arc.
- Years are integers. The source takes any JavaScript number, and a fractional year would never stop its search loop.
- `BirthYears.GetAffectedBirthYears` models `Array.prototype.sort` by its result, not by its algorithm. The list is built descending, and the model returns its reverse. `BirthYears.SortOfDescending` proves that this is the unique ascending permutation.
- The unused `poIndex` (utils/fengshui.ts:131) is dead code and is not modelled.
- Outside this model:
  - the React components;
  - the device-orientation sensor;
  - `localStorage` persistence and the year clamp in `App.tsx`;
  - the AI client in `utils/ai.ts`;
  - the PDF generator.

  All of these are UI, network or I/O code.
