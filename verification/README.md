# Global Gmonads pin aggregator, in Dafny

Visitors of the Global Gmonads globe drop a pin at their position. The application
rounds the position to three decimal places (milli-degrees). It adds one to the
count of the pin already at that rounded coordinate, or appends a new pin with
count 1. The pin carries a place label built from a reverse-geocoding answer.
A counter shows the sum of all counts. A leaderboard lists the pins by
descending count.

This project models that logic, all of it in `src/App.tsx`:

- `rounding.dfy` (module `Rounding`): `Math.round(x * 1000) / 1000` over exact reals.
  `Math.round` is `Floor(x + 1/2)`. A rounded coordinate is identified by its integer
  number of milli-degrees.
- `points.dfy` (module `Points`): the `Point` record, the `findIndex` search, the
  increment-or-insert merge (`Merge`), the `reduce` total (`Total`) and the lemmas
  about them. The lemmas cover the effect of each branch, the uniqueness invariant,
  the total growing by one, and repeated and distinct submissions.
- `leaderboard.dfy` (module `Leaderboard`): the copy sorted by descending count, as a
  stable insertion sort. It is proved to be a permutation, non-increasing and stable,
  and to be the only ordering with those three properties.
- `place_label.dfy` (module `PlaceLabel`): joins the subdivision and country with
  `", "`, and gives the `"Location unknown"` fallback.
- `app.dfy` (module `App`): the component state as a class `Gmonads` holding the
  `points` list, and the submission handler `AddCurrentLocation`. The updater given to
  the state setter is the method `NextPoints`. It runs a linear search (`FindExisting`),
  then either copies the snapshot into an array and overwrites one entry, or appends.
- `wrappers.dfy` (module `Wrappers`): `Option`.

Abstractions:

- Coordinates are exact reals. The source's `===` on re-rounded doubles is modelled as
  equality of the integer milli-degree key (`Points.KeyOf`).
- For points whose coordinates are already rounded, `Points.SameKeyIffSameCoordinates`
  shows this is the same as comparing the stored coordinates.
- `height` and `size` are kept symbolic: `LogOfCount(b, f, c)` stands for
  `b + Math.log(c + 1) * f`, and `Fixed(v)` stands for a literal.
- The geolocation outcome and the reverse-geocoding answer are parameters of
  `AddCurrentLocation`. A position that could not be obtained is `None`, and so is
  a lookup that throws.

Facts about the source that the model keeps:

- A new pin gets `size: 0.2` (src/App.tsx:154), not the size formula's value for
  count 1. It gets `height: calculateHeight(1)` (src/App.tsx:156).
- A tie `x * 1000 = n + 0.5` rounds up. So the bound is
  `-0.0005 < round(x) - x <= 0.0005`; a strict bound on both sides does not hold.
- This version of the component keeps no `createdAt` timestamp. It has no
  recent-activity ordering.

## Model

| member | source | states |
|---|---|---|
| `Rounding.MathRound` | src/App.tsx:127-128 | `Math.round` yields the integer r with r - 1/2 <= x < r + 1/2 |
| `Rounding.ToMilli` | src/App.tsx:127-128 | the milli-degree value m of a coordinate satisfies m - 1/2 <= 1000x < m + 1/2 |
| `Rounding.NearestMilli` | src/App.tsx:127-128 | the rounded milli-degree is at least as near to 1000x as any integer; of two equally near it is the larger (half rounds up) |
| `Rounding.WithinHalfMilli` | src/App.tsx:127-128 | the rounded coordinate is within half a milli-degree of the input |
| `Rounding.ToMilliOfDegrees` | src/App.tsx:134-135 | re-rounding a whole number of milli-degrees gives it back |
| `Rounding.RoundCoordinateIdempotent` | src/App.tsx:127-135 | rounding a rounded coordinate changes nothing |
| `Rounding.RoundedEqualIffSameMilli` | src/App.tsx:134-135 | two rounded coordinates are equal iff their milli-degree keys are |
| `Points.SameKeyIffSameCoordinates` | src/App.tsx:133-136 | for rounded points, matching re-rounded keys is the same as equal stored lat and lng |
| `Points.FindIndex` | src/App.tsx:133-136 | the result is -1 iff no point has the key; otherwise it is the first index whose point has the key |
| `Points.MergeExisting` | src/App.tsx:138-149 | with a match at i: same length, count + 1 at i, new label, height and size from the new count, lat/lng/colour kept, every other entry unchanged |
| `Points.MergeExistingUnique` | src/App.tsx:138-149 | in a collection with unique keys, any point with the key is the one bumped and nothing else changes |
| `Points.MergeAbsent` | src/App.tsx:150-159 | with no match: the input plus exactly one appended point with count 1, the submitted key, rounded coordinates, colour #836EF9, size 0.2, height for count 1 and the new label |
| `Points.MergePreservesWellFormed` | src/App.tsx:133-160 | unique keys, positive counts and rounded coordinates hold after a merge if they held before |
| `Points.MergeKeepsCountsPositive` | src/App.tsx:141-157 | if every count is at least 1 before a merge, every count is at least 1 after it |
| `Points.TotalAppend` | src/App.tsx:284 | appending a point adds its count to the total |
| `Points.TotalUpdate` | src/App.tsx:284 | replacing one point changes the total by the difference of the counts |
| `Points.TotalAtLeastLength` | src/App.tsx:284 | with positive counts the total is at least the number of points |
| `Points.MergeTotal` | src/App.tsx:138-159 | every submission raises the total by exactly one, in either branch |
| `Points.SubmitTwice` | src/App.tsx:133-160 | two submissions at a new key give one new point with count 2 and the second label; earlier points are unchanged |
| `Points.SubmitDistinct` | src/App.tsx:150-159 | two submissions at different new keys give two new points, each with count 1 |
| `Points.ReplayInvariant` | src/App.tsx:132-160 | a run of submissions keeps the invariant and adds its length to the total |
| `Points.StepCount` | src/App.tsx:133-159 | on a well-formed list, one submission raises the count at its own key by one and leaves the count at every other key unchanged |
| `Points.ReplayCount` | src/App.tsx:132-160 | after a run of submissions, the count at each key has grown by the number of submissions at that key |
| `Points.ReplayFromEmpty` | src/App.tsx:17-160 | from the empty initial list, any run of submissions leaves a well-formed list whose total is the number of submissions and whose count at every key is the number of submissions at that key |
| `Points.NearbyPositionsMerge` | src/App.tsx:127-136 | (40.71279, -74.00601) and (40.71283, -74.00599) both round to (40.713, -74.006) and merge into one point with count 2 |
| `Leaderboard.SortIsPermutation` | src/App.tsx:47 | the sorted list has the same points with the same multiplicities |
| `Leaderboard.SortIsOrdered` | src/App.tsx:47 | the sorted list is non-increasing in count |
| `Leaderboard.SortIsStable` | src/App.tsx:47 | for every count, the points with that count keep their relative order |
| `Leaderboard.StableOrderUnique` | src/App.tsx:47 | two non-increasing lists that agree on the order within each count are equal |
| `Leaderboard.SortIsTheStableOrder` | src/App.tsx:47 | the sort equals every non-increasing list that keeps each count's order of the input |
| `Leaderboard.RankingExample` | src/App.tsx:47 | counts 3, 1, 5 in order A, B, C are ranked C, A, B |
| `PlaceLabel.JoinPlace` | src/App.tsx:37 | both non-empty: state + ", " + country; one empty: the other alone; the label is empty iff both are |
| `PlaceLabel.LocationLabel` | src/App.tsx:29-41 | over the answer's raw fields: both non-empty gives subdivision + ", " + country; exactly one non-empty gives that one alone; neither (missing or "") gives ""; a lookup that throws gives "Location unknown" |
| `App.FindExisting` | src/App.tsx:133-136 | the linear search returns the same index as `FindIndex` |
| `App.NextPoints` | src/App.tsx:132-160 | the copy-and-overwrite or append updater yields exactly `Merge` of the snapshot |
| `App.Gmonads.constructor` | src/App.tsx:17 | the point list starts empty and well formed |
| `App.Gmonads.TotalCount` | src/App.tsx:284 | on a well-formed state the counter is at least the number of points |
| `App.Gmonads.LeaderboardPoints` | src/App.tsx:47 | the leaderboard is a permutation of the points, non-increasing in count and stable |
| `App.Gmonads.AddCurrentLocation` | src/App.tsx:124-169 | without a position (geolocation unsupported or failed) the points are unchanged; with one, the new list is `Merge` of the old one at the rounded position with the resolved label, and the total rises by one; the invariant holds either way |

## Left out

- `calculateHeight` and the size formula: `Math.log` in floating point is kept symbolic, so nothing is proved about their values or their monotonicity.
- Floating-point effects: `x * 1000` and `/ 1000` are exact in the model, and `===` on doubles is equality of integer keys. A double that rounds differently because of representation error is not modelled.
- The geolocation API, the reverse-geocoding `fetch`, `alert` and `console.error` are I/O. Their outcomes are parameters; the alerts shown when no position is available are not modelled beyond leaving the points unchanged.
- The order in which concurrent submissions finish their lookups is not modelled. Each state update is applied atomically to the current snapshot.
- Rendering, the tooltip, styling, social links, the leaderboard's display fallback `'Unknown Location'` and the info modal are UI.
- `api/points.ts`, `api/update-points.ts` and `src/lib/supabase.ts` forward data to external stores and are not part of this model. The upsert-on-conflict behaviour is carried out by the database.
- `App.Gmonads.TotalCount`: states only a lower bound by itself. The exact change per submission is in `AddCurrentLocation` and `Points.MergeTotal`.
