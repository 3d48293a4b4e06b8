/**
 * The point aggregator: the collection of pins, the "increment or insert" merge
 * performed when a location is submitted, and the running total.
 */
module Points {
  import opened Wrappers
  import opened Rounding

  /**
   * A visual attribute derived from a count. The logarithm is floating point and
   * is kept symbolic: `LogOfCount(b, f, c)` stands for `b + Math.log(c + 1) * f`.
   */
  datatype Scale =
    | Fixed(value: real)
    | LogOfCount(base: real, factor: real, count: int)

  /** `calculateHeight(count)`. */
  function Height(count: int): Scale {
    LogOfCount(0.001, 0.8, count)
  }

  /** The size given to a point whose count has just grown. */
  function GrownSize(count: int): Scale {
    LogOfCount(0.2, 0.1, count)
  }

  /** The size of a freshly created point (not the formula's value for count 1). */
  const InitialSize: Scale := Fixed(0.2)

  /** The one colour every point is drawn in. */
  const PinColor: string := "#836EF9"

  datatype Point = Point(
    lat: real,
    lng: real,
    size: Scale,
    color: string,
    height: Scale,
    count: int,
    location: Option<string>)

  /** A rounded coordinate pair in whole milli-degrees: the deduplication key. */
  datatype Key = Key(lat: int, lng: int)

  /** The key of a stored point, after re-rounding its coordinates. */
  function KeyOf(p: Point): Key {
    Key(ToMilli(p.lat), ToMilli(p.lng))
  }

  /** The key of a raw submitted position. */
  function SubmittedKey(latitude: real, longitude: real): Key {
    Key(ToMilli(latitude), ToMilli(longitude))
  }

  predicate IsRounded(p: Point) {
    RoundCoordinate(p.lat) == p.lat && RoundCoordinate(p.lng) == p.lng
  }

  /** At most one point per rounded coordinate pair. */
  predicate UniqueKeys(ps: seq<Point>) {
    forall i, j :: 0 <= i < j < |ps| ==> KeyOf(ps[i]) != KeyOf(ps[j])
  }

  predicate CountsPositive(ps: seq<Point>) {
    forall i :: 0 <= i < |ps| ==> ps[i].count >= 1
  }

  predicate AllRounded(ps: seq<Point>) {
    forall i :: 0 <= i < |ps| ==> IsRounded(ps[i])
  }

  /** The invariant of the collection held by the application. */
  predicate WellFormed(ps: seq<Point>) {
    UniqueKeys(ps) && CountsPositive(ps) && AllRounded(ps)
  }

  /** For rounded points, comparing re-rounded keys is comparing stored coordinates. */
  lemma SameKeyIffSameCoordinates(p: Point, q: Point)
    requires IsRounded(p) && IsRounded(q)
    ensures KeyOf(p) == KeyOf(q) <==> (p.lat == q.lat && p.lng == q.lng)
  {
  }

  /** `findIndex`: the first index whose key is `k`, or -1 when there is none. */
  function FindIndex(ps: seq<Point>, k: Key): (r: int)
    ensures -1 <= r < |ps|
    ensures 0 <= r ==> KeyOf(ps[r]) == k && forall j :: 0 <= j < r ==> KeyOf(ps[j]) != k
    ensures r == -1 <==> forall j :: 0 <= j < |ps| ==> KeyOf(ps[j]) != k
  {
    if ps == [] then -1
    else if KeyOf(ps[0]) == k then 0
    else
      var r := FindIndex(ps[1..], k);
      if r == -1 then -1 else r + 1
  }

  /** The existing point after one more submission at its coordinate. */
  function Bumped(p: Point, place: string): Point {
    var newCount := p.count + 1;
    p.(count := newCount, height := Height(newCount), size := GrownSize(newCount), location := Some(place))
  }

  /** The point created by the first submission at a coordinate. */
  function NewPoint(k: Key, place: string): Point {
    Point(Degrees(k.lat), Degrees(k.lng), InitialSize, PinColor, Height(1), 1, Some(place))
  }

  /** The collection after a submission with rounded key `k` and place label `place`. */
  function Merge(ps: seq<Point>, k: Key, place: string): seq<Point> {
    var i := FindIndex(ps, k);
    if i == -1 then ps + [NewPoint(k, place)] else ps[i := Bumped(ps[i], place)]
  }

  /** A submission at an existing key bumps that point alone and keeps its coordinates and colour. */
  lemma MergeExisting(ps: seq<Point>, k: Key, place: string, i: int)
    requires 0 <= i < |ps| && KeyOf(ps[i]) == k
    requires forall j :: 0 <= j < i ==> KeyOf(ps[j]) != k
    ensures var r := Merge(ps, k, place);
      && |r| == |ps|
      && r[i].count == ps[i].count + 1
      && r[i].location == Some(place)
      && r[i].lat == ps[i].lat && r[i].lng == ps[i].lng && r[i].color == ps[i].color
      && r[i].height == Height(ps[i].count + 1) && r[i].size == GrownSize(ps[i].count + 1)
      && forall j :: 0 <= j < |ps| && j != i ==> r[j] == ps[j]
  {
  }

  /** In a collection without duplicate keys any point with the key is the one that is bumped. */
  lemma MergeExistingUnique(ps: seq<Point>, k: Key, place: string, i: int)
    requires UniqueKeys(ps)
    requires 0 <= i < |ps| && KeyOf(ps[i]) == k
    ensures var r := Merge(ps, k, place);
      |r| == |ps| && r[i] == Bumped(ps[i], place) && forall j :: 0 <= j < |ps| && j != i ==> r[j] == ps[j]
  {
  }

  /** A submission at a new key appends exactly one point, with count 1, whose key is that key. */
  lemma MergeAbsent(ps: seq<Point>, k: Key, place: string)
    requires forall j :: 0 <= j < |ps| ==> KeyOf(ps[j]) != k
    ensures var r := Merge(ps, k, place);
      && |r| == |ps| + 1 && r[..|ps|] == ps
      && r[|ps|].count == 1 && KeyOf(r[|ps|]) == k && IsRounded(r[|ps|])
      && r[|ps|].color == PinColor && r[|ps|].location == Some(place)
      && r[|ps|].size == InitialSize && r[|ps|].height == Height(1)
  {
  }

  /** The merge keeps the collection's invariant: unique keys, positive counts, rounded coordinates. */
  lemma MergePreservesWellFormed(ps: seq<Point>, k: Key, place: string)
    requires WellFormed(ps)
    ensures WellFormed(Merge(ps, k, place))
  {
    var i := FindIndex(ps, k);
    var r := Merge(ps, k, place);
    if i == -1 {
      MergeAbsent(ps, k, place);
      forall a, b | 0 <= a < b < |r| ensures KeyOf(r[a]) != KeyOf(r[b]) {
        if b < |ps| {
          assert r[a] == ps[a] && r[b] == ps[b];
        } else {
          assert r[a] == ps[a];
        }
      }
      forall a | 0 <= a < |r| ensures r[a].count >= 1 && IsRounded(r[a]) {
        if a < |ps| {
          assert r[a] == ps[a];
        }
      }
    } else {
      assert KeyOf(r[i]) == KeyOf(ps[i]);
    }
  }

  /** Positive counts stay positive, whatever the keys. */
  lemma MergeKeepsCountsPositive(ps: seq<Point>, k: Key, place: string)
    requires CountsPositive(ps)
    ensures CountsPositive(Merge(ps, k, place))
  {
  }

  /** The displayed total: `points.reduce((sum, point) => sum + point.count, 0)`, a left fold. */
  function Total(ps: seq<Point>): int {
    if ps == [] then 0 else Total(ps[..|ps| - 1]) + ps[|ps| - 1].count
  }

  lemma TotalAppend(ps: seq<Point>, p: Point)
    ensures Total(ps + [p]) == Total(ps) + p.count
  {
  }

  /** Replacing one point changes the total by the difference of the two counts. */
  lemma {:induction false} TotalUpdate(ps: seq<Point>, i: int, p: Point)
    requires 0 <= i < |ps|
    ensures Total(ps[i := p]) == Total(ps) - ps[i].count + p.count
  {
    var n := |ps| - 1;
    if i == n {
      assert ps[i := p][..n] == ps[..n];
    } else {
      TotalUpdate(ps[..n], i, p);
      assert ps[i := p][..n] == ps[..n][i := p];
    }
  }

  /** With positive counts the total is at least the number of points. */
  lemma {:induction false} TotalAtLeastLength(ps: seq<Point>)
    ensures CountsPositive(ps) ==> Total(ps) >= |ps|
  {
    if ps != [] && CountsPositive(ps) {
      TotalAtLeastLength(ps[..|ps| - 1]);
    }
  }

  /** Every submission, merged or appended, adds exactly one to the total. */
  lemma MergeTotal(ps: seq<Point>, k: Key, place: string)
    ensures Total(Merge(ps, k, place)) == Total(ps) + 1
  {
    var i := FindIndex(ps, k);
    if i == -1 {
      TotalAppend(ps, NewPoint(k, place));
    } else {
      TotalUpdate(ps, i, Bumped(ps[i], place));
    }
  }

  /** Submitting the same coordinate twice gives one point with count 2, not two points. */
  lemma SubmitTwice(ps: seq<Point>, k: Key, first: string, second: string)
    requires forall j :: 0 <= j < |ps| ==> KeyOf(ps[j]) != k
    ensures var r := Merge(Merge(ps, k, first), k, second);
      && |r| == |ps| + 1 && r[..|ps|] == ps
      && r[|ps|].count == 2 && KeyOf(r[|ps|]) == k && r[|ps|].location == Some(second)
  {
    var once := Merge(ps, k, first);
    MergeAbsent(ps, k, first);
    assert forall j :: 0 <= j < |ps| ==> once[j] == ps[j];
    MergeExisting(once, k, second, |ps|);
    var r := Merge(once, k, second);
    assert r[..|ps|] == once[..|ps|];
  }

  /** Two submissions whose coordinates round apart give two points, each with count 1. */
  lemma SubmitDistinct(ps: seq<Point>, k1: Key, k2: Key, l1: string, l2: string)
    requires k1 != k2
    requires forall j :: 0 <= j < |ps| ==> KeyOf(ps[j]) != k1 && KeyOf(ps[j]) != k2
    ensures var r := Merge(Merge(ps, k1, l1), k2, l2);
      && |r| == |ps| + 2 && r[..|ps|] == ps
      && KeyOf(r[|ps|]) == k1 && r[|ps|].count == 1
      && KeyOf(r[|ps| + 1]) == k2 && r[|ps| + 1].count == 1
  {
  }

  /** One submission: the rounded key of the position and the resolved place label. */
  datatype Submission = Submission(key: Key, place: string)

  /** The collection after a run of submissions, applied in order. */
  function Replay(ps: seq<Point>, subs: seq<Submission>): seq<Point>
    decreases |subs|
  {
    if subs == [] then ps
    else Replay(Merge(ps, subs[0].key, subs[0].place), subs[1..])
  }

  /** The count of the point with key `q`, or 0 when there is none. */
  function CountAt(ps: seq<Point>, q: Key): int {
    var i := FindIndex(ps, q);
    if i == -1 then 0 else ps[i].count
  }

  /** The number of submissions in `subs` whose key is `q`. */
  function Occ(subs: seq<Submission>, q: Key): nat {
    if subs == [] then 0 else (if subs[0].key == q then 1 else 0) + Occ(subs[1..], q)
  }

  /** Two lists with the same keys position by position are searched alike. */
  lemma FindIndexSameKeys(a: seq<Point>, b: seq<Point>, q: Key)
    requires |a| == |b| && forall j :: 0 <= j < |a| ==> KeyOf(a[j]) == KeyOf(b[j])
    ensures FindIndex(a, q) == FindIndex(b, q)
  {
  }

  /** Searching a list with one point appended finds an earlier match first, then the new point. */
  lemma FindIndexAppend(ps: seq<Point>, p: Point, q: Key)
    ensures FindIndex(ps + [p], q) ==
      if FindIndex(ps, q) != -1 then FindIndex(ps, q) else if KeyOf(p) == q then |ps| else -1
  {
    var r := FindIndex(ps + [p], q);
    var f := FindIndex(ps, q);
    assert forall j :: 0 <= j < |ps| ==> (ps + [p])[j] == ps[j];
    if f == -1 {
      assert (ps + [p])[|ps|] == p;
      if KeyOf(p) == q {
        assert r != -1 && !(r < |ps|);
      } else {
        assert forall j :: 0 <= j < |ps + [p]| ==> KeyOf((ps + [p])[j]) != q;
      }
    }
  }

  /** One submission adds one to the count at its own key and leaves every other key's count alone. */
  lemma StepCount(ps: seq<Point>, k: Key, place: string, q: Key)
    requires WellFormed(ps)
    ensures CountAt(Merge(ps, k, place), q) == CountAt(ps, q) + (if k == q then 1 else 0)
  {
    var i := FindIndex(ps, k);
    var r := Merge(ps, k, place);
    if i == -1 {
      MergeAbsent(ps, k, place);
      assert r == ps + [NewPoint(k, place)];
      FindIndexAppend(ps, NewPoint(k, place), q);
      var f := FindIndex(ps, q);
      if f != -1 {
        assert r[f] == ps[f];
      }
    } else {
      assert r == ps[i := Bumped(ps[i], place)];
      FindIndexSameKeys(r, ps, q);
      var f := FindIndex(ps, q);
      if f != -1 && f != i {
        assert r[f] == ps[f];
      }
    }
  }

  /** After a run of submissions, the count at each key has grown by the submissions at that key. */
  lemma {:induction false} ReplayCount(ps: seq<Point>, subs: seq<Submission>, q: Key)
    requires WellFormed(ps)
    ensures CountAt(Replay(ps, subs), q) == CountAt(ps, q) + Occ(subs, q)
    decreases |subs|
  {
    if subs != [] {
      var next := Merge(ps, subs[0].key, subs[0].place);
      StepCount(ps, subs[0].key, subs[0].place, q);
      MergePreservesWellFormed(ps, subs[0].key, subs[0].place);
      ReplayCount(next, subs[1..], q);
    }
  }

  /**
   * From an empty collection, any run of submissions leaves a well-formed collection
   * whose total is the number of submissions, and in which the count at every key is
   * the number of submissions at that key (so a key has a point iff it was submitted).
   */
  lemma {:induction false} ReplayFromEmpty(subs: seq<Submission>)
    ensures WellFormed(Replay([], subs)) && Total(Replay([], subs)) == |subs|
    ensures forall q :: CountAt(Replay([], subs), q) == Occ(subs, q)
  {
    ReplayInvariant([], subs);
    forall q ensures CountAt(Replay([], subs), q) == Occ(subs, q) {
      ReplayCount([], subs, q);
    }
  }

  lemma {:induction false} ReplayInvariant(ps: seq<Point>, subs: seq<Submission>)
    requires WellFormed(ps)
    ensures WellFormed(Replay(ps, subs)) && Total(Replay(ps, subs)) == Total(ps) + |subs|
    decreases |subs|
  {
    if subs != [] {
      var next := Merge(ps, subs[0].key, subs[0].place);
      MergePreservesWellFormed(ps, subs[0].key, subs[0].place);
      MergeTotal(ps, subs[0].key, subs[0].place);
      ReplayInvariant(next, subs[1..]);
    }
  }

  /** Two nearby positions that round to the same milli-degrees merge into one point with count 2. */
  lemma NearbyPositionsMerge(ps: seq<Point>, first: string, second: string)
    requires forall j :: 0 <= j < |ps| ==> KeyOf(ps[j]) != Key(40713, -74006)
    ensures SubmittedKey(40.71279, -74.00601) == Key(40713, -74006)
    ensures SubmittedKey(40.71283, -74.00599) == Key(40713, -74006)
    ensures var r := Merge(Merge(ps, SubmittedKey(40.71279, -74.00601), first),
                           SubmittedKey(40.71283, -74.00599), second);
      |r| == |ps| + 1 && r[|ps|].count == 2
  {
    SubmitTwice(ps, Key(40713, -74006), first, second);
  }
}
