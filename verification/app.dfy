/**
 * The application's point state and the submission handler that updates it.
 * The geolocation and the reverse-geocoding calls are inputs: the handler
 * receives the raw position and the lookup's answer.
 */
module App {
  import opened Wrappers
  import opened Rounding
  import opened Points
  import opened PlaceLabel
  import opened Leaderboard

  /** A position reported by the browser's geolocation, in degrees. */
  datatype Position = Position(latitude: real, longitude: real)

  /** The linear search of `findIndex`: the first point whose re-rounded key is `key`, or -1. */
  method FindExisting(prev: seq<Point>, key: Key) returns (idx: int)
    ensures idx == FindIndex(prev, key)
  {
    var i := 0;
    while i < |prev|
      invariant 0 <= i <= |prev|
      invariant forall j :: 0 <= j < i ==> KeyOf(prev[j]) != key
    {
      if ToMilli(prev[i].lat) == key.lat && ToMilli(prev[i].lng) == key.lng {
        return i;
      }
      i := i + 1;
    }
    return -1;
  }

  /**
   * The updater handed to the state setter: searches the previous snapshot, and either
   * copies it and overwrites the matching entry, or returns it with a new point appended.
   */
  method NextPoints(prev: seq<Point>, key: Key, place: string) returns (next: seq<Point>)
    ensures next == Merge(prev, key, place)
  {
    var existingPointIndex := FindExisting(prev, key);
    if existingPointIndex != -1 {
      var updatedPoints := new Point[|prev|](j requires 0 <= j < |prev| => prev[j]);
      assert updatedPoints[..] == prev;
      var existingPoint := updatedPoints[existingPointIndex];
      updatedPoints[existingPointIndex] := Bumped(existingPoint, place);
      next := updatedPoints[..];
    } else {
      next := prev + [NewPoint(key, place)];
    }
  }

  /** The component's state: the list of points shown on the globe. */
  class Gmonads {
    var points: seq<Point>

    ghost predicate Valid()
      reads this
    {
      WellFormed(points)
    }

    /** The state starts with no points. */
    constructor ()
      ensures Valid() && points == []
    {
      points := [];
    }

    /** The counter's value: the sum of all counts. */
    function TotalCount(): (n: int)
      reads this
      ensures Valid() ==> n >= |points|
    {
      TotalAtLeastLength(points);
      Total(points)
    }

    /** The leaderboard's list: the points, most visited first, ties in collection order. */
    function LeaderboardPoints(): (s: seq<Point>)
      reads this
      ensures multiset(s) == multiset(points) && NonIncreasing(s)
      ensures forall c :: WithCount(s, c) == WithCount(points, c)
    {
      SortIsPermutation(points);
      SortIsOrdered(points);
      forall c ensures WithCount(SortByCountDesc(points), c) == WithCount(points, c) {
        SortIsStable(points, c);
      }
      SortByCountDesc(points)
    }

    /**
     * The location button's handler. `position` is the geolocation outcome: `None` when
     * geolocation is unsupported or fails, which only alerts and leaves the points alone.
     * Otherwise the position is rounded to milli-degrees and merged into the points with
     * the label resolved from `lookup`, the reverse lookup's answer.
     */
    method AddCurrentLocation(position: Option<Position>, lookup: Option<Geocode>)
      requires Valid()
      modifies this
      ensures Valid()
      ensures position.None? ==> points == old(points)
      ensures position.Some? ==>
        points == Merge(old(points), SubmittedKey(position.value.latitude, position.value.longitude),
                        LocationLabel(lookup))
      ensures TotalCount() == old(TotalCount()) + (if position.Some? then 1 else 0)
    {
      if position.None? {
        return;
      }
      var roundedLat := ToMilli(position.value.latitude);
      var roundedLng := ToMilli(position.value.longitude);
      var locationString := LocationLabel(lookup);
      var key := Key(roundedLat, roundedLng);
      var next := NextPoints(points, key, locationString);
      MergePreservesWellFormed(points, key, locationString);
      MergeTotal(points, key, locationString);
      points := next;
    }
  }
}
