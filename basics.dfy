// Small value types shared by the statistics computer and the task points.

module Wrappers {
  /** A value that may be absent (an invalid location, an undefined record). */
  datatype Option<+T> = None | Some(value: T)
}

module Geo {
  /** A geographic coordinate; only its identity matters to this model. */
  datatype GeoPoint = GeoPoint(latitude: real, longitude: real)

  /** GeoPoint::DistanceS, which is not part of this model, supplied by the caller. */
  type DistanceFn = (GeoPoint, GeoPoint) -> real
}

module TimeStamps {
  /** TimeStamp: a flight-relative time in seconds, or Undefined. */
  datatype Stamp = Undefined | At(seconds: real)
  {
    predicate IsDefined() { At? }
  }
}

module CirclingInfo {
  /** Cruise/circling mode as produced by the circling detector. */
  datatype CirclingMode = Cruise | PossibleClimb | Climb | PossibleCruise
}
