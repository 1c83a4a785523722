// Values shared by the shadow worker, the overlay map and the page controller:
// the eclipse descriptor as the worker and the page read it, and the points the
// eclipse calculations hand out.

module Eclipses {

  datatype Option<+T> = None | Some(value: T)

  /** A point as the eclipse calculations produce it: `{latitude, longitude}`. */
  datatype GeoPoint = GeoPoint(latitude: real, longitude: real)

  /** A shadow outline or a limit line: the points in drawing order. */
  type Polygon = seq<GeoPoint>

  /** The eclipse `type` string; only the last three have an umbra. */
  datatype EclipseKind = Partial | Annular | Total | Hybrid

  /**
   * The parts of an `EclipseData` object the animation reads. Times are
   * milliseconds since the epoch. `penumbraStart` may be missing (JavaScript
   * null). `penumbraEnd` and, for the umbra kinds, `umbraStart`/`umbraEnd` are
   * taken to be present: the model gives them plain integers, although the
   * window checks compare `penumbraEnd` without a null guard of their own.
   */
  datatype Eclipse = Eclipse(
    kind: EclipseKind,
    penumbraStart: Option<int>,
    penumbraEnd: int,
    umbraStart: int,
    umbraEnd: int,
    midPoint: GeoPoint)

  /** `Annular`, `Total` or `Hybrid`: the eclipse has an umbra to draw. */
  predicate HasUmbra(e: Eclipse)
  {
    e.kind == Annular || e.kind == Total || e.kind == Hybrid
  }

  /**
   * `t >= bound` as JavaScript evaluates it between a Date and a Date-or-null:
   * a null bound converts to 0.
   */
  predicate AtOrAfter(t: int, bound: Option<int>)
  {
    match bound
    case None => t >= 0
    case Some(b) => t >= b
  }

  /** `t` lies in the inclusive penumbra window `[penumbraStart, penumbraEnd]`. */
  predicate InPenumbraWindow(e: Eclipse, t: int)
  {
    AtOrAfter(t, e.penumbraStart) && t <= e.penumbraEnd
  }

  /** `t` lies in the inclusive umbra window `[umbraStart, umbraEnd]`. */
  predicate InUmbraWindow(e: Eclipse, t: int)
  {
    e.umbraStart <= t <= e.umbraEnd
  }
}
