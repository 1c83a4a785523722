// The map overlay of the eclipse map page (the `EclipseMap` closure): nine
// slots, each owning at most one drawn shape and one click listener, and the
// manual-mode switch that decides whether shapes get listeners.
//
// The map widget is abstract: a shape or listener is an object whose identity
// is all that matters, and two ghost sets say which shapes are attached to the
// map and which listeners are registered with the event system.

module OverlayMap {
  import opened Eclipses

  /** Initial zoom of a new map, `DEFAULT_ZOOM`. */
  const DEFAULT_ZOOM: int := 3

  /** A point in the map widget's `{lat, lng}` form. */
  datatype LatLng = LatLng(lat: real, lng: real)

  /** The part of the map widget's state the page sets. */
  datatype MapView = MapView(center: LatLng, zoom: int)

  /** The nine overlay slots, one per shape field of the closure. */
  datatype Slot =
    | CentralPath
    | NorthUmbraLimit
    | SouthUmbraLimit
    | SouthPenumbraLimit
    | NorthPenumbraLimit
    | EastLimitLine
    | WestLimitLine
    | UmbraShadow
    | PenumbraShadow

  /** The slots drawn as filled polygons; the other seven are polylines. */
  predicate IsShadowSlot(slot: Slot)
  {
    slot == UmbraShadow || slot == PenumbraShadow
  }

  /** The options a shape is constructed with. */
  datatype Style =
    | LineStyle(strokeColor: string, strokeOpacity: real, strokeWeight: int)
    | FillStyle(strokeColor: string, strokeOpacity: real, strokeWeight: int, fillColor: string, fillOpacity: real)

  /** A shape on the map: a polyline or polygon over `path`. */
  class Shape {
    const path: seq<LatLng>
    const style: Style

    constructor (path: seq<LatLng>, style: Style)
      ensures this.path == path && this.style == style
    {
      this.path := path;
      this.style := style;
    }
  }

  /** What a click listener is attached to. */
  datatype Target = MapCanvas | OnShape(shape: Shape)

  /** A registered click listener. */
  class Listener {
    const target: Target

    constructor (target: Target)
      ensures this.target == target
    {
      this.target := target;
    }
  }

  /**
   * The colour a draw call uses: the argument verbatim when it is a string,
   * otherwise black.
   */
  function ColorCode(color: Option<string>): string
  {
    if color.Some? then color.value else "#000000"
  }

  /** The fill opacity of a polygon: the argument when it is a number, otherwise 0.1. */
  function OpacityNum(opacity: Option<real>): real
  {
    if opacity.Some? then opacity.value else 0.1
  }

  /** The colour each `draw*` wrapper passes for its slot. */
  function SlotColor(slot: Slot): string
  {
    match slot
    case CentralPath => "black"
    case NorthUmbraLimit => "#black"
    case SouthUmbraLimit => "#black"
    case SouthPenumbraLimit => "#FE2E2E"
    case NorthPenumbraLimit => "#FE2E2E"
    case EastLimitLine => "#FE2E2E"
    case WestLimitLine => "#FE2E2E"
    case UmbraShadow => "#000000"
    case PenumbraShadow => "#000000"
  }

  /** The opacity the two shadow wrappers pass. */
  function SlotOpacity(slot: Slot): real
  {
    if slot == UmbraShadow then 0.6 else 0.2
  }

  /** The style `drawPath` gives a polyline. */
  function PathStyle(color: Option<string>): Style
  {
    LineStyle(ColorCode(color), 1.0, 2)
  }

  /** The style `drawPoly` gives a polygon: stroke and fill share the colour. */
  function PolyStyle(color: Option<string>, opacity: Option<real>): Style
  {
    FillStyle(ColorCode(color), 1.0, 0, ColorCode(color), OpacityNum(opacity))
  }

  /**
   * A draw call without a colour strokes (and fills) in black, a polygon
   * without an opacity is filled at 0.1; given arguments are used as they are.
   */
  lemma DrawStyleDefaults(color: string, opacity: real)
    ensures PathStyle(None) == LineStyle("#000000", 1.0, 2)
    ensures PolyStyle(None, None) == FillStyle("#000000", 1.0, 0, "#000000", 0.1)
    ensures PathStyle(Some(color)).strokeColor == color
    ensures PolyStyle(Some(color), Some(opacity)) == FillStyle(color, 1.0, 0, color, opacity)
    ensures PolyStyle(Some(color), None).fillOpacity == 0.1 && PolyStyle(None, Some(opacity)).fillColor == "#000000"
  {
  }

  /** The style a shape drawn into `slot` by its wrapper gets. */
  function SlotStyle(slot: Slot): (st: Style)
    ensures !IsShadowSlot(slot) ==> st.LineStyle? && st.strokeWeight == 2 && st.strokeOpacity == 1.0
    ensures IsShadowSlot(slot) ==> st.FillStyle? && st.strokeWeight == 0 && st.fillColor == st.strokeColor == "#000000"
    ensures slot == CentralPath ==> st.strokeColor == "black"
    ensures slot == NorthUmbraLimit || slot == SouthUmbraLimit ==> st.strokeColor == "#black"
    ensures slot in {NorthPenumbraLimit, SouthPenumbraLimit, EastLimitLine, WestLimitLine} ==> st.strokeColor == "#FE2E2E"
    ensures slot == UmbraShadow ==> st.fillOpacity == 0.6
    ensures slot == PenumbraShadow ==> st.fillOpacity == 0.2
  {
    if IsShadowSlot(slot) then PolyStyle(Some(SlotColor(slot)), Some(SlotOpacity(slot)))
    else PathStyle(Some(SlotColor(slot)))
  }

  /** `path` is `coordinates` with each `{latitude, longitude}` turned into `{lat, lng}`, in order. */
  ghost predicate ConvertedFrom(path: seq<LatLng>, coordinates: seq<GeoPoint>)
  {
    |path| == |coordinates| &&
    forall i :: 0 <= i < |path| ==> path[i] == LatLng(coordinates[i].latitude, coordinates[i].longitude)
  }

  /** The `for` loop of `drawPath`/`drawPoly` that builds `centralCoordinates`. */
  method ToLatLngs(coordinates: seq<GeoPoint>) returns (centralCoordinates: seq<LatLng>)
    ensures ConvertedFrom(centralCoordinates, coordinates)
  {
    centralCoordinates := [];
    var i := 0;
    while i < |coordinates|
      invariant 0 <= i <= |coordinates|
      invariant ConvertedFrom(centralCoordinates, coordinates[..i])
    {
      centralCoordinates := centralCoordinates + [LatLng(coordinates[i].latitude, coordinates[i].longitude)];
      i := i + 1;
    }
    assert coordinates[..i] == coordinates;
  }

  /** `m1` and `m2` have the same keys and values except possibly at `k`. */
  ghost predicate AgreeOff<V>(m1: map<Slot, V>, m2: map<Slot, V>, k: Slot)
  {
    && (forall x :: x != k ==> (x in m1 <==> x in m2))
    && (forall x :: x != k && x in m1 && x in m2 ==> m1[x] == m2[x])
  }

  /** `m1` and `m2` have the same keys and values except possibly at the two shadow slots. */
  ghost predicate AgreeOffShadows<V>(m1: map<Slot, V>, m2: map<Slot, V>)
  {
    forall x :: !IsShadowSlot(x) ==> (x in m1 <==> x in m2) && (x in m1 ==> m1[x] == m2[x])
  }

  /** A map without keys is the empty map. */
  lemma NoKeysEmpty<K, V>(m: map<K, V>)
    requires forall k :: k !in m
    ensures m == map[] && m.Values == {}
  {
  }

  /** No shape is held by two slots. */
  ghost predicate Distinct(m: map<Slot, Shape>)
  {
    forall a, b :: a in m && b in m && a != b ==> m[a] != m[b]
  }

  /**
   * Replacing or removing one slot's shape, with a replacement no slot held
   * before, keeps the shapes distinct and takes the old shape off the map.
   */
  lemma {:induction false} ReplaceDetaches(m0: map<Slot, Shape>, m1: map<Slot, Shape>, slot: Slot)
    requires Distinct(m0) && AgreeOff(m1, m0, slot)
    requires slot in m1 ==> m1[slot] !in m0.Values
    ensures Distinct(m1)
    ensures slot in m0 ==> m0[slot] !in m1.Values
  {
    forall a, b | a in m1 && b in m1 && a != b
      ensures m1[a] != m1[b]
    {
      if a == slot {
        assert m1[b] == m0[b] && m0[b] in m0.Values;
      } else if b == slot {
        assert m1[a] == m0[a] && m0[a] in m0.Values;
      } else {
        assert a in m0 && b in m0;
      }
    }
    if slot in m0 {
      forall k | k in m1
        ensures m1[k] != m0[slot]
      {
        if k == slot {
          assert m0[slot] in m0.Values;
        } else {
          assert k in m0;
        }
      }
    }
  }

  /**
   * Every slot listener belongs to a slot that has a shape and listens on
   * that very shape.
   */
  ghost predicate Anchored(shape: map<Slot, Shape>, listener: map<Slot, Listener>)
  {
    forall s :: s in listener ==> s in shape && listener[s].target == OnShape(shape[s])
  }

  /**
   * What a `draw*` wrapper does to the listeners of anchored slots: writing a
   * new shape into `slot` (or emptying it) and replacing the slot's listener
   * only in manual mode with a new shape keeps everything anchored exactly
   * when the slot had no listener or got a new one; otherwise the old
   * listener still listens on the slot's old shape.
   */
  lemma {:induction false} DrawAnchoring(
    shape0: map<Slot, Shape>, listener0: map<Slot, Listener>,
    shape1: map<Slot, Shape>, listener1: map<Slot, Listener>, slot: Slot, manual: bool)
    requires Anchored(shape0, listener0)
    requires AgreeOff(shape1, shape0, slot) && AgreeOff(listener1, listener0, slot)
    requires slot in shape0 && slot in shape1 ==> shape1[slot] != shape0[slot]
    requires if manual && slot in shape1
      then slot in listener1 && listener1[slot].target == OnShape(shape1[slot])
      else listener1 == listener0
    ensures Anchored(shape1, listener1) <==> !(slot in listener0 && !(manual && slot in shape1))
    ensures slot in listener0 && !(manual && slot in shape1) ==>
      slot in shape0 && listener1[slot] == listener0[slot] && listener1[slot].target == OnShape(shape0[slot]) &&
      !(slot in shape1 && listener1[slot].target == OnShape(shape1[slot]))
  {
    if slot in listener0 && !(manual && slot in shape1) {
      assert slot in listener1 && !(slot in shape1 && listener1[slot].target == OnShape(shape1[slot]));
    } else {
      forall s | s in listener1
        ensures s in shape1 && listener1[s].target == OnShape(shape1[s])
      {
        if s != slot {
          assert s in listener0;
        }
      }
    }
  }

  /**
   * The releasing wrapper keeps anchored slots anchored: the slot's listener
   * is either dropped or a new one on the slot's new shape.
   */
  lemma {:induction false} ReleasingAnchoring(
    shape0: map<Slot, Shape>, listener0: map<Slot, Listener>,
    shape1: map<Slot, Shape>, listener1: map<Slot, Listener>, slot: Slot)
    requires Anchored(shape0, listener0)
    requires AgreeOff(shape1, shape0, slot) && AgreeOff(listener1, listener0, slot)
    requires slot in listener1 ==> slot in shape1 && listener1[slot].target == OnShape(shape1[slot])
    ensures Anchored(shape1, listener1)
  {
    forall s | s in listener1
      ensures s in shape1 && listener1[s].target == OnShape(shape1[s])
    {
      if s != slot {
        assert s in listener0;
      }
    }
  }

  /**
   * `drawPath`: detaches the previous shape of the slot (the caller drops it),
   * and returns a new polyline over the converted coordinates only when the
   * map exists and the coordinates are present and non-empty; otherwise null.
   */
  method DrawPath(hasMap: bool, coordinates: Option<seq<GeoPoint>>, color: Option<string>) returns (r: Shape?)
    ensures r != null <==> hasMap && coordinates.Some? && |coordinates.value| > 0
    ensures r != null ==> fresh(r) && ConvertedFrom(r.path, coordinates.value) && r.style == PathStyle(color)
  {
    r := null;
    if hasMap && coordinates.Some? {
      var colorCode := ColorCode(color);
      var centralCoordinates := ToLatLngs(coordinates.value);
      if |centralCoordinates| > 0 {
        r := new Shape(centralCoordinates, LineStyle(colorCode, 1.0, 2));
      }
    }
  }

  /**
   * `drawPoly`: as `DrawPath`, but the new shape is a filled polygon whose
   * fill opacity defaults to 0.1.
   */
  method DrawPoly(hasMap: bool, coordinates: Option<seq<GeoPoint>>, color: Option<string>, opacity: Option<real>)
    returns (r: Shape?)
    ensures r != null <==> hasMap && coordinates.Some? && |coordinates.value| > 0
    ensures r != null ==> fresh(r) && ConvertedFrom(r.path, coordinates.value) && r.style == PolyStyle(color, opacity)
  {
    r := null;
    if hasMap && coordinates.Some? {
      var colorCode := ColorCode(color);
      var opacityNum := OpacityNum(opacity);
      var centralCoordinates := ToLatLngs(coordinates.value);
      if |centralCoordinates| > 0 {
        r := new Shape(centralCoordinates, FillStyle(colorCode, 1.0, 0, colorCode, opacityNum));
      }
    }
  }

  /** The order in which `setMapClicks` binds the slots' listeners. */
  const ClickOrder: seq<Slot> :=
    [PenumbraShadow, UmbraShadow, CentralPath, NorthUmbraLimit, SouthUmbraLimit,
     SouthPenumbraLimit, NorthPenumbraLimit, EastLimitLine, WestLimitLine]

  /** The position of a slot in `ClickOrder`: every slot is bound exactly once. */
  function ClickRank(s: Slot): (r: nat)
    ensures r < |ClickOrder| && ClickOrder[r] == s
  {
    match s
    case PenumbraShadow => 0
    case UmbraShadow => 1
    case CentralPath => 2
    case NorthUmbraLimit => 3
    case SouthUmbraLimit => 4
    case SouthPenumbraLimit => 5
    case NorthPenumbraLimit => 6
    case EastLimitLine => 7
    case WestLimitLine => 8
  }

  /** `ClickRank` inverts indexing into `ClickOrder`: the order lists no slot twice. */
  lemma ClickRankOfIndex(i: nat)
    requires i < |ClickOrder|
    ensures ClickRank(ClickOrder[i]) == i
  {
    if i == 0 {
    } else if i == 1 {
    } else if i == 2 {
    } else if i == 3 {
    } else if i == 4 {
    } else if i == 5 {
    } else if i == 6 {
    } else if i == 7 {
    } else {
    }
  }

  class EclipseMap {
    /** The map widget, None while `map` is null. */
    var googleMap: Option<MapView>
    var bIsReady: bool
    var bManualMode: bool
    /**
     * The nine shape fields; a slot absent from the map is null. A shape is
     * attached to the map widget exactly while a slot holds it.
     */
    var shape: map<Slot, Shape>
    /**
     * The nine per-slot listener fields; a slot absent from the map is null.
     * A listener is registered exactly while a field holds it.
     */
    var listener: map<Slot, Listener>
    /** `mapClickListener`. */
    var mapClickListener: Listener?

    /** The shapes attached to the map widget. */
    ghost function OnMap(): set<Shape>
      reads this`shape
    {
      shape.Values
    }

    /** The listeners registered with the event system. */
    ghost function Registered(): set<Listener>
      reads this`listener, this`mapClickListener
    {
      listener.Values + (if mapClickListener == null then {} else {mapClickListener})
    }

    /**
     * The map is ready exactly when it exists; slot listeners listen on
     * shapes and the map listener on the map.
     */
    ghost predicate Valid()
      reads this
    {
      && bIsReady == googleMap.Some?
      && (forall s :: s in listener ==> listener[s].target.OnShape?)
      && (mapClickListener != null ==> mapClickListener.target == MapCanvas)
    }

    /**
     * No dangling listener: every slot listener belongs to a slot that has a
     * shape and is attached to that very shape.
     */
    ghost predicate NoDangling()
      reads this`listener, this`shape
    {
      Anchored(shape, listener)
    }

    /** One shape per slot: no two slots hold the same shape. */
    ghost predicate DistinctShapes()
      reads this`shape
    {
      Distinct(shape)
    }

    /** Both shadow slots have neither shape nor listener. */
    ghost predicate ShadowsClear()
      reads this`listener, this`shape
    {
      UmbraShadow !in shape && PenumbraShadow !in shape &&
      UmbraShadow !in listener && PenumbraShadow !in listener
    }

    constructor ()
      ensures Valid() && NoDangling() && DistinctShapes()
      ensures googleMap.None? && !bManualMode
      ensures shape == map[] && listener == map[] && mapClickListener == null
    {
      googleMap := None;
      bIsReady := false;
      bManualMode := false;
      shape := map[];
      listener := map[];
      mapClickListener := null;
    }

    /** `isReady`: true exactly once the map widget has been created. */
    method IsReady() returns (ready: bool)
      requires Valid()
      ensures ready <==> googleMap.Some?
    {
      ready := bIsReady;
    }

    /**
     * `setCanvas`: creates the map, centred at (34, -118) with the default
     * zoom, when the maps library is loaded; otherwise changes nothing.
     */
    method SetCanvas(googleLoaded: bool)
      requires Valid()
      modifies this`googleMap, this`bIsReady
      ensures Valid()
      ensures googleLoaded ==> googleMap == Some(MapView(LatLng(34.0, -118.0), DEFAULT_ZOOM)) && bIsReady
      ensures !googleLoaded ==> googleMap == old(googleMap) && bIsReady == old(bIsReady)
    {
      if googleLoaded {
        googleMap := Some(MapView(LatLng(34.0, -118.0), DEFAULT_ZOOM));
        bIsReady := true;
      }
    }

    /** `setCenter`: recentres the map, if there is one. */
    method SetCenter(latitude: real, longitude: real)
      modifies this`googleMap
      ensures googleMap == if old(googleMap).Some? then Some(old(googleMap).value.(center := LatLng(latitude, longitude))) else None
    {
      if googleMap.Some? {
        googleMap := Some(googleMap.value.(center := LatLng(latitude, longitude)));
      }
    }

    /** `setZoom`: rezooms the map, if there is one. */
    method SetZoom(zoom: int)
      modifies this`googleMap
      ensures googleMap == if old(googleMap).Some? then Some(old(googleMap).value.(zoom := zoom)) else None
    {
      if googleMap.Some? {
        googleMap := Some(googleMap.value.(zoom := zoom));
      }
    }

    /** Removes one slot's listener from the event system, if any. */
    method UnbindSlot(slot: Slot)
      requires Valid()
      modifies this`listener
      ensures Valid()
      ensures slot !in listener && AgreeOff(listener, old(listener), slot)
      ensures listener == old(listener) - {slot}
    {
      if slot in listener {
        listener := listener - {slot};
      }
    }

    /**
     * Registers a fresh listener on a slot's shape, if the slot has one, and
     * stores it in the slot's listener field.
     */
    method BindSlot(slot: Slot)
      requires Valid()
      modifies this`listener
      ensures Valid()
      ensures AgreeOff(listener, old(listener), slot)
      ensures slot in listener <==> slot in old(listener) || slot in shape
      ensures slot !in shape ==> listener == old(listener)
      ensures slot in shape ==> fresh(listener[slot]) && listener[slot].target == OnShape(shape[slot])
    {
      if slot in shape {
        var l := new Listener(OnShape(shape[slot]));
        listener := listener[slot := l];
      }
    }

    /** The shape drawing part of a `draw*` wrapper: its `drawPath`/`drawPoly` call. */
    method Redraw(slot: Slot, coordinates: Option<seq<GeoPoint>>)
      modifies this`shape
      ensures slot in shape <==> googleMap.Some? && coordinates.Some? && |coordinates.value| > 0
      ensures slot in shape ==>
        fresh(shape[slot]) && ConvertedFrom(shape[slot].path, coordinates.value) && shape[slot].style == SlotStyle(slot)
      ensures AgreeOff(shape, old(shape), slot)
      ensures old(DistinctShapes()) ==> DistinctShapes()
      ensures old(DistinctShapes()) && slot in old(shape) ==> old(shape)[slot] !in OnMap()
    {
      var drawn: Shape?;
      if IsShadowSlot(slot) {
        drawn := DrawPoly(googleMap.Some?, coordinates, Some(SlotColor(slot)), Some(SlotOpacity(slot)));
      } else {
        drawn := DrawPath(googleMap.Some?, coordinates, Some(SlotColor(slot)));
      }
      shape := if drawn == null then shape - {slot} else shape[slot := drawn];
      if old(DistinctShapes()) {
        if drawn != null {
          forall k | k in old(shape)
            ensures old(shape)[k] != drawn
          {
          }
        }
        ReplaceDetaches(old(shape), shape, slot);
      }
    }

    /**
     * A `draw*` wrapper (`drawCentralPath` ... `drawPenumbraShadow`): redraws
     * the slot with its own style; in manual mode with a new shape, replaces
     * the slot's listener by a fresh one on the new shape. Otherwise the
     * listener field is left alone, so a redraw that leaves the slot empty,
     * or a redraw outside manual mode, keeps the old listener registered on a
     * shape that is no longer on the map.
     */
    method DrawSlot(slot: Slot, coordinates: Option<seq<GeoPoint>>)
      requires Valid()
      modifies this`shape, this`listener
      ensures Valid()
      ensures slot in shape <==> googleMap.Some? && coordinates.Some? && |coordinates.value| > 0
      ensures slot in shape ==>
        fresh(shape[slot]) && ConvertedFrom(shape[slot].path, coordinates.value) && shape[slot].style == SlotStyle(slot)
      ensures AgreeOff(shape, old(shape), slot)
      ensures old(DistinctShapes()) ==> DistinctShapes()
      ensures old(DistinctShapes()) && slot in old(shape) ==> old(shape)[slot] !in OnMap()
      ensures if bManualMode && slot in shape
        then slot in listener && fresh(listener[slot]) && listener[slot].target == OnShape(shape[slot]) &&
             AgreeOff(listener, old(listener), slot)
        else listener == old(listener)
      ensures old(NoDangling()) ==>
        (NoDangling() <==> !(slot in old(listener) && !(bManualMode && slot in shape)))
      ensures old(NoDangling()) && slot in old(listener) && !(bManualMode && slot in shape) ==>
        listener[slot] == old(listener)[slot] && listener[slot].target == OnShape(old(shape)[slot])
    {
      Redraw(slot, coordinates);
      if bManualMode && slot in shape {
        UnbindSlot(slot);
        BindSlot(slot);
      }
      if old(NoDangling()) {
        DrawAnchoring(old(shape), old(listener), shape, listener, slot, bManualMode);
      }
    }

    /**
     * The wrapper with the listener handled as its shape: whenever the slot's
     * shape is replaced or removed, the slot's old listener goes with it.
     */
    method DrawSlotReleasing(slot: Slot, coordinates: Option<seq<GeoPoint>>)
      requires Valid()
      modifies this`shape, this`listener
      ensures Valid()
      ensures slot in shape <==> googleMap.Some? && coordinates.Some? && |coordinates.value| > 0
      ensures slot in shape ==>
        fresh(shape[slot]) && ConvertedFrom(shape[slot].path, coordinates.value) && shape[slot].style == SlotStyle(slot)
      ensures AgreeOff(shape, old(shape), slot)
      ensures old(DistinctShapes()) ==> DistinctShapes()
      ensures old(DistinctShapes()) && slot in old(shape) ==> old(shape)[slot] !in OnMap()
      ensures bManualMode && slot in shape ==>
        slot in listener && fresh(listener[slot]) && listener[slot].target == OnShape(shape[slot])
      ensures !(bManualMode && slot in shape) ==> slot !in listener
      ensures AgreeOff(listener, old(listener), slot)
      ensures old(NoDangling()) ==> NoDangling()
    {
      Redraw(slot, coordinates);
      UnbindSlot(slot);
      if bManualMode && slot in shape {
        BindSlot(slot);
      }
      if old(NoDangling()) {
        ReleasingAnchoring(old(shape), old(listener), shape, listener, slot);
      }
    }

    /** The two statements `clearShadows` and `clearPaths` repeat for each slot. */
    method ClearSlot(slot: Slot)
      requires Valid()
      modifies this`shape, this`listener
      ensures Valid()
      ensures shape == old(shape) - {slot} && listener == old(listener) - {slot}
      ensures forall s :: s in shape ==> s in old(shape) && s != slot
      ensures forall s :: s in listener ==> s in old(listener) && s != slot
      ensures old(DistinctShapes()) && slot in old(shape) ==> old(shape)[slot] !in OnMap()
    {
      UnbindSlot(slot);
      if slot in shape {
        shape := shape - {slot};
      }
      if old(DistinctShapes()) {
        ReplaceDetaches(old(shape), shape, slot);
      }
    }

    /**
     * `clearShadows`: both shadow slots end with neither shape nor listener;
     * the other slots are untouched; called on clear shadows it changes nothing.
     */
    method ClearShadows()
      requires Valid()
      modifies this`shape, this`listener
      ensures Valid() && ShadowsClear()
      ensures shape == old(shape) - {UmbraShadow, PenumbraShadow}
      ensures listener == old(listener) - {UmbraShadow, PenumbraShadow}
      ensures old(ShadowsClear()) ==> shape == old(shape) && listener == old(listener)
      ensures old(NoDangling()) ==> NoDangling()
      ensures forall s :: s in shape ==> s in old(shape) && s != UmbraShadow && s != PenumbraShadow
      ensures forall s :: s in listener ==> s in old(listener) && s != UmbraShadow && s != PenumbraShadow
    {
      ClearSlot(UmbraShadow);
      ClearSlot(PenumbraShadow);
    }

    /**
     * What the slot's wrapper leaves after drawing `coordinates` into a slot
     * that had neither shape nor listener: a shape exactly when there is a
     * map and a non-empty point list, converted and styled for the slot, and
     * a listener on that shape exactly when manual mode is on.
     */
    ghost predicate Shows(slot: Slot, coordinates: Option<seq<GeoPoint>>)
      reads this`shape, this`listener, this`googleMap, this`bManualMode
    {
      && (slot in shape <==> googleMap.Some? && coordinates.Some? && |coordinates.value| > 0)
      && (slot in shape ==>
            ConvertedFrom(shape[slot].path, coordinates.value) && shape[slot].style == SlotStyle(slot))
      && (slot in listener <==> bManualMode && slot in shape)
      && (slot in listener ==> listener[slot].target == OnShape(shape[slot]))
    }

    /**
     * One `if (shadow != null) eclipseMap.draw*Shadow(shadow)` step of the
     * page's frame handler, run right after `clearShadows`. The slot has no
     * listener then, so the wrapper as written leaves nothing dangling.
     */
    method DrawShadow(slot: Slot, shadow: Option<seq<GeoPoint>>)
      requires Valid() && slot !in shape && slot !in listener
      modifies this`shape, this`listener
      ensures Valid() && Shows(slot, shadow)
      ensures slot in shape ==> fresh(shape[slot])
      ensures slot in listener ==> fresh(listener[slot])
      ensures AgreeOff(shape, old(shape), slot) && AgreeOff(listener, old(listener), slot)
      ensures old(NoDangling()) ==> NoDangling()
    {
      if shadow.Some? {
        DrawSlot(slot, shadow);
      }
    }

    /**
     * The map calls of a completed shadow frame: clear both shadow slots, then
     * draw each polygon the frame has; every other slot keeps its shape and
     * its listener.
     */
    method ShowShadows(penumbra: Option<seq<GeoPoint>>, umbra: Option<seq<GeoPoint>>)
      requires Valid()
      modifies this`shape, this`listener
      ensures Valid()
      ensures Shows(PenumbraShadow, penumbra) && Shows(UmbraShadow, umbra)
      ensures PenumbraShadow in shape ==> fresh(shape[PenumbraShadow])
      ensures PenumbraShadow in listener ==> fresh(listener[PenumbraShadow])
      ensures UmbraShadow in shape ==> fresh(shape[UmbraShadow])
      ensures UmbraShadow in listener ==> fresh(listener[UmbraShadow])
      ensures AgreeOffShadows(shape, old(shape)) && AgreeOffShadows(listener, old(listener))
      ensures old(NoDangling()) ==> NoDangling()
    {
      ClearShadows();
      ghost var shape1, listener1 := shape, listener;
      DrawShadow(PenumbraShadow, penumbra);
      ghost var shape2, listener2 := shape, listener;
      DrawShadow(UmbraShadow, umbra);
      forall x | !IsShadowSlot(x)
        ensures (x in shape <==> x in old(shape)) && (x in shape ==> shape[x] == old(shape)[x])
        ensures (x in listener <==> x in old(listener)) && (x in listener ==> listener[x] == old(listener)[x])
      {
        assert x in shape <==> x in shape2;
        assert x in listener <==> x in listener2;
      }
    }

    /**
     * `clearPaths`: every slot ends with neither shape nor listener, the last
     * two by way of `clearShadows`; the map's own listener stays.
     */
    method ClearPaths()
      requires Valid()
      modifies this`shape, this`listener
      ensures Valid() && NoDangling()
      ensures shape == map[] && listener == map[] && OnMap() == {}
      ensures Registered() == if mapClickListener == null then {} else {mapClickListener}
    {
      ClearSlot(CentralPath);
      ClearSlot(NorthUmbraLimit);
      ClearSlot(SouthUmbraLimit);
      ClearSlot(SouthPenumbraLimit);
      ClearSlot(NorthPenumbraLimit);
      ClearSlot(EastLimitLine);
      ClearSlot(WestLimitLine);
      ClearShadows();
      forall s: Slot
        ensures s !in shape && s !in listener
      {
        match s {
          case CentralPath =>
          case NorthUmbraLimit =>
          case SouthUmbraLimit =>
          case SouthPenumbraLimit =>
          case NorthPenumbraLimit =>
          case EastLimitLine =>
          case WestLimitLine =>
          case UmbraShadow =>
          case PenumbraShadow =>
        }
      }
      NoKeysEmpty(shape);
      NoKeysEmpty(listener);
    }

    /** `removeMapClicks`: all ten listener fields end null and nothing stays registered. */
    method RemoveMapClicks()
      requires Valid()
      modifies this`listener, this`mapClickListener
      ensures Valid() && NoDangling()
      ensures listener == map[] && mapClickListener == null && Registered() == {}
    {
      if mapClickListener != null {
        mapClickListener := null;
      }
      UnbindSlot(PenumbraShadow);
      UnbindSlot(UmbraShadow);
      UnbindSlot(CentralPath);
      UnbindSlot(NorthUmbraLimit);
      UnbindSlot(SouthUmbraLimit);
      UnbindSlot(SouthPenumbraLimit);
      UnbindSlot(NorthPenumbraLimit);
      UnbindSlot(EastLimitLine);
      UnbindSlot(WestLimitLine);
      forall s: Slot
        ensures s !in listener
      {
        match s {
          case CentralPath =>
          case NorthUmbraLimit =>
          case SouthUmbraLimit =>
          case SouthPenumbraLimit =>
          case NorthPenumbraLimit =>
          case EastLimitLine =>
          case WestLimitLine =>
          case UmbraShadow =>
          case PenumbraShadow =>
        }
      }
      NoKeysEmpty(listener);
    }

    /**
     * `setMapClicks`: removes every listener, then, only if the map exists,
     * adds one fresh listener on the map and one on each slot's shape.
     */
    method SetMapClicks()
      requires Valid()
      modifies this`listener, this`mapClickListener
      ensures Valid() && NoDangling()
      ensures googleMap.Some? ==>
        mapClickListener != null && fresh(mapClickListener) && listener.Keys == shape.Keys &&
        forall s :: s in listener ==> fresh(listener[s])
      ensures googleMap.None? ==> listener == map[] && mapClickListener == null
    {
      RemoveMapClicks();
      if googleMap.Some? {
        var l := new Listener(MapCanvas);
        mapClickListener := l;
        for i := 0 to |ClickOrder|
          invariant Valid() && mapClickListener == l
          invariant forall s :: s in listener <==> s in shape && ClickRank(s) < i
          invariant forall s :: s in listener ==> fresh(listener[s]) && listener[s].target == OnShape(shape[s])
        {
          ClickRankOfIndex(i);
          BindSlot(ClickOrder[i]);
        }
        assert listener.Keys == shape.Keys;
        assert NoDangling();
      }
    }

    /**
     * `setManualMode`: `Some(false)` leaves manual mode and removes every
     * listener; `Some(true)` and a non-boolean argument (None) enter manual
     * mode and, if the map exists, rebind the listeners.
     */
    method SetManualMode(mode: Option<bool>)
      requires Valid()
      modifies this`bManualMode, this`listener, this`mapClickListener
      ensures Valid()
      ensures bManualMode == (mode != Some(false))
      ensures !bManualMode ==> listener == map[] && mapClickListener == null && Registered() == {}
      ensures bManualMode && googleMap.Some? ==>
        NoDangling() && listener.Keys == shape.Keys && mapClickListener != null && fresh(mapClickListener)
      ensures bManualMode && googleMap.None? ==>
        listener == old(listener) && mapClickListener == old(mapClickListener)
      ensures old(NoDangling()) ==> NoDangling()
    {
      if mode.Some? {
        bManualMode := mode.value;
        if mode.value {
          if googleMap.Some? {
            SetMapClicks();
          }
        } else {
          RemoveMapClicks();
        }
      } else {
        bManualMode := true;
        if googleMap.Some? {
          SetMapClicks();
        }
      }
    }
  }

  /**
   * The leak, on concrete calls: in manual mode, draw the central path and
   * then draw it again with no points; the slot keeps a listener although it
   * has no shape.
   */
  method LeakWitness() returns (leaked: bool)
    ensures leaked
  {
    var m := new EclipseMap();
    m.SetCanvas(true);
    m.SetManualMode(Some(true));
    m.DrawSlot(CentralPath, Some([GeoPoint(0.0, 0.0)]));
    m.DrawSlot(CentralPath, Some([]));
    leaked := CentralPath in m.listener && CentralPath !in m.shape;
  }

  /** The same calls through the releasing wrapper leave nothing behind. */
  method ReleasingWitness() returns (clean: bool)
    ensures clean
  {
    var m := new EclipseMap();
    m.SetCanvas(true);
    m.SetManualMode(Some(true));
    m.DrawSlotReleasing(CentralPath, Some([GeoPoint(0.0, 0.0)]));
    m.DrawSlotReleasing(CentralPath, Some([]));
    clean := CentralPath !in m.listener && CentralPath !in m.shape;
  }
}
