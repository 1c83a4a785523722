// The page controller of the eclipse map: which shadow mode is on, the one
// background worker that draws the shadow, the time-travel offset, the
// manual-location switch and the moon playback of the simulation page.
//
// Clock readings (`new Date()`) are parameters; the eclipse the user selected
// and its local circumstances at the user's position are parameters computed
// by code this model does not contain.

module EclipseUi {
  import opened Eclipses
  import opened AnimateWorker
  import opened OverlayMap

  /** A time-travel click lands this many milliseconds before its target. */
  const TIME_TRAVEL_OFFSET: int := 10000
  /** Period of the moon playback timer, in milliseconds. */
  const MOON_ANIMATE_INTERVAL: int := 250
  /** Speed-up of the accelerated moon playback. */
  const MOON_ANIMATE_SCALE: int := 200
  /** `setMinutes(getMinutes() ± 5)` and `± 30`, in milliseconds. */
  const FIVE_MINUTES: int := 5 * 60000
  const THIRTY_MINUTES: int := 30 * 60000
  /** The zoom `animateShadow` sets. */
  const ANIMATE_ZOOM: int := 3

  /**
   * A live worker, taken to be busy in the loop of the first message it
   * received (`real`, or `shadow` with a penumbra start, enters an endless
   * loop); every later message waits in `backlog` and is never handled.
   */
  datatype WorkerProc = WorkerProc(running: Message, backlog: seq<Message>)

  /** The message `animateShadow` posts. */
  function ShadowMsg(e: Eclipse): Message
  {
    Message("shadow", e, None)
  }

  /** The message `startRealTimeShadow` posts. */
  function RealMsg(e: Eclipse, offset: int): Message
  {
    Message("real", e, Some(offset))
  }

  /**
   * `postMessage` after `if (drawWorker == null) drawWorker = new Worker(...)`:
   * a new worker runs the message; an existing one only queues it.
   */
  function Deliver(w: Option<WorkerProc>, m: Message): WorkerProc
  {
    match w
    case None => WorkerProc(m, [])
    case Some(p) => p.(backlog := p.backlog + [m])
  }

  /** The worker after the page posts `ms` one after the other. */
  function DeliverAll(w: Option<WorkerProc>, ms: seq<Message>): Option<WorkerProc>
    decreases |ms|
  {
    if ms == [] then w else DeliverAll(Some(Deliver(w, ms[0])), ms[1..])
  }

  /**
   * For a worker whose first message entered its endless loop, only that
   * message is ever handled: whatever is posted afterwards queues behind
   * the loop, in order, so the frames it posts stay `OnMessage` of that
   * first message.
   */
  lemma {:induction false} DeliveriesQueueBehindFirst(w: Option<WorkerProc>, ms: seq<Message>)
    ensures w.Some? ==> DeliverAll(w, ms) == Some(WorkerProc(w.value.running, w.value.backlog + ms))
    ensures w.None? && ms != [] ==> DeliverAll(w, ms) == Some(WorkerProc(ms[0], ms[1..]))
    decreases |ms|
  {
    if ms == [] {
      assert w.Some? ==> w.value.backlog + ms == w.value.backlog;
    } else {
      DeliveriesQueueBehindFirst(Some(Deliver(w, ms[0])), ms[1..]);
      if w.Some? {
        assert Deliver(w, ms[0]) == WorkerProc(w.value.running, w.value.backlog + [ms[0]]);
        assert w.value.backlog + [ms[0]] + ms[1..] == w.value.backlog + ms;
      } else {
        assert [] + ms[1..] == ms[1..];
      }
    }
  }

  /** The map-centre latitude `animateShadow` uses: the mid-eclipse latitude clamped to [-45, 45]. */
  function ClampLatitude(lat: real): (r: real)
    ensures -45.0 <= r <= 45.0
    ensures -45.0 <= lat <= 45.0 ==> r == lat
    ensures lat > 45.0 ==> r == 45.0
    ensures lat < -45.0 ==> r == -45.0
  {
    var upper := if lat > 45.0 then 45.0 else lat;
    if upper < -45.0 then -45.0 else upper
  }

  /**
   * The offset a time-travel handler stores: the simulated clock lands
   * `TIME_TRAVEL_OFFSET` before the target; an invalid target date gives
   * NaN, which the handlers replace by 0.
   */
  function TimeTravelOffset(target: Option<int>, now: int): (offset: int)
    ensures target.None? ==> offset == 0
    ensures target.Some? ==> now + offset == target.value - TIME_TRAVEL_OFFSET
  {
    match target
    case None => 0
    case Some(t) => t - now - TIME_TRAVEL_OFFSET
  }

  /** The contact times a time-travel handler can jump to. */
  datatype Contact = FirstContact | SecondContact | MidEclipse | ThirdContact | FourthContact

  /**
   * The local circumstances of the selected eclipse: whether it is visible
   * and its contact times. The second and third contacts may be an invalid
   * date (None), as for an eclipse without a central phase at that place.
   */
  datatype Circumstances = Circumstances(isVisible: bool, c1: int, c2: Option<int>, mid: int, c3: Option<int>, c4: int)

  /** `getC1Date()` ... `getC4Date()` and `getMidDate()`. */
  function ContactDate(circ: Circumstances, contact: Contact): Option<int>
  {
    match contact
    case FirstContact => Some(circ.c1)
    case SecondContact => circ.c2
    case MidEclipse => Some(circ.mid)
    case ThirdContact => circ.c3
    case FourthContact => Some(circ.c4)
  }

  /**
   * One tick of `animateMoon` after the position is drawn: the time advances
   * by the timer period times the scale and wraps to the start once it is
   * past the stop time.
   */
  function MoonTick(time: int, start: int, stop: int, scale: int): int
  {
    var next := time + MOON_ANIMATE_INTERVAL * scale;
    if next > stop then start else next
  }

  /** `n` accelerated playback ticks from `time`. */
  function MoonTicks(time: int, start: int, stop: int, n: nat): int
    decreases n
  {
    if n == 0 then time else MoonTicks(MoonTick(time, start, stop, MOON_ANIMATE_SCALE), start, stop, n - 1)
  }

  /** A tick never leaves the playback window once inside it. */
  lemma MoonTickInWindow(time: int, start: int, stop: int, scale: nat)
    requires start <= time <= stop
    ensures start <= MoonTick(time, start, stop, scale) <= stop
  {
  }

  /** However many accelerated ticks run, the playback time stays in [start, stop]. */
  lemma {:induction false} MoonTicksInWindow(time: int, start: int, stop: int, n: nat)
    decreases n
    requires start <= time <= stop
    ensures start <= MoonTicks(time, start, stop, n) <= stop
  {
    if n > 0 {
      MoonTickInWindow(time, start, stop, MOON_ANIMATE_SCALE);
      MoonTicksInWindow(MoonTick(time, start, stop, MOON_ANIMATE_SCALE), start, stop, n - 1);
    }
  }

  /**
   * Until the stop time is passed, accelerated playback advances exactly
   * 250 * 200 ms of eclipse time per tick.
   */
  lemma {:induction false} MoonTicksAdvance(time: int, start: int, stop: int, n: nat)
    decreases n
    requires time + n * MOON_ANIMATE_INTERVAL * MOON_ANIMATE_SCALE <= stop
    ensures MoonTicks(time, start, stop, n) == time + n * MOON_ANIMATE_INTERVAL * MOON_ANIMATE_SCALE
  {
    if n > 0 {
      var next := time + MOON_ANIMATE_INTERVAL * MOON_ANIMATE_SCALE;
      assert MoonTick(time, start, stop, MOON_ANIMATE_SCALE) == next;
      MoonTicksAdvance(next, start, stop, n - 1);
    }
  }

  /** The tick that first passes the stop time jumps back to the start. */
  lemma MoonTickWraps(time: int, start: int, stop: int)
    requires time <= stop < time + MOON_ANIMATE_INTERVAL * MOON_ANIMATE_SCALE
    ensures MoonTick(time, start, stop, MOON_ANIMATE_SCALE) == start
  {
  }

  class UiState {
    const eclipseMap: EclipseMap
    var bAnimating: bool
    var bRealTimeShadow: bool
    /** The stray global `stopShadowAnimation` writes instead of `bRealTimeShadow`. */
    var bRealTimeSahdow: bool
    /** `drawWorker`; None for null. */
    var drawWorker: Option<WorkerProc>
    var dateOffset: int
    var bCenterEclipseMap: bool
    var bManualLocation: bool
    /** Workers created and terminated so far. */
    ghost var spawned: nat
    ghost var terminated: nat
    /** `moonInterval != null`: the playback timer is set. */
    var moonInterval: bool
    var bRealTimeMoon: bool
    var moonAnimateStartTime: Option<int>
    var moonAnimateTime: Option<int>
    var moonStopAnimateTime: Option<int>
    /** The stray global `stopAnimateMoon` writes instead of `moonStopAnimateTime`. */
    var moonAnimateStopTime: Option<int>

    /**
     * The map is consistent; at most one worker is alive and only while a
     * shadow mode is on; real-time moon playback runs on the timer, and the
     * timer runs with all three playback times set.
     */
    ghost predicate Valid()
      reads this, eclipseMap
    {
      eclipseMap.Valid() && PageValid()
    }

    /** The page's own part of `Valid`. */
    ghost predicate PageValid()
      reads this
    {
      && spawned == terminated + (if drawWorker.Some? then 1 else 0)
      && (drawWorker.Some? ==> bAnimating || bRealTimeShadow)
      && (bRealTimeMoon ==> moonInterval)
      && (moonInterval ==> moonAnimateStartTime.Some? && moonAnimateTime.Some? && moonStopAnimateTime.Some?)
    }

    /** The real-time worker draws with the page's current time-travel offset. */
    predicate Tracking()
      reads this
    {
      bRealTimeShadow ==>
        drawWorker.Some? && drawWorker.value.running.cmd == "real" &&
        drawWorker.value.running.dateOffset == Some(dateOffset)
    }

    constructor ()
      ensures Valid() && Tracking() && fresh(eclipseMap)
      ensures !bAnimating && !bRealTimeShadow && drawWorker.None? && dateOffset == 0
      ensures bCenterEclipseMap && !bManualLocation && !moonInterval && !bRealTimeMoon
      ensures moonAnimateStartTime.None? && moonAnimateTime.None? && moonStopAnimateTime.None?
      ensures spawned == 0 && terminated == 0
    {
      eclipseMap := new EclipseMap();
      bAnimating := false;
      bRealTimeShadow := false;
      bRealTimeSahdow := false;
      drawWorker := None;
      dateOffset := 0;
      bCenterEclipseMap := true;
      bManualLocation := false;
      spawned := 0;
      terminated := 0;
      moonInterval := false;
      bRealTimeMoon := false;
      moonAnimateStartTime := None;
      moonAnimateTime := None;
      moonStopAnimateTime := None;
      moonAnimateStopTime := None;
    }

    /**
     * `animateShadow`: turns on the animation, hands the eclipse to the
     * worker (creating it if there is none) and centres the map on the
     * mid-eclipse point with the latitude clamped to [-45, 45] at zoom 3.
     */
    method AnimateShadow(e: Eclipse)
      requires Valid()
      modifies this`bAnimating, this`drawWorker, this`spawned, eclipseMap`googleMap
      ensures Valid() && bAnimating
      ensures drawWorker == Some(Deliver(old(drawWorker), ShadowMsg(e)))
      ensures spawned == old(spawned) + (if old(drawWorker).None? then 1 else 0)
      ensures eclipseMap.googleMap ==
        if old(eclipseMap.googleMap).Some?
        then Some(MapView(LatLng(ClampLatitude(e.midPoint.latitude), e.midPoint.longitude), ANIMATE_ZOOM))
        else None
    {
      bAnimating := true;
      if drawWorker.None? {
        spawned := spawned + 1;
      }
      drawWorker := Some(Deliver(drawWorker, ShadowMsg(e)));
      var lat := e.midPoint.latitude;
      var long := e.midPoint.longitude;
      if lat > 45.0 {
        lat := 45.0;
      }
      if lat < -45.0 {
        lat := -45.0;
      }
      eclipseMap.SetCenter(lat, long);
      eclipseMap.SetZoom(ANIMATE_ZOOM);
    }

    /**
     * `startRealTimeShadow`: only when the simulated clock `now + dateOffset`
     * lies in the inclusive penumbra window, turns on real-time mode and
     * hands the eclipse and the offset to the worker (creating it if there
     * is none); otherwise changes nothing.
     */
    method StartRealTimeShadow(e: Eclipse, now: int)
      requires Valid()
      modifies this`bRealTimeShadow, this`drawWorker, this`spawned
      ensures Valid()
      ensures InPenumbraWindow(e, now + dateOffset) ==>
        bRealTimeShadow && drawWorker == Some(Deliver(old(drawWorker), RealMsg(e, dateOffset))) &&
        spawned == old(spawned) + (if old(drawWorker).None? then 1 else 0)
      ensures !InPenumbraWindow(e, now + dateOffset) ==>
        bRealTimeShadow == old(bRealTimeShadow) && drawWorker == old(drawWorker) && spawned == old(spawned)
    {
      var currentTime := now + dateOffset;
      if AtOrAfter(currentTime, e.penumbraStart) && currentTime <= e.penumbraEnd {
        bRealTimeShadow := true;
        if drawWorker.None? {
          spawned := spawned + 1;
        }
        drawWorker := Some(Deliver(drawWorker, RealMsg(e, dateOffset)));
      }
    }

    /** Terminates the worker, if any: `drawWorker.terminate(); drawWorker = null`. */
    method DropWorker()
      requires spawned == terminated + (if drawWorker.Some? then 1 else 0)
      modifies this`drawWorker, this`terminated
      ensures drawWorker.None? && spawned == terminated
      ensures terminated == old(terminated) + (if old(drawWorker).Some? then 1 else 0)
    {
      if drawWorker.Some? {
        terminated := terminated + 1;
        drawWorker := None;
      }
    }

    /**
     * `stopRealTimeShadow`: turns real-time mode off, clears both shadow
     * slots of the map and terminates the worker.
     */
    method StopRealTimeShadow()
      requires Valid()
      modifies this`bRealTimeShadow, this`drawWorker, this`terminated, eclipseMap`shape, eclipseMap`listener
      ensures Valid() && Tracking()
      ensures !bRealTimeShadow && drawWorker.None? && spawned == terminated
      ensures terminated == old(terminated) + (if old(drawWorker).Some? then 1 else 0)
      ensures eclipseMap.ShadowsClear()
      ensures eclipseMap.shape == old(eclipseMap.shape) - {UmbraShadow, PenumbraShadow}
      ensures eclipseMap.listener == old(eclipseMap.listener) - {UmbraShadow, PenumbraShadow}
      ensures old(eclipseMap.NoDangling()) ==> eclipseMap.NoDangling()
    {
      bRealTimeShadow := false;
      eclipseMap.ClearShadows();
      DropWorker();
    }

    /**
     * `stopShadowAnimation`: turns the animation off, clears both shadow
     * slots and terminates the worker. The line meant to turn real-time mode
     * off writes the stray `bRealTimeSahdow`, so `bRealTimeShadow` keeps its
     * value.
     */
    method StopShadowAnimation()
      requires Valid()
      modifies this`bAnimating, this`bRealTimeSahdow, this`drawWorker, this`terminated, eclipseMap`shape, eclipseMap`listener
      ensures Valid()
      ensures !bAnimating && !bRealTimeSahdow && drawWorker.None? && spawned == terminated
      ensures terminated == old(terminated) + (if old(drawWorker).Some? then 1 else 0)
      ensures eclipseMap.ShadowsClear()
      ensures eclipseMap.shape == old(eclipseMap.shape) - {UmbraShadow, PenumbraShadow}
      ensures eclipseMap.listener == old(eclipseMap.listener) - {UmbraShadow, PenumbraShadow}
      ensures old(eclipseMap.NoDangling()) ==> eclipseMap.NoDangling()
    {
      bAnimating := false;
      bRealTimeSahdow := false;
      eclipseMap.ClearShadows();
      DropWorker();
    }

    /**
     * `onAnimateClick`: stops real-time mode, then toggles the animation; a
     * started animation runs on a new worker with nothing queued, and the
     * map stops following the user.
     */
    method OnAnimateClick(e: Eclipse)
      requires Valid()
      modifies this`bAnimating, this`bRealTimeShadow, this`bRealTimeSahdow, this`drawWorker, this`spawned,
        this`terminated, this`bCenterEclipseMap, eclipseMap`shape, eclipseMap`listener, eclipseMap`googleMap
      ensures Valid() && Tracking()
      ensures !bRealTimeShadow && bAnimating == !old(bAnimating)
      ensures bAnimating ==> drawWorker == Some(WorkerProc(ShadowMsg(e), [])) && !bCenterEclipseMap
      ensures !bAnimating ==> drawWorker.None? && bCenterEclipseMap == old(bCenterEclipseMap)
      ensures old(bAnimating) ==> eclipseMap.googleMap == old(eclipseMap.googleMap)
      ensures !old(bAnimating) ==>
        eclipseMap.googleMap ==
          (if old(eclipseMap.googleMap).Some?
           then Some(MapView(LatLng(ClampLatitude(e.midPoint.latitude), e.midPoint.longitude), ANIMATE_ZOOM))
           else None)
      ensures old(bRealTimeShadow) || old(bAnimating) ==>
        eclipseMap.shape == old(eclipseMap.shape) - {UmbraShadow, PenumbraShadow} &&
        eclipseMap.listener == old(eclipseMap.listener) - {UmbraShadow, PenumbraShadow}
      ensures !(old(bRealTimeShadow) || old(bAnimating)) ==>
        eclipseMap.shape == old(eclipseMap.shape) && eclipseMap.listener == old(eclipseMap.listener)
      ensures old(eclipseMap.NoDangling()) ==> eclipseMap.NoDangling()
    {
      if bRealTimeShadow {
        StopRealTimeShadow();
      }
      if bAnimating {
        StopShadowAnimation();
      } else {
        bCenterEclipseMap := false;
        AnimateShadow(e);
      }
    }

    /**
     * `onRealTimeShadow`: stops the animation, then toggles real-time mode;
     * a started real-time mode runs on a new worker with nothing queued, and
     * starts only inside the penumbra window.
     */
    method OnRealTimeShadow(e: Eclipse, now: int)
      requires Valid()
      modifies this`bAnimating, this`bRealTimeShadow, this`bRealTimeSahdow, this`drawWorker, this`spawned,
        this`terminated, eclipseMap`shape, eclipseMap`listener
      ensures Valid() && Tracking()
      ensures !bAnimating
      ensures old(bRealTimeShadow) ==> !bRealTimeShadow && drawWorker.None?
      ensures !old(bRealTimeShadow) ==>
        (bRealTimeShadow <==> InPenumbraWindow(e, now + dateOffset)) &&
        (bRealTimeShadow ==> drawWorker == Some(WorkerProc(RealMsg(e, dateOffset), []))) &&
        (!bRealTimeShadow ==> drawWorker.None?)
      ensures old(bAnimating) || old(bRealTimeShadow) ==>
        eclipseMap.shape == old(eclipseMap.shape) - {UmbraShadow, PenumbraShadow} &&
        eclipseMap.listener == old(eclipseMap.listener) - {UmbraShadow, PenumbraShadow}
      ensures !(old(bAnimating) || old(bRealTimeShadow)) ==>
        eclipseMap.shape == old(eclipseMap.shape) && eclipseMap.listener == old(eclipseMap.listener)
      ensures old(eclipseMap.NoDangling()) ==> eclipseMap.NoDangling()
    {
      if bAnimating {
        StopShadowAnimation();
      }
      if bRealTimeShadow {
        StopRealTimeShadow();
      } else {
        StartRealTimeShadow(e, now);
      }
    }

    /**
     * Stops real-time mode and starts it again, as every time-travel handler
     * does after choosing its offset.
     */
    method RestartRealTimeShadow(e: Eclipse, now: int)
      requires Valid()
      modifies this`bRealTimeShadow, this`drawWorker, this`spawned, this`terminated, eclipseMap`shape, eclipseMap`listener
      ensures Valid() && Tracking()
      ensures bRealTimeShadow <==> InPenumbraWindow(e, now + dateOffset)
      ensures bRealTimeShadow ==> drawWorker == Some(WorkerProc(RealMsg(e, dateOffset), []))
      ensures !bRealTimeShadow ==> drawWorker.None?
      ensures eclipseMap.ShadowsClear()
      ensures eclipseMap.shape == old(eclipseMap.shape) - {UmbraShadow, PenumbraShadow}
      ensures eclipseMap.listener == old(eclipseMap.listener) - {UmbraShadow, PenumbraShadow}
      ensures old(eclipseMap.NoDangling()) ==> eclipseMap.NoDangling()
    {
      StopRealTimeShadow();
      StartRealTimeShadow(e, now);
    }

    /**
     * `onC1Click`, `onC2Click`, `onMidClick`, `onC3Click`, `onC4Click`: with
     * an eclipse selected, sets the offset so that the simulated clock lands
     * ten seconds before the chosen contact (0 for an invalid date) and
     * restarts real-time mode; without one, changes nothing. `clickNow` is
     * the handler's clock reading, `startNow` that of `startRealTimeShadow`.
     */
    method OnContactClick(selected: Option<Eclipse>, circ: Circumstances, contact: Contact, clickNow: int, startNow: int)
      requires Valid()
      modifies this`dateOffset, this`bRealTimeShadow, this`drawWorker, this`spawned, this`terminated,
        eclipseMap`shape, eclipseMap`listener
      ensures Valid()
      ensures selected.None? ==>
        dateOffset == old(dateOffset) && bRealTimeShadow == old(bRealTimeShadow) && drawWorker == old(drawWorker) &&
        terminated == old(terminated) && eclipseMap.shape == old(eclipseMap.shape) &&
        eclipseMap.listener == old(eclipseMap.listener)
      ensures selected.Some? ==>
        && Tracking()
        && dateOffset == TimeTravelOffset(ContactDate(circ, contact), clickNow)
        && (bRealTimeShadow <==> InPenumbraWindow(selected.value, startNow + dateOffset))
        && (bRealTimeShadow ==> drawWorker == Some(WorkerProc(RealMsg(selected.value, dateOffset), [])))
        && (!bRealTimeShadow ==> drawWorker.None?)
        && eclipseMap.shape == old(eclipseMap.shape) - {UmbraShadow, PenumbraShadow}
        && eclipseMap.listener == old(eclipseMap.listener) - {UmbraShadow, PenumbraShadow}
      ensures old(eclipseMap.NoDangling()) ==> eclipseMap.NoDangling()
    {
      if selected.Some? {
        var target := ContactDate(circ, contact);
        if target.Some? {
          dateOffset := target.value - clickNow - TIME_TRAVEL_OFFSET;
        } else {
          dateOffset := 0;
        }
        RestartRealTimeShadow(selected.value, startNow);
      }
    }

    /**
     * `onSunriseClick` and `onSunsetClick`: only with an eclipse selected, a
     * sun event time (None for no such time) and that time inside the
     * penumbra window, travels to ten seconds before it and restarts
     * real-time mode; otherwise changes nothing.
     */
    method OnSunEventClick(selected: Option<Eclipse>, sunTime: Option<int>, clickNow: int, startNow: int)
      requires Valid()
      modifies this`dateOffset, this`bRealTimeShadow, this`drawWorker, this`spawned, this`terminated,
        eclipseMap`shape, eclipseMap`listener
      ensures Valid()
      ensures !(selected.Some? && sunTime.Some? && InPenumbraWindow(selected.value, sunTime.value)) ==>
        dateOffset == old(dateOffset) && bRealTimeShadow == old(bRealTimeShadow) && drawWorker == old(drawWorker) &&
        terminated == old(terminated) && eclipseMap.shape == old(eclipseMap.shape) &&
        eclipseMap.listener == old(eclipseMap.listener)
      ensures selected.Some? && sunTime.Some? && InPenumbraWindow(selected.value, sunTime.value) ==>
        && Tracking()
        && clickNow + dateOffset == sunTime.value - TIME_TRAVEL_OFFSET
        && (bRealTimeShadow <==> InPenumbraWindow(selected.value, startNow + dateOffset))
        && (bRealTimeShadow ==> drawWorker == Some(WorkerProc(RealMsg(selected.value, dateOffset), [])))
        && (!bRealTimeShadow ==> drawWorker.None?)
        && eclipseMap.shape == old(eclipseMap.shape) - {UmbraShadow, PenumbraShadow}
        && eclipseMap.listener == old(eclipseMap.listener) - {UmbraShadow, PenumbraShadow}
      ensures old(eclipseMap.NoDangling()) ==> eclipseMap.NoDangling()
    {
      if selected.Some? {
        if sunTime.Some? {
          var e := selected.value;
          var sunrise := sunTime.value;
          if AtOrAfter(sunrise, e.penumbraStart) && sunrise <= e.penumbraEnd {
            dateOffset := sunrise - clickNow - TIME_TRAVEL_OFFSET;
            RestartRealTimeShadow(e, startNow);
          }
        }
      }
    }

    /**
     * `onTimeClick`: with no offset set it only opens the date picker;
     * otherwise it returns to the current time and, if real-time mode is on,
     * restarts it.
     */
    method OnTimeClick(e: Eclipse, now: int)
      requires Valid()
      modifies this`dateOffset, this`bRealTimeShadow, this`drawWorker, this`spawned, this`terminated,
        eclipseMap`shape, eclipseMap`listener
      ensures Valid()
      ensures old(dateOffset) == 0 ==>
        dateOffset == 0 && bRealTimeShadow == old(bRealTimeShadow) && drawWorker == old(drawWorker) &&
        terminated == old(terminated)
      ensures old(dateOffset) != 0 ==> dateOffset == 0
      ensures old(dateOffset) != 0 && !old(bRealTimeShadow) ==>
        !bRealTimeShadow && drawWorker == old(drawWorker) && terminated == old(terminated)
      ensures old(dateOffset) != 0 && old(bRealTimeShadow) ==>
        Tracking() && (bRealTimeShadow <==> InPenumbraWindow(e, now)) &&
        (bRealTimeShadow ==> drawWorker == Some(WorkerProc(RealMsg(e, 0), []))) &&
        (!bRealTimeShadow ==> drawWorker.None?)
      ensures old(dateOffset) != 0 && old(bRealTimeShadow) ==>
        eclipseMap.shape == old(eclipseMap.shape) - {UmbraShadow, PenumbraShadow} &&
        eclipseMap.listener == old(eclipseMap.listener) - {UmbraShadow, PenumbraShadow}
      ensures !(old(dateOffset) != 0 && old(bRealTimeShadow)) ==>
        eclipseMap.shape == old(eclipseMap.shape) && eclipseMap.listener == old(eclipseMap.listener)
      ensures old(eclipseMap.NoDangling()) ==> eclipseMap.NoDangling()
    {
      if dateOffset != 0 {
        dateOffset := 0;
        if bRealTimeShadow {
          RestartRealTimeShadow(e, now);
        }
      }
    }

    /**
     * `parseNewDate` as written: a valid chosen date sets the offset to it
     * and restarts real-time mode if on. For an invalid date the offset is
     * reset to 0 and the next statement calls the undefined `toasPop`, which
     * throws, so the restart is never reached.
     */
    method ParseNewDate(e: Eclipse, chosen: Option<int>, now: int, startNow: int)
      requires Valid()
      modifies this`dateOffset, this`bRealTimeShadow, this`drawWorker, this`spawned, this`terminated,
        eclipseMap`shape, eclipseMap`listener
      ensures Valid()
      ensures chosen.Some? ==> now + dateOffset == chosen.value
      ensures chosen.Some? ==> Tracking()
      ensures chosen.None? ==>
        dateOffset == 0 && bRealTimeShadow == old(bRealTimeShadow) && drawWorker == old(drawWorker)
      ensures chosen.Some? && !old(bRealTimeShadow) ==>
        !bRealTimeShadow && drawWorker == old(drawWorker) && terminated == old(terminated)
      ensures chosen.Some? && old(bRealTimeShadow) ==>
        (bRealTimeShadow <==> InPenumbraWindow(e, startNow + dateOffset)) &&
        (bRealTimeShadow ==> drawWorker == Some(WorkerProc(RealMsg(e, dateOffset), []))) &&
        (!bRealTimeShadow ==> drawWorker.None?)
      ensures chosen.Some? && old(bRealTimeShadow) ==>
        eclipseMap.shape == old(eclipseMap.shape) - {UmbraShadow, PenumbraShadow} &&
        eclipseMap.listener == old(eclipseMap.listener) - {UmbraShadow, PenumbraShadow}
      ensures !(chosen.Some? && old(bRealTimeShadow)) ==>
        eclipseMap.shape == old(eclipseMap.shape) && eclipseMap.listener == old(eclipseMap.listener)
      ensures old(eclipseMap.NoDangling()) ==> eclipseMap.NoDangling()
    {
      if chosen.Some? {
        dateOffset := chosen.value - now;
        if bRealTimeShadow {
          RestartRealTimeShadow(e, startNow);
        }
      } else {
        dateOffset := 0;
      }
    }

    /**
     * `parseNewDate` with the message call spelled `toastPop`: both
     * branches reach the restart, so the real-time worker always draws with
     * the offset the page now holds.
     */
    method ParseNewDateFixed(e: Eclipse, chosen: Option<int>, now: int, startNow: int)
      requires Valid()
      modifies this`dateOffset, this`bRealTimeShadow, this`drawWorker, this`spawned, this`terminated,
        eclipseMap`shape, eclipseMap`listener
      ensures Valid()
      ensures chosen.Some? ==> now + dateOffset == chosen.value
      ensures chosen.None? ==> dateOffset == 0
      ensures Tracking()
      ensures !old(bRealTimeShadow) ==>
        !bRealTimeShadow && drawWorker == old(drawWorker) && terminated == old(terminated)
      ensures old(bRealTimeShadow) ==>
        (bRealTimeShadow <==> InPenumbraWindow(e, startNow + dateOffset)) &&
        (bRealTimeShadow ==> drawWorker == Some(WorkerProc(RealMsg(e, dateOffset), []))) &&
        (!bRealTimeShadow ==> drawWorker.None?)
      ensures old(bRealTimeShadow) ==>
        eclipseMap.shape == old(eclipseMap.shape) - {UmbraShadow, PenumbraShadow} &&
        eclipseMap.listener == old(eclipseMap.listener) - {UmbraShadow, PenumbraShadow}
      ensures !(old(bRealTimeShadow)) ==>
        eclipseMap.shape == old(eclipseMap.shape) && eclipseMap.listener == old(eclipseMap.listener)
      ensures old(eclipseMap.NoDangling()) ==> eclipseMap.NoDangling()
    {
      if chosen.Some? {
        dateOffset := chosen.value - now;
      } else {
        dateOffset := 0;
      }
      if bRealTimeShadow {
        RestartRealTimeShadow(e, startNow);
      }
    }

    /**
     * `onShadowComplete`: clears both shadow slots and draws the frame's
     * penumbra and umbra into them; every other slot keeps its shape and its
     * listener.
     */
    method OnShadowComplete(frame: Frame)
      requires Valid()
      modifies eclipseMap`shape, eclipseMap`listener
      ensures Valid()
      ensures eclipseMap.Shows(PenumbraShadow, frame.penumbra) && eclipseMap.Shows(UmbraShadow, frame.umbra)
      ensures PenumbraShadow in eclipseMap.shape ==> fresh(eclipseMap.shape[PenumbraShadow])
      ensures PenumbraShadow in eclipseMap.listener ==> fresh(eclipseMap.listener[PenumbraShadow])
      ensures UmbraShadow in eclipseMap.shape ==> fresh(eclipseMap.shape[UmbraShadow])
      ensures UmbraShadow in eclipseMap.listener ==> fresh(eclipseMap.listener[UmbraShadow])
      ensures AgreeOffShadows(eclipseMap.shape, old(eclipseMap.shape))
      ensures AgreeOffShadows(eclipseMap.listener, old(eclipseMap.listener))
      ensures old(eclipseMap.NoDangling()) ==> eclipseMap.NoDangling()
    {
      eclipseMap.ShowShadows(frame.penumbra, frame.umbra);
    }

    /**
     * `switchManualMode`: a boolean argument chooses the mode (manual for
     * true), no argument toggles it; the map's manual mode follows.
     */
    method SwitchManualMode(force: Option<bool>)
      requires Valid()
      modifies this`bManualLocation, eclipseMap`bManualMode, eclipseMap`listener, eclipseMap`mapClickListener
      ensures Valid()
      ensures force.Some? ==> bManualLocation == force.value
      ensures force.None? ==> bManualLocation == !old(bManualLocation)
      ensures eclipseMap.bManualMode == bManualLocation
      ensures !bManualLocation ==> eclipseMap.listener == map[] && eclipseMap.mapClickListener == null
      ensures bManualLocation && eclipseMap.googleMap.Some? ==>
        eclipseMap.NoDangling() && eclipseMap.listener.Keys == eclipseMap.shape.Keys &&
        eclipseMap.mapClickListener != null && fresh(eclipseMap.mapClickListener)
      ensures bManualLocation && eclipseMap.googleMap.None? ==>
        eclipseMap.listener == old(eclipseMap.listener) && eclipseMap.mapClickListener == old(eclipseMap.mapClickListener)
      ensures old(eclipseMap.NoDangling()) ==> eclipseMap.NoDangling()
    {
      if force.Some? {
        bManualLocation := !force.value;
      }
      if bManualLocation {
        bManualLocation := false;
        eclipseMap.SetManualMode(Some(false));
      } else {
        bManualLocation := true;
        eclipseMap.SetManualMode(Some(true));
      }
    }

    /**
     * `stopAnimateMoon`: stops the playback timer and real-time playback and
     * clears the playback times; the stop time is written under the stray
     * name `moonAnimateStopTime`, so `moonStopAnimateTime` keeps its value.
     */
    method StopAnimateMoon()
      requires Valid()
      modifies this`bRealTimeMoon, this`moonInterval, this`moonAnimateTime, this`moonAnimateStartTime,
        this`moonAnimateStopTime
      ensures Valid()
      ensures !bRealTimeMoon && !moonInterval
      ensures moonAnimateTime.None? && moonAnimateStartTime.None? && moonAnimateStopTime.None?
    {
      bRealTimeMoon := false;
      if moonInterval {
        moonInterval := false;
      }
      moonAnimateTime := None;
      moonAnimateStartTime := None;
      moonAnimateStopTime := None;
    }

    /** The state part of `onMidSimClick`: it starts with `stopAnimateMoon`. */
    method OnMidSimClick()
      requires Valid()
      modifies this`bRealTimeMoon, this`moonInterval, this`moonAnimateTime, this`moonAnimateStartTime,
        this`moonAnimateStopTime
      ensures Valid()
      ensures !bRealTimeMoon && !moonInterval
      ensures moonAnimateTime.None? && moonAnimateStartTime.None? && moonAnimateStopTime.None?
    {
      StopAnimateMoon();
    }

    /**
     * `onSimAnimateClick`: a running playback is stopped; otherwise, for a
     * selected visible eclipse, accelerated playback starts at C1 inside the
     * window [C1 - 5 min, C4 + 5 min]; otherwise nothing changes.
     */
    method OnSimAnimateClick(selected: Option<Circumstances>)
      requires Valid()
      modifies this`bRealTimeMoon, this`moonInterval, this`moonAnimateTime, this`moonAnimateStartTime,
        this`moonStopAnimateTime, this`moonAnimateStopTime
      ensures Valid()
      ensures old(moonInterval) ==> !moonInterval && !bRealTimeMoon && moonAnimateTime.None?
      ensures !old(moonInterval) && selected.Some? && selected.value.isVisible ==>
        && moonInterval && !bRealTimeMoon
        && moonAnimateStartTime == Some(selected.value.c1 - FIVE_MINUTES)
        && moonAnimateTime == Some(selected.value.c1)
        && moonStopAnimateTime == Some(selected.value.c4 + FIVE_MINUTES)
      ensures !old(moonInterval) && !(selected.Some? && selected.value.isVisible) ==>
        !moonInterval && moonAnimateTime == old(moonAnimateTime)
    {
      if moonInterval {
        StopAnimateMoon();
        OnMidSimClick();
      } else if selected.Some? {
        var circ := selected.value;
        if circ.isVisible {
          moonAnimateStartTime := Some(circ.c1 - FIVE_MINUTES);
          moonAnimateTime := Some(circ.c1);
          moonStopAnimateTime := Some(circ.c4 + FIVE_MINUTES);
          moonInterval := true;
        }
      }
    }

    /**
     * `onSimRealTimeClick`: a running playback is stopped; otherwise, for a
     * selected visible eclipse, real-time playback starts only when the
     * simulated clock lies in [C1 - 30 min, C4 + 30 min], and outside it the
     * playback is reset by `onMidSimClick`.
     */
    method OnSimRealTimeClick(selected: Option<Circumstances>, now: int)
      requires Valid()
      modifies this`bRealTimeMoon, this`moonInterval, this`moonAnimateTime, this`moonAnimateStartTime,
        this`moonStopAnimateTime, this`moonAnimateStopTime
      ensures Valid()
      ensures old(moonInterval) ==> !moonInterval && !bRealTimeMoon && moonAnimateTime.None?
      ensures !old(moonInterval) && selected.Some? && selected.value.isVisible ==>
        && moonStopAnimateTime == Some(selected.value.c4 + THIRTY_MINUTES)
        && (moonInterval <==> selected.value.c1 - THIRTY_MINUTES <= now + dateOffset <= selected.value.c4 + THIRTY_MINUTES)
        && (moonInterval ==> bRealTimeMoon && moonAnimateTime == Some(now + dateOffset) &&
                             moonAnimateStartTime == Some(selected.value.c1 - THIRTY_MINUTES))
        && (!moonInterval ==> !bRealTimeMoon && moonAnimateTime.None? && moonAnimateStartTime.None?)
      ensures !old(moonInterval) && !(selected.Some? && selected.value.isVisible) ==>
        !moonInterval && moonAnimateTime == old(moonAnimateTime)
    {
      if moonInterval {
        StopAnimateMoon();
        OnMidSimClick();
      } else if selected.Some? {
        var circ := selected.value;
        if circ.isVisible {
          moonAnimateStartTime := Some(circ.c1 - THIRTY_MINUTES);
          moonAnimateTime := Some(now + dateOffset);
          moonStopAnimateTime := Some(circ.c4 + THIRTY_MINUTES);
          if moonAnimateTime.value >= moonAnimateStartTime.value && moonAnimateTime.value <= moonStopAnimateTime.value {
            bRealTimeMoon := true;
            moonInterval := true;
          } else {
            bRealTimeMoon := false;
            OnMidSimClick();
          }
        }
      }
    }

    /**
     * `animateMoon`, one timer tick: real-time playback first re-reads the
     * simulated clock; the time then advances by 250 ms, times 200 when
     * accelerated, and goes back to the start once past the stop time.
     */
    method AnimateMoon(now: int)
      requires Valid() && moonInterval
      modifies this`moonAnimateTime
      ensures Valid()
      ensures moonAnimateTime == Some(MoonTick(
        if bRealTimeMoon then now + dateOffset else old(moonAnimateTime).value,
        moonAnimateStartTime.value, moonStopAnimateTime.value,
        if bRealTimeMoon then 1 else MOON_ANIMATE_SCALE))
    {
      var animateScale := 1;
      if !bRealTimeMoon {
        animateScale := MOON_ANIMATE_SCALE;
      } else {
        moonAnimateTime := Some(now + dateOffset);
      }
      moonAnimateTime := Some(moonAnimateTime.value + MOON_ANIMATE_INTERVAL * animateScale);
      if moonAnimateTime.value > moonStopAnimateTime.value {
        moonAnimateTime := Some(moonAnimateStartTime.value);
      }
    }
  }

  /**
   * The `toasPop` slip on concrete calls: real-time mode was started with a
   * nonzero offset; choosing an invalid date resets the page's offset to 0
   * while the worker keeps drawing with the old offset.
   */
  method StaleOffsetWitness() returns (stale: bool)
    ensures stale
  {
    var ui := new UiState();
    var e := Eclipse(Total, Some(0), 1000000, 400000, 600000, GeoPoint(0.0, 0.0));
    ui.OnContactClick(Some(e), Circumstances(true, 500000, None, 500000, None, 500000), FirstContact, 0, 0);
    ui.ParseNewDate(e, None, 0, 0);
    stale := ui.bRealTimeShadow && !ui.Tracking();
  }

  /** The same calls through the corrected handler leave the worker in step. */
  method FixedOffsetWitness() returns (tracking: bool)
    ensures tracking
  {
    var ui := new UiState();
    var e := Eclipse(Total, Some(0), 1000000, 400000, 600000, GeoPoint(0.0, 0.0));
    ui.OnContactClick(Some(e), Circumstances(true, 500000, None, 500000, None, 500000), FirstContact, 0, 0);
    ui.ParseNewDateFixed(e, None, 0, 0);
    tracking := ui.Tracking();
  }
}
