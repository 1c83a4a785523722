// The background worker that produces the Moon's shadow frames: its message
// dispatch and its two endless loops, each run here over a finite trace of
// wall-clock readings, with `postMessage` appending to an outbox.

module AnimateWorker {
  import opened Eclipses

  /** Simulated milliseconds per wall-clock millisecond in accelerated mode. */
  const ANIMATE_SCALE: int := 200

  /**
   * The shadow geometry of one eclipse (`drawPenumbraShadow` and
   * `drawUmbraShadow`), computed elsewhere; either may give no polygon.
   */
  datatype Geometry = Geometry(penumbraAt: int -> Option<Polygon>, umbraAt: int -> Option<Polygon>)

  /**
   * A `shadow_done` message: the two polygons (JSON null when absent) and the
   * simulated date they belong to.
   */
  datatype Frame = Frame(penumbra: Option<Polygon>, umbra: Option<Polygon>, date: int)

  /**
   * A message from the page: `cmd`, the eclipse, and for `real` the time-travel
   * offset (`None` where `parseInt` gives NaN).
   */
  datatype Message = Message(cmd: string, eclipse: Eclipse, dateOffset: Option<int>)

  /**
   * The clock readings one loop iteration takes: `current` is the first
   * `new Date()` of the iteration, `stamp` the one the accelerated loop keeps
   * as `lastAnimateTime`.
   */
  datatype Tick = Tick(current: int, stamp: int)

  /** `parseInt(msg.dateOffset)`, with NaN replaced by 0. */
  function OffsetOrZero(offset: Option<int>): int
  {
    if offset.Some? then offset.value else 0
  }

  // ---------------------------------------------------------------------------
  // Real-time loop (drawRealShadow)
  // ---------------------------------------------------------------------------

  /** The two polygons the real-time loop keeps between iterations. */
  datatype Layer = PenumbraLayer | UmbraLayer

  /** Whether the real-time loop recomputes `layer` at simulated time `t`. */
  predicate Recomputes(e: Eclipse, layer: Layer, t: int)
  {
    match layer
    case PenumbraLayer => InPenumbraWindow(e, t)
    case UmbraLayer => HasUmbra(e) && InUmbraWindow(e, t)
  }

  function Draw(geo: Geometry, layer: Layer, t: int): Option<Polygon>
  {
    match layer
    case PenumbraLayer => geo.penumbraAt(t)
    case UmbraLayer => geo.umbraAt(t)
  }

  /** The simulated times `now + dateOffset` of a run of iterations. */
  function SimTimes(ticks: seq<Tick>, offset: int): seq<int>
  {
    seq(|ticks|, i requires 0 <= i < |ticks| => ticks[i].current + offset)
  }

  /**
   * The polygon `layer` holds after iterations at `times`: the one computed at
   * the last time that recomputed it, or None when none did.
   */
  function Latest(e: Eclipse, geo: Geometry, layer: Layer, times: seq<int>): Option<Polygon>
    decreases |times|
  {
    if times == [] then None
    else if Recomputes(e, layer, times[|times| - 1]) then Draw(geo, layer, times[|times| - 1])
    else Latest(e, geo, layer, times[..|times| - 1])
  }

  /** The frames the real-time loop posts, one per iteration. */
  function RealTimeFrames(e: Eclipse, geo: Geometry, offset: int, ticks: seq<Tick>): seq<Frame>
  {
    var times := SimTimes(ticks, offset);
    seq(|ticks|, i requires 0 <= i < |ticks| =>
      Frame(Latest(e, geo, PenumbraLayer, times[..i + 1]), Latest(e, geo, UmbraLayer, times[..i + 1]), times[i]))
  }

  /**
   * `drawRealShadow`: every iteration dates a frame `now + dateOffset` and posts
   * it, carrying the most recently computed polygons.
   */
  method RunRealTime(e: Eclipse, dateOffsetArg: Option<int>, geo: Geometry, ticks: seq<Tick>)
    returns (outbox: seq<Frame>)
    ensures outbox == RealTimeFrames(e, geo, OffsetOrZero(dateOffsetArg), ticks)
  {
    var dateOffset := if dateOffsetArg.Some? then dateOffsetArg.value else 0;
    var penumbraShadow: Option<Polygon> := None;
    var umbraShadow: Option<Polygon> := None;
    var isTotalOrAnnular := e.kind == Annular || e.kind == Total || e.kind == Hybrid;
    ghost var times := SimTimes(ticks, dateOffset);
    ghost var frames := RealTimeFrames(e, geo, dateOffset, ticks);
    outbox := [];
    var i := 0;
    while i < |ticks|
      invariant 0 <= i <= |ticks|
      invariant outbox == frames[..i]
      invariant penumbraShadow == Latest(e, geo, PenumbraLayer, times[..i])
      invariant umbraShadow == Latest(e, geo, UmbraLayer, times[..i])
    {
      var currentTime := ticks[i].current + dateOffset;
      LatestExtend(e, geo, PenumbraLayer, times, i);
      LatestExtend(e, geo, UmbraLayer, times, i);
      if AtOrAfter(currentTime, e.penumbraStart) && currentTime <= e.penumbraEnd {
        penumbraShadow := geo.penumbraAt(currentTime);
      }
      if isTotalOrAnnular {
        if currentTime >= e.umbraStart && currentTime <= e.umbraEnd {
          umbraShadow := geo.umbraAt(currentTime);
        }
      }
      assert frames[i] == Frame(penumbraShadow, umbraShadow, currentTime);
      assert frames[..i + 1] == frames[..i] + [frames[i]];
      outbox := outbox + [Frame(penumbraShadow, umbraShadow, currentTime)];
      i := i + 1;
    }
    assert frames[..|ticks|] == frames;
  }

  /** One more iteration either recomputes a layer or keeps what it had. */
  lemma LatestExtend(e: Eclipse, geo: Geometry, layer: Layer, times: seq<int>, i: nat)
    requires i < |times|
    ensures Latest(e, geo, layer, times[..i + 1]) ==
      if Recomputes(e, layer, times[i]) then Draw(geo, layer, times[i]) else Latest(e, geo, layer, times[..i])
  {
    assert times[..i + 1][..i] == times[..i];
  }

  /** Before any iteration has recomputed a layer, that layer is sent as null. */
  lemma {:induction false} LatestNoneUntilRecomputed(e: Eclipse, geo: Geometry, layer: Layer, times: seq<int>)
    requires forall j :: 0 <= j < |times| ==> !Recomputes(e, layer, times[j])
    ensures Latest(e, geo, layer, times) == None
    decreases |times|
  {
    if times != [] {
      LatestNoneUntilRecomputed(e, geo, layer, times[..|times| - 1]);
    }
  }

  /**
   * Once computed, a layer's polygon is re-sent unchanged by every later
   * iteration that does not recompute it: the frame carries the polygon of the
   * last iteration `j` that did.
   */
  lemma {:induction false} LatestIsLastRecomputed(e: Eclipse, geo: Geometry, layer: Layer, times: seq<int>, j: nat)
    requires j < |times| && Recomputes(e, layer, times[j])
    requires forall k :: j < k < |times| ==> !Recomputes(e, layer, times[k])
    ensures Latest(e, geo, layer, times) == Draw(geo, layer, times[j])
    decreases |times|
  {
    if j < |times| - 1 {
      LatestIsLastRecomputed(e, geo, layer, times[..|times| - 1], j);
    }
  }

  /** A Partial eclipse never sends an umbra in real-time mode. */
  lemma RealTimePartialHasNoUmbra(e: Eclipse, geo: Geometry, offset: int, ticks: seq<Tick>, i: nat)
    requires e.kind == Partial && i < |ticks|
    ensures RealTimeFrames(e, geo, offset, ticks)[i].umbra == None
  {
    var times := SimTimes(ticks, offset);
    LatestNoneUntilRecomputed(e, geo, UmbraLayer, times[..i + 1]);
  }

  /**
   * Real-time frame `i`: it is dated `now + offset`; its penumbra is freshly
   * computed when that date is in the penumbra window and otherwise is the
   * previous frame's (null for the first frame).
   */
  lemma RealTimeFrameStaleOrFresh(e: Eclipse, geo: Geometry, offset: int, ticks: seq<Tick>, i: nat)
    requires i < |ticks|
    ensures RealTimeFrames(e, geo, offset, ticks)[i].date == ticks[i].current + offset
    ensures InPenumbraWindow(e, ticks[i].current + offset) ==>
      RealTimeFrames(e, geo, offset, ticks)[i].penumbra == geo.penumbraAt(ticks[i].current + offset)
    ensures !InPenumbraWindow(e, ticks[i].current + offset) && i > 0 ==>
      RealTimeFrames(e, geo, offset, ticks)[i].penumbra == RealTimeFrames(e, geo, offset, ticks)[i - 1].penumbra
    ensures !InPenumbraWindow(e, ticks[i].current + offset) && i == 0 ==>
      RealTimeFrames(e, geo, offset, ticks)[i].penumbra == None
  {
    var times := SimTimes(ticks, offset);
    var fs := RealTimeFrames(e, geo, offset, ticks);
    var prefix := times[..i + 1];
    assert |prefix| - 1 == i && prefix[i] == ticks[i].current + offset;
    assert prefix[..i] == times[..i];
    assert fs[i].penumbra == Latest(e, geo, PenumbraLayer, prefix);
    if i > 0 {
      assert fs[i - 1].penumbra == Latest(e, geo, PenumbraLayer, times[..i]);
    }
  }

  // ---------------------------------------------------------------------------
  // Accelerated loop (drawShadow)
  // ---------------------------------------------------------------------------

  /**
   * The variables the accelerated loop carries between iterations:
   * `totalDeltaTime`, `lastAnimateTime` (None for null) and the two polygons.
   */
  datatype AccelState = AccelState(totalDelta: int, lastAnimate: Option<int>, penumbra: Option<Polygon>, umbra: Option<Polygon>)

  const AccelInit: AccelState := AccelState(0, None, None, None)

  /** `start_time + totalDeltaTime * ANIMATE_SCALE`. */
  function AccelDate(start: int, totalDelta: int): int
  {
    start + totalDelta * ANIMATE_SCALE
  }

  /**
   * The new `totalDeltaTime`: the time since the previous iteration is added,
   * and the first iteration after a (re)start counts from 0.
   */
  function StepTotal(s: AccelState, t: Tick): int
  {
    if s.lastAnimate.Some? then s.totalDelta + (t.current - s.lastAnimate.value) else 0
  }

  /**
   * One iteration of the accelerated loop from state `s` with clock readings
   * `t`: the new state and the frame it posts, if any.
   */
  function AccelStep(e: Eclipse, geo: Geometry, start: int, s: AccelState, t: Tick): (AccelState, Option<Frame>)
  {
    var total := StepTotal(s, t);
    var date := AccelDate(start, total);
    if date < e.penumbraEnd then
      var pen := geo.penumbraAt(date);
      var umb := if HasUmbra(e) && InUmbraWindow(e, date) then geo.umbraAt(date) else s.umbra;
      (AccelState(total, Some(t.stamp), pen, umb), Some(Frame(pen, umb, date)))
    else
      (AccelState(0, None, s.penumbra, s.umbra), None)
  }

  /** The frames the accelerated loop posts from state `s` over `ticks`. */
  function AccelRun(e: Eclipse, geo: Geometry, start: int, s: AccelState, ticks: seq<Tick>): seq<Frame>
    decreases |ticks|
  {
    if ticks == [] then []
    else
      var (s', f) := AccelStep(e, geo, start, s, ticks[0]);
      (if f.Some? then [f.value] else []) + AccelRun(e, geo, start, s', ticks[1..])
  }

  lemma AppendAssoc<T>(a: seq<T>, b: seq<T>, c: seq<T>)
    ensures (a + b) + c == a + (b + c)
  {
  }

  /** An iteration dated before the penumbra end posts its frame and carries on. */
  lemma AccelAdvance(e: Eclipse, geo: Geometry, start: int, s: AccelState, ticks: seq<Tick>, i: nat)
    requires i < |ticks| && AccelDate(start, StepTotal(s, ticks[i])) < e.penumbraEnd
    ensures var date := AccelDate(start, StepTotal(s, ticks[i]));
      var pen := geo.penumbraAt(date);
      var umb := if HasUmbra(e) && InUmbraWindow(e, date) then geo.umbraAt(date) else s.umbra;
      AccelRun(e, geo, start, s, ticks[i..]) ==
        [Frame(pen, umb, date)] + AccelRun(e, geo, start, AccelState(StepTotal(s, ticks[i]), Some(ticks[i].stamp), pen, umb), ticks[i + 1..])
  {
    assert ticks[i..][1..] == ticks[i + 1..];
  }

  /** An iteration dated at or after the penumbra end posts nothing and restarts. */
  lemma AccelWrapStep(e: Eclipse, geo: Geometry, start: int, s: AccelState, ticks: seq<Tick>, i: nat)
    requires i < |ticks| && AccelDate(start, StepTotal(s, ticks[i])) >= e.penumbraEnd
    ensures AccelRun(e, geo, start, s, ticks[i..]) ==
      AccelRun(e, geo, start, AccelState(0, None, s.penumbra, s.umbra), ticks[i + 1..])
  {
    assert ticks[i..][1..] == ticks[i + 1..];
  }

  /** Everything `drawShadow` posts: nothing at all without a penumbra start. */
  function AccelFrames(e: Eclipse, geo: Geometry, ticks: seq<Tick>): seq<Frame>
  {
    match e.penumbraStart
    case None => []
    case Some(start) => AccelRun(e, geo, start, AccelInit, ticks)
  }

  /**
   * `drawShadow`: adds up wall-clock deltas, dates each iteration
   * `start + 200 * total`, posts a frame while that date is before the
   * penumbra end, and otherwise starts the replay over.
   */
  method RunAccelerated(e: Eclipse, geo: Geometry, ticks: seq<Tick>) returns (outbox: seq<Frame>)
    ensures outbox == AccelFrames(e, geo, ticks)
  {
    outbox := [];
    var penumbraShadow: Option<Polygon> := None;
    var umbraShadow: Option<Polygon> := None;
    var deltaTime := 0;
    var lastAnimateTime: Option<int> := None;
    var totalDeltaTime := 0;
    if e.penumbraStart.Some? {
      var startTime := e.penumbraStart.value;
      var endTime := e.penumbraEnd;
      var isTotalOrAnnular := e.kind == Annular || e.kind == Total || e.kind == Hybrid;
      var i := 0;
      while i < |ticks|
        invariant 0 <= i <= |ticks|
        invariant AccelRun(e, geo, startTime, AccelInit, ticks) ==
          outbox + AccelRun(e, geo, startTime, AccelState(totalDeltaTime, lastAnimateTime, penumbraShadow, umbraShadow), ticks[i..])
      {
        ghost var s0 := AccelState(totalDeltaTime, lastAnimateTime, penumbraShadow, umbraShadow);
        ghost var outboxBefore := outbox;
        if lastAnimateTime.Some? {
          var currentTime := ticks[i].current;
          deltaTime := currentTime - lastAnimateTime.value;
        } else {
          deltaTime := 0;
          totalDeltaTime := 0;
        }
        totalDeltaTime := totalDeltaTime + deltaTime;
        lastAnimateTime := Some(ticks[i].stamp);
        var animateDate := startTime + totalDeltaTime * ANIMATE_SCALE;
        assert totalDeltaTime == StepTotal(s0, ticks[i]);
        if animateDate < endTime {
          AccelAdvance(e, geo, startTime, s0, ticks, i);
          penumbraShadow := geo.penumbraAt(animateDate);
          if isTotalOrAnnular {
            if animateDate >= e.umbraStart && animateDate <= e.umbraEnd {
              umbraShadow := geo.umbraAt(animateDate);
            }
          }
          assert umbraShadow == if HasUmbra(e) && InUmbraWindow(e, animateDate) then geo.umbraAt(animateDate) else s0.umbra;
          ghost var rest := AccelRun(e, geo, startTime, AccelState(totalDeltaTime, lastAnimateTime, penumbraShadow, umbraShadow), ticks[i + 1..]);
          assert AccelRun(e, geo, startTime, s0, ticks[i..]) == [Frame(penumbraShadow, umbraShadow, animateDate)] + rest;
          AppendAssoc(outboxBefore, [Frame(penumbraShadow, umbraShadow, animateDate)], rest);
          outbox := outbox + [Frame(penumbraShadow, umbraShadow, animateDate)];
        } else {
          AccelWrapStep(e, geo, startTime, s0, ticks, i);
          totalDeltaTime := 0;
          lastAnimateTime := None;
        }
        i := i + 1;
      }
    }
  }

  /**
   * Every accelerated frame is dated strictly before the penumbra end and
   * carries the penumbra computed for exactly that date.
   */
  lemma {:induction false} AccelFramesBeforeEnd(e: Eclipse, geo: Geometry, start: int, s: AccelState, ticks: seq<Tick>)
    ensures forall f :: f in AccelRun(e, geo, start, s, ticks) ==>
      f.date < e.penumbraEnd && f.penumbra == geo.penumbraAt(f.date)
    decreases |ticks|
  {
    if ticks != [] {
      AccelFramesBeforeEnd(e, geo, start, AccelStep(e, geo, start, s, ticks[0]).0, ticks[1..]);
    }
  }

  /** The first iteration of a run uses delta 0: the first frame is dated penumbraStart. */
  lemma AccelFirstFrameAtStart(e: Eclipse, geo: Geometry, ticks: seq<Tick>)
    requires e.penumbraStart.Some? && e.penumbraStart.value < e.penumbraEnd && ticks != []
    ensures AccelFrames(e, geo, ticks) != []
    ensures AccelFrames(e, geo, ticks)[0].date == e.penumbraStart.value
  {
  }

  /**
   * When the penumbra start is not before its end, every iteration wraps and
   * the accelerated loop never posts a frame.
   */
  lemma {:induction false} AccelNothingWhenWindowEmpty(e: Eclipse, geo: Geometry, start: int, s: AccelState, ticks: seq<Tick>)
    requires start >= e.penumbraEnd && s.lastAnimate.None?
    ensures AccelRun(e, geo, start, s, ticks) == []
    decreases |ticks|
  {
    if ticks != [] {
      AccelNothingWhenWindowEmpty(e, geo, start, AccelStep(e, geo, start, s, ticks[0]).0, ticks[1..]);
    }
  }

  /**
   * An iteration at or past the end posts nothing and resets the replay: the
   * next iteration's frame, if any, is dated penumbraStart again.
   */
  lemma AccelWrapRestarts(e: Eclipse, geo: Geometry, start: int, s: AccelState, t: Tick, t': Tick)
    requires AccelStep(e, geo, start, s, t).1.None?
    ensures AccelStep(e, geo, start, s, t).0 == AccelState(0, None, s.penumbra, s.umbra)
    ensures AccelStep(e, geo, start, AccelStep(e, geo, start, s, t).0, t').1.Some? ==>
      AccelStep(e, geo, start, AccelStep(e, geo, start, s, t).0, t').1.value.date == start
  {
  }

  /**
   * The wall clock never runs backwards across the readings the loop
   * subtracts: from the last `lastAnimateTime` of `s` to the next `current`,
   * and from each iteration's `stamp` to the following one's `current`.
   */
  ghost predicate ClockForward(s: AccelState, ticks: seq<Tick>)
  {
    (s.lastAnimate.Some? && ticks != [] ==> s.lastAnimate.value <= ticks[0].current) &&
    forall i :: 0 <= i < |ticks| - 1 ==> ticks[i].stamp <= ticks[i + 1].current
  }

  /**
   * With a forward-running clock the first frame of a run continues from the
   * state's own date, or restarts at penumbraStart.
   */
  lemma {:induction false} AccelFirstFrameNotEarlier(e: Eclipse, geo: Geometry, start: int, s: AccelState, ticks: seq<Tick>)
    requires ClockForward(s, ticks)
    ensures var fs := AccelRun(e, geo, start, s, ticks);
      fs != [] ==> fs[0].date == start || (s.lastAnimate.Some? && fs[0].date >= AccelDate(start, s.totalDelta))
    decreases |ticks|
  {
    if ticks != [] {
      var (s', f) := AccelStep(e, geo, start, s, ticks[0]);
      if f.None? {
        assert ClockForward(s', ticks[1..]);
        AccelFirstFrameNotEarlier(e, geo, start, s', ticks[1..]);
      }
    }
  }

  /**
   * Accelerated ordering: with a forward-running clock, each posted frame is
   * dated no earlier than the one before it, except where the replay wrapped
   * and the frame is dated penumbraStart again.
   */
  lemma {:induction false} AccelDatesOrdered(e: Eclipse, geo: Geometry, start: int, s: AccelState, ticks: seq<Tick>)
    requires ClockForward(s, ticks)
    ensures var fs := AccelRun(e, geo, start, s, ticks);
      forall i :: 0 <= i < |fs| - 1 ==> fs[i].date <= fs[i + 1].date || fs[i + 1].date == start
    decreases |ticks|
  {
    if ticks != [] {
      var (s', f) := AccelStep(e, geo, start, s, ticks[0]);
      var rest := AccelRun(e, geo, start, s', ticks[1..]);
      assert ClockForward(s', ticks[1..]);
      AccelDatesOrdered(e, geo, start, s', ticks[1..]);
      if f.Some? {
        AccelFirstFrameNotEarlier(e, geo, start, s', ticks[1..]);
        var fs := [f.value] + rest;
        assert AccelRun(e, geo, start, s, ticks) == fs;
        forall i | 0 <= i < |fs| - 1
          ensures fs[i].date <= fs[i + 1].date || fs[i + 1].date == start
        {
          if i > 0 {
            assert fs[i] == rest[i - 1] && fs[i + 1] == rest[i];
          }
        }
      }
    }
  }

  /** The umbra a frame carries is freshly computed for its date. */
  ghost predicate UmbraFresh(e: Eclipse, geo: Geometry, f: Frame)
  {
    HasUmbra(e) && InUmbraWindow(e, f.date) && f.umbra == geo.umbraAt(f.date)
  }

  lemma {:induction false} AccelFirstUmbra(e: Eclipse, geo: Geometry, start: int, s: AccelState, ticks: seq<Tick>)
    ensures var fs := AccelRun(e, geo, start, s, ticks);
      fs != [] ==> fs[0].umbra == s.umbra || UmbraFresh(e, geo, fs[0])
    decreases |ticks|
  {
    if ticks != [] {
      var (s', f) := AccelStep(e, geo, start, s, ticks[0]);
      if f.None? {
        AccelFirstUmbra(e, geo, start, s', ticks[1..]);
      }
    }
  }

  /**
   * The accelerated umbra is never cleared within a run, not even by a wrap:
   * each frame carries the previous frame's umbra unless its own date is in
   * the umbra window of an umbra eclipse and the umbra was recomputed for it.
   */
  lemma {:induction false} AccelUmbraStaleOrFresh(e: Eclipse, geo: Geometry, start: int, s: AccelState, ticks: seq<Tick>)
    ensures var fs := AccelRun(e, geo, start, s, ticks);
      forall i :: 0 <= i < |fs| - 1 ==> fs[i + 1].umbra == fs[i].umbra || UmbraFresh(e, geo, fs[i + 1])
    decreases |ticks|
  {
    if ticks != [] {
      var (s', f) := AccelStep(e, geo, start, s, ticks[0]);
      var rest := AccelRun(e, geo, start, s', ticks[1..]);
      AccelUmbraStaleOrFresh(e, geo, start, s', ticks[1..]);
      if f.Some? {
        AccelFirstUmbra(e, geo, start, s', ticks[1..]);
        var fs := [f.value] + rest;
        assert AccelRun(e, geo, start, s, ticks) == fs;
        forall i | 0 <= i < |fs| - 1
          ensures fs[i + 1].umbra == fs[i].umbra || UmbraFresh(e, geo, fs[i + 1])
        {
          if i > 0 {
            assert fs[i] == rest[i - 1] && fs[i + 1] == rest[i];
          }
        }
      }
    }
  }

  /** A Partial eclipse never sends an umbra in accelerated mode. */
  lemma {:induction false} AccelPartialHasNoUmbra(e: Eclipse, geo: Geometry, start: int, s: AccelState, ticks: seq<Tick>)
    requires e.kind == Partial && s.umbra == None
    ensures forall f :: f in AccelRun(e, geo, start, s, ticks) ==> f.umbra == None
    decreases |ticks|
  {
    if ticks != [] {
      AccelPartialHasNoUmbra(e, geo, start, AccelStep(e, geo, start, s, ticks[0]).0, ticks[1..]);
    }
  }

  // ---------------------------------------------------------------------------
  // Dispatch (initWorker)
  // ---------------------------------------------------------------------------

  /**
   * The worker's message listener: `shadow` runs the accelerated loop, `real`
   * the real-time loop, anything else is ignored.
   */
  method OnMessage(msg: Message, geo: Geometry, ticks: seq<Tick>) returns (outbox: seq<Frame>)
    ensures msg.cmd == "shadow" ==> outbox == AccelFrames(msg.eclipse, geo, ticks)
    ensures msg.cmd == "real" && msg.dateOffset.Some? ==>
      outbox == RealTimeFrames(msg.eclipse, geo, msg.dateOffset.value, ticks)
    ensures msg.cmd == "real" && msg.dateOffset.None? ==> outbox == RealTimeFrames(msg.eclipse, geo, 0, ticks)
    ensures msg.cmd != "shadow" && msg.cmd != "real" ==> outbox == []
  {
    if msg.cmd == "shadow" {
      outbox := RunAccelerated(msg.eclipse, geo, ticks);
    } else if msg.cmd == "real" {
      outbox := RunRealTime(msg.eclipse, msg.dateOffset, geo, ticks);
    } else {
      outbox := [];
    }
  }
}
