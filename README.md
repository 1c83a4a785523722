# Eclipse shadow animation: worker loops, overlay slots and page controller

This project models the sequential logic behind the shadow animation of the
eclipse map web application, in Dafny, and proves properties of that model.
It covers three files.

- **The shadow worker** (`www/animateWorker.js`, module `AnimateWorker` in
  `animate_worker.dfy`). The message dispatch starts one of two endless loops:
  - the accelerated replay (`drawShadow`);
  - the real-time tracker (`drawRealShadow`).

  Each loop is a `method` with a `while` loop over a finite trace of
  wall-clock readings (`Tick`). `postMessage` becomes an outbox sequence. Each
  method is proved equal to a specification function (`AccelFrames`,
  `RealTimeFrames`), and the lemmas about those functions state what the
  frames are.
- **The overlay slot manager** (`www/EclipseMap.js`, module `OverlayMap` in
  `eclipse_map.dfy`). The `EclipseMap` closure becomes the class
  `EclipseMap`:
  - the nine shape variables are one map `shape: map<Slot, Shape>`;
  - the nine slot listener variables are one map `listener: map<Slot, Listener>`;
  - `mapClickListener` is a field.

  Map shapes and listeners are objects (`Shape`, `Listener`), so identity and
  freshness are observable. The live shapes and live listeners are the ghost
  functions `OnMap()` and `Registered()`, derived from those fields.
  `NoDangling()` states that every listener sits on its slot's current shape.
- **The page controller** (`www/eclipse_ui.js`, module `EclipseUi` in
  `eclipse_ui.dfy`). The globals that drive the shadow modes, the time-travel
  offset, the manual-location switch and the moon playback become the fields
  of class `UiState`. The worker the page holds is a value `WorkerProc`: the
  message it runs, plus the messages queued behind its endless loop.
  - Ghost counters `spawned`/`terminated` make "at most one worker" statable.
  - `Valid()` is the invariant every handler keeps.
  - `Tracking()` says that a running real-time worker uses the page's current offset.

Shared values (the eclipse descriptor, points, JavaScript's `Date >= null`
comparison) are in module `Eclipses` in `eclipse.dfy`.

Times are integer milliseconds since the epoch. A JavaScript `null`, or an
invalid `Date`, becomes `None`. A relational comparison between a `Date` and
`null` treats `null` as 0, as JavaScript does (`AtOrAfter`).

Some facts about the source that the model follows as written:
- In `stopShadowAnimation`, line 627 assigns the misspelled global
  `bRealTimeSahdow`, so `bRealTimeShadow` keeps its value. `UiState` keeps the
  misspelled variable as a field of its own.
- Likewise, `stopAnimateMoon` assigns `moonAnimateStopTime` (line 1957), not
  `moonStopAnimateTime`. So the stop time of the moon playback survives a
  stop.
- Line 61 declares a third spelling, `moonStopAnimaateTime`, which no code reads.
- A time-travel handler run during the shadow animation restarts real-time
  mode without stopping the animation. The restart terminates the
  animation's worker and, inside the penumbra window, starts a fresh worker
  running `real`. `bAnimating` stays true, so both flags can then be on
  while only real-time frames arrive. Only the two shadow buttons promise
  one mode at a time (`OnAnimateClick`, `OnRealTimeShadow`).
- A worker busy in its `while (true)` loop never handles a later message.
  The first message enters that loop when it is `real`, or `shadow` with a
  penumbra start. A second `postMessage` to such a worker is therefore only
  queued behind it (`DeliveriesQueueBehindFirst`).

## Model

| member | source | states |
|---|---|---|
| AnimateWorker.RunRealTime | www/animateWorker.js:39-93 | the real-time loop posts exactly `RealTimeFrames` of the trace, one frame per iteration, with the offset defaulted to 0 |
| AnimateWorker.LatestExtend | www/animateWorker.js:73-86 | one more iteration replaces the carried polygon exactly when that iteration's time recomputes it |
| AnimateWorker.LatestNoneUntilRecomputed | www/animateWorker.js:43-44 | until some iteration recomputes a layer, the frames carry null for it |
| AnimateWorker.LatestIsLastRecomputed | www/animateWorker.js:73-86 | a carried polygon is the one drawn at the last recomputing iteration (stale polygons are re-sent) |
| AnimateWorker.RealTimePartialHasNoUmbra | www/animateWorker.js:50-61 | for a Partial eclipse every real-time frame has a null umbra |
| AnimateWorker.RealTimeFrameStaleOrFresh | www/animateWorker.js:70-91 | frame i is dated reading + offset; inside the inclusive penumbra window its penumbra is freshly drawn; outside it repeats frame i-1's, or is null at i = 0 |
| AnimateWorker.AccelAdvance | www/animateWorker.js:128-161 | an iteration dated before the penumbra end posts its frame (fresh penumbra, umbra fresh only inside the umbra window) and carries the new state on |
| AnimateWorker.AccelWrapStep | www/animateWorker.js:162-166 | an iteration dated at or after the end posts nothing and continues from total 0 and no last time, keeping the polygons |
| AnimateWorker.RunAccelerated | www/animateWorker.js:95-169 | the accelerated loop posts exactly `AccelFrames` of the trace |
| AnimateWorker.AccelFramesBeforeEnd | www/animateWorker.js:141-161 | every posted frame is dated strictly before the penumbra end and carries the penumbra drawn for its date |
| AnimateWorker.AccelFirstFrameAtStart | www/animateWorker.js:109-141 | with a penumbra start before the end, the first frame exists and is dated exactly the penumbra start |
| AnimateWorker.AccelNothingWhenWindowEmpty | www/animateWorker.js:141-166 | from a restart, with the start not before the end, the loop never posts |
| AnimateWorker.AccelWrapRestarts | www/animateWorker.js:162-166 | a wrap resets total and last time, and the next frame posted is dated the penumbra start again |
| AnimateWorker.AccelFirstFrameNotEarlier | www/animateWorker.js:128-141 | with a forward-running clock the first frame of a run is dated no earlier than the state's date, or is a restart at the penumbra start |
| AnimateWorker.AccelDatesOrdered | www/animateWorker.js:126-167 | with a forward-running clock consecutive frame dates never decrease, except at a wrap back to the penumbra start |
| AnimateWorker.AccelFirstUmbra | www/animateWorker.js:147-155 | the first frame's umbra is the state's umbra or freshly drawn inside the umbra window |
| AnimateWorker.AccelUmbraStaleOrFresh | www/animateWorker.js:147-166 | each frame repeats the previous frame's umbra unless freshly drawn inside the umbra window; a wrap never clears it |
| AnimateWorker.AccelPartialHasNoUmbra | www/animateWorker.js:111-155 | for a Partial eclipse no accelerated frame has an umbra |
| AnimateWorker.OnMessage | www/animateWorker.js:17-36 | the worker's output is the accelerated frames for `"shadow"`; for `"real"` it is the real-time frames with the message's offset, or with 0 where `parseInt` gives NaN; for any other command it is nothing |
| OverlayMap.SlotStyle | www/EclipseMap.js:293-417 | the style each wrapper draws with: lines weight 2 opacity 1.0 in "black", "#black" or "#FE2E2E"; shadows filled "#000000", stroke weight 0, opacity 0.6 (umbra) or 0.2 (penumbra) |
| OverlayMap.DrawStyleDefaults | www/EclipseMap.js:212-266 | a draw call without a colour uses `"#000000"` and a polygon without an opacity is filled at 0.1; given arguments are used verbatim, with line weight 2 and polygon stroke weight 0 |
| OverlayMap.ToLatLngs | www/EclipseMap.js:219-222 | the conversion loop maps each `{latitude, longitude}` to `{lat, lng}`, same count and order |
| OverlayMap.DrawPath | www/EclipseMap.js:201-240 | a new polyline exists iff the map exists and the coordinates are present and non-empty; it is fresh, has the converted path and the line style |
| OverlayMap.DrawPoly | www/EclipseMap.js:244-291 | the same contract for polygons, with the fill style |
| OverlayMap.ClickRank | www/EclipseMap.js:576-617 | every slot has a place in the order `setMapClicks` binds them |
| OverlayMap.ClickRankOfIndex | www/EclipseMap.js:576-617 | that order lists no slot twice |
| OverlayMap.ReplaceDetaches | www/EclipseMap.js:203-207 | replacing or removing one slot's shape by one no slot held keeps the shapes distinct and takes the old shape off the map |
| OverlayMap.DrawAnchoring | www/EclipseMap.js:293-305 | after an as-written `draw*` call, no-dangling holds again iff the slot had no listener or the call rebound it; in the other case the old listener is still on the old shape |
| OverlayMap.ReleasingAnchoring | www/EclipseMap.js:293-305 | the listener-releasing redraw always restores no-dangling |
| OverlayMap.EclipseMap.constructor | www/EclipseMap.js:30-63 | no map, not manual, every slot and listener null (so nothing dangles and no shape is shared) |
| OverlayMap.EclipseMap.IsReady | www/EclipseMap.js:65-68 | ready iff the map has been created |
| OverlayMap.EclipseMap.SetCanvas | www/EclipseMap.js:488-517 | with the library loaded, the map exists centred at (34, -118) at `DEFAULT_ZOOM` 3 and is ready; otherwise nothing changes |
| OverlayMap.EclipseMap.SetCenter | www/EclipseMap.js:519-525 | recentres an existing map, nothing else |
| OverlayMap.EclipseMap.SetZoom | www/EclipseMap.js:527-533 | rezooms an existing map, nothing else |
| OverlayMap.EclipseMap.UnbindSlot | www/EclipseMap.js:296-302 | removes exactly that slot's listener |
| OverlayMap.EclipseMap.BindSlot | www/EclipseMap.js:303 | adds a fresh listener on the slot's shape if it has one, otherwise nothing |
| OverlayMap.EclipseMap.Redraw | www/EclipseMap.js:201-295 | the slot gets a new fresh shape with its style iff the map exists and the coordinates are non-empty, otherwise it is emptied; other slots unchanged; with distinct shapes, they stay distinct and the slot's old shape is off the map |
| OverlayMap.EclipseMap.DrawSlot | www/EclipseMap.js:293-417 | as written: the redraw, with the old shape off the map; in manual mode with a new shape, a single fresh listener on it; otherwise the listeners are untouched, so no-dangling survives iff the slot had no listener |
| OverlayMap.EclipseMap.DrawSlotReleasing | www/EclipseMap.js:293-305 | the corrected wrapper: same shapes, old shape off the map; the slot keeps a listener only on its new shape in manual mode, and no-dangling is preserved |
| OverlayMap.EclipseMap.ClearSlot | www/EclipseMap.js:82-95 | removes the slot's listener and shape, nothing else; with distinct shapes, the old shape is off the map |
| OverlayMap.EclipseMap.ClearShadows | www/EclipseMap.js:82-107 | both shadow slots are empty and unbound, everything else is unchanged, a second call changes nothing, and no-dangling is preserved |
| OverlayMap.EclipseMap.DrawShadow | www/eclipse_ui.js:611-619 | one `if (shadow != null) draw*Shadow(shadow)` step on a cleared slot: the slot shows the shadow as above, every other slot is unchanged, no-dangling is preserved |
| OverlayMap.EclipseMap.ShowShadows | www/eclipse_ui.js:609-619 | after clearing, each shadow slot holds a fresh polygon converted from the frame's points iff the map exists and the points are non-empty, and a fresh listener on it iff manual mode is on; every other slot keeps its shape and listener; no-dangling is preserved |
| OverlayMap.EclipseMap.ClearPaths | www/EclipseMap.js:111-197 | all nine slots end with neither shape nor listener: nothing on the map, and only the map listener registered |
| OverlayMap.EclipseMap.RemoveMapClicks | www/EclipseMap.js:624-678 | all ten listeners are removed: nothing registered |
| OverlayMap.EclipseMap.SetMapClicks | www/EclipseMap.js:569-619 | with a map: one fresh map listener plus one fresh listener for exactly the slots with a shape, each on that shape; without a map: no listeners at all |
| OverlayMap.EclipseMap.SetManualMode | www/EclipseMap.js:682-710 | false leaves manual mode and removes every listener; true or a non-boolean enters manual mode and rebinds when the map exists, and without a map leaves all listeners as they were; no-dangling is preserved |
| OverlayMap.LeakWitness | www/EclipseMap.js:293-305 | in manual mode, drawing the central path and then redrawing it with no points leaves its listener registered on a shape no longer on the map |
| OverlayMap.ReleasingWitness | www/EclipseMap.js:293-305 | the same calls through the corrected wrapper leave no dangling listener |
| EclipseUi.ClampLatitude | www/eclipse_ui.js:528-539 | the centre latitude lies in [-45, 45], is unchanged inside it and clamped to the nearer bound outside |
| EclipseUi.TimeTravelOffset | www/eclipse_ui.js:1150-1156 | the simulated clock lands 10000 ms before the target; an invalid target gives 0 |
| EclipseUi.DeliveriesQueueBehindFirst | www/eclipse_ui.js:518-524 | posting messages to a live worker, taken to be busy in its first message's loop, only queues them behind that loop; the first message posted with no worker is the one a new worker runs |
| EclipseUi.MoonTickInWindow | www/eclipse_ui.js:1936-1941 | a playback tick keeps the time inside [start, stop] |
| EclipseUi.MoonTicksInWindow | www/eclipse_ui.js:1915-1942 | any number of accelerated ticks keeps the time inside [start, stop] |
| EclipseUi.MoonTicksAdvance | www/eclipse_ui.js:1915-1942 | before the stop time is passed, n accelerated ticks advance exactly n × 250 × 200 ms |
| EclipseUi.MoonTickWraps | www/eclipse_ui.js:1938-1941 | the tick that passes the stop time jumps back to the start |
| EclipseUi.UiState.constructor | www/eclipse_ui.js:40-64 | both modes off, no worker, offset 0, automatic location, no moon playback |
| EclipseUi.UiState.AnimateShadow | www/eclipse_ui.js:512-542 | animation on; the worker gets the shadow message, created only if there was none; the map is centred on the clamped mid point at zoom 3 |
| EclipseUi.UiState.StartRealTimeShadow | www/eclipse_ui.js:544-571 | inside the inclusive penumbra window at now + offset: real-time on and the worker gets `real` with the offset; outside: flags and worker unchanged |
| EclipseUi.UiState.DropWorker | www/eclipse_ui.js:579-584 | the worker is terminated and gone, leaving no live worker |
| EclipseUi.UiState.StopRealTimeShadow | www/eclipse_ui.js:573-587 | real-time off, shadows cleared, worker terminated; the map loses exactly its two shadow slots; no-dangling is preserved |
| EclipseUi.UiState.StopShadowAnimation | www/eclipse_ui.js:624-638 | animation off, shadows cleared, worker terminated; only the misspelled flag is reset, so `bRealTimeShadow` keeps its value; the map loses exactly its two shadow slots; no-dangling is preserved |
| EclipseUi.UiState.OnAnimateClick | www/eclipse_ui.js:1019-1043 | real-time ends off; the animation toggles, and a started one runs on a new worker, with the map no longer centred on the user and the map view centred on the clamped mid point at zoom 3; a stop leaves the map view as it was; the map loses exactly its two shadow slots (shapes and listeners) if either mode was on and is otherwise unchanged, and no-dangling is preserved |
| EclipseUi.UiState.OnRealTimeShadow | www/eclipse_ui.js:1045-1067 | the animation ends off; real-time toggles, turning on iff now + offset is in the penumbra window, on a new worker; the map loses exactly its two shadow slots (shapes and listeners) if either mode was on and is otherwise unchanged, and no-dangling is preserved |
| EclipseUi.UiState.RestartRealTimeShadow | www/eclipse_ui.js:1161-1162 | stop then start: real-time is on iff the simulated clock is in the window, on a new worker with the current offset; the map loses exactly its two shadow slots (shapes and listeners) always and is otherwise unchanged, and no-dangling is preserved |
| EclipseUi.UiState.OnContactClick | www/eclipse_ui.js:1146-1249 | with an eclipse selected, the offset is C1-, C2-, mid-, C3- or C4-time minus now minus 10 s (0 if invalid), and real-time restarts tracking it; otherwise nothing changes; the map loses exactly its two shadow slots (shapes and listeners) with an eclipse selected and is otherwise unchanged, and no-dangling is preserved |
| EclipseUi.UiState.OnSunEventClick | www/eclipse_ui.js:1069-1143 | only for a sun event inside the penumbra window: offset to 10 s before it and real-time restarts; otherwise nothing changes; the map loses exactly its two shadow slots (shapes and listeners) when it travels and is otherwise unchanged, and no-dangling is preserved |
| EclipseUi.UiState.OnTimeClick | www/eclipse_ui.js:1532-1548 | a zero offset changes nothing; a nonzero one is reset to 0 and real-time, if on, restarts at the current time: on a new worker iff the current time is in the penumbra window, otherwise with no worker left; the map loses exactly its two shadow slots (shapes and listeners) when a nonzero offset is reset with real-time on and is otherwise unchanged, and no-dangling is preserved |
| EclipseUi.UiState.ParseNewDate | www/eclipse_ui.js:1562-1589 | as written: a valid date sets the offset to it; with real-time on, real-time restarts on a new worker iff the new simulated clock is in the penumbra window, otherwise no worker is left; with real-time off, flag and worker are unchanged; an invalid date sets the offset to 0 and leaves the worker as it was; the map loses exactly its two shadow slots (shapes and listeners) for a valid date with real-time on and is otherwise unchanged, and no-dangling is preserved |
| EclipseUi.UiState.ParseNewDateFixed | www/eclipse_ui.js:1562-1589 | corrected: both branches set the offset (0 for an invalid date) and, with real-time on, restart it on a new worker iff the new simulated clock is in the penumbra window, otherwise leaving no worker; with real-time off, flag and worker are unchanged; the map loses exactly its two shadow slots (shapes and listeners) with real-time on and is otherwise unchanged, and no-dangling is preserved |
| EclipseUi.UiState.OnShadowComplete | www/eclipse_ui.js:603-622 | each shadow slot shows a fresh polygon of the frame's points with its style iff the map exists and the points are non-empty, with a fresh listener iff manual mode is on; every other slot keeps its shape and listener; no-dangling preserved |
| EclipseUi.UiState.SwitchManualMode | www/eclipse_ui.js:1313-1343 | a boolean sets the location mode to it, no argument toggles it; the map's manual mode follows; leaving manual mode removes all listeners; entering it with a map binds a fresh map listener and one listener per shaped slot, without a map leaves the listeners as they were; no-dangling is preserved |
| EclipseUi.UiState.StopAnimateMoon | www/eclipse_ui.js:1944-1960 | timer and real-time playback off, current and start time null |
| EclipseUi.UiState.OnMidSimClick | www/eclipse_ui.js:1767-1770 | starts by stopping the playback |
| EclipseUi.UiState.OnSimAnimateClick | www/eclipse_ui.js:1817-1857 | a running playback stops; otherwise, for a visible eclipse, accelerated playback runs with start C1 - 5 min, current C1, stop C4 + 5 min |
| EclipseUi.UiState.OnSimRealTimeClick | www/eclipse_ui.js:1859-1913 | a running playback stops; otherwise, for a visible eclipse, real-time playback runs iff the simulated clock lies in [C1 - 30 min, C4 + 30 min] |
| EclipseUi.UiState.AnimateMoon | www/eclipse_ui.js:1915-1942 | real-time playback re-reads the simulated clock; the time advances 250 ms (times 200 when accelerated) and returns to the start once past the stop |
| EclipseUi.StaleOffsetWitness | www/eclipse_ui.js:1574-1587 | after a time travel with real-time on, an invalid chosen date leaves the page at offset 0 while the worker keeps the old offset |
| EclipseUi.FixedOffsetWitness | www/eclipse_ui.js:1574-1587 | the same calls through the corrected handler keep the worker tracking |

## Left out

- The shadow and contact geometry (`EclipseData`, `drawPenumbraShadow`, `drawUmbraShadow`, `calculateLocalCircumstances`, `calcSunriseSetUTC`) lives in files that are not part of this model. The polygons are the arbitrary functions of a `Geometry` parameter. The contact and sun-event times are parameters.
- Google Maps objects are not modelled as such. A shape is an object holding its path and style, and a listener is an object holding its target. `setMap`, `addListener` and `removeListener` become membership in the `shape` and `listener` fields. The live-handle sets are derived from those fields rather than kept as separate ghost state.
- Markers, places autocomplete, `resizeMap`, `getMap`, `setMarkerPosition`, `setManualMarker`, `setGPSMarker`, `onPlaceChanged` and `onMapClick` concern DOM or map widgets only.
- `drawEclipseMap`, which feeds the limit lines, is not modelled; the `draw*` wrappers are.
- `OverlayMap.DrawPath` and `OverlayMap.DrawPoly` take "the map exists" as a flag. They return the new shape; the old one is dropped by the caller's replacement of the slot. A shape is on the map exactly while a slot holds it, so the source's `setMap(null)` on the old shape is the property that the old shape is no longer in `OnMap()`; `Redraw`, `DrawSlot`, `DrawSlotReleasing` and `ClearSlot` state it for maps whose slots hold distinct shapes (`DistinctShapes`).
- OverlayMap.EclipseMap.ClearSlot: does not restate that the shapes stay distinct; that follows from its exact new shape map `old(shape) - {slot}` by `ReplaceDetaches`.
- OverlayMap.EclipseMap.ShowShadows: models the page's map calls of `onShadowComplete` inside the overlay class, so that the page handler only delegates to it; it calls the as-written wrapper, which on the just-cleared shadow slots does the same as the corrected one.
- Eclipses.Eclipse: `penumbraEnd`, `umbraStart` and `umbraEnd` are plain integers. A missing penumbra end time, which the window checks compare without a null guard (www/animateWorker.js:74, www/eclipse_ui.js:550), is not modelled.
- `OverlayMap.EclipseMap.SetMapClicks` binds the nine slots in a loop over their source order. The source writes nine `if` statements.
- `postMessage`, `JSON.stringify`/`parse`, `terminate` and `importScripts` become an outbox sequence, a value and a counter.
- The wall clock is a sequence of readings. The endless loops run over a finite trace of them.
- The page and the worker run one after the other; there is no concurrency.
- The unused `ANIMATE_INTERVAL` (www/animateWorker.js:11) is left out. So is any sleep or generation tag: the code has none.
- `EclipseUi.UiState.OnMidSimClick` models only the playback stop. The Sun and Moon positions it computes and `updateMoonPos` are floating-point astronomy and pixel maths.
- `setMinutes(getMinutes() ± n)` is modelled as ± n × 60000 ms. This ignores local-time and daylight-saving effects.
- C1, mid-eclipse and C4 are taken to be valid dates. C2 and C3 may be invalid.
- The `if(eclipseMap)` guards of the two shadow buttons always hold in the model, because the map object is created with the page state.
- Toasts, headers, `updateHighlights`, panels and popups are DOM output.
- Network, geolocation and `onC1SimClick`/`onC4SimClick` are not part of the controller modelled here.
- EclipseUi.Deliver: a live worker whose first handler returned (a `shadow` message without a penumbra start, www/animateWorker.js:109, or an unknown command, www/animateWorker.js:33-34) is still treated as busy, so a later message would only be queued, where the source would handle it. The page never posts to a live worker: every post follows a terminate, and the handlers that start a worker ensure an empty backlog.
- Date formatting (`toLocaleTimeString`, `toGMTString`, `toUTCString`) is left out; a frame carries its date as milliseconds.

## Findings

| source | as written | input that shows it | evidently intended | confidence | as-written member | corrected member |
|---|---|---|---|---|---|---|
| www/EclipseMap.js:293-305 (and the eight other `draw*` wrappers up to line 417) | the slot's listener is replaced only when a new shape was drawn in manual mode; a redraw that leaves the slot empty keeps the old listener registered on a shape that is no longer on the map, until the slot is next cleared, redrawn with points in manual mode, or its clicks are removed | manual mode with a map: `drawCentralPath([p])`, then `drawCentralPath([])` | the old listener goes whenever the old shape goes, so every listener sits on a shape on the map | medium (the leaked listener cannot fire); not executed | OverlayMap.LeakWitness | OverlayMap.EclipseMap.DrawSlotReleasing |
| www/eclipse_ui.js:1579 | the invalid-date branch calls the undefined `toasPop`, which throws after `dateOffset = 0`, so the real-time restart below never runs and the worker keeps drawing with the old offset | real-time on after a first-contact time travel, then a date picker value that is not a valid date | `toastPop`, so the restart runs and the shadow returns to the current time | high; not executed | EclipseUi.StaleOffsetWitness | EclipseUi.UiState.ParseNewDateFixed |
