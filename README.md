# Tile drag/resize and critical-power lookups, modelled in Dafny

This project models two pieces of a cycling-analytics desktop application.

**Chart tiles (`GcWindow`).** A tile is a frameless chart window that the user moves by its title band and resizes by its edges and corners.
- `TileGeometry` holds the pure rules:
  - `SpotHotSpot` classifies a pointer position into a drag state: 9-pixel corner squares first, then 3-pixel side bands, then the title band (Move), else None.
  - `CursorShape` gives the cursor each state shows.
  - `ResizeOutcome` gives the frame an edge or corner drag produces from the press-time frame, with its "every changed dimension stays above 30 pixels" guard.
- `GcWindowTile.GcWindow` is the per-tile state machine. It is a class with the source's fields: `dragState`, `gripped`, the press-time snapshot `oWidth`/`oHeight`/`oX`/`oY`/`mX`/`mY`, and the frame position.
  - Its methods are the press, move and release handlers, the toolkit's move notification and the event filter.
  - What the tile emits (`moving`, `resizing`, `moved`, `resized`) and every resize request (`setNewSize(w, h)`) are appended to a `signals` sequence.

**Critical-power window (`CriticalPowerWindow`).**
- `CurveLookup.CurveToPoint` is the binary search that reads a value off a plotted curve. It is proved against `FirstAbove`, a linear-scan reference that finds the first sample to the right of the query.
- `CriticalPower` holds the pure rules and the window class:
  - the season membership test with open-ended bounds;
  - the series-to-units table;
  - the readouts under the chart;
  - the class `CriticalPowerWindow` with its `stale`/`cfrom`/`cto` memo of the last plotted date range, ride invalidation, season selection and readout update.
  - Requests to the plot (`changeSeason`, `calculate`) are appended to `plotCalls`.

The model follows the code as written:
- In state Move a pointer move only emits `moving`. The call that would reposition the frame is commented out in src/GoldenCheetah.cpp:448.
- The Close hotspot test is commented out (src/GoldenCheetah.cpp:416), so a press never lands on Close.
- A pointer move does not look at the pressed buttons.
- The grid snapping of the requested size happens inside `setNewSize`, after `resizing` is decided. It is not part of this model (see below).

## Model

| member | source | states |
|---|---|---|
| TileGeometry.SpotHotSpot | src/GoldenCheetah.cpp:403-427 | Never Close or Flip. The result is a corner exactly when the point lies in a 9-px corner square. It is an edge exactly when the point is outside every corner square and inside a 3-px side band. It is Move exactly when neither holds and the point is within the title band, and None otherwise. Where zones overlap on a small frame the left and top sides win: the top-left corner takes every overlap, a right side or right corner is grabbed only away from the left band or square, and a bottom side or corner only away from the top one. A grabbed side always lies within 9 px (corner) or 3 px (edge) of the point. |
| TileGeometry.CursorShape | src/GoldenCheetah.cpp:607-638 | The cursor's arrows match the axes the state resizes: vertical for top/bottom only, horizontal for left/right only, and the two diagonals for the two corner pairs. States that resize nothing show the plain arrow. |
| TileGeometry.ResizeOutcome | src/GoldenCheetah.cpp:457-560 | A carried-out resize moves each grabbed edge by exactly the pointer delta and keeps every other edge where it was. Every changed dimension ends above 30 px. States that do not grab the left (top) edge never change x (y). A left/top grab shifts x/y by exactly the width/height it removes. When nothing is carried out, no frame that follows the pointer is large enough. |
| TileGeometry.SizeIgnoresPosition | src/GoldenCheetah.cpp:459-560 | The requested size and whether it is granted depend only on the press-time size and the pointer delta, not on the frame position. So a repeated move at the same local pointer position asks for the same size. |
| GcWindowTile.ReleaseSignals | src/GoldenCheetah.cpp:383-395 | A release reports `moved` exactly when the state was Move and `resized` exactly when it was an edge or corner, and never more than one signal. A release in any other state, None included, emits nothing. |
| GcWindowTile.GcWindow.constructor | src/GoldenCheetah.cpp:187-200 | A new tile is not resizable, has no title margin and no drag in progress. |
| GcWindowTile.GcWindow.SetDragState | src/GoldenCheetah.cpp:599-605 | Enters the state; `gripped` is true exactly when the state is Move; the cursor takes the state's shape; nothing else changes. |
| GcWindowTile.GcWindow.MoveEvent | src/GoldenCheetah.cpp:133-140 | The frame is at the reported new position afterwards, so the next press or pointer move snapshots that position. A frame move outside a Move gesture forces state None; inside a Move gesture the drag state and cursor are kept. The size, the snapshot and the signals are untouched. |
| GcWindowTile.GcWindow.MousePress | src/GoldenCheetah.cpp:343-377 | A press on a non-resizable or hidden tile, or without a button, sets None and leaves the snapshot untouched. Any other press captures the size, factors, position and press point, and enters the classified hotspot with `gripped` exactly when it is Move. The tile invariant is kept. |
| GcWindowTile.GcWindow.TakeSnapshot | src/GoldenCheetah.cpp:364-372 | The snapshot fields equal the frame's current size, factors and position and the press point. |
| GcWindowTile.GcWindow.MouseMove | src/GoldenCheetah.cpp:429-567 | The drag state, size snapshot and press point are never changed. In None only the cursor follows the hotspot. In Move only `moving` is emitted and the frame stays put. In a resize state the frame goes where ResizeOutcome puts it and `NewSize` then `resizing` are emitted, or nothing happens when the guard fails. The position snapshot then equals the frame position. |
| GcWindowTile.GcWindow.Resize | src/GoldenCheetah.cpp:457-560 | The per-state switch of the source meets the edge-based rule: the frame moves to the candidate frame and the size is requested exactly when the candidate is large enough. |
| GcWindowTile.GcWindow.MouseRelease | src/GoldenCheetah.cpp:379-398 | Ends in None with `gripped` false and emits exactly ReleaseSignals of the old state. Geometry and snapshot are untouched. |
| GcWindowTile.GcWindow.EventFilter | src/GoldenCheetah.cpp:320-341 | Never consumes an event. It does nothing when the tile is not resizable, when no drag is in progress, or for other events. Otherwise it behaves as MouseMove or MouseRelease. |
| CurveLookup.FirstAbove | src/CriticalPowerWindow.cpp:214-227 | Returns the index of a sample right of x with every earlier sample at or left of x, or None when every sample is at or left of x. |
| CurveLookup.CrossingIsFirstAbove | src/CriticalPowerWindow.cpp:214-230 | On a sorted curve, the sample where the curve crosses x is the first sample right of x. |
| CurveLookup.NoneAboveLast | src/CriticalPowerWindow.cpp:212-230 | On a sorted non-empty curve, no sample lies right of x exactly when the last sample is at or left of x. |
| CurveLookup.CurveToPoint | src/CriticalPowerWindow.cpp:204-231 | Returns 0 for a null or empty curve and for x outside [first x, last x]. For any sample order, a non-zero result is the rounded y of a sample where the curve crosses x. On a sorted curve it is exactly CurveValue: the rounded y of the first sample right of x, and 0 when x is the last sample's x. |
| CriticalPower.InSeason | src/CriticalPowerWindow.cpp:154-157 | A ride is in a season exactly when it is not before a set start and not after a set end. A season with both bounds null holds every ride. |
| CriticalPower.SeasonIsInterval | src/CriticalPowerWindow.cpp:155-156 | A date between two dates of a season is in the season. |
| CriticalPower.UnitsFor | src/CriticalPowerWindow.cpp:238-273 | Watts exactly for watts, xPower, NP and every unlisted series. Energy (the `none` series) is kJ and watts/kg is Watts/kg. |
| CriticalPower.UnitsIdentifySeries | src/CriticalPowerWindow.cpp:238-273 | Two different series share units only when both are read in watts. |
| CriticalPower.CurveReadout | src/CriticalPowerWindow.cpp:276-295 | A curve readout shows "no data" exactly when the value is not positive, and otherwise the value with its units. |
| CriticalPower.CeilSeconds | src/CriticalPowerWindow.cpp:300 | The result is the least whole number not below minutes × 60. |
| CriticalPower.BestReadout | src/CriticalPowerWindow.cpp:299-317 | "no data" exactly when the index is outside [0, number of bests). Otherwise the rounded best at that index, its units and its date. |
| CriticalPower.CriticalPowerWindow.constructor | src/CriticalPowerWindow.cpp:36-37 | A new window starts stale, with no current ride, null cached dates and the default season identifier. |
| CriticalPower.CriticalPowerWindow.RideSelected | src/CriticalPowerWindow.cpp:165-178 | A hidden window does nothing. A visible one adopts the application's ride and, if there is one, asks the plot to recalculate, takes the CP the calculation arrives at and enables the CP button exactly when that CP is positive. |
| CriticalPower.CriticalPowerWindow.DateRangeChanged | src/CriticalPowerWindow.cpp:384-397 | Nothing happens when the window is hidden, or when the range is already memoized and nothing is stale. Otherwise it changes the season and recalculates, once. A visible window afterwards holds the range memoized, so the same range again is a no-op. |
| CriticalPower.CriticalPowerWindow.NewRideAdded | src/CriticalPowerWindow.cpp:136-163 | The current ride is forgotten exactly when it is the ride added or deleted. A range window stays stale unless visible, in which case it recalculates and memoizes its range. A season window stays stale, refreshes the season exactly when the ride is in it, and reselects the application's ride when visible, taking the CP the recalculation arrives at. |
| CriticalPower.CriticalPowerWindow.SeasonSelected | src/CriticalPowerWindow.cpp:399-406 | An index outside [0, number of seasons) changes nothing. Any other index records the season's id and shows that season. |
| CriticalPower.CriticalPowerWindow.UpdateCpint | src/CriticalPowerWindow.cpp:233-319 | The today label is the readout of the ride curve at the duration. The CP label is the readout of the CP curve, only when there is a CP curve. The best label is the best-effort readout at the duration rounded up to whole seconds. All three carry the series' units. |

## Left out

- `setNewSize` (src/GoldenCheetah.cpp:569-597) converts the requested size into width/height factors and snaps them to a grid in double precision with truncating casts. It appears only as the `NewSize(w, h)` signal. The frame's `width`, `height` and factor fields are therefore never changed by the model.
- Toolkit coordinates: `mapFromGlobal(QCursor::pos())` and the event's position are both read as the same local pointer position `(px, py)`. So the pointer delta is `px - mX`. How local coordinates shift when the frame itself moves is toolkit behaviour and is not modelled.
- Whether the toolkit delivers a move notification for the tile's own `move` calls is not modelled. `MoveEvent` is a separate operation; whoever repositions the tile (the tile itself, or the owner answering `moving`) reports the new position through it.
- Pointer positions are local to the frame. A resize step that moves the frame (left or top grabs) shifts the local position of a pointer that has not moved on the screen, so in the source the next event at the same screen position asks for a different size. The model takes the local position as given and does not relate it to screen positions.
- The Close and Flip branches of `mousePressEvent` (src/GoldenCheetah.cpp:354-362) are not in `MousePress`, because the hotspot test never yields those states (`SpotHotSpot`'s contract). The pre-4.7 `ClosedHandCursor` alternative is also left out.
- Painting, widget construction, menus, `enterEvent`/`leaveEvent`, `repaint` calls and the property getters and setters of `GcWindow` are drawing and wiring.
- Curve samples and readout values are doubles in the source and exact reals here.
- The rounding of values to a series' decimal places (src/CriticalPowerWindow.cpp:218-220, 305-306) is floating point. It is passed in as the function `round`.
- The `(int)` cast of the rounded-up duration is not modelled for overflow.
- The picker's `invTransform` and `str_to_interval` produce the duration in minutes from the toolkit. The duration is taken as an input.
- `getBests()` and `getBestDates()` are two parallel vectors in the source, and the readout reads the date at an index checked only against `getBests()` (src/CriticalPowerWindow.cpp:301-303). They are modelled as one sequence of value/date pairs, which assumes the two vectors have the same length.
- CriticalPower.CriticalPowerWindow.RideSelected, NewRideAdded, DateRangeChanged and SeasonSelected record each `calculate` and `changeSeason` request in `plotCalls` without its effect on the plot's curves (`thisCurve`, `cpCurve`) and best-effort table (`bests`); the plot's calculation is not part of this model. Only its CP is modelled, as the `calculatedCp` input that `RideSelected` reads back after asking for the calculation.
- Label texts are modelled as the `Readout` datatype, without the number and date formatting.
- CriticalPower.CriticalPowerWindow.NewRideAdded: requires a valid season index in season mode. The source indexes the season list with the chooser's current index unchecked.
- CriticalPower.CriticalPowerWindow.UpdateCpint: requires sorted curves (`Valid`) to state its labels exactly. The plotted curves are ordered by duration.
- `setSeries`, `filterChanged`, `cpintSetCPButtonClicked` (a message box), `addSeries`, `resetSeasons`, the constructor's signal/slot wiring, the picker's pen colour and the internals of the plot are widget plumbing or code that is not part of this model.
- src/CalendarDownload.cpp (an HTTP download with a file cache) and src/DownloadRideDialog.h (declarations only) are not part of this model.
