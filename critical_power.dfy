/** The critical-power chart window: which units a series is read in, the
    readouts under the chart, and the window's small cache of the date range
    it last plotted, which new or deleted rides invalidate. */
module CriticalPower {
  import opened Wrappers
  import opened CurveLookup

  /** A calendar date, or the null date that an open-ended season bound
      holds. Valid dates are day numbers. */
  datatype Date = NullDate | Day(jd: int)

  datatype DateRange = DateRange(from: Date, to: Date)

  /** A season: an identifier and two bounds, each of which may be null. */
  datatype Season = Season(id: string, start: Date, end: Date)

  /** A ride known to the application: an identity and the day it was ridden. */
  datatype Ride = Ride(id: nat, date: int)

  /** The series the chart can show. Energy is the source's `none` series,
      which the chart shows as energy; Other stands for every remaining
      series of a ride file. */
  datatype Series = Watts | WattsKg | XPower | NP | Hr | Kph | Cad | Nm | Vam | Energy | Other

  /** One entry of the best-effort table: its value and the date it was set. */
  datatype Best = Best(value: real, date: Date)

  /** What one of the window's readout labels shows. */
  datatype Readout =
    | NoData
    | Reading(value: real, units: string)
    | DatedReading(value: real, units: string, date: Date)

  /** What the chart asks of its plot, in order. */
  datatype PlotCall = ChangeSeason(start: Date, end: Date) | Calculate(ride: Option<nat>)

  /** The series whose values are read in watts. */
  predicate InWatts(s: Series)
  {
    s == Watts || s == XPower || s == NP || s == Other
  }

  /** A ride dated `date` falls in `season`: a null bound leaves that side
      of the season open. */
  function InSeason(date: int, season: Season): (r: bool)
    ensures season.start.NullDate? && season.end.NullDate? ==> r
    ensures r <==> (season.start.Day? ==> season.start.jd <= date) && (season.end.Day? ==> date <= season.end.jd)
  {
    ((season.start.Day? && date >= season.start.jd) || season.start == NullDate)
    && ((season.end.Day? && date <= season.end.jd) || season.end == NullDate)
  }

  /** A season is an interval: a date between two dates in it is in it. */
  lemma SeasonIsInterval(season: Season, d1: int, d2: int, d3: int)
    requires d1 <= d2 <= d3 && InSeason(d1, season) && InSeason(d3, season)
    ensures InSeason(d2, season)
  {
  }

  /** The units a series is shown in: watts for power-like series, and a
      unit of its own for each of the others. */
  function UnitsFor(s: Series): (u: string)
    ensures u == "Watts" <==> InWatts(s)
    ensures s == Energy ==> u == "kJ"
    ensures s == WattsKg ==> u == "Watts/kg"
  {
    match s
    case Energy => "kJ"
    case Cad => "rpm"
    case Kph => "kph"
    case Hr => "bpm"
    case Nm => "nm"
    case Vam => "metres/hour"
    case WattsKg => "Watts/kg"
    case Watts | XPower | NP | Other => "Watts"
  }

  /** Two series shown in the same units are the same series, unless both
      are read in watts. */
  lemma UnitsIdentifySeries(a: Series, b: Series)
    requires UnitsFor(a) == UnitsFor(b) && a != b
    ensures InWatts(a) && InWatts(b)
  {
  }

  /** The readout of a value read off a curve: only a positive value is shown. */
  function CurveReadout(value: real, units: string): (r: Readout)
    ensures r.NoData? <==> value <= 0.0
    ensures r.Reading? ==> r.value == value && r.units == units
    ensures !r.DatedReading?
  {
    if value > 0.0 then Reading(value, units) else NoData
  }

  /** The smallest whole number of seconds that is not below `minutes`. */
  function CeilSeconds(minutes: real): (i: int)
    ensures (i - 1) as real < minutes * 60.0 <= i as real
  {
    -((-(minutes * 60.0)).Floor)
  }

  /** The readout of the best-effort table at second `index`: no data when the
      table has no entry there, else the entry's rounded value and its date. */
  function BestReadout(index: int, bests: seq<Best>, units: string, round: real -> real): (r: Readout)
    ensures r.NoData? <==> !(0 <= index < |bests|)
    ensures r.DatedReading? ==>
      r.value == round(bests[index].value) && r.units == units && r.date == bests[index].date
    ensures !r.Reading?
  {
    if index >= 0 && |bests| > index then DatedReading(round(bests[index].value), units, bests[index].date)
    else NoData
  }

  class CriticalPowerWindow {
    /** Whether the window follows a date range (true) or a season chooser. */
    const rangemode: bool

    // toolkit and application state the handlers read
    var visible: bool
    var rideItem: Option<nat>
    var myDateRange: DateRange
    var seasons: seq<Season>
    var seasonIndex: int
    var series: Series

    // what the plot holds
    var thisCurve: Option<seq<Point>>
    var cpCurve: Option<seq<Point>>
    var bests: seq<Best>
    var cp: real

    // the window's own state
    var currentRide: Option<nat>
    var stale: bool
    var cfrom: Date
    var cto: Date
    var seasonId: string
    var cpButtonEnabled: bool
    var todayLabel: Readout
    var cpLabel: Readout
    var bestLabel: Readout

    /** Every request made of the plot, oldest first. */
    var plotCalls: seq<PlotCall>

    /** The plotted curves are ordered by duration. */
    ghost predicate Valid()
      reads this
    {
      (thisCurve.Some? ==> Sorted(thisCurve.value)) && (cpCurve.Some? ==> Sorted(cpCurve.value))
    }

    /** The plot already shows `dr` and nothing has invalidated it. */
    predicate Memoized(dr: DateRange)
      reads this
    {
      !stale && cfrom == dr.from && cto == dr.to
    }

    constructor (rangemode: bool, seasons: seq<Season>)
      ensures Valid()
      ensures this.rangemode == rangemode && this.seasons == seasons
      ensures stale && currentRide.None? && cfrom == NullDate && cto == NullDate
      ensures seasonId == "{00000000-0000-0000-0000-000000000001}"
      ensures todayLabel == NoData && cpLabel == NoData && bestLabel == NoData
      ensures plotCalls == []
    {
      this.rangemode := rangemode;
      this.seasons := seasons;
      seasonIndex := 0;
      visible, rideItem, myDateRange := false, None, DateRange(NullDate, NullDate);
      series := Watts;
      thisCurve, cpCurve, bests, cp := None, None, [], 0.0;
      currentRide, stale := None, true;
      cfrom, cto := NullDate, NullDate;
      seasonId := "{00000000-0000-0000-0000-000000000001}";
      cpButtonEnabled := false;
      todayLabel, cpLabel, bestLabel := NoData, NoData, NoData;
      plotCalls := [];
    }

    /** The window shows the ride selected in the application. The plot's
        calculation is outside this model: `calculatedCp` is the CP it
        arrives at, which the window reads back once it has asked for it. */
    method RideSelected(calculatedCp: real)
      modifies this`currentRide, this`plotCalls, this`cp, this`cpButtonEnabled
      ensures !old(visible) ==> unchanged(this)
      ensures old(visible) ==> currentRide == rideItem
      ensures old(visible) && rideItem.Some? ==>
        plotCalls == old(plotCalls) + [Calculate(rideItem)]
        && cp == calculatedCp && cpButtonEnabled == (calculatedCp > 0.0)
      ensures old(visible) && rideItem.None? ==>
        plotCalls == old(plotCalls) && cp == old(cp) && cpButtonEnabled == old(cpButtonEnabled)
    {
      if !visible {
        return;
      }
      currentRide := rideItem;
      if currentRide.Some? {
        plotCalls := plotCalls + [Calculate(currentRide)];
        cp := calculatedCp;
        cpButtonEnabled := cp > 0.0;
      }
    }

    /** The window is shown the range `dr`: unless hidden, or already showing
        `dr` with nothing invalidated, the plot is recalculated once and `dr`
        is remembered. Either way a visible window then holds `dr` memoized,
        so the same range straight after is a no-op. */
    method DateRangeChanged(dr: DateRange)
      modifies this`plotCalls, this`cfrom, this`cto, this`stale
      ensures !old(visible) || old(Memoized(dr)) ==> unchanged(this)
      ensures old(visible) && !old(Memoized(dr)) ==>
        plotCalls == old(plotCalls) + [ChangeSeason(dr.from, dr.to), Calculate(currentRide)]
      ensures old(visible) ==> Memoized(dr)
    {
      if !visible {
        return;
      }
      if dr.from == cfrom && dr.to == cto && !stale {
        return;
      }
      plotCalls := plotCalls + [ChangeSeason(dr.from, dr.to), Calculate(currentRide)];
      cfrom := dr.from;
      cto := dr.to;
      stale := false;
    }

    /** A ride was added or deleted: what the plot shows is stale, and the
        window forgets `here` if it was its current ride. A date-range window
        then recalculates its range; a season window refreshes the plot when
        the ride falls in the chosen season and, if visible, reselects the
        application's ride, `calculatedCp` being the CP the plot then
        arrives at. */
    method NewRideAdded(here: Ride, calculatedCp: real)
      requires rangemode || 0 <= seasonIndex < |seasons|
      modifies this`stale, this`currentRide, this`plotCalls, this`cfrom, this`cto, this`cp, this`cpButtonEnabled
      ensures rangemode ==>
        var kept := if old(currentRide) == Some(here.id) then None else old(currentRide);
        && currentRide == kept
        && cp == old(cp) && cpButtonEnabled == old(cpButtonEnabled)
        && (visible ==>
              plotCalls == old(plotCalls) + [ChangeSeason(myDateRange.from, myDateRange.to), Calculate(kept)]
              && Memoized(myDateRange))
        && (!visible ==> stale && plotCalls == old(plotCalls) && cfrom == old(cfrom) && cto == old(cto))
      ensures !rangemode ==>
        var season := seasons[seasonIndex];
        var refresh := if InSeason(here.date, season) then [ChangeSeason(season.start, season.end)] else [];
        && stale && cfrom == old(cfrom) && cto == old(cto)
        && (visible ==>
              currentRide == rideItem
              && plotCalls == old(plotCalls) + refresh + (if rideItem.Some? then [Calculate(rideItem)] else [])
              && cp == (if rideItem.Some? then calculatedCp else old(cp))
              && cpButtonEnabled == (if rideItem.Some? then calculatedCp > 0.0 else old(cpButtonEnabled)))
        && (!visible ==>
              currentRide == (if old(currentRide) == Some(here.id) then None else old(currentRide))
              && plotCalls == old(plotCalls) + refresh
              && cp == old(cp) && cpButtonEnabled == old(cpButtonEnabled))
    {
      // any plot already drawn is now stale
      stale := true;

      if currentRide == Some(here.id) {
        currentRide := None;
      }

      if rangemode {
        stale := true;
        DateRangeChanged(myDateRange);
      } else {
        var season := seasons[seasonIndex];
        if InSeason(here.date, season) {
          plotCalls := plotCalls + [ChangeSeason(season.start, season.end)];
        }
        if visible {
          RideSelected(calculatedCp);
        }
      }
    }

    /** A season is chosen: an index outside the season list is ignored,
        any other shows that season. */
    method SeasonSelected(i: int)
      modifies this`seasonId, this`plotCalls
      ensures !(0 <= i < |seasons|) ==> unchanged(this)
      ensures 0 <= i < |seasons| ==>
        seasonId == seasons[i].id
        && plotCalls == old(plotCalls) + [ChangeSeason(seasons[i].start, seasons[i].end), Calculate(currentRide)]
    {
      if i >= |seasons| || i < 0 {
        return;
      }
      var season := seasons[i];
      seasonId := season.id;
      plotCalls := plotCalls + [ChangeSeason(season.start, season.end), Calculate(currentRide)];
    }

    /** The readouts for a duration of `minutes`: the ride's curve and the CP
        curve read at that duration (the latter only when there is a CP curve),
        and the best-effort table at that duration rounded up to whole
        seconds. `round` rounds to the current series' decimals. */
    method UpdateCpint(minutes: real, round: real -> real)
      requires Valid()
      modifies this`todayLabel, this`cpLabel, this`bestLabel
      ensures todayLabel == CurveReadout(CurveValue(minutes, thisCurve, round), UnitsFor(series))
      ensures cpCurve.Some? ==> cpLabel == CurveReadout(CurveValue(minutes, cpCurve, round), UnitsFor(series))
      ensures cpCurve.None? ==> cpLabel == old(cpLabel)
      ensures bestLabel == BestReadout(CeilSeconds(minutes), bests, UnitsFor(series), round)
    {
      var units := UnitsFor(series);

      // current ride
      var value := CurveToPoint(minutes, thisCurve, round);
      todayLabel := if value > 0.0 then Reading(value, units) else NoData;

      // cp line
      if cpCurve.Some? {
        value := CurveToPoint(minutes, cpCurve, round);
        cpLabel := if value > 0.0 then Reading(value, units) else NoData;
      }

      // best efforts
      var index := CeilSeconds(minutes);
      if index >= 0 && |bests| > index {
        bestLabel := DatedReading(round(bests[index].value), units, bests[index].date);
      } else {
        bestLabel := NoData;
      }
    }
  }
}
