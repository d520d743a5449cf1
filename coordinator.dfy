/** The coordinator object: the running extremes it updates in place, the
    reset timer it keeps armed, and the callbacks that change them. The
    host's clock (`dt_util.now()`) and state lookup (`hass.states.get`) are
    passed in as `clock` and `live`; the host's point-in-time timers are the
    table `timers`, from handles to target times. */
module Coordinator {
  import opened Optional
  import opened Calendar
  import opened Schedule
  import opened Extremes
  import opened Config

  /** How a call of `_schedule_reset` ends. */
  datatype ScheduleOutcome =
    | Armed(at: DateTime)   // a timer is armed for `at`
    | NoBranchForPeriod     // the period matched no branch: the name `reset_time` is unbound
    | OutOfRange            // the boundary lies past the last year a `datetime` holds

  /** The handles to cancel when the listener `l` is called. */
  function Cancelled(l: Option<nat>): set<nat> {
    match l
    case Some(h) => {h}
    case None => {}
  }

  class MaxMinCoordinator {
    const period: Option<Period>
    var maxValue: Option<real>
    var minValue: Option<real>
    /** `_reset_listener`: the handle of the timer this coordinator armed last. */
    var listener: Option<nat>
    /** The timers armed with the host and not cancelled, by handle (a timer
        that has fired stays until it is cancelled; firing is not modelled). */
    var timers: map<nat, DateTime>
    /** The next handle the host hands out. */
    var nextHandle: nat
    /** How many times observers were notified (`async_set_updated_data`). */
    var notifications: nat

    /** At most one timer is pending, and it is the one `listener` holds. */
    ghost predicate Valid()
      reads this
    {
      (forall h :: h in timers ==> listener == Some(h)) &&
      (listener.Some? ==> listener.value < nextHandle)
    }

    function Current(): Extremes
      reads this
    {
      Extremes(maxValue, minValue)
    }

    /** The target time of the pending reset, if one is pending. */
    function Pending(): Option<DateTime>
      reads this
    {
      if listener.Some? && listener.value in timers then Some(timers[listener.value]) else None
    }

    /** The timer bookkeeping of one `_schedule_reset` with clock `clock`. */
    twostate predicate Rescheduled(clock: DateTime, outcome: ScheduleOutcome)
      reads this
      requires ValidDateTime(clock)
    {
      match period
      case None =>
        outcome == NoBranchForPeriod && listener == None &&
        timers == old(timers) - Cancelled(old(listener)) && nextHandle == old(nextHandle)
      case Some(p) =>
        match NextReset(clock, p)
        case None =>
          outcome == OutOfRange && listener == old(listener) &&
          timers == old(timers) && nextHandle == old(nextHandle)
        case Some(t) =>
          outcome == Armed(t) && listener == Some(old(nextHandle)) &&
          timers == (old(timers) - Cancelled(old(listener)))[old(nextHandle) := t] &&
          nextHandle == old(nextHandle) + 1
    }

    /** `__init__`: the period and the initial extremes come from the entry,
        options before data; no timer is armed yet. */
    constructor (entry: ConfigEntry)
      requires WellFormed(entry)
      ensures Valid()
      ensures period == ConfiguredPeriod(entry)
      ensures maxValue == InitialValue(entry, InitialMaxKey)
      ensures minValue == InitialValue(entry, InitialMinKey)
      ensures listener == None && timers == map[] && Pending() == None
      ensures notifications == 0
    {
      period := ConfiguredPeriod(entry);
      maxValue := InitialValue(entry, InitialMaxKey);
      minValue := InitialValue(entry, InitialMinKey);
      listener := None;
      timers := map[];
      nextHandle := 0;
      notifications := 0;
    }

    /** `_schedule_reset`: compute the next boundary, cancel the previous
        timer, arm a new one. An unhandled period fails only after the
        cancellation; an out-of-range boundary fails before it. */
    method ScheduleReset(clock: DateTime) returns (outcome: ScheduleOutcome)
      requires Valid() && ValidDateTime(clock)
      modifies this
      ensures Valid() && Rescheduled(clock, outcome)
      ensures outcome.Armed? ==> Pending() == Some(outcome.at) && timers.Keys == {listener.value}
      ensures outcome.Armed? ==> Before(clock, outcome.at)
      ensures maxValue == old(maxValue) && minValue == old(minValue)
      ensures notifications == old(notifications)
    {
      var resetTime: Option<DateTime>;
      match period {
        case None =>
          resetTime := None;
        case Some(p) =>
          resetTime := NextReset(clock, p);
          if resetTime.None? {
            return OutOfRange;
          }
      }
      if listener.Some? {
        timers := timers - {listener.value};
        listener := None;
      }
      if resetTime.None? {
        return NoBranchForPeriod;
      }
      var handle := nextHandle;
      timers := timers[handle := resetTime.value];
      nextHandle := nextHandle + 1;
      listener := Some(handle);
      outcome := Armed(resetTime.value);
    }

    /** `async_config_entry_first_refresh`: a numeric live state overwrites
        both extremes, anything else keeps them; then the reset is scheduled. */
    method FirstRefresh(clock: DateTime, live: SourceState) returns (outcome: ScheduleOutcome)
      requires Valid() && ValidDateTime(clock)
      modifies this
      ensures Valid() && Rescheduled(clock, outcome)
      ensures Current() == Refresh(old(Current()), live)
      ensures notifications == old(notifications)
    {
      if live.Numeric? {
        var currentValue := live.value;
        maxValue := Some(currentValue);
        minValue := Some(currentValue);
      }
      outcome := ScheduleReset(clock);
    }

    /** `_handle_sensor_change`: fold a numeric new state into the extremes and
        notify observers; ignore every other state. */
    method HandleSensorChange(newState: SourceState)
      modifies this
      ensures Current() == ObserveState(old(Current()), newState)
      ensures notifications == old(notifications) + (if newState.Numeric? then 1 else 0)
      ensures listener == old(listener) && timers == old(timers) && nextHandle == old(nextHandle)
    {
      if newState.Numeric? {
        var value := newState.value;
        if maxValue.None? || value > maxValue.value {
          maxValue := Some(value);
        }
        if minValue.None? || value < minValue.value {
          minValue := Some(value);
        }
        notifications := notifications + 1;
      }
    }

    /** `_handle_reset`: both extremes become the live value, or absent when
        the live state is unusable; observers are notified; the next reset is
        scheduled. */
    method HandleReset(clock: DateTime, live: SourceState) returns (outcome: ScheduleOutcome)
      requires Valid() && ValidDateTime(clock)
      modifies this
      ensures Valid() && Rescheduled(clock, outcome)
      ensures Current() == Reset(live)
      ensures maxValue == minValue
      ensures notifications == old(notifications) + 1
    {
      if live.Numeric? {
        var currentValue := live.value;
        maxValue := Some(currentValue);
        minValue := Some(currentValue);
      } else {
        maxValue := None;
        minValue := None;
      }
      notifications := notifications + 1;
      outcome := ScheduleReset(clock);
    }

    /** `async_unload`: cancel the pending timer. The listener attribute keeps
        its (now spent) handle, so a second unload cancels nothing new. */
    method Unload()
      requires Valid()
      modifies this
      ensures Valid()
      ensures timers == map[] && Pending() == None
      ensures timers == old(timers) - Cancelled(old(listener))
      ensures listener == old(listener) && nextHandle == old(nextHandle)
      ensures Current() == old(Current()) && notifications == old(notifications)
    {
      if listener.Some? {
        timers := timers - {listener.value};
      }
    }
  }

  /** A day of readings as the coordinator's tests drive it: the first
      refresh takes the live value, a non-numeric reading is ignored, later
      readings widen the extremes, a reset with the sensor unavailable clears
      both, and unloading leaves no timer pending. */
  method DailyScenario() returns (armed: ScheduleOutcome, afterInvalid: Extremes, afterRise: Extremes,
                                  afterFall: Extremes, afterReset: Extremes, pendingAfterUnload: Option<DateTime>)
    ensures armed == Armed(Midnight(Date(2023, 1, 2)))
    ensures afterInvalid == Extremes(Some(10.0), Some(10.0))
    ensures afterRise == Extremes(Some(15.0), Some(10.0))
    ensures afterFall == Extremes(Some(15.0), Some(5.0))
    ensures afterReset == Empty
    ensures pendingAfterUnload == None
  {
    var entry := ConfigEntry(map[PeriodKey := Text("daily")], map[]);
    var c := new MaxMinCoordinator(entry);
    var noon := DateTime(Date(2023, 1, 1), 12, 0, 0, 0);
    armed := c.FirstRefresh(noon, Numeric(10.0));
    assert c.period == Some(Daily);
    DailyExample();

    c.HandleSensorChange(NonNumeric);
    afterInvalid := c.Current();
    c.HandleSensorChange(Numeric(15.0));
    afterRise := c.Current();
    c.HandleSensorChange(Numeric(5.0));
    afterFall := c.Current();

    var rearmed := c.HandleReset(Midnight(Date(2023, 1, 2)), Unavailable);
    afterReset := c.Current();

    c.Unload();
    pendingAfterUnload := c.Pending();
  }
}
