# max_min coordinator, modelled in Dafny

This project models the tracking engine of the Home Assistant integration
`max_min`: the coordinator `MaxMinDataUpdateCoordinator` in
`custom_components/max_min/coordinator.py`. The coordinator watches one
numeric sensor. It keeps a running maximum and minimum for one configured
calendar period (daily, weekly, monthly or yearly). It starts over at each
period boundary.

The model has six modules:

- `Optional` (optional.dfy): the `None`-able value used for `max_value`,
  `min_value` and `_reset_listener`.
- `Calendar` (calendar.dfy): civil dates as Python's `datetime` holds them.
  It covers leap years, month lengths, `toordinal()`, `weekday()` (Monday is
  0), and stepping forward by days as `+ timedelta(days=n)` does. The years
  run from 1 to 9999.
- `Schedule` (schedule.dfy): the reset-time computation of
  `_schedule_reset`. `NextReset(now, period)` is the next local midnight of
  the period's boundary. It is absent where Python would raise because the
  date passes year 9999. Lemmas state what each boundary is: the next day;
  the first Monday strictly after `now`; the first day of the next month; or
  1 January of the next year.
- `Extremes` (extremes.dfy): the rules for the two values. They cover which
  sensor states count as readings, how one reading widens the extremes, and
  what a reset and a first refresh set them to. A lemma covers a whole
  sequence of readings.
- `Config` (config.dfy): how the constructor picks its settings. Options
  come before data, and the period defaults to `daily`.
- `Coordinator` (coordinator.dfy): the class `MaxMinCoordinator`. Its
  fields are updated in place by methods that mirror the Python callbacks.
  The host's timers are a table `timers` from handles to target times.
  `listener` is `_reset_listener`. The invariant `Valid()` says that at most
  one timer is pending, and that it is the one `listener` holds.

The host's clock (`dt_util.now()`) and its state lookup (`hass.states.get`)
are method parameters (`clock`, `live`). Parsing with `float(...)` is
abstracted into the `SourceState` variants `NonNumeric` and
`Numeric(value: real)`.

This version of the code is the single-period coordinator. The documentation
of the later multi-period version describes behaviour that this code does not
have, and the model follows the code:

- The reset happens at the boundary itself. There is no offset, watchdog,
  restore or consistency step.
- A reset with an unusable live state clears both values. There is no
  configured floor or ceiling.
- A period with no branch in `_schedule_reset` is handled as the code
  handles it. The previous timer is cancelled, and then the call fails
  because `reset_time` is unbound. This is `NoBranchForPeriod`. Nothing
  new is armed.
- `async_unload` cancels the timer but leaves `_reset_listener` set.

## Model

| member | source | states |
|---|---|---|
| `Calendar.NextDayOrdinal` | custom_components/max_min/coordinator.py:98 | stepping one calendar day (rolling over month and year ends, leap years included) advances Python's ordinal by exactly one and moves strictly later |
| `Calendar.AddDaysOrdinal` | custom_components/max_min/coordinator.py:98-103 | `date + timedelta(days=n)`, taken one day at a time, lands exactly `n` ordinals later, strictly after the start when `n > 0` |
| `Calendar.WeekdayAddDays` | custom_components/max_min/coordinator.py:100 | `weekday()` advances by one per day modulo 7 |
| `Calendar.AddDaysWithinMonth` | custom_components/max_min/coordinator.py:98-103 | while there is room in the month, adding days only moves the day number |
| `Calendar.PastMonthEnd` | custom_components/max_min/coordinator.py:104-108 | one day past the month's last day is the first of the following month, December rolling to January of the next year |
| `Schedule.ParsePeriod` | custom_components/max_min/const.py:8-11 | a period string selects a branch exactly when it is one of the four period names, and then the branch whose name it is |
| `Schedule.DaysAhead` | custom_components/max_min/coordinator.py:100-102 | the days to the next Monday are `7 - weekday` (a full 7 from a Monday), between 1 and 7, and land on weekday 0 |
| `Schedule.BoundaryDate` | custom_components/max_min/coordinator.py:97-110 | every period's boundary date is a valid date strictly after the current date |
| `Schedule.NextReset` | custom_components/max_min/coordinator.py:96-110 | the reset time, when it exists, is a representable midnight (00:00:00.000000) strictly after `now` |
| `Schedule.DailyBoundary` | custom_components/max_min/coordinator.py:97-98 | the daily boundary is exactly one day after `now`'s date |
| `Schedule.WeeklyBoundary` | custom_components/max_min/coordinator.py:99-103 | the weekly boundary is a Monday 1 to 7 days ahead; it is 7 from a Monday, and no day before it is a Monday |
| `Schedule.NextMondayIsMonday` | custom_components/max_min/coordinator.py:100-103 | stepping `days_ahead` days from any date lands on a Monday |
| `Schedule.NoMondayWithin` | custom_components/max_min/coordinator.py:99-103 | no date strictly between `now`'s date and its weekly boundary is a Monday |
| `Schedule.NoMondayBefore` | custom_components/max_min/coordinator.py:100-102 | no shift smaller than `DaysAhead(w)` reaches weekday 0 |
| `Schedule.WeeklyBoundaryMonth` | custom_components/max_min/coordinator.py:99-103 | the weekly boundary is in the same month when there is room; otherwise it is in the following month |
| `Schedule.MonthlyBoundary` | custom_components/max_min/coordinator.py:104-108 | the monthly boundary is the first date after `now` outside its month. It lies (days in month − day + 1) days ahead for every month length and for leap and common Februaries. Every date before it stays in the month |
| `Schedule.StaysInMonth` | custom_components/max_min/coordinator.py:104-108 | every date from `now`'s up to the last day of its month lies in the same month and year |
| `Schedule.YearlyBoundary` | custom_components/max_min/coordinator.py:109-110 | the yearly boundary is 1 January of `year + 1`, as many days ahead as remain in the year |
| `Schedule.NextResetDefined` | custom_components/max_min/coordinator.py:96-110 | the computation fails only in year 9999. The exact condition per period: 31 December (daily); December when the Monday falls past 31 (weekly); December (monthly); any date (yearly) |
| `Schedule.DailyExample` | tests/unit/test_coordinator.py:119-135 | 2023-01-01 12:00 resets daily at 2023-01-02 00:00 |
| `Schedule.WeeklyFromMondayExample` | tests/unit/test_coordinator.py:340-359 | from Monday 2023-01-02 the weekly reset is 2023-01-09 00:00 |
| `Schedule.WeeklyFromSundayExample` | tests/unit/test_coordinator.py:361-379 | from Sunday 2023-01-08 the weekly reset is 2023-01-09 00:00 |
| `Schedule.MonthlyExamples` | tests/unit/test_coordinator.py:480-541 | 2023-12-31 resets monthly on 2024-01-01; 2024-02-29 on 2024-03-01 |
| `Schedule.YearlyExample` | tests/unit/test_coordinator.py:176-192 | 2023-06-15 resets yearly on 2024-01-01 |
| `Extremes.Reading` | custom_components/max_min/coordinator.py:83-85 | a state is a usable reading exactly when it is numeric; missing, `None`, "unknown", "unavailable" and non-numeric states are not |
| `Extremes.Observe` | custom_components/max_min/coordinator.py:86-89 | max becomes `v` exactly when absent or `v > max`, min exactly when absent or `v < min`; afterwards `min <= v <= max`, max never decreases and min never increases |
| `Extremes.ObserveState` | custom_components/max_min/coordinator.py:82-92 | an unusable state changes nothing; a numeric one ends with `min <= v <= max`; `max >= min` is preserved |
| `Extremes.Reset` | custom_components/max_min/coordinator.py:124-135 | after a reset max and min are equal: the live value, or both absent when the live state is unusable |
| `Extremes.Refresh` | custom_components/max_min/coordinator.py:60-69 | a numeric live value overwrites both extremes, including configured initial ones; any other state keeps them |
| `Extremes.ObserveAllSound` | custom_components/max_min/coordinator.py:80-92 | after any sequence of state changes the max is the largest, and the min the smallest, of the starting value and every numeric reading; they are present exactly when one of those exists; max never decreases, min never increases, and `max >= min` is kept |
| `Extremes.ResetIsFreshStart` | custom_components/max_min/coordinator.py:121-135 | after a reset, the extremes are those of observing the live state and then the later readings from nothing |
| `Config.Chosen` | custom_components/max_min/coordinator.py:37 | a setting comes from the options when present there, else from the data, else the default |
| `Config.ConfiguredPeriod` | custom_components/max_min/coordinator.py:37 | with no period configured the period is daily; otherwise it is `p` exactly when the chosen setting is `p`'s name |
| `Config.InitialValue` | custom_components/max_min/coordinator.py:40-41 | the initial max/min is the configured number, absent when none is configured |
| `Coordinator.MaxMinCoordinator.constructor` | custom_components/max_min/coordinator.py:33-42 | period and initial extremes come from the entry; no timer is pending |
| `Coordinator.MaxMinCoordinator.ScheduleReset` | custom_components/max_min/coordinator.py:94-119 | cancels the previous timer before arming one at `NextReset`, so at most one timer is pending and it lies strictly after the clock. An unhandled period cancels and then fails; an out-of-range boundary fails with nothing changed |
| `Coordinator.MaxMinCoordinator.FirstRefresh` | custom_components/max_min/coordinator.py:57-72 | extremes become `Refresh` of the old ones, then a reset is scheduled |
| `Coordinator.MaxMinCoordinator.HandleSensorChange` | custom_components/max_min/coordinator.py:79-92 | extremes become `ObserveState` of the old ones; observers are notified only for numeric states; timers untouched |
| `Coordinator.MaxMinCoordinator.HandleReset` | custom_components/max_min/coordinator.py:121-138 | extremes become `Reset(live)` so `max == min`, observers are notified once, and the next reset is scheduled |
| `Coordinator.DailyScenario` | tests/unit/test_coordinator.py:97-115 | the scenarios of the coordinator's tests at lines 97-115, 209-222, 282-301 and 718-733, chained: a daily coordinator refreshed at 10.0 arms a reset for the next midnight; an invalid reading keeps 10.0/10.0; 15.0 then 5.0 widen the extremes to 15.0/10.0 and then 15.0/5.0; a reset with the sensor unavailable clears both; after unload no reset is pending |
| `Coordinator.MaxMinCoordinator.Unload` | custom_components/max_min/coordinator.py:140-143 | cancels the pending timer (none remains), keeps the listener handle and the extremes |

## Left out

- The `inspect.signature` check and the `DataUpdateCoordinator`
  super-constructor (coordinator.py:44-55) are framework plumbing.
- `types` (coordinator.py:38) is stored but never read by the coordinator,
  so it is not modelled.
- Subscribing to state changes (coordinator.py:74-77) is not modelled. Calls
  of `HandleSensorChange` stand for the events that would arrive. One
  consequence is not modelled: when `_schedule_reset` raises, the
  subscription after it never happens.
- `_handle_reset` ignores its `now` argument, and the model has no such
  parameter. The time used for rescheduling is the `clock` parameter
  (`dt_util.now()`).
- Logging, and what the host does with an exception a callback raises, are
  not modelled. The model records an exception as the `ScheduleOutcome`
  that ends the call.
- Time zones, DST transitions and absolute instants are not modelled. The
  model does wall-clock civil arithmetic, as `+ timedelta` and `replace`
  do on an aware `datetime`.
- Floating point is not modelled. Readings are `real`, so NaN and infinities
  are not modelled. A NaN reading would compare false with everything.
- The keys `CONF_INITIAL_MAX` and `CONF_INITIAL_MIN` are not defined in
  `const.py`. The model names them `InitialMaxKey` and `InitialMinKey`, with
  assumed text.
- `Coordinator.MaxMinCoordinator.constructor`: requires `WellFormed(entry)`,
  that is, the unsuffixed initial max/min settings are numbers or absent.
  This is an assumption. The configuration form coerces to `float` only the
  per-period keys (`<period>_initial_max`, `<period>_initial_min`,
  config_flow.py:155-161, 275-297 and 336-343), and nothing writes the keys
  coordinator.py:40-41 reads. With a text value there, Python stores the
  text; a first refresh with an unusable live state keeps it; and the first
  numeric reading then raises `TypeError` at the comparison on
  coordinator.py:86 or 88. That path is not modelled.
- `Config.InitialValue`: requires the chosen setting not to be text, for
  the same reason and under the same assumption as the constructor above.
- Timer firing is not modelled. When a reset fires, the fired handle stays
  in `timers` until the reschedule cancels it. If the reschedule ends with
  `OutOfRange` (a yearly period in year 9999), `Pending()` still reports the
  spent target time.
- The watched entity's id (`sensor_entity`, coordinator.py:36) is not
  modelled: the model has no subscription to use it for. The `KeyError`
  that line raises when the entry's data lacks `sensor_entity` is not
  modelled either; the constructor always succeeds.
- `sensor.py`, `__init__.py` and `config_flow.py` are not part of this
  model. They are the entity wrappers, the setup glue and the configuration
  form.
- The multi-period engine is not modelled: offsets, dead zones, early and
  inline resets, the watchdog, restore, consistency propagation,
  configured floors and delta. The code modelled here does not have them.
