/** How the coordinator's constructor reads its configuration entry: every
    setting is looked up in the entry's options first, then in its data, then
    falls back to a default. */
module Config {
  import opened Optional
  import opened Schedule

  /** A stored configuration value (Python `None`, a number or a string). */
  datatype Setting = Null | Num(r: real) | Text(s: string)

  type Settings = map<string, Setting>

  /** A configuration entry: the data from set-up and the options from later edits. */
  datatype ConfigEntry = ConfigEntry(data: Settings, options: Settings)

  /** Key of the configured period (`CONF_PERIOD`). */
  const PeriodKey: string := "period"

  /** Keys of the configured initial extremes (`CONF_INITIAL_MAX`, `CONF_INITIAL_MIN`). */
  const InitialMaxKey: string := "initial_max"
  const InitialMinKey: string := "initial_min"

  /** `options.get(key, data.get(key, default))`: options take precedence over
      data, and the default is used only when neither holds the key. A key
      present with the value `None` still wins. */
  function Chosen(entry: ConfigEntry, key: string, default: Setting): (r: Setting)
    ensures key in entry.options ==> r == entry.options[key]
    ensures key !in entry.options && key in entry.data ==> r == entry.data[key]
    ensures key !in entry.options && key !in entry.data ==> r == default
  {
    var fromData := if key in entry.data then entry.data[key] else default;
    if key in entry.options then entry.options[key] else fromData
  }

  /** The period the coordinator runs with; `None` for a setting that none of
      the branches of `_schedule_reset` handles. */
  function ConfiguredPeriod(entry: ConfigEntry): (r: Option<Period>)
    ensures PeriodKey !in entry.options && PeriodKey !in entry.data ==> r == Some(Daily)
    ensures forall p: Period ::
      r == Some(p) <==> Chosen(entry, PeriodKey, Text(PeriodName(Daily))) == Text(PeriodName(p))
  {
    match Chosen(entry, PeriodKey, Text(PeriodName(Daily)))
    case Text(s) => ParsePeriod(s)
    case _ => None
  }

  /** The configured initial extremes are numbers or absent (an assumption: no
      configuration step writes these keys; see README ## Left out). */
  predicate WellFormed(entry: ConfigEntry) {
    !Chosen(entry, InitialMaxKey, Null).Text? && !Chosen(entry, InitialMinKey, Null).Text?
  }

  /** The configured initial value under `key`, `None` when not configured. */
  function InitialValue(entry: ConfigEntry, key: string): (r: Option<real>)
    requires !Chosen(entry, key, Null).Text?
    ensures r.Some? <==> Chosen(entry, key, Null).Num?
    ensures r.Some? ==> Chosen(entry, key, Null) == Num(r.value)
  {
    match Chosen(entry, key, Null)
    case Num(v) => Some(v)
    case _ => None
  }
}
