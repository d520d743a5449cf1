/** The value-level rules by which the coordinator keeps its running maximum
    and minimum: which source states count as readings, how one reading is
    folded in, and what a first refresh and a period reset set them to. */
module Extremes {
  import opened Optional

  /** A state of the watched entity, as `hass.states.get(...)` or an event's
      `new_state` gives it; parsing with `float(...)` is abstracted into the
      last two variants. */
  datatype SourceState =
    | Missing        // no state object at all (`None`)
    | NoState        // a state object whose `state` is `None`
    | Unknown        // the state text "unknown"
    | Unavailable    // the state text "unavailable"
    | NonNumeric     // any other text `float(...)` rejects
    | Numeric(value: real)

  /** The usable reading of a state: present exactly for a numeric state. */
  function Reading(s: SourceState): (r: Option<real>)
    ensures r.Some? <==> s.Numeric?
    ensures r.Some? ==> r.value == s.value
  {
    match s
    case Numeric(v) => Some(v)
    case _ => None
  }

  /** The coordinator's `max_value` and `min_value`. */
  datatype Extremes = Extremes(max: Option<real>, min: Option<real>)

  const Empty := Extremes(None, None)

  /** When both extremes are present, the maximum is not below the minimum. */
  predicate Ordered(e: Extremes) {
    e.max.Some? && e.min.Some? ==> e.min.value <= e.max.value
  }

  /** Folding one numeric reading `v` into the running extremes. */
  function Observe(e: Extremes, v: real): (r: Extremes)
    ensures r.max.Some? && r.min.Some? && r.min.value <= v <= r.max.value
    ensures r.max == Some(v) || r.max == e.max
    ensures r.min == Some(v) || r.min == e.min
    ensures e.max.Some? ==> e.max.value <= r.max.value
    ensures e.min.Some? ==> r.min.value <= e.min.value
    ensures r.max != e.max <==> e.max.None? || v > e.max.value
    ensures r.min != e.min <==> e.min.None? || v < e.min.value
  {
    var max := if e.max.None? || v > e.max.value then Some(v) else e.max;
    var min := if e.min.None? || v < e.min.value then Some(v) else e.min;
    Extremes(max, min)
  }

  /** A state change: numeric readings are folded in, every other state is ignored. */
  function ObserveState(e: Extremes, s: SourceState): (r: Extremes)
    ensures !s.Numeric? ==> r == e
    ensures s.Numeric? ==> r.min.Some? && r.max.Some? && r.min.value <= s.value <= r.max.value
    ensures Ordered(e) ==> Ordered(r)
  {
    match Reading(s)
    case Some(v) => Observe(e, v)
    case None => e
  }

  /** The extremes after a period reset with live state `live`. */
  function Reset(live: SourceState): (r: Extremes)
    ensures r.max == r.min == Reading(live)
  {
    match Reading(live)
    case Some(v) => Extremes(Some(v), Some(v))
    case None => Empty
  }

  /** The extremes after the first refresh: the live value overwrites any
      configured initial values, and an unusable live state keeps them. */
  function Refresh(e: Extremes, live: SourceState): (r: Extremes)
    ensures live.Numeric? ==> r.max == r.min == Some(live.value)
    ensures !live.Numeric? ==> r == e
  {
    match Reading(live)
    case Some(v) => Extremes(Some(v), Some(v))
    case None => e
  }

  // ---------------------------------------------------------------------
  // A sequence of state changes between two resets.
  // ---------------------------------------------------------------------

  /** The extremes after the state changes `ss`, in order. */
  function ObserveAll(e: Extremes, ss: seq<SourceState>): Extremes
    decreases |ss|
  {
    if ss == [] then e else ObserveAll(ObserveState(e, ss[0]), ss[1..])
  }

  /** The numeric readings among `ss`, in order. */
  function Values(ss: seq<SourceState>): seq<real>
    decreases |ss|
  {
    if ss == [] then []
    else (match Reading(ss[0]) case Some(v) => [v] case None => []) + Values(ss[1..])
  }

  /** Extremum soundness: after any sequence of state changes, the maximum
      is the largest of the starting maximum and every numeric reading, and
      the minimum the smallest; neither moves the wrong way, and the order
      of the two is kept. */
  lemma {:induction false} ObserveAllSound(e: Extremes, ss: seq<SourceState>)
    ensures var r := ObserveAll(e, ss);
      (r.max.Some? <==> e.max.Some? || Values(ss) != []) &&
      (r.min.Some? <==> e.min.Some? || Values(ss) != []) &&
      (forall v :: v in Values(ss) ==> r.min.value <= v <= r.max.value) &&
      (e.max.Some? ==> e.max.value <= r.max.value) &&
      (e.min.Some? ==> r.min.value <= e.min.value) &&
      (r.max.Some? ==> r.max == e.max || r.max.value in Values(ss)) &&
      (r.min.Some? ==> r.min == e.min || r.min.value in Values(ss)) &&
      (Ordered(e) ==> Ordered(r))
    decreases |ss|
  {
    if ss != [] {
      var e1 := ObserveState(e, ss[0]);
      ObserveAllSound(e1, ss[1..]);
      assert Values(ss) == Values([ss[0]]) + Values(ss[1..]);
    }
  }

  /** A reset forgets everything before it: the extremes that follow are
      those of observing the live state from nothing. */
  lemma ResetIsFreshStart(live: SourceState, ss: seq<SourceState>)
    ensures ObserveAll(Reset(live), ss) == ObserveAll(Empty, [live] + ss)
  {
  }
}
