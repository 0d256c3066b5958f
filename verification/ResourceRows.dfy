/**
 * One resource at a time: the numbers a resource holds, the tolerance arithmetic that decides
 * whether two of them differ enough to publish, and what each operation does to them
 * (packages/core/src/resource-state.ts). Amounts are exact reals.
 */
module ResourceRows {
  import opened Wrappers

  /** A capacity; `Infinity` is the absence of a limit. */
  datatype Capacity = Infinite | Finite(limit: real) {
    predicate Admits(x: real) {
      Infinite? || x <= limit
    }

    function Clamp(x: real): real {
      if Admits(x) then x else limit
    }
  }

  /** The bits of `flags`; `Code` is the number the bits other than the dirty one spell. */
  datatype Flags = Flags(visible: bool, unlocked: bool, dirty: bool) {
    function Code(): real {
      (if visible then 1.0 else 0.0) + (if unlocked then 2.0 else 0.0)
    }
  }

  /** One index of the eight parallel arrays that live state and publish buffers consist of. */
  datatype Row = Row(
    amount: real, capacity: Capacity, income: real, expense: real, net: real, tickDelta: real,
    flags: Flags, tolerance: real)

  function Abs(x: real): real {
    if x < 0.0 then -x else x
  }

  function MaxOf(x: real, y: real): real {
    if x < y then y else x
  }

  function MinOf(x: real, y: real): real {
    if x < y then x else y
  }

  /**
   * The resolved tolerances. `equals` is `epsilonEquals`: it compares two numbers under a ceiling,
   * with or without flooring the tolerance at that ceiling.
   */
  datatype Precision = Precision(
    absolute: real, ceiling: real, overrideMax: real, equals: (real, real, real, bool) -> bool)

  /** What dirty tracking needs of the tolerances: nested limits and a reflexive comparison. */
  ghost predicate PrecisionOk(p: Precision) {
    && 0.0 <= p.absolute <= p.ceiling <= p.overrideMax
    && (forall a: real, t: real, f: bool :: p.equals(a, a, t, f))
    && (FlagsSafe(p) ==>
          forall a: Flags, b: Flags, t: real, f: bool ::
            t <= p.overrideMax && p.equals(a.Code(), b.Code(), t, f) ==>
                a.visible == b.visible && a.unlocked == b.unlocked)
  }

  /** With tolerances below one, no flag change hides inside a tolerance, although flags are compared as numbers. */
  predicate FlagsSafe(p: Precision) {
    p.overrideMax < 1.0
  }

  function EffectiveTolerance(absolute: real, factor: real, a: real, b: real, ceiling: real,
                              floorOverride: bool): real
  {
    var relative := factor * MaxOf(Abs(a), Abs(b));
    var tolerance := MaxOf(absolute, MinOf(ceiling, relative));
    if floorOverride then MaxOf(tolerance, ceiling) else tolerance
  }

  predicate EpsilonEquals(absolute: real, factor: real, a: real, b: real, ceiling: real, floorOverride: bool) {
    a == b || Abs(a - b) <= EffectiveTolerance(absolute, factor, a, b, ceiling, floorOverride)
  }

  function NonNegativeOr(value: Option<real>, default: real): real {
    if value.Some? && value.value >= 0.0 then value.value else default
  }

  /** `resolvePrecisionConfig`: absent or negative settings take their defaults, and limits are nested. */
  function ResolvePrecision(absolute: Option<real>, factor: Option<real>, ceiling: Option<real>,
                            overrideMax: Option<real>): (p: Precision)
  {
    var abs := NonNegativeOr(absolute, 0.000000001);
    var rel := NonNegativeOr(factor, 0.000000001);
    var top := MaxOf(abs, NonNegativeOr(ceiling, 0.001));
    Precision(abs, top, MaxOf(top, NonNegativeOr(overrideMax, 0.5)),
              (a: real, b: real, t: real, f: bool) => EpsilonEquals(abs, rel, a, b, t, f))
  }

  /** `x` is within one of the tolerances: the absolute one, the relative one up to a ceiling, or a floored ceiling. */
  predicate WithinTolerance(x: real, absolute: real, relative: real, ceiling: real, floored: bool) {
    x <= absolute || (x <= relative && x <= ceiling) || (floored && x <= ceiling)
  }

  /** Two numbers compare as equal when they are, or when their distance is within tolerance either way. */
  lemma EqualsIff(absolute: real, factor: real, a: real, b: real, ceiling: real, floored: bool)
    ensures EpsilonEquals(absolute, factor, a, b, ceiling, floored) <==>
              var relative := factor * MaxOf(Abs(a), Abs(b));
              || a == b
              || (WithinTolerance(a - b, absolute, relative, ceiling, floored)
                  && WithinTolerance(b - a, absolute, relative, ceiling, floored))
  {
  }

  /** Settings that are absent or negative take their defaults, and the limits are nested. */
  lemma ResolvedSettings(absolute: Option<real>, ceiling: Option<real>, overrideMax: Option<real>)
    ensures var p := ResolvePrecision(absolute, None, ceiling, overrideMax);
            var top := if ceiling.Some? && ceiling.value >= 0.0 then ceiling.value else 0.001;
            var most := if overrideMax.Some? && overrideMax.value >= 0.0 then overrideMax.value else 0.5;
            && p.absolute == (if absolute.Some? && absolute.value >= 0.0 then absolute.value else 0.000000001)
            && p.absolute <= p.ceiling <= p.overrideMax && top <= p.ceiling && most <= p.overrideMax
            && (p.ceiling == p.absolute || p.ceiling == top)
            && (p.overrideMax == p.ceiling || p.overrideMax == most)
  {
  }

  /** Every configuration resolves to tolerances that dirty tracking can use. */
  lemma ResolvedPrecisionIsOk(absolute: Option<real>, factor: Option<real>, ceiling: Option<real>,
                              overrideMax: Option<real>)
    ensures PrecisionOk(ResolvePrecision(absolute, factor, ceiling, overrideMax))
  {
    var p := ResolvePrecision(absolute, factor, ceiling, overrideMax);
    var rel := NonNegativeOr(factor, 0.000000001);
    if FlagsSafe(p) {
      forall a: Flags, b: Flags, t: real, f: bool | t <= p.overrideMax && p.equals(a.Code(), b.Code(), t, f)
        ensures a.visible == b.visible && a.unlocked == b.unlocked
      {
        DistinctCodesDiffer(p.absolute, rel, a, b, t, f);
      }
    }
  }

  /** Comparison under a resource's tolerance, which counts as an override unless it is the ceiling. */
  predicate Near(p: Precision, a: real, b: real, tolerance: real) {
    p.equals(a, b, tolerance, tolerance != p.ceiling)
  }

  /** An infinite capacity differs from every finite one by more than any tolerance. */
  predicate NearCapacity(p: Precision, a: Capacity, b: Capacity, tolerance: real) {
    match (a, b)
    case (Finite(x), Finite(y)) => Near(p, x, y, tolerance)
    case _ => a == b
  }

  function Bare(row: Row): Row {
    row.(flags := row.flags.(dirty := false))
  }

  /** The same flags apart from the dirty bit. */
  predicate SameFlags(live: Row, published: Row) {
    live.flags.visible == published.flags.visible && live.flags.unlocked == published.flags.unlocked
  }

  /** Clean enough to leave the dirty list: every field agrees within tolerance, flags exactly. */
  predicate RowClean(p: Precision, live: Row, published: Row) {
    var t := live.tolerance;
    && Near(p, live.amount, published.amount, t)
    && NearCapacity(p, live.capacity, published.capacity, t)
    && Near(p, live.income, published.income, t)
    && Near(p, live.expense, published.expense, t)
    && Near(p, live.net, published.net, t)
    && Near(p, live.tickDelta, published.tickDelta, t)
    && p.equals(live.tolerance, published.tolerance, p.absolute, false)
    && SameFlags(live, published)
  }

  predicate ToleranceOk(p: Precision, row: Row) {
    p.absolute <= row.tolerance <= p.overrideMax
  }

  /** What holds of a resource that is off the dirty list. */
  predicate InSync(p: Precision, live: Row, published: Row) {
    && Near(p, live.amount, published.amount, live.tolerance)
    && NearCapacity(p, live.capacity, published.capacity, live.tolerance)
    && p.equals(live.tolerance, published.tolerance, p.absolute, false)
    && (FlagsSafe(p) ==> SameFlags(live, published))
  }

  function FlagsRow(visible: bool, unlocked: bool, tolerance: real): Row {
    Row(0.0, Infinite, 0.0, 0.0, 0.0, 0.0, Flags(visible, unlocked, false), tolerance)
  }

  /** Some flag change compares as equal under some tolerance a resource may have. */
  ghost predicate HidesAFlagChange(p: Precision) {
    exists live: Row, published: Row ::
      && ToleranceOk(p, live) && !SameFlags(live, published)
      && Near(p, live.flags.Code(), published.flags.Code(), live.tolerance)
  }

  /** Flag changes hide under no tolerance exactly when the override limit is below one, or at one with care. */
  lemma FlagsHideIff(absolute: Option<real>, factor: Option<real>, ceiling: Option<real>, overrideMax: Option<real>)
    ensures var p := ResolvePrecision(absolute, factor, ceiling, overrideMax);
            !HidesAFlagChange(p) <==>
              || p.overrideMax < 1.0
              || (p.overrideMax == p.ceiling == 1.0 && p.absolute < 1.0
                  && 3.0 * NonNegativeOr(factor, 0.000000001) < 1.0)
  {
    var p := ResolvePrecision(absolute, factor, ceiling, overrideMax);
    var rel := NonNegativeOr(factor, 0.000000001);
    if p.overrideMax < 1.0 || (p.overrideMax == p.ceiling == 1.0 && p.absolute < 1.0 && 3.0 * rel < 1.0) {
      forall live: Row, published: Row
        | ToleranceOk(p, live) && Near(p, live.flags.Code(), published.flags.Code(), live.tolerance)
        ensures SameFlags(live, published)
      {
        DistinctCodesDiffer(p.absolute, rel, live.flags, published.flags, live.tolerance, live.tolerance != p.ceiling);
      }
    } else {
      var t := if p.overrideMax != p.ceiling then p.overrideMax
               else if p.ceiling > 1.0 then MaxOf(1.0, p.absolute) else 1.0;
      var live, published := FlagsRow(true, true, t), FlagsRow(false, true, t);
      assert ToleranceOk(p, live) && !SameFlags(live, published);
      assert Near(p, live.flags.Code(), published.flags.Code(), live.tolerance);
    }
  }

  lemma DistinctCodesDiffer(absolute: real, factor: real, a: Flags, b: Flags, t: real, floored: bool)
    requires EpsilonEquals(absolute, factor, a.Code(), b.Code(), t, floored)
    requires absolute < 1.0 && factor >= 0.0 && (t < 1.0 || (!floored && 3.0 * factor < 1.0))
    ensures a.visible == b.visible && a.unlocked == b.unlocked
  {
    var magnitude := MaxOf(Abs(a.Code()), Abs(b.Code()));
    assert magnitude <= 3.0;
    assert factor * magnitude <= factor * 3.0;
  }

  // ----- operations on one row

  function ClampTolerance(p: Precision, value: real): real {
    if value < p.absolute then p.absolute
    else if value > p.overrideMax then p.overrideMax
    else value
  }

  /** `accumulateTickDelta`: a sum that is almost zero is stored as zero. */
  function Accumulated(p: Precision, row: Row, delta: real): real {
    var next := row.tickDelta + delta;
    if p.equals(next, 0.0, row.tolerance, false) then 0.0 else next
  }

  function WithDelta(p: Precision, row: Row, delta: real): Row {
    if delta == 0.0 then row else row.(tickDelta := Accumulated(p, row, delta))
  }

  /** Moving the amount to a new value and accounting for the difference. */
  function MovedTo(p: Precision, row: Row, amount: real): Row {
    WithDelta(p, row.(amount := amount), amount - row.amount)
  }

  function Added(p: Precision, row: Row, x: real): Row {
    MovedTo(p, row, row.capacity.Clamp(row.amount + x))
  }

  function Spent(p: Precision, row: Row, x: real): Row {
    if row.amount < x then row else MovedTo(p, row, row.amount - x)
  }

  function Resized(p: Precision, row: Row, capacity: Capacity): Row {
    var resized := row.(capacity := capacity);
    if capacity.Admits(row.amount) then resized else MovedTo(p, resized, capacity.limit)
  }

  /** `clampAmount`: an amount is kept between zero and its capacity. */
  function ClampAmount(x: real, capacity: Capacity): real {
    if x < 0.0 then 0.0 else capacity.Clamp(x)
  }

  /** Where `deltaMs` of the current rates leads an amount. */
  function FinalAmount(row: Row, deltaMs: real): real {
    Rolled(row.amount, row.income, row.expense, row.capacity, deltaMs)
  }

  function Rolled(amount: real, income: real, expense: real, capacity: Capacity, deltaMs: real): real {
    var seconds := deltaMs / 1000.0;
    ClampAmount(amount + (income * seconds - expense * seconds), capacity)
  }

  function Netted(row: Row): Row {
    row.(net := row.income - row.expense)
  }

  /** The row that `finalizeTick` leaves. */
  function Finalized(p: Precision, row: Row, deltaMs: real): Row {
    Netted(MovedTo(p, row, FinalAmount(row, deltaMs)))
  }

  datatype RateField = Income | Expense

  function WithRate(row: Row, rate: real, field: RateField): Row {
    if field == Income then row.(income := row.income + rate) else row.(expense := row.expense + rate)
  }

  function Rated(row: Row, rate: real, field: RateField): Row {
    Netted(WithRate(row, rate, field))
  }

  /** Amounts stay between zero and capacity under every operation. */
  predicate Bounded(row: Row) {
    0.0 <= row.amount && row.capacity.Admits(row.amount)
  }

  lemma OperationsKeepBounds(p: Precision, row: Row, x: real, capacity: Capacity, deltaMs: real)
    requires Bounded(row)
    ensures x >= 0.0 ==> Bounded(Added(p, row, x)) && Bounded(Spent(p, row, x))
    ensures (capacity.Finite? ==> capacity.limit >= 0.0) ==> Bounded(Resized(p, row, capacity))
    ensures Bounded(Finalized(p, row, deltaMs))
  {
  }

  /** A resource as content declares it; `None` where a field is left out. */
  datatype Definition = Definition(
    startAmount: Option<real>, capacity: Option<Capacity>, unlocked: Option<bool>, visible: Option<bool>,
    tolerance: Option<real>)

  function Or<T>(value: Option<T>, absent: T): T {
    if value.Some? then value.value else absent
  }

  /** The row a definition starts with; `None` stands for the exception on a negative capacity. */
  function Sanitized(p: Precision, d: Definition): Option<Row> {
    var capacity := Or(d.capacity, Infinite);
    if capacity.Finite? && capacity.limit < 0.0 then None
    else
      Some(Row(ClampAmount(Or(d.startAmount, 0.0), capacity), capacity, 0.0, 0.0, 0.0, 0.0,
               Flags(Or(d.visible, true), Or(d.unlocked, true), false), ClampTolerance(p, Or(d.tolerance, p.ceiling))))
  }

  /** What a definition starts with: its own values as far as they are in range, and the defaults where it has none. */
  lemma SanitizedFields(p: Precision, d: Definition)
    requires PrecisionOk(p) && Sanitized(p, d).Some?
    ensures var row := Sanitized(p, d).value;
            && row.capacity == (if d.capacity.Some? then d.capacity.value else Infinite)
            && (d.startAmount.None? || d.startAmount.value <= 0.0 ==> row.amount == 0.0)
            && (d.startAmount.Some? && d.startAmount.value >= 0.0 ==>
                  row.amount == d.startAmount.value
                  || (row.capacity.Finite? && row.amount == row.capacity.limit < d.startAmount.value))
            && row.income == row.expense == row.net == row.tickDelta == 0.0
            && row.flags == Flags(d.visible != Some(false), d.unlocked != Some(false), false)
            && (d.tolerance.None? ==> row.tolerance == p.ceiling)
            && (d.tolerance.Some? && p.absolute <= d.tolerance.value <= p.overrideMax ==>
                  row.tolerance == d.tolerance.value)
            && (d.tolerance.Some? && d.tolerance.value < p.absolute ==> row.tolerance == p.absolute)
            && (d.tolerance.Some? && d.tolerance.value > p.overrideMax ==> row.tolerance == p.overrideMax)
  {
  }

  /** Sanitised definitions start within bounds and with a tolerance in range. */
  lemma SanitizedIsInOrder(p: Precision, d: Definition)
    requires PrecisionOk(p)
    ensures Sanitized(p, d).Some? ==> Bounded(Sanitized(p, d).value) && ToleranceOk(p, Sanitized(p, d).value)
    ensures Sanitized(p, d).None? <==> d.capacity.Some? && d.capacity.value.Finite? && d.capacity.value.limit < 0.0
  {
  }
}
