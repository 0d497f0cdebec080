/**
 * The evaluation scripts' cell formatting: sentinel codes become labels,
 * times (milliseconds) and memory (megabytes) become an amount and a unit
 * picked by a search over decimal bounds. A table cell is a Python value:
 * a float (an exact real here), an int, or NaN.
 */
module Format {
  import opened Text
  import RunnerUtility

  datatype Cell = Float(x: real) | Int(n: int) | NaN

  /** Python's `value == k` for an integer constant k: NaN equals nothing. */
  predicate IsValue(c: Cell, k: int)
  {
    match c
    case Float(x) => x == k as real
    case Int(n) => n == k
    case NaN => false
  }

  /** Python's `value < 0`. */
  predicate IsNegative(c: Cell)
  {
    match c
    case Float(x) => x < 0.0
    case Int(n) => n < 0
    case NaN => false
  }

  /** Python's `value == other` between two cells. */
  predicate SameValue(a: Cell, b: Cell)
  {
    match (a, b)
    case (Float(x), Float(y)) => x == y
    case (Float(x), Int(m)) => x == m as real
    case (Int(n), Float(y)) => n as real == y
    case (Int(n), Int(m)) => n == m
    case _ => false
  }

  /**
   * What a formatter returns: a label, the cell unchanged, or an amount in a
   * unit. The amount is kept as the exact quotient `quantity / bound` of the
   * value in base units (nanoseconds or bytes) by the bound of the unit
   * picked; Python prints `str(round(quantity / bound, 2)) + " " + unit`.
   */
  datatype Shown = Label(text: string) | Raw(cell: Cell) | Scaled(quantity: real, bound: real, unit: string)

  /** `replaceNaN`: negative values become NaN. */
  function ReplaceNaN(c: Cell): (r: Cell)
    ensures IsNegative(c) ==> r == NaN
    ensures !IsNegative(c) ==> r == c
    ensures !IsNegative(r)
  {
    if IsNegative(c) then NaN else c
  }

  /** `formatErrors`: the label of a sentinel code or of NaN, else the cell itself. */
  function FormatErrors(c: Cell): (r: Shown)
    ensures r.Label? || r == Raw(c)
  {
    if IsValue(c, -1) then Label("did not run")
    else if IsValue(c, -2) then Label("mem")
    else if IsValue(c, -3) then Label("time")
    else if IsValue(c, -4) then Label("unknown error")
    else if IsValue(c, -5) then Label("did not run")
    else if c.NaN? then Label("did not run")
    else Raw(c)
  }

  /** The sentinel codes of the runner (not run, memory, time, unknown, no query file). */
  predicate IsSentinel(c: Cell)
  {
    IsValue(c, -1) || IsValue(c, -2) || IsValue(c, -3) || IsValue(c, -4) || IsValue(c, -5)
  }

  /** Every sentinel and NaN gets a label; every other cell passes through. */
  lemma FormatErrorsLabels(c: Cell)
    ensures FormatErrors(c).Label? <==> IsSentinel(c) || c.NaN?
    ensures (IsValue(c, -1) || IsValue(c, -5) || c.NaN?) ==> FormatErrors(c) == Label("did not run")
    ensures IsValue(c, -2) ==> FormatErrors(c) == Label("mem")
    ensures IsValue(c, -3) ==> FormatErrors(c) == Label("time")
    ensures IsValue(c, -4) ==> FormatErrors(c) == Label("unknown error")
  {
  }

  // ---------------------------------------------------------------------
  // Unit search
  // ---------------------------------------------------------------------

  /** Nanoseconds at which each time unit starts; the last is a week. */
  const MaxTime: seq<real> := [
    1.0,                    // 1 ns
    1000.0,                 // 1000 ns
    1000000.0,              // 1000^2 ns
    1000000000.0,           // 1000^3 ns, a second
    60000000000.0,          // a minute
    3600000000000.0,        // an hour
    86400000000000.0,       // a day
    604800000000000.0       // a week
  ]

  /** Bytes at which each memory unit starts: powers of 1000. */
  const MaxMemory: seq<real> := [
    1.0,
    1000.0,
    1000000.0,
    1000000000.0,
    1000000000000.0,
    1000000000000000.0,
    1000000000000000000.0
  ]

  const MemorySuffixes: seq<string> := ["B ", "KB", "MB", "GB", "TB", "PB"]

  /**
   * The time suffixes as the script spells them: its second entry is the
   * UTF-8 bytes of the micro sign read as two characters, "Â" and "µ".
   */
  const TimeSuffixesAsWritten: seq<string> := ["ns", "\U{00C2}\U{00B5}s", "ms", "s ", "mins", "hours", "days"]

  /** The time suffixes with the micro sign the runner reads back. */
  const TimeSuffixes: seq<string> := ["ns", "\U{00B5}s", "ms", "s ", "mins", "hours", "days"]

  /** Strictly increasing positive bounds. */
  predicate Ascending(bounds: seq<real>)
  {
    |bounds| > 0 && bounds[0] > 0.0 && forall i :: 0 < i < |bounds| ==> bounds[i - 1] < bounds[i]
  }

  /** The first unit index at or after `from` whose next bound is at least `amount`, or `count` if none. */
  function UnitIndex(amount: real, bounds: seq<real>, count: nat, from: nat): (i: nat)
    requires |bounds| == count + 1 && from <= count
    ensures from <= i <= count
    decreases count - from
  {
    if from == count then count
    else if amount > bounds[from + 1] then UnitIndex(amount, bounds, count, from + 1)
    else from
  }

  /** UnitIndex is the first index whose next bound is not exceeded. */
  lemma {:induction false} UnitIndexFirst(amount: real, bounds: seq<real>, count: nat, from: nat)
    requires |bounds| == count + 1 && from <= count
    ensures var i := UnitIndex(amount, bounds, count, from);
      (forall j :: from < j <= i ==> amount > bounds[j]) &&
      (i < count ==> amount <= bounds[i + 1])
    decreases count - from
  {
    if from < count && amount > bounds[from + 1] {
      UnitIndexFirst(amount, bounds, count, from + 1);
    }
  }

  /**
   * The loop of `formatTime` / `formatMemory`: the first i below `count`
   * with amount <= bounds[i + 1], or `count` when the amount exceeds them all.
   */
  method FindUnit(amount: real, bounds: seq<real>, count: nat) returns (i: nat)
    requires |bounds| == count + 1
    ensures i == UnitIndex(amount, bounds, count, 0)
    ensures i <= count
    ensures forall j :: 0 < j <= i ==> amount > bounds[j]
    ensures i < count ==> amount <= bounds[i + 1]
  {
    UnitIndexFirst(amount, bounds, count, 0);
    i := 0;
    while i < count
      invariant i <= count
      invariant UnitIndex(amount, bounds, count, i) == UnitIndex(amount, bounds, count, 0)
    {
      if amount > bounds[i + 1] {
        i := i + 1;
        continue;
      }
      return;
    }
  }

  /** A non-negative float that is not a sentinel: the only cells that get a unit. */
  predicate Measured(c: Cell)
  {
    FormatErrors(c) == Raw(c) && c.Float? && c.x >= 0.0
  }

  /** The unit a formatted time is shown in, for each unit index. */
  function TimeUnit(suffixes: seq<string>, i: nat): string
    requires |suffixes| == 7 && i <= 7
  {
    if i < 7 then suffixes[i] else "weeks"
  }

  /** The unit a formatted memory amount is shown in, for each unit index. */
  function MemoryUnit(i: nat): string
    requires i <= 6
  {
    if i < 6 then MemorySuffixes[i] else "EB"
  }

  /** `formatTime` with a given suffix list, without the rounding to two decimals. */
  function ShowTimeWith(c: Cell, suffixes: seq<string>): (r: Shown)
    requires |suffixes| == 7
    ensures !Measured(c) ==> r == FormatErrors(c)
    ensures Measured(c) ==> r.Scaled? && r.quantity == c.x * 1000000.0
  {
    if !Measured(c) then FormatErrors(c)
    else
      var ns := c.x * 1000.0 * 1000.0;
      var i := UnitIndex(ns, MaxTime, 7, 0);
      Scaled(ns, MaxTime[i], TimeUnit(suffixes, i))
  }

  /** `formatTime`, with the micro sign corrected. */
  function ShowTime(c: Cell): Shown
  {
    ShowTimeWith(c, TimeSuffixes)
  }

  /** `formatMemory`, without the rounding to two decimals. */
  function ShowMemory(c: Cell): (r: Shown)
    ensures !Measured(c) ==> r == FormatErrors(c)
    ensures Measured(c) ==> r.Scaled? && r.quantity == c.x * 1000000.0
  {
    if !Measured(c) then FormatErrors(c)
    else
      var bytes := c.x * 1000.0 * 1000.0;
      var i := UnitIndex(bytes, MaxMemory, 6, 0);
      Scaled(bytes, MaxMemory[i], MemoryUnit(i))
  }

  /** `formatTime` as the script runs it (with the micro sign corrected): formatErrors, the type guard, then the unit loop. */
  method FormatTime(c: Cell) returns (r: Shown)
    ensures r == ShowTime(c)
  {
    r := FormatErrors(c);
    if !r.Raw? || !c.Float? || c.x < 0.0 {
      return;
    }
    var ns := c.x * 1000.0 * 1000.0;
    var i := FindUnit(ns, MaxTime, 7);
    if i < 7 {
      r := Scaled(ns, MaxTime[i], TimeSuffixes[i]);
    } else {
      r := Scaled(ns, MaxTime[7], "weeks");
    }
  }

  /** `formatMemory` as the script runs it. */
  method FormatMemory(c: Cell) returns (r: Shown)
    ensures r == ShowMemory(c)
  {
    r := FormatErrors(c);
    if !r.Raw? || !c.Float? || c.x < 0.0 {
      return;
    }
    var bytes := c.x * 1000.0 * 1000.0;
    var i := FindUnit(bytes, MaxMemory, 6);
    if i < 6 {
      r := Scaled(bytes, MaxMemory[i], MemorySuffixes[i]);
    } else {
      r := Scaled(bytes, MaxMemory[6], "EB");
    }
  }

  lemma MaxMemoryAscending()
    ensures Ascending(MaxMemory)
  {
  }

  lemma MemoryStep(i: nat)
    requires i < 6
    ensures MaxMemory[i + 1] == 1000.0 * MaxMemory[i]
  {
  }

  lemma MaxTimeAscending()
    ensures Ascending(MaxTime)
  {
  }

  lemma {:induction false} AscendingPositive(bounds: seq<real>, i: nat)
    requires Ascending(bounds) && i < |bounds|
    ensures bounds[i] > 0.0
  {
    if i > 0 {
      AscendingPositive(bounds, i - 1);
    }
  }

  /**
   * The bound the unit search picks is positive; the amount exceeds it
   * (shows more than 1) unless the first unit was picked, and stays within
   * the next bound unless the search ran off the end.
   */
  lemma {:induction false} PickedBound(amount: real, bounds: seq<real>, count: nat)
    requires |bounds| == count + 1 && Ascending(bounds)
    ensures var i := UnitIndex(amount, bounds, count, 0);
      bounds[i] > 0.0 &&
      (0 < i ==> amount > bounds[i]) &&
      (i < count ==> amount <= bounds[i + 1])
  {
    var i := UnitIndex(amount, bounds, count, 0);
    UnitIndexFirst(amount, bounds, count, 0);
    AscendingPositive(bounds, i);
  }

  /**
   * Memory is shown in the first unit whose next bound holds it: the bound
   * is one of the powers of 1000, and except for bytes and exabytes the
   * amount shown (bytes / bound) lies in (1, 1000], so the unit below would
   * show more than a thousand and the unit above less than one.
   */
  lemma ShowMemoryNormalised(c: Cell)
    requires Measured(c)
    ensures var r := ShowMemory(c); var i := UnitIndex(c.x * 1000000.0, MaxMemory, 6, 0);
      r.Scaled? && r.quantity == c.x * 1000000.0 &&
      r.bound == MaxMemory[i] && r.unit == MemoryUnit(i) && r.bound > 0.0 &&
      (i < 6 ==> r.quantity <= 1000.0 * r.bound) &&
      (0 < i ==> r.quantity > r.bound)
  {
    var bytes := c.x * 1000000.0;
    assert c.x * 1000.0 * 1000.0 == bytes;
    var i := UnitIndex(bytes, MaxMemory, 6, 0);
    MaxMemoryAscending();
    PickedBound(bytes, MaxMemory, 6);
    if i < 6 {
      MemoryStep(i);
    }
  }

  /**
   * Times are shown in the first unit whose next bound holds them: the bound
   * is the unit's length in nanoseconds, the nanoseconds stay within the
   * next unit's bound, and above the nanosecond the amount shown exceeds 1.
   */
  lemma ShowTimeNormalised(c: Cell, suffixes: seq<string>)
    requires Measured(c) && |suffixes| == 7
    ensures var r := ShowTimeWith(c, suffixes); var i := UnitIndex(c.x * 1000000.0, MaxTime, 7, 0);
      r.Scaled? && r.quantity == c.x * 1000000.0 &&
      r.bound == MaxTime[i] && r.unit == TimeUnit(suffixes, i) && r.bound > 0.0 &&
      (i < 7 ==> r.quantity <= MaxTime[i + 1]) &&
      (0 < i ==> r.quantity > r.bound)
  {
    var ns := c.x * 1000000.0;
    assert c.x * 1000.0 * 1000.0 == ns;
    MaxTimeAscending();
    PickedBound(ns, MaxTime, 7);
  }

  /** `formatValueWithBest`: bold exactly when the value equals the best one. */
  function FormatValueWithBest(value: Cell, best: Cell, format: Cell -> string): (r: string)
    ensures SameValue(value, best) ==> r == "\\textbf{" + format(value) + "}"
    ensures !SameValue(value, best) ==> r == format(value)
  {
    if SameValue(value, best) then "\\textbf{" + format(value) + "}" else format(value)
  }

  /** The bold marker appears iff the value is the best; NaN is never bold. */
  lemma BoldIffBest(value: Cell, best: Cell, format: Cell -> string)
    requires forall c :: !StartsWith(format(c), "\\textbf{")
    ensures StartsWith(FormatValueWithBest(value, best, format), "\\textbf{") <==> SameValue(value, best)
    ensures value.NaN? ==> FormatValueWithBest(value, best, format) == format(value)
  {
    if SameValue(value, best) {
      assert ("\\textbf{" + format(value) + "}")[..8] == "\\textbf{";
    }
  }

  // ---------------------------------------------------------------------
  // The formatter's units are the runner's units
  // ---------------------------------------------------------------------

  /** The time units the runner reads, in the formatter's unit order. */
  const RunnerTimeUnits: seq<string> := ["ns", RunnerUtility.Micro, "ms", "s", "mins", "hours", "days", "weeks"]

  /** Stripping the formatter's padding gives the runner's unit names. */
  lemma TimeUnitStripped(i: nat)
    requires i <= 7
    ensures Strip(TimeUnit(TimeSuffixes, i)) == RunnerTimeUnits[i]
  {
    var u := TimeUnit(TimeSuffixes, i);
    if i == 3 {
      assert u == "s ";
      StripTrailingSpace(u);
    } else {
      assert |u| >= 2 && !IsSpace(u[0]) && !IsSpace(u[|u| - 1]) && u == RunnerTimeUnits[i];
      StripTrimmed(u);
    }
  }

  /** The runner's factor for each unit is the formatter's bound in milliseconds. */
  lemma RunnerTimeFactors(i: nat)
    requires i <= 7
    ensures RunnerUtility.TimeFactor(RunnerTimeUnits[i]) == Some(MaxTime[i] / 1000000.0)
  {
  }

  /** The memory units the runner reads, in the formatter's unit order. */
  const RunnerMemoryUnits: seq<string> := ["B", "KB", "MB", "GB", "TB", "PB", "EB"]

  /** Stripping the formatter's padding gives the runner's unit names. */
  lemma MemoryUnitStripped(i: nat)
    requires i <= 6
    ensures Strip(MemoryUnit(i)) == RunnerMemoryUnits[i]
  {
    var u := MemoryUnit(i);
    if i == 0 {
      assert u == "B ";
      StripTrailingSpace(u);
    } else {
      assert |u| == 2 && !IsSpace(u[0]) && !IsSpace(u[1]) && u == RunnerMemoryUnits[i];
      StripTrimmed(u);
    }
  }

  /** The runner's factor for each unit is the formatter's bound in megabytes. */
  lemma RunnerMemoryFactors(i: nat)
    requires i <= 6
    ensures RunnerUtility.MemoryFactor(RunnerMemoryUnits[i]) == Some(MaxMemory[i] / 1000000.0)
  {
  }

  /**
   * Every time the formatter shows is in a unit the runner's `parseTime`
   * knows, at the scale the formatter divided by: the runner's factor for
   * the unit (milliseconds per unit) is the bound over 10^6, so the amount
   * shown, quantity / bound, is the cell's milliseconds in that unit.
   */
  lemma TimeUnitKnown(c: Cell)
    requires Measured(c)
    ensures var r := ShowTime(c); var f := RunnerUtility.TimeFactor(Strip(r.unit));
      r.Scaled? && r.quantity == c.x * 1000000.0 && f.Some? && f.value * 1000000.0 == r.bound
  {
    ShowTimeNormalised(c, TimeSuffixes);
    var i := UnitIndex(c.x * 1000000.0, MaxTime, 7, 0);
    TimeUnitStripped(i);
    RunnerTimeFactors(i);
  }

  /** Every memory amount the formatter shows is in a unit the runner's `parseMemory` knows, at the same scale. */
  lemma MemoryUnitKnown(c: Cell)
    requires Measured(c)
    ensures var r := ShowMemory(c); var f := RunnerUtility.MemoryFactor(Strip(r.unit));
      r.Scaled? && r.quantity == c.x * 1000000.0 && f.Some? && f.value * 1000000.0 == r.bound
  {
    ShowMemoryNormalised(c);
    var i := UnitIndex(c.x * 1000000.0, MaxMemory, 6, 0);
    MemoryUnitStripped(i);
    RunnerMemoryFactors(i);
  }

  /** As written, half a millisecond is shown in the unit "Âµs" rather than "µs". */
  lemma MicrosecondsAsWritten()
    ensures ShowTimeWith(Float(0.5), TimeSuffixesAsWritten) == Scaled(500000.0, 1000.0, "\U{00C2}\U{00B5}s")
    ensures ShowTime(Float(0.5)) == Scaled(500000.0, 1000.0, RunnerUtility.Micro)
  {
    assert Measured(Float(0.5));
    assert UnitIndex(500000.0, MaxTime, 7, 0) == 1 by {
      assert UnitIndex(500000.0, MaxTime, 7, 1) == 1;
    }
    assert 0.5 * 1000.0 * 1000.0 == 500000.0;
  }

  /** The as-written unit "Âµs" is not a time unit the runner knows. */
  lemma MicrosecondsAsWrittenUnknown()
    ensures RunnerUtility.TimeFactor(Strip(TimeSuffixesAsWritten[1])).None?
  {
    var u := TimeSuffixesAsWritten[1];
    assert |u| == 3 && !IsSpace(u[0]) && !IsSpace(u[2]);
    StripTrimmed(u);
    RunnerUtility.ThreeCharacterTimeUnit(Strip(u));
  }
}
