/**
 * The benchmark runner's unit helpers: reading the engine's "<number> <unit>"
 * measurements back into milliseconds and megabytes, and the executable
 * suffix of the platform. Python's `float` is a parameter (`toFloat`) and
 * floating-point numbers are exact reals.
 */
module RunnerUtility {
  import opened Text

  /** `exeExtension`: ".exe" on Windows, nothing elsewhere. */
  function ExeExtension(platform: string): (r: string)
    ensures r == ".exe" <==> StartsWith(platform, "win32")
    ensures r == "" <==> !StartsWith(platform, "win32")
  {
    if StartsWith(platform, "win32") then ".exe" else ""
  }

  /** The micro sign, U+00B5. */
  const Micro: string := "\U{00B5}s"

  /** Milliseconds per unit of each time scale `parseTime` accepts. */
  function TimeFactor(scale: string): (r: Option<real>)
    ensures r.Some? ==> r.value > 0.0
  {
    if scale == "ns" then Some(1.0 / 1000.0 / 1000.0)
    else if scale == Micro then Some(1.0 / 1000.0)
    else if scale == "ms" then Some(1.0)
    else if scale == "s" then Some(1000.0)
    else if scale == "mins" then Some(60.0 * 1000.0)
    else if scale == "hours" then Some(60.0 * 60.0 * 1000.0)
    else if scale == "days" then Some(24.0 * 60.0 * 60.0 * 1000.0)
    else if scale == "weeks" then Some(7.0 * 24.0 * 60.0 * 60.0 * 1000.0)
    else None
  }

  /** Megabytes per unit of each memory scale `parseMemory` accepts. */
  function MemoryFactor(scale: string): (r: Option<real>)
    ensures r.Some? ==> r.value > 0.0
  {
    if scale == "B" then Some(1.0 / 1000.0 / 1000.0)
    else if scale == "KB" then Some(1.0 / 1000.0)
    else if scale == "MB" then Some(1.0)
    else if scale == "GB" then Some(1000.0)
    else if scale == "TB" then Some(1000.0 * 1000.0)
    else if scale == "PB" then Some(1000.0 * 1000.0 * 1000.0)
    else if scale == "EB" then Some(1000.0 * 1000.0 * 1000.0 * 1000.0)
    else None
  }

  /**
   * Splits "<number> <unit>" on single spaces, reads the first piece with
   * `toFloat` and strips the second. None when there is no second piece or
   * the number does not parse (Python raises and the runner stops).
   */
  function Measurement(input: string, toFloat: string -> Option<real>): (r: Option<(real, string)>)
  {
    var parts := Split(input, ' ');
    if |parts| < 2 then None
    else
      match toFloat(parts[0])
      case None => None
      case Some(x) => Some((x, Strip(parts[1])))
  }

  /** A measurement converted by a positive factor, which keeps its sign. */
  function Scaled(x: real, f: real): (y: real)
    requires f > 0.0
    ensures y > 0.0 <==> x > 0.0
  {
    if x <= 0.0 then assert x * f <= 0.0 * f; x * f else x * f
  }

  /** `parseTime`: the measurement in milliseconds; None on an unknown unit (exit status 1). */
  function ParseTime(input: string, toFloat: string -> Option<real>): (r: Option<real>)
    ensures r.Some? <==> Measurement(input, toFloat).Some? && TimeFactor(Measurement(input, toFloat).value.1).Some?
    ensures r.Some? ==> (r.value > 0.0 <==> Measurement(input, toFloat).value.0 > 0.0)
  {
    match Measurement(input, toFloat)
    case None => None
    case Some((x, scale)) =>
      match TimeFactor(scale)
      case None => None
      case Some(f) => Some(Scaled(x, f))
  }

  /** `parseMemory`: the measurement in megabytes; None on an unknown unit (exit status 1). */
  function ParseMemory(input: string, toFloat: string -> Option<real>): (r: Option<real>)
    ensures r.Some? <==> Measurement(input, toFloat).Some? && MemoryFactor(Measurement(input, toFloat).value.1).Some?
    ensures r.Some? ==> (r.value > 0.0 <==> Measurement(input, toFloat).value.0 > 0.0)
  {
    match Measurement(input, toFloat)
    case None => None
    case Some((x, scale)) =>
      match MemoryFactor(scale)
      case None => None
      case Some(f) => Some(Scaled(x, f))
  }

  /** Each memory unit is a thousand of the one before it: the scales are decimal. */
  lemma MemoryScalesDecimal(i: nat)
    requires 1 <= i < 7
    ensures MemoryFactor(["B", "KB", "MB", "GB", "TB", "PB", "EB"][i]).value
         == 1000.0 * MemoryFactor(["B", "KB", "MB", "GB", "TB", "PB", "EB"][i - 1]).value
  {
  }

  /** "<number> <unit>" splits into the number's value and the unit. */
  lemma MeasurementOf(number: string, unit: string, toFloat: string -> Option<real>)
    requires ' ' !in number && ' ' !in unit && toFloat(number).Some?
    requires |unit| == 0 || (!IsSpace(unit[0]) && !IsSpace(unit[|unit| - 1]))
    ensures Measurement(number + " " + unit, toFloat) == Some((toFloat(number).value, unit))
  {
    var input := number + " " + unit;
    assert Split(input, ' ') == [number, unit] by {
      assert input == number + [' '] + unit;
      SplitAppend(number, unit, ' ');
      SplitNoSeparator(unit, ' ');
    }
    assert Strip(unit) == unit by {
      StripTrimmed(unit);
    }
  }

  /** A "<n> ms" measurement reads back as n itself. */
  lemma ParseTimeMilliseconds(number: string, toFloat: string -> Option<real>)
    requires ' ' !in number && toFloat(number).Some?
    ensures ParseTime(number + " ms", toFloat) == Some(toFloat(number).value)
  {
    assert "ms"[0] == 'm' && "ms"[1] == 's';
    MeasurementOf(number, "ms", toFloat);
    assert number + " ms" == number + " " + "ms";
    assert TimeFactor("ms") == Some(1.0) by {
      assert "ms"[0] != "ns"[0];
      assert "ms" != Micro by { assert "ms"[0] != Micro[0]; }
    }
  }

  /** A unit outside the table stops the runner, for times and for memory. */
  lemma UnknownUnitRejected(number: string, unit: string, toFloat: string -> Option<real>)
    requires ' ' !in number && ' ' !in unit && toFloat(number).Some?
    requires |unit| == 0 || (!IsSpace(unit[0]) && !IsSpace(unit[|unit| - 1]))
    requires TimeFactor(unit).None? && MemoryFactor(unit).None?
    ensures ParseTime(number + " " + unit, toFloat) == None
    ensures ParseMemory(number + " " + unit, toFloat) == None
  {
    MeasurementOf(number, unit, toFloat);
  }

  /** A three-character unit is not a time unit. */
  lemma ThreeCharacterTimeUnit(scale: string)
    requires |scale| == 3
    ensures TimeFactor(scale).None?
  {
    assert |"ns"| == |Micro| == |"ms"| == 2 && |"s"| == 1;
    assert |"mins"| == |"days"| == 4 && |"hours"| == |"weeks"| == 5;
  }

  /** The units `parseTime` accepts, and only those. */
  lemma TimeUnits(scale: string)
    ensures TimeFactor(scale).Some? <==>
      scale == "ns" || scale == Micro || scale == "ms" || scale == "s" ||
      scale == "mins" || scale == "hours" || scale == "days" || scale == "weeks"
  {
  }

  /** The units `parseMemory` accepts, and only those. */
  lemma MemoryUnits(scale: string)
    ensures MemoryFactor(scale).Some? <==>
      scale == "B" || scale == "KB" || scale == "MB" || scale == "GB" ||
      scale == "TB" || scale == "PB" || scale == "EB"
  {
  }
}
