/**
 * The C++ text primitives the engine's readers rely on: `std::getline`
 * splitting a file into lines, `std::stoul` reading an unsigned number at
 * the start of a character buffer, and the implicit narrowing of its
 * `unsigned long` result to a 32-bit `Vertex` or `Label`.
 */
module CStrings {
  import opened Text

  /** ULONG_MAX + 1 on the 64-bit platforms the engine targets. */
  const ULongLimit: nat := 0x1_0000_0000_0000_0000

  /** 2^32: the range of `uint32_t`. */
  const UInt32Limit: nat := 0x1_0000_0000

  /** Conversion of an `unsigned long` to `uint32_t`: the value modulo 2^32. */
  function UInt32(v: nat): (r: nat)
    ensures r < UInt32Limit
    ensures v < UInt32Limit ==> r == v
  {
    v % UInt32Limit
  }

  /** The characters `isspace` accepts in the "C" locale. */
  predicate IsCSpace(c: char)
  {
    c == ' ' || c == '\t' || c == '\n' || c == '\U{000B}' || c == '\U{000C}' || c == '\r'
  }

  function SkipCSpace(s: string): (r: string)
  {
    if |s| > 0 && IsCSpace(s[0]) then SkipCSpace(s[1..]) else s
  }

  /**
   * `std::stoul` on a NUL-terminated buffer: leading white space, an
   * optional sign and the longest run of decimal digits. No digit is
   * `std::invalid_argument` and a value above ULONG_MAX is
   * `std::out_of_range` (both None); a minus sign negates modulo 2^64, as
   * `strtoul` does.
   */
  function Stoul(s: string): (r: Option<nat>)
    ensures r.Some? ==> r.value < ULongLimit
  {
    var t := SkipCSpace(s);
    var negative := |t| > 0 && t[0] == '-';
    var digits := if |t| > 0 && (t[0] == '+' || t[0] == '-') then t[1..] else t;
    match ParseLeadingNat(digits)
    case None => None
    case Some(v) =>
      if v >= ULongLimit then None
      else if negative then Some((ULongLimit - v) % ULongLimit)
      else Some(v)
  }

  /** 2^63: the bound of `long long`. */
  const LongLimit: nat := 0x8000_0000_0000_0000

  /**
   * `std::stoll`: like Stoul, but the value must fit a signed 64-bit
   * `long long` (-2^63 through 2^63 - 1), else `std::out_of_range`.
   */
  function Stoll(s: string): (r: Option<int>)
    ensures r.Some? ==> 0 - (LongLimit as int) <= r.value < LongLimit
  {
    var t := SkipCSpace(s);
    var negative := |t| > 0 && t[0] == '-';
    var digits := if |t| > 0 && (t[0] == '+' || t[0] == '-') then t[1..] else t;
    match ParseLeadingNat(digits)
    case None => None
    case Some(v) =>
      if negative then (if v > LongLimit then None else Some(0 - v))
      else if v >= LongLimit then None
      else Some(v)
  }

  /** Conversion of a `long long` to `uint32_t`: the value modulo 2^32, so -1 becomes 2^32 - 1. */
  function UInt32OfLong(v: int): (r: nat)
    ensures r < UInt32Limit
    ensures 0 <= v < UInt32Limit ==> r == v
  {
    v % UInt32Limit
  }

  /** A number written in decimal and followed by anything but a digit reads back as itself. */
  lemma StoulNatToString(n: nat, rest: string)
    requires n < ULongLimit
    requires |rest| == 0 || !IsDigit(rest[0])
    ensures Stoul(NatToString(n) + rest) == Some(n)
  {
    var s := NatToString(n) + rest;
    assert s[0] == NatToString(n)[0];
    ParseNatToString(n, rest);
  }

  /** Stoll reads back a decimal numeral of a value that fits a `long long`. */
  lemma StollNatToString(n: nat)
    requires n < LongLimit
    ensures Stoll(NatToString(n)) == Some(n)
  {
    var s := NatToString(n);
    assert s == s + "";
    ParseNatToString(n, "");
  }

  /** Stoll reads back the decimal form of any `long long`, negative ones included. */
  lemma StollIntToString(n: int)
    requires 0 - (LongLimit as int) <= n < LongLimit
    ensures Stoll(IntToString(n)) == Some(n)
  {
    if n >= 0 {
      StollNatToString(n);
    } else {
      var s := IntToString(n);
      assert s[1..] == NatToString(-n) + "";
      ParseNatToString(-n, "");
    }
  }

  /** Stoul fails on a buffer that starts with none of white space, a sign or a digit. */
  lemma StoulNoDigit(s: string)
    requires |s| == 0 || !(IsCSpace(s[0]) || s[0] == '+' || s[0] == '-' || IsDigit(s[0]))
    ensures Stoul(s) == None
  {
  }

  /** The three pieces of a concatenation, recovered by slicing. */
  lemma Pieces(line: string, a: string, b: string, c: string)
    requires line == a + b + c
    ensures line[..|a|] == a && line[|a|..|a| + |b|] == b && line[|a| + |b|..] == c
    ensures line[|a|..] == b + c
  {
  }

  /** A number written at `start` and followed by a non-digit or the end of the line reads back from there. */
  lemma StoulAt(line: string, start: nat, n: nat)
    requires n < ULongLimit
    requires start + |NatToString(n)| <= |line| && line[start..start + |NatToString(n)|] == NatToString(n)
    requires start + |NatToString(n)| == |line| || !IsDigit(line[start + |NatToString(n)|])
    ensures Stoul(line[start..]) == Some(n)
  {
    var d := NatToString(n);
    var rest := line[start + |d|..];
    assert line[start..] == d + rest;
    StoulNatToString(n, rest);
  }

  // ---------------------------------------------------------------------
  // std::getline
  // ---------------------------------------------------------------------

  /**
   * The lines `std::getline` yields one after the other: the text up to
   * each '\n' without it, and a last unterminated piece if one is left.
   */
  function Lines(text: string): (r: seq<string>)
    ensures forall i :: 0 <= i < |r| ==> '\n' !in r[i]
    decreases |text|
  {
    if |text| == 0 then []
    else
      IndexOfSpec(text, '\n');
      match IndexOf(text, '\n')
      case None => [text]
      case Some(k) => [text[..k]] + Lines(text[k + 1..])
  }

  /** Every line followed by a newline, as `stream << line << "\n"` writes them. */
  function Terminated(lines: seq<string>): string
  {
    if |lines| == 0 then "" else lines[0] + "\n" + Terminated(lines[1..])
  }

  lemma {:induction false} IndexOfFirst(a: string, b: string, c: char)
    requires c !in a
    ensures IndexOf(a + [c] + b, c) == Some(|a|)
    decreases |a|
  {
    if |a| > 0 {
      assert (a + [c] + b)[1..] == a[1..] + [c] + b;
      IndexOfFirst(a[1..], b, c);
    }
  }

  lemma {:induction false} LastIndexOfLast(a: string, b: string, c: char)
    requires c !in b
    ensures LastIndexOf(a + [c] + b, c) == Some(|a|)
    decreases |b|
  {
    var s := a + [c] + b;
    if |b| > 0 {
      assert s[..|s| - 1] == a + [c] + b[..|b| - 1];
      assert s[|s| - 1] == b[|b| - 1];
      LastIndexOfLast(a, b[..|b| - 1], c);
    }
  }

  /** Reading the lines of a written file gives back exactly the lines written. */
  lemma {:induction false} LinesTerminated(lines: seq<string>)
    requires forall i :: 0 <= i < |lines| ==> '\n' !in lines[i]
    ensures Lines(Terminated(lines)) == lines
    decreases |lines|
  {
    if |lines| > 0 {
      var rest := Terminated(lines[1..]);
      assert Terminated(lines) == lines[0] + ['\n'] + rest;
      IndexOfFirst(lines[0], rest, '\n');
      assert (lines[0] + ['\n'] + rest)[..|lines[0]|] == lines[0];
      assert (lines[0] + ['\n'] + rest)[|lines[0]| + 1..] == rest;
      LinesTerminated(lines[1..]);
      assert [lines[0]] + lines[1..] == lines;
    }
  }

  /** Terminated distributes over concatenation, so a file can be written line by line. */
  lemma {:induction false} TerminatedAppend(lines: seq<string>, line: string)
    ensures Terminated(lines + [line]) == Terminated(lines) + line + "\n"
    decreases |lines|
  {
    if |lines| > 0 {
      assert (lines + [line])[1..] == lines[1..] + [line];
      TerminatedAppend(lines[1..], line);
    }
  }
}
