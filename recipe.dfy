/**
 * Model of `src/recipe/mod.rs`: the line-oriented recipe format, its
 * `value:unit` quantities, the argument-count check, and `from_string`,
 * which folds the lines of a recipe into eight optional fields.
 *
 * Number parsing (`str::parse::<f64>`) is library code; every parser here
 * takes it as a parameter `parseFloat`, whose `None` stands for a
 * `ParseFloatError`. Panics (`todo!()`, `Option::expect`) are an outcome of
 * their own, `Panicked`, carrying the panic message.
 */
module Recipes {
  import opened Options
  import Times
  import Vectors

  /** `BibberParseError`; the payload of `ParseFloatError` is not modelled. */
  datatype ParseError =
    | TooFewArguments
    | TooManyArguments
    | NoUnit
    | UnknownUnit
    | InvalidUnit
    | ParseFloatError

  datatype Result<+T> = Ok(value: T) | Err(error: ParseError)

  /** `str::parse::<f64>`: `None` when the text is not a number. */
  type FloatParser = string -> Option<real>

  // ---------------------------------------------------------------------
  // Argument count
  // ---------------------------------------------------------------------

  /** `check_arguments_count`. */
  function CheckArgumentsCount(arguments: seq<string>, expected: nat): (r: Result<()>)
    ensures r == Err(TooFewArguments) <==> |arguments| < expected
    ensures r == Err(TooManyArguments) <==> |arguments| > expected
    ensures r == Ok(()) <==> |arguments| == expected
  {
    if |arguments| < expected then Err(TooFewArguments)
    else if |arguments| > expected then Err(TooManyArguments)
    else Ok(())
  }

  /** `parse_arguments::<EXPECTED>`: exactly `expected` arguments, in their order. */
  function ParseArguments(arguments: seq<string>, expected: nat): (r: Result<seq<string>>)
    ensures r.Ok? <==> |arguments| == expected
    ensures r.Ok? ==> r.value == arguments && |r.value| == expected
    ensures r.Err? ==> r.error == (if |arguments| < expected then TooFewArguments else TooManyArguments)
  {
    match CheckArgumentsCount(arguments, expected)
    case Err(e) => Err(e)
    case Ok(_) => Ok(arguments[..expected])
  }

  // ---------------------------------------------------------------------
  // Quantities with units
  // ---------------------------------------------------------------------

  /** `str::split_once`: the text before and after the first `sep`. */
  function SplitOnce(s: string, sep: char): (r: Option<(string, string)>)
    ensures r.None? <==> sep !in s
    ensures r.Some? ==> s == r.value.0 + [sep] + r.value.1 && sep !in r.value.0
  {
    if s == [] then None
    else if s[0] == sep then Some(([], s[1..]))
    else match SplitOnce(s[1..], sep)
      case None => None
      case Some((before, after)) =>
        assert s == [s[0]] + s[1..];
        Some(([s[0]] + before, after))
  }

  /** The split is at the FIRST separator: whatever follows it, separators included, is the second part. */
  lemma {:induction false} SplitOnceAtFirst(before: string, sep: char, after: string)
    requires sep !in before
    ensures SplitOnce(before + [sep] + after, sep) == Some((before, after))
  {
    var s := before + [sep] + after;
    if before != [] {
      assert s[0] == before[0];
      assert s[1..] == before[1..] + [sep] + after;
      SplitOnceAtFirst(before[1..], sep, after);
      assert [before[0]] + before[1..] == before;
    }
  }

  /** Metres per unit of length. */
  const LengthFactors: map<string, real> := map[
    "km" := 1000.0, "m" := 1.0, "dm" := 0.1, "cm" := 0.01, "mm" := 0.001,
    "um" := 0.000001, "nm" := 0.000000001, "pm" := 0.000000000001,
    "fm" := 0.000000000000001]

  /** The divisor that turns a value in each time unit into seconds, as the
      `Time` constructors apply it ("ps" and "fs" as written there). */
  const TimeDivisors: map<string, real> := map[
    "s" := 1.0, "ms" := 1000.0, "us" := 1000000.0, "ns" := 1000000000.0,
    "ps" := 1000000000000000.0, "fs" := 1000000000000.0]

  /** What is subtracted from a temperature value in each unit. */
  const TemperatureOffsets: map<string, real> := map["K" := 0.0, "C" := 273.15]

  /** `parse_length`: metres. */
  function ParseLength(parseFloat: FloatParser, s: string): (r: Result<real>)
    ensures ':' !in s ==> r == Err(NoUnit)
    ensures r.Ok? ==> SplitOnce(s, ':').Some? && SplitOnce(s, ':').value.1 in LengthFactors
  {
    match SplitOnce(s, ':')
    case None => Err(NoUnit)
    case Some((number, unit)) =>
      if unit == "" then Err(NoUnit)
      else match parseFloat(number)
        case None => Err(ParseFloatError)
        case Some(value) =>
          LengthUnitTable(value, unit);
          LengthInUnit(value, unit)
  }

  /** The unit match of `parse_length`, once the number has been read. */
  function LengthInUnit(value: real, unit: string): Result<real> {
    match unit
    case "km" => Ok(value * 1000.0)
    case "m" => Ok(value * 1.0)
    case "dm" => Ok(value * 0.1)
    case "cm" => Ok(value * 0.01)
    case "mm" => Ok(value * 0.001)
    case "um" => Ok(value * 0.000001)
    case "nm" => Ok(value * 0.000000001)
    case "pm" => Ok(value * 0.000000000001)
    case "fm" => Ok(value * 0.000000000000001)
    case "s" | "ms" | "us" | "ns" | "ps" | "fs" | "K" | "C" => Err(InvalidUnit)
    case _ => Err(UnknownUnit)
  }

  /** A length unit scales by its factor; a time or temperature unit is invalid; any other is unknown. */
  lemma LengthUnitTable(value: real, unit: string)
    ensures LengthInUnit(value, unit)
      == if unit in LengthFactors then Ok(value * LengthFactors[unit])
         else if unit in TimeDivisors || unit in TemperatureOffsets then Err(InvalidUnit)
         else Err(UnknownUnit)
  {
  }

  /** `parse_time`. */
  function ParseTime(parseFloat: FloatParser, s: string): (r: Result<Times.Time>)
    ensures ':' !in s ==> r == Err(NoUnit)
    ensures r.Ok? ==> SplitOnce(s, ':').Some? && SplitOnce(s, ':').value.1 in TimeDivisors
  {
    match SplitOnce(s, ':')
    case None => Err(NoUnit)
    case Some((number, unit)) =>
      if unit == "" then Err(NoUnit)
      else match parseFloat(number)
        case None => Err(ParseFloatError)
        case Some(value) =>
          TimeUnitTable(value, unit);
          TimeInUnit(value, unit)
  }

  /** The unit match of `parse_time`, once the number has been read. */
  function TimeInUnit(value: real, unit: string): Result<Times.Time> {
    match unit
    case "s" => Ok(Times.FromSeconds(value))
    case "ms" => Ok(Times.FromMilliseconds(value))
    case "us" => Ok(Times.FromMicroseconds(value))
    case "ns" => Ok(Times.FromNanoseconds(value))
    case "ps" => Ok(Times.FromPicoseconds(value))
    case "fs" => Ok(Times.FromFemtoseconds(value))
    case "km" | "m" | "dm" | "cm" | "mm" | "um" | "nm" | "pm" | "fm" | "K" | "C" => Err(InvalidUnit)
    case _ => Err(UnknownUnit)
  }

  /** A time unit gives the time whose seconds times the unit's divisor are the value;
      a length or temperature unit is invalid; any other is unknown. */
  lemma TimeUnitTable(value: real, unit: string)
    ensures unit in TimeDivisors ==>
      TimeInUnit(value, unit).Ok? && TimeInUnit(value, unit).value.seconds * TimeDivisors[unit] == value
    ensures unit !in TimeDivisors ==>
      TimeInUnit(value, unit)
        == if unit in LengthFactors || unit in TemperatureOffsets then Err(InvalidUnit) else Err(UnknownUnit)
  {
  }

  /** `parse_temperature_value`: the value minus the unit's offset. */
  function ParseTemperatureValue(parseFloat: FloatParser, s: string): (r: Result<real>)
    ensures ':' !in s ==> r == Err(NoUnit)
    ensures r.Ok? ==> SplitOnce(s, ':').Some? && SplitOnce(s, ':').value.1 in TemperatureOffsets
  {
    match SplitOnce(s, ':')
    case None => Err(NoUnit)
    case Some((number, unit)) =>
      if unit == "" then Err(NoUnit)
      else match parseFloat(number)
        case None => Err(ParseFloatError)
        case Some(value) =>
          TemperatureUnitTable(value, unit);
          TemperatureInUnit(value, unit)
  }

  /** The unit match of `parse_temperature_value`, once the number has been read. */
  function TemperatureInUnit(value: real, unit: string): Result<real> {
    match unit
    case "K" => Ok(value - 0.0)
    case "C" => Ok(value - 273.15)
    case "km" | "m" | "dm" | "cm" | "mm" | "um" | "nm" | "pm" | "fm"
       | "s" | "ms" | "us" | "ns" | "ps" | "fs" => Err(InvalidUnit)
    case _ => Err(UnknownUnit)
  }

  /** "K" and "C" subtract their offsets; a length or time unit is invalid; any other is unknown. */
  lemma TemperatureUnitTable(value: real, unit: string)
    ensures TemperatureInUnit(value, unit)
      == if unit in TemperatureOffsets then Ok(value - TemperatureOffsets[unit])
         else if unit in LengthFactors || unit in TimeDivisors then Err(InvalidUnit)
         else Err(UnknownUnit)
  {
  }

  /** The outcome shared by the three quantity parsers for `number:unit`, given
      whether the unit belongs to the quantity (`own`) or to one of the other two
      (`foreign`). */
  function QuantityOutcome(parseFloat: FloatParser, number: string, unit: string,
                           own: bool, foreign: bool): Result<real>
  {
    if unit == "" then Err(NoUnit)
    else if parseFloat(number).None? then Err(ParseFloatError)
    else if own then Ok(parseFloat(number).value)
    else if foreign then Err(InvalidUnit)
    else Err(UnknownUnit)
  }

  /** `parse_length` on `number:unit`: no unit, then the number, then the unit
      table; a known length unit scales by its factor. */
  lemma ParseLengthOf(parseFloat: FloatParser, number: string, unit: string)
    requires ':' !in number
    ensures var q := QuantityOutcome(parseFloat, number, unit, unit in LengthFactors,
                                     unit in TimeDivisors || unit in TemperatureOffsets);
      ParseLength(parseFloat, number + ":" + unit)
        == if q.Ok? then Ok(q.value * LengthFactors[unit]) else Err(q.error)
  {
    SplitOnceAtFirst(number, ':', unit);
    assert number + ":" + unit == number + [':'] + unit;
    if unit != "" && parseFloat(number).Some? {
      LengthUnitTable(parseFloat(number).value, unit);
    }
  }

  /** `parse_time` on `number:unit`: a known time unit yields the time whose
      seconds times the unit's divisor give back the number. */
  lemma ParseTimeOf(parseFloat: FloatParser, number: string, unit: string)
    requires ':' !in number
    ensures var q := QuantityOutcome(parseFloat, number, unit, unit in TimeDivisors,
                                     unit in LengthFactors || unit in TemperatureOffsets);
      var r := ParseTime(parseFloat, number + ":" + unit);
      && (q.Err? ==> r == Err(q.error))
      && (q.Ok? ==> r.Ok? && r.value.seconds * TimeDivisors[unit] == q.value)
  {
    SplitOnceAtFirst(number, ':', unit);
    assert number + ":" + unit == number + [':'] + unit;
    if unit != "" && parseFloat(number).Some? {
      TimeUnitTable(parseFloat(number).value, unit);
    }
  }

  /** `parse_temperature_value` on `number:unit`: "K" keeps the number and "C"
      subtracts 273.15 from it (the sign of the offset is as written). */
  lemma ParseTemperatureValueOf(parseFloat: FloatParser, number: string, unit: string)
    requires ':' !in number
    ensures var q := QuantityOutcome(parseFloat, number, unit, unit in TemperatureOffsets,
                                     unit in LengthFactors || unit in TimeDivisors);
      ParseTemperatureValue(parseFloat, number + ":" + unit)
        == if q.Ok? then Ok(q.value - TemperatureOffsets[unit]) else Err(q.error)
  {
    SplitOnceAtFirst(number, ':', unit);
    assert number + ":" + unit == number + [':'] + unit;
    if unit != "" && parseFloat(number).Some? {
      TemperatureUnitTable(parseFloat(number).value, unit);
    }
  }

  /** The unit is everything after the first colon, so "1:m:x" has the unknown unit "m:x". */
  lemma UnitIsAfterFirstColon(parseFloat: FloatParser)
    requires parseFloat("1") == Some(1.0)
    ensures ParseLength(parseFloat, "1:m:x") == Err(UnknownUnit)
  {
    assert "1:m:x" == "1" + ":" + "m:x";
    assert "m:x" !in LengthFactors && "m:x" !in TimeDivisors && "m:x" !in TemperatureOffsets;
    ParseLengthOf(parseFloat, "1", "m:x");
  }

  /** A malformed number is reported even when the unit is also wrong. */
  lemma NumberBeforeUnit(parseFloat: FloatParser, number: string, unit: string)
    requires ':' !in number && unit != "" && parseFloat(number).None?
    ensures ParseLength(parseFloat, number + ":" + unit) == Err(ParseFloatError)
    ensures ParseTime(parseFloat, number + ":" + unit) == Err(ParseFloatError)
    ensures ParseTemperatureValue(parseFloat, number + ":" + unit) == Err(ParseFloatError)
  {
    ParseLengthOf(parseFloat, number, unit);
    ParseTimeOf(parseFloat, number, unit);
    ParseTemperatureValueOf(parseFloat, number, unit);
  }

  /** 0 degrees Celsius is read as -273.15 K, not +273.15 K. */
  lemma CelsiusAsWritten(parseFloat: FloatParser)
    requires parseFloat("0") == Some(0.0) && parseFloat("300") == Some(300.0)
    ensures ParseTemperatureValue(parseFloat, "0:C") == Ok(-273.15)
    ensures ParseTemperatureValue(parseFloat, "300:K") == Ok(300.0)
  {
    assert "0:C" == "0" + ":" + "C";
    ParseTemperatureValueOf(parseFloat, "0", "C");
    assert "300:K" == "300" + ":" + "K";
    ParseTemperatureValueOf(parseFloat, "300", "K");
  }

  // ---------------------------------------------------------------------
  // Keyword arguments
  // ---------------------------------------------------------------------

  /** `parse_single_time`: exactly one argument, read as a time. */
  function ParseSingleTime(parseFloat: FloatParser, arguments: seq<string>): (r: Result<Times.Time>)
    ensures |arguments| != 1 ==> r == Err(if |arguments| < 1 then TooFewArguments else TooManyArguments)
    ensures |arguments| == 1 ==> r == ParseTime(parseFloat, arguments[0])
  {
    match ParseArguments(arguments, 1)
    case Err(e) => Err(e)
    case Ok(args) => ParseTime(parseFloat, args[0])
  }

  /** `parse_temperature`: exactly one argument, read as a temperature in Kelvin. */
  function ParseTemperature(parseFloat: FloatParser, arguments: seq<string>): (r: Result<real>)
    ensures |arguments| != 1 ==> r == Err(if |arguments| < 1 then TooFewArguments else TooManyArguments)
    ensures |arguments| == 1 ==> r == ParseTemperatureValue(parseFloat, arguments[0])
  {
    match ParseArguments(arguments, 1)
    case Err(e) => Err(e)
    case Ok(args) => ParseTemperatureValue(parseFloat, args[0])
  }

  /** The largest `usize` on a 64-bit target. */
  const UsizeMax: nat := 18446744073709551615

  /** `f64 as usize` for a finite value: truncation toward zero, saturating at 0 and `usize::MAX`. */
  function AsUsize(x: real): (n: nat)
    ensures n <= UsizeMax
    ensures x < 1.0 ==> n == 0
    ensures 0.0 <= x < UsizeMax as real ==> n as real <= x < n as real + 1.0
    ensures x >= UsizeMax as real ==> n == UsizeMax
  {
    if x <= 0.0 then 0
    else if x >= UsizeMax as real then UsizeMax
    else x.Floor
  }

  /** `parse_particles`: exactly one argument, a number cast to `usize`. */
  function ParseParticles(parseFloat: FloatParser, arguments: seq<string>): (r: Result<nat>)
    ensures |arguments| != 1 ==> r == Err(if |arguments| < 1 then TooFewArguments else TooManyArguments)
    ensures |arguments| == 1 ==> (r.Ok? <==> parseFloat(arguments[0]).Some?)
    ensures r.Err? && |arguments| == 1 ==> r.error == ParseFloatError
    ensures r.Ok? ==> r.value <= UsizeMax
    ensures r.Ok? && 0.0 <= parseFloat(arguments[0]).value < UsizeMax as real ==>
      r.value as real <= parseFloat(arguments[0]).value < r.value as real + 1.0
    ensures r.Ok? && parseFloat(arguments[0]).value < 1.0 ==> r.value == 0
    ensures r.Ok? && parseFloat(arguments[0]).value >= UsizeMax as real ==> r.value == UsizeMax
  {
    match ParseArguments(arguments, 1)
    case Err(e) => Err(e)
    case Ok(args) =>
      match parseFloat(args[0])
      case None => Err(ParseFloatError)
      case Some(value) => Ok(AsUsize(value))
  }

  /** `parse_boundary`: four arguments, the first (the shape) ignored, then
      x, y and z as lengths, in that order; the first error is returned. */
  function ParseBoundary(parseFloat: FloatParser, arguments: seq<string>): (r: Result<Vectors.Vec3>)
    ensures |arguments| != 4 ==> r == Err(if |arguments| < 4 then TooFewArguments else TooManyArguments)
    ensures |arguments| == 4 ==>
      var x := ParseLength(parseFloat, arguments[1]);
      var y := ParseLength(parseFloat, arguments[2]);
      var z := ParseLength(parseFloat, arguments[3]);
      && (x.Err? ==> r == Err(x.error))
      && (x.Ok? && y.Err? ==> r == Err(y.error))
      && (x.Ok? && y.Ok? && z.Err? ==> r == Err(z.error))
      && (x.Ok? && y.Ok? && z.Ok? ==> r == Ok(Vectors.Vec3(x.value, y.value, z.value)))
  {
    match ParseArguments(arguments, 4)
    case Err(e) => Err(e)
    case Ok(args) =>
      match ParseLength(parseFloat, args[1])
      case Err(e) => Err(e)
      case Ok(x) =>
        match ParseLength(parseFloat, args[2])
        case Err(e) => Err(e)
        case Ok(y) =>
          match ParseLength(parseFloat, args[3])
          case Err(e) => Err(e)
          case Ok(z) => Ok(Vectors.Vec3(x, y, z))
  }

  // ---------------------------------------------------------------------
  // Lines and words
  // ---------------------------------------------------------------------

  /** The pieces of `s` between occurrences of `sep`. */
  function Split(s: string, sep: char): (pieces: seq<string>)
    ensures |pieces| >= 1
    ensures forall k :: 0 <= k < |pieces| ==> sep !in pieces[k]
    decreases |s|
  {
    match SplitOnce(s, sep)
    case None => [s]
    case Some((before, after)) => [before] + Split(after, sep)
  }

  /** The pieces joined back together, with `sep` between neighbours. */
  function Join(pieces: seq<string>, sep: char): string
    requires |pieces| >= 1
  {
    if |pieces| == 1 then pieces[0] else pieces[0] + [sep] + Join(pieces[1..], sep)
  }

  /** Splitting loses nothing: joining the pieces gives the text back. */
  lemma {:induction false} JoinSplit(s: string, sep: char)
    ensures Join(Split(s, sep), sep) == s
    decreases |s|
  {
    match SplitOnce(s, sep)
    case None =>
    case Some((before, after)) =>
      JoinSplit(after, sep);
      var pieces := Split(s, sep);
      assert pieces[1..] == Split(after, sep);
  }

  /** The last piece is joined on after a separator. */
  lemma {:induction false} JoinLast(pieces: seq<string>, sep: char)
    requires |pieces| >= 2
    ensures Join(pieces, sep) == Join(pieces[..|pieces| - 1], sep) + [sep] + pieces[|pieces| - 1]
    decreases |pieces|
  {
    if |pieces| > 2 {
      JoinLast(pieces[1..], sep);
      assert pieces[..|pieces| - 1][1..] == pieces[1..][..|pieces| - 2];
    }
  }

  /** `str::lines`: the pieces between newlines, without the empty piece after
      a final newline (a trailing '\r' is left in place; it is whitespace to
      the word splitter). */
  function Lines(s: string): (lines: seq<string>)
    ensures forall k :: 0 <= k < |lines| ==> '\n' !in lines[k]
    ensures lines == [] <==> s == ""
    ensures s != "" && s[|s| - 1] == '\n' ==> Join(lines, '\n') + "\n" == s
    ensures s != "" && s[|s| - 1] != '\n' ==> Join(lines, '\n') == s
  {
    var pieces := Split(s, '\n');
    JoinSplit(s, '\n');
    var n := |pieces|;
    if n == 1 then
      (if pieces[0] == "" then [] else pieces)
    else
      JoinLast(pieces, '\n');
      if pieces[n - 1] == "" then pieces[..n - 1] else pieces
  }

  /** The characters `split_ascii_whitespace` splits on (U+000B is not one of them). */
  predicate IsAsciiWhitespace(c: char) {
    c == ' ' || c == '\t' || c == '\n' || c == '\U{000C}' || c == '\r'
  }

  predicate NoWhitespace(s: string) {
    forall k :: 0 <= k < |s| ==> !IsAsciiWhitespace(s[k])
  }

  /** The length of the leading run of non-whitespace characters. */
  function WordEnd(s: string): (n: nat)
    ensures n <= |s| && NoWhitespace(s[..n])
    ensures n < |s| ==> IsAsciiWhitespace(s[n])
  {
    if s == [] || IsAsciiWhitespace(s[0]) then 0 else 1 + WordEnd(s[1..])
  }

  /** `str::split_ascii_whitespace`: the maximal non-empty runs of non-whitespace characters. */
  function Words(s: string): (words: seq<string>)
    ensures forall k :: 0 <= k < |words| ==> words[k] != "" && NoWhitespace(words[k])
    decreases |s|
  {
    if s == [] then []
    else if IsAsciiWhitespace(s[0]) then Words(s[1..])
    else
      var n := WordEnd(s);
      [s[..n]] + Words(s[n..])
  }

  predicate AllWhitespace(s: string) {
    forall k :: 0 <= k < |s| ==> IsAsciiWhitespace(s[k])
  }

  /** A word runs up to the first whitespace character or the end of the text. */
  lemma {:induction false} WordEndOfWord(w: string, rest: string)
    requires NoWhitespace(w)
    requires rest == [] || IsAsciiWhitespace(rest[0])
    ensures WordEnd(w + rest) == |w|
    decreases |w|
  {
    if w != [] {
      assert (w + rest)[1..] == w[1..] + rest;
      WordEndOfWord(w[1..], rest);
    }
  }

  /** Whitespace before the text adds no word and splits none. */
  lemma {:induction false} WordsSkipWhitespace(ws: string, s: string)
    requires AllWhitespace(ws)
    ensures Words(ws + s) == Words(s)
    decreases |ws|
  {
    if ws == [] {
      assert ws + s == s;
    } else {
      assert IsAsciiWhitespace((ws + s)[0]) && (ws + s)[1..] == ws[1..] + s;
      WordsSkipWhitespace(ws[1..], s);
    }
  }

  /** A maximal run of non-whitespace characters is one word, and splitting
      goes on after it: `w` followed by whitespace or the end of the text is
      the first word, whole. */
  lemma WordsOfWord(w: string, rest: string)
    requires w != "" && NoWhitespace(w)
    requires rest == [] || IsAsciiWhitespace(rest[0])
    ensures Words(w + rest) == [w] + Words(rest)
  {
    WordEndOfWord(w, rest);
    assert (w + rest)[..|w|] == w && (w + rest)[|w|..] == rest;
  }

  /** The words of `w`, whitespace, then `s`: `w` is the first word and the
      rest are the words of `s`. */
  lemma WordsSplitAtWhitespace(w: string, ws: string, s: string)
    requires w != "" && NoWhitespace(w)
    requires ws != "" && AllWhitespace(ws)
    ensures Words(w + ws + s) == [w] + Words(s)
  {
    assert w + ws + s == w + (ws + s);
    WordsOfWord(w, ws + s);
    WordsSkipWhitespace(ws, s);
  }

  /** `collect::<String>()` over words: concatenation with no separator. */
  function Concat(words: seq<string>): string {
    if words == [] then "" else words[0] + Concat(words[1..])
  }

  /** `s` with every whitespace character removed. */
  function RemoveWhitespace(s: string): string {
    if s == [] then ""
    else if IsAsciiWhitespace(s[0]) then RemoveWhitespace(s[1..])
    else [s[0]] + RemoveWhitespace(s[1..])
  }

  lemma {:induction false} RemoveWhitespaceOfWord(s: string, n: nat)
    requires n <= |s| && NoWhitespace(s[..n])
    ensures RemoveWhitespace(s) == s[..n] + RemoveWhitespace(s[n..])
    decreases n
  {
    if n > 0 {
      assert !IsAsciiWhitespace(s[..n][0]);
      assert s[1..][..n - 1] == s[..n][1..];
      RemoveWhitespaceOfWord(s[1..], n - 1);
      assert s[1..][n - 1..] == s[n..];
      assert s[..n] == [s[0]] + s[1..][..n - 1];
    }
  }

  /** Concatenating the words of `s` is `s` without its whitespace: a title
      line loses every space between its words. */
  lemma {:induction false} ConcatWords(s: string)
    ensures Concat(Words(s)) == RemoveWhitespace(s)
    decreases |s|
  {
    if s == [] {
    } else if IsAsciiWhitespace(s[0]) {
      ConcatWords(s[1..]);
    } else {
      var n := WordEnd(s);
      ConcatWords(s[n..]);
      RemoveWhitespaceOfWord(s, n);
      var words := Words(s);
      assert words[0] == s[..n] && words[1..] == Words(s[n..]);
    }
  }

  // ---------------------------------------------------------------------
  // Recipes
  // ---------------------------------------------------------------------

  /** `Recipe`: the parameters of a simulation. */
  datatype Recipe = Recipe(
    title: string,
    start: Times.Time,
    end: Times.Time,
    timestep: Times.Time,
    snapshot: Times.Time,
    /** Constant temperature in Kelvin. */
    temperature: real,
    particles: nat,
    /** Extent of the periodic box in metres. */
    boundary: Vectors.Vec3)
  {
    /** `Recipe::time`: the span from start to end. */
    function Time(): (t: Times.Time)
      ensures start.Add(t) == end
      ensures Times.Le(start, end) <==> t.seconds >= 0.0
    {
      end.Sub(start)
    }

    /** `Recipe::snapshots`: the span divided by the snapshot interval, cast to `usize`. */
    function Snapshots(): (n: nat)
      requires snapshot.seconds != 0.0
      ensures n <= UsizeMax
      ensures 0.0 <= Time().seconds / snapshot.seconds < UsizeMax as real ==>
        n as real <= Time().seconds / snapshot.seconds < n as real + 1.0
      ensures Time().seconds / snapshot.seconds < 1.0 ==> n == 0
      ensures Time().seconds / snapshot.seconds >= UsizeMax as real ==> n == UsizeMax
    {
      AsUsize(Time().Seconds() / snapshot.Seconds())
    }

    /** `Recipe::timesteps`: the span divided by the timestep, cast to `usize`. */
    function Timesteps(): (n: nat)
      requires timestep.seconds != 0.0
      ensures n <= UsizeMax
      ensures 0.0 <= Time().seconds / timestep.seconds < UsizeMax as real ==>
        n as real <= Time().seconds / timestep.seconds < n as real + 1.0
      ensures Time().seconds / timestep.seconds < 1.0 ==> n == 0
      ensures Time().seconds / timestep.seconds >= UsizeMax as real ==> n == UsizeMax
    {
      AsUsize(Time().Seconds() / timestep.Seconds())
    }
  }

  /** What `from_string` does: returns a recipe, returns an error, or panics. */
  datatype Outcome = Parsed(recipe: Recipe) | Failed(error: ParseError) | Panicked(message: string)

  /** The message of `todo!()`. */
  const TodoMessage: string := "not yet implemented"

  /** The eight `Option` locals of `from_string`. */
  datatype Fields = Fields(
    title: Option<string>,
    start: Option<Times.Time>,
    end: Option<Times.Time>,
    timestep: Option<Times.Time>,
    snapshot: Option<Times.Time>,
    temperature: Option<real>,
    particles: Option<nat>,
    boundary: Option<Vectors.Vec3>)

  const NoFields: Fields := Fields(None, None, None, None, None, None, None, None)

  /** The state between two lines: still reading, or stopped with an outcome. */
  datatype Scanned = Continue(fields: Fields) | Stopped(outcome: Outcome)

  /** One line of the loop in `from_string`: a blank line changes nothing, a
      known keyword updates its field, any other first word panics. */
  function ApplyLine(parseFloat: FloatParser, f: Fields, line: string): Scanned {
    var words := Words(line);
    if words == [] then Continue(f)
    else match KeyOf(words[0])
      case None => Stopped(Panicked(TodoMessage))
      case Some(key) => ApplyKey(parseFloat, f, key, words[1..])
  }

  /** The arm of the keyword match for `key`: parse the arguments and store
      them in the field, or stop with the error (`?`). */
  function ApplyKey(parseFloat: FloatParser, f: Fields, key: Key, arguments: seq<string>): Scanned {
    match key
    case Title => Continue(f.(title := Some(Concat(arguments))))
    case Start =>
      (match ParseSingleTime(parseFloat, arguments)
       case Err(e) => Stopped(Failed(e))
       case Ok(t) => Continue(f.(start := Some(t))))
    case End =>
      (match ParseSingleTime(parseFloat, arguments)
       case Err(e) => Stopped(Failed(e))
       case Ok(t) => Continue(f.(end := Some(t))))
    case Snapshot =>
      (match ParseSingleTime(parseFloat, arguments)
       case Err(e) => Stopped(Failed(e))
       case Ok(t) => Continue(f.(snapshot := Some(t))))
    case Timestep =>
      (match ParseSingleTime(parseFloat, arguments)
       case Err(e) => Stopped(Failed(e))
       case Ok(t) => Continue(f.(timestep := Some(t))))
    case Temperature =>
      (match ParseTemperature(parseFloat, arguments)
       case Err(e) => Stopped(Failed(e))
       case Ok(k) => Continue(f.(temperature := Some(k))))
    case Particles =>
      (match ParseParticles(parseFloat, arguments)
       case Err(e) => Stopped(Failed(e))
       case Ok(n) => Continue(f.(particles := Some(n))))
    case Boundary =>
      (match ParseBoundary(parseFloat, arguments)
       case Err(e) => Stopped(Failed(e))
       case Ok(b) => Continue(f.(boundary := Some(b))))
  }

  /** The loop of `from_string` over `lines`, starting from `st`. */
  function ScanFrom(parseFloat: FloatParser, st: Scanned, lines: seq<string>): Scanned
    decreases |lines|
  {
    if lines == [] then st
    else match ScanFrom(parseFloat, st, lines[..|lines| - 1])
      case Stopped(o) => Stopped(o)
      case Continue(f) => ApplyLine(parseFloat, f, lines[|lines| - 1])
  }

  /** The `expect` calls after the loop, in the order the source makes them. */
  function Finish(f: Fields): (r: Outcome)
    ensures r.Parsed? <==> forall k: Key :: Get(f, k).Some?
    ensures r.Parsed? ==> forall k: Key :: Get(f, k) == Some(RecipeField(r.recipe, k))
    ensures r.Failed? == false
  {
    assert f.title.None? <==> Get(f, Title).None?;
    assert f.start.None? <==> Get(f, Start).None?;
    assert f.end.None? <==> Get(f, End).None?;
    assert f.snapshot.None? <==> Get(f, Snapshot).None?;
    assert f.timestep.None? <==> Get(f, Timestep).None?;
    assert f.temperature.None? <==> Get(f, Temperature).None?;
    assert f.particles.None? <==> Get(f, Particles).None?;
    assert f.boundary.None? <==> Get(f, Boundary).None?;
    if f.title.None? then Panicked(MissingMessage(Title))
    else if f.start.None? then Panicked(MissingMessage(Start))
    else if f.end.None? then Panicked(MissingMessage(End))
    else if f.snapshot.None? then Panicked(MissingMessage(Snapshot))
    else if f.timestep.None? then Panicked(MissingMessage(Timestep))
    else if f.temperature.None? then Panicked(MissingMessage(Temperature))
    else if f.particles.None? then Panicked(MissingMessage(Particles))
    else if f.boundary.None? then Panicked(MissingMessage(Boundary))
    else Parsed(Recipe(f.title.value, f.start.value, f.end.value, f.timestep.value,
                       f.snapshot.value, f.temperature.value, f.particles.value, f.boundary.value))
  }

  /** The order of the `expect` calls after the loop. */
  const ExpectOrder: seq<Key> := [Title, Start, End, Snapshot, Timestep, Temperature, Particles, Boundary]

  /** The message of the `expect` call for a missing field. */
  function MissingMessage(key: Key): string {
    "recipe should specify " + KeyName(key)
  }

  /** The first `expect` whose field is missing panics: a recipe that lacks
      several fields reports the earliest of them in `ExpectOrder`. */
  lemma FinishFirstMissing(f: Fields, i: nat)
    requires i < |ExpectOrder| && Get(f, ExpectOrder[i]).None?
    requires forall j :: 0 <= j < i ==> Get(f, ExpectOrder[j]).Some?
    ensures Finish(f) == Panicked(MissingMessage(ExpectOrder[i]))
  {
    if i > 0 { assert Get(f, ExpectOrder[0]).Some?; }
    if i > 1 { assert Get(f, ExpectOrder[1]).Some?; }
    if i > 2 { assert Get(f, ExpectOrder[2]).Some?; }
    if i > 3 { assert Get(f, ExpectOrder[3]).Some?; }
    if i > 4 { assert Get(f, ExpectOrder[4]).Some?; }
    if i > 5 { assert Get(f, ExpectOrder[5]).Some?; }
    if i > 6 { assert Get(f, ExpectOrder[6]).Some?; }
  }

  /** `Recipe::from_string`, as a function of the source text. */
  function Parse(parseFloat: FloatParser, src: string): Outcome {
    match ScanFrom(parseFloat, Continue(NoFields), Lines(src))
    case Stopped(o) => o
    case Continue(f) => Finish(f)
  }

  /** Reading one more line applies that line to the fields read so far. */
  lemma ScanOneMore(parseFloat: FloatParser, lines: seq<string>, i: nat, f: Fields)
    requires i < |lines| && ScanFrom(parseFloat, Continue(NoFields), lines[..i]) == Continue(f)
    ensures ScanFrom(parseFloat, Continue(NoFields), lines[..i + 1]) == ApplyLine(parseFloat, f, lines[i])
  {
    assert lines[..i + 1][..i] == lines[..i];
  }

  /** A line whose first word is a keyword is that keyword's arm. */
  lemma KeywordLine(parseFloat: FloatParser, f: Fields, line: string, key: Key)
    requires Words(line) != [] && KeyOf(Words(line)[0]) == Some(key)
    ensures ApplyLine(parseFloat, f, line) == ApplyKey(parseFloat, f, key, Words(line)[1..])
  {
  }

  /** The body of the loop in `from_string` for one line: the keyword match
      either updates one of the eight fields or ends the loop with an error
      (`?`) or a panic (`todo!()`). */
  method ReadLine(parseFloat: FloatParser, f: Fields, line: string) returns (g: Fields, stop: Option<Outcome>)
    ensures stop.None? ==> ApplyLine(parseFloat, f, line) == Continue(g)
    ensures stop.Some? ==> ApplyLine(parseFloat, f, line) == Stopped(stop.value)
  {
    g := f;
    stop := None;
    var words := Words(line);
    if words != [] {
      var arguments := words[1..];
      match words[0] {
        case "title" =>
          KeywordLine(parseFloat, f, line, Title);
          g := g.(title := Some(Concat(arguments)));
        case "start" =>
          KeywordLine(parseFloat, f, line, Start);
          var t := ParseSingleTime(parseFloat, arguments);
          if t.Err? { stop := Some(Failed(t.error)); } else { g := g.(start := Some(t.value)); }
        case "end" =>
          KeywordLine(parseFloat, f, line, End);
          var t := ParseSingleTime(parseFloat, arguments);
          if t.Err? { stop := Some(Failed(t.error)); } else { g := g.(end := Some(t.value)); }
        case "snapshot" =>
          KeywordLine(parseFloat, f, line, Snapshot);
          var t := ParseSingleTime(parseFloat, arguments);
          if t.Err? { stop := Some(Failed(t.error)); } else { g := g.(snapshot := Some(t.value)); }
        case "timestep" =>
          KeywordLine(parseFloat, f, line, Timestep);
          var t := ParseSingleTime(parseFloat, arguments);
          if t.Err? { stop := Some(Failed(t.error)); } else { g := g.(timestep := Some(t.value)); }
        case "temperature" =>
          KeywordLine(parseFloat, f, line, Temperature);
          var k := ParseTemperature(parseFloat, arguments);
          if k.Err? { stop := Some(Failed(k.error)); } else { g := g.(temperature := Some(k.value)); }
        case "particles" =>
          KeywordLine(parseFloat, f, line, Particles);
          var n := ParseParticles(parseFloat, arguments);
          if n.Err? { stop := Some(Failed(n.error)); } else { g := g.(particles := Some(n.value)); }
        case "boundary" =>
          KeywordLine(parseFloat, f, line, Boundary);
          var b := ParseBoundary(parseFloat, arguments);
          if b.Err? { stop := Some(Failed(b.error)); } else { g := g.(boundary := Some(b.value)); }
        case _ =>
          assert KeyOf(words[0]).None?;
          stop := Some(Panicked(TodoMessage));
      }
    }
  }

  /** `Recipe::from_string`: the loop over lines, which updates the eight
      optional fields in place, then the `expect` calls. */
  method FromString(parseFloat: FloatParser, src: string) returns (r: Outcome)
    ensures r == Parse(parseFloat, src)
  {
    var fields := NoFields;
    var lines := Lines(src);
    for i := 0 to |lines|
      invariant ScanFrom(parseFloat, Continue(NoFields), lines[..i]) == Continue(fields)
    {
      ScanOneMore(parseFloat, lines, i, fields);
      var stop: Option<Outcome>;
      fields, stop := ReadLine(parseFloat, fields, lines[i]);
      if stop.Some? {
        StoppedPersists(parseFloat, Continue(NoFields), lines[..i + 1], lines[i + 1..]);
        assert lines[..i + 1] + lines[i + 1..] == lines;
        return stop.value;
      }
    }
    assert lines[..|lines|] == lines;
    if fields.title.None? { return Panicked(MissingMessage(Title)); }
    if fields.start.None? { return Panicked(MissingMessage(Start)); }
    if fields.end.None? { return Panicked(MissingMessage(End)); }
    if fields.snapshot.None? { return Panicked(MissingMessage(Snapshot)); }
    if fields.timestep.None? { return Panicked(MissingMessage(Timestep)); }
    if fields.temperature.None? { return Panicked(MissingMessage(Temperature)); }
    if fields.particles.None? { return Panicked(MissingMessage(Particles)); }
    if fields.boundary.None? { return Panicked(MissingMessage(Boundary)); }
    r := Parsed(Recipe(fields.title.value, fields.start.value, fields.end.value, fields.timestep.value,
                       fields.snapshot.value, fields.temperature.value, fields.particles.value,
                       fields.boundary.value));
  }

  // ---------------------------------------------------------------------
  // Properties of the line loop
  // ---------------------------------------------------------------------

  /** The keywords `from_string` accepts, one per field. */
  datatype Key = Title | Start | End | Snapshot | Timestep | Temperature | Particles | Boundary

  /** The field a keyword names, if it is one of the eight. */
  function KeyOf(word: string): Option<Key> {
    match word
    case "title" => Some(Title)
    case "start" => Some(Start)
    case "end" => Some(End)
    case "snapshot" => Some(Snapshot)
    case "timestep" => Some(Timestep)
    case "temperature" => Some(Temperature)
    case "particles" => Some(Particles)
    case "boundary" => Some(Boundary)
    case _ => None
  }

  /** The keyword that names a field; `KeyOf` reads it back. */
  function KeyName(key: Key): (word: string)
    ensures KeyOf(word) == Some(key)
  {
    match key
    case Title => "title"
    case Start => "start"
    case End => "end"
    case Snapshot => "snapshot"
    case Timestep => "timestep"
    case Temperature => "temperature"
    case Particles => "particles"
    case Boundary => "boundary"
  }

  /** A field's value, whatever its type. */
  datatype Value =
    | Text(text: string)
    | Duration(time: Times.Time)
    | Kelvin(kelvin: real)
    | Count(count: nat)
    | Box(box: Vectors.Vec3)

  function MapSome<T>(o: Option<T>, make: T -> Value): Option<Value> {
    if o.None? then None else Some(make(o.value))
  }

  /** The field of a parsed recipe named by a key. */
  function RecipeField(rec: Recipe, key: Key): Value {
    match key
    case Title => Text(rec.title)
    case Start => Duration(rec.start)
    case End => Duration(rec.end)
    case Snapshot => Duration(rec.snapshot)
    case Timestep => Duration(rec.timestep)
    case Temperature => Kelvin(rec.temperature)
    case Particles => Count(rec.particles)
    case Boundary => Box(rec.boundary)
  }

  /** The field named by a key. */
  function Get(f: Fields, key: Key): Option<Value> {
    match key
    case Title => MapSome(f.title, s => Text(s))
    case Start => MapSome(f.start, t => Duration(t))
    case End => MapSome(f.end, t => Duration(t))
    case Snapshot => MapSome(f.snapshot, t => Duration(t))
    case Timestep => MapSome(f.timestep, t => Duration(t))
    case Temperature => MapSome(f.temperature, k => Kelvin(k))
    case Particles => MapSome(f.particles, n => Count(n))
    case Boundary => MapSome(f.boundary, b => Box(b))
  }

  /** The value a line with this key and these arguments stores, or its error. */
  function ArgumentsValue(parseFloat: FloatParser, key: Key, arguments: seq<string>): Result<Value> {
    match key
    case Title => Ok(Text(Concat(arguments)))
    case Start | End | Snapshot | Timestep =>
      var t := ParseSingleTime(parseFloat, arguments);
      if t.Err? then Err(t.error) else Ok(Duration(t.value))
    case Temperature =>
      var k := ParseTemperature(parseFloat, arguments);
      if k.Err? then Err(k.error) else Ok(Kelvin(k.value))
    case Particles =>
      var n := ParseParticles(parseFloat, arguments);
      if n.Err? then Err(n.error) else Ok(Count(n.value))
    case Boundary =>
      var b := ParseBoundary(parseFloat, arguments);
      if b.Err? then Err(b.error) else Ok(Box(b.value))
  }

  /** The key of a line: `None` for a blank line or an unknown first word. */
  function LineKey(line: string): Option<Key> {
    var words := Words(line);
    if words == [] then None else KeyOf(words[0])
  }

  /** A keyword's arm sets its own field to the value of its arguments, or
      stops with their error. */
  lemma ApplyKeySets(parseFloat: FloatParser, f: Fields, key: Key, arguments: seq<string>)
    ensures var r := ApplyKey(parseFloat, f, key, arguments);
      var v := ArgumentsValue(parseFloat, key, arguments);
      && (v.Err? ==> r == Stopped(Failed(v.error)))
      && (v.Ok? ==> r.Continue? && Get(r.fields, key) == Some(v.value))
  {
    match key {
      case Title =>
      case Start =>
      case End =>
      case Snapshot =>
      case Timestep =>
      case Temperature =>
      case Particles =>
      case Boundary =>
    }
  }

  /** A keyword's arm leaves every other field as it was. */
  lemma ApplyKeyKeepsOthers(parseFloat: FloatParser, f: Fields, key: Key, arguments: seq<string>, other: Key)
    requires other != key && ApplyKey(parseFloat, f, key, arguments).Continue?
    ensures Get(ApplyKey(parseFloat, f, key, arguments).fields, other) == Get(f, other)
  {
    match key {
      case Title =>
      case Start =>
      case End =>
      case Snapshot =>
      case Timestep =>
      case Temperature =>
      case Particles =>
      case Boundary =>
    }
  }

  /** A line sets exactly the field its keyword names to the value of its
      arguments, or stops with their error; an unknown keyword panics. */
  lemma ApplyLineEffect(parseFloat: FloatParser, f: Fields, line: string)
    requires Words(line) != []
    ensures var r := ApplyLine(parseFloat, f, line);
      && (LineKey(line).None? ==> r == Stopped(Panicked(TodoMessage)))
      && (LineKey(line).Some? ==>
            var key := LineKey(line).value;
            var v := ArgumentsValue(parseFloat, key, Words(line)[1..]);
            && (v.Err? ==> r == Stopped(Failed(v.error)))
            && (v.Ok? ==> r.Continue? && Get(r.fields, key) == Some(v.value))
            && (v.Ok? ==> forall k :: k != key ==> Get(r.fields, k) == Get(f, k)))
  {
    if LineKey(line).Some? {
      var key := LineKey(line).value;
      var arguments := Words(line)[1..];
      ApplyKeySets(parseFloat, f, key, arguments);
      forall other | other != key && ApplyKey(parseFloat, f, key, arguments).Continue?
        ensures Get(ApplyKey(parseFloat, f, key, arguments).fields, other) == Get(f, other)
      {
        ApplyKeyKeepsOthers(parseFloat, f, key, arguments, other);
      }
    }
  }

  /** Lines are read in order: reading `ls + ms` is reading `ms` after `ls`. */
  lemma {:induction false} ScanFromAppend(parseFloat: FloatParser, st: Scanned, ls: seq<string>, ms: seq<string>)
    ensures ScanFrom(parseFloat, st, ls + ms) == ScanFrom(parseFloat, ScanFrom(parseFloat, st, ls), ms)
    decreases |ms|
  {
    if ms == [] {
      assert ls + ms == ls;
    } else {
      ScanFromAppend(parseFloat, st, ls, ms[..|ms| - 1]);
      assert (ls + ms)[..|ls + ms| - 1] == ls + ms[..|ms| - 1];
    }
  }

  /** Once stopped, later lines change nothing. */
  lemma {:induction false} StoppedAbsorbs(parseFloat: FloatParser, o: Outcome, ms: seq<string>)
    ensures ScanFrom(parseFloat, Stopped(o), ms) == Stopped(o)
    decreases |ms|
  {
    if ms != [] {
      StoppedAbsorbs(parseFloat, o, ms[..|ms| - 1]);
    }
  }

  /** The first line that fails or panics decides the outcome, whatever follows it. */
  lemma StoppedPersists(parseFloat: FloatParser, st: Scanned, ls: seq<string>, ms: seq<string>)
    requires ScanFrom(parseFloat, st, ls).Stopped?
    ensures ScanFrom(parseFloat, st, ls + ms) == ScanFrom(parseFloat, st, ls)
  {
    ScanFromAppend(parseFloat, st, ls, ms);
    StoppedAbsorbs(parseFloat, ScanFrom(parseFloat, st, ls).outcome, ms);
  }

  /** A blank line (no words) can be removed without changing the outcome. */
  lemma BlankLineIgnored(parseFloat: FloatParser, st: Scanned, ls: seq<string>, blank: string, ms: seq<string>)
    requires Words(blank) == []
    ensures ScanFrom(parseFloat, st, ls + [blank] + ms) == ScanFrom(parseFloat, st, ls + ms)
  {
    ScanFromAppend(parseFloat, st, ls + [blank], ms);
    ScanFromAppend(parseFloat, st, ls, ms);
    assert (ls + [blank])[..|ls + [blank]| - 1] == ls;
  }

  /** Lines with other keywords leave a field as it was. */
  lemma {:induction false} OtherLinesKeepField(parseFloat: FloatParser, f: Fields, ms: seq<string>, key: Key)
    requires forall k :: 0 <= k < |ms| ==> LineKey(ms[k]) != Some(key)
    requires ScanFrom(parseFloat, Continue(f), ms).Continue?
    ensures Get(ScanFrom(parseFloat, Continue(f), ms).fields, key) == Get(f, key)
    decreases |ms|
  {
    if ms != [] {
      var prefix := ms[..|ms| - 1];
      if ScanFrom(parseFloat, Continue(f), prefix).Stopped? {
        StoppedAbsorbs(parseFloat, ScanFrom(parseFloat, Continue(f), prefix).outcome, [ms[|ms| - 1]]);
        assert false;
      }
      OtherLinesKeepField(parseFloat, f, prefix, key);
      var g := ScanFrom(parseFloat, Continue(f), prefix).fields;
      var last := ms[|ms| - 1];
      if Words(last) != [] {
        ApplyLineEffect(parseFloat, g, last);
      }
    }
  }

  /** A repeated keyword keeps the value of its last line. */
  lemma LastLineWins(parseFloat: FloatParser, ls: seq<string>, line: string, ms: seq<string>)
    requires LineKey(line).Some?
    requires forall k :: 0 <= k < |ms| ==> LineKey(ms[k]) != LineKey(line)
    requires ScanFrom(parseFloat, Continue(NoFields), ls + [line] + ms).Continue?
    ensures var key := LineKey(line).value;
      var v := ArgumentsValue(parseFloat, key, Words(line)[1..]);
      v.Ok? && Get(ScanFrom(parseFloat, Continue(NoFields), ls + [line] + ms).fields, key) == Some(v.value)
  {
    var st := Continue(NoFields);
    var key := LineKey(line).value;
    ScanFromAppend(parseFloat, st, ls + [line], ms);
    var mid := ScanFrom(parseFloat, st, ls + [line]);
    if mid.Stopped? {
      StoppedAbsorbs(parseFloat, mid.outcome, ms);
      assert false;
    }
    assert (ls + [line])[..|ls + [line]| - 1] == ls;
    var before := ScanFrom(parseFloat, st, ls);
    if before.Stopped? {
      assert false;
    }
    ApplyLineEffect(parseFloat, before.fields, line);
    OtherLinesKeepField(parseFloat, mid.fields, ms, key);
  }

  /** A non-blank line with an unknown keyword panics with `todo!()`'s message
      unless an earlier line has already stopped the loop. */
  lemma UnknownKeywordPanics(parseFloat: FloatParser, ls: seq<string>, line: string, ms: seq<string>)
    requires Words(line) != [] && LineKey(line).None?
    requires ScanFrom(parseFloat, Continue(NoFields), ls).Continue?
    ensures ScanFrom(parseFloat, Continue(NoFields), ls + [line] + ms) == Stopped(Panicked(TodoMessage))
  {
    var st := Continue(NoFields);
    ScanFromAppend(parseFloat, st, ls + [line], ms);
    assert (ls + [line])[..|ls + [line]| - 1] == ls;
    ApplyLineEffect(parseFloat, ScanFrom(parseFloat, st, ls).fields, line);
    StoppedAbsorbs(parseFloat, Panicked(TodoMessage), ms);
  }

  /** The loop itself never produces a recipe: it stops only with an error
      or a panic. */
  lemma {:induction false} ScanNeverParses(parseFloat: FloatParser, lines: seq<string>)
    ensures var st := ScanFrom(parseFloat, Continue(NoFields), lines);
      st.Stopped? ==> !st.outcome.Parsed?
    decreases |lines|
  {
    if lines != [] {
      var init := lines[..|lines| - 1];
      ScanNeverParses(parseFloat, init);
      var before := ScanFrom(parseFloat, Continue(NoFields), init);
      if before.Continue? && Words(lines[|lines| - 1]) != [] {
        ApplyLineEffect(parseFloat, before.fields, lines[|lines| - 1]);
      }
    }
  }

  /** A parsed recipe holds the fields the loop read: each field of the
      recipe is the value of the last line with that keyword. */
  lemma ParsedFromLastLine(parseFloat: FloatParser, src: string, ls: seq<string>, line: string, ms: seq<string>)
    requires Lines(src) == ls + [line] + ms
    requires LineKey(line).Some?
    requires forall k :: 0 <= k < |ms| ==> LineKey(ms[k]) != LineKey(line)
    requires Parse(parseFloat, src).Parsed?
    ensures var key := LineKey(line).value;
      var v := ArgumentsValue(parseFloat, key, Words(line)[1..]);
      v.Ok? && RecipeField(Parse(parseFloat, src).recipe, key) == v.value
  {
    ScanNeverParses(parseFloat, Lines(src));
    LastLineWins(parseFloat, ls, line, ms);
  }
}
