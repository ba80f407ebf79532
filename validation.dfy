/** The validation pipeline of the Haversine form as pure functions: the comma
    check, the split at the first comma, the number and range checks, their
    composition for one input and for the two points, and the parsing of an
    accepted input. The form's methods (module Form) are proved against these
    functions; the lemmas here state what the pipeline accepts and in which
    order it reports failures. */
module Validation {
  import opened JsBuiltins

  /** The five failures the form reports, in the order of its message table. */
  datatype ErrorKind = CommaNeeded | TooManyCommas | NotANumber | LatOutOfRange | LonOutOfRange
  {
    /** The position of this failure's text in ErrorMessages. */
    function Index(): (i: nat)
      ensures i < |ErrorMessages|
    {
      match this
      case CommaNeeded => 0
      case TooManyCommas => 1
      case NotANumber => 2
      case LatOutOfRange => 3
      case LonOutOfRange => 4
    }
  }

  /** The form's message table, with its spelling. */
  const ErrorMessages: seq<string> := [
    "Separate latitude and longtitude values with a comma for valid input.",
    "Invalid input, too many commas.",
    "Invalid input, must be a number.",
    "Invalide input, Latitude must be between -90 and 90.",
    "Invalide input, longtitude must be between -180 and 180."
  ]

  function Message(e: ErrorKind): string {
    ErrorMessages[e.Index()]
  }

  /** The outcome of a check: success, or the failure that stopped it. */
  datatype Check = Pass | Fail(error: ErrorKind)

  /** What errorMessage holds after a check that started from prev: a failing
      check sets its message, a passing one leaves the field alone. */
  function Report(prev: string, c: Check): string {
    match c
    case Pass => prev
    case Fail(e) => Message(e)
  }

  // ---------------------------------------------------------------------
  // The comma check

  /** The number of occurrences of c in s. */
  function CountChar(s: string, c: char): nat {
    if s == [] then 0
    else CountChar(s[..|s| - 1], c) + (if s[|s| - 1] == c then 1 else 0)
  }

  /** isValidCommas: exactly one comma passes; none is CommaNeeded, more than
      one is TooManyCommas. */
  function CommaCheck(s: string): Check {
    var commaCount := CountChar(s, ',');
    if commaCount < 1 then Fail(CommaNeeded)
    else if commaCount > 1 then Fail(TooManyCommas)
    else Pass
  }

  // ---------------------------------------------------------------------
  // The split and the number checks

  /** separateUserInputStr: the text before the first comma and the text after
      it, with substring's clamping when there is no comma. */
  function Separate(s: string): (string, string) {
    var commaIndex := IndexOf(s, ',');
    (Substring(s, 0, commaIndex), Substring(s, commaIndex + 1, |s|))
  }

  /** One round of areNumsValid's loop: segment i must parse as a number, and
      Math.abs of the raw segment must not exceed the bound for its position. */
  function SegmentCheck(i: nat, segment: string): Check {
    if ParseFloat(segment).NaN? then Fail(NotANumber)
    else if i == 0 && GreaterThan(Abs(ToNumber(segment)), 90.0) then Fail(LatOutOfRange)
    else if i == 1 && GreaterThan(Abs(ToNumber(segment)), 180.0) then Fail(LonOutOfRange)
    else Pass
  }

  /** The first failing round of areNumsValid's loop from round `from` on. */
  function SegmentsCheck(coord: seq<string>, from: nat): Check
    decreases |coord| - from
  {
    if from >= |coord| then Pass
    else
      var c := SegmentCheck(from, coord[from]);
      if c.Fail? then c else SegmentsCheck(coord, from + 1)
  }

  /** The number checks over a latitude and a longitude text. */
  function HalvesCheck(latStr: string, lonStr: string): Check {
    SegmentsCheck([latStr, lonStr], 0)
  }

  /** areNumsValid: the number checks over the two halves of the input. */
  function NumsCheck(s: string): Check {
    var halves := Separate(s);
    HalvesCheck(halves.0, halves.1)
  }

  /** validateUserInput: the number checks run only when the comma check
      passed (the `&&` at the call). */
  function Validate(s: string): Check {
    var c := CommaCheck(s);
    if c.Fail? then c else NumsCheck(s)
  }

  // ---------------------------------------------------------------------
  // Parsing and the two points

  /** The [latitude, longitude] pair parseUserInput builds. */
  datatype NumCoord = NumCoord(lat: Num, lon: Num)

  /** parseUserInput: parseFloat of each half. */
  function ParseUserInput(s: string): NumCoord {
    var (latStr, lonStr) := Separate(s);
    NumCoord(ParseFloat(latStr), ParseFloat(lonStr))
  }

  /** haversine: distanceKm is the distance in kilometres as toFixed(3)
      renders it, left abstract; the unit is appended. */
  function Haversine(c1: NumCoord, c2: NumCoord, distanceKm: (NumCoord, NumCoord) -> string): string {
    distanceKm(c1, c2) + "km"
  }

  /** The first input of `inputs`, from position `from` on, that fails
      validation. */
  function FirstFailure(inputs: seq<string>, from: nat): Check
    decreases |inputs| - from
  {
    if from >= |inputs| then Pass
    else
      var c := Validate(inputs[from]);
      if c.Fail? then c else FirstFailure(inputs, from + 1)
  }

  /** What checkValidParseInputCalcDist decides for the two points. */
  datatype Verdict = Rejected(error: ErrorKind) | Distance(text: string)

  function Evaluate(a: string, b: string, distanceKm: (NumCoord, NumCoord) -> string): Verdict {
    match FirstFailure([a, b], 0)
    case Fail(e) => Rejected(e)
    case Pass => Distance(Haversine(ParseUserInput(a), ParseUserInput(b), distanceKm))
  }

  /** An accepted half: it parses as a number and Math.abs of the raw text
      does not exceed the bound. */
  predicate SegmentAccepted(segment: string, bound: real) {
    ParseFloat(segment).Finite? && !GreaterThan(Abs(ToNumber(segment)), bound)
  }

  // ---------------------------------------------------------------------
  // Lemmas: the message table

  /** Each failure has its own non-empty message, so errorMessage tells which
      check failed and is shown by the form. */
  lemma MessagesIdentifyErrors(e1: ErrorKind, e2: ErrorKind)
    ensures Message(e1) != ""
    ensures Message(e1) == Message(e2) ==> e1 == e2
  {
    assert |ErrorMessages[0]| == 69 && |ErrorMessages[1]| == 31 && |ErrorMessages[2]| == 32;
    assert |ErrorMessages[3]| == 52 && |ErrorMessages[4]| == 56;
  }

  // ---------------------------------------------------------------------
  // Lemmas: counting and splitting

  lemma {:induction false} CountCharAppend(a: string, b: string, c: char)
    ensures CountChar(a + b, c) == CountChar(a, c) + CountChar(b, c)
  {
    if b != [] {
      var b' := b[..|b| - 1];
      assert (a + b)[..|a + b| - 1] == a + b';
      CountCharAppend(a, b', c);
    } else {
      assert a + b == a;
    }
  }

  lemma {:induction false} CountCharZero(s: string, c: char)
    ensures CountChar(s, c) == 0 <==> c !in s
  {
    if s != [] {
      var s' := s[..|s| - 1];
      CountCharZero(s', c);
      assert s == s' + [s[|s| - 1]];
      assert c in s <==> c in s' || c == s[|s| - 1];
    }
  }

  /** The comma check accepts exactly the strings with one comma; no comma
      (the empty string included) is CommaNeeded and two or more is
      TooManyCommas. */
  lemma CommaCheckCounts(s: string)
    ensures CommaCheck(s) == Pass <==> CountChar(s, ',') == 1
    ensures CommaCheck(s) == Fail(CommaNeeded) <==> ',' !in s
    ensures CommaCheck(s) == Fail(TooManyCommas) <==> CountChar(s, ',') >= 2
  {
    CountCharZero(s, ',');
  }

  /** With a comma in the input, the split gives the text before the first
      comma and the rest, and putting them back together gives the input;
      with exactly one comma neither half holds a comma. Without a comma the
      latitude half is empty and the longitude half is the whole input. */
  lemma SeparateSplitsAtFirstComma(s: string)
    ensures ',' in s ==> Separate(s).0 + "," + Separate(s).1 == s && ',' !in Separate(s).0
    ensures CountChar(s, ',') == 1 ==> ',' !in Separate(s).0 && ',' !in Separate(s).1
    ensures ',' !in s ==> Separate(s) == ("", s)
  {
    var i := IndexOf(s, ',');
    var (lat, lon) := Separate(s);
    if i >= 0 {
      assert lat == s[..i] && lon == s[i + 1..];
      assert s == s[..i] + [s[i]] + s[i + 1..];
      assert lat + "," + lon == s;
      CountCharAppend(lat + ",", lon, ',');
      CountCharAppend(lat, ",", ',');
      CountCharZero(lat, ',');
      CountCharZero(lon, ',');
    } else {
      CountCharZero(s, ',');
    }
  }

  /** A latitude and a longitude without commas, joined by one, split back
      into themselves. */
  lemma SplitIsUnique(lat: string, lon: string)
    requires ',' !in lat && ',' !in lon
    ensures CountChar(lat + "," + lon, ',') == 1
    ensures Separate(lat + "," + lon) == (lat, lon)
  {
    OneComma(lat, lon);
    var s := lat + "," + lon;
    assert s[..|lat|] == lat;
    FirstComma(s, |lat|);
    assert Substring(s, 0, |lat|) == lat;
    assert s[|lat| + 1..] == lon;
    assert Substring(s, |lat| + 1, |s|) == lon;
  }

  lemma OneComma(lat: string, lon: string)
    requires ',' !in lat && ',' !in lon
    ensures CountChar(lat + "," + lon, ',') == 1
  {
    CountCharAppend(lat + ",", lon, ',');
    CountCharAppend(lat, ",", ',');
    CountCharZero(lat, ',');
    CountCharZero(lon, ',');
  }

  lemma FirstComma(s: string, i: nat)
    requires i < |s| && s[i] == ',' && ',' !in s[..i]
    ensures IndexOf(s, ',') == i
  {
    assert s[i] in s;
  }

  // ---------------------------------------------------------------------
  // Lemmas: the order of the checks

  /** The checks of areNumsValid run latitude first, then longitude, and the
      first failure is the result: latitude not a number, latitude out of
      range, longitude not a number, longitude out of range. */
  lemma HalvesCheckOrder(lat: string, lon: string)
    ensures HalvesCheck(lat, lon) ==
      if ParseFloat(lat).NaN? then Fail(NotANumber)
      else if GreaterThan(Abs(ToNumber(lat)), 90.0) then Fail(LatOutOfRange)
      else if ParseFloat(lon).NaN? then Fail(NotANumber)
      else if GreaterThan(Abs(ToNumber(lon)), 180.0) then Fail(LonOutOfRange)
      else Pass
  {
    var coord := [lat, lon];
    assert SegmentsCheck(coord, 2) == Pass;
    assert SegmentsCheck(coord, 1) == SegmentCheck(1, lon) || SegmentCheck(1, lon).Pass?;
  }

  /** The number checks pass exactly when each half is accepted. */
  lemma HalvesCheckAccepts(lat: string, lon: string)
    ensures HalvesCheck(lat, lon) == Pass <==> SegmentAccepted(lat, 90.0) && SegmentAccepted(lon, 180.0)
  {
    HalvesCheckOrder(lat, lon);
  }

  /** A comma error takes priority: when the comma check fails, its failure is
      the result and no number check is consulted; a number or range failure
      implies the input had exactly one comma. */
  lemma CommaErrorsFirst(s: string)
    ensures CommaCheck(s).Fail? ==> Validate(s) == CommaCheck(s)
    ensures Validate(s).Fail? && Validate(s).error !in {CommaNeeded, TooManyCommas}
            ==> CountChar(s, ',') == 1 && Validate(s) == NumsCheck(s)
  {
  }

  /** Validation accepts an input exactly when it is a latitude and a
      longitude, neither holding a comma, joined by one comma, each of which
      passes its number and range check. */
  lemma ValidateAccepted(s: string)
    requires Validate(s) == Pass
    ensures var (lat, lon) := Separate(s);
      && s == lat + "," + lon && ',' !in lat && ',' !in lon
      && SegmentAccepted(lat, 90.0) && SegmentAccepted(lon, 180.0)
  {
    CommaCheckCounts(s);
    SeparateSplitsAtFirstComma(s);
    HalvesCheckAccepts(Separate(s).0, Separate(s).1);
  }

  lemma ValidateAccepts(lat: string, lon: string)
    requires ',' !in lat && ',' !in lon
    requires SegmentAccepted(lat, 90.0) && SegmentAccepted(lon, 180.0)
    ensures Validate(lat + "," + lon) == Pass
  {
    SplitIsUnique(lat, lon);
    HalvesCheckAccepts(lat, lon);
  }

  // ---------------------------------------------------------------------
  // Lemmas: the numbers an accepted input yields

  lemma {:induction false} BlankHasNoLiteral(t: string)
    requires AllWhiteSpace(t)
    ensures LongestLiteral(t) == 0
  {
    if t != [] {
      assert IsWhiteSpace(t[0]);
      assert SignLength(t) == 0;
      assert DigitRun(t, 0) == 0;
    }
  }

  /** parseFloat of a blank string is NaN. */
  lemma ParseFloatOfBlank(s: string)
    requires Trim(s) == []
    ensures ParseFloat(s).NaN?
  {
    var t := TrimStart(s);
    TrimEndSplits(t);
    assert AllWhiteSpace(t[|Trim(s)|..]);
    assert t[|Trim(s)|..] == t;
    BlankHasNoLiteral(t);
  }

  /** The halves of an accepted input parse to numbers. When a half is a clean
      number (Number reads all of it), that number lies within the bounds;
      the bounds are inclusive. */
  lemma AcceptedParsesToNumbers(s: string)
    requires Validate(s) == Pass
    ensures ParseUserInput(s).lat.Finite? && ParseUserInput(s).lon.Finite?
    ensures ToNumber(Separate(s).0).Finite? ==> -90.0 <= ParseUserInput(s).lat.value <= 90.0
    ensures ToNumber(Separate(s).1).Finite? ==> -180.0 <= ParseUserInput(s).lon.value <= 180.0
  {
    ValidateAccepted(s);
    var (lat, lon) := Separate(s);
    if ToNumber(lat).Finite? {
      CleanSegment(lat);
    }
    if ToNumber(lon).Finite? {
      CleanSegment(lon);
    }
  }

  lemma CleanSegment(segment: string)
    requires ParseFloat(segment).Finite? && ToNumber(segment).Finite?
    ensures ParseFloat(segment) == ToNumber(segment)
  {
    if Trim(segment) == [] {
      ParseFloatOfBlank(segment);
    }
    NumberAgreesWithParseFloat(segment);
  }

  lemma LiteralHasNoComma(lit: string)
    requires IsDecimalLiteral(lit)
    ensures ',' !in lit
  {
    LiteralHead(lit);
    forall i | 0 < i < |lit|
      ensures lit[i] != ','
    {
      LiteralTail(lit, i);
    }
  }

  /** Round trip: a latitude and a longitude written as decimal literals and
      joined by a comma are accepted exactly when |latitude| <= 90 and
      |longitude| <= 180 (otherwise the latitude's failure comes first), and
      the accepted input parses back to the two values. */
  lemma LiteralsRoundTrip(lat: string, lon: string)
    requires IsDecimalLiteral(lat) && IsDecimalLiteral(lon)
    ensures Validate(lat + "," + lon) ==
      if !(-90.0 <= DecimalValue(lat) <= 90.0) then Fail(LatOutOfRange)
      else if !(-180.0 <= DecimalValue(lon) <= 180.0) then Fail(LonOutOfRange)
      else Pass
    ensures ParseUserInput(lat + "," + lon) == NumCoord(Finite(DecimalValue(lat)), Finite(DecimalValue(lon)))
  {
    LiteralHasNoComma(lat);
    LiteralHasNoComma(lon);
    SplitIsUnique(lat, lon);
    LiteralHalvesCheck(lat, lon);
    LiteralHalvesParse(lat, lon);
  }

  lemma LiteralHalvesCheck(lat: string, lon: string)
    requires IsDecimalLiteral(lat) && IsDecimalLiteral(lon)
    ensures HalvesCheck(lat, lon) ==
      if !(-90.0 <= DecimalValue(lat) <= 90.0) then Fail(LatOutOfRange)
      else if !(-180.0 <= DecimalValue(lon) <= 180.0) then Fail(LonOutOfRange)
      else Pass
  {
    ConversionsOfLiteral(lat);
    ConversionsOfLiteral(lon);
    HalvesCheckOrder(lat, lon);
    AbsWithin(DecimalValue(lat), 90.0);
    AbsWithin(DecimalValue(lon), 180.0);
  }

  lemma AbsWithin(v: real, bound: real)
    ensures GreaterThan(Abs(Finite(v)), bound) <==> !(-bound <= v <= bound)
  {
  }

  lemma LiteralHalvesParse(lat: string, lon: string)
    requires IsDecimalLiteral(lat) && IsDecimalLiteral(lon)
    ensures NumCoord(ParseFloat(lat), ParseFloat(lon)) == NumCoord(Finite(DecimalValue(lat)), Finite(DecimalValue(lon)))
  {
    ConversionsOfLiteral(lat);
    ConversionsOfLiteral(lon);
  }

  // ---------------------------------------------------------------------
  // Lemmas: the two points

  /** Point A is validated before point B and the first failure is the
      verdict; only when both pass is a distance computed, from the parsed
      inputs. */
  lemma EvaluateOrder(a: string, b: string, distanceKm: (NumCoord, NumCoord) -> string)
    ensures Evaluate(a, b, distanceKm) ==
      if Validate(a).Fail? then Rejected(Validate(a).error)
      else if Validate(b).Fail? then Rejected(Validate(b).error)
      else Distance(distanceKm(ParseUserInput(a), ParseUserInput(b)) + "km")
  {
    FirstFailureOfTwo(a, b);
  }

  lemma FirstFailureOfTwo(a: string, b: string)
    ensures FirstFailure([a, b], 0) == if Validate(a).Fail? then Validate(a) else Validate(b)
  {
    var inputs := [a, b];
    assert FirstFailure(inputs, 2) == Pass;
  }

  /** When point A fails, point B is not examined: the verdict does not depend
      on it. */
  lemma RejectedAIgnoresB(a: string, b1: string, b2: string, distanceKm: (NumCoord, NumCoord) -> string)
    requires Validate(a).Fail?
    ensures Evaluate(a, b1, distanceKm) == Evaluate(a, b2, distanceKm)
  {
  }

  // ---------------------------------------------------------------------
  // Lemmas: particular inputs

  /** The range check reads the raw half, not the parsed number: "95abc,10"
      passes parseFloat (95) while Math.abs("95abc") is NaN, so the input is
      accepted and parses to latitude 95. */
  lemma RawRangeCheckAcceptsTrailingText(lat: string, lon: string)
    requires lat == "95abc" && lon == "10"
    ensures Validate(lat + "," + lon) == Pass
    ensures ParseUserInput(lat + "," + lon) == NumCoord(Finite(95.0), Finite(10.0))
  {
    assert ',' !in lat && ',' !in lon;
    ParseTrailingText(lat);
    NumberOfTrailingText(lat);
    CleanTen(lon);
    AcceptsTrailingText(lat, lon);
  }

  lemma AcceptsTrailingText(lat: string, lon: string)
    requires ParseFloat(lat) == Finite(95.0) && ToNumber(lat) == NaN
    requires ParseFloat(lon) == Finite(10.0) && ToNumber(lon) == Finite(10.0)
    requires ',' !in lat && ',' !in lon
    ensures Validate(lat + "," + lon) == Pass
    ensures ParseUserInput(lat + "," + lon) == NumCoord(Finite(95.0), Finite(10.0))
  {
    assert SegmentAccepted(lat, 90.0) && SegmentAccepted(lon, 180.0);
    ValidateAccepts(lat, lon);
    SplitIsUnique(lat, lon);
  }

  /** parseFloat("95abc") reads the leading 95. */
  lemma ParseTrailingText(lat: string)
    requires lat == "95abc"
    ensures ParseFloat(lat) == Finite(95.0)
  {
    var lit := "95";
    NinetyFive(lit);
    assert [] + lit + "abc" == lat;
    ParseFloatReadsLiteral([], lit, "abc");
  }

  lemma NinetyFive(lit: string)
    requires lit == "95"
    ensures IsDecimalLiteral(lit) && DecimalValue(lit) == 95.0
  {
    DigitsAreUnsigned(lit);
    assert DigitsValue(lit) == DigitsValue("9") * 10 + 5;
  }

  /** Number("95abc") is NaN. */
  lemma NumberOfTrailingText(lat: string)
    requires lat == "95abc"
    ensures ToNumber(lat) == NaN
  {
    TrimStartKeeps(lat);
    TrimEndKeeps(lat);
    assert Trim(lat) == lat;
    assert Unsigned(lat) == lat;
    StrayChar(lat, 2);
  }

  lemma CleanTen(lon: string)
    requires lon == "10"
    ensures ParseFloat(lon) == Finite(10.0) && ToNumber(lon) == Finite(10.0)
  {
    DigitsAreUnsigned(lon);
    assert DecimalValue(lon) == 10.0 by {
      assert DigitsValue(lon) == DigitsValue("1") * 10 + 0;
    }
    ConversionsOfLiteral(lon);
  }

  /** There is no separate check for an empty input: "" fails the comma
      check, and "," passes it and fails as not a number. */
  lemma NoEmptyInputCheck(empty: string, comma: string)
    requires empty == "" && comma == ","
    ensures Validate(empty) == Fail(CommaNeeded)
    ensures Validate(comma) == Fail(NotANumber)
  {
    CommaCheckCounts(empty);
    assert empty + "," + empty == comma;
    SplitIsUnique(empty, empty);
    BlankHasNoLiteral(empty);
    HalvesCheckOrder(empty, empty);
  }
}
