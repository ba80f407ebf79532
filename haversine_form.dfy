/** The Haversine form's state and handlers. The four pieces of React state
    (pointA, pointB, result, errorMessage) are fields; each handler and each
    validation step is a method that updates them in place, proved against
    the functions of module Validation. The distance computation is the
    parameter distanceKm, fixed when the form is created. */
module Form {
  import opened JsBuiltins
  import opened Validation

  datatype Option<T> = None | Some(value: T)

  /** A distance as the form shows it: some text followed by the unit. */
  predicate EndsInKm(text: string) {
    |text| >= 2 && text[|text| - 2..] == "km"
  }

  class HaversineForm {
    var pointA: string
    var pointB: string
    /** The distance on display; None is the initial null. */
    var result: Option<string>
    var errorMessage: string
    const distanceKm: (NumCoord, NumCoord) -> string

    /** Whatever the form displays as a distance carries the unit. */
    predicate Valid()
      reads this
    {
      result.Some? ==> EndsInKm(result.value)
    }

    /** The initial state: empty inputs, no result, no message. */
    constructor (distanceKm: (NumCoord, NumCoord) -> string)
      ensures pointA == "" && pointB == "" && result == None && errorMessage == ""
      ensures this.distanceKm == distanceKm
      ensures Valid()
    {
      pointA := "";
      pointB := "";
      result := None;
      errorMessage := "";
      this.distanceKm := distanceKm;
    }

    /** The onChange handler of the Point A input. */
    method SetPointA(text: string)
      modifies this`pointA
      ensures pointA == text
    {
      pointA := text;
    }

    /** The onChange handler of the Point B input. */
    method SetPointB(text: string)
      modifies this`pointB
      ensures pointB == text
    {
      pointB := text;
    }

    /** isValidCommas: counts the commas; none sets the first message, more
        than one the second, and exactly one passes and leaves the message
        alone. */
    method IsValidCommas(userInputString: string) returns (ok: bool)
      modifies this`errorMessage
      ensures ok <==> CommaCheck(userInputString) == Pass
      ensures errorMessage == Report(old(errorMessage), CommaCheck(userInputString))
    {
      var commaCount := 0;
      var i := 0;
      while i < |userInputString|
        invariant 0 <= i <= |userInputString|
        invariant commaCount == CountChar(userInputString[..i], ',')
      {
        assert userInputString[..i + 1][..i] == userInputString[..i];
        if userInputString[i] == ',' {
          commaCount := commaCount + 1;
        }
        i := i + 1;
      }
      assert userInputString[..i] == userInputString;
      if commaCount < 1 {
        errorMessage := ErrorMessages[0];
        return false;
      }
      if commaCount > 1 {
        errorMessage := ErrorMessages[1];
        return false;
      } else {
        return true;
      }
    }

    /** areNumsValid: for the latitude and then the longitude half, parseFloat
        must give a number and Math.abs of the raw half must not exceed 90,
        respectively 180; the first failure sets its message. */
    method AreNumsValid(userInputString: string) returns (ok: bool)
      modifies this`errorMessage
      ensures ok <==> NumsCheck(userInputString) == Pass
      ensures errorMessage == Report(old(errorMessage), NumsCheck(userInputString))
    {
      var halves := Separate(userInputString);
      var coord := [halves.0, halves.1];
      assert NumsCheck(userInputString) == SegmentsCheck(coord, 0);
      var i := 0;
      while i < |coord|
        invariant 0 <= i <= |coord|
        invariant SegmentsCheck(coord, i) == SegmentsCheck(coord, 0)
        invariant errorMessage == old(errorMessage)
      {
        var segment := coord[i];
        assert SegmentsCheck(coord, i) ==
          if SegmentCheck(i, segment).Fail? then SegmentCheck(i, segment) else SegmentsCheck(coord, i + 1);
        if ParseFloat(segment).NaN? {
          errorMessage := ErrorMessages[2];
          return false;
        }
        if i == 0 && GreaterThan(Abs(ToNumber(segment)), 90.0) {
          errorMessage := ErrorMessages[3];
          return false;
        }
        if i == 1 && GreaterThan(Abs(ToNumber(segment)), 180.0) {
          errorMessage := ErrorMessages[4];
          return false;
        }
        i := i + 1;
      }
      return true;
    }

    /** validateUserInput: the comma check, and only when it passes the
        number checks. */
    method ValidateUserInput(userInputString: string) returns (ok: bool)
      modifies this`errorMessage
      ensures ok <==> Validate(userInputString) == Pass
      ensures errorMessage == Report(old(errorMessage), Validate(userInputString))
    {
      var commasOk := IsValidCommas(userInputString);
      if commasOk {
        ok := AreNumsValid(userInputString);
      } else {
        ok := false;
      }
    }

    /** checkValidParseInputCalcDist: validates both inputs in order and stops
        at the first failure (None stands for the `false` returned); when both
        pass, the distance between the parsed points. */
    method CheckValidParseInputCalcDist(string1: string, string2: string) returns (d: Option<string>)
      modifies this`errorMessage
      ensures var v := Evaluate(string1, string2, distanceKm);
        && d == (if v.Distance? then Some(v.text) else None)
        && errorMessage == (if v.Rejected? then Message(v.error) else old(errorMessage))
    {
      var coordinates := [string1, string2];
      var i := 0;
      while i < |coordinates|
        invariant 0 <= i <= |coordinates|
        invariant FirstFailure(coordinates, i) == FirstFailure(coordinates, 0)
        invariant errorMessage == old(errorMessage)
      {
        var ok := ValidateUserInput(coordinates[i]);
        if !ok {
          return None;
        }
        i := i + 1;
      }
      d := Some(Haversine(ParseUserInput(string1), ParseUserInput(string2), distanceKm));
    }

    /** handleSubmit: clears the message, then evaluates the two points; a
        distance (always a non-empty, hence truthy, string) replaces the
        result, while a rejection leaves the previous result on display next
        to the new message. The message is empty exactly when the points were
        accepted. */
    method HandleSubmit()
      requires Valid()
      modifies this`errorMessage, this`result
      ensures Valid()
      ensures var v := Evaluate(pointA, pointB, distanceKm);
        && errorMessage == (if v.Rejected? then Message(v.error) else "")
        && result == (if v.Distance? then Some(v.text) else old(result))
        && (errorMessage == "" <==> v.Distance?)
    {
      errorMessage := "";
      var distance := CheckValidParseInputCalcDist(pointA, pointB);
      if distance.Some? && distance.value != "" {
        result := distance;
      }
      var v := Evaluate(pointA, pointB, distanceKm);
      if v.Rejected? {
        MessagesIdentifyErrors(v.error, v.error);
      }
    }

    /** reset: empties both inputs, the result and the message. */
    method Reset()
      modifies this`pointA, this`pointB, this`result, this`errorMessage
      ensures pointA == "" && pointB == "" && result == None && errorMessage == ""
      ensures Valid()
    {
      pointA := "";
      pointB := "";
      result := None;
      errorMessage := "";
    }
  }
}
