/**
 * The data-annotation validator for ISO 3166-1 alpha-2 country codes: an
 * ordered chain of checks on the annotated value, each with its own error,
 * the first failing check deciding the result.
 */
module Geo {
  import opened Common

  /** A UTF-16 code unit, the element of a .NET string: `Length` and indexing count these. */
  newtype CodeUnit = x: int | 0 <= x < 0x1_0000

  /** A .NET string, as its sequence of UTF-16 code units. */
  type Utf16String = seq<CodeUnit>

  /** A parsed alpha-2 country code. */
  datatype Alpha2CountryCode = Alpha2CountryCode(first: CodeUnit, second: CodeUnit)

  /** The value under validation: `null`, a string, or an object of any other type. */
  datatype Value = Null | Str(s: Utf16String) | NonString

  /** The validator's failures, one per check, in the order they are checked. */
  datatype ValidationError =
    | ValueIsNull
    | NotAString
    | WrongLength
    | NotUppercase
    | ParseFailed
    | UnknownCountry

  /** `ValidationResult.Success`, or a validation result carrying an error message. */
  datatype ValidationResult = Success | Failure(error: ValidationError)

  /** The message each failure carries. */
  function Message(e: ValidationError): (m: string)
    ensures m != ""
  {
    match e
    case ValueIsNull => "Value is null"
    case NotAString => "Input type must be string"
    case WrongLength => "Input string must be exactly 2 characters long"
    case NotUppercase => "Characters must be uppercase"
    case ParseFailed => "Failed to create Alpha2CountryCode"
    case UnknownCountry => "Country does not exist in mapping"
  }

  /** `char.IsAsciiLetterUpper`: the code units of 'A' (65) to 'Z' (90). */
  predicate IsAsciiLetterUpper(c: CodeUnit)
  {
    65 <= c <= 90
  }

  /**
   * The validator. `tryParse` stands for `Alpha2CountryCode.TryParseAndValidate`
   * and `codes` for the keys of the country table.
   */
  function IsValid(value: Value, tryParse: Utf16String -> Option<Alpha2CountryCode>,
                   codes: set<Alpha2CountryCode>): (r: ValidationResult)
    ensures r.Success? ==> value.Str? && |value.s| == 2
    ensures r.Success? ==> forall i | 0 <= i < |value.s| :: IsAsciiLetterUpper(value.s[i])
    ensures r.Success? ==> tryParse(value.s).Some? && tryParse(value.s).value in codes
  {
    if value.Null? then Failure(ValueIsNull)
    else if !value.Str? then Failure(NotAString)
    else
      var asString := value.s;
      if |asString| != 2 then Failure(WrongLength)
      else if !IsAsciiLetterUpper(asString[0]) || !IsAsciiLetterUpper(asString[1]) then Failure(NotUppercase)
      else match tryParse(asString)
        case None => Failure(ParseFailed)
        case Some(countryCode) =>
          if countryCode !in codes then Failure(UnknownCountry) else Success
  }

  // ---------------------------------------------------------------------
  // An independent statement of the chain: a list of checks, each stated on
  // its own, and "the first check that does not hold".
  // ---------------------------------------------------------------------

  /** The checks, named by the error each reports, in the order they run. */
  const CheckOrder: seq<ValidationError> :=
    [ValueIsNull, NotAString, WrongLength, NotUppercase, ParseFailed, UnknownCountry]

  /** Whether `value` passes the check that reports `e`, stated without reference to the others. */
  predicate Passes(e: ValidationError, value: Value, tryParse: Utf16String -> Option<Alpha2CountryCode>,
                   codes: set<Alpha2CountryCode>)
  {
    match e
    case ValueIsNull => !value.Null?
    case NotAString => value.Str?
    case WrongLength => value.Str? && |value.s| == 2
    case NotUppercase => value.Str? && forall i | 0 <= i < |value.s| :: IsAsciiLetterUpper(value.s[i])
    case ParseFailed => value.Str? && tryParse(value.s).Some?
    case UnknownCountry => value.Str? && tryParse(value.s).Some? && tryParse(value.s).value in codes
  }

  /** The first of `checks` that `value` does not pass. */
  function FirstFailing(checks: seq<ValidationError>, value: Value,
                        tryParse: Utf16String -> Option<Alpha2CountryCode>,
                        codes: set<Alpha2CountryCode>): (r: Option<ValidationError>)
    ensures r.Some? ==> r.value in checks
  {
    if checks == [] then None
    else if !Passes(checks[0], value, tryParse, codes) then Some(checks[0])
    else FirstFailing(checks[1..], value, tryParse, codes)
  }

  /** No check fails exactly when every check passes. */
  lemma {:induction false} FirstFailingNone(checks: seq<ValidationError>, value: Value,
                                            tryParse: Utf16String -> Option<Alpha2CountryCode>,
                                            codes: set<Alpha2CountryCode>)
    ensures FirstFailing(checks, value, tryParse, codes).None? <==>
      forall j | 0 <= j < |checks| :: Passes(checks[j], value, tryParse, codes)
  {
    if checks != [] {
      FirstFailingNone(checks[1..], value, tryParse, codes);
      assert forall j | 1 <= j < |checks| :: checks[j] == checks[1..][j - 1];
    }
  }

  /**
   * Among distinct checks, the one at position k is reported exactly when it
   * fails and every check before it passes.
   */
  lemma {:induction false} FirstFailingAt(checks: seq<ValidationError>, value: Value,
                                          tryParse: Utf16String -> Option<Alpha2CountryCode>,
                                          codes: set<Alpha2CountryCode>, k: nat)
    requires k < |checks|
    requires forall i, j | 0 <= i < j < |checks| :: checks[i] != checks[j]
    ensures FirstFailing(checks, value, tryParse, codes) == Some(checks[k]) <==>
      !Passes(checks[k], value, tryParse, codes) &&
      forall j | 0 <= j < k :: Passes(checks[j], value, tryParse, codes)
  {
    if Passes(checks[0], value, tryParse, codes) {
      assert forall j | 1 <= j < |checks| :: checks[j] == checks[1..][j - 1];
      if k > 0 {
        FirstFailingAt(checks[1..], value, tryParse, codes, k - 1);
      } else {
        assert checks[0] !in checks[1..];
      }
    }
  }

  /** The validator reports exactly the first check of the chain that fails. */
  lemma IsValidReportsFirstFailure(value: Value, tryParse: Utf16String -> Option<Alpha2CountryCode>,
                                   codes: set<Alpha2CountryCode>)
    ensures IsValid(value, tryParse, codes) ==
      match FirstFailing(CheckOrder, value, tryParse, codes)
      case None => Success
      case Some(e) => Failure(e)
  {
    var c := CheckOrder;
    if value.Str? && |value.s| == 2 {
      assert (forall i | 0 <= i < |value.s| :: IsAsciiLetterUpper(value.s[i])) <==>
        IsAsciiLetterUpper(value.s[0]) && IsAsciiLetterUpper(value.s[1]);
    }
    var c1, c2, c3, c4, c5 := c[1..], c[2..], c[3..], c[4..], c[5..];
    assert c1[1..] == c2 && c2[1..] == c3 && c3[1..] == c4 && c4[1..] == c5 && c5[1..] == [];
    assert FirstFailing(c, value, tryParse, codes) ==
      if !Passes(ValueIsNull, value, tryParse, codes) then Some(ValueIsNull) else FirstFailing(c1, value, tryParse, codes);
    assert FirstFailing(c1, value, tryParse, codes) ==
      if !Passes(NotAString, value, tryParse, codes) then Some(NotAString) else FirstFailing(c2, value, tryParse, codes);
    assert FirstFailing(c2, value, tryParse, codes) ==
      if !Passes(WrongLength, value, tryParse, codes) then Some(WrongLength) else FirstFailing(c3, value, tryParse, codes);
    assert FirstFailing(c3, value, tryParse, codes) ==
      if !Passes(NotUppercase, value, tryParse, codes) then Some(NotUppercase) else FirstFailing(c4, value, tryParse, codes);
    assert FirstFailing(c4, value, tryParse, codes) ==
      if !Passes(ParseFailed, value, tryParse, codes) then Some(ParseFailed) else FirstFailing(c5, value, tryParse, codes);
    assert FirstFailing(c5, value, tryParse, codes) ==
      if !Passes(UnknownCountry, value, tryParse, codes) then Some(UnknownCountry) else None;
  }

  /**
   * The error at position k of the chain is reported exactly when its check
   * fails and every earlier check passes: later checks are never reached.
   */
  lemma ErrorIsFirstFailingCheck(value: Value, tryParse: Utf16String -> Option<Alpha2CountryCode>,
                                 codes: set<Alpha2CountryCode>, k: nat)
    requires k < |CheckOrder|
    ensures IsValid(value, tryParse, codes) == Failure(CheckOrder[k]) <==>
      !Passes(CheckOrder[k], value, tryParse, codes) &&
      forall j | 0 <= j < k :: Passes(CheckOrder[j], value, tryParse, codes)
  {
    IsValidReportsFirstFailure(value, tryParse, codes);
    FirstFailingAt(CheckOrder, value, tryParse, codes, k);
  }

  /** A value is accepted exactly when it passes every check of the chain. */
  lemma AcceptedIffEveryCheckPasses(value: Value, tryParse: Utf16String -> Option<Alpha2CountryCode>,
                                    codes: set<Alpha2CountryCode>)
    ensures IsValid(value, tryParse, codes) == Success <==>
      forall j | 0 <= j < |CheckOrder| :: Passes(CheckOrder[j], value, tryParse, codes)
  {
    IsValidReportsFirstFailure(value, tryParse, codes);
    FirstFailingNone(CheckOrder, value, tryParse, codes);
  }

  /** `null` is rejected first, whatever the parser and the table. */
  lemma NullRejectedFirst(tryParse: Utf16String -> Option<Alpha2CountryCode>, codes: set<Alpha2CountryCode>)
    ensures IsValid(Null, tryParse, codes) == Failure(ValueIsNull)
    ensures Message(IsValid(Null, tryParse, codes).error) == "Value is null"
  {
  }

  /**
   * The parser and the country table are consulted only for a string of two
   * uppercase ASCII letters: for any other value the result does not depend
   * on them.
   */
  lemma MalformedNeverReachesParser(value: Value,
                                    tryParse1: Utf16String -> Option<Alpha2CountryCode>, codes1: set<Alpha2CountryCode>,
                                    tryParse2: Utf16String -> Option<Alpha2CountryCode>, codes2: set<Alpha2CountryCode>)
    requires !(value.Str? && |value.s| == 2 && IsAsciiLetterUpper(value.s[0]) && IsAsciiLetterUpper(value.s[1]))
    ensures IsValid(value, tryParse1, codes1) == IsValid(value, tryParse2, codes2)
    ensures IsValid(value, tryParse1, codes1).Failure?
    ensures IsValid(value, tryParse1, codes1).error in {ValueIsNull, NotAString, WrongLength, NotUppercase}
  {
  }

  /**
   * A character outside the Basic Multilingual Plane, such as U+1F600, is
   * one surrogate pair: two code units, so it passes the length check and is
   * rejected by the uppercase check.
   */
  lemma SurrogatePairIsRejectedAsNotUppercase(tryParse: Utf16String -> Option<Alpha2CountryCode>,
                                              codes: set<Alpha2CountryCode>)
    ensures IsValid(Str([0xD83D, 0xDE00]), tryParse, codes) == Failure(NotUppercase)
    ensures Message(IsValid(Str([0xD83D, 0xDE00]), tryParse, codes).error) == "Characters must be uppercase"
  {
  }

  /** Each failure has its own message. */
  lemma MessagesDistinct(e1: ValidationError, e2: ValidationError)
    requires e1 != e2
    ensures Message(e1) != Message(e2)
  {
  }
}
