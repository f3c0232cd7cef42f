/**
 * The IsFutureDate validator of a task's deadline: a string or a Date whose
 * time is strictly later than now.
 */
module FutureDate {
  import opened Wrappers

  /**
   * The validated value: a string with the time `new Date(value)` parses it
   * to (None for an invalid date), a Date object with its time (None for an
   * invalid Date), or any other value.
   */
  datatype Input = Str(parsed: Option<int>) | DateVal(time: Option<int>) | Other

  /** `defaultMessage`: the fixed message reported when validation fails. */
  function DefaultMessage(): (msg: string)
    ensures msg == "Date cannot be in the past"
  {
    "Date cannot be in the past"
  }

  /** `new Date(value).getTime()`; NaN is None. */
  function TimeOf(value: Input): Option<int>
  {
    match value
    case Str(parsed) => parsed
    case DateVal(time) => time
    case Other => None
  }

  /** `validate`: true exactly for a string or Date whose time is strictly after `now`. */
  function Validate(value: Input, now: int): (ok: bool)
    ensures ok ==> !value.Other?
    ensures ok <==> TimeOf(value).Some? && TimeOf(value).value > now
  {
    if value.Str? || value.DateVal? then
      var date := TimeOf(value);
      date.Some? && date.value > now
    else
      false
  }

  /** What the validator reports for a value: nothing when it is accepted, else the default message. */
  function ValidationError(value: Input, now: int): (err: Option<string>)
    ensures err.None? <==> Validate(value, now)
    ensures err.Some? ==> err.value == "Date cannot be in the past"
  {
    if Validate(value, now) then None else Some(DefaultMessage())
  }

  /** Values that are neither strings nor Dates are rejected. */
  lemma RejectsOtherValues(now: int)
    ensures !Validate(Other, now)
  {
  }

  /** A parsed time is accepted exactly when it is later than now; equal to now is rejected. */
  lemma AcceptsOnlyLaterTimes(t: int, now: int)
    ensures Validate(Str(Some(t)), now) <==> t > now
    ensures Validate(DateVal(Some(t)), now) <==> t > now
    ensures !Validate(Str(Some(now)), now) && !Validate(DateVal(Some(now)), now)
  {
  }

  /** Unparseable strings and invalid Dates compare as NaN and are rejected. */
  lemma RejectsInvalidDates(now: int)
    ensures !Validate(Str(None), now) && !Validate(DateVal(None), now)
  {
  }
}
