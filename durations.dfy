/**
 * `durationToSeconds` (scripts/utils/index.js): a duration written as
 * `<digits> <unit>` is converted to seconds. The accepted language is that
 * of the pattern `^(\d+) +(second|minute|hour|day|week|month|year)s?$`:
 * ASCII digits, one or more spaces, a unit name, an optional plural `s`,
 * nothing else. Anything else is the "Bad duration format" error.
 */
module Durations {
  import opened Wrappers

  datatype Unit = Second | Minute | Hour | Day | Week | Month | Year

  datatype DurationError = BadDurationFormat

  function UnitName(u: Unit): string
  {
    match u
    case Second => "second"
    case Minute => "minute"
    case Hour => "hour"
    case Day => "day"
    case Week => "week"
    case Month => "month"
    case Year => "year"
  }

  /** The unit table, built as the source builds it: a month is 30 days, a year 365 days. */
  function UnitSeconds(u: Unit): nat
  {
    var second := 1;
    var minute := 60 * second;
    var hour := 60 * minute;
    var day := 24 * hour;
    match u
    case Second => second
    case Minute => minute
    case Hour => hour
    case Day => day
    case Week => 7 * day
    case Month => 30 * day
    case Year => 365 * day
  }

  lemma UnitTable()
    ensures UnitSeconds(Second) == 1 && UnitSeconds(Minute) == 60 && UnitSeconds(Hour) == 3600
    ensures UnitSeconds(Day) == 86400 && UnitSeconds(Week) == 604800
    ensures UnitSeconds(Month) == 2592000 && UnitSeconds(Year) == 31536000
  {
  }

  predicate IsDigit(c: char) { '0' <= c <= '9' }

  predicate AllDigits(s: string) { forall i :: 0 <= i < |s| ==> IsDigit(s[i]) }

  /** The length of the longest prefix of `s` made of digits (the greedy `\d+`). */
  function DigitRun(s: string): (n: nat)
    ensures n <= |s| && AllDigits(s[..n])
    ensures n < |s| ==> !IsDigit(s[n])
  {
    if s != [] && IsDigit(s[0]) then 1 + DigitRun(s[1..]) else 0
  }

  /** The length of the longest prefix of `s` made of spaces (the greedy ` +`). */
  function SpaceRun(s: string): (n: nat)
    ensures n <= |s| && s[..n] == Spaces(n)
    ensures n < |s| ==> s[n] != ' '
  {
    if s != [] && s[0] == ' ' then 1 + SpaceRun(s[1..]) else 0
  }

  /** The value of a decimal numeral; leading zeros are allowed. */
  function NumeralValue(digits: string): nat
    requires AllDigits(digits)
  {
    if digits == [] then 0
    else NumeralValue(digits[..|digits| - 1]) * 10 + (digits[|digits| - 1] - '0') as nat
  }

  /** The unit alternative and the optional `s`, which must end the string. */
  function ParseUnit(s: string): Option<Unit>
  {
    if s == "second" || s == "seconds" then Some(Second)
    else if s == "minute" || s == "minutes" then Some(Minute)
    else if s == "hour" || s == "hours" then Some(Hour)
    else if s == "day" || s == "days" then Some(Day)
    else if s == "week" || s == "weeks" then Some(Week)
    else if s == "month" || s == "months" then Some(Month)
    else if s == "year" || s == "years" then Some(Year)
    else None
  }

  /** `durationToSeconds(duration)`: the number times the unit's length in seconds. */
  function DurationToSeconds(duration: string): (r: Result<nat, DurationError>)
    ensures r.Success? ==> 0 < |duration| && IsDigit(duration[0])
    ensures r.Success? ==> DigitRun(duration) < |duration| && duration[DigitRun(duration)] == ' '
    ensures r.Success? ==>
              exists u :: r.value == NumeralValue(duration[..DigitRun(duration)]) * UnitSeconds(u)
  {
    var d := DigitRun(duration);
    var rest := duration[d..];
    var sp := SpaceRun(rest);
    var unit := ParseUnit(rest[sp..]);
    if d == 0 || sp == 0 || unit.None? then Failure(BadDurationFormat)
    else
      Success(NumeralValue(duration[..d]) * UnitSeconds(unit.value))
  }

  function Spaces(n: nat): string
  {
    seq(n, _ => ' ')
  }

  /** The duration text `<digits><spaces><unit>[s]`. */
  function Spelled(digits: string, spaces: nat, u: Unit, plural: bool): string
  {
    digits + Spaces(spaces) + UnitName(u) + (if plural then "s" else "")
  }

  lemma {:induction false} DigitRunOf(digits: string, rest: string)
    requires AllDigits(digits)
    requires rest == [] || !IsDigit(rest[0])
    ensures DigitRun(digits + rest) == |digits|
    decreases |digits|
  {
    if digits != [] {
      assert (digits + rest)[1..] == digits[1..] + rest;
      DigitRunOf(digits[1..], rest);
    } else {
      assert digits + rest == rest;
    }
  }

  lemma {:induction false} SpaceRunOf(n: nat, rest: string)
    requires rest == [] || rest[0] != ' '
    ensures SpaceRun(Spaces(n) + rest) == n
    decreases n
  {
    if n > 0 {
      assert (Spaces(n) + rest)[1..] == Spaces(n - 1) + rest;
      SpaceRunOf(n - 1, rest);
    } else {
      assert Spaces(n) + rest == rest;
    }
  }

  lemma ParseUnitOf(u: Unit, plural: bool)
    ensures ParseUnit(UnitName(u) + (if plural then "s" else "")) == Some(u)
  {
    var t := UnitName(u) + (if plural then "s" else "");
    match u
    case Second =>
    case Minute => assert t[0] != 's';
    case Hour => assert t[0] != 's' && t[0] != 'm';
    case Day => assert t[0] != 's' && t[0] != 'm' && t[0] != 'h';
    case Week => assert t[0] != 's' && t[0] != 'm' && t[0] != 'h' && t[0] != 'd';
    case Month => assert t[0] != 's' && t[0] != 'h' && t[0] != 'd' && t[0] != 'w' && t[1] != 'i';
    case Year => assert t[0] != 's' && t[0] != 'm' && t[0] != 'h' && t[0] != 'd' && t[0] != 'w';
  }

  /** Every well-formed duration is accepted, with the value the unit table gives. */
  lemma AcceptsSpelled(digits: string, spaces: nat, u: Unit, plural: bool)
    requires digits != [] && AllDigits(digits) && spaces > 0
    ensures DurationToSeconds(Spelled(digits, spaces, u, plural)) == Success(NumeralValue(digits) * UnitSeconds(u))
  {
    var suffix := UnitName(u) + (if plural then "s" else "");
    var s := Spelled(digits, spaces, u, plural);
    assert s == digits + (Spaces(spaces) + suffix);
    DigitRunOf(digits, Spaces(spaces) + suffix);
    assert s[..|digits|] == digits;
    assert s[|digits|..] == Spaces(spaces) + suffix;
    assert suffix[0] != ' ' by {
      assert suffix[0] == UnitName(u)[0];
    }
    SpaceRunOf(spaces, suffix);
    assert (Spaces(spaces) + suffix)[spaces..] == suffix;
    ParseUnitOf(u, plural);
  }

  lemma ParseUnitIs(s: string)
    requires ParseUnit(s).Some?
    ensures s == UnitName(ParseUnit(s).value) || s == UnitName(ParseUnit(s).value) + "s"
  {
  }

  /**
   * Only well-formed durations are accepted: an accepted string is spelled
   * from a numeral, spaces, a unit and an optional `s`, and its value is
   * the numeral times that unit's length.
   */
  lemma AcceptsOnlySpelled(duration: string)
    requires DurationToSeconds(duration).Success?
    ensures exists digits, spaces, u, plural ::
              && digits != [] && AllDigits(digits) && spaces > 0
              && duration == Spelled(digits, spaces, u, plural)
              && DurationToSeconds(duration).value == NumeralValue(digits) * UnitSeconds(u)
  {
    var d := DigitRun(duration);
    var rest := duration[d..];
    var sp := SpaceRun(rest);
    var u := ParseUnit(rest[sp..]).value;
    ParseUnitIs(rest[sp..]);
    var plural := rest[sp..] != UnitName(u);
    assert rest[sp..] == UnitName(u) + (if plural then "s" else "");
    assert duration == duration[..d] + rest[..sp] + rest[sp..];
    assert duration == Spelled(duration[..d], sp, u, plural);
  }

  /** One year, the vesting cliff used in the tests. */
  lemma OneYearExample()
    ensures DurationToSeconds("1 year") == Success(31536000)
  {
    var digits := "1";
    assert NumeralValue(digits) == 1 by {
      assert digits[..0] == [];
    }
    AcceptsSpelled(digits, 1, Year, false);
    assert Spelled(digits, 1, Year, false) == "1 year";
  }

  /** Four years, the vesting duration used in the tests. */
  lemma FourYearsExample()
    ensures DurationToSeconds("4 years") == Success(126144000)
  {
    var digits := "4";
    assert NumeralValue(digits) == 4 by {
      assert digits[..0] == [];
    }
    AcceptsSpelled(digits, 1, Year, true);
    assert Spelled(digits, 1, Year, true) == "4 years";
  }

  /** A missing space, a doubled plural `s` and a leading space are all rejected. */
  lemma MalformedExamples()
    ensures DurationToSeconds("1year").Failure?
    ensures DurationToSeconds("1 yearss").Failure?
    ensures DurationToSeconds(" 1 year").Failure?
  {
    assert DigitRun("1year") == 1 && SpaceRun("1year"[1..]) == 0;
    assert DigitRun(" 1 year") == 0;
    assert DigitRun("1 yearss") == 1;
    assert SpaceRun("1 yearss"[1..]) == 1;
    assert ParseUnit("1 yearss"[1..][1..]).None?;
  }
}
