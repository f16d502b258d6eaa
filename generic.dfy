/** Calendar helpers: the decision logic of the date and time utilities.
    Dates arrive as day-month-year text; the text is turned into a structured
    date by a parser given as a parameter (None when the text does not parse).
    Times of day are whole minutes since midnight. */
module Generic {
  import opened Errors

  datatype Date = Date(day: int, month: int, year: int)

  type DateParser = string -> Option<Date>

  /** Calendar order: by year, then month, then day. */
  function DateLe(a: Date, b: Date): (r: bool)
    ensures a == b ==> r
    ensures a.year != b.year ==> (r <==> a.year < b.year)
    ensures a.year == b.year && a.month != b.month ==> (r <==> a.month < b.month)
  {
    a.year < b.year || (a.year == b.year && (a.month < b.month || (a.month == b.month && a.day <= b.day)))
  }

  lemma DateLeIsTotalOrder(a: Date, b: Date, c: Date)
    ensures DateLe(a, a)
    ensures DateLe(a, b) || DateLe(b, a)
    ensures DateLe(a, b) && DateLe(b, a) ==> a == b
    ensures DateLe(a, b) && DateLe(b, c) ==> DateLe(a, c)
  {
  }

  /** Whether two date texts name the same calendar day; fails when either
      does not parse (the first one is parsed first). */
  function DatesAreSame(parse: DateParser, s1: string, s2: string): (r: Result<bool>)
    ensures parse(s1).None? ==> r == Err(Malformed)
    ensures parse(s1).Some? && parse(s2).None? ==> r == Err(Malformed)
    ensures parse(s1).Some? && parse(s2).Some? ==> r == Ok(parse(s1).value == parse(s2).value)
  {
    match parse(s1)
    case None => Err(Malformed)
    case Some(d1) =>
      match parse(s2)
      case None => Err(Malformed)
      case Some(d2) => Ok(d1 == d2)
  }

  /** Two different texts for the same day compare as the same date. */
  lemma SameDayDifferentText(parse: DateParser, s1: string, s2: string)
    requires parse(s1).Some? && parse(s2).Some? && parse(s1) == parse(s2)
    ensures DatesAreSame(parse, s1, s2) == Ok(true)
  {
  }

  /** The minutes between two times of day, in either order. */
  function MinutesBetween(t1: int, t2: int): (r: nat)
    ensures r == t2 - t1 || r == t1 - t2
    ensures r >= t2 - t1 && r >= t1 - t2
  {
    if t2 >= t1 then t2 - t1 else t1 - t2
  }

  lemma MinutesBetweenSymmetric(t1: int, t2: int)
    ensures MinutesBetween(t1, t2) == MinutesBetween(t2, t1)
    ensures MinutesBetween(t1, t2) == 0 <==> t1 == t2
  {
  }

  /** The time of day, in minutes, of the text "H:00" for a whole hour H:
      only 0 to 23 parse as an hour. */
  function HourStartMinutes(hour: int): (r: Result<int>)
    ensures 0 <= hour < 24 <==> r.Ok?
    ensures r.Ok? ==> r.value == 60 * hour && 0 <= r.value < 24 * 60
    ensures r.Err? ==> r.error == Malformed
  {
    if 0 <= hour < 24 then Ok(60 * hour) else Err(Malformed)
  }

  /** Whether a date lies inside an inclusive range given as exactly two
      bounds, start then end. Other lengths are refused before anything is
      parsed; then the start, the end and the date are parsed in that order. */
  function DateInRange(parse: DateParser, date: string, range: seq<string>): (r: Result<bool>)
    ensures |range| != 2 ==> r == Err(InvalidRange)
    ensures |range| == 2 && parse(range[0]).Some? && parse(range[1]).Some? && parse(date).Some? ==>
              r == Ok(DateLe(parse(range[0]).value, parse(date).value) && DateLe(parse(date).value, parse(range[1]).value))
    ensures |range| == 2 && (parse(range[0]).None? || parse(range[1]).None? || parse(date).None?) ==> r == Err(Malformed)
  {
    if |range| != 2 then Err(InvalidRange)
    else
      match parse(range[0])
      case None => Err(Malformed)
      case Some(start) =>
        match parse(range[1])
        case None => Err(Malformed)
        case Some(end) =>
          match parse(date)
          case None => Err(Malformed)
          case Some(d) => Ok(DateLe(start, d) && DateLe(d, end))
  }

  /** The range is inclusive at both ends. */
  lemma RangeIncludesBounds(parse: DateParser, startText: string, endText: string)
    requires parse(startText).Some? && parse(endText).Some?
    requires DateLe(parse(startText).value, parse(endText).value)
    ensures DateInRange(parse, startText, [startText, endText]) == Ok(true)
    ensures DateInRange(parse, endText, [startText, endText]) == Ok(true)
  {
  }
}
