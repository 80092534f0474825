/** Decorating a record with its calendar buckets (PivotTable.jsx lines
    35-53 and 63-67): `extractDateField`, `getWeekNumber` and
    `convertDateToNumeric`. What the host's `Date` makes of a field value
    (parsing, the local time zone, the weekday of January 1) is an input of
    the model, given as a `CalendarDate`. */
module DateFields {
  import opened JsValues

  /** 24 * 60 * 60 * 1000 */
  const MsPerDay: int := 86400000

  /** `new Date(fullYear, 0, 1)`, local midnight of January 1 of a date's
      year (which JavaScript places in 19xx for a year 0 .. 99): its instant
      (`getTime`) and weekday (`getDay`). It can be an invalid date even when
      the date itself is valid, when January 1 lies before the earliest time
      value (20 April -271821); then every answer is NaN. */
  datatype YearStart = InvalidStart | YearStart(ms: int, weekday: int)

  /** `new Date(v)` for a record's date field value. A valid date gives its
      local calendar year (`getFullYear`), its 0-based month (`getMonth`), its
      instant (`getTime`) and the start of its year. An invalid date answers
      NaN to all of these. */
  datatype CalendarDate =
    | InvalidDate
    | ValidDate(fullYear: int, month0: int, epochMs: int, jan1: YearStart)

  /** An input record: its fields, and what `new Date(...)` makes of the value
      of its `out_of_service_date` field. */
  datatype Record = Record(fields: map<string, JsValue>, date: CalendarDate)

  /** The three bucket keys `extractDateField` returns. */
  datatype DateKeys = DateKeys(month: string, year: JsValue, week: JsValue)

  /** A record after `{...item, ...extractDateField(item, dateField),
      numericDate: ...}`: the original fields with the four derived ones
      written over them. */
  datatype Decorated =
    Decorated(fields: map<string, JsValue>, month: string, year: JsValue, week: JsValue, numericDate: int)

  /** `Math.floor(x / d)` for integers and a positive divisor. */
  function FloorDiv(x: int, d: int): (q: int)
    requires d > 0
    ensures d * q <= x < d * (q + 1)
  {
    x / d
  }

  /** `Math.ceil(x / d)` for integers and a positive divisor. */
  function CeilDiv(x: int, d: int): (q: int)
    requires d > 0
    ensures d * (q - 1) < x <= d * q
  {
    -((-x) / d)
  }

  /** `date.getFullYear()` */
  function GetFullYear(date: CalendarDate): JsValue {
    if date.ValidDate? then Num(date.fullYear) else NaN
  }

  /** `date.getMonth() + 1`; NaN + 1 is NaN. */
  function MonthNumber(date: CalendarDate): JsValue {
    if date.ValidDate? then Num(date.month0 + 1) else NaN
  }

  /** Line 51: whole days between local midnight of January 1 and the date. */
  function DaysSinceJan1(epochMs: int, jan1Ms: int): (days: int)
    ensures epochMs >= jan1Ms ==> days >= 0
    ensures jan1Ms <= epochMs < jan1Ms + 366 * MsPerDay ==> days <= 365
  {
    FloorDiv(epochMs - jan1Ms, MsPerDay)
  }

  /** Line 52: `Math.ceil((days + startDate.getDay() + 1) / 7)`. For a day of
      the year and a weekday this is a week number from 1 to 54. */
  function WeekOfYear(days: int, jan1Weekday: int): (w: int)
    ensures days >= 0 && jan1Weekday >= 0 ==> w >= 1
    ensures days <= 365 && jan1Weekday <= 6 ==> w <= 54
  {
    CeilDiv(days + jan1Weekday + 1, 7)
  }

  /** The date and the start of its year are both valid dates. */
  predicate HasWeek(date: CalendarDate) {
    date.ValidDate? && date.jan1.YearStart?
  }

  /** `getWeekNumber(date)`: NaN when the date or the start of its year is
      invalid, since the difference, the day count and the weekday are all
      NaN then. */
  function GetWeekNumber(date: CalendarDate): (w: JsValue)
    ensures w.Num? <==> HasWeek(date)
    ensures HasWeek(date) && date.jan1.ms <= date.epochMs && 0 <= date.jan1.weekday
      ==> w.n >= 1
  {
    match date
    case InvalidDate => NaN
    case ValidDate(_, _, epochMs, jan1) =>
      match jan1
      case InvalidStart => NaN
      case YearStart(ms, weekday) => Num(WeekOfYear(DaysSinceJan1(epochMs, ms), weekday))
  }

  /** `extractDateField(item, dateField)`: the month key is the template
      literal `${getFullYear()}-${getMonth() + 1}`. */
  function ExtractDateField(date: CalendarDate): (keys: DateKeys)
    ensures date.InvalidDate? ==> keys == DateKeys("NaN-NaN", NaN, NaN)
    ensures date.ValidDate? ==>
      keys.year == Num(date.fullYear) && (keys.week.Num? <==> date.jan1.YearStart?)
      && keys.month == IntToString(date.fullYear) + "-" + IntToString(date.month0 + 1)
  {
    DateKeys(ToString(GetFullYear(date)) + "-" + ToString(MonthNumber(date)),
             GetFullYear(date), GetWeekNumber(date))
  }

  /** `convertDateToNumeric(dateString)`: the instant in milliseconds for a
      valid date, and 0 instead of NaN for an invalid one; it never fails. */
  function ConvertDateToNumeric(date: CalendarDate): (ms: int)
    ensures date.ValidDate? ==> ms == date.epochMs
    ensures date.InvalidDate? ==> ms == 0
  {
    match date
    case InvalidDate => 0
    case ValidDate(_, _, epochMs, _) => epochMs
  }

  /** One step of `data.map(...)` at lines 63-67. */
  function Decorate(r: Record): Decorated {
    var keys := ExtractDateField(r.date);
    Decorated(r.fields, keys.month, keys.year, keys.week, ConvertDateToNumeric(r.date))
  }

  /** `transformedData` */
  function DecorateAll(data: seq<Record>): (items: seq<Decorated>)
    ensures |items| == |data|
    ensures forall i :: 0 <= i < |data| ==> items[i] == Decorate(data[i])
  {
    seq(|data|, i requires 0 <= i < |data| => Decorate(data[i]))
  }

  /** `item[name]` on a decorated record: the derived fields shadow the
      original ones, and a missing field reads as undefined. */
  function Lookup(item: Decorated, name: string): JsValue {
    if name == "month" then Str(item.month)
    else if name == "year" then item.year
    else if name == "week" then item.week
    else if name == "numericDate" then Num(item.numericDate)
    else if name in item.fields then item.fields[name]
    else Undefined
  }

  /** The spread at lines 63-67: reading a decorated record gives the
      derived keys and timestamp under their names, and every other field
      as the record had it, or undefined. */
  lemma DecoratedFields(r: Record, name: string)
    ensures var d := Decorate(r);
      var keys := ExtractDateField(r.date);
      Lookup(d, "month") == Str(keys.month) && Lookup(d, "year") == keys.year
      && Lookup(d, "week") == keys.week
      && Lookup(d, "numericDate") == Num(ConvertDateToNumeric(r.date))
    ensures name != "month" && name != "year" && name != "week" && name != "numericDate" ==>
      Lookup(Decorate(r), name) == if name in r.fields then r.fields[name] else Undefined
  {
  }

  /** A later date in the same year never has a smaller week number. */
  lemma WeekMonotonic(days1: int, days2: int, jan1Weekday: int)
    requires days1 <= days2
    ensures WeekOfYear(days1, jan1Weekday) <= WeekOfYear(days2, jan1Weekday)
  {
  }

  /** A later instant never has a smaller day count. */
  lemma DaysMonotonic(ms1: int, ms2: int, jan1Ms: int)
    requires ms1 <= ms2
    ensures DaysSinceJan1(ms1, jan1Ms) <= DaysSinceJan1(ms2, jan1Ms)
  {
  }

  /** Every month key is a string that `isNaN` holds of: "<year>-<month>"
      has a minus sign right after a digit, and an invalid date gives
      "NaN-NaN". */
  lemma MonthKeyIsNaN(r: Record)
    ensures IsNaN(Lookup(Decorate(r), "month"))
  {
    var keys := ExtractDateField(r.date);
    if r.date.ValidDate? {
      DigitDashIsNaN(IntToString(r.date.fullYear), IntToString(r.date.month0 + 1));
    } else {
      DeadStart("NaN-NaN");
    }
  }

  /** The year key is a number exactly when the date is valid, the week key
      exactly when the start of its year is valid too, and both are NaN
      otherwise. */
  lemma YearWeekKeys(r: Record)
    ensures var d := Decorate(r);
      (d.year.Num? <==> r.date.ValidDate?) && (d.week.Num? <==> HasWeek(r.date))
      && (d.year.Num? ==> d.year == Num(r.date.fullYear))
      && (d.year.NaN? || d.year.Num?) && (d.week.NaN? || d.week.Num?)
      && (r.date.InvalidDate? ==> d.year == NaN && d.week == NaN && d.numericDate == 0)
  {
  }
}
