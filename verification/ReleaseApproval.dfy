/** The checks of a release approval (scripts/release/verify-approval.ts): its date-times are those
    of RFC 3339, and its objects have exactly the published keys. */
module ReleaseApproval {
  import opened Calendar
  import opened Lists
  import opened Options
  import opened Sorting

  // --- Date-times by their fields ---

  datatype Zone = Zulu | Offset(sign: char, hour: nat, minute: nat)

  datatype DateTime = DateTime(date: Date, hour: nat, minute: nat, second: nat, fraction: Option<string>, zone: Zone)

  predicate IsDigit(c: char) {
    '0' <= c <= '9'
  }

  predicate AreDigits(s: string) {
    forall i :: 0 <= i < |s| ==> IsDigit(s[i])
  }

  function Digit(n: nat): char
    requires n <= 9
  {
    ('0' as int + n) as char
  }

  function TwoDigits(n: nat): (s: string)
    requires n <= 99
    ensures |s| == 2 && AreDigits(s)
  {
    [Digit(n / 10), Digit(n % 10)]
  }

  function FourDigits(n: nat): (s: string)
    requires n <= 9999
    ensures |s| == 4 && AreDigits(s)
  {
    TwoDigits(n / 100) + TwoDigits(n % 100)
  }

  /** The fields of a date-time of section 5.6 of RFC 3339 within the bounds of section 5.7, from
      year 1 on and without leap seconds. */
  predicate IsDateTime(t: DateTime) {
    && IsDate(t.date) && t.date.year <= 9999
    && t.hour <= 23 && t.minute <= 59 && t.second <= 59
    && IsFraction(t.fraction) && IsZone(t.zone)
  }

  predicate IsFraction(f: Option<string>) {
    f.Some? ==> f.value != "" && AreDigits(f.value)
  }

  predicate IsZone(z: Zone) {
    z.Offset? ==> (z.sign == '+' || z.sign == '-') && z.hour <= 23 && z.minute <= 59
  }

  function PrintDate(d: Date): (s: string)
    requires IsDate(d) && d.year <= 9999
    ensures |s| == 10
  {
    FourDigits(d.year) + "-" + TwoDigits(d.month) + "-" + TwoDigits(d.day)
  }

  function PrintTime(hour: nat, minute: nat, second: nat): (s: string)
    requires hour <= 23 && minute <= 59 && second <= 59
    ensures |s| == 8
  {
    TwoDigits(hour) + ":" + TwoDigits(minute) + ":" + TwoDigits(second)
  }

  function PrintFraction(fraction: Option<string>): string {
    match fraction
    case None => ""
    case Some(digits) => "." + digits
  }

  function PrintZone(zone: Zone): string
    requires IsZone(zone)
  {
    match zone
    case Zulu => "Z"
    case Offset(sign, hour, minute) => [sign] + TwoDigits(hour) + ":" + TwoDigits(minute)
  }

  /** `full-date "T" full-time` */
  function Print(t: DateTime): string
    requires IsDateTime(t)
  {
    PrintDate(t.date) + "T" + PrintTime(t.hour, t.minute, t.second) + PrintFraction(t.fraction) + PrintZone(t.zone)
  }

  // --- The check ---

  function Value(c: char): nat
    requires IsDigit(c)
  {
    c as int - '0' as int
  }

  function Number2(s: string): (n: nat)
    requires |s| == 2 && AreDigits(s)
    ensures n <= 99
  {
    10 * Value(s[0]) + Value(s[1])
  }

  function Number4(s: string): (n: nat)
    requires |s| == 4 && AreDigits(s)
    ensures n <= 9999
  {
    100 * Number2(s[..2]) + Number2(s[2..])
  }

  /** `\d{4}-\d{2}-\d{2}` */
  predicate HasDateShape(s: string) {
    |s| == 10 && AreDigits(s[..4]) && s[4] == '-' && AreDigits(s[5..7]) && s[7] == '-' && AreDigits(s[8..])
  }

  function DateIn(s: string): Date
    requires HasDateShape(s)
  {
    Date(Number4(s[..4]), Number2(s[5..7]), Number2(s[8..]))
  }

  predicate IsFullDate(s: string) {
    HasDateShape(s) && IsDate(DateIn(s))
  }

  /** `\d{2}:\d{2}:\d{2}` */
  predicate HasTimeShape(s: string) {
    |s| == 8 && AreDigits(s[..2]) && s[2] == ':' && AreDigits(s[3..5]) && s[5] == ':' && AreDigits(s[6..])
  }

  predicate IsPartialTime(s: string) {
    HasTimeShape(s) && Number2(s[..2]) <= 23 && Number2(s[3..5]) <= 59 && Number2(s[6..]) <= 59
  }

  /** `Z|[+-]\d{2}:\d{2}` */
  predicate HasZoneShape(s: string) {
    s == "Z" || (|s| == 6 && (s[0] == '+' || s[0] == '-') && AreDigits(s[1..3]) && s[3] == ':' && AreDigits(s[4..]))
  }

  predicate IsOffset(s: string) {
    HasZoneShape(s) && (s != "Z" ==> Number2(s[1..3]) <= 23 && Number2(s[4..]) <= 59)
  }

  function LeadingDigits(s: string): (n: nat)
    ensures n <= |s| && AreDigits(s[..n]) && (n < |s| ==> !IsDigit(s[n]))
  {
    if s == "" || !IsDigit(s[0]) then 0 else
    var n := 1 + LeadingDigits(s[1..]);
    assert s[..n] == [s[0]] + s[1..][..n - 1];
    n
  }

  /** `(?:\.\d+)?` takes a dot with all the digits after it, if there are any. */
  function FractionLength(s: string): (n: nat)
    ensures n <= |s|
  {
    if s != "" && s[0] == '.' && LeadingDigits(s[1..]) > 0 then 1 + LeadingDigits(s[1..]) else 0
  }

  predicate IsRfc3339DateTime(value: string) {
    && |value| >= 19 && value[10] == 'T'
    && IsFullDate(value[..10]) && IsPartialTime(value[11..19])
    && IsOffset(value[19..][FractionLength(value[19..])..])
  }

  // --- Digits ---

  lemma NumberUndoesTwoDigits(n: nat)
    requires n <= 99
    ensures Number2(TwoDigits(n)) == n
  {
  }

  lemma TwoDigitsUndoesNumber(s: string)
    requires |s| == 2 && AreDigits(s)
    ensures TwoDigits(Number2(s)) == s
  {
    var n := Number2(s);
    assert n / 10 == Value(s[0]) && n % 10 == Value(s[1]);
  }

  lemma NumberUndoesFourDigits(n: nat)
    requires n <= 9999
    ensures Number4(FourDigits(n)) == n
  {
    NumberUndoesTwoDigits(n / 100);
    NumberUndoesTwoDigits(n % 100);
    assert FourDigits(n)[..2] == TwoDigits(n / 100) && FourDigits(n)[2..] == TwoDigits(n % 100);
  }

  lemma FourDigitsUndoesNumber(s: string)
    requires |s| == 4 && AreDigits(s)
    ensures FourDigits(Number4(s)) == s
  {
    TwoDigitsUndoesNumber(s[..2]);
    TwoDigitsUndoesNumber(s[2..]);
    var n := Number4(s);
    assert n / 100 == Number2(s[..2]) && n % 100 == Number2(s[2..]);
    assert s == s[..2] + s[2..];
  }

  // --- Dates, times and zones ---

  lemma ReadUndoesPrintDate(d: Date)
    requires IsDate(d) && d.year <= 9999
    ensures IsFullDate(PrintDate(d)) && DateIn(PrintDate(d)) == d
  {
    var s := PrintDate(d);
    assert s[..4] == FourDigits(d.year) && s[5..7] == TwoDigits(d.month) && s[8..] == TwoDigits(d.day);
    NumberUndoesFourDigits(d.year);
    NumberUndoesTwoDigits(d.month);
    NumberUndoesTwoDigits(d.day);
  }

  lemma PrintUndoesReadDate(s: string)
    requires IsFullDate(s)
    ensures DateIn(s).year <= 9999 && PrintDate(DateIn(s)) == s
  {
    FourDigitsUndoesNumber(s[..4]);
    TwoDigitsUndoesNumber(s[5..7]);
    TwoDigitsUndoesNumber(s[8..]);
    assert s == s[..4] + "-" + s[5..7] + "-" + s[8..];
  }

  lemma ReadUndoesPrintTime(hour: nat, minute: nat, second: nat)
    requires hour <= 23 && minute <= 59 && second <= 59
    ensures var s := PrintTime(hour, minute, second);
      IsPartialTime(s) && Number2(s[..2]) == hour && Number2(s[3..5]) == minute && Number2(s[6..]) == second
  {
    var s := PrintTime(hour, minute, second);
    assert s[..2] == TwoDigits(hour) && s[3..5] == TwoDigits(minute) && s[6..] == TwoDigits(second);
    NumberUndoesTwoDigits(hour);
    NumberUndoesTwoDigits(minute);
    NumberUndoesTwoDigits(second);
  }

  lemma PrintUndoesReadTime(s: string)
    requires IsPartialTime(s)
    ensures PrintTime(Number2(s[..2]), Number2(s[3..5]), Number2(s[6..])) == s
  {
    TwoDigitsUndoesNumber(s[..2]);
    TwoDigitsUndoesNumber(s[3..5]);
    TwoDigitsUndoesNumber(s[6..]);
    assert s == s[..2] + ":" + s[3..5] + ":" + s[6..];
  }

  function ZoneIn(s: string): Zone
    requires HasZoneShape(s)
  {
    if s == "Z" then Zulu else Offset(s[0], Number2(s[1..3]), Number2(s[4..]))
  }

  lemma ReadUndoesPrintZone(z: Zone)
    requires IsZone(z)
    ensures IsOffset(PrintZone(z)) && ZoneIn(PrintZone(z)) == z
  {
    if z.Offset? {
      var s := PrintZone(z);
      assert s[1..3] == TwoDigits(z.hour) && s[4..] == TwoDigits(z.minute);
      NumberUndoesTwoDigits(z.hour);
      NumberUndoesTwoDigits(z.minute);
    }
  }

  lemma PrintUndoesReadZone(s: string)
    requires IsOffset(s)
    ensures IsZone(ZoneIn(s)) && PrintZone(ZoneIn(s)) == s
  {
    if s != "Z" {
      TwoDigitsUndoesNumber(s[1..3]);
      TwoDigitsUndoesNumber(s[4..]);
      assert s == [s[0]] + s[1..3] + ":" + s[4..];
    }
  }

  // --- Fractions ---

  lemma {:induction false} DigitsEnd(digits: string, zone: string)
    requires AreDigits(digits) && zone != "" && !IsDigit(zone[0])
    ensures LeadingDigits(digits + zone) == |digits|
  {
    if digits != "" {
      assert (digits + zone)[1..] == digits[1..] + zone;
      DigitsEnd(digits[1..], zone);
    } else {
      assert digits + zone == zone;
    }
  }

  lemma FractionEnds(f: Option<string>, zone: string)
    requires IsFraction(f) && zone != "" && !IsDigit(zone[0]) && zone[0] != '.'
    ensures FractionLength(PrintFraction(f) + zone) == |PrintFraction(f)|
  {
    match f
    case None => assert PrintFraction(f) + zone == zone;
    case Some(digits) =>
      assert (PrintFraction(f) + zone)[1..] == digits + zone;
      DigitsEnd(digits, zone);
  }

  function FractionIn(s: string): Option<string> {
    if FractionLength(s) == 0 then None else Some(s[1..FractionLength(s)])
  }

  lemma PrintUndoesReadFraction(s: string)
    ensures IsFraction(FractionIn(s)) && s == PrintFraction(FractionIn(s)) + s[FractionLength(s)..]
  {
    var n := FractionLength(s);
    if n > 0 {
      assert s[1..n] == s[1..][..n - 1];
      assert s == "." + s[1..n] + s[n..];
    }
  }

  // --- The check accepts what prints ---

  function Fields(value: string): DateTime
    requires IsRfc3339DateTime(value)
  {
    var time, rest := value[11..19], value[19..];
    DateTime(DateIn(value[..10]), Number2(time[..2]), Number2(time[3..5]), Number2(time[6..]),
      FractionIn(rest), ZoneIn(rest[FractionLength(rest)..]))
  }

  lemma PrintUndoesRead(value: string)
    requires IsRfc3339DateTime(value)
    ensures IsDateTime(Fields(value)) && Print(Fields(value)) == value
  {
    var date, time, rest := value[..10], value[11..19], value[19..];
    PrintUndoesReadDate(date);
    PrintUndoesReadTime(time);
    PrintUndoesReadFraction(rest);
    PrintUndoesReadZone(rest[FractionLength(rest)..]);
    SplitAtTime(value);
    Regroup(date + "T" + time, PrintFraction(FractionIn(rest)), rest[FractionLength(rest)..]);
  }

  lemma SplitAtTime(value: string)
    requires |value| >= 19 && value[10] == 'T'
    ensures value == value[..10] + "T" + value[11..19] + value[19..]
  {
  }

  lemma PrintSplits(t: DateTime)
    requires IsDateTime(t)
    ensures var s := Print(t); var rest := PrintFraction(t.fraction) + PrintZone(t.zone);
      && |s| >= 19 && s[..10] == PrintDate(t.date) && s[10] == 'T'
      && s[11..19] == PrintTime(t.hour, t.minute, t.second) && s[19..] == rest
  {
  }

  lemma ReadUndoesPrint(t: DateTime)
    requires IsDateTime(t)
    ensures IsRfc3339DateTime(Print(t)) && Fields(Print(t)) == t
  {
    var zone := PrintZone(t.zone);
    PrintSplits(t);
    ReadUndoesPrintDate(t.date);
    ReadUndoesPrintTime(t.hour, t.minute, t.second);
    ReadUndoesPrintZone(t.zone);
    FractionEnds(t.fraction, zone);
    var rest := PrintFraction(t.fraction) + zone;
    assert rest[|PrintFraction(t.fraction)|..] == zone;
  }

  /** The check accepts exactly the date-times of sections 5.6 and 5.7 of RFC 3339 with an upper-case
      T and Z, from year 1 on and without leap seconds; each is read back to its own fields. */
  lemma AcceptsExactlyDateTimes(value: string)
    ensures IsRfc3339DateTime(value) <==> exists t :: IsDateTime(t) && Print(t) == value
  {
    if IsRfc3339DateTime(value) {
      PrintUndoesRead(value);
    }
    if t :| IsDateTime(t) && Print(t) == value {
      ReadUndoesPrint(t);
    }
  }

  /** The dates that the check accepts are the first 3 652 059 days of the calendar, one to one. */
  lemma AcceptedDatesAreNumbered(value: string)
    requires IsRfc3339DateTime(value)
    ensures 0 <= DayNumber(Fields(value).date) < 3_652_059
    ensures FromDayNumber(DayNumber(Fields(value).date)) == Fields(value).date
  {
    PrintUndoesRead(value);
    FourDigitYears(Fields(value).date);
    DayNumbersRoundTrip(Fields(value).date);
  }

  lemma NumberedDatesAreAccepted(n: nat)
    requires n < 3_652_059
    ensures var midnight := DateTime(FromDayNumber(n), 0, 0, 0, None, Zulu);
      IsDateTime(midnight) && IsRfc3339DateTime(Print(midnight)) && DayNumber(Fields(Print(midnight)).date) == n
  {
    FromDayNumberIsRight(n);
    FourDigitYears(FromDayNumber(n));
    ReadUndoesPrint(DateTime(FromDayNumber(n), 0, 0, 0, None, Zulu));
  }

  // --- Exact keys ---

  predicate HasExactKeys(keys: seq<string>, expected: seq<string>) {
    var actual, canonical := SortStrings(keys), SortStrings(expected);
    !(|actual| != |canonical| || exists i :: 0 <= i < |actual| && actual[i] != canonical[i])
  }

  /** The keys are accepted exactly when they are the expected ones, each as often as expected. */
  lemma ExactKeysExactlyWhen(keys: seq<string>, expected: seq<string>)
    ensures HasExactKeys(keys, expected) <==> multiset(keys) == multiset(expected)
  {
    SortStringsForgetsOrder(keys, expected);
    assert HasExactKeys(keys, expected) <==> SortStrings(keys) == SortStrings(expected);
  }
}
