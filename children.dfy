/** What the representative and pediatric dashboards share about children: the exact
    `sexo` filter, ISO dates, and the age in whole months that both screens' identical
    `calcAgeMonths` computes from a birth date and "now". */
module Children {
  import opened Js
  import opened Text
  import opened Seqs

  /** `sexo !== "ALL" ? list.filter(c => c.sexo === sexo) : list` */
  function BySexo(items: seq<Record>, sexo: string): (r: seq<Record>)
    ensures sexo == "ALL" ==> r == items
    ensures sexo != "ALL" ==> forall x :: x in r <==> x in items && Get(x, "sexo") == Str(sexo)
    ensures IsSubsequence(r, items) && multiset(r) <= multiset(items)
  {
    if sexo == "ALL" then
      SubsequenceOfSelf(items);
      items
    else
      FilterIsSubsequence(items, c => Get(c, "sexo") == Str(sexo));
      Filter(items, c => Get(c, "sexo") == Str(sexo))
  }

  /** A calendar date; `month` runs 1 to 12 (`getMonth` is 0-based, but only differences
      of months are ever taken). */
  datatype Date = Date(year: int, month: int, day: int)

  predicate IsLeapYear(y: int) {
    y % 4 == 0 && (y % 100 != 0 || y % 400 == 0)
  }

  function DaysInMonth(y: int, m: int): int {
    if m == 2 then (if IsLeapYear(y) then 29 else 28)
    else if m == 4 || m == 6 || m == 9 || m == 11 then 30
    else 31
  }

  predicate ValidDate(d: Date) {
    0 <= d.year <= 9999 && 1 <= d.month <= 12 && 1 <= d.day <= DaysInMonth(d.year, d.month)
  }

  /** The date written in a "YYYY-MM-DD" string, the only form whose `new Date(s + "T00:00:00")`
      is modelled. */
  function ParseIsoDate(s: string): (r: Option<Date>)
    ensures r.Some? ==> ValidDate(r.value)
  {
    if |s| == 10 && s[4] == '-' && s[7] == '-' && AllDigits(s[..4]) && AllDigits(s[5..7]) && AllDigits(s[8..]) then
      var d := Date(DigitsValue(s[..4]), DigitsValue(s[5..7]), DigitsValue(s[8..]));
      if ValidDate(d) then Some(d) else None
    else None
  }

  function Pad2(n: nat): (s: string)
    requires n < 100
    ensures |s| == 2 && AllDigits(s) && DigitsValue(s) == n
  {
    var s := [DigitChar(n / 10), DigitChar(n % 10)];
    assert s[..1] == [DigitChar(n / 10)] && s[..1][..0] == [];
    assert DigitsValue(s[..1]) == n / 10;
    s
  }

  function Pad4(n: nat): (s: string)
    requires n < 10000
    ensures |s| == 4 && AllDigits(s) && DigitsValue(s) == n
  {
    var hi, lo := Pad2(n / 100), Pad2(n % 100);
    var s := hi + lo;
    assert s[..3] == hi + [lo[0]] && s[..3][..2] == hi;
    assert DigitsValue(lo) == DigitsValue([lo[0]]) * 10 + (lo[1] as int - '0' as int);
    assert [lo[0]][..0] == [];
    s
  }

  /** An ISO "YYYY-MM-DD" text for a date, as the API sends birth dates. */
  function FormatIsoDate(d: Date): (s: string)
    requires ValidDate(d)
    ensures |s| == 10
  {
    Pad4(d.year) + "-" + Pad2(d.month) + "-" + Pad2(d.day)
  }

  /** Every valid date survives writing it out and reading it back. */
  lemma ParseFormat(d: Date)
    requires ValidDate(d)
    ensures ParseIsoDate(FormatIsoDate(d)) == Some(d)
  {
    var y, m, dd := Pad4(d.year), Pad2(d.month), Pad2(d.day);
    var s := FormatIsoDate(d);
    assert s[..4] == y && s[5..7] == m && s[8..] == dd;
  }

  /** What `calcAgeMonths` returns: `null` for a falsy birth date, a month count, or, for a
      text that is not an ISO date, the result of an invalid `Date` (kept apart). */
  datatype AgeResult = NoBirthDate | Months(n: nat) | InvalidDate

  /** The month count before flooring: whole months from the birth month to now's month,
      one less when now's day of the month is before the birth day. */
  function MonthsBetween(b: Date, now: Date): int {
    var months := (now.year - b.year) * 12 + (now.month - b.month);
    if now.day < b.day then months - 1 else months
  }

  /** `new Date(s)` for a local date-time "YYYY-MM-DDT00:00:00": the date it names. */
  function ParseLocalMidnight(s: string): (r: Option<Date>)
    ensures r.Some? ==> |s| == 19 && r == ParseIsoDate(s[..10])
  {
    if |s| == 19 && s[10..] == "T00:00:00" then ParseIsoDate(s[..10]) else None
  }

  /** `new Date(birthISO + "T00:00:00")`, when that is a valid date. */
  function BirthDate(birthISO: Json): Option<Date> {
    ParseLocalMidnight(ToStr(birthISO) + "T00:00:00")
  }

  /** An ISO date text is read as the date it writes. */
  lemma BirthDateOfIso(d: Date)
    requires ValidDate(d)
    ensures BirthDate(Str(FormatIsoDate(d))) == Some(d)
  {
    var s := FormatIsoDate(d);
    assert (s + "T00:00:00")[..10] == s;
    assert (s + "T00:00:00")[10..] == "T00:00:00";
    ParseFormat(d);
  }

  /** `calcAgeMonths(birthISO)` with the clock read passed in as `now`. */
  function CalcAgeMonths(birthISO: Json, now: Date): (r: AgeResult)
    ensures IsFalsy(birthISO) <==> r == NoBirthDate
    ensures !IsFalsy(birthISO) ==> (r.Months? <==> BirthDate(birthISO).Some?)
  {
    if IsFalsy(birthISO) then NoBirthDate
    else
      match BirthDate(birthISO)
      case None => InvalidDate
      case Some(b) =>
        var months := MonthsBetween(b, now);
        Months(if months > 0 then months else 0)
  }

  /** Months elapsed from the year-0 January to the month of `d`. */
  function MonthIndex(d: Date): int {
    d.year * 12 + (d.month - 1)
  }

  /** The `k`-th monthly anniversary of `b` (same day number, `k` months later) is not after `now`. */
  predicate AnniversaryReached(b: Date, now: Date, k: int) {
    MonthIndex(b) + k < MonthIndex(now) || (MonthIndex(b) + k == MonthIndex(now) && b.day <= now.day)
  }

  /** The age is the number of monthly anniversaries already reached: the `n`-th one has
      been reached (or `n` is 0) and the next one has not. */
  lemma AgeCountsAnniversaries(birthISO: Json, now: Date)
    requires CalcAgeMonths(birthISO, now).Months?
    ensures var n := CalcAgeMonths(birthISO, now).n;
            (n == 0 || AnniversaryReached(BirthDate(birthISO).value, now, n)) &&
            !AnniversaryReached(BirthDate(birthISO).value, now, n + 1)
  {
  }

  /** A birth date after "now" gives 0 (the floor), never a negative age. */
  lemma FutureBirthIsZero(birth: Date, now: Date)
    requires ValidDate(birth)
    requires MonthIndex(now) < MonthIndex(birth) || (MonthIndex(now) == MonthIndex(birth) && now.day < birth.day)
    ensures CalcAgeMonths(Str(FormatIsoDate(birth)), now) == Months(0)
  {
    BirthDateOfIso(birth);
  }

  /** A child born exactly `k` months before "now" (same day number) is `k` months old. */
  lemma ExactMonths(birth: Date, now: Date, k: nat)
    requires ValidDate(birth) && now.day == birth.day
    requires MonthIndex(now) == MonthIndex(birth) + k
    ensures CalcAgeMonths(Str(FormatIsoDate(birth)), now) == Months(k)
  {
    BirthDateOfIso(birth);
  }
}
