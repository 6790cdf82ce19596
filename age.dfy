/** Age from a birth date, as `calculateAge` computes it. "Today" is a
    parameter: the source reads the clock. */
module Age {

  /** A calendar date as the year, month and day getters of a JavaScript
      Date report it. */
  datatype Date = Date(year: int, month: int, day: int)

  /** Calendar order: by year, then month, then day. */
  predicate Before(a: Date, b: Date)
  {
    a.year < b.year || (a.year == b.year && (a.month < b.month || (a.month == b.month && a.day < b.day)))
  }

  predicate OnOrBefore(a: Date, b: Date)
  {
    !Before(b, a)
  }

  /** The date on which someone born on `birth` turns `years` old. */
  function Anniversary(birth: Date, years: int): Date
  {
    Date(birth.year + years, birth.month, birth.day)
  }

  /** Whole years from `birth` to `today`: the year difference, one less when
      today's month comes before the birth month, or the months are equal
      and today's day comes before the birth day. The result is the number
      of anniversaries reached: the `age`-th anniversary is on or before
      today and the next one is after today. */
  function CalculateAge(birth: Date, today: Date): (age: int)
    ensures OnOrBefore(Anniversary(birth, age), today)
    ensures Before(today, Anniversary(birth, age + 1))
    ensures age == today.year - birth.year || age == today.year - birth.year - 1
  {
    var age := today.year - birth.year;
    var monthDiff := today.month - birth.month;
    if monthDiff < 0 || (monthDiff == 0 && today.day < birth.day) then age - 1 else age
  }

  /** The two anniversary conditions determine the age: no other count of
      years lies between them. */
  lemma AgeIsUnique(birth: Date, today: Date, years: int)
    requires OnOrBefore(Anniversary(birth, years), today)
    requires Before(today, Anniversary(birth, years + 1))
    ensures years == CalculateAge(birth, today)
  {
  }

  /** Age never decreases as time passes. */
  lemma AgeIsMonotone(birth: Date, today: Date, later: Date)
    requires OnOrBefore(today, later)
    ensures CalculateAge(birth, today) <= CalculateAge(birth, later)
  {
  }

  /** On the `years`-th birthday the age is `years`; on the day before it
      (same month, previous day number) it is still one less. */
  lemma BirthdayBoundary(birth: Date, years: int)
    ensures CalculateAge(birth, Anniversary(birth, years)) == years
    ensures CalculateAge(birth, Date(birth.year + years, birth.month, birth.day - 1)) == years - 1
  {
  }
}
