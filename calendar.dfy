/**
 * Calendar dates as (year, month, day) triples, and the age computation that both the
 * users service and the registration page perform.
 */
module Calendar {
  /** A calendar date; months and days are compared, never converted. */
  datatype Date = Date(year: int, month: int, day: int)

  /** `a` falls on or before `b`. */
  predicate OnOrBefore(a: Date, b: Date) {
    a.year < b.year
    || (a.year == b.year && (a.month < b.month || (a.month == b.month && a.day <= b.day)))
  }

  /** The `n`-th anniversary of `birth`: same month and day, `n` years later. */
  function Anniversary(birth: Date, n: int): Date {
    Date(birth.year + n, birth.month, birth.day)
  }

  /**
   * `calculateAge`: the year difference, less one while this year's birthday is still to come.
   * The result is the number of anniversaries that have passed: the `age`-th one is on or
   * before `today` and the next one is after it.
   */
  function CalculateAge(birth: Date, today: Date): (age: int)
    ensures OnOrBefore(Anniversary(birth, age), today)
    ensures !OnOrBefore(Anniversary(birth, age + 1), today)
  {
    var age := today.year - birth.year;
    var monthDiff := today.month - birth.month;
    if monthDiff < 0 || (monthDiff == 0 && today.day < birth.day) then age - 1 else age
  }

  /** Only one number of passed anniversaries fits, so the age is determined by that description. */
  lemma AgeIsUnique(birth: Date, today: Date, n: int)
    requires OnOrBefore(Anniversary(birth, n), today)
    requires !OnOrBefore(Anniversary(birth, n + 1), today)
    ensures n == CalculateAge(birth, today)
  {
  }

  /** The age reaches 18 exactly when the eighteenth birthday is on or before `today`. */
  lemma AdultIffEighteenthBirthdayPassed(birth: Date, today: Date)
    ensures CalculateAge(birth, today) >= 18 <==> OnOrBefore(Anniversary(birth, 18), today)
  {
  }
}
