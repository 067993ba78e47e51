/** Calendar dates and the age computation of the add-pet form. */
module Dates {

  /** A calendar date as Python's `datetime.date` holds it. */
  datatype Date = Date(year: int, month: int, day: int)

  /** Python's tuple comparison `(a.month, a.day) < (b.month, b.day)`: lexicographic. */
  predicate MonthDayBefore(a: Date, b: Date) {
    a.month < b.month || (a.month == b.month && a.day < b.day)
  }

  /** Python's `a <= b` on dates: by year, then month, then day. */
  predicate OnOrBefore(a: Date, b: Date) {
    a.year < b.year || (a.year == b.year && !MonthDayBefore(b, a))
  }

  /** The `k`-th anniversary of `birthday`: the same month and day, `k` years on. */
  function Anniversary(birthday: Date, k: int): Date {
    Date(birthday.year + k, birthday.month, birthday.day)
  }

  /** The age stored for a pet: the year difference, less one when this year's
      birthday is still ahead. It counts the anniversaries reached by `today`. */
  function Age(today: Date, birthday: Date): (age: int)
    ensures OnOrBefore(Anniversary(birthday, age), today)
    ensures !OnOrBefore(Anniversary(birthday, age + 1), today)
    ensures age >= 0 <==> OnOrBefore(birthday, today)
  {
    today.year - birthday.year - (if MonthDayBefore(today, birthday) then 1 else 0)
  }

  /** The age is the only number of completed years: the anniversary it names has
      been reached and the next one has not. */
  lemma AgeIsCompletedYears(today: Date, birthday: Date, k: int)
    ensures k == Age(today, birthday)
        <==> OnOrBefore(Anniversary(birthday, k), today) && !OnOrBefore(Anniversary(birthday, k + 1), today)
  {
  }

  /** A later `today` never gives a smaller age. */
  lemma AgeMonotone(earlier: Date, later: Date, birthday: Date)
    requires OnOrBefore(earlier, later)
    ensures Age(earlier, birthday) <= Age(later, birthday)
  {
  }
}
