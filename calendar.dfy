/** Calendar dates as the dashboard's rules use them: a date is a whole day, counted from
    1970-01-01, and its weekday is what JavaScript's `Date.prototype.getDay` gives. */
module Calendar {

  /** A calendar date, as the number of days since 1970-01-01. */
  type Day = int

  /** `date.getDay()`: 0 is Sunday and 6 is Saturday; 1970-01-01 was a Thursday. */
  function JsWeekday(d: Day): (w: int)
    ensures 0 <= w < 7
  {
    (d + 4) % 7
  }

  /** The weekday moves on by one each day and comes back after seven. */
  lemma WeekdayCycle(d: Day)
    ensures JsWeekday(d + 1) == (JsWeekday(d) + 1) % 7
    ensures JsWeekday(d + 7) == JsWeekday(d)
  {
    var q := (d + 4) / 7;
    var r := (d + 4) % 7;
    assert d + 4 == 7 * q + r;
    if r < 6 {
      assert d + 5 == 7 * q + (r + 1);
    } else {
      assert d + 5 == 7 * (q + 1);
    }
    assert d + 11 == 7 * (q + 1) + r;
  }
}
