/** Calendar arithmetic behind the rider form's "next week": day numbers,
    weekdays, and the seven keys of the initial availability. A day is
    counted from 1970-01-01, which was a Thursday; weekdays follow dayjs's
    `day()`, Sunday = 0 through Saturday = 6. */
module Calendar {

  import Text

  /** A value of a date or time picker (a dayjs object), as an instant. */
  datatype Moment = Moment(epochMillis: int)

  /** dayjs `day()`: the weekday of a day number, Sunday = 0. */
  function Weekday(day: int): (w: nat)
    ensures w < 7
  {
    (day + 4) % 7
  }

  /** The number of days from a day with weekday `w` to the next Monday:
      1 from a Sunday, `8 - w` otherwise. */
  function NextMondayOffset(w: nat): (offset: nat)
    requires w < 7
    ensures 1 <= offset <= 7
    ensures (w + offset) % 7 == 1
  {
    if w == 0 then 1 else 8 - w
  }

  /** The first day of next week as the form computes it from `today`:
      the first Monday strictly after `today`, at most a week away, with no
      Monday in between. */
  function StartOfNextWeek(today: int): (monday: int)
    ensures Weekday(monday) == 1
    ensures today < monday <= today + 7
    ensures forall d :: today < d < monday ==> Weekday(d) != 1
  {
    today + NextMondayOffset(Weekday(today))
  }

  /** The lower-cased label of each of the seven days of next week, Monday
      first; `dayLabel` stands for dayjs's `format('dddd, MM/DD/YY')`. */
  function WeekKeys(today: int, dayLabel: int -> string): (keys: seq<string>)
    ensures |keys| == 7
  {
    seq(7, i => Text.Lower(dayLabel(StartOfNextWeek(today) + i)))
  }
}
