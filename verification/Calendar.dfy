/** UTC instants and the two calendar loops: the Friday count behind weekend financing and the
    weekday count behind the paper time stop. Instants are microseconds since 1970-01-01T00:00Z,
    which was a Thursday; a day number is an instant divided by `DAY`, rounded down. */
module Calendar {

  const DAY := 86_400_000_000
  const FRIDAY := 4

  function DateOf(instant: int): int {
    instant / DAY
  }

  /** Monday is 0, as in Python's `datetime.weekday`. */
  function Weekday(day: int): int {
    (day + 3) % 7
  }

  // ---- Friday closes ----------------------------------------------------------------------

  /** The days whose midnight is a Friday midnight in `(entry, exit]`. */
  function FridayCloses(entry: int, exit: int): set<int> {
    set d | DateOf(entry) <= d <= DateOf(exit) && entry < d * DAY <= exit && Weekday(d) == FRIDAY
  }

  lemma FridayClosesStep(entry: int, day: int)
    requires entry <= (day + 1) * DAY - 1
    ensures FridayCloses(entry, (day + 1) * DAY - 1) ==
            FridayCloses(entry, day * DAY - 1) + (if Weekday(day) == FRIDAY && day * DAY > entry then {day} else {})
  {
    assert DateOf((day + 1) * DAY - 1) == day;
    assert DateOf(day * DAY - 1) == day - 1;
  }

  /** The loop of the cost model: midnights from the entry's own day on, one day at a time. */
  method CountFridayClosesCrossed(entry: int, exit: int) returns (count: nat)
    ensures count == |FridayCloses(entry, exit)|
  {
    if exit <= entry {
      assert FridayCloses(entry, exit) == {};
      return 0;
    }
    count := 0;
    var day := DateOf(entry);
    assert FridayCloses(entry, day * DAY - 1) == {};
    while day * DAY <= exit
      invariant DateOf(entry) <= day <= DateOf(exit) + 1
      invariant count == |FridayCloses(entry, day * DAY - 1)|
    {
      FridayClosesStep(entry, day);
      if Weekday(day) == FRIDAY && day * DAY > entry {
        assert day !in FridayCloses(entry, day * DAY - 1);
        count := count + 1;
      }
      day := day + 1;
    }
    assert FridayCloses(entry, day * DAY - 1) == FridayCloses(entry, exit);
  }

  /** How many Fridays are numbered at most `day`, up to a constant. */
  function FridayIndex(day: int): int {
    (day + 6) / 7
  }

  /** The loop has a closed form that depends on the two dates only. */
  lemma {:induction false} FridayClosesClosedForm(entry: int, exit: int)
    requires entry <= exit
    ensures |FridayCloses(entry, exit)| == FridayIndex(DateOf(exit)) - FridayIndex(DateOf(entry))
    decreases DateOf(exit) - DateOf(entry)
  {
    hide Weekday, FridayIndex;
    var last := DateOf(exit);
    if last == DateOf(entry) {
      assert FridayCloses(entry, exit) == {};
    } else {
      var before := last * DAY - 1;
      assert DateOf(before) == last - 1;
      FridayClosesClosedForm(entry, before);
      FridayClosesStep(entry, last);
      assert FridayCloses(entry, exit) == FridayCloses(entry, (last + 1) * DAY - 1);
      assert last !in FridayCloses(entry, before);
      FridayIndexStep(last);
    }
  }

  lemma FridayIndexStep(day: int)
    ensures FridayIndex(day) == FridayIndex(day - 1) + if Weekday(day) == FRIDAY then 1 else 0
  {}

  // ---- Weekday sessions -------------------------------------------------------------------

  /** Weekdays after `entryDay`, up to and including `today`. */
  function SessionDays(entryDay: int, today: int): set<int> {
    set d | entryDay < d <= today && Weekday(d) < 5
  }

  method SessionsSince(entryDay: int, today: int) returns (count: nat)
    ensures count == |SessionDays(entryDay, today)|
  {
    count := 0;
    var day := entryDay + 1;
    assert SessionDays(entryDay, day - 1) == {};
    while day <= today
      invariant entryDay < day
      invariant day <= today + 1 || today <= entryDay
      invariant today <= entryDay ==> day == entryDay + 1
      invariant count == |SessionDays(entryDay, day - 1)|
    {
      assert SessionDays(entryDay, day) == SessionDays(entryDay, day - 1) + (if Weekday(day) < 5 then {day} else {});
      if Weekday(day) < 5 {
        assert day !in SessionDays(entryDay, day - 1);
        count := count + 1;
      }
      day := day + 1;
    }
    assert SessionDays(entryDay, day - 1) == SessionDays(entryDay, today);
  }

  /** Weekdays numbered at most `day`, up to a constant: five for each whole week counted from
      a Monday, then the days of the started week, capped at five. */
  function WeekdayIndex(day: int): int {
    var n := day + 4;
    n / 7 * 5 + if n % 7 < 5 then n % 7 else 5
  }

  lemma {:induction false} SessionDaysClosedForm(entryDay: int, today: int)
    ensures |SessionDays(entryDay, today)| == if entryDay <= today then WeekdayIndex(today) - WeekdayIndex(entryDay)
            else 0
    decreases today - entryDay
  {
    hide Weekday, WeekdayIndex;
    if today <= entryDay {
      assert SessionDays(entryDay, today) == {};
    } else {
      SessionDaysClosedForm(entryDay, today - 1);
      assert SessionDays(entryDay, today) ==
             SessionDays(entryDay, today - 1) + (if Weekday(today) < 5 then {today} else {});
      assert today !in SessionDays(entryDay, today - 1);
      WeekdayIndexStep(today);
    }
  }

  lemma WeekdayIndexStep(day: int)
    ensures WeekdayIndex(day) == WeekdayIndex(day - 1) + if Weekday(day) < 5 then 1 else 0
  {}

  /** Holding from a to c holds for the sessions of a to b and of b to c, counted once each. */
  lemma SessionsSplit(a: int, b: int, c: int)
    requires a <= b <= c
    ensures |SessionDays(a, c)| == |SessionDays(a, b)| + |SessionDays(b, c)|
  {
    SessionDaysClosedForm(a, c);
    SessionDaysClosedForm(a, b);
    SessionDaysClosedForm(b, c);
  }
}
