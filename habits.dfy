/** The habit tracker of habits.js: habits with a weekly schedule, a dated
    history and a streak; toggling today's completion, the daily streak check,
    the completion rate of today and the order in which habits are listed.
    Dates are the `YYYY-MM-DD` strings the source compares; `today`,
    `yesterday` and the day of the week are supplied by the caller. */
module Habits {
  import opened Base
  import opened Text
  import opened Sorting
  import opened Clock

  datatype DayRecord = DayRecord(date: string, completed: bool, notes: string)

  datatype Frequency = Frequency(kind: string, days: seq<int>)

  datatype Habit = Habit(
    id: string, title: string, description: string, icon: string, color: string,
    frequency: Frequency, timeOfDay: string, created: int,
    streak: int, history: seq<DayRecord>)

  datatype Stats = Stats(
    totalCompleted: int, currentStreak: int, longestStreak: int,
    lastCheckDate: Option<string>)

  /** The values the add-habit form submits. */
  datatype HabitForm = HabitForm(
    title: string, description: string, icon: string, color: string,
    frequencyType: string, frequencyDays: seq<int>, timeOfDay: string)

  // ---------------------------------------------------------------- toggling today

  /** The index of the record `history.find(h => h.date === day)` returns, or -1. */
  function RecordIndex(history: seq<DayRecord>, day: string): (k: int)
    ensures -1 <= k < |history|
    ensures k >= 0 ==> (history[k].date == day && forall i :: 0 <= i < k ==> history[i].date != day)
    ensures k == -1 <==> forall i :: 0 <= i < |history| ==> history[i].date != day
  {
    FindIndex(history, (r: DayRecord) => r.date == day)
  }

  /** The history after the toggle: the first record of `today` has its flag
      negated, and a missing record is first put at the front, uncompleted. */
  function ToggledHistory(history: seq<DayRecord>, today: string): (h: seq<DayRecord>)
    ensures var k := RecordIndex(history, today);
      if k < 0 then
        |h| == |history| + 1 && h[0] == DayRecord(today, true, "") && h[1..] == history
      else
        && |h| == |history|
        && h[k] == history[k].(completed := !history[k].completed)
        && forall i :: 0 <= i < |h| && i != k ==> h[i] == history[i]
  {
    var k := RecordIndex(history, today);
    if k < 0 then [DayRecord(today, true, "")] + history
    else history[k := history[k].(completed := !history[k].completed)]
  }

  /** Whether today's record is completed after the toggle. */
  function CompletedAfterToggle(history: seq<DayRecord>, today: string): bool
  {
    var k := RecordIndex(history, today);
    k < 0 || !history[k].completed
  }

  /** The habit after `toggleHabitCompletion`: a completion adds one to the
      streak, an un-completion takes one away but not below 0. */
  function ToggledHabit(habit: Habit, today: string): (h: Habit)
    ensures h.history == ToggledHistory(habit.history, today)
    ensures h == habit.(history := h.history, streak := h.streak)
    ensures CompletedAfterToggle(habit.history, today) ==> h.streak == habit.streak + 1
    ensures !CompletedAfterToggle(habit.history, today) ==>
      h.streak == habit.streak - 1 || (h.streak == 0 && habit.streak <= 0)
    ensures h.streak >= 0 || h.streak == habit.streak + 1
  {
    var done := CompletedAfterToggle(habit.history, today);
    habit.(history := ToggledHistory(habit.history, today),
           streak := if done then habit.streak + 1 else Max(0, habit.streak - 1))
  }

  /** The statistics after toggling `habit` into `toggled`. */
  function ToggledStats(stats: Stats, completed: bool, toggled: Habit): (s: Stats)
    ensures s.longestStreak >= stats.longestStreak && s.longestStreak >= toggled.streak
    ensures s.longestStreak == stats.longestStreak || s.longestStreak == toggled.streak
    ensures completed ==> s.totalCompleted == stats.totalCompleted + 1
    ensures !completed ==> s.totalCompleted == Max(0, stats.totalCompleted - 1)
    ensures stats.totalCompleted >= 0 ==> s.totalCompleted >= 0
    ensures s.currentStreak == stats.currentStreak && s.lastCheckDate == stats.lastCheckDate
  {
    stats.(totalCompleted := if completed then stats.totalCompleted + 1
                             else Max(0, stats.totalCompleted - 1),
           longestStreak := Max(stats.longestStreak, toggled.streak))
  }

  /** Two toggles on the same day, starting from a missing or uncompleted
      record, give back the flag, the streak and the total. */
  lemma ToggleTwiceRestores(habit: Habit, stats: Stats, today: string)
    requires habit.streak >= 0 && stats.totalCompleted >= 0
    requires var k := RecordIndex(habit.history, today); k < 0 || !habit.history[k].completed
    ensures var h1 := ToggledHabit(habit, today);
      var s1 := ToggledStats(stats, CompletedAfterToggle(habit.history, today), h1);
      var h2 := ToggledHabit(h1, today);
      var s2 := ToggledStats(s1, CompletedAfterToggle(h1.history, today), h2);
      && h2.streak == habit.streak
      && s2.totalCompleted == stats.totalCompleted
      && (RecordIndex(habit.history, today) >= 0 ==> h2.history == habit.history)
      && (var k2 := RecordIndex(h2.history, today); k2 >= 0 && !h2.history[k2].completed)
  {
    var h1 := ToggledHabit(habit, today);
    var k := RecordIndex(habit.history, today);
    if k < 0 {
      assert RecordIndex(h1.history, today) == 0;
    } else {
      assert RecordIndex(h1.history, today) == k;
      var h2 := ToggledHabit(h1, today);
      assert RecordIndex(h2.history, today) == k;
    }
  }

  // ---------------------------------------------------------------- the daily check

  /** `yesterdayRecord && yesterdayRecord.completed` for the first record of the day. */
  predicate CompletedOn(history: seq<DayRecord>, day: string)
  {
    var k := RecordIndex(history, day);
    k >= 0 && history[k].completed
  }

  /** One habit after the daily check: its streak drops to 0 unless yesterday was completed. */
  function CheckedHabit(habit: Habit, yesterday: string): (h: Habit)
    ensures CompletedOn(habit.history, yesterday) ==> h == habit
    ensures !CompletedOn(habit.history, yesterday) ==> h == habit.(streak := 0)
  {
    if CompletedOn(habit.history, yesterday) then habit else habit.(streak := 0)
  }

  /** Checking a habit a second time changes nothing more. */
  lemma CheckedHabitIdempotent(habit: Habit, yesterday: string)
    ensures CheckedHabit(CheckedHabit(habit, yesterday), yesterday) == CheckedHabit(habit, yesterday)
  {
  }

  // ---------------------------------------------------------------- today's figures

  /** `h.frequency.days.includes(dayOfWeek)`. */
  predicate ScheduledOn(h: Habit, dayOfWeek: int)
  {
    dayOfWeek in h.frequency.days
  }

  /** `h.history.some(entry => entry.date === today && entry.completed)`: any
      record of today, not only the first, counts. */
  predicate DoneOn(h: Habit, today: string)
  {
    exists i :: 0 <= i < |h.history| && h.history[i].date == today && h.history[i].completed
  }

  /** The filter callbacks of `updateStats` and of the listing order. */
  function Scheduled(dayOfWeek: int): Habit -> bool
  {
    h => ScheduledOn(h, dayOfWeek)
  }

  function Unscheduled(dayOfWeek: int): Habit -> bool
  {
    h => !ScheduledOn(h, dayOfWeek)
  }

  function Done(today: string): Habit -> bool
  {
    h => DoneOn(h, today)
  }

  function ActiveCount(habits: seq<Habit>, dayOfWeek: int): (n: int)
    ensures 0 <= n <= |habits|
  {
    |Filter(habits, Scheduled(dayOfWeek))|
  }

  function CompletedTodayCount(habits: seq<Habit>, today: string): (n: int)
    ensures 0 <= n <= |habits|
  {
    |Filter(habits, Done(today))|
  }

  /** `activeHabits > 0 ? Math.round(completedToday / activeHabits * 100) : 0`. */
  function TodayRate(completed: int, active: int): (r: int)
    ensures active <= 0 ==> r == 0
    ensures active > 0 ==> active * (2 * r - 1) <= 200 * completed < active * (2 * r + 1)
    ensures active > 0 && 0 <= completed <= active ==> 0 <= r <= 100
  {
    if active > 0 then
      assert 0 <= completed <= active ==> 0 <= Percent(completed, active) <= 100 by {
        if 0 <= completed <= active {
          PercentBounds(completed, active);
        }
      }
      Percent(completed, active)
    else 0
  }

  /** The completion rate of `updateStats`: today's completions as a rounded
      percentage of the habits scheduled today, 0 when none is scheduled. */
  function CompletionRate(habits: seq<Habit>, today: string, dayOfWeek: int): int
  {
    TodayRate(CompletedTodayCount(habits, today), ActiveCount(habits, dayOfWeek))
  }

  /** When only scheduled habits were completed today the rate is at most 100. */
  lemma CompletionRateAtMost100(habits: seq<Habit>, today: string, dayOfWeek: int)
    requires forall i :: 0 <= i < |habits| && DoneOn(habits[i], today) ==> ScheduledOn(habits[i], dayOfWeek)
    ensures 0 <= CompletionRate(habits, today, dayOfWeek) <= 100
  {
    FilterLengthMonotone(habits, Done(today), Scheduled(dayOfWeek));
  }

  /** A habit completed today but not scheduled today still counts, so the rate
      can pass 100: one scheduled habit and one completed unscheduled habit, both
      completed, read 200. */
  lemma CompletionRateCanExceed100()
    ensures var day := "2024-01-01";
      var rec := [DayRecord(day, true, "")];
      var a := Habit("a", "", "", "", "", Frequency("daily", [1]), "", 0, 1, rec);
      var b := Habit("b", "", "", "", "", Frequency("weekly", [3]), "", 0, 1, rec);
      CompletionRate([a, b], day, 1) == 200
  {
    var day := "2024-01-01";
    var rec := [DayRecord(day, true, "")];
    var a := Habit("a", "", "", "", "", Frequency("daily", [1]), "", 0, 1, rec);
    var b := Habit("b", "", "", "", "", Frequency("weekly", [3]), "", 0, 1, rec);
    assert rec[0].date == day && rec[0].completed;
    assert DoneOn(a, day) && DoneOn(b, day);
    assert ScheduledOn(a, 1) && !ScheduledOn(b, 1);
    assert [a, b][1..] == [b];
    assert ActiveCount([a, b], 1) == 1;
    assert CompletedTodayCount([a, b], day) == 2;
  }

  // ---------------------------------------------------------------- listing order

  /** The comparator of `renderHabitList` returns at most 0: `a` may stay before `b`
      unless `a` is not scheduled today and `b` is. */
  predicate TodayFirst(dayOfWeek: int, a: Habit, b: Habit)
  {
    ScheduledOn(a, dayOfWeek) || !ScheduledOn(b, dayOfWeek)
  }

  /** The listing order: a stable sort by the comparator. */
  function ListingOrder(habits: seq<Habit>, dayOfWeek: int): seq<Habit>
  {
    SortBy(habits, TodayFirstOrder(dayOfWeek))
  }

  function TodayFirstOrder(dayOfWeek: int): (Habit, Habit) -> bool
  {
    (a, b) => TodayFirst(dayOfWeek, a, b)
  }

  lemma TodayFirstPreorder(dayOfWeek: int)
    ensures TotalPreorder(TodayFirstOrder(dayOfWeek))
  {
  }

  /** The listing shows every habit once: it is a permutation of `habits`. */
  lemma ListingOrderPermutation(habits: seq<Habit>, dayOfWeek: int)
    ensures multiset(ListingOrder(habits, dayOfWeek)) == multiset(habits)
  {
    SortByPermutation(habits, TodayFirstOrder(dayOfWeek));
  }

  /** No habit that is not scheduled today is listed before one that is. */
  lemma ListingOrderScheduledFirst(habits: seq<Habit>, dayOfWeek: int)
    ensures var s := ListingOrder(habits, dayOfWeek);
      forall i, j :: 0 <= i < j < |s| && ScheduledOn(s[j], dayOfWeek) ==> ScheduledOn(s[i], dayOfWeek)
  {
    TodayFirstPreorder(dayOfWeek);
    SortBySorted(habits, TodayFirstOrder(dayOfWeek));
  }

  /** Within each group the habits keep their stored order: the habits tied with
      any `y` (scheduled today exactly when `y` is) appear as they do in `habits`. */
  lemma ListingOrderStable(habits: seq<Habit>, dayOfWeek: int, y: Habit)
    ensures TiedWith(ListingOrder(habits, dayOfWeek), y, TodayFirstOrder(dayOfWeek))
         == TiedWith(habits, y, TodayFirstOrder(dayOfWeek))
    ensures forall h :: Tied(TodayFirstOrder(dayOfWeek), h, y)
                        <==> (ScheduledOn(h, dayOfWeek) <==> ScheduledOn(y, dayOfWeek))
  {
    TodayFirstPreorder(dayOfWeek);
    SortByStable(habits, y, TodayFirstOrder(dayOfWeek));
  }

  /** `generateDayIndicators(activeDays, today)`: for each weekday letter from
      Sunday, whether the habit is scheduled then and whether it is today. */
  function DayIndicators(activeDays: seq<int>, today: int): (r: seq<(char, bool, bool)>)
    ensures |r| == 7
    ensures forall i :: 0 <= i < 7 ==> r[i].1 == (i in activeDays) && r[i].2 == (i == today)
  {
    var letters := "SMTWTFS";
    seq(7, i requires 0 <= i < 7 => (letters[i], i in activeDays, i == today))
  }

  // ---------------------------------------------------------------- state

  class HabitTracker {
    var habits: seq<Habit>
    var stats: Stats

    /** `init` with the habits and statistics already loaded: it runs the
        daily streak check before anything is shown. */
    constructor (loaded: seq<Habit>, loadedStats: Stats, today: string, yesterday: string)
      ensures stats.lastCheckDate == Some(today)
      ensures loadedStats.lastCheckDate == Some(today) ==> habits == loaded && stats == loadedStats
      ensures loadedStats.lastCheckDate != Some(today) ==>
        && |habits| == |loaded|
        && (forall i :: 0 <= i < |habits| ==> habits[i] == CheckedHabit(loaded[i], yesterday))
        && stats == loadedStats.(lastCheckDate := Some(today))
    {
      habits := loaded;
      stats := loadedStats;
      new;
      UpdateStreaks(today, yesterday);
    }

    /** `toggleHabitCompletion(habitId)`; an unknown id changes nothing. */
    method ToggleHabitCompletion(habitId: string, today: string)
      modifies this
      ensures var k := FindIndex(old(habits), (h: Habit) => h.id == habitId);
        if k < 0 then habits == old(habits) && stats == old(stats)
        else
          && habits == old(habits)[k := ToggledHabit(old(habits)[k], today)]
          && stats == ToggledStats(old(stats), CompletedAfterToggle(old(habits)[k].history, today),
                                   habits[k])
    {
      var k := FindIndex(habits, (h: Habit) => h.id == habitId);
      if k < 0 {
        return;
      }
      var habit := habits[k];
      var history := habit.history;
      var r := RecordIndex(history, today);
      if r < 0 {
        history := [DayRecord(today, false, "")] + history;
        r := 0;
      }
      var completed := !history[r].completed;
      history := history[r := history[r].(completed := completed)];
      assert history == ToggledHistory(habit.history, today);
      assert completed == CompletedAfterToggle(habit.history, today);
      var streak := if completed then habit.streak + 1 else Max(0, habit.streak - 1);
      var total := if completed then stats.totalCompleted + 1 else Max(0, stats.totalCompleted - 1);
      habits := habits[k := habit.(history := history, streak := streak)];
      stats := stats.(totalCompleted := total, longestStreak := Max(stats.longestStreak, streak));
    }

    /** `updateStreaks()`: once per day, every habit whose yesterday is not
        completed loses its streak. */
    method UpdateStreaks(today: string, yesterday: string)
      modifies this
      ensures stats.lastCheckDate == Some(today)
      ensures old(stats.lastCheckDate) == Some(today) ==> habits == old(habits) && stats == old(stats)
      ensures old(stats.lastCheckDate) != Some(today) ==>
        && |habits| == |old(habits)|
        && (forall i :: 0 <= i < |habits| ==> habits[i] == CheckedHabit(old(habits)[i], yesterday))
        && stats == old(stats).(lastCheckDate := Some(today))
    {
      if stats.lastCheckDate == Some(today) {
        return;
      }
      for i := 0 to |habits|
        invariant |habits| == |old(habits)|
        invariant forall j :: 0 <= j < i ==> habits[j] == CheckedHabit(old(habits)[j], yesterday)
        invariant forall j :: i <= j < |habits| ==> habits[j] == old(habits)[j]
        invariant stats == old(stats)
      {
        var record := RecordIndex(habits[i].history, yesterday);
        if record < 0 || !habits[i].history[record].completed {
          habits := habits[i := habits[i].(streak := 0)];
        }
      }
      stats := stats.(lastCheckDate := Some(today));
    }

    /** `addNewHabit(formData)`: appends a habit with no streak and no history;
        an empty icon or colour falls back to the defaults. */
    method AddNewHabit(form: HabitForm, now: int)
      modifies this
      ensures |habits| == |old(habits)| + 1 && habits[..|old(habits)|] == old(habits)
      ensures var h := habits[|old(habits)|];
        && h.id == "habit-" + IntToString(now)
        && h.title == form.title && h.description == form.description
        && h.icon == (if form.icon == "" then "fa-check" else form.icon)
        && h.color == (if form.color == "" then "#4c6ef5" else form.color)
        && h.frequency == Frequency(form.frequencyType, form.frequencyDays)
        && h.timeOfDay == form.timeOfDay && h.created == now
        && h.streak == 0 && h.history == []
      ensures stats == old(stats)
    {
      var h := Habit("habit-" + IntToString(now), form.title, form.description,
                     if form.icon == "" then "fa-check" else form.icon,
                     if form.color == "" then "#4c6ef5" else form.color,
                     Frequency(form.frequencyType, form.frequencyDays),
                     form.timeOfDay, now, 0, []);
      habits := habits + [h];
    }
  }
}
