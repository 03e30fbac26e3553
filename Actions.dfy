// The two habit handlers of App.tsx: `handleIncrement`, run when the user
// taps a habit, and `handleAllHabitsCompleted`, which advances the streak
// once per day. Each is modelled snapshot to snapshot: the state updaters
// React queues during one handler are applied in the order they were queued.
module Actions {
  import opened Types
  import opened Constants
  import opened Leveling

  function Min(a: int, b: int): (m: int)
    ensures m <= a && m <= b && (m == a || m == b)
  {
    if a <= b then a else b
  }

  /** `habits.findIndex(h => h.id === id)`: the first position holding `id`,
      or -1. */
  function FindIndex(habits: seq<Habit>, id: string): (k: int)
    ensures -1 <= k < |habits|
    ensures k >= 0 ==> habits[k].id == id && forall j :: 0 <= j < k ==> habits[j].id != id
    ensures k == -1 <==> forall j :: 0 <= j < |habits| ==> habits[j].id != id
  {
    if |habits| == 0 then -1
    else if habits[0].id == id then 0
    else
      var r := FindIndex(habits[1..], id);
      if r == -1 then -1 else r + 1
  }

  /** `habits.every(h => h.current >= h.target)`. */
  predicate AllDone(habits: seq<Habit>) {
    forall k :: 0 <= k < |habits| ==> Completed(habits[k])
  }

  /** The early-bird window: from 4 AM up to, not including, 8 AM. */
  predicate EarlyHour(hour: int) {
    4 <= hour < 8
  }

  /** The id of the meditation habit, whose increments count as minutes. */
  const MEDITATION_ID: string := "3"

  /** The statistics updater queued after a successful increment of `habit`. */
  function BumpStats(stats: UserStats, habit: Habit, hour: int): (r: UserStats)
    ensures r.totalMeditationMinutes - stats.totalMeditationMinutes == (if habit.id == MEDITATION_ID then habit.incrementValue else 0)
    ensures r.earlyBirdCount - stats.earlyBirdCount == (if EarlyHour(hour) then 1 else 0)
    ensures r.(totalMeditationMinutes := stats.totalMeditationMinutes, earlyBirdCount := stats.earlyBirdCount) == stats
  {
    var s1 := if habit.id == MEDITATION_ID then stats.(totalMeditationMinutes := stats.totalMeditationMinutes + habit.incrementValue) else stats;
    if EarlyHour(hour) then s1.(earlyBirdCount := s1.earlyBirdCount + 1) else s1
  }

  /** `handleAllHabitsCompleted`'s updater: the first completion of a day
      extends the streak by one and records the day; later ones change
      nothing. */
  function CompleteDay(s: UserState, today: Day): (r: UserState)
    ensures r.stats.lastCompletionDate == Some(today)
    ensures r.(stats := s.stats) == s
  {
    if s.stats.lastCompletionDate == Some(today) then s
    else s.(stats := s.stats.(lastCompletionDate := Some(today), currentStreak := s.stats.currentStreak + 1))
  }

  /** The streak moves by exactly one on the first completion of a day, and
      only the streak and the completion day change. */
  lemma CompleteDayEffect(s: UserState, today: Day)
    ensures s.stats.lastCompletionDate == Some(today) ==> CompleteDay(s, today) == s
    ensures s.stats.lastCompletionDate != Some(today) ==>
      CompleteDay(s, today).stats.currentStreak == s.stats.currentStreak + 1
    ensures CompleteDay(s, today).stats.(lastCompletionDate := s.stats.lastCompletionDate, currentStreak := s.stats.currentStreak) == s.stats
  {
  }

  /** A second completion on the same day is a no-op. */
  lemma CompleteDayIdempotent(s: UserState, today: Day)
    ensures CompleteDay(CompleteDay(s, today), today) == CompleteDay(s, today)
  {
  }

  /** However often the completion handler runs on one day, the streak
      grows by at most one. */
  lemma {:induction false} CompleteDayRepeated(s: UserState, today: Day, n: nat)
    ensures Iterate(s, today, n).stats.currentStreak <= s.stats.currentStreak + 1
    ensures n > 0 ==> Iterate(s, today, n) == CompleteDay(s, today)
  {
    if n > 1 {
      CompleteDayRepeated(s, today, n - 1);
      CompleteDayIdempotent(s, today);
    }
  }

  /** `n` runs of the completion handler on the same day. */
  function Iterate(s: UserState, today: Day, n: nat): UserState {
    if n == 0 then s else CompleteDay(Iterate(s, today, n - 1), today)
  }

  /** `handleIncrement(id)` at `hour` on `today`, from the snapshot
      (`habits`, `user`) to the next one. */
  method HandleIncrement(habits: seq<Habit>, user: UserState, id: string, hour: int, today: Day)
    returns (newHabits: seq<Habit>, newUser: UserState)
    // Unknown id, or a habit already complete: nothing happens.
    ensures var k := FindIndex(habits, id);
      (k == -1 || Completed(habits[k])) ==> newHabits == habits && newUser == user
    // Otherwise only that habit's progress moves, clamped to its target.
    ensures var k := FindIndex(habits, id);
      k != -1 && !Completed(habits[k]) ==>
        newHabits == habits[k := habits[k].(current := Min(habits[k].current + habits[k].incrementValue, habits[k].target))]
    // Without an actual change of progress, no XP and no statistics move.
    ensures var k := FindIndex(habits, id);
      k != -1 && newHabits[k].current == habits[k].current ==> newUser == user
    // With one, exactly XP_PER_ACTION is earned, the counters move, and the
    // completion handler runs when every habit is now done.
    ensures var k := FindIndex(habits, id);
      k != -1 && newHabits[k].current != habits[k].current ==>
        var bumped := newUser.(stats := BumpStats(user.stats, habits[k], hour));
        && IsLevelOutcome(user, XP_PER_ACTION, newUser.(stats := user.stats), newUser.level > user.level)
        && newUser == (if AllDone(newHabits) then CompleteDay(bumped, today) else bumped)
    ensures |newHabits| == |habits|
    ensures forall j :: 0 <= j < |habits| && habits[j].id != id ==> newHabits[j] == habits[j]
    ensures ProgressInRange(habits) && (forall j :: 0 <= j < |habits| ==> habits[j].incrementValue >= 0) ==>
      ProgressInRange(newHabits)
  {
    newHabits := habits;
    newUser := user;
    var k := FindIndex(habits, id);
    if k == -1 {
      return;
    }
    var habit := habits[k];
    if habit.current >= habit.target {
      return;
    }

    var newValue := Min(habit.current + habit.incrementValue, habit.target);
    var didIncrement := newValue != habit.current;
    newHabits := habits[k := habit.(current := newValue)];

    if didIncrement {
      var leveledUp;
      newUser, leveledUp := AddXP(user, XP_PER_ACTION);
      newUser := newUser.(stats := BumpStats(newUser.stats, habit, hour));
      if AllDone(newHabits) {
        newUser := CompleteDay(newUser, today);
      }
    }
  }
}
