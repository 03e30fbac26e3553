// The records of types.ts, as Dafny values.
module Types {

  datatype Option<+T> = None | Some(value: T) {
    function GetOr(default: T): T {
      match this
      case Some(v) => v
      case None => default
    }
  }

  /** A calendar day as the app stores it: a date-only string compared by equality. */
  type Day = string

  datatype Language = En | Es
  datatype Theme = Light | Dark

  /** The four achievement categories; `iconName` of an achievement is always one of them too. */
  datatype Category = Level | Streak | EarlyBird | Master

  /** The colour of an achievement badge: which of the four Tailwind class
      strings of the catalogue it carries (see `ColorClasses`). */
  datatype Palette = Indigo | Orange | Yellow | Purple

  function ColorClasses(p: Palette): string {
    match p
    case Indigo => "text-indigo-500 bg-indigo-100 dark:bg-indigo-900/30 dark:text-indigo-400"
    case Orange => "text-orange-500 bg-orange-100 dark:bg-orange-900/30 dark:text-orange-400"
    case Yellow => "text-yellow-500 bg-yellow-100 dark:bg-yellow-900/30 dark:text-yellow-400"
    case Purple => "text-purple-500 bg-purple-100 dark:bg-purple-900/30 dark:text-purple-400"
  }

  datatype Habit = Habit(
    id: string,
    title: string,
    color: string,
    current: int,
    target: int,
    unit: string,
    iconName: string,
    incrementValue: int)

  datatype Achievement = Achievement(
    id: string,
    title: string,
    description: string,
    iconName: Category,
    unlocked: bool,
    color: Palette,
    category: Category,
    targetValue: int)

  datatype HistoryEntry = HistoryEntry(date: Day, completedHabitIds: seq<string>)

  datatype UserStats = UserStats(
    totalMeditationMinutes: int,
    lastLoginDate: Day,
    currentStreak: int,
    lastCompletionDate: Option<Day>,
    earlyBirdCount: int,
    history: seq<HistoryEntry>)

  datatype UserState = UserState(
    level: int,
    currentXP: int,
    xpToNextLevel: int,
    stats: UserStats)

  /** A habit is complete once its progress has reached its target. */
  predicate Completed(h: Habit) {
    h.current >= h.target
  }

  /** Every habit's progress lies between 0 and its target. */
  predicate ProgressInRange(habits: seq<Habit>) {
    forall k :: 0 <= k < |habits| ==> 0 <= habits[k].current <= habits[k].target
  }
}
