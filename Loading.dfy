// The mount effect of App.tsx: the saved blob is read, missing statistics
// are filled in, saved unlock flags are laid over a fresh catalogue, and
// on the first start of a new day yesterday's completions are archived,
// the habits reset and the streak re-checked.
module Loading {
  import opened Types
  import opened Constants
  import opened Achievements

  // ---- The saved blob, as parsed ------------------------------------------

  /** Saved statistics; a field that is absent (or, where the source tests
      truthiness, empty) is `None`. */
  datatype SavedStats = SavedStats(
    totalMeditationMinutes: int,
    lastLoginDate: Option<Day>,
    currentStreak: Option<int>,
    lastCompletionDate: Option<Day>,
    earlyBirdCount: Option<int>,
    history: Option<seq<HistoryEntry>>)

  datatype SavedUserState = SavedUserState(level: int, currentXP: int, xpToNextLevel: int, stats: SavedStats)

  /** Of a saved achievement only the id and the flag are read. */
  datatype SavedAchievement = SavedAchievement(id: string, unlocked: bool)

  datatype SavedBlob = SavedBlob(
    userState: Option<SavedUserState>,
    achievements: Option<seq<SavedAchievement>>,
    habits: Option<seq<Habit>>,
    theme: Option<Theme>,
    language: Option<Language>)

  /** What storage yields: nothing, text that fails to parse, or a blob. */
  datatype Stored = Missing | Unparsable | Parsed(blob: SavedBlob)

  /** The state the app runs with once the effect has finished. */
  datatype Session = Session(
    habits: seq<Habit>,
    achievements: seq<Achievement>,
    user: UserState,
    theme: Theme,
    language: Language)

  /** The initial `userState` of the component on `today`. */
  function DefaultUserState(today: Day): UserState {
    UserState(1, 0, BASE_XP_THRESHOLD, UserStats(0, today, 0, None, 0, []))
  }

  /** `{...parsed.userState}` with the missing statistics filled in and
      `xpToNextLevel` recomputed from the level. */
  function MergeUserState(saved: SavedUserState, today: Day): (u: UserState)
    ensures u.level == saved.level && u.currentXP == saved.currentXP
    ensures u.xpToNextLevel == XpForNextLevel(saved.level)
    ensures u.stats.totalMeditationMinutes == saved.stats.totalMeditationMinutes
    ensures u.stats.lastLoginDate == (if saved.stats.lastLoginDate.Some? && saved.stats.lastLoginDate.value != "" then saved.stats.lastLoginDate.value else today)
    ensures u.stats.currentStreak == saved.stats.currentStreak.GetOr(0)
    ensures u.stats.earlyBirdCount == saved.stats.earlyBirdCount.GetOr(0)
    ensures u.stats.lastCompletionDate == saved.stats.lastCompletionDate
    ensures u.stats.history == saved.stats.history.GetOr([])
  {
    var st := saved.stats;
    var login := if st.lastLoginDate.Some? && st.lastLoginDate.value != "" then st.lastLoginDate.value else today;
    UserState(saved.level, saved.currentXP, XpForNextLevel(saved.level),
      UserStats(st.totalMeditationMinutes, login, st.currentStreak.GetOr(0), st.lastCompletionDate,
                st.earlyBirdCount.GetOr(0), st.history.GetOr([])))
  }

  /** The ids the saved blob marks unlocked. */
  function SavedUnlockedIds(saved: seq<SavedAchievement>): set<string> {
    set a | a in saved && a.unlocked :: a.id
  }

  // ---- The daily reset ------------------------------------------------------

  /** `habits.filter(h => h.current >= h.target).map(h => h.id)`. */
  function CompletedIds(habits: seq<Habit>): (ids: seq<string>)
    ensures |ids| <= |habits|
    ensures forall x :: x in ids <==> exists k :: 0 <= k < |habits| && Completed(habits[k]) && habits[k].id == x
    ensures |ids| == 0 <==> forall k :: 0 <= k < |habits| ==> !Completed(habits[k])
  {
    if |habits| == 0 then []
    else
      var rest := CompletedIds(habits[1..]);
      assert forall k :: 1 <= k < |habits| ==> habits[1..][k - 1] == habits[k];
      if Completed(habits[0]) then [habits[0].id] + rest else rest
  }

  /** The filter keeps habit order: the ids of a concatenation are the ids
      of the first part followed by those of the second. */
  lemma {:induction false} CompletedIdsAppend(a: seq<Habit>, b: seq<Habit>)
    ensures CompletedIds(a + b) == CompletedIds(a) + CompletedIds(b)
  {
    if |a| == 0 {
      assert a + b == b;
    } else {
      assert (a + b)[1..] == a[1..] + b;
      CompletedIdsAppend(a[1..], b);
    }
  }

  /** `habits.map(h => ({...h, current: 0}))`. */
  function ResetHabits(habits: seq<Habit>): (r: seq<Habit>)
    ensures |r| == |habits|
    ensures forall k :: 0 <= k < |habits| ==> r[k] == habits[k].(current := 0)
  {
    seq(|habits|, k requires 0 <= k < |habits| => habits[k].(current := 0))
  }

  /** What the daily reset leaves: the user state and the habits. */
  datatype ResetResult = ResetResult(user: UserState, habits: seq<Habit>)

  /** The reset of App.tsx:89-127 applied to the merged state `u` and the
      loaded habits, with the clock read as `today` and `yesterday`. */
  function Reconcile(u: UserState, habits: seq<Habit>, today: Day, yesterday: Day): ResetResult {
    var st := u.stats;
    if st.lastLoginDate == today then ResetResult(u, habits)
    else
      var ids := CompletedIds(habits);
      var history := if |ids| > 0 then [HistoryEntry(st.lastLoginDate, ids)] + st.history else st.history;
      var streak := if st.lastCompletionDate == Some(yesterday) then st.currentStreak else 0;
      ResetResult(u.(stats := st.(history := history, lastLoginDate := today, currentStreak := streak)), ResetHabits(habits))
  }

  /** On the day of the last login nothing changes; otherwise the login day
      moves to today, every habit restarts from 0, the streak survives only
      a completion dated yesterday, and at most one entry, for the old login
      day, is added at the front of the history. */
  lemma ReconcileEffect(u: UserState, habits: seq<Habit>, today: Day, yesterday: Day)
    ensures var r := Reconcile(u, habits, today, yesterday);
      && (u.stats.lastLoginDate == today ==> r == ResetResult(u, habits))
      && r.user.stats.lastLoginDate == today
      && (u.stats.lastLoginDate != today ==>
        && |r.habits| == |habits|
        && (forall k :: 0 <= k < |habits| ==> r.habits[k].current == 0 && r.habits[k].(current := habits[k].current) == habits[k])
        && r.user.stats.currentStreak == (if u.stats.lastCompletionDate == Some(yesterday) then u.stats.currentStreak else 0)
        && r.user.(stats := u.stats) == u
        && r.user.stats.(history := u.stats.history, lastLoginDate := u.stats.lastLoginDate, currentStreak := u.stats.currentStreak) == u.stats
        && (exists k :: 0 <= k < |habits| && Completed(habits[k])) ==
             (r.user.stats.history == [HistoryEntry(u.stats.lastLoginDate, CompletedIds(habits))] + u.stats.history)
        && ((forall k :: 0 <= k < |habits| ==> !Completed(habits[k])) ==> r.user.stats.history == u.stats.history))
  {
    if u.stats.lastLoginDate != today {
      var r := Reconcile(u, habits, today, yesterday);
      var ids := CompletedIds(habits);
      if |ids| > 0 {
        assert r.user.stats.history != u.stats.history by {
          assert |r.user.stats.history| == |u.stats.history| + 1;
        }
      }
    }
  }

  /** Reconciling twice on the same day is reconciling once. */
  lemma ReconcileIdempotent(u: UserState, habits: seq<Habit>, today: Day, yesterday: Day)
    ensures var r := Reconcile(u, habits, today, yesterday);
      Reconcile(r.user, r.habits, today, yesterday) == r
  {
  }

  /** The reset has no guard against a second entry for the same day: when
      the history already starts with the last login day, another entry for
      that day goes in front of it. */
  lemma ReconcileNoDuplicateGuard(u: UserState, habits: seq<Habit>, today: Day, yesterday: Day)
    requires u.stats.lastLoginDate != today
    requires |u.stats.history| > 0 && u.stats.history[0].date == u.stats.lastLoginDate
    requires exists k :: 0 <= k < |habits| && Completed(habits[k])
    ensures var h := Reconcile(u, habits, today, yesterday).user.stats.history;
      |h| == |u.stats.history| + 1 && h[0].date == h[1].date
  {
    var ids := CompletedIds(habits);
    assert |ids| > 0;
  }

  /** All dates in the history differ from each other and from the login day. */
  predicate HistoryDatesFresh(st: UserStats) {
    && (forall i, j :: 0 <= i < j < |st.history| ==> st.history[i].date != st.history[j].date)
    && (forall i :: 0 <= i < |st.history| ==> st.history[i].date != st.lastLoginDate)
  }

  /** While the clock moves on to days not yet archived, reconciling keeps
      the history free of duplicate days, which is what the date check
      alone guarantees. */
  lemma ReconcileKeepsDatesFresh(u: UserState, habits: seq<Habit>, today: Day, yesterday: Day)
    requires HistoryDatesFresh(u.stats)
    requires forall i :: 0 <= i < |u.stats.history| ==> u.stats.history[i].date != today
    ensures HistoryDatesFresh(Reconcile(u, habits, today, yesterday).user.stats)
  {
    var h := Reconcile(u, habits, today, yesterday).user.stats.history;
    if u.stats.lastLoginDate != today && |CompletedIds(habits)| > 0 {
      assert forall i :: 1 <= i < |h| ==> h[i] == u.stats.history[i - 1];
    }
  }

  /** The streak survives the reset only when the last completion was
      yesterday: a completion dated today (possible only when the login day
      lags behind) also clears it. */
  lemma StreakOnlyFromYesterday(u: UserState, habits: seq<Habit>, today: Day, yesterday: Day)
    requires u.stats.lastLoginDate != today && today != yesterday
    requires u.stats.lastCompletionDate == Some(today)
    ensures Reconcile(u, habits, today, yesterday).user.stats.currentStreak == 0
  {
  }

  /** A day completed, then the app opened on the next day: the streak is
      kept; opened a day later instead: the streak is gone. */
  lemma StreakContinuity(u: UserState, habits: seq<Habit>, d1: Day, d2: Day, d3: Day)
    requires u.stats.lastLoginDate == d1 && u.stats.lastCompletionDate == Some(d1)
    requires d1 != d2 && d2 != d3 && d1 != d3
    ensures Reconcile(u, habits, d2, d1).user.stats.currentStreak == u.stats.currentStreak
    ensures Reconcile(u, habits, d3, d2).user.stats.currentStreak == 0
  {
  }

  // ---- The effect -----------------------------------------------------------

  /** The daily reset of the mount effect, step by step, on the merged
      state and the habits just loaded. */
  method DailyReset(merged: UserState, habits: seq<Habit>, today: Day, yesterday: Day)
    returns (user: UserState, newHabits: seq<Habit>)
    ensures ResetResult(user, newHabits) == Reconcile(merged, habits, today, yesterday)
  {
    user, newHabits := merged, habits;
    var lastLogin := user.stats.lastLoginDate;
    if lastLogin != today {
      var completedIds := CompletedIds(habits);
      if |completedIds| > 0 {
        user := user.(stats := user.stats.(history := [HistoryEntry(lastLogin, completedIds)] + user.stats.history));
      }
      newHabits := ResetHabits(newHabits);
      var newStreak := user.stats.currentStreak;
      if user.stats.lastCompletionDate != Some(yesterday) {
        newStreak := 0;
      }
      user := user.(stats := user.stats.(lastLoginDate := today, currentStreak := newStreak));
    }
  }

  /** The achievements a parsed blob leads to: the saved unlocks laid over
      the Spanish catalogue, or the initial list when none were saved. */
  function LoadedCatalogue(saved: Option<seq<SavedAchievement>>): seq<Achievement> {
    if saved.Some? then Overlay(Catalogue(Es), SavedUnlockedIds(saved.value)) else INITIAL_ACHIEVEMENTS
  }

  /** The achievements step of the mount effect. */
  method LoadAchievements(saved: Option<seq<SavedAchievement>>) returns (achievements: seq<Achievement>)
    ensures achievements == LoadedCatalogue(saved)
  {
    achievements := INITIAL_ACHIEVEMENTS;
    if saved.Some? {
      var savedUnlocks := SavedUnlockedIds(saved.value);
      var generated := GenerateAchievements(Es);
      achievements := Overlay(generated, savedUnlocks);
    }
  }

  /** The session a parsed blob yields: the merged user state (or the
      default one), the loaded habits (or the initial ones), both put
      through the daily reset, with the achievements, theme and language
      taken from the blob when present. */
  function Loaded(blob: SavedBlob, today: Day, yesterday: Day): Session {
    var merged := if blob.userState.Some? then MergeUserState(blob.userState.value, today) else DefaultUserState(today);
    var r := Reconcile(merged, blob.habits.GetOr(INITIAL_HABITS), today, yesterday);
    Session(r.habits, LoadedCatalogue(blob.achievements), r.user, blob.theme.GetOr(Light), blob.language.GetOr(Es))
  }

  /** The try-block of the mount effect on a parsed blob. */
  method LoadParsed(blob: SavedBlob, today: Day, yesterday: Day) returns (s: Session)
    ensures s == Loaded(blob, today, yesterday)
  {
    var merged := DefaultUserState(today);
    if blob.userState.Some? {
      merged := MergeUserState(blob.userState.value, today);
    }
    var achievements := LoadAchievements(blob.achievements);
    var habits := INITIAL_HABITS;
    if blob.habits.Some? {
      habits := blob.habits.value;
    }
    var theme, language := Light, Es;
    if blob.theme.Some? {
      theme := blob.theme.value;
    }
    if blob.language.Some? {
      language := blob.language.value;
    }
    var user;
    user, habits := DailyReset(merged, habits, today, yesterday);
    s := Session(habits, achievements, user, theme, language);
  }

  /** The mount effect of App.tsx: no save gives the defaults with the
      Spanish catalogue, a save that fails to load keeps every default, and
      a parsed save is merged and reset for the day. */
  method Load(stored: Stored, today: Day, yesterday: Day) returns (s: Session)
    ensures stored.Missing? ==> s == Session(INITIAL_HABITS, Catalogue(Es), DefaultUserState(today), Light, Es)
    ensures stored.Unparsable? ==> s == Session(INITIAL_HABITS, INITIAL_ACHIEVEMENTS, DefaultUserState(today), Light, Es)
    ensures stored.Parsed? ==> s == Loaded(stored.blob, today, yesterday)
  {
    match stored {
      case Missing =>
        var achievements := GenerateAchievements(Es);
        s := Session(INITIAL_HABITS, achievements, DefaultUserState(today), Light, Es);
      case Unparsable =>
        s := Session(INITIAL_HABITS, INITIAL_ACHIEVEMENTS, DefaultUserState(today), Light, Es);
      case Parsed(blob) =>
        s := LoadParsed(blob, today, yesterday);
    }
  }

  // ---- Saving and loading again ------------------------------------------

  /** What the saving effect writes for a session, as a later load parses it. */
  function SavedForm(s: Session): SavedBlob {
    var st := s.user.stats;
    var stats := SavedStats(st.totalMeditationMinutes, Some(st.lastLoginDate), Some(st.currentStreak),
                            st.lastCompletionDate, Some(st.earlyBirdCount), Some(st.history));
    SavedBlob(
      Some(SavedUserState(s.user.level, s.user.currentXP, s.user.xpToNextLevel, stats)),
      Some(seq(|s.achievements|, k requires 0 <= k < |s.achievements| => SavedAchievement(s.achievements[k].id, s.achievements[k].unlocked))),
      Some(s.habits), Some(s.theme), Some(s.language))
  }

  /** Saving and loading again on the day of the last login gives the
      session back, except that the threshold is recomputed from the level
      and the achievements are rebuilt from the Spanish catalogue, unlocked
      for the saved unlocked ids the catalogue knows. */
  lemma SaveThenLoad(s: Session, today: Day, yesterday: Day)
    requires s.user.stats.lastLoginDate == today && today != ""
    ensures var r := Loaded(SavedForm(s), today, yesterday);
      && r.(achievements := s.achievements) == s.(user := s.user.(xpToNextLevel := XpForNextLevel(s.user.level)))
      && UnlockedIds(r.achievements) == UnlockedIds(s.achievements) * Ids(Catalogue(Es))
  {
    var saved := SavedForm(s).achievements.value;
    assert SavedUnlockedIds(saved) == UnlockedIds(s.achievements) by {
      forall x | x in UnlockedIds(s.achievements) ensures x in SavedUnlockedIds(saved) {
        var a :| a in s.achievements && a.unlocked && a.id == x;
        var k :| 0 <= k < |s.achievements| && s.achievements[k] == a;
        assert saved[k] in saved;
      }
      forall x | x in SavedUnlockedIds(saved) ensures x in UnlockedIds(s.achievements) {
        var b :| b in saved && b.unlocked && b.id == x;
        var k :| 0 <= k < |saved| && saved[k] == b;
        assert s.achievements[k] in s.achievements;
      }
    }
    OverlayUnlockedIds(Catalogue(Es), SavedUnlockedIds(saved));
  }

  /** A loaded session always holds the full catalogue, unlocked exactly for
      the saved ids the catalogue knows. */
  lemma LoadedAchievements(saved: seq<SavedAchievement>)
    ensures |Overlay(Catalogue(Es), SavedUnlockedIds(saved))| == 100
    ensures UnlockedIds(Overlay(Catalogue(Es), SavedUnlockedIds(saved))) == SavedUnlockedIds(saved) * Ids(Catalogue(Es))
  {
    CatalogueAt(Es, 0);
    OverlayUnlockedIds(Catalogue(Es), SavedUnlockedIds(saved));
  }
}
