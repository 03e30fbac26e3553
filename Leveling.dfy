// `addXP` of App.tsx: experience is added, then whole thresholds are paid
// off one level at a time until the rest no longer covers the threshold or
// the level cap of 100 is reached.
module Leveling {
  import opened Types
  import opened Constants

  const MAX_LEVEL: int := 100

  /** The threshold in force while the player sits at level `l`, starting
      from `s`: the stored `xpToNextLevel` at the starting level, the
      formula at every later one. */
  function ThresholdAt(s: UserState, l: int): int {
    if l == s.level then s.xpToNextLevel else XpForNextLevel(l)
  }

  /** The XP paid to climb from `s.level` to `l`. */
  function Consumed(s: UserState, l: int): int
    decreases l - s.level
  {
    if l <= s.level then 0 else Consumed(s, l - 1) + ThresholdAt(s, l - 1)
  }

  /** Climbing from `s` with `amount` added, the XP left on reaching level
      `l` covers the threshold of `l`. */
  predicate Covered(s: UserState, amount: int, l: int) {
    s.currentXP + amount - Consumed(s, l) >= ThresholdAt(s, l)
  }

  /** `r` (with `leveledUp`) is what `addXP(amount)` leaves from `s`:
      nothing but the three XP fields changes, every level passed was paid
      for in full, the XP is conserved, and the climb stops at the first
      level whose threshold is not covered, or at 100. */
  ghost predicate IsLevelOutcome(s: UserState, amount: int, r: UserState, leveledUp: bool) {
    && r.stats == s.stats
    && s.level <= r.level
    && (r.level > s.level ==> r.level <= MAX_LEVEL)
    && (leveledUp <==> r.level > s.level)
    && r.xpToNextLevel == ThresholdAt(s, r.level)
    && r.currentXP + Consumed(s, r.level) == s.currentXP + amount
    && (forall l :: s.level <= l < r.level ==> Covered(s, amount, l))
    && (r.level < MAX_LEVEL ==> r.currentXP < r.xpToNextLevel)
  }

  /** `addXP(amount)` applied to the snapshot `prev`. */
  method AddXP(prev: UserState, amount: int) returns (next: UserState, leveledUp: bool)
    ensures IsLevelOutcome(prev, amount, next, leveledUp)
  {
    var newXP := prev.currentXP + amount;
    var newLevel := prev.level;
    var currentThreshold := prev.xpToNextLevel;
    leveledUp := false;

    while newXP >= currentThreshold && newLevel < MAX_LEVEL
      invariant prev.level <= newLevel
      invariant newLevel > prev.level ==> newLevel <= MAX_LEVEL
      invariant leveledUp <==> newLevel > prev.level
      invariant currentThreshold == ThresholdAt(prev, newLevel)
      invariant newXP + Consumed(prev, newLevel) == prev.currentXP + amount
      invariant forall l :: prev.level <= l < newLevel ==> Covered(prev, amount, l)
      decreases MAX_LEVEL - newLevel
    {
      assert Covered(prev, amount, newLevel);
      newXP := newXP - currentThreshold;
      newLevel := newLevel + 1;
      currentThreshold := XpForNextLevel(newLevel);
      leveledUp := true;
    }

    next := prev.(currentXP := newXP, level := newLevel, xpToNextLevel := currentThreshold);
  }

  /** The outcome is determined by the starting state and the amount. */
  lemma LevelOutcomeUnique(s: UserState, amount: int, r1: UserState, u1: bool, r2: UserState, u2: bool)
    requires IsLevelOutcome(s, amount, r1, u1) && IsLevelOutcome(s, amount, r2, u2)
    ensures r1 == r2 && u1 == u2
  {
    if r1.level < r2.level {
      StopsAtFirstUncovered(s, amount, r1, u1, r2, u2);
    } else if r2.level < r1.level {
      StopsAtFirstUncovered(s, amount, r2, u2, r1, u1);
    }
  }

  lemma StopsAtFirstUncovered(s: UserState, amount: int, r1: UserState, u1: bool, r2: UserState, u2: bool)
    requires IsLevelOutcome(s, amount, r1, u1) && IsLevelOutcome(s, amount, r2, u2)
    ensures r1.level >= r2.level
  {
    if r1.level < r2.level {
      NotCoveredWhereStopped(s, amount, r1, u1);
      assert false;
    }
  }

  /** Below the cap, the climb stops at a level whose threshold is not covered. */
  lemma NotCoveredWhereStopped(s: UserState, amount: int, r: UserState, leveledUp: bool)
    requires IsLevelOutcome(s, amount, r, leveledUp)
    requires r.level < MAX_LEVEL
    ensures !Covered(s, amount, r.level)
  {
  }

  /** Paying thresholds never drives the XP below zero. */
  lemma LevelOutcomeXpNonNegative(s: UserState, amount: int, r: UserState, leveledUp: bool)
    requires IsLevelOutcome(s, amount, r, leveledUp)
    requires s.currentXP + amount >= 0
    ensures r.currentXP >= 0
  {
    if r.level > s.level {
      var l := r.level - 1;
      assert Covered(s, amount, l);
      assert Consumed(s, r.level) == Consumed(s, l) + ThresholdAt(s, l);
    }
  }

  /** The level stays within 1..100 when it started there. */
  lemma LevelOutcomeInRange(s: UserState, amount: int, r: UserState, leveledUp: bool)
    requires IsLevelOutcome(s, amount, r, leveledUp)
    requires 1 <= s.level <= MAX_LEVEL
    ensures s.level <= r.level <= MAX_LEVEL
    ensures leveledUp ==> r.xpToNextLevel == XpForNextLevel(r.level)
    ensures !leveledUp ==> r == s.(currentXP := s.currentXP + amount)
  {
  }

  /** At the cap the leftover XP is kept as it is, not clamped. */
  lemma AtCapXpKept(s: UserState, amount: int, r: UserState, leveledUp: bool)
    requires IsLevelOutcome(s, amount, r, leveledUp)
    requires s.level == MAX_LEVEL
    ensures r.level == MAX_LEVEL && !leveledUp
    ensures r.currentXP == s.currentXP + amount && r.xpToNextLevel == s.xpToNextLevel
  {
  }

  /** When the starting level is consistent (at least 1, threshold at least
      the base), each level gained costs at least `BASE_XP_THRESHOLD`. */
  lemma {:induction false} ConsumedAtLeast(s: UserState, l: int)
    requires s.level >= 1 && s.xpToNextLevel >= BASE_XP_THRESHOLD
    requires l >= s.level
    ensures Consumed(s, l) >= BASE_XP_THRESHOLD * (l - s.level)
    decreases l - s.level
  {
    if l > s.level {
      ConsumedAtLeast(s, l - 1);
      if l - 1 > s.level {
        XpForNextLevelAtLeastBase(l - 1);
      }
    }
  }

  /** One habit action (`XP_PER_ACTION` = 15 XP) from a settled state raises
      the level by at most one. */
  lemma OneActionOneLevel(s: UserState, r: UserState, leveledUp: bool)
    requires IsLevelOutcome(s, XP_PER_ACTION, r, leveledUp)
    requires s.level >= 1 && s.xpToNextLevel >= BASE_XP_THRESHOLD
    requires s.currentXP < s.xpToNextLevel
    ensures r.level <= s.level + 1
  {
    if r.level > s.level + 1 {
      var l := s.level + 1;
      assert Covered(s, XP_PER_ACTION, l);
      assert Consumed(s, l) == s.xpToNextLevel;
      XpForNextLevelAtLeastBase(l);
      assert false;
    }
  }
}
