// `checkAllAchievements` of App.tsx, and the id-keyed overlay of unlock
// flags onto a freshly generated catalogue that both the mount effect and
// the language switch perform.
module Achievements {
  import opened Types
  import opened Constants

  /** The statistic an achievement of category `c` is measured against. */
  function Statistic(c: Category, u: UserState): int {
    match c
    case Level => u.level
    case Master => u.stats.totalMeditationMinutes
    case Streak => u.stats.currentStreak
    case EarlyBird => u.stats.earlyBirdCount
  }

  /** The `shouldUnlock` test of the evaluator. */
  predicate ShouldUnlock(a: Achievement, u: UserState) {
    Statistic(a.category, u) >= a.targetValue
  }

  /** A locked entry that the evaluator unlocks now. */
  predicate Flips(a: Achievement, u: UserState) {
    !a.unlocked && ShouldUnlock(a, u)
  }

  /** What one evaluation returns: the new list, `hasUpdates` and
      `lastUnlockedTitle`. */
  datatype CheckOutcome = CheckOutcome(achievements: seq<Achievement>, hasUpdates: bool, lastUnlockedTitle: string)

  /** `r` is what evaluating `achievements` for `u` returns: every entry is
      unlocked when it was or when its statistic reaches its target,
      `hasUpdates` tells whether some locked entry flipped, and the title is
      that of the last one to flip (empty, with the list unchanged, when
      none did). */
  predicate Evaluates(achievements: seq<Achievement>, u: UserState, r: CheckOutcome) {
    && |r.achievements| == |achievements|
    && (forall k :: 0 <= k < |achievements| ==>
      r.achievements[k] == achievements[k].(unlocked := achievements[k].unlocked || ShouldUnlock(achievements[k], u)))
    && (r.hasUpdates <==> exists k :: 0 <= k < |achievements| && Flips(achievements[k], u))
    && (!r.hasUpdates ==> r.lastUnlockedTitle == "" && r.achievements == achievements)
    && (r.hasUpdates ==>
      (exists k :: 0 <= k < |achievements| && Flips(achievements[k], u)
        && r.lastUnlockedTitle == achievements[k].title
        && forall j :: k < j < |achievements| ==> !Flips(achievements[j], u)))
  }

  /** `checkAllAchievements` over `achievements` for the state `u`: the map
      callback runs left to right, unlocking every locked entry whose
      statistic reaches its target and remembering the last such title. */
  function CheckAllAchievements(achievements: seq<Achievement>, u: UserState): (r: CheckOutcome)
    ensures |r.achievements| == |achievements|
    ensures forall k :: 0 <= k < |achievements| ==>
      r.achievements[k] == achievements[k].(unlocked := achievements[k].unlocked || ShouldUnlock(achievements[k], u))
    ensures r.hasUpdates <==> exists k :: 0 <= k < |achievements| && Flips(achievements[k], u)
    ensures !r.hasUpdates ==> r.lastUnlockedTitle == "" && r.achievements == achievements
    ensures r.hasUpdates ==>
      (exists k :: 0 <= k < |achievements| && Flips(achievements[k], u)
        && r.lastUnlockedTitle == achievements[k].title
        && forall j :: k < j < |achievements| ==> !Flips(achievements[j], u))
    decreases |achievements|
  {
    if |achievements| == 0 then CheckOutcome([], false, "")
    else
      var n := |achievements| - 1;
      var init := CheckAllAchievements(achievements[..n], u);
      var a := achievements[n];
      var r := if Flips(a, u) then CheckOutcome(init.achievements + [a.(unlocked := true)], true, a.title)
               else CheckOutcome(init.achievements + [a], init.hasUpdates, init.lastUnlockedTitle);
      EvaluatesStep(achievements, u, init, r);
      r
  }

  /** Evaluating one more entry after a prefix extends the prefix's outcome. */
  lemma EvaluatesStep(achievements: seq<Achievement>, u: UserState, init: CheckOutcome, r: CheckOutcome)
    requires |achievements| > 0
    requires Evaluates(achievements[..|achievements| - 1], u, init)
    requires var a := achievements[|achievements| - 1];
      r == if Flips(a, u) then CheckOutcome(init.achievements + [a.(unlocked := true)], true, a.title)
           else CheckOutcome(init.achievements + [a], init.hasUpdates, init.lastUnlockedTitle)
    ensures Evaluates(achievements, u, r)
  {
    var n := |achievements| - 1;
    var prefix := achievements[..n];
    assert achievements == prefix + [achievements[n]];
    assert forall k :: 0 <= k < n ==> prefix[k] == achievements[k];
    StepEntries(achievements, u, init, r);
    StepFlags(achievements, u, init, r);
  }

  lemma StepEntries(achievements: seq<Achievement>, u: UserState, init: CheckOutcome, r: CheckOutcome)
    requires |achievements| > 0
    requires Evaluates(achievements[..|achievements| - 1], u, init)
    requires var a := achievements[|achievements| - 1];
      r == if Flips(a, u) then CheckOutcome(init.achievements + [a.(unlocked := true)], true, a.title)
           else CheckOutcome(init.achievements + [a], init.hasUpdates, init.lastUnlockedTitle)
    ensures |r.achievements| == |achievements|
    ensures forall k :: 0 <= k < |achievements| ==>
      r.achievements[k] == achievements[k].(unlocked := achievements[k].unlocked || ShouldUnlock(achievements[k], u))
  {
    var n := |achievements| - 1;
    assert forall k :: 0 <= k < n ==> achievements[..n][k] == achievements[k];
  }

  lemma StepFlags(achievements: seq<Achievement>, u: UserState, init: CheckOutcome, r: CheckOutcome)
    requires |achievements| > 0
    requires Evaluates(achievements[..|achievements| - 1], u, init)
    requires var a := achievements[|achievements| - 1];
      r == if Flips(a, u) then CheckOutcome(init.achievements + [a.(unlocked := true)], true, a.title)
           else CheckOutcome(init.achievements + [a], init.hasUpdates, init.lastUnlockedTitle)
    requires |r.achievements| == |achievements|
    ensures r.hasUpdates <==> exists k :: 0 <= k < |achievements| && Flips(achievements[k], u)
    ensures !r.hasUpdates ==> r.lastUnlockedTitle == "" && r.achievements == achievements
    ensures r.hasUpdates ==>
      (exists k :: 0 <= k < |achievements| && Flips(achievements[k], u)
        && r.lastUnlockedTitle == achievements[k].title
        && forall j :: k < j < |achievements| ==> !Flips(achievements[j], u))
  {
    var n := |achievements| - 1;
    var prefix := achievements[..n];
    var a := achievements[n];
    assert forall k :: 0 <= k < n ==> prefix[k] == achievements[k];
    if Flips(a, u) {
      assert r.lastUnlockedTitle == achievements[n].title;
    } else if init.hasUpdates {
      var k :| 0 <= k < n && Flips(prefix[k], u) && init.lastUnlockedTitle == prefix[k].title
        && forall j :: k < j < n ==> !Flips(prefix[j], u);
      assert Flips(achievements[k], u) && r.lastUnlockedTitle == achievements[k].title;
    } else {
      assert achievements == prefix + [a];
    }
  }

  /** A second evaluation on the same state changes nothing. */
  lemma CheckIdempotent(achievements: seq<Achievement>, u: UserState)
    ensures var once := CheckAllAchievements(achievements, u).achievements;
      && !CheckAllAchievements(once, u).hasUpdates
      && CheckAllAchievements(once, u).achievements == once
  {
    var once := CheckAllAchievements(achievements, u).achievements;
    forall k | 0 <= k < |once| ensures !Flips(once[k], u) {
    }
  }

  /** Statistics that have only grown unlock a superset of entries. */
  lemma CheckMonotone(achievements: seq<Achievement>, u1: UserState, u2: UserState)
    requires u1.level <= u2.level && u1.stats.currentStreak <= u2.stats.currentStreak
    requires u1.stats.totalMeditationMinutes <= u2.stats.totalMeditationMinutes
    requires u1.stats.earlyBirdCount <= u2.stats.earlyBirdCount
    ensures forall k :: 0 <= k < |achievements| && CheckAllAchievements(achievements, u1).achievements[k].unlocked ==>
      CheckAllAchievements(achievements, u2).achievements[k].unlocked
  {
    var r1, r2 := CheckAllAchievements(achievements, u1).achievements, CheckAllAchievements(achievements, u2).achievements;
    forall k | 0 <= k < |achievements| && r1[k].unlocked ensures r2[k].unlocked {
      StatisticMonotone(achievements[k].category, u1, u2);
    }
  }

  lemma StatisticMonotone(c: Category, u1: UserState, u2: UserState)
    requires u1.level <= u2.level && u1.stats.currentStreak <= u2.stats.currentStreak
    requires u1.stats.totalMeditationMinutes <= u2.stats.totalMeditationMinutes
    requires u1.stats.earlyBirdCount <= u2.stats.earlyBirdCount
    ensures Statistic(c, u1) <= Statistic(c, u2)
  {
  }

  // ---- The unlock overlay -------------------------------------------------

  /** `new Set(list.filter(a => a.unlocked).map(a => a.id))`. */
  function UnlockedIds(achievements: seq<Achievement>): set<string> {
    set a | a in achievements && a.unlocked :: a.id
  }

  function Ids(achievements: seq<Achievement>): set<string> {
    set a | a in achievements :: a.id
  }

  /** `generated.map(a => ({...a, unlocked: ids.has(a.id)}))`. */
  function Overlay(generated: seq<Achievement>, ids: set<string>): (r: seq<Achievement>)
    ensures |r| == |generated|
    ensures forall k :: 0 <= k < |generated| ==> r[k] == generated[k].(unlocked := generated[k].id in ids)
  {
    seq(|generated|, k requires 0 <= k < |generated| => generated[k].(unlocked := generated[k].id in ids))
  }

  /** After the overlay, the unlocked ids are exactly the saved ones that
      the generated list knows; ids it does not know are dropped. */
  lemma OverlayUnlockedIds(generated: seq<Achievement>, ids: set<string>)
    ensures UnlockedIds(Overlay(generated, ids)) == ids * Ids(generated)
  {
    var r := Overlay(generated, ids);
    forall x | x in ids * Ids(generated) ensures x in UnlockedIds(r) {
      var a :| a in generated && a.id == x;
      var k :| 0 <= k < |generated| && generated[k] == a;
      assert r[k].unlocked && r[k].id == x;
    }
    forall x | x in UnlockedIds(r) ensures x in ids * Ids(generated) {
      var b :| b in r && b.unlocked && b.id == x;
      var k :| 0 <= k < |r| && r[k] == b;
      assert generated[k].id == x;
    }
  }

  /** The language switch: the catalogue is regenerated in `lang` and the
      unlock flags of `prev` carried over by id. */
  method Relocalize(prev: seq<Achievement>, lang: Language) returns (next: seq<Achievement>)
    ensures next == Overlay(Catalogue(lang), UnlockedIds(prev))
  {
    var newLocalized := GenerateAchievements(lang);
    var unlockedMap := UnlockedIds(prev);
    next := Overlay(newLocalized, unlockedMap);
  }

  /** Both languages' catalogues carry the same ids. */
  lemma CatalogueIdsAgree(l1: Language, l2: Language)
    ensures Ids(Catalogue(l1)) == Ids(Catalogue(l2))
  {
    CatalogueIgnoresLanguage(l1, l2);
    CatalogueIgnoresLanguage(l2, l1);
    IdsFromPositions(Catalogue(l1), Catalogue(l2));
    IdsFromPositions(Catalogue(l2), Catalogue(l1));
  }

  lemma IdsFromPositions(s: seq<Achievement>, t: seq<Achievement>)
    requires |s| == |t|
    requires forall k :: 0 <= k < |s| ==> s[k].id == t[k].id
    ensures Ids(s) <= Ids(t)
  {
    forall x | x in Ids(s) ensures x in Ids(t) {
      var a :| a in s && a.id == x;
      var k :| 0 <= k < |s| && s[k] == a;
      assert t[k] in t;
    }
  }

  /** Switching language keeps the set of unlocked catalogue ids, so
      switching back and forth loses nothing. */
  lemma RelocalizeKeepsUnlocked(prev: seq<Achievement>, l1: Language, l2: Language)
    ensures UnlockedIds(Overlay(Catalogue(l1), UnlockedIds(prev))) == UnlockedIds(prev) * Ids(Catalogue(l2))
    ensures var once := Overlay(Catalogue(l1), UnlockedIds(prev));
      UnlockedIds(Overlay(Catalogue(l2), UnlockedIds(once))) == UnlockedIds(once)
  {
    CatalogueIdsAgree(l1, l2);
    var once := Overlay(Catalogue(l1), UnlockedIds(prev));
    OverlayUnlockedIds(Catalogue(l1), UnlockedIds(prev));
    OverlayUnlockedIds(Catalogue(l2), UnlockedIds(once));
  }
}
