// constants.ts: the starting habits, the XP constants and threshold formula,
// the achievement text templates and the 100-entry achievement catalogue.
module Constants {
  import opened Types
  import opened Text
  import opened Roman

  const BASE_XP_THRESHOLD: int := 100
  const XP_PER_ACTION: int := 15

  /** The six habits a new user starts with. */
  const INITIAL_HABITS: seq<Habit> := [
    Habit("1", "Drink Water", "blue", 0, 8, "Glasses", "water", 1),
    Habit("2", "Read Books", "green", 0, 10, "Pages", "book", 2),
    Habit("3", "Meditate", "purple", 0, 10, "Minutes", "meditate", 5),
    Habit("4", "Workout", "orange", 0, 30, "Mins", "workout", 10),
    Habit("5", "Journal", "pink", 0, 1, "Entry", "journal", 1),
    Habit("6", "Walk", "cyan", 0, 5000, "Steps", "walk", 500)]

  lemma InitialHabitsShape()
    ensures |INITIAL_HABITS| == 6
    ensures forall k :: 0 <= k < 6 ==> INITIAL_HABITS[k].id == [DigitChar(k + 1)]
    ensures forall k :: 0 <= k < 6 ==>
      INITIAL_HABITS[k].current == 0 && 0 < INITIAL_HABITS[k].incrementValue <= INITIAL_HABITS[k].target
    ensures ProgressInRange(INITIAL_HABITS)
  {
  }

  // ---- Level thresholds ---------------------------------------------------

  function Pow(b: nat, e: nat): (r: nat)
    ensures b > 0 ==> r > 0
  {
    if e == 0 then 1 else b * Pow(b, e - 1)
  }

  /** `getXpForNextLevel(level)` = floor(100 * 1.05^(level - 1)), computed
      exactly as 100 * 21^n / 20^n (and 100 * 20^n / 21^n below level 1). */
  function XpForNextLevel(level: int): int {
    if level >= 1 then BASE_XP_THRESHOLD * Pow(21, level - 1) / Pow(20, level - 1)
    else BASE_XP_THRESHOLD * Pow(20, 1 - level) / Pow(21, 1 - level)
  }

  lemma {:induction false} PowMonotoneBase(e: nat)
    ensures Pow(20, e) <= Pow(21, e)
  {
    if e > 0 {
      PowMonotoneBase(e - 1);
      assert 20 * Pow(20, e - 1) <= 20 * Pow(21, e - 1);
    }
  }

  lemma MulLe(a: int, b: int, y: int)
    requires a <= b && y >= 0
    ensures a * y <= b * y
  {
    assert b * y - a * y == (b - a) * y;
  }

  lemma DivAtLeast(x: int, y: int, k: int)
    requires y > 0 && k * y <= x
    ensures x / y >= k
  {
    var q, r := x / y, x % y;
    assert x == q * y + r && r < y;
    if q < k {
      MulLe(q, k - 1, y);
      assert false;
    }
  }

  /** Every level from 1 on needs at least the base threshold, so the
      subtraction loop of `addXP` always consumes a positive amount. */
  lemma XpForNextLevelAtLeastBase(level: int)
    requires level >= 1
    ensures XpForNextLevel(level) >= BASE_XP_THRESHOLD
  {
    PowMonotoneBase(level - 1);
    DivAtLeast(BASE_XP_THRESHOLD * Pow(21, level - 1), Pow(20, level - 1), BASE_XP_THRESHOLD);
  }

  lemma XpForNextLevelExamples()
    ensures XpForNextLevel(1) == BASE_XP_THRESHOLD == 100
    ensures XpForNextLevel(2) == 105
    ensures XpForNextLevel(3) == 110
  {
    assert Pow(21, 2) == 441 && Pow(20, 2) == 400;
  }

  // ---- Achievement texts ------------------------------------------------

  /** A translated message with one `{0}` placeholder, held as the text
      before and the text after the placeholder. */
  datatype Message = Message(before: string, after: string) {
    /** The message as the translation table spells it. */
    function WithPlaceholder(): string {
      before + "{0}" + after
    }
  }

  datatype Template = Template(title: Message, desc: Message)
  datatype AchievementTemplates = AchievementTemplates(level: Template, streak: Template, earlybird: Template, master: Template)

  /** `TRANSLATIONS[lang].achievementTemplates`. */
  function Templates(lang: Language): AchievementTemplates {
    match lang
    case En => AchievementTemplates(
      Template(Message("Level ", ""), Message("Reach Level ", "")),
      Template(Message("", "-Day Streak"), Message("Maintain a streak for ", " days")),
      Template(Message("Early Bird ", ""), Message("Finish a task before 8 AM ", " times")),
      Template(Message("Zen Master ", ""), Message("Meditate for ", " total minutes")))
    case Es => AchievementTemplates(
      Template(Message("Nivel ", ""), Message("Alcanza el Nivel ", "")),
      Template(Message("Racha de ", " Días"), Message("Mantén una racha de ", " días")),
      Template(Message("Madrugador ", ""), Message("Termina una tarea antes de las 8 AM ", " veces")),
      Template(Message("Maestro Zen ", ""), Message("Medita por ", " minutos en total")))
  }

  function TemplateFor(ts: AchievementTemplates, c: Category): Template {
    match c
    case Level => ts.level
    case Streak => ts.streak
    case EarlyBird => ts.earlybird
    case Master => ts.master
  }

  /** `message.replace('{0}', arg)`; `FillIsReplace` shows the two agree on
      every message of the translation table. */
  function Fill(m: Message, arg: string): string {
    m.before + arg + m.after
  }

  predicate NoBrace(s: string) {
    forall k :: 0 <= k < |s| ==> s[k] != '{'
  }

  /** No `{` occurs before the placeholder, so the placeholder is the first
      match `replace` finds. */
  predicate PlaceholderFirst(m: Message) {
    NoBrace(m.before)
  }

  predicate TemplatesWellFormed(ts: AchievementTemplates) {
    && PlaceholderFirst(ts.level.title) && PlaceholderFirst(ts.level.desc)
    && PlaceholderFirst(ts.streak.title) && PlaceholderFirst(ts.streak.desc)
    && PlaceholderFirst(ts.earlybird.title) && PlaceholderFirst(ts.earlybird.desc)
    && PlaceholderFirst(ts.master.title) && PlaceholderFirst(ts.master.desc)
  }

  lemma FillIsReplace(m: Message, arg: string)
    requires PlaceholderFirst(m)
    ensures Fill(m, arg) == ReplaceFirst(m.WithPlaceholder(), "{0}", arg)
  {
    ReplaceFirstAfterPrefix(m.before, "{0}", m.after, arg);
  }

  lemma TranslationsWellFormed(lang: Language)
    ensures TemplatesWellFormed(Templates(lang))
  {
    if lang == En {
      EnglishWellFormed();
    } else {
      SpanishWellFormed();
    }
  }

  lemma EnglishWellFormed()
    ensures TemplatesWellFormed(Templates(En))
  {
    assert NoBrace("Level ") && NoBrace("Reach Level ") && NoBrace("") && NoBrace("Maintain a streak for ");
    assert NoBrace("Early Bird ") && NoBrace("Finish a task before 8 AM ") && NoBrace("Zen Master ") && NoBrace("Meditate for ");
  }

  lemma SpanishWellFormed()
    ensures TemplatesWellFormed(Templates(Es))
  {
    assert NoBrace("Nivel ") && NoBrace("Alcanza el Nivel ") && NoBrace("Racha de ") && NoBrace("Mantén una racha de ");
    assert NoBrace("Madrugador ") && NoBrace("Termina una tarea antes de las 8 AM ") && NoBrace("Maestro Zen ") && NoBrace("Medita por ");
  }

  // ---- The catalogue ------------------------------------------------------

  function IdPrefix(c: Category): string {
    match c
    case Level => "lvl_"
    case Streak => "str_"
    case EarlyBird => "early_"
    case Master => "zen_"
  }

  function ColorOf(c: Category): Palette {
    match c
    case Level => Indigo
    case Streak => Orange
    case EarlyBird => Yellow
    case Master => Purple
  }

  /** The streak schedule as the generator's running total builds it:
      3, then 7, then 5 more per step. */
  function StreakTarget(i: nat): nat {
    if i <= 1 then 3 else if i == 2 then 7 else StreakTarget(i - 1) + 5
  }

  /** The threshold of the `i`-th achievement (1-based) of a category; the
      generator uses ordinals 1 to 25. */
  function Target(c: Category, i: nat): nat {
    match c
    case Level => i * 4
    case Streak => StreakTarget(i)
    case EarlyBird => if i <= 1 then 1 else (i - 1) * 5
    case Master => i * 50
  }

  /** The `i`-th achievement of category `c`, with the texts of `lang`:
      level and streak titles show the threshold, early-bird and Zen-master
      titles the Roman numeral of `i`; every description shows the threshold. */
  function Entry(ts: AchievementTemplates, c: Category, i: nat): Achievement {
    var target := Target(c, i);
    var t := TemplateFor(ts, c);
    var suffix := if c == EarlyBird || c == Master then RomanNumeral(i) else NatToString(target);
    Achievement(EntryId(c, i), Fill(t.title, suffix), Fill(t.desc, NatToString(target)),
                c, false, ColorOf(c), c, target)
  }

  /** `${prefix}${target}`: the identifier of the `i`-th achievement of `c`. */
  function EntryId(c: Category, i: nat): string {
    IdPrefix(c) + NatToString(Target(c, i))
  }

  /** The catalogue is laid out in four blocks of 25. */
  function CategoryAt(k: nat): Category {
    if k < 25 then Level else if k < 50 then Streak else if k < 75 then EarlyBird else Master
  }

  /** The 1-based position of entry `k` within its block. */
  function Ordinal(k: nat): (i: nat)
    ensures 1 <= i && (k < 100 ==> i <= 25)
  {
    if k < 25 then k + 1 else if k < 50 then k - 24 else if k < 75 then k - 49 else k - 74
  }

  /** `[f(0), ..., f(n - 1)]`. */
  function Tabulate<T>(f: nat -> T, n: nat): (s: seq<T>)
    ensures |s| == n
  {
    seq(n, (k: int) requires 0 <= k < n => f(k))
  }

  /** The entry at position `k` of the catalogue built from `ts`. */
  function SlotOf(ts: AchievementTemplates): nat -> Achievement {
    (k: nat) => Entry(ts, CategoryAt(k), Ordinal(k))
  }

  /** `generateAchievements(lang)` as a value: 100 entries, position `k`
      holding the `Ordinal(k)`-th entry of category `CategoryAt(k)`. */
  function Catalogue(lang: Language): seq<Achievement> {
    Tabulate(SlotOf(Templates(lang)), CATALOGUE_SIZE)
  }

  /** Four categories of 25 achievements. */
  const CATALOGUE_SIZE: nat := 100

  /** `INITIAL_ACHIEVEMENTS`: the English catalogue, all locked. */
  const INITIAL_ACHIEVEMENTS: seq<Achievement> := Catalogue(En)

  /** The initial list is the English catalogue: 100 locked entries, the
      first of them "Level 4". */
  lemma InitialAchievementsShape()
    ensures |INITIAL_ACHIEVEMENTS| == 100
    ensures forall k :: 0 <= k < 100 ==> !INITIAL_ACHIEVEMENTS[k].unlocked
    ensures INITIAL_ACHIEVEMENTS[0].id == "lvl_4" && INITIAL_ACHIEVEMENTS[0].title == "Level 4"
  {
    CatalogueLayout(En);
    CatalogueAt(En, 0);
    TitlesEn(1);
    EntryIdExamples();
  }

  /** `generateAchievements(lang)`: four loops of 25 pushes, one per
      category, the streak loop keeping a running threshold. */
  method GenerateAchievements(lang: Language) returns (achievements: seq<Achievement>)
    ensures achievements == Catalogue(lang)
  {
    var templates := Templates(lang);
    achievements := [];
    achievements := PushLevels(templates, achievements);
    achievements := PushStreaks(templates, achievements);
    achievements := PushEarlyBirds(templates, achievements);
    achievements := PushMasters(templates, achievements);
  }

  /** The level loop: thresholds 4, 8, ..., 100. */
  method PushLevels(templates: AchievementTemplates, before: seq<Achievement>) returns (achievements: seq<Achievement>)
    requires before == Tabulate(SlotOf(templates), 0)
    ensures achievements == Tabulate(SlotOf(templates), 25)
  {
    achievements := before;
    for i := 1 to 26
      invariant achievements == Tabulate(SlotOf(templates), i - 1)
    {
      var target := i * 4;
      var entry := Achievement(
        "lvl_" + NatToString(target),
        Fill(templates.level.title, NatToString(target)),
        Fill(templates.level.desc, NatToString(target)),
        Level, false, Indigo, Level, target);
      LevelStep(templates, i);
      achievements := achievements + [entry];
    }
  }

  /** The streak loop: thresholds 3, 7, then 5 more each time. */
  method PushStreaks(templates: AchievementTemplates, before: seq<Achievement>) returns (achievements: seq<Achievement>)
    requires before == Tabulate(SlotOf(templates), 25)
    ensures achievements == Tabulate(SlotOf(templates), 50)
  {
    achievements := before;
    var streakTarget: nat := 0;
    for i := 1 to 26
      invariant i > 1 ==> streakTarget == StreakTarget(i - 1)
      invariant achievements == Tabulate(SlotOf(templates), 24 + i)
    {
      if i == 1 {
        streakTarget := 3;
      } else if i == 2 {
        streakTarget := 7;
      } else {
        streakTarget := streakTarget + 5;
      }
      var entry := Achievement(
        "str_" + NatToString(streakTarget),
        Fill(templates.streak.title, NatToString(streakTarget)),
        Fill(templates.streak.desc, NatToString(streakTarget)),
        Streak, false, Orange, Streak, streakTarget);
      StreakStep(templates, i, streakTarget);
      achievements := achievements + [entry];
    }
  }

  /** The early-bird loop: thresholds 1, 5, 10, ..., 120, titled by Roman ordinal. */
  method PushEarlyBirds(templates: AchievementTemplates, before: seq<Achievement>) returns (achievements: seq<Achievement>)
    requires before == Tabulate(SlotOf(templates), 50)
    ensures achievements == Tabulate(SlotOf(templates), 75)
  {
    achievements := before;
    for i := 1 to 26
      invariant achievements == Tabulate(SlotOf(templates), 49 + i)
    {
      var target := if i == 1 then 1 else (i - 1) * 5;
      var suffix := Romanize(i);
      var entry := Achievement(
        "early_" + NatToString(target),
        Fill(templates.earlybird.title, suffix),
        Fill(templates.earlybird.desc, NatToString(target)),
        EarlyBird, false, Yellow, EarlyBird, target);
      EarlyBirdStep(templates, i, suffix);
      achievements := achievements + [entry];
    }
  }

  method PushMasters(templates: AchievementTemplates, before: seq<Achievement>) returns (achievements: seq<Achievement>)
    requires before == Tabulate(SlotOf(templates), 75)
    ensures achievements == Tabulate(SlotOf(templates), 100)
  {
    achievements := before;
    for i := 1 to 26
      invariant achievements == Tabulate(SlotOf(templates), 74 + i)
    {
      var target := i * 50;
      var suffix := Romanize(i);
      var entry := Achievement(
        "zen_" + NatToString(target),
        Fill(templates.master.title, suffix),
        Fill(templates.master.desc, NatToString(target)),
        Master, false, Purple, Master, target);
      MasterStep(templates, i, suffix);
      achievements := achievements + [entry];
    }
  }

  /** Pushing the `i`-th entry of category `c` at position `n`. */
  lemma SlotGrows(ts: AchievementTemplates, n: nat, c: Category, i: nat)
    requires CategoryAt(n) == c && Ordinal(n) == i
    ensures Tabulate(SlotOf(ts), n) + [Entry(ts, c, i)] == Tabulate(SlotOf(ts), n + 1)
  {
    assert SlotOf(ts)(n) == Entry(ts, c, i);
    assert forall k :: 0 <= k <= n ==> (Tabulate(SlotOf(ts), n) + [Entry(ts, c, i)])[k] == SlotOf(ts)(k);
  }

  // The entries of each block, spelled out as the generator's loops build them.

  lemma LevelEntry(ts: AchievementTemplates, i: nat)
    requires 1 <= i <= 25
    ensures Entry(ts, Level, i) == Achievement(
      "lvl_" + NatToString(i * 4),
      Fill(ts.level.title, NatToString(i * 4)),
      Fill(ts.level.desc, NatToString(i * 4)),
      Level, false, Indigo, Level, i * 4)
  {
  }

  lemma StreakEntry(ts: AchievementTemplates, i: nat, t: nat)
    requires 1 <= i <= 25 && t == StreakTarget(i)
    ensures Entry(ts, Streak, i) == Achievement(
      "str_" + NatToString(t),
      Fill(ts.streak.title, NatToString(t)),
      Fill(ts.streak.desc, NatToString(t)),
      Streak, false, Orange, Streak, t)
  {
  }

  lemma EarlyBirdEntry(ts: AchievementTemplates, i: nat)
    requires 1 <= i <= 25
    ensures var t := if i == 1 then 1 else (i - 1) * 5;
      Entry(ts, EarlyBird, i) == Achievement(
      "early_" + NatToString(t),
      Fill(ts.earlybird.title, RomanNumeral(i)),
      Fill(ts.earlybird.desc, NatToString(t)),
      EarlyBird, false, Yellow, EarlyBird, t)
  {
  }

  lemma MasterEntry(ts: AchievementTemplates, i: nat)
    requires 1 <= i <= 25
    ensures Entry(ts, Master, i) == Achievement(
      "zen_" + NatToString(i * 50),
      Fill(ts.master.title, RomanNumeral(i)),
      Fill(ts.master.desc, NatToString(i * 50)),
      Master, false, Purple, Master, i * 50)
  {
  }

  // One iteration of each loop appends the next entry of the catalogue.

  lemma LevelStep(ts: AchievementTemplates, i: nat)
    requires 1 <= i <= 25
    ensures Tabulate(SlotOf(ts), i - 1) + [Achievement(
      "lvl_" + NatToString(i * 4),
      Fill(ts.level.title, NatToString(i * 4)),
      Fill(ts.level.desc, NatToString(i * 4)),
      Level, false, Indigo, Level, i * 4)] == Tabulate(SlotOf(ts), i)
  {
    LevelEntry(ts, i);
    SlotGrows(ts, i - 1, Level, i);
  }

  lemma StreakStep(ts: AchievementTemplates, i: nat, t: nat)
    requires 1 <= i <= 25 && t == StreakTarget(i)
    ensures Tabulate(SlotOf(ts), 24 + i) + [Achievement(
      "str_" + NatToString(t),
      Fill(ts.streak.title, NatToString(t)),
      Fill(ts.streak.desc, NatToString(t)),
      Streak, false, Orange, Streak, t)] == Tabulate(SlotOf(ts), 25 + i)
  {
    StreakEntry(ts, i, t);
    SlotGrows(ts, 24 + i, Streak, i);
  }

  lemma EarlyBirdStep(ts: AchievementTemplates, i: nat, suffix: string)
    requires 1 <= i <= 25 && suffix == RomanNumeral(i)
    ensures var t := if i == 1 then 1 else (i - 1) * 5;
      Tabulate(SlotOf(ts), 49 + i) + [Achievement(
      "early_" + NatToString(t),
      Fill(ts.earlybird.title, suffix),
      Fill(ts.earlybird.desc, NatToString(t)),
      EarlyBird, false, Yellow, EarlyBird, t)] == Tabulate(SlotOf(ts), 50 + i)
  {
    EarlyBirdEntry(ts, i);
    SlotGrows(ts, 49 + i, EarlyBird, i);
  }

  lemma MasterStep(ts: AchievementTemplates, i: nat, suffix: string)
    requires 1 <= i <= 25 && suffix == RomanNumeral(i)
    ensures Tabulate(SlotOf(ts), 74 + i) + [Achievement(
      "zen_" + NatToString(i * 50),
      Fill(ts.master.title, suffix),
      Fill(ts.master.desc, NatToString(i * 50)),
      Master, false, Purple, Master, i * 50)] == Tabulate(SlotOf(ts), 75 + i)
  {
    MasterEntry(ts, i);
    SlotGrows(ts, 74 + i, Master, i);
  }

  // ---- Properties of the catalogue -----------------------------------------

  lemma CatalogueAt(lang: Language, k: nat)
    requires k < 100
    ensures |Catalogue(lang)| == 100
    ensures Catalogue(lang)[k] == Entry(Templates(lang), CategoryAt(k), Ordinal(k))
  {
  }

  /** The fields of an entry that do not depend on its texts. */
  lemma EntryFields(ts: AchievementTemplates, c: Category, i: nat)
    requires 1 <= i <= 25
    ensures Entry(ts, c, i).id == EntryId(c, i)
    ensures Entry(ts, c, i).category == c && Entry(ts, c, i).iconName == c
    ensures !Entry(ts, c, i).unlocked && Entry(ts, c, i).targetValue == Target(c, i)
  {
  }

  /** The identifier of entry `k`. */
  lemma CatalogueIdAt(lang: Language, k: nat)
    requires k < 100
    ensures |Catalogue(lang)| == 100
    ensures Catalogue(lang)[k].id == EntryId(CategoryAt(k), Ordinal(k))
  {
    CatalogueAt(lang, k);
    EntryFields(Templates(lang), CategoryAt(k), Ordinal(k));
  }

  /** 100 entries, 25 per category in the order level, streak, early bird,
      Zen master, all locked, each with its category's icon. */
  lemma CatalogueLayout(lang: Language)
    ensures |Catalogue(lang)| == 100
    ensures forall k :: 0 <= k < 100 ==>
      && Catalogue(lang)[k].category == (if k < 25 then Level else if k < 50 then Streak else if k < 75 then EarlyBird else Master)
      && Catalogue(lang)[k].iconName == Catalogue(lang)[k].category
      && !Catalogue(lang)[k].unlocked
  {
    CatalogueAt(lang, 0);
    forall k | 0 <= k < 100
      ensures Catalogue(lang)[k].category == (if k < 25 then Level else if k < 50 then Streak else if k < 75 then EarlyBird else Master)
      ensures Catalogue(lang)[k].iconName == Catalogue(lang)[k].category
      ensures !Catalogue(lang)[k].unlocked
    {
      CatalogueAt(lang, k);
      EntryFields(Templates(lang), CategoryAt(k), Ordinal(k));
    }
  }

  /** Identifiers, categories and thresholds do not depend on the language;
      only titles and descriptions do. */
  lemma CatalogueIgnoresLanguage(l1: Language, l2: Language)
    ensures |Catalogue(l1)| == |Catalogue(l2)| == 100
    ensures forall k :: 0 <= k < 100 ==>
      && Catalogue(l1)[k].id == Catalogue(l2)[k].id
      && Catalogue(l1)[k].category == Catalogue(l2)[k].category
      && Catalogue(l1)[k].targetValue == Catalogue(l2)[k].targetValue
      && Catalogue(l1)[k].unlocked == Catalogue(l2)[k].unlocked
  {
    CatalogueAt(l1, 0);
    CatalogueAt(l2, 0);
    forall k | 0 <= k < 100
      ensures Catalogue(l1)[k].id == Catalogue(l2)[k].id
      ensures Catalogue(l1)[k].category == Catalogue(l2)[k].category
      ensures Catalogue(l1)[k].targetValue == Catalogue(l2)[k].targetValue
      ensures Catalogue(l1)[k].unlocked == Catalogue(l2)[k].unlocked
    {
      CatalogueAt(l1, k);
      CatalogueAt(l2, k);
      EntryFields(Templates(l1), CategoryAt(k), Ordinal(k));
      EntryFields(Templates(l2), CategoryAt(k), Ordinal(k));
    }
  }

  /** After the first two steps the streak schedule is 5i - 3. */
  lemma {:induction false} StreakTargetClosedForm(i: nat)
    requires i >= 2
    ensures StreakTarget(i) == 5 * i - 3
  {
    if i > 2 {
      StreakTargetClosedForm(i - 1);
    }
  }

  /** The four threshold schedules, end points included. */
  lemma TargetSchedules(i: nat)
    requires 1 <= i <= 25
    ensures Target(Level, i) == 4 * i && Target(Master, i) == 50 * i
    ensures Target(Streak, 1) == 3 && Target(Streak, 2) == 7
    ensures i >= 3 ==> Target(Streak, i) == Target(Streak, i - 1) + 5
    ensures Target(Streak, 25) == 122
    ensures Target(EarlyBird, 1) == 1 && (i >= 2 ==> Target(EarlyBird, i) == 5 * (i - 1))
    ensures Target(Level, 25) == 100 && Target(EarlyBird, 25) == 120 && Target(Master, 25) == 1250
  {
    StreakTargetClosedForm(25);
  }

  /** Within a category, thresholds strictly increase with the ordinal. */
  lemma TargetIncreasing(c: Category, i: nat, j: nat)
    requires 1 <= i < j <= 25
    ensures Target(c, i) < Target(c, j)
  {
    if c == Streak {
      if i >= 2 {
        StreakTargetClosedForm(i);
      }
      StreakTargetClosedForm(j);
    }
  }

  lemma EntryIdsDistinct(c1: Category, i1: nat, c2: Category, i2: nat)
    requires 1 <= i1 <= 25 && 1 <= i2 <= 25
    requires c1 != c2 || i1 != i2
    ensures EntryId(c1, i1) != EntryId(c2, i2)
  {
    var a, b := EntryId(c1, i1), EntryId(c2, i2);
    if c1 != c2 {
      assert a[0] == IdPrefix(c1)[0] && b[0] == IdPrefix(c2)[0];
    } else if a == b {
      var p := IdPrefix(c1);
      assert a[|p|..] == NatToString(Target(c1, i1));
      assert b[|p|..] == NatToString(Target(c2, i2));
      NatToStringInjective(Target(c1, i1), Target(c2, i2));
      if i1 < i2 {
        TargetIncreasing(c1, i1, i2);
      } else {
        TargetIncreasing(c1, i2, i1);
      }
      assert false;
    }
  }

  /** All 100 identifiers are distinct. */
  lemma CatalogueIdsDistinct(lang: Language)
    ensures |Catalogue(lang)| == 100
    ensures forall j, k :: 0 <= j < 100 && 0 <= k < 100 && j != k ==> Catalogue(lang)[j].id != Catalogue(lang)[k].id
  {
    CatalogueIdAt(lang, 0);
    forall j, k | 0 <= j < 100 && 0 <= k < 100 && j != k
      ensures Catalogue(lang)[j].id != Catalogue(lang)[k].id
    {
      CatalogueIdAt(lang, j);
      CatalogueIdAt(lang, k);
      SlotsDiffer(j, k);
      EntryIdsDistinct(CategoryAt(j), Ordinal(j), CategoryAt(k), Ordinal(k));
    }
  }

  /** Distinct positions hold different (category, ordinal) pairs. */
  lemma SlotsDiffer(j: nat, k: nat)
    requires j < 100 && k < 100 && j != k
    ensures CategoryAt(j) != CategoryAt(k) || Ordinal(j) != Ordinal(k)
  {
    if CategoryAt(j) == CategoryAt(k) {
      assert j - Ordinal(j) == k - Ordinal(k);
    }
  }

  /** Every title and description of an entry is its category's template
      with the placeholder replaced as `String.prototype.replace` does. */
  lemma EntryTextsReplace(lang: Language, c: Category, i: nat)
    ensures var t := TemplateFor(Templates(lang), c);
      && Entry(Templates(lang), c, i).title ==
        ReplaceFirst(t.title.WithPlaceholder(), "{0}", if c == EarlyBird || c == Master then RomanNumeral(i) else NatToString(Target(c, i)))
      && Entry(Templates(lang), c, i).description == ReplaceFirst(t.desc.WithPlaceholder(), "{0}", NatToString(Target(c, i)))
  {
    var t := TemplateFor(Templates(lang), c);
    TranslationsWellFormed(lang);
    FillIsReplace(t.title, if c == EarlyBird || c == Master then RomanNumeral(i) else NatToString(Target(c, i)));
    FillIsReplace(t.desc, NatToString(Target(c, i)));
  }

  /** The English titles: levels and streaks show the threshold, early-bird
      and Zen-master titles the Roman numeral of the ordinal. */
  lemma TitlesEn(i: nat)
    ensures Entry(Templates(En), Level, i).title == "Level " + NatToString(4 * i)
    ensures Entry(Templates(En), Streak, i).title == NatToString(Target(Streak, i)) + "-Day Streak"
    ensures Entry(Templates(En), EarlyBird, i).title == "Early Bird " + RomanNumeral(i)
    ensures Entry(Templates(En), Master, i).title == "Zen Master " + RomanNumeral(i)
  {
    var ts := Templates(En);
    assert ts.level.title == Message("Level ", "") && ts.streak.title == Message("", "-Day Streak");
    assert ts.earlybird.title == Message("Early Bird ", "") && ts.master.title == Message("Zen Master ", "");
    assert Target(Level, i) == 4 * i;
  }

  /** The English descriptions all show the numeric threshold. */
  lemma DescriptionsEn(i: nat)
    ensures Entry(Templates(En), Level, i).description == "Reach Level " + NatToString(4 * i)
    ensures Entry(Templates(En), Streak, i).description == "Maintain a streak for " + NatToString(Target(Streak, i)) + " days"
    ensures Entry(Templates(En), EarlyBird, i).description == "Finish a task before 8 AM " + NatToString(Target(EarlyBird, i)) + " times"
    ensures Entry(Templates(En), Master, i).description == "Meditate for " + NatToString(50 * i) + " total minutes"
  {
    var ts := Templates(En);
    assert ts.level.desc == Message("Reach Level ", "") && ts.streak.desc == Message("Maintain a streak for ", " days");
    assert ts.earlybird.desc == Message("Finish a task before 8 AM ", " times") && ts.master.desc == Message("Meditate for ", " total minutes");
    assert Target(Level, i) == 4 * i && Target(Master, i) == 50 * i;
  }

  /** The identifiers that open each block and close the catalogue. */
  lemma EntryIdExamples()
    ensures EntryId(Level, 1) == "lvl_4" && EntryId(Streak, 1) == "str_3"
    ensures EntryId(EarlyBird, 1) == "early_1" && EntryId(Master, 25) == "zen_1250"
  {
    assert NatToString(125) == "125";
  }
}
