/**
 * The shared record types, the catalog tables and the boss-window clock rule
 * of the progression engine, together with the state cell every handler
 * reads and commits.
 */
module GameLogic {
  import opened Wrappers

  // ---------------------------------------------------------------------------
  // Clock and randomness inputs
  // ---------------------------------------------------------------------------

  /** A draw of `Math.random()`: a real in [0, 1). */
  type Roll = r: real | 0.0 <= r < 1.0

  /** `Date.getDay()`: 0 is Sunday, 3 is Wednesday. */
  type Weekday = d: int | 0 <= d < 7

  /** `Date.getUTCHours()`. */
  type Hour = h: int | 0 <= h < 24

  /** `Date.getUTCMinutes()`. */
  type Minute = m: int | 0 <= m < 60

  /** `Date.getMonth()`: 0 is January. */
  type Month = m: int | 0 <= m < 12

  /** `Math.min` and `Math.max` on integers. */
  function Min(a: int, b: int): int { if a <= b then a else b }

  function Max(a: int, b: int): int { if a >= b then a else b }

  /** The index `Math.floor(roll * n)` that the source uses to pick one of `n` entries. */
  function PickIndex(roll: Roll, n: nat): (i: nat)
    requires n > 0
    ensures i < n
  {
    var x := roll * (n as real);
    assert 0.0 <= x < n as real;
    x.Floor
  }

  // ---------------------------------------------------------------------------
  // Record types
  // ---------------------------------------------------------------------------

  datatype TaskType = GS | Optional | Essay | Hobby

  datatype Task = Task(id: string, text: string, completed: bool, xpValue: int, category: string, taskType: TaskType)

  datatype Resource = IronIngot | Fire | AncientManuscript | Stardust | DragonScale

  datatype ItemClass = Human | Epic | Legend | Divine | Transcendental

  datatype Requirement = Requirement(resource: Resource, count: int)

  /** A catalog blueprint: a crafted item without its `isForged` flag. */
  datatype Recipe = Recipe(id: string, name: string, description: string, itemClass: ItemClass, requirements: seq<Requirement>)

  datatype CraftItem = CraftItem(id: string, name: string, description: string, itemClass: ItemClass,
                                 requirements: seq<Requirement>, isForged: bool)

  datatype Species = Phoenix | Dragon | Griffin | Kitsune | Pegasus

  /** The species' display string, as pet names embed it. */
  function SpeciesName(sp: Species): string {
    match sp
    case Phoenix => "Phoenix"
    case Dragon => "Dragon"
    case Griffin => "Griffin"
    case Kitsune => "Kitsune"
    case Pegasus => "Pegasus"
  }

  /** A companion; `level` is kept in hundredths (the source's level 1.0 is 100 here). */
  datatype Pet = Pet(id: string, name: string, species: Species, level: int, xp: int,
                     gear: seq<string>, decorations: seq<string>)

  /** The skill radar: one score per category. */
  datatype Radar = Radar(gs: int, optional: int, essay: int, mains: int, hobbies: int)

  /** The five radar axes, to speak of "the axis a task type bumps". */
  datatype Axis = GSAxis | OptionalAxis | EssayAxis | MainsAxis | HobbiesAxis

  function Score(r: Radar, a: Axis): int {
    match a
    case GSAxis => r.gs
    case OptionalAxis => r.optional
    case EssayAxis => r.essay
    case MainsAxis => r.mains
    case HobbiesAxis => r.hobbies
  }

  datatype StorySegment = StorySegment(level: int, text: string, title: string)

  datatype AvatarUnlock = AvatarUnlock(level: int, name: string, description: string)

  /** The whole progression state, committed as one record by every handler. */
  datatype UserStats = UserStats(
    level: int,
    xp: int,
    xpToNextLevel: int,
    currentStreak: int,
    maxStreak: int,
    tasksCompleted: int,
    unlockedSkins: seq<string>,
    currentSkin: string,
    dailyTaskCount: int,
    weeklyTaskCount: int,
    radarData: Radar,
    inventory: map<Resource, int>,
    craftedItems: seq<CraftItem>,
    hiddenRewards: seq<string>,
    pets: seq<Pet>,
    activePetId: Option<string>,
    lastPetMonthlyReward: Option<string>)

  // ---------------------------------------------------------------------------
  // Catalog tables
  // ---------------------------------------------------------------------------

  const LevelXpReq := 100

  const PetSpecies: seq<Species> := [Phoenix, Dragon, Griffin, Kitsune, Pegasus]

  const HiddenRewards: seq<string> := [
    "Eye of the Storm",
    "Crown of Eternal Focus",
    "Shadow of the Topper",
    "Whisper of the Ancients",
    "Heart of the Phoenix",
    "Scroll of Infinite Knowledge",
    "Void Breaker",
    "Time Weaver's Lens",
    "Soul of the Library",
    "Ascendant's Mantle"
  ]

  const CraftRecipes: seq<Recipe> := [
    Recipe("1", "Standard Issue Steel Sword", "A basic but reliable blade.", Human,
           [Requirement(IronIngot, 5), Requirement(Fire, 5)]),
    Recipe("2", "Scholar's Enchanted Brush", "Moves with a mind of its own.", Epic,
           [Requirement(AncientManuscript, 10), Requirement(Stardust, 5)]),
    Recipe("3", "Eternal Flame Grimoire", "Contains the secrets of a thousand suns.", Legend,
           [Requirement(Fire, 20), Requirement(AncientManuscript, 15), Requirement(DragonScale, 5)]),
    Recipe("4", "Aurelian Crown of Focus", "Blocks out all worldly distractions.", Divine,
           [Requirement(Stardust, 30), Requirement(DragonScale, 15), Requirement(Fire, 25)]),
    Recipe("5", "The Chronos Pendulum", "Manipulates the very flow of time.", Transcendental,
           [Requirement(IronIngot, 100), Requirement(Fire, 100), Requirement(Stardust, 50), Requirement(DragonScale, 50)])
  ]

  const StorySegments: seq<StorySegment> := [
    StorySegment(1, "Your journey begins in the village of Productivity.", "The Beginning"),
    StorySegment(10, "You've packed your bags and left the comfort of home.", "Setting Out"),
    StorySegment(50, "The Forest of Procrastination looms ahead.", "The Dark Woods"),
    StorySegment(100, "You've established a base camp at the foot of Mount Focus.", "Base Camp"),
    StorySegment(200, "The climb is steep, but the view is getting better.", " The Ascent"),
    StorySegment(300, "You've found the ancient temple of Flow State.", "Ancient Temple"),
    StorySegment(400, "The clouds part, revealing the Summit of Success.", "Near the Top"),
    StorySegment(500, "You have conquered the mountain and mastered yourself.", "Legendary")
  ]

  const AvatarUnlocks: seq<AvatarUnlock> := [
    AvatarUnlock(1, "Novice Adventurer", "Ready to start!"),
    AvatarUnlock(50, "Forest Ranger", "Master of the woods."),
    AvatarUnlock(100, "Mountain Climber", "Scaled the first peak."),
    AvatarUnlock(200, "Temple Guardian", "Protector of focus."),
    AvatarUnlock(300, "Cloud Walker", "Above the distractions."),
    AvatarUnlock(500, "Productivity Master", "The ultimate form.")
  ]

  const InitialInventory: map<Resource, int> :=
    map[IronIngot := 0, Fire := 0, AncientManuscript := 0, Stardust := 0, DragonScale := 0]

  const InitialStats: UserStats := UserStats(
    1, 0, LevelXpReq, 1, 1, 0, ["Novice Adventurer"], "Novice Adventurer", 0, 0,
    Radar(0, 0, 0, 0, 0), InitialInventory, [], [], [], None, None)

  // ---------------------------------------------------------------------------
  // Well-formedness of a state record
  // ---------------------------------------------------------------------------

  /** `Record<ResourceType, number>`: every resource has a count. */
  predicate Stocked(inv: map<Resource, int>) {
    IronIngot in inv && Fire in inv && AncientManuscript in inv && Stardust in inv && DragonScale in inv
  }

  predicate InventoryOk(inv: map<Resource, int>) {
    Stocked(inv) && inv[IronIngot] >= 0 && inv[Fire] >= 0 && inv[AncientManuscript] >= 0
    && inv[Stardust] >= 0 && inv[DragonScale] >= 0
  }

  /** A stocked inventory holds every resource; a valid one holds none negatively. */
  lemma InventoryCovers(inv: map<Resource, int>)
    requires Stocked(inv)
    ensures forall r: Resource :: r in inv
    ensures InventoryOk(inv) ==> forall r: Resource :: inv[r] >= 0
  {
    forall r: Resource ensures r in inv && (InventoryOk(inv) ==> inv[r] >= 0) {
      match r
      case IronIngot =>
      case Fire =>
      case AncientManuscript =>
      case Stardust =>
      case DragonScale =>
    }
  }

  predicate RadarOk(r: Radar) {
    0 <= r.gs <= 100 && 0 <= r.optional <= 100 && 0 <= r.essay <= 100
    && 0 <= r.mains <= 100 && 0 <= r.hobbies <= 100
  }

  predicate Distinct<T(==)>(s: seq<T>) {
    forall i, j :: 0 <= i < j < |s| ==> s[i] != s[j]
  }

  /** Discovered hidden rewards: catalog entries, none twice. */
  predicate RewardsOk(h: seq<string>) {
    Distinct(h) && forall i :: 0 <= i < |h| ==> h[i] in HiddenRewards
  }

  /** What the rules keep true of a state record reachable by non-negative awards. */
  predicate Invariant(s: UserStats) {
    s.level >= 1 && 0 <= s.xp < LevelXpReq
    && s.tasksCompleted >= 0 && s.dailyTaskCount >= 0 && s.weeklyTaskCount >= 0
    && RadarOk(s.radarData) && InventoryOk(s.inventory) && RewardsOk(s.hiddenRewards)
  }

  /** The starting record: level 1, no XP, nothing owned. */
  lemma InitialStatsShape()
    ensures Invariant(InitialStats)
    ensures InitialStats.level == 1 && InitialStats.xp == 0
    ensures forall r: Resource :: r in InitialStats.inventory && InitialStats.inventory[r] == 0
    ensures InitialStats.craftedItems == [] && InitialStats.hiddenRewards == [] && InitialStats.pets == []
    ensures InitialStats.activePetId == None && InitialStats.lastPetMonthlyReward == None
  {
    forall r: Resource ensures r in InitialStats.inventory && InitialStats.inventory[r] == 0 {
      match r
      case IronIngot =>
      case Fire =>
      case AncientManuscript =>
      case Stardust =>
      case DragonScale =>
    }
  }

  // ---------------------------------------------------------------------------
  // The state cell
  // ---------------------------------------------------------------------------

  /**
   * `useState<UserStats>(INITIAL_STATS)`: each handler reads the latest record
   * and commits the next one before the next handler runs.
   */
  class StatsState {
    var stats: UserStats

    constructor ()
      ensures stats == InitialStats && Invariant(stats)
    {
      stats := InitialStats;
    }
  }

  // ---------------------------------------------------------------------------
  // Shared rules
  // ---------------------------------------------------------------------------

  /** `pets.map(p => p.id === id ? grow(p) : p)`: only the pets with that id change. */
  function UpdatePets(pets: seq<Pet>, id: string, grow: Pet -> Pet): (r: seq<Pet>)
    ensures |r| == |pets|
    ensures forall i :: 0 <= i < |pets| ==> r[i] == if pets[i].id == id then grow(pets[i]) else pets[i]
  {
    if pets == [] then []
    else [if pets[0].id == id then grow(pets[0]) else pets[0]] + UpdatePets(pets[1..], id, grow)
  }

  /**
   * The boss window: on a (local) Wednesday, from 06:30 to 09:30 UTC, both
   * ends included.
   */
  function IsBossBattleTime(day: Weekday, utcHour: Hour, utcMinute: Minute): (open: bool)
    ensures day != 3 ==> !open
    ensures day == 3 ==>
      (open <==> (utcHour == 6 && utcMinute >= 30) || utcHour == 7 || utcHour == 8 || (utcHour == 9 && utcMinute <= 30))
  {
    if day != 3 then false
    else
      var current := utcHour * 60 + utcMinute;
      var start := 6 * 60 + 30;
      var end := 9 * 60 + 30;
      current >= start && current <= end
  }

  // ---------------------------------------------------------------------------
  // Facts about the tables
  // ---------------------------------------------------------------------------

  /** The hidden-reward catalog holds ten different names. */
  lemma HiddenRewardsDistinct()
    ensures |HiddenRewards| == 10 && Distinct(HiddenRewards)
  {
  }

  /** Each recipe asks for positive amounts of pairwise different resources. */
  lemma RecipesWellFormed()
    ensures forall k, i :: 0 <= k < |CraftRecipes| && 0 <= i < |CraftRecipes[k].requirements| ==>
      CraftRecipes[k].requirements[i].count > 0
    ensures forall k, i, j :: 0 <= k < |CraftRecipes| && 0 <= i < j < |CraftRecipes[k].requirements| ==>
      CraftRecipes[k].requirements[i].resource != CraftRecipes[k].requirements[j].resource
  {
  }

  /** Every item class has at least one recipe. */
  lemma EveryClassHasRecipe(c: ItemClass)
    ensures exists k :: 0 <= k < |CraftRecipes| && CraftRecipes[k].itemClass == c
  {
    var k := match c
      case Human => 0
      case Epic => 1
      case Legend => 2
      case Divine => 3
      case Transcendental => 4;
    assert CraftRecipes[k].itemClass == c;
  }

  /** Story chapters are sorted by strictly increasing level and start at level 1. */
  lemma StorySegmentsSorted()
    ensures |StorySegments| == 8 && StorySegments[0].level == 1 && StorySegments[7].level == 500
    ensures forall i, j :: 0 <= i < j < |StorySegments| ==> StorySegments[i].level < StorySegments[j].level
  {
  }

  /** Skins are sorted by strictly increasing level and start at level 1. */
  lemma AvatarUnlocksSorted()
    ensures |AvatarUnlocks| == 6 && AvatarUnlocks[0].level == 1
    ensures forall i, j :: 0 <= i < j < |AvatarUnlocks| ==> AvatarUnlocks[i].level < AvatarUnlocks[j].level
  {
  }

  // ---------------------------------------------------------------------------
  // The hidden-reward collection cannot outgrow the catalog
  // ---------------------------------------------------------------------------

  /** A sequence without repetitions has as many distinct elements as entries. */
  lemma {:induction false} DistinctCardinality<T>(s: seq<T>)
    requires Distinct(s)
    ensures |set x | x in s| == |s|
  {
    if s != [] {
      DistinctCardinality(s[1..]);
      assert (set x | x in s) == (set x | x in s[1..]) + {s[0]};
      assert s[0] !in s[1..];
    }
  }

  /** Every list of discovered rewards is at most as long as the catalog. */
  lemma RewardsBounded(h: seq<string>)
    requires RewardsOk(h)
    ensures |h| <= 10
  {
    HiddenRewardsDistinct();
    DistinctCardinality(h);
    DistinctCardinality(HiddenRewards);
    var held, all := set x | x in h, set x | x in HiddenRewards;
    assert held <= all;
    assert all == held + (all - held);
    assert |all| == |held| + |all - held|;
  }
}
