# UPSC-CSE-GAME progression and reward rules in Dafny

This project models the game rules of UPSC-CSE-GAME, a gamified study
tracker. Completing study tasks earns XP and levels. Completions also bump a
skill radar, drop crafting resources and grow the active pet. Resources are
forged into items, and 50 items of one tier fuse into one item of the next
tier. Forging many high-tier items can reveal hidden rewards. XP buys food
and gear for pets. Logging in grants a first pet, and each calendar month
grants another. A Wednesday boss takes 300 XP from a player who wrote no
essay that day.

The whole game state is one `UserStats` record. The source replaces it
through `setStats`, so it is a `datatype` here. A small class
`GameLogic.StatsState` holds the current record. Each event handler becomes
a method. The handlers of Home, Mains Tracker and Profile are methods of the
classes `Home.HomeState`, `MainsTracker.MainsForm` and
`ProfileSection.Profile`; each of these holds the cell next to its own
screen state. The handlers `CraftingSystem.Forge`, `CraftingSystem.Fusion`
and `PetSystem.BuyItem` are module-level methods that take the cell as a
parameter. Each handler is proved equal
to a pure function of the old record: `Completed`, `Penalized`, `Forged`,
`Fused`, `Purchased`, `MonthlyReward` or `LoggedIn`. The properties of the
rules are then proved about those functions. The source has three loops:
the essay `forEach`, the forge `forEach` and the fusion `filter` with its
`removed` counter. Each is a method with loop invariants, proved against a
recursive specification.

Inputs from outside the program are parameters:

- `Math.random()` is a `Roll`, a real in [0, 1). `PickIndex` turns it into
  `Math.floor(roll * n)`.
- `Date.now()` is a natural number `now`. It is rendered in decimal inside ids.
- Clock readings are a weekday, a UTC hour and minute, a year and a
  zero-based month, and the `toDateString()` text of today.

Modules, one per source file:

- `Wrappers`: `Option` and `Result`.
- `JsNumbers`: ECMAScript `parseInt` without a radix, and decimal rendering
  of naturals.
- `GameLogic`: the types, constants and tables, `isBossBattleTime`, the state
  invariant and the stats cell.
- `Home`: task completion, toggling, essay submission and the boss penalty.
- `CraftingSystem`: forge, hidden rewards and fusion.
- `PetSystem`: the pet shop.
- `MainsTracker`: logging Mains answers.
- `ProfileSection`: the login pet and the monthly pet.
- `StoryMap`: the current and next story segments.
- `SkinSelector`: the chapter number and the skin unlock flags.

Pet levels are kept in hundredths: level 1 is 100, +0.05 is +5 and +0.1
is +10.

## Model

| member | source | states |
|---|---|---|
| GameLogic.PickIndex | CraftingSystem.tsx:78 | `Math.floor(random * n)` is a valid index into a list of `n > 0` entries |
| GameLogic.InitialStatsShape | gameLogic.ts:138-168 | the initial record has level 1 and 0 XP, holds every resource at count 0, has no items, rewards or pets, no active pet and no monthly token, and satisfies the state invariant |
| GameLogic.StatsState.constructor | gameLogic.ts:138-168 | a new stats cell holds the initial record, which satisfies the invariant |
| GameLogic.UpdatePets | Home.tsx:126-131 | the pets `map` keeps length and order; exactly the pets carrying the id are transformed and all others are unchanged |
| GameLogic.IsBossBattleTime | gameLogic.ts:269-282 | false on every day but Wednesday; on Wednesday true exactly from 06:30 to 09:30 UTC, both ends included |
| GameLogic.HiddenRewardsDistinct | gameLogic.ts:68-79 | the hidden-reward catalog has exactly 10 pairwise distinct entries |
| GameLogic.RecipesWellFormed | gameLogic.ts:81-136 | every recipe requirement count is positive, and no recipe lists a resource twice |
| GameLogic.EveryClassHasRecipe | gameLogic.ts:81-136 | each of the five item classes has at least one recipe |
| GameLogic.StorySegmentsSorted | gameLogic.ts:236-245 | the 8 story segments are strictly increasing by level, from level 1 to level 500 |
| GameLogic.AvatarUnlocksSorted | gameLogic.ts:247-254 | the 6 skins are strictly increasing by level, starting at level 1 |
| GameLogic.RewardsBounded | gameLogic.ts:68-79 | a duplicate-free list of catalog rewards has at most 10 entries |
| Home.Raise | Home.tsx:107-112 | only the chosen radar axis changes, to `min(100, old + amount)`; axes within 0..100 stay within 0..100 |
| Home.Rollover | Home.tsx:99-105 | `100*level + xp` grows by exactly the award; the new XP is below 100; with a non-negative total the level rises by `total / 100`, otherwise level and XP are left as summed; the level rises iff the total reaches 100 |
| Home.Drops | Home.tsx:114-121 | Iron Ingot +1 for GS, Optional or untyped; Ancient Manuscript +1 in that branch when the draw exceeds 0.7; Fire +1 for untyped or Essay; Stardust +1 for Hobby; Dragon Scale +1 iff the level rose; no count decreases |
| Home.Completed | Home.tsx:92-146 | a completion keeps all five resources in the inventory; its full effect is `CompletedSpec` |
| Home.CompletedSpec | Home.tsx:92-146 | the three task counters each grow by 1; XP and level roll over as in `Rollover`: with a non-negative total the new XP is non-negative and the level rises by `total / 100`, otherwise both are left as summed; only the task type's radar axis moves; the inventory is `Drops`; the pet list keeps its length; only an untyped completion with a truthy active id grows the pets with that id (+0.05 level, +10 XP); every other field is unchanged |
| Home.BumpRadar | Home.tsx:107-112 | the five `if`s of the handler's radar block raise exactly the task type's axis, as `Raise` does |
| Home.AddDrops | Home.tsx:114-121 | the `if`s of the handler's drop block give exactly the `Drops` inventory |
| Home.CompletionKeepsInvariant | Home.tsx:92-146 | a completion whose summed XP is not negative keeps the whole state invariant, including XP in 0..99 |
| Home.ToggleAll | Home.tsx:82-90 | toggling keeps the list's length, order and every field except `completed`, and flips `completed` exactly on the tasks with the id |
| Home.ToggleStats | Home.tsx:82-90 | the stats effect of a toggle, one completion per open task with the id, each with its own draw; its own `ensures` only keeps the five resources stocked, and its properties are `ToggleStatsUnchanged`, `ToggleStatsUnique` and `ToggleStatsKeepsInvariant` |
| Home.ToggleStatsUnchanged | Home.tsx:82-90 | when every task with the id is already done, a toggle leaves the stats unchanged |
| Home.ToggleStatsUnique | Home.tsx:82-90 | when exactly one task carries the id and it is open, a toggle commits one completion with that task's XP and type, using that task's own random draw |
| Home.ToggleStatsKeepsInvariant | Home.tsx:82-90 | with every task's XP non-negative, a toggle keeps the whole state invariant |
| Home.MarksValue | Home.tsx:165 | marks read with `parseInt`, 0 when unreadable: blank marks give 0, and any non-zero value is what `parseInt` read |
| Home.MarksOfRendered | Home.tsx:165 | marks typed as a decimal number are worth exactly that number |
| Home.EssayTotal | Home.tsx:164-167 | the award for a single entry is twice its marks value |
| Home.BlankEssayAwardsNothing | Home.tsx:164-167 | when every entry's marks are blank, the award is 0 |
| Home.EssayXp | Home.tsx:162-167 | the `forEach` loop sums `2 * (parseInt(marks) or 0)` over the entries |
| Home.EssayTotalEven | Home.tsx:164-167 | every essay award is even |
| Home.EssayTotalNonNegative | Home.tsx:164-167 | the award is not negative when no entry's marks parse to a negative number |
| Home.NegativeMarksLowerXp | Home.tsx:165 | marks written as "-10" make the award -20 |
| Home.Penalized | Home.tsx:64-69 | at UTC hour 9, minute 30 or later, with no essay logged today, XP becomes `max(0, xp - 300)`; at any other time or after an essay nothing changes; XP never goes negative and nothing but XP changes |
| Home.PenaltyCompounds | Home.tsx:59-77 | two penalty ticks in the same window take 600 XP, floored at 0, so the rule is not applied at most once |
| Home.HomeState.constructor | Home.tsx:38-50 | the home screen starts with no tasks, no essay entries and no essay date |
| Home.HomeState.TaskCompletion | Home.tsx:92-146 | the handler's step-by-step updates commit exactly `Completed` of the previous record |
| Home.HomeState.ToggleOne | Home.tsx:83-89 | the `map` callback returns the task flipped as `Flip` and completes it first exactly when it carries the id and was open |
| Home.HomeState.ToggleTask | Home.tsx:82-90 | the task list becomes `ToggleAll`; the stats become `ToggleStats`, one completion per open task with the id in list order, each with the random draw of its own position; the essay form and essay date do not change |
| Home.HomeState.EssaySubmit | Home.tsx:162-176 | the summed essay XP is awarded as one Essay completion; today becomes the last essay date and the entries are cleared |
| Home.HomeState.BossPenaltyTick | Home.tsx:60-76 | one tick of the interval applies `Penalized` with the recorded essay date |
| CraftingSystem.Satisfies | CraftingSystem.tsx:42-44 | the forge check holds iff every requirement's resource is held in at least its count |
| CraftingSystem.DemandOfDistinct | CraftingSystem.tsx:57-59 | when no resource is listed twice, the amount taken from a resource is its single requirement's count, or 0 if it has none |
| CraftingSystem.Consumed | CraftingSystem.tsx:56-59 | paying requirements keeps the inventory's set of resources |
| CraftingSystem.ConsumeRequirements | CraftingSystem.tsx:56-59 | the `forEach` loop leaves each resource reduced by the total its requirements ask for |
| CraftingSystem.ConsumedAt | CraftingSystem.tsx:42-59 | after a passed check, one resource drops by its single requirement's count, or not at all, and stays non-negative |
| CraftingSystem.ConsumedExactly | CraftingSystem.tsx:42-59 | for a recipe that passed the check, each listed resource drops by exactly its count, the others are unchanged, and no count goes negative |
| CraftingSystem.CatalogRecipesDistinct | gameLogic.ts:81-136 | every catalog recipe lists each resource at most once |
| CraftingSystem.Unearned | CraftingSystem.tsx:76 | the unearned list holds exactly the catalog rewards not yet held, without repeats |
| CraftingSystem.UnearnedWhileIncomplete | CraftingSystem.tsx:76-77 | for a valid reward list, some reward is unearned iff fewer than all 10 are held |
| CraftingSystem.DivineOrAbove | CraftingSystem.tsx:73 | the count is the number of Divine items plus the number of Transcendental items, at most the list length |
| CraftingSystem.HiddenAfter | CraftingSystem.tsx:72-86 | at most one reward is appended, only with at least 50 Divine or Transcendental items and a draw above 0.5; the appended reward is from the catalog and not yet held, so the list stays duplicate-free and within the catalog |
| CraftingSystem.Forged | CraftingSystem.tsx:41-95 | forging fails iff some requirement is short; a successful forge pays with `Consumed`, appends one forged item of the recipe's name and class after the unchanged earlier items, runs the hidden-reward check on the updated list, and changes nothing else |
| CraftingSystem.ForgeKeepsInvariant | CraftingSystem.tsx:41-95 | a successful forge of a recipe without repeated resources keeps the whole state invariant, including XP in 0..99 |
| CraftingSystem.OfClass | CraftingSystem.tsx:98 | the items of a class are no more than all items, and an item is among them iff it is in the list and of that class |
| CraftingSystem.DropFirstOfClass | CraftingSystem.tsx:110-117 | the removal never lengthens the list and with `n = 0` removes nothing; its full effect is `DropFirstOfClassSpec` |
| CraftingSystem.DropKeepsOthers | CraftingSystem.tsx:110-117 | the removal keeps every item of another class, in order |
| CraftingSystem.DropTrimsClass | CraftingSystem.tsx:110-117 | the removal leaves the items of the class after its first `n`, or none if fewer |
| CraftingSystem.DropSnoc | CraftingSystem.tsx:110-117 | appending an item appends it to the result unless fewer than `n` items of the class precede it and it is of the class |
| CraftingSystem.DropIsSurvivors | CraftingSystem.tsx:110-117 | the removal is the position-by-position `filter`: each item survives unless it is of the class with fewer than `n` of the class before it, and survivors keep their order |
| CraftingSystem.DropLength | CraftingSystem.tsx:110-117 | the removal shortens the list by `n`, or by the class size if smaller |
| CraftingSystem.DropFirstOfClassSpec | CraftingSystem.tsx:110-117 | the removal takes exactly the first `n` items of the class, or all of them if fewer, keeps every item of another class, and keeps the survivors in their original relative order across classes |
| CraftingSystem.RemoveFirstOfClass | CraftingSystem.tsx:110-117 | the `filter` with its `removed` counter removes the first 50 items of the source class |
| CraftingSystem.ClassIndex | CraftingSystem.tsx:120-121 | `indexOf` finds every class in the tier list |
| CraftingSystem.TargetClass | CraftingSystem.tsx:120-122 | the target is the next tier up; Transcendental fuses into Transcendental |
| CraftingSystem.RecipesOf | CraftingSystem.tsx:124 | the blueprint filter keeps only catalog recipes of the class, and finds one whenever the catalog has one |
| CraftingSystem.BlueprintsExist | CraftingSystem.tsx:124-125 | the blueprint list of every target class is non-empty |
| CraftingSystem.Fused | CraftingSystem.tsx:97-145 | fusion fails, with the "need more items" error, iff fewer than 50 items are of the source class |
| CraftingSystem.FusedShape | CraftingSystem.tsx:110-142 | a successful fusion makes the list the first-50 removal followed by one forged item of the target class, 49 shorter net, and changes nothing else |
| CraftingSystem.FuseCounts | CraftingSystem.tsx:110-142 | below the top tier the source class loses 50 and the target class gains 1; at the top tier the class loses 49 net |
| CraftingSystem.FusionCounts | CraftingSystem.tsx:97-145 | the same class counts hold for every successful fusion |
| CraftingSystem.Forge | CraftingSystem.tsx:41-95 | the handler reports success iff the check passed, commits `Forged` on success and leaves the state unchanged on failure |
| CraftingSystem.Fusion | CraftingSystem.tsx:97-145 | the handler reports success iff 50 items of the class exist, commits `Fused` on success and leaves the state unchanged on failure |
| PetSystem.ActivePet | PetSystem.tsx:36 | `find` returns the first pet whose id equals the active id, and fails iff there is none or no id is set |
| PetSystem.Outfitted | PetSystem.tsx:60-62 | food adds 0.1 level and 20 XP; gear or a decoration is appended to its own list; every other field of the pet is unchanged |
| PetSystem.Purchased | PetSystem.tsx:38-78 | short XP fails first; then a missing active pet fails; a success spends exactly the cost, leaves XP non-negative, outfits exactly the pets with the active id, keeps the list's length and order, and changes nothing else |
| PetSystem.PurchaseGuards | PetSystem.tsx:39-55 | a purchase succeeds iff XP covers the cost and some pet carries the active id; success with a non-negative cost keeps the state invariant, including XP in 0..99 |
| PetSystem.PurchaseReachesActivePet | PetSystem.tsx:58-65 | the pet that `find` returns is the one that gets outfitted |
| PetSystem.BuyItem | PetSystem.tsx:38-78 | the handler returns the refusal reason and leaves the state unchanged, or commits `Purchased` |
| MainsTracker.MainsAward | MainsTracker.tsx:56-63 | a count that does not parse or is at most 0 earns nothing; a valid count earns exactly 25 XP per answer, always positive |
| MainsTracker.MainsAwardOfCount | MainsTracker.tsx:58-62 | typing a positive count in decimal earns 25 times it; typing 0 earns nothing |
| MainsTracker.MainsAwardSkipsText | MainsTracker.tsx:58 | " 4 answers" parses as 4 and earns 100 XP |
| MainsTracker.MainsAwardRejectsNegative | MainsTracker.tsx:59 | "-2" earns nothing |
| MainsTracker.MainsForm.constructor | MainsTracker.tsx:53 | the answer field starts empty |
| MainsTracker.MainsForm.HandleSubmit | MainsTracker.tsx:56-65 | a valid count is awarded once, as an untyped completion, and the field is cleared; otherwise neither the field nor the stats change |
| ProfileSection.MonthToken | ProfileSection.tsx:34 | the token is digits with exactly one `-`, placed right after the year's digits |
| ProfileSection.MonthTokenInjective | ProfileSection.tsx:34 | two different year-month pairs never give the same token |
| ProfileSection.PickSpecies | ProfileSection.tsx:37 | the drawn species is one of the five |
| ProfileSection.MonthlyReward | ProfileSection.tsx:32-60 | logged out, nothing changes; logged in, one pet is granted iff the stored token differs from this month's; the granted pet is appended at level 1 with no XP, gear or decorations; the token is recorded |
| ProfileSection.MonthlyRewardIdempotent | ProfileSection.tsx:36-52 | a second check with the same token changes nothing |
| ProfileSection.NextMonthGrantsAgain | ProfileSection.tsx:34-52 | after a grant, a check in any other year-month grants another pet |
| ProfileSection.LoggedIn | ProfileSection.tsx:80-84 | login replaces the pet list with one fresh level-1 pet and makes it the active pet, which `find` then returns |
| ProfileSection.PurchaseAfterLogin | ProfileSection.tsx:80-84 | right after login, any purchase the XP covers succeeds and outfits the first pet |
| ProfileSection.Profile.constructor | ProfileSection.tsx:27 | the player starts logged out |
| ProfileSection.Profile.CheckMonthlyReward | ProfileSection.tsx:32-60 | the effect commits `MonthlyReward` for this month's token |
| ProfileSection.Profile.AppleLogin | ProfileSection.tsx:62-92 | login sets the logged-in flag and commits `LoggedIn` |
| StoryMap.LastReached | StoryMap.tsx:12 | the reverse `find` returns the last segment whose level is reached, or none when no segment is reached |
| StoryMap.FirstAbove | StoryMap.tsx:13 | `find` returns the first segment above the level, or none when no segment is |
| StoryMap.CurrentSegment | StoryMap.tsx:12 | the current segment is one of the table's segments, and from level 1 on its level is reached |
| StoryMap.NextSegment | StoryMap.tsx:13 | the next segment, when there is one, is a table segment above the level; when there is none, no segment is above the level |
| StoryMap.CurrentIndex | StoryMap.tsx:12 | the current segment, with its fallback, is a valid table index |
| StoryMap.CurrentIsLastReached | StoryMap.tsx:12 | from level 1 on, the current segment is reached and no later one is; below level 1 it is the first segment |
| StoryMap.NextAbsentIffFinal | StoryMap.tsx:13 | there is no next segment iff the level is at least 500 |
| StoryMap.CurrentPrecedesNext | StoryMap.tsx:12-13 | from level 1 on, when a next segment exists, the current level lies between the two segments and the next one directly follows the current one |
| SkinSelector.IndexOf | SkinSelector.tsx:45 | `indexOf` gives the first matching index, or -1 iff there is no match |
| SkinSelector.ChapterNumber | SkinSelector.tsx:20-45 | the chapter lies in 1..8 and counts, from 1, the table position of the current segment |
| SkinSelector.ChapterInRange | SkinSelector.tsx:20-45 | the chapter shown is the current segment's position counted from 1, and lies in 1..8 |
| SkinSelector.UnlockFlags | SkinSelector.tsx:68-69 | there is one unlock flag per skin |
| SkinSelector.UnlocksArePrefix | SkinSelector.tsx:68-69 | unlocked skins form a prefix of the table, and from level 1 on the first skin is unlocked |
| SkinSelector.UnlocksMonotone | SkinSelector.tsx:69 | raising the level never locks a skin again; `IsUnlocked`, the one comparison `level >= skin.level`, is specified by this lemma and `UnlocksArePrefix` |
| JsNumbers.TrimStart | Home.tsx:165 | `parseInt` skips a leading run of whitespace and keeps the rest |
| JsNumbers.DigitPrefix | Home.tsx:165 | `parseInt` reads the longest run of digits |
| JsNumbers.NatToString | ProfileSection.tsx:34 | the decimal rendering of a number is non-empty, all digits, and starts with 0 only for 0 itself |
| JsNumbers.NatToStringInjective | ProfileSection.tsx:34 | different numbers render differently |
| JsNumbers.ParseInt | Home.tsx:165 | blank input gives `NaN`; a negative result needs a leading `-`; input starting with a decimal digit and no `0x` prefix gives a non-negative number |
| JsNumbers.ParseIntOfDecimal | MainsTracker.tsx:58 | a non-empty run of decimal digits is read as that decimal number |
| JsNumbers.ParseIntOfNatToString | MainsTracker.tsx:58 | `parseInt` reads back every rendered number |

## Left out

- Rendering is not modelled: JSX, dialogs, charts, animation and the mock chart data.
- Toasts and confetti are not modelled; they do not touch the state.
- The timers are not modelled. The one-minute interval of the boss check becomes `BossPenaltyTick`, called with the clock reading. Its gate, `isBossBattleTime()` read at render time, is not modelled, because it depends on when React re-renders. The one-second login delay is dropped.
- Home.HomeState.BossPenaltyTick: the source gives no at-most-once guarantee for the penalty, and the model claims none. `PenaltyCompounds` shows that two ticks after 09:30 take 600 XP.
- Floating point is not modelled. Pet levels are integer hundredths. The `% 1` progress display and the percentage level progress are not modelled.
- `parseInt` is modelled on integers. Precision loss above 2^53, `Infinity`, and `-0` (which `|| 0` turns into 0 anyway) are not modelled.
- The rendered-versus-latest state difference is not modelled. The forge, fusion and shop guards, and the monthly-pet check of `lastPetMonthlyReward`, read the rendered `stats` but apply to the latest `prev`. The model checks and applies on the same record, as a single writer sees it.
- The React batching of `handleToggleTask` is not modelled. It calls `handleTaskCompletion` inside the `setTasks` updater. The model completes each matching open task in list order.
- ProfileSection.MonthToken: the year is a natural number; negative years are not modelled.
- PetSystem.PurchaseGuards: the invariant part holds for a non-negative cost only, since a negative cost would raise XP past 99 without a level-up; the shop's two buttons pass 50 and 150.
- The essay-date comparison treats `toDateString()` as an opaque string parameter.
- SkinSelector.IsUnlocked: a one-comparison predicate with no `ensures` of its own; its properties are the lemmas `UnlocksMonotone` and `UnlocksArePrefix`.
- The poem and painting logging is not modelled; it reads the page's DOM and changes no game state.
- `handleAddTask` is not modelled; it is list bookkeeping for the form.
- `MILESTONE_REWARDS` and `SPECIAL_TRIGGERS` are not modelled; no rule ever evaluates them.
- The daily and weekly counters only grow; the source has no reset.
- `currentStreak`, `maxStreak`, `unlockedSkins`, `currentSkin` and `xpToNextLevel` are kept in the record but no handler writes them.
- The task `category` argument of a completion is not modelled; no rule reads it.
