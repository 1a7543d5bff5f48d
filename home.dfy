/**
 * The progression engine of the home screen: completing a task (XP and level
 * roll-over, radar, resource drops, pet growth), toggling a task, logging
 * essays, and the Wednesday boss penalty.
 */
module Home {
  import opened Wrappers
  import opened GameLogic
  import opened JsNumbers

  // ---------------------------------------------------------------------------
  // The reward tables of a completion
  // ---------------------------------------------------------------------------

  /** The radar axis a completion of type `t` bumps (no type: a Mains answer). */
  function AxisOf(t: Option<TaskType>): Axis {
    match t
    case None => MainsAxis
    case Some(GS) => GSAxis
    case Some(Optional) => OptionalAxis
    case Some(Essay) => EssayAxis
    case Some(Hobby) => HobbiesAxis
  }

  /** How much that axis is bumped. */
  function Bump(t: Option<TaskType>): nat {
    match t
    case None => 8
    case Some(Essay) => 10
    case Some(_) => 5
  }

  /** Raise one radar axis by `amount`, capped at 100. */
  function Raise(r: Radar, a: Axis, amount: int): (q: Radar)
    ensures forall b :: Score(q, b) == if b == a then Min(100, Score(r, a) + amount) else Score(r, b)
    ensures amount >= 0 && RadarOk(r) ==> RadarOk(q)
  {
    match a
    case GSAxis => r.(gs := Min(100, r.gs + amount))
    case OptionalAxis => r.(optional := Min(100, r.optional + amount))
    case EssayAxis => r.(essay := Min(100, r.essay + amount))
    case MainsAxis => r.(mains := Min(100, r.mains + amount))
    case HobbiesAxis => r.(hobbies := Min(100, r.hobbies + amount))
  }

  /** Types that drop Iron Ingot (and, on a lucky draw, Ancient Manuscript). */
  predicate ForgeBranch(t: Option<TaskType>) {
    t.None? || t == Some(GS) || t == Some(Optional)
  }

  /** Units of `res` a completion of type `t` drops. */
  function Gain(res: Resource, t: Option<TaskType>, roll: Roll, levelRose: bool): nat {
    match res
    case IronIngot => if ForgeBranch(t) then 1 else 0
    case AncientManuscript => if ForgeBranch(t) && roll > 0.7 then 1 else 0
    case Fire => if t.None? || t == Some(Essay) then 1 else 0
    case Stardust => if t == Some(Hobby) then 1 else 0
    case DragonScale => if levelRose then 1 else 0
  }

  /** A Mains answer grows the active pet by 0.05 level and 10 XP. */
  function MainsGrowth(p: Pet): Pet {
    p.(level := p.level + 5, xp := p.xp + 10)
  }

  /** JavaScript truthiness of `activePetId`: set and not the empty string. */
  predicate IsTruthy(id: Option<string>) {
    id.Some? && id.value != ""
  }

  // ---------------------------------------------------------------------------
  // Completing a task
  // ---------------------------------------------------------------------------

  /** Level and XP after an award: the XP overflow rolls into whole levels. */
  datatype Progress = Progress(level: int, xp: int)

  function Rollover(level: int, xp: int, award: int): (p: Progress)
    ensures LevelXpReq * p.level + p.xp == LevelXpReq * level + xp + award
    ensures p.xp < LevelXpReq
    ensures xp + award >= 0 ==> 0 <= p.xp && p.level == level + (xp + award) / LevelXpReq
    ensures xp + award < 0 ==> p.level == level && p.xp == xp + award
    ensures p.level > level <==> xp + award >= LevelXpReq
  {
    var total := xp + award;
    if total >= LevelXpReq then Progress(level + total / LevelXpReq, total % LevelXpReq)
    else Progress(level, total)
  }

  /** The inventory after the drops of a completion of type `t`. */
  function Drops(inv: map<Resource, int>, t: Option<TaskType>, roll: Roll, levelRose: bool): (r: map<Resource, int>)
    requires Stocked(inv)
    ensures Stocked(r)
    ensures r[IronIngot] == inv[IronIngot] + (if ForgeBranch(t) then 1 else 0)
    ensures r[AncientManuscript] == inv[AncientManuscript] + (if ForgeBranch(t) && roll > 0.7 then 1 else 0)
    ensures r[Fire] == inv[Fire] + (if t.None? || t == Some(Essay) then 1 else 0)
    ensures r[Stardust] == inv[Stardust] + (if t == Some(Hobby) then 1 else 0)
    ensures r[DragonScale] == inv[DragonScale] + (if levelRose then 1 else 0)
    ensures InventoryOk(inv) ==> InventoryOk(r)
  {
    map res | res in inv :: inv[res] + Gain(res, t, roll, levelRose)
  }

  /** Two complete inventories with the same five counts are the same. */
  lemma InventoryExtensionality(a: map<Resource, int>, b: map<Resource, int>)
    requires Stocked(a) && Stocked(b)
    requires a[IronIngot] == b[IronIngot] && a[Fire] == b[Fire] && a[AncientManuscript] == b[AncientManuscript]
    requires a[Stardust] == b[Stardust] && a[DragonScale] == b[DragonScale]
    ensures a == b
  {
    forall r | r in a || r in b
      ensures r in a && r in b && a[r] == b[r]
    {
      match r
      case IronIngot =>
      case Fire =>
      case AncientManuscript =>
      case Stardust =>
      case DragonScale =>
    }
  }

  /** The record a completion worth `award` XP of type `t` commits. */
  function Completed(s: UserStats, award: int, t: Option<TaskType>, roll: Roll): (r: UserStats)
    requires Stocked(s.inventory)
    ensures Stocked(r.inventory)
  {
    var p := Rollover(s.level, s.xp, award);
    s.(level := p.level, xp := p.xp,
       tasksCompleted := s.tasksCompleted + 1,
       dailyTaskCount := s.dailyTaskCount + 1,
       weeklyTaskCount := s.weeklyTaskCount + 1,
       radarData := Raise(s.radarData, AxisOf(t), Bump(t)),
       inventory := Drops(s.inventory, t, roll, p.level > s.level),
       pets := if t.None? && IsTruthy(s.activePetId) then UpdatePets(s.pets, s.activePetId.value, MainsGrowth) else s.pets)
  }

  /**
   * A completion counts one more task, today and this week; carries the award
   * into levels of 100 XP; raises the type's radar axis, capped at 100; adds
   * the type's drops; grows the active pet on a Mains answer; and changes
   * nothing else.
   */
  lemma CompletedSpec(s: UserStats, award: int, t: Option<TaskType>, roll: Roll)
    requires Stocked(s.inventory)
    ensures var r := Completed(s, award, t, roll);
      && r.tasksCompleted == s.tasksCompleted + 1
      && r.dailyTaskCount == s.dailyTaskCount + 1 && r.weeklyTaskCount == s.weeklyTaskCount + 1
      && LevelXpReq * r.level + r.xp == LevelXpReq * s.level + s.xp + award
      && r.xp < LevelXpReq
      && (s.xp + award >= 0 ==> 0 <= r.xp && r.level == s.level + (s.xp + award) / LevelXpReq)
      && (s.xp + award < 0 ==> r.level == s.level && r.xp == s.xp + award)
      && (r.level > s.level <==> s.xp + award >= LevelXpReq)
      && (forall a :: Score(r.radarData, a) ==
                      if a == AxisOf(t) then Min(100, Score(s.radarData, a) + Bump(t)) else Score(s.radarData, a))
      && r.inventory == Drops(s.inventory, t, roll, r.level > s.level)
      && |r.pets| == |s.pets|
      && (forall i :: 0 <= i < |s.pets| ==>
                      r.pets[i] == if t.None? && IsTruthy(s.activePetId) && s.pets[i].id == s.activePetId.value
                                   then MainsGrowth(s.pets[i]) else s.pets[i])
      && r == s.(level := r.level, xp := r.xp, tasksCompleted := r.tasksCompleted,
                 dailyTaskCount := r.dailyTaskCount, weeklyTaskCount := r.weeklyTaskCount,
                 radarData := r.radarData, inventory := r.inventory, pets := r.pets)
  {
  }

  /** A completion with a non-negative resulting XP keeps every state invariant. */
  lemma CompletionKeepsInvariant(s: UserStats, award: int, t: Option<TaskType>, roll: Roll)
    requires Invariant(s) && s.xp + award >= 0
    ensures Invariant(Completed(s, award, t, roll))
  {
    var r := Completed(s, award, t, roll);
    CompletedSpec(s, award, t, roll);
    assert r.level >= s.level;
    assert RadarOk(r.radarData) by {
      assert Raise(s.radarData, AxisOf(t), Bump(t)) == r.radarData;
    }
  }

  /** `toggle` applied to the tasks with that id. */
  function Flip(task: Task, id: string): Task {
    if task.id == id then task.(completed := !task.completed) else task
  }

  /** `tasks.map(...)` of a toggle: only the tasks with that id flip. */
  function ToggleAll(tasks: seq<Task>, id: string): (r: seq<Task>)
    ensures |r| == |tasks|
    ensures forall k :: 0 <= k < |tasks| ==> r[k] == tasks[k].(completed := r[k].completed)
    ensures forall k :: 0 <= k < |tasks| ==> (r[k].completed <==> (tasks[k].id == id) != tasks[k].completed)
  {
    seq(|tasks|, k requires 0 <= k < |tasks| => Flip(tasks[k], id))
  }

  /** `id` names exactly one task, the one at `k`. */
  ghost predicate UniqueAt(tasks: seq<Task>, id: string, k: int) {
    0 <= k < |tasks| && tasks[k].id == id && forall j :: 0 <= j < |tasks| && j != k ==> tasks[j].id != id
  }

  /** The stats after the `map` callback sees one task: completed when it goes from open to done. */
  function ToggleStep(s: UserStats, t: Task, id: string, roll: Roll): (r: UserStats)
    requires Stocked(s.inventory)
    ensures Stocked(r.inventory)
  {
    if t.id == id && !t.completed then Completed(s, t.xpValue, Some(t.taskType), roll) else s
  }

  /**
   * The stats after the toggle: each task going from open to done is
   * completed, in list order. `rolls[i]` is the `Math.random()` draw of the
   * completion of task `i`; it goes unused when task `i` is not completed.
   */
  function ToggleStats(s: UserStats, tasks: seq<Task>, id: string, rolls: seq<Roll>): (r: UserStats)
    requires Stocked(s.inventory) && |rolls| == |tasks|
    ensures Stocked(r.inventory)
  {
    if tasks == [] then s
    else
      var n := |tasks| - 1;
      ToggleStep(ToggleStats(s, tasks[..n], id, rolls[..n]), tasks[n], id, rolls[n])
  }

  /** The stats after one more task of the list are one `map` callback further. */
  lemma ToggleStatsSnoc(s: UserStats, tasks: seq<Task>, id: string, rolls: seq<Roll>, i: nat)
    requires Stocked(s.inventory) && |rolls| == |tasks| && i < |tasks|
    ensures ToggleStats(s, tasks[..i + 1], id, rolls[..i + 1])
            == ToggleStep(ToggleStats(s, tasks[..i], id, rolls[..i]), tasks[i], id, rolls[i])
  {
    assert tasks[..i + 1][..i] == tasks[..i];
    assert rolls[..i + 1][..i] == rolls[..i];
  }

  /** Toggling tasks that are all done already (un-completing them) awards and removes nothing. */
  lemma {:induction false} ToggleStatsUnchanged(s: UserStats, tasks: seq<Task>, id: string, rolls: seq<Roll>)
    requires Stocked(s.inventory) && |rolls| == |tasks|
    requires forall k :: 0 <= k < |tasks| && tasks[k].id == id ==> tasks[k].completed
    ensures ToggleStats(s, tasks, id, rolls) == s
  {
    if tasks != [] {
      var n := |tasks| - 1;
      ToggleStatsUnchanged(s, tasks[..n], id, rolls[..n]);
    }
  }

  /** Toggling the one open task with the id completes it once, with its XP, its type and its own draw. */
  lemma {:induction false} ToggleStatsUnique(s: UserStats, tasks: seq<Task>, id: string, rolls: seq<Roll>, k: int)
    requires Stocked(s.inventory) && |rolls| == |tasks| && UniqueAt(tasks, id, k) && !tasks[k].completed
    ensures ToggleStats(s, tasks, id, rolls) == Completed(s, tasks[k].xpValue, Some(tasks[k].taskType), rolls[k])
  {
    var n := |tasks| - 1;
    var prefix := tasks[..n];
    if k == n {
      ToggleStatsUnchanged(s, prefix, id, rolls[..n]);
    } else {
      assert UniqueAt(prefix, id, k);
      ToggleStatsUnique(s, prefix, id, rolls[..n], k);
    }
  }

  /** With non-negative task XP values, a toggle keeps every state invariant. */
  lemma {:induction false} ToggleStatsKeepsInvariant(s: UserStats, tasks: seq<Task>, id: string, rolls: seq<Roll>)
    requires Invariant(s) && |rolls| == |tasks| && forall k :: 0 <= k < |tasks| ==> tasks[k].xpValue >= 0
    ensures Invariant(ToggleStats(s, tasks, id, rolls))
  {
    if tasks != [] {
      var n := |tasks| - 1;
      var prefix, t := tasks[..n], tasks[n];
      ToggleStatsKeepsInvariant(s, prefix, id, rolls[..n]);
      var before := ToggleStats(s, prefix, id, rolls[..n]);
      if t.id == id && !t.completed {
        CompletionKeepsInvariant(before, t.xpValue, Some(t.taskType), rolls[n]);
      }
      assert ToggleStats(s, tasks, id, rolls) == ToggleStep(before, t, id, rolls[n]);
    }
  }

  // ---------------------------------------------------------------------------
  // Essays
  // ---------------------------------------------------------------------------

  datatype EssayEntry = EssayEntry(topic: string, marks: string)

  /** `parseInt(marks) || 0`: marks that do not parse count as 0. */
  function MarksValue(marks: string): (v: int)
    ensures TrimStart(marks) == [] ==> v == 0
    ensures v != 0 ==> ParseInt(marks) == Some(v)
  {
    match ParseInt(marks)
    case None => 0
    case Some(v) => v
  }

  /** Marks typed as a decimal number count as that number. */
  lemma MarksOfRendered(n: nat)
    ensures MarksValue(NatToString(n)) == n
  {
    ParseIntOfNatToString(n);
  }

  /** Twice the sum of the marks of the entries. */
  function EssayTotal(entries: seq<EssayEntry>): (t: int)
    ensures |entries| == 1 ==> t == 2 * MarksValue(entries[0].marks)
  {
    if entries == [] then 0
    else
      var prefix := entries[..|entries| - 1];
      assert |entries| == 1 ==> prefix == [];
      EssayTotal(prefix) + MarksValue(entries[|entries| - 1].marks) * 2
  }

  /** The `forEach` loop that adds up the essay XP. */
  method EssayXp(entries: seq<EssayEntry>) returns (totalXp: int)
    ensures totalXp == EssayTotal(entries)
  {
    totalXp := 0;
    for i := 0 to |entries|
      invariant totalXp == EssayTotal(entries[..i])
    {
      var marks := MarksValue(entries[i].marks);
      assert entries[..i + 1][..i] == entries[..i];
      totalXp := totalXp + marks * 2;
    }
    assert entries[..|entries|] == entries;
  }

  /** The total of a non-empty form is the total before its last entry plus twice that entry's marks. */
  lemma EssayTotalSnoc(entries: seq<EssayEntry>)
    requires entries != []
    ensures EssayTotal(entries) == EssayTotal(entries[..|entries| - 1]) + MarksValue(entries[|entries| - 1].marks) * 2
  {
  }

  /** Adding twice a mark keeps a total even. */
  lemma AddTwiceKeepsEven(total: int, m: int)
    requires total % 2 == 0
    ensures (total + m * 2) % 2 == 0
  {
    assert total + m * 2 == 2 * (total / 2 + m);
  }

  /** Every essay award is even. */
  lemma {:induction false} EssayTotalEven(entries: seq<EssayEntry>)
    ensures EssayTotal(entries) % 2 == 0
  {
    if entries == [] {
      assert EssayTotal(entries) == 0;
    } else {
      var prefix := entries[..|entries| - 1];
      EssayTotalEven(prefix);
      EssayTotalSnoc(entries);
      var total, m := EssayTotal(prefix), MarksValue(entries[|entries| - 1].marks);
      AddTwiceKeepsEven(total, m);
      assert EssayTotal(entries) == total + m * 2;
    }
  }

  /** A form whose marks are all blank awards nothing. */
  lemma {:induction false} BlankEssayAwardsNothing(entries: seq<EssayEntry>)
    requires forall i :: 0 <= i < |entries| ==> TrimStart(entries[i].marks) == []
    ensures EssayTotal(entries) == 0
  {
    if entries != [] {
      BlankEssayAwardsNothing(entries[..|entries| - 1]);
    }
  }

  /** Without negative marks the essay award is never negative. */
  lemma {:induction false} EssayTotalNonNegative(entries: seq<EssayEntry>)
    requires forall i :: 0 <= i < |entries| ==> MarksValue(entries[i].marks) >= 0
    ensures EssayTotal(entries) >= 0
  {
    if entries != [] {
      EssayTotalNonNegative(entries[..|entries| - 1]);
    }
  }

  /** A single negative mark makes the award negative: the XP is then lowered. */
  lemma NegativeMarksLowerXp()
    ensures EssayTotal([EssayEntry("Ethics", "-10")]) == -20
  {
    assert !IsJsWhitespace('-');
    assert TrimStart("-10") == "-10";
    assert "-10"[1..] == "10";
    DigitLeadNotTrimmed("10");
    ParseIntOfDecimal("10");
    assert DigitsValue("10", 10) == 10 by {
      assert "10"[..1] == "1";
      assert DigitsValue("1", 10) == 1 by { assert "1"[..0] == ""; }
    }
    assert ParseInt("-10") == Some(-10);
    var e := [EssayEntry("Ethics", "-10")];
    assert e[..0] == [];
  }

  // ---------------------------------------------------------------------------
  // The boss penalty
  // ---------------------------------------------------------------------------

  /** The penalty check run by the boss-window timer on each tick. */
  function Penalized(s: UserStats, utcHour: Hour, utcMinute: Minute, today: string,
                     lastEssayDate: Option<string>): (r: UserStats)
    ensures r == s.(xp := r.xp)
    ensures utcHour == 9 && utcMinute >= 30 && lastEssayDate != Some(today) ==> r.xp == Max(0, s.xp - 300)
    ensures !(utcHour == 9 && utcMinute >= 30) || lastEssayDate == Some(today) ==> r == s
    ensures s.xp >= 0 ==> 0 <= r.xp <= s.xp
    ensures Invariant(s) ==> Invariant(r)
  {
    if utcHour == 9 && utcMinute >= 30 && lastEssayDate != Some(today) then s.(xp := Max(0, s.xp - 300))
    else s
  }

  /**
   * The penalty is not applied once per day: two ticks after 09:30 on a day
   * without an essay take 600 XP.
   */
  lemma PenaltyCompounds(s: UserStats, m1: Minute, m2: Minute, today: string, lastEssayDate: Option<string>)
    requires m1 >= 30 && m2 >= 30 && lastEssayDate != Some(today) && s.xp >= 0
    ensures Penalized(Penalized(s, 9, m1, today, lastEssayDate), 9, m2, today, lastEssayDate).xp == Max(0, s.xp - 600)
  {
  }

  /** The radar block of the completion handler: one `if` per type. */
  method BumpRadar(radarData: Radar, t: Option<TaskType>) returns (radar: Radar)
    ensures radar == Raise(radarData, AxisOf(t), Bump(t))
  {
    radar := radarData;
    if t == Some(GS) { radar := radar.(gs := Min(100, radar.gs + 5)); }
    if t == Some(Optional) { radar := radar.(optional := Min(100, radar.optional + 5)); }
    if t == Some(Essay) { radar := radar.(essay := Min(100, radar.essay + 10)); }
    if t == Some(Hobby) { radar := radar.(hobbies := Min(100, radar.hobbies + 5)); }
    if t.None? { radar := radar.(mains := Min(100, radar.mains + 8)); }
  }

  /** The drop block of the completion handler: one `if` per resource rule. */
  method AddDrops(inventory: map<Resource, int>, t: Option<TaskType>, roll: Roll, levelRose: bool)
    returns (nextInventory: map<Resource, int>)
    requires Stocked(inventory)
    ensures nextInventory == Drops(inventory, t, roll, levelRose)
  {
    nextInventory := inventory;
    if t == Some(GS) || t == Some(Optional) || t.None? {
      nextInventory := nextInventory[IronIngot := nextInventory[IronIngot] + 1];
      if roll > 0.7 {
        nextInventory := nextInventory[AncientManuscript := nextInventory[AncientManuscript] + 1];
      }
    }
    if t.None? || t == Some(Essay) { nextInventory := nextInventory[Fire := nextInventory[Fire] + 1]; }
    if t == Some(Hobby) { nextInventory := nextInventory[Stardust := nextInventory[Stardust] + 1]; }
    if levelRose { nextInventory := nextInventory[DragonScale := nextInventory[DragonScale] + 1]; }
    InventoryExtensionality(nextInventory, Drops(inventory, t, roll, levelRose));
  }

  // ---------------------------------------------------------------------------
  // The home screen's state
  // ---------------------------------------------------------------------------

  /**
   * The home screen: the shared stats cell plus the task list, the essay
   * form and the date of the last essay submission.
   */
  class HomeState {
    const state: StatsState
    var tasks: seq<Task>
    var essayDetails: seq<EssayEntry>
    var lastEssayDate: Option<string>

    constructor (state: StatsState)
      ensures this.state == state && tasks == [] && essayDetails == [] && lastEssayDate == None
    {
      this.state := state;
      tasks := [];
      essayDetails := [];
      lastEssayDate := None;
    }

    /** Commit a completion worth `xp` XP of type `t` (no type: a Mains answer). */
    method TaskCompletion(xp: int, t: Option<TaskType>, roll: Roll)
      requires Stocked(state.stats.inventory)
      modifies state
      ensures state.stats == Completed(old(state.stats), xp, t, roll)
    {
      var prev := state.stats;
      var newTotalTasks := prev.tasksCompleted + 1;
      var newDailyCount := prev.dailyTaskCount + 1;
      var newWeeklyCount := prev.weeklyTaskCount + 1;

      var newXp := prev.xp + xp;
      var newLevel := prev.level;
      if newXp >= LevelXpReq {
        newLevel := newLevel + newXp / LevelXpReq;
        newXp := newXp % LevelXpReq;
      }
      assert Progress(newLevel, newXp) == Rollover(prev.level, prev.xp, xp);

      var radar := BumpRadar(prev.radarData, t);
      var nextInventory := AddDrops(prev.inventory, t, roll, newLevel > prev.level);

      var nextPets := prev.pets;
      if t.None? && IsTruthy(prev.activePetId) {
        nextPets := UpdatePets(prev.pets, prev.activePetId.value, MainsGrowth);
      }

      state.stats := prev.(xp := newXp, level := newLevel, tasksCompleted := newTotalTasks,
                           dailyTaskCount := newDailyCount, weeklyTaskCount := newWeeklyCount,
                           radarData := radar, inventory := nextInventory, pets := nextPets);
    }

    /** The `map` callback of a toggle: flip a task with the id, completing it first if it was open. */
    method ToggleOne(t: Task, id: string, roll: Roll) returns (u: Task)
      requires Stocked(state.stats.inventory)
      modifies state
      ensures u == Flip(t, id)
      ensures state.stats == ToggleStep(old(state.stats), t, id, roll)
    {
      if t.id == id {
        if !t.completed {
          TaskCompletion(t.xpValue, Some(t.taskType), roll);
        }
        return t.(completed := !t.completed);
      }
      return t;
    }

    /**
     * `handleToggleTask`: flip the `completed` flag of the tasks with that
     * id; a task going from open to done is completed as above.
     */
    method ToggleTask(id: string, rolls: seq<Roll>)
      requires Stocked(state.stats.inventory) && |rolls| == |tasks|
      modifies this, state
      ensures tasks == ToggleAll(old(tasks), id)
      ensures state.stats == ToggleStats(old(state.stats), old(tasks), id, rolls)
      ensures essayDetails == old(essayDetails) && lastEssayDate == old(lastEssayDate)
    {
      var tasks0 := tasks;
      ghost var s0 := state.stats;
      var next: seq<Task> := [];
      for i := 0 to |tasks0|
        invariant tasks == tasks0
        invariant essayDetails == old(essayDetails) && lastEssayDate == old(lastEssayDate)
        invariant |next| == i && forall k :: 0 <= k < i ==> next[k] == Flip(tasks0[k], id)
        invariant Stocked(s0.inventory) && state.stats == ToggleStats(s0, tasks0[..i], id, rolls[..i])
      {
        ToggleStatsSnoc(s0, tasks0, id, rolls, i);
        var u := ToggleOne(tasks0[i], id, rolls[i]);
        next := next + [u];
      }
      assert tasks0[..|tasks0|] == tasks0 && rolls[..|rolls|] == rolls;
      tasks := next;
      assert tasks == ToggleAll(tasks0, id);
    }

    /** Award twice the sum of the marks as an Essay completion and record today's date. */
    method EssaySubmit(today: string, roll: Roll)
      requires Stocked(state.stats.inventory)
      modifies this, state
      ensures state.stats == Completed(old(state.stats), EssayTotal(old(essayDetails)), Some(Essay), roll)
      ensures lastEssayDate == Some(today) && essayDetails == [] && tasks == old(tasks)
    {
      var totalXp := EssayXp(essayDetails);
      TaskCompletion(totalXp, Some(Essay), roll);
      lastEssayDate := Some(today);
      essayDetails := [];
    }

    /** One tick of the boss-window timer. */
    method BossPenaltyTick(utcHour: Hour, utcMinute: Minute, today: string)
      modifies state
      ensures state.stats == Penalized(old(state.stats), utcHour, utcMinute, today, lastEssayDate)
    {
      if utcHour == 9 && utcMinute >= 30 {
        if lastEssayDate != Some(today) {
          state.stats := state.stats.(xp := Max(0, state.stats.xp - 300));
        }
      }
    }
  }
}
