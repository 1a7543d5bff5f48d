/**
 * The forge and the fusion altar: forging consumes a recipe's resources
 * all-or-nothing and may reveal a hidden reward; fusion turns the first 50
 * items of one class into one item of the next class.
 */
module CraftingSystem {
  import opened Wrappers
  import opened GameLogic
  import opened JsNumbers

  datatype CraftError = InsufficientMaterials | NeedMoreItems

  /** Items a fusion consumes, and the Divine-or-above count that arms the hidden-reward draw. */
  const FusionCost := 50
  const HiddenRewardThreshold := 50

  // ---------------------------------------------------------------------------
  // Forging
  // ---------------------------------------------------------------------------

  /**
   * `requirements.every(req => inventory[req.resource] >= req.count)`; a
   * resource missing from the inventory compares as `undefined`, which fails.
   */
  function Satisfies(inv: map<Resource, int>, reqs: seq<Requirement>): (ok: bool)
    ensures ok <==> forall i :: 0 <= i < |reqs| ==> reqs[i].resource in inv && inv[reqs[i].resource] >= reqs[i].count
  {
    reqs == []
    || (reqs[0].resource in inv && inv[reqs[0].resource] >= reqs[0].count && Satisfies(inv, reqs[1..]))
  }

  /** Total count of `res` that the requirements ask for. */
  function Demand(reqs: seq<Requirement>, res: Resource): int {
    if reqs == [] then 0
    else Demand(reqs[..|reqs| - 1], res) + (if reqs[|reqs| - 1].resource == res then reqs[|reqs| - 1].count else 0)
  }

  predicate DistinctResources(reqs: seq<Requirement>) {
    forall i, j :: 0 <= i < j < |reqs| ==> reqs[i].resource != reqs[j].resource
  }

  /** When no resource is listed twice, the demand for a resource is its one requirement's count, or 0. */
  lemma {:induction false} DemandOfDistinct(reqs: seq<Requirement>, res: Resource)
    requires DistinctResources(reqs)
    ensures forall i :: 0 <= i < |reqs| && reqs[i].resource == res ==> Demand(reqs, res) == reqs[i].count
    ensures (forall i :: 0 <= i < |reqs| ==> reqs[i].resource != res) ==> Demand(reqs, res) == 0
  {
    if reqs != [] {
      var prefix := reqs[..|reqs| - 1];
      DemandOfDistinct(prefix, res);
      if reqs[|reqs| - 1].resource == res {
        assert forall i :: 0 <= i < |prefix| ==> prefix[i].resource != res;
      }
    }
  }

  /** The inventory once every requirement is paid. */
  function Consumed(inv: map<Resource, int>, reqs: seq<Requirement>): (r: map<Resource, int>)
    ensures r.Keys == inv.Keys
  {
    map res | res in inv :: inv[res] - Demand(reqs, res)
  }

  /** The `forEach` loop that pays each requirement out of a copy of the inventory. */
  method ConsumeRequirements(inv: map<Resource, int>, reqs: seq<Requirement>) returns (next: map<Resource, int>)
    requires Stocked(inv)
    ensures next == Consumed(inv, reqs)
  {
    InventoryCovers(inv);
    next := inv;
    for i := 0 to |reqs|
      invariant next.Keys == inv.Keys
      invariant forall res :: res in inv ==> next[res] == inv[res] - Demand(reqs[..i], res)
    {
      assert reqs[..i + 1][..i] == reqs[..i];
      next := next[reqs[i].resource := next[reqs[i].resource] - reqs[i].count];
    }
    assert reqs[..|reqs|] == reqs;
  }

  /** What paying leaves of one resource: its count less its one requirement, never below 0. */
  lemma ConsumedAt(inv: map<Resource, int>, reqs: seq<Requirement>, res: Resource)
    requires InventoryOk(inv) && Satisfies(inv, reqs) && DistinctResources(reqs)
    ensures res in inv && Consumed(inv, reqs)[res] >= 0
    ensures forall i :: 0 <= i < |reqs| && reqs[i].resource == res ==> Consumed(inv, reqs)[res] == inv[res] - reqs[i].count
    ensures (forall i :: 0 <= i < |reqs| ==> reqs[i].resource != res) ==> Consumed(inv, reqs)[res] == inv[res]
  {
    InventoryCovers(inv);
    DemandOfDistinct(reqs, res);
    if exists i :: 0 <= i < |reqs| && reqs[i].resource == res {
      var i :| 0 <= i < |reqs| && reqs[i].resource == res;
      assert inv[reqs[i].resource] >= reqs[i].count;
    }
  }

  /**
   * Paying a recipe whose requirements are all met, with no resource listed
   * twice, takes exactly each requirement's count and leaves no count negative.
   */
  lemma ConsumedExactly(inv: map<Resource, int>, reqs: seq<Requirement>)
    requires InventoryOk(inv) && Satisfies(inv, reqs) && DistinctResources(reqs)
    ensures InventoryOk(Consumed(inv, reqs))
    ensures forall i :: 0 <= i < |reqs| ==> Consumed(inv, reqs)[reqs[i].resource] == inv[reqs[i].resource] - reqs[i].count
    ensures forall res :: res in inv && (forall i :: 0 <= i < |reqs| ==> reqs[i].resource != res) ==>
                         Consumed(inv, reqs)[res] == inv[res]
  {
    forall res: Resource
      ensures res in inv && Consumed(inv, reqs)[res] >= 0
      ensures forall i :: 0 <= i < |reqs| && reqs[i].resource == res ==> Consumed(inv, reqs)[res] == inv[res] - reqs[i].count
      ensures (forall i :: 0 <= i < |reqs| ==> reqs[i].resource != res) ==> Consumed(inv, reqs)[res] == inv[res]
    {
      ConsumedAt(inv, reqs, res);
    }
    assert Consumed(inv, reqs)[IronIngot] >= 0 && Consumed(inv, reqs)[Fire] >= 0;
    assert Consumed(inv, reqs)[AncientManuscript] >= 0 && Consumed(inv, reqs)[Stardust] >= 0;
    assert Consumed(inv, reqs)[DragonScale] >= 0;
  }

  /** Every catalog recipe lists each resource at most once. */
  lemma CatalogRecipesDistinct(recipe: Recipe)
    requires recipe in CraftRecipes
    ensures DistinctResources(recipe.requirements)
  {
    RecipesWellFormed();
  }

  /** A forged item: the recipe's fields, the id `<recipe id>-<now>`, and the forged flag. */
  function NewItem(recipe: Recipe, now: nat): CraftItem {
    CraftItem(recipe.id + "-" + NatToString(now), recipe.name, recipe.description, recipe.itemClass,
              recipe.requirements, true)
  }

  /** `filter(i => i.class === 'Divine' || i.class === 'Transcendental').length`. */
  function DivineOrAbove(items: seq<CraftItem>): (n: nat)
    ensures n == |OfClass(items, Divine)| + |OfClass(items, Transcendental)|
    ensures n <= |items|
  {
    if items == [] then 0
    else (if items[0].itemClass in {Divine, Transcendental} then 1 else 0) + DivineOrAbove(items[1..])
  }

  /** `HIDDEN_REWARDS.filter(r => !held.includes(r))`, from the given catalog. */
  function Unearned(catalog: seq<string>, held: seq<string>): (u: seq<string>)
    ensures forall x :: x in u <==> x in catalog && x !in held
    ensures |u| <= |catalog|
    ensures Distinct(catalog) ==> Distinct(u)
  {
    if catalog == [] then []
    else if catalog[0] in held then Unearned(catalog[1..], held)
    else
      var rest := Unearned(catalog[1..], held);
      assert Distinct(catalog) ==> catalog[0] !in catalog[1..];
      [catalog[0]] + rest
  }

  /**
   * Some reward stays unearned exactly while fewer than all ten are held,
   * so a winning draw past the threshold always reveals one until then.
   */
  lemma UnearnedWhileIncomplete(held: seq<string>)
    requires RewardsOk(held)
    ensures |Unearned(HiddenRewards, held)| == 0 <==> |held| == 10
  {
    HiddenRewardsDistinct();
    DistinctCardinality(held);
    DistinctCardinality(HiddenRewards);
    var u := Unearned(HiddenRewards, held);
    var h, all := set x | x in held, set x | x in HiddenRewards;
    assert h <= all;
    assert all == h + (all - h);
    assert |all| == |h| + |all - h|;
    assert all - h == set x | x in u;
    if |u| == 0 {
      assert all - h == {};
    } else {
      assert u[0] in all - h;
    }
  }

  /** The hidden-reward check of a successful forge. */
  function HiddenAfter(held: seq<string>, crafted: seq<CraftItem>, drawRoll: Roll, pickRoll: Roll): (r: seq<string>)
    ensures r == held || (|r| == |held| + 1 && r[..|held|] == held)
    ensures |r| == |held| + 1 <==>
            DivineOrAbove(crafted) >= HiddenRewardThreshold && drawRoll > 0.5 && |Unearned(HiddenRewards, held)| > 0
    ensures |r| == |held| + 1 ==> r[|held|] in HiddenRewards && r[|held|] !in held
    ensures RewardsOk(held) ==> RewardsOk(r)
  {
    if DivineOrAbove(crafted) >= HiddenRewardThreshold && drawRoll > 0.5 then
      var unearned := Unearned(HiddenRewards, held);
      if |unearned| > 0 then
        var reward := unearned[PickIndex(pickRoll, |unearned|)];
        AppendFresh(held, reward, HiddenRewards);
        held + [reward]
      else held
    else held
  }

  /** Appending a catalog entry not yet held keeps a list distinct and drawn from the catalog. */
  lemma AppendFresh(held: seq<string>, x: string, catalog: seq<string>)
    requires x in catalog && x !in held
    ensures (held + [x])[..|held|] == held && (held + [x])[|held|] == x
    ensures Distinct(held) ==> Distinct(held + [x])
    ensures (forall i :: 0 <= i < |held| ==> held[i] in catalog) ==>
            forall i :: 0 <= i < |held + [x]| ==> (held + [x])[i] in catalog
  {
    assert (held + [x])[..|held|] == held;
  }

  /** The record a forge commits, or why it refuses. */
  function Forged(s: UserStats, recipe: Recipe, now: nat, drawRoll: Roll, pickRoll: Roll): (r: Result<UserStats, CraftError>)
    ensures r.Failure? <==> !Satisfies(s.inventory, recipe.requirements)
    ensures r.Failure? ==> r.error == InsufficientMaterials
    ensures r.Success? ==>
      && r.value == s.(inventory := r.value.inventory, craftedItems := r.value.craftedItems,
                       hiddenRewards := r.value.hiddenRewards)
      && r.value.inventory == Consumed(s.inventory, recipe.requirements)
      && |r.value.craftedItems| == |s.craftedItems| + 1
      && r.value.craftedItems[..|s.craftedItems|] == s.craftedItems
      && r.value.craftedItems[|s.craftedItems|].itemClass == recipe.itemClass
      && r.value.craftedItems[|s.craftedItems|].name == recipe.name
      && r.value.craftedItems[|s.craftedItems|].isForged
      && r.value.hiddenRewards == HiddenAfter(s.hiddenRewards, r.value.craftedItems, drawRoll, pickRoll)
  {
    if !Satisfies(s.inventory, recipe.requirements) then Failure(InsufficientMaterials)
    else
      var crafted := s.craftedItems + [NewItem(recipe, now)];
      assert crafted[..|s.craftedItems|] == s.craftedItems;
      Success(s.(inventory := Consumed(s.inventory, recipe.requirements),
                 craftedItems := crafted,
                 hiddenRewards := HiddenAfter(s.hiddenRewards, crafted, drawRoll, pickRoll)))
  }

  /** A successful forge of a recipe that lists no resource twice keeps every state invariant. */
  lemma ForgeKeepsInvariant(s: UserStats, recipe: Recipe, now: nat, drawRoll: Roll, pickRoll: Roll)
    requires Invariant(s) && DistinctResources(recipe.requirements)
    ensures Forged(s, recipe, now, drawRoll, pickRoll).Success? ==> Invariant(Forged(s, recipe, now, drawRoll, pickRoll).value)
  {
    if Satisfies(s.inventory, recipe.requirements) {
      ConsumedExactly(s.inventory, recipe.requirements);
    }
  }

  // ---------------------------------------------------------------------------
  // Fusion
  // ---------------------------------------------------------------------------

  /** The items of class `cls`, in order. */
  function OfClass(items: seq<CraftItem>, cls: ItemClass): (r: seq<CraftItem>)
    ensures |r| <= |items|
    ensures forall x :: x in r <==> x in items && x.itemClass == cls
  {
    if items == [] then []
    else (if items[0].itemClass == cls then [items[0]] else []) + OfClass(items[1..], cls)
  }

  /** The items of any other class, in order. */
  function NotOfClass(items: seq<CraftItem>, cls: ItemClass): seq<CraftItem> {
    if items == [] then []
    else (if items[0].itemClass != cls then [items[0]] else []) + NotOfClass(items[1..], cls)
  }

  lemma OfClassCons(x: CraftItem, rest: seq<CraftItem>, cls: ItemClass)
    ensures OfClass([x] + rest, cls) == (if x.itemClass == cls then [x] else []) + OfClass(rest, cls)
    ensures NotOfClass([x] + rest, cls) == (if x.itemClass != cls then [x] else []) + NotOfClass(rest, cls)
  {
    assert ([x] + rest)[0] == x && ([x] + rest)[1..] == rest;
  }

  /** Drop the first `n` items of class `cls`, keeping everything else in order. */
  function DropFirstOfClass(items: seq<CraftItem>, cls: ItemClass, n: nat): (r: seq<CraftItem>)
    ensures |r| <= |items|
    ensures n == 0 ==> r == items
  {
    if items == [] then []
    else if items[0].itemClass == cls && n > 0 then DropFirstOfClass(items[1..], cls, n - 1)
    else [items[0]] + DropFirstOfClass(items[1..], cls, n)
  }

  /** Every item is of the class or of another one. */
  lemma {:induction false} ClassSplit(items: seq<CraftItem>, cls: ItemClass)
    ensures |items| == |OfClass(items, cls)| + |NotOfClass(items, cls)|
  {
    if items != [] {
      ClassSplit(items[1..], cls);
    }
  }

  /** Dropping keeps every item of another class, in order. */
  lemma {:induction false} DropKeepsOthers(items: seq<CraftItem>, cls: ItemClass, n: nat)
    ensures NotOfClass(DropFirstOfClass(items, cls, n), cls) == NotOfClass(items, cls)
  {
    if items != [] {
      var x, rest := items[0], items[1..];
      assert items == [x] + rest;
      if x.itemClass == cls && n > 0 {
        DropKeepsOthers(rest, cls, n - 1);
      } else {
        DropKeepsOthers(rest, cls, n);
        OfClassCons(x, DropFirstOfClass(rest, cls, n), cls);
      }
    }
  }

  /** The class items left after dropping `n` of them from `items`, or all of them if fewer. */
  predicate TrimsClass(items: seq<CraftItem>, cls: ItemClass, n: nat) {
    OfClass(DropFirstOfClass(items, cls, n), cls) == OfClass(items, cls)[Min(n, |OfClass(items, cls)|)..]
  }

  /** The inductive step when the first item is dropped. */
  lemma TrimsClassTake(x: CraftItem, rest: seq<CraftItem>, cls: ItemClass, n: nat)
    requires x.itemClass == cls && n > 0 && TrimsClass(rest, cls, n - 1)
    ensures TrimsClass([x] + rest, cls, n)
  {
    var items := [x] + rest;
    assert items[0] == x && items[1..] == rest;
    OfClassCons(x, rest, cls);
    var o := OfClass(rest, cls);
    assert DropFirstOfClass(items, cls, n) == DropFirstOfClass(rest, cls, n - 1);
    assert ([x] + o)[1 + Min(n - 1, |o|)..] == o[Min(n - 1, |o|)..];
  }

  /** The inductive step when the first item is kept. */
  lemma TrimsClassKeep(x: CraftItem, rest: seq<CraftItem>, cls: ItemClass, n: nat)
    requires !(x.itemClass == cls && n > 0) && TrimsClass(rest, cls, n)
    ensures TrimsClass([x] + rest, cls, n)
  {
    var items := [x] + rest;
    assert items[0] == x && items[1..] == rest;
    OfClassCons(x, rest, cls);
    var o := OfClass(rest, cls);
    var tail := DropFirstOfClass(rest, cls, n);
    assert DropFirstOfClass(items, cls, n) == [x] + tail;
    OfClassCons(x, tail, cls);
    if x.itemClass == cls {
      assert o[0..] == o && ([x] + o)[0..] == [x] + o;
    }
  }

  /** Dropping removes exactly the first `n` items of the class, or all of them if fewer. */
  lemma {:induction false} DropTrimsClass(items: seq<CraftItem>, cls: ItemClass, n: nat)
    ensures TrimsClass(items, cls, n)
  {
    if items != [] {
      var x, rest := items[0], items[1..];
      assert items == [x] + rest;
      if x.itemClass == cls && n > 0 {
        DropTrimsClass(rest, cls, n - 1);
        TrimsClassTake(x, rest, cls, n);
      } else {
        DropTrimsClass(rest, cls, n);
        TrimsClassKeep(x, rest, cls, n);
      }
    }
  }

  /**
   * The `filter` read position by position: an item survives unless it is of
   * class `cls` and fewer than `n` items of that class come before it.
   */
  function Survivors(items: seq<CraftItem>, cls: ItemClass, n: nat): seq<CraftItem> {
    if items == [] then []
    else
      var prefix, x := items[..|items| - 1], items[|items| - 1];
      Survivors(prefix, cls, n) + (if x.itemClass == cls && |OfClass(prefix, cls)| < n then [] else [x])
  }

  /** Appending `x` to `a` appends it to the result unless it is one of the first `n` of the class. */
  predicate SnocDrops(a: seq<CraftItem>, x: CraftItem, cls: ItemClass, n: nat) {
    DropFirstOfClass(a + [x], cls, n)
    == DropFirstOfClass(a, cls, n) + (if x.itemClass == cls && |OfClass(a, cls)| < n then [] else [x])
  }

  /** The inductive step of `DropSnoc` when the first item is dropped. */
  lemma SnocDropsTake(y: CraftItem, rest: seq<CraftItem>, x: CraftItem, cls: ItemClass, n: nat)
    requires y.itemClass == cls && n > 0 && SnocDrops(rest, x, cls, n - 1)
    ensures SnocDrops([y] + rest, x, cls, n)
  {
    var a := [y] + rest;
    assert a[0] == y && a[1..] == rest;
    assert (a + [x])[0] == y && (a + [x])[1..] == rest + [x];
    OfClassCons(y, rest, cls);
  }

  /** The inductive step of `DropSnoc` when the first item is kept. */
  lemma SnocDropsKeep(y: CraftItem, rest: seq<CraftItem>, x: CraftItem, cls: ItemClass, n: nat)
    requires !(y.itemClass == cls && n > 0) && SnocDrops(rest, x, cls, n)
    ensures SnocDrops([y] + rest, x, cls, n)
  {
    var a := [y] + rest;
    assert a[0] == y && a[1..] == rest;
    assert (a + [x])[0] == y && (a + [x])[1..] == rest + [x];
    OfClassCons(y, rest, cls);
    var tail := if x.itemClass == cls && |OfClass(a, cls)| < n then [] else [x];
    assert [y] + (DropFirstOfClass(rest, cls, n) + tail) == ([y] + DropFirstOfClass(rest, cls, n)) + tail;
  }

  /** Appending an item to the list appends it to the result unless it is one of the first `n` of the class. */
  lemma {:induction false} DropSnoc(a: seq<CraftItem>, x: CraftItem, cls: ItemClass, n: nat)
    ensures SnocDrops(a, x, cls, n)
  {
    if a == [] {
      assert a + [x] == [x] && [x][1..] == [];
    } else {
      var y, rest := a[0], a[1..];
      assert a == [y] + rest;
      if y.itemClass == cls && n > 0 {
        DropSnoc(rest, x, cls, n - 1);
        SnocDropsTake(y, rest, x, cls, n);
      } else {
        DropSnoc(rest, x, cls, n);
        SnocDropsKeep(y, rest, x, cls, n);
      }
    }
  }

  /** The recursive removal is the position-by-position `filter`: survivors keep their order. */
  lemma {:induction false} DropIsSurvivors(items: seq<CraftItem>, cls: ItemClass, n: nat)
    ensures DropFirstOfClass(items, cls, n) == Survivors(items, cls, n)
  {
    if items != [] {
      var prefix, x := items[..|items| - 1], items[|items| - 1];
      assert items == prefix + [x];
      DropIsSurvivors(prefix, cls, n);
      DropSnoc(prefix, x, cls, n);
    }
  }

  /** Dropping shortens the list by `n`, or by the whole class if it has fewer items. */
  lemma DropLength(items: seq<CraftItem>, cls: ItemClass, n: nat)
    ensures |DropFirstOfClass(items, cls, n)| == |items| - Min(n, |OfClass(items, cls)|)
  {
    var r := DropFirstOfClass(items, cls, n);
    DropTrimsClass(items, cls, n);
    DropKeepsOthers(items, cls, n);
    ClassSplit(items, cls);
    ClassSplit(r, cls);
  }

  /**
   * Dropping removes exactly the first `n` items of the class (or all of
   * them, if fewer) and keeps every other item; the survivors keep their
   * relative order across classes.
   */
  lemma DropFirstOfClassSpec(items: seq<CraftItem>, cls: ItemClass, n: nat)
    ensures var r := DropFirstOfClass(items, cls, n);
            && OfClass(r, cls) == OfClass(items, cls)[Min(n, |OfClass(items, cls)|)..]
            && NotOfClass(r, cls) == NotOfClass(items, cls)
            && |r| == |items| - Min(n, |OfClass(items, cls)|)
            && r == Survivors(items, cls, n)
  {
    DropIsSurvivors(items, cls, n);
    DropTrimsClass(items, cls, n);
    DropKeepsOthers(items, cls, n);
    DropLength(items, cls, n);
  }

  /** One step of the `filter`: the item at `i` is dropped while the budget `k` lasts, kept otherwise. */
  lemma DropStep(items: seq<CraftItem>, cls: ItemClass, i: nat, k: nat, kept: seq<CraftItem>)
    requires i < |items|
    ensures var take := items[i].itemClass == cls && k > 0;
            kept + DropFirstOfClass(items[i..], cls, k)
            == (if take then kept else kept + [items[i]]) + DropFirstOfClass(items[i + 1..], cls, if take then k - 1 else k)
  {
    assert items[i..][0] == items[i] && items[i..][1..] == items[i + 1..];
    if !(items[i].itemClass == cls && k > 0) {
      var tail := DropFirstOfClass(items[i + 1..], cls, k);
      assert DropFirstOfClass(items[i..], cls, k) == [items[i]] + tail;
      assert (kept + [items[i]]) + tail == kept + ([items[i]] + tail);
    }
  }

  /** The `filter` with a `removed` counter that takes out the first 50 items of the source class. */
  method RemoveFirstOfClass(items: seq<CraftItem>, cls: ItemClass) returns (nextCrafted: seq<CraftItem>)
    ensures nextCrafted == DropFirstOfClass(items, cls, FusionCost)
  {
    var removed := 0;
    nextCrafted := [];
    for i := 0 to |items|
      invariant 0 <= removed <= FusionCost
      invariant nextCrafted + DropFirstOfClass(items[i..], cls, FusionCost - removed) == DropFirstOfClass(items, cls, FusionCost)
    {
      var item := items[i];
      DropStep(items, cls, i, FusionCost - removed, nextCrafted);
      if item.itemClass == cls && removed < FusionCost {
        removed := removed + 1;
      } else {
        nextCrafted := nextCrafted + [item];
      }
    }
    assert items[|items|..] == [];
  }

  /** The tier order of the fusion altar. */
  const ItemClasses: seq<ItemClass> := [Human, Epic, Legend, Divine, Transcendental]

  /** `classes.indexOf(c)`. */
  function ClassIndex(c: ItemClass): (k: nat)
    ensures k < |ItemClasses| && ItemClasses[k] == c
  {
    match c
    case Human => 0
    case Epic => 1
    case Legend => 2
    case Divine => 3
    case Transcendental => 4
  }

  /** The class a fusion of `c` produces: the next one up, or Transcendental again. */
  function TargetClass(c: ItemClass): (t: ItemClass)
    ensures c != Transcendental ==> ClassIndex(t) == ClassIndex(c) + 1
    ensures c == Transcendental ==> t == Transcendental
  {
    ItemClasses[Min(ClassIndex(c) + 1, |ItemClasses| - 1)]
  }

  /** `CRAFT_RECIPES.filter(r => r.class === cls)`. */
  function RecipesOf(recipes: seq<Recipe>, cls: ItemClass): (r: seq<Recipe>)
    ensures forall k :: 0 <= k < |r| ==> r[k] in recipes && r[k].itemClass == cls
    ensures (exists k :: 0 <= k < |recipes| && recipes[k].itemClass == cls) ==> |r| > 0
  {
    if recipes == [] then []
    else (if recipes[0].itemClass == cls then [recipes[0]] else []) + RecipesOf(recipes[1..], cls)
  }

  /** The blueprint pick of a fusion never draws from an empty list. */
  lemma BlueprintsExist(c: ItemClass)
    ensures |RecipesOf(CraftRecipes, c)| > 0
  {
    EveryClassHasRecipe(c);
  }

  /** The record a fusion of class `cls` commits, or why it refuses. */
  function Fused(s: UserStats, cls: ItemClass, roll: Roll, now: nat): (r: Result<UserStats, CraftError>)
    ensures r.Failure? <==> |OfClass(s.craftedItems, cls)| < FusionCost
    ensures r.Failure? ==> r.error == NeedMoreItems
  {
    if |OfClass(s.craftedItems, cls)| < FusionCost then Failure(NeedMoreItems)
    else
      var target := TargetClass(cls);
      var blueprints := RecipesOf(CraftRecipes, target);
      BlueprintsExist(target);
      var blueprint := blueprints[PickIndex(roll, |blueprints|)];
      Success(s.(craftedItems := DropFirstOfClass(s.craftedItems, cls, FusionCost) + [NewItem(blueprint, now)]))
  }

  /**
   * A successful fusion keeps everything but the crafted list, which becomes
   * the first-50 removal followed by one forged item of the target class:
   * 49 items shorter in all.
   */
  lemma FusedShape(s: UserStats, cls: ItemClass, roll: Roll, now: nat)
    requires |OfClass(s.craftedItems, cls)| >= FusionCost
    ensures var after := Fused(s, cls, roll, now).value;
            && after == s.(craftedItems := after.craftedItems)
            && |after.craftedItems| == |s.craftedItems| - (FusionCost - 1)
            && after.craftedItems[..|after.craftedItems| - 1] == DropFirstOfClass(s.craftedItems, cls, FusionCost)
            && after.craftedItems[|after.craftedItems| - 1].itemClass == TargetClass(cls)
            && after.craftedItems[|after.craftedItems| - 1].isForged
  {
    var kept := DropFirstOfClass(s.craftedItems, cls, FusionCost);
    DropLength(s.craftedItems, cls, FusionCost);
    var crafted := Fused(s, cls, roll, now).value.craftedItems;
    assert crafted == kept + [crafted[|crafted| - 1]];
    assert crafted[..|crafted| - 1] == kept;
  }

  lemma {:induction false} OfClassAppend(a: seq<CraftItem>, b: seq<CraftItem>, cls: ItemClass)
    ensures OfClass(a + b, cls) == OfClass(a, cls) + OfClass(b, cls)
  {
    if a != [] {
      var head := if a[0].itemClass == cls then [a[0]] else [];
      assert (a + b)[0] == a[0] && (a + b)[1..] == a[1..] + b;
      assert OfClass(a + b, cls) == head + OfClass(a[1..] + b, cls);
      OfClassAppend(a[1..], b, cls);
      assert OfClass(a, cls) == head + OfClass(a[1..], cls);
    } else {
      assert a + b == b;
    }
  }

  /** Items of another class are counted the same before and after removing those of `cls`. */
  lemma {:induction false} OfClassOfOthers(items: seq<CraftItem>, cls: ItemClass, other: ItemClass)
    requires other != cls
    ensures OfClass(NotOfClass(items, cls), other) == OfClass(items, other)
  {
    if items != [] {
      OfClassOfOthers(items[1..], cls, other);
      if items[0].itemClass != cls {
        assert NotOfClass(items, cls) == [items[0]] + NotOfClass(items[1..], cls);
        OfClassAppend([items[0]], NotOfClass(items[1..], cls), other);
        assert [items[0]][1..] == [];
      } else {
        assert NotOfClass(items, cls) == NotOfClass(items[1..], cls);
        assert OfClass(items, other) == OfClass(items[1..], other);
      }
    }
  }

  /** Class counts after dropping the first 50 items of `cls` and appending one item of its target class. */
  lemma FuseCounts(items: seq<CraftItem>, cls: ItemClass, item: CraftItem)
    requires |OfClass(items, cls)| >= FusionCost && item.itemClass == TargetClass(cls)
    ensures var after := DropFirstOfClass(items, cls, FusionCost) + [item];
            && (cls != Transcendental ==>
                  |OfClass(after, cls)| == |OfClass(items, cls)| - FusionCost
                  && |OfClass(after, item.itemClass)| == |OfClass(items, item.itemClass)| + 1)
            && (cls == Transcendental ==>
                  |OfClass(after, cls)| == |OfClass(items, cls)| - (FusionCost - 1))
  {
    var kept := DropFirstOfClass(items, cls, FusionCost);
    var target := item.itemClass;
    DropFirstOfClassSpec(items, cls, FusionCost);
    assert |OfClass(kept, cls)| == |OfClass(items, cls)| - FusionCost;
    OfClassAppend(kept, [item], cls);
    OfClassAppend(kept, [item], target);
    assert [item][1..] == [];
    assert OfClass([item], target) == [item];
    if cls != Transcendental {
      assert target != cls by { assert ClassIndex(target) != ClassIndex(cls); }
      assert OfClass([item], cls) == [];
      OfClassOfOthers(kept, cls, target);
      OfClassOfOthers(items, cls, target);
      assert OfClass(kept, target) == OfClass(items, target);
    }
  }

  /**
   * A fusion below the top tier takes 50 items of the source class and adds
   * one of the next class; at the top tier the class loses 49 net.
   */
  lemma FusionCounts(s: UserStats, cls: ItemClass, roll: Roll, now: nat)
    requires Fused(s, cls, roll, now).Success?
    ensures var after := Fused(s, cls, roll, now).value.craftedItems;
            && (cls != Transcendental ==>
                  |OfClass(after, cls)| == |OfClass(s.craftedItems, cls)| - FusionCost
                  && |OfClass(after, TargetClass(cls))| == |OfClass(s.craftedItems, TargetClass(cls))| + 1)
            && (cls == Transcendental ==>
                  |OfClass(after, cls)| == |OfClass(s.craftedItems, cls)| - (FusionCost - 1))
  {
    FusedShape(s, cls, roll, now);
    var after := Fused(s, cls, roll, now).value.craftedItems;
    var item := after[|after| - 1];
    assert after == after[..|after| - 1] + [item];
    FuseCounts(s.craftedItems, cls, item);
  }

  // ---------------------------------------------------------------------------
  // The handlers
  // ---------------------------------------------------------------------------

  /**
   * Forge `recipe`: refuse when any requirement is short, otherwise pay, append
   * the new item and run the hidden-reward check.
   */
  method Forge(state: StatsState, recipe: Recipe, now: nat, drawRoll: Roll, pickRoll: Roll) returns (ok: bool)
    requires Stocked(state.stats.inventory)
    modifies state
    ensures ok == Satisfies(old(state.stats.inventory), recipe.requirements)
    ensures var r := Forged(old(state.stats), recipe, now, drawRoll, pickRoll);
            state.stats == if r.Success? then r.value else old(state.stats)
  {
    var prev := state.stats;
    var canForge := Satisfies(prev.inventory, recipe.requirements);
    if !canForge {
      return false;
    }
    var nextInventory := ConsumeRequirements(prev.inventory, recipe.requirements);
    var newItem := NewItem(recipe, now);
    var updatedCrafted := prev.craftedItems + [newItem];
    var divineOrAbove := DivineOrAbove(updatedCrafted);
    var nextHidden := prev.hiddenRewards;
    if divineOrAbove >= HiddenRewardThreshold && drawRoll > 0.5 {
      var unearned := Unearned(HiddenRewards, prev.hiddenRewards);
      if |unearned| > 0 {
        var reward := unearned[PickIndex(pickRoll, |unearned|)];
        nextHidden := prev.hiddenRewards + [reward];
      }
    }
    state.stats := prev.(inventory := nextInventory, craftedItems := updatedCrafted, hiddenRewards := nextHidden);
    ok := true;
  }

  /**
   * Fuse 50 items of `sourceClass`: refuse with fewer, otherwise remove the
   * first 50 and append one item of the target class.
   */
  method Fusion(state: StatsState, sourceClass: ItemClass, roll: Roll, now: nat) returns (ok: bool)
    modifies state
    ensures ok <==> |OfClass(old(state.stats.craftedItems), sourceClass)| >= FusionCost
    ensures var r := Fused(old(state.stats), sourceClass, roll, now);
            state.stats == if r.Success? then r.value else old(state.stats)
  {
    var prev := state.stats;
    var itemsOfClass := OfClass(prev.craftedItems, sourceClass);
    if |itemsOfClass| < FusionCost {
      return false;
    }
    var nextCrafted := RemoveFirstOfClass(prev.craftedItems, sourceClass);
    var currentIndex := ClassIndex(sourceClass);
    var targetClass := ItemClasses[Min(currentIndex + 1, |ItemClasses| - 1)];
    var possibleBlueprints := RecipesOf(CraftRecipes, targetClass);
    BlueprintsExist(targetClass);
    var randomBlueprint := possibleBlueprints[PickIndex(roll, |possibleBlueprints|)];
    var newItem := NewItem(randomBlueprint, now);
    state.stats := prev.(craftedItems := nextCrafted + [newItem]);
    ok := true;
  }
}
