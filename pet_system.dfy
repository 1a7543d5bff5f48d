/**
 * The pet shop: spending XP on food, gear or decorations for the active pet.
 */
module PetSystem {
  import opened Wrappers
  import opened GameLogic

  datatype PurchaseKind = Food | Gear | Decoration

  datatype PurchaseError = NotEnoughXp | NoActivePet

  /** `pets.find(p => p.id === activePetId)`: the first pet carrying the active id. */
  function ActivePet(pets: seq<Pet>, activeId: Option<string>): (r: Option<nat>)
    ensures r.Some? <==> activeId.Some? && exists i :: 0 <= i < |pets| && pets[i].id == activeId.value
    ensures r.Some? ==> r.value < |pets| && pets[r.value].id == activeId.value
                        && forall j :: 0 <= j < r.value ==> pets[j].id != activeId.value
  {
    if activeId.None? || pets == [] then None
    else if pets[0].id == activeId.value then Some(0)
    else match ActivePet(pets[1..], activeId)
      case None => None
      case Some(i) => Some(i + 1)
  }

  /** What one purchase does to the pet it is for (levels in hundredths: food is +0.1). */
  function Outfitted(p: Pet, kind: PurchaseKind, name: string): (q: Pet)
    ensures q.id == p.id && q.name == p.name && q.species == p.species
    ensures kind == Food ==> q.level == p.level + 10 && q.xp == p.xp + 20
                             && q.gear == p.gear && q.decorations == p.decorations
    ensures kind == Gear ==> q.gear == p.gear + [name]
                             && q.level == p.level && q.xp == p.xp && q.decorations == p.decorations
    ensures kind == Decoration ==> q.decorations == p.decorations + [name]
                                   && q.level == p.level && q.xp == p.xp && q.gear == p.gear
  {
    match kind
    case Food => p.(level := p.level + 10, xp := p.xp + 20)
    case Gear => p.(gear := p.gear + [name])
    case Decoration => p.(decorations := p.decorations + [name])
  }

  /** The record a purchase commits, or why it is refused (the XP guard comes first). */
  function Purchased(s: UserStats, kind: PurchaseKind, cost: int, name: string): (r: Result<UserStats, PurchaseError>)
    ensures s.xp < cost ==> r == Failure(NotEnoughXp)
    ensures s.xp >= cost && ActivePet(s.pets, s.activePetId).None? ==> r == Failure(NoActivePet)
    ensures r.Success? ==>
      && s.xp >= cost && s.activePetId.Some?
      && r.value == s.(xp := s.xp - cost, pets := r.value.pets)
      && r.value.xp >= 0
      && |r.value.pets| == |s.pets|
      && forall i :: 0 <= i < |s.pets| ==>
           r.value.pets[i] == if s.pets[i].id == s.activePetId.value then Outfitted(s.pets[i], kind, name) else s.pets[i]
  {
    if s.xp < cost then Failure(NotEnoughXp)
    else if ActivePet(s.pets, s.activePetId).None? then Failure(NoActivePet)
    else Success(s.(xp := s.xp - cost, pets := UpdatePets(s.pets, s.activePetId.value, p => Outfitted(p, kind, name))))
  }

  /** A purchase goes through exactly when both guards pass, and then keeps every state invariant. */
  lemma PurchaseGuards(s: UserStats, kind: PurchaseKind, cost: int, name: string)
    ensures Purchased(s, kind, cost, name).Success? <==>
            s.xp >= cost && s.activePetId.Some? && exists i :: 0 <= i < |s.pets| && s.pets[i].id == s.activePetId.value
    ensures Invariant(s) && cost >= 0 && Purchased(s, kind, cost, name).Success? ==> Invariant(Purchased(s, kind, cost, name).value)
  {
    if Purchased(s, kind, cost, name).Success? {
      var r := Purchased(s, kind, cost, name).value;
      assert r.level == s.level && r.xp == s.xp - cost;
      assert r.radarData == s.radarData && r.inventory == s.inventory && r.hiddenRewards == s.hiddenRewards;
    }
  }

  /**
   * The pet of an active id is found and changed; a second pet sharing that
   * id changes too, as the source's `map` compares ids only.
   */
  lemma PurchaseReachesActivePet(s: UserStats, kind: PurchaseKind, cost: int, name: string)
    requires Purchased(s, kind, cost, name).Success?
    ensures var k := ActivePet(s.pets, s.activePetId).value;
            Purchased(s, kind, cost, name).value.pets[k] == Outfitted(s.pets[k], kind, name)
  {
  }

  /**
   * `buyItem`: refuse when XP is short or no pet is active, otherwise spend
   * the cost and outfit the active pet.
   */
  method BuyItem(state: StatsState, kind: PurchaseKind, cost: int, name: string) returns (err: Option<PurchaseError>)
    modifies state
    ensures var r := Purchased(old(state.stats), kind, cost, name);
            && (err.None? <==> r.Success?)
            && (r.Failure? ==> err == Some(r.error) && state.stats == old(state.stats))
            && (r.Success? ==> state.stats == r.value)
  {
    if state.stats.xp < cost {
      return Some(NotEnoughXp);
    }
    var activePet := ActivePet(state.stats.pets, state.stats.activePetId);
    if activePet.None? {
      return Some(NoActivePet);
    }
    var prev := state.stats;
    var nextPets := UpdatePets(prev.pets, prev.activePetId.value, p => Outfitted(p, kind, name));
    state.stats := prev.(xp := prev.xp - cost, pets := nextPets);
    err := None;
  }
}
