/**
 * Pet grants of the profile corner: the first pet on login and a monthly
 * companion once per "year-month" token while logged in.
 */
module ProfileSection {
  import opened Wrappers
  import opened GameLogic
  import opened JsNumbers
  import opened PetSystem

  /** `${getFullYear()}-${getMonth()}`, with the zero-based month. */
  function MonthToken(year: nat, month: Month): (t: string)
    ensures forall i :: 0 <= i < |t| ==> (t[i] == '-' <==> i == |NatToString(year)|)
    ensures forall i :: 0 <= i < |t| && t[i] != '-' ==> '0' <= t[i] <= '9'
  {
    var y, m := NatToString(year), NatToString(month);
    var t := y + "-" + m;
    assert forall i :: 0 <= i < |y| ==> t[i] == y[i];
    assert forall i :: |y| < i < |t| ==> t[i] == m[i - |y| - 1];
    t
  }

  /** Different months never share a token, so each month grants anew. */
  lemma MonthTokenInjective(y1: nat, m1: Month, y2: nat, m2: Month)
    requires MonthToken(y1, m1) == MonthToken(y2, m2)
    ensures y1 == y2 && m1 == m2
  {
    var a, b, c, d := NatToString(y1), NatToString(m1), NatToString(y2), NatToString(m2);
    var t := MonthToken(y1, m1);
    assert t == a + "-" + b && t == c + "-" + d;
    assert forall i :: 0 <= i < |a| ==> t[i] == a[i] && '0' <= t[i] <= '9';
    assert forall i :: 0 <= i < |c| ==> t[i] == c[i] && '0' <= t[i] <= '9';
    assert t[|a|] == '-' && t[|c|] == '-';
    assert |a| == |c|;
    assert a == t[..|a|] == c;
    assert b == t[|a| + 1..] == d;
    NatToStringInjective(y1, y2);
    NatToStringInjective(m1, m2);
  }

  /** `PET_SPECIES[Math.floor(Math.random() * PET_SPECIES.length)]`. */
  function PickSpecies(roll: Roll): (sp: Species)
    ensures sp in PetSpecies
  {
    PetSpecies[PickIndex(roll, |PetSpecies|)]
  }

  /** A fresh companion at level 1 (100 hundredths) with no XP, gear or decorations. */
  function NewPet(id: string, name: string, species: Species): Pet {
    Pet(id, name, species, 100, 0, [], [])
  }

  /** The monthly check: logged in and not yet rewarded for this token grants one pet. */
  function MonthlyReward(s: UserStats, loggedIn: bool, token: string, roll: Roll, now: nat): (r: UserStats)
    ensures !loggedIn ==> r == s
    ensures var granted := loggedIn && s.lastPetMonthlyReward != Some(token);
            && (!granted ==> r == s)
            && (granted ==>
                  && r == s.(pets := r.pets, lastPetMonthlyReward := Some(token))
                  && |r.pets| == |s.pets| + 1 && r.pets[..|s.pets|] == s.pets
                  && r.pets[|s.pets|].level == 100 && r.pets[|s.pets|].xp == 0
                  && r.pets[|s.pets|].gear == [] && r.pets[|s.pets|].decorations == []
                  && r.pets[|s.pets|].species in PetSpecies)
    ensures loggedIn ==> r.lastPetMonthlyReward == Some(token)
  {
    if loggedIn && s.lastPetMonthlyReward != Some(token) then
      var species := PickSpecies(roll);
      var newPet := NewPet("monthly-" + NatToString(now), "Moon-" + SpeciesName(species), species);
      assert (s.pets + [newPet])[..|s.pets|] == s.pets;
      s.(pets := s.pets + [newPet], lastPetMonthlyReward := Some(token))
    else s
  }

  /** A second check in the same month grants nothing, whatever the draw. */
  lemma MonthlyRewardIdempotent(s: UserStats, loggedIn: bool, token: string, roll1: Roll, now1: nat, roll2: Roll, now2: nat)
    ensures var once := MonthlyReward(s, loggedIn, token, roll1, now1);
            MonthlyReward(once, loggedIn, token, roll2, now2) == once
  {
  }

  /** After this month's grant, the first check in any other month grants again. */
  lemma NextMonthGrantsAgain(s: UserStats, y1: nat, m1: Month, y2: nat, m2: Month, roll1: Roll, now1: nat, roll2: Roll, now2: nat)
    requires y1 != y2 || m1 != m2
    ensures var once := MonthlyReward(s, true, MonthToken(y1, m1), roll1, now1);
            |MonthlyReward(once, true, MonthToken(y2, m2), roll2, now2).pets| == |once.pets| + 1
  {
    if MonthToken(y1, m1) == MonthToken(y2, m2) {
      MonthTokenInjective(y1, m1, y2, m2);
    }
  }

  /** The login update: a single fresh pet replaces the list and becomes the active one. */
  function LoggedIn(s: UserStats, roll: Roll, now: nat): (r: UserStats)
    ensures |r.pets| == 1 && r == s.(pets := r.pets, activePetId := Some(r.pets[0].id))
    ensures r.pets[0].level == 100 && r.pets[0].xp == 0 && r.pets[0].gear == [] && r.pets[0].decorations == []
    ensures r.pets[0].species in PetSpecies
    ensures ActivePet(r.pets, r.activePetId) == Some(0)
  {
    var species := PickSpecies(roll);
    var firstPet := NewPet("initial-" + NatToString(now), "Alpha-" + SpeciesName(species), species);
    s.(pets := [firstPet], activePetId := Some(firstPet.id))
  }

  /** Once logged in, any purchase the player can afford goes to the first pet. */
  lemma PurchaseAfterLogin(s: UserStats, roll: Roll, now: nat, kind: PurchaseKind, cost: int, name: string)
    requires s.xp >= cost
    ensures var l := LoggedIn(s, roll, now);
            && Purchased(l, kind, cost, name).Success?
            && Purchased(l, kind, cost, name).value.pets == [Outfitted(l.pets[0], kind, name)]
  {
    var l := LoggedIn(s, roll, now);
    var r := Purchased(l, kind, cost, name);
    assert r.Success?;
    assert r.value.pets[0] == Outfitted(l.pets[0], kind, name);
  }

  /** The profile corner: the shared stats cell and whether the player is logged in. */
  class Profile {
    const state: StatsState
    var isLoggedIn: bool

    constructor (state: StatsState)
      ensures this.state == state && !isLoggedIn
    {
      this.state := state;
      isLoggedIn := false;
    }

    /** The monthly-pet effect, run with this month's date and a draw. */
    method CheckMonthlyReward(year: nat, month: Month, roll: Roll, now: nat)
      modifies state
      ensures state.stats == MonthlyReward(old(state.stats), isLoggedIn, MonthToken(year, month), roll, now)
    {
      var currentMonth := MonthToken(year, month);
      if isLoggedIn && state.stats.lastPetMonthlyReward != Some(currentMonth) {
        var species := PickSpecies(roll);
        var newPet := NewPet("monthly-" + NatToString(now), "Moon-" + SpeciesName(species), species);
        var prev := state.stats;
        state.stats := prev.(pets := prev.pets + [newPet], lastPetMonthlyReward := Some(currentMonth));
      }
    }

    /** `handleAppleLogin`, once its delay has elapsed. */
    method AppleLogin(roll: Roll, now: nat)
      modifies this, state
      ensures isLoggedIn && state.stats == LoggedIn(old(state.stats), roll, now)
    {
      isLoggedIn := true;
      var species := PickSpecies(roll);
      var firstPet := NewPet("initial-" + NatToString(now), "Alpha-" + SpeciesName(species), species);
      var prev := state.stats;
      state.stats := prev.(pets := [firstPet], activePetId := Some(firstPet.id));
    }
  }
}
