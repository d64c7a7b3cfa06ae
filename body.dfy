/** Body as the game holds it: one object whose methods update its fields in place.
    Every method ends in the state the matching function of BodyModel describes, so
    everything proved about those functions holds of the object. */
module Bodies {
  import opened Rules
  import opened Garments
  import opened Thresholds
  import opened BodyModel

  /** The part of a body's state that Body.cs reads and writes but does not declare. */
  datatype Tracking = Tracking(isWetting: bool, isMessing: bool, wettingUnderwear: bool,
                               messingUnderwear: bool, messingVoluntarily: bool,
                               peedToiletLastNight: nat, poopedToiletLastNight: nat,
                               lastStamina: real, beddingDryTime: int)

  /** The host game's state that Body.cs reads and changes. */
  datatype Host = Host(food: real, water: real, player: Player)

  class Body {
    var bladderCapacity: real
    var bladderContinence: real
    var bladderFullness: real
    var bowelCapacity: real
    var bowelContinence: real
    var bowelFullness: real
    var hunger: real
    var thirst: real
    var isSleeping: bool
    var pants: Container
    var underwear: Container
    /** State Body.cs reads and writes without declaring it (see README). */
    var tracking: Tracking
    /** The host game's food and water stores and the player's stats. */
    var host: Host
    /** What the body has asked the presentation layer and the host to do, in order. */
    var log: seq<Event>
    const ext: Unseen

    /** The fields as one value. */
    function State(): BodyState
      reads this
    {
      BodyState(bladderCapacity, bladderContinence, bladderFullness,
                bowelCapacity, bowelContinence, bowelFullness, hunger, thirst, isSleeping,
                pants, underwear, tracking.isWetting, tracking.isMessing, tracking.wettingUnderwear,
                tracking.messingUnderwear, tracking.messingVoluntarily, tracking.peedToiletLastNight,
                tracking.poopedToiletLastNight, tracking.lastStamina, tracking.beddingDryTime,
                host.food, host.water, host.player, log, ext)
    }

    /** The field initialisers of Body.cs:49-59. */
    constructor (ext: Unseen, player: Player, wardrobe: Wardrobe)
      requires WardrobeOk(wardrobe) && ext.maxBowels >= 0.0
      ensures State() == Initial(ext, player, wardrobe)
    {
      bladderCapacity := MaxBladderCapacity;
      bladderContinence := 1.0;
      bladderFullness := 0.0;
      bowelCapacity := MaxBowelCapacity;
      bowelContinence := 1.0;
      bowelFullness := 0.0;
      hunger := 0.0;
      thirst := 0.0;
      isSleeping := false;
      pants := Fresh("blue jeans", wardrobe);
      underwear := Fresh("dinosaur undies", wardrobe);
      tracking := Tracking(false, false, false, false, false, 0, 0, 0.0, 0);
      host := Host(0.0, 0.0, player);
      log := [];
      this.ext := ext;
    }

    /** Body.cs:593-610, the table scan done by Scan. */
    method Warn(oldPercent: real, newPercent: real, table: Table, write: bool)
      modifies this
      ensures State() == BodyModel.Warn(old(State()), oldPercent, newPercent, table, write)
    {
      if isSleeping {
        return;
      }
      var hit := Scan(oldPercent, newPercent, ThresholdsOf(table));
      if hit.Some? {
        log := log + [Message(if write then Written else Warned, table, hit.value)];
      }
    }

    /** Body.cs:187-209. */
    method ChangeBladderContinence(percent: real)
      requires Inv(State())
      modifies this
      ensures State() == ChangeContinence(old(State()), Pee, percent)
    {
      var previousContinence := bladderContinence;
      bladderContinence := ClampContinence(bladderContinence - percent);
      bladderCapacity := CapacityFor(bladderContinence, MaxBladderCapacity);
      if percent >= 0.0 {
        return;
      }
      Warn(previousContinence, bladderContinence, BladderContinenceTable, true);
    }

    /** Body.cs:212-234. */
    method ChangeBowelContinence(percent: real)
      requires Inv(State())
      modifies this
      ensures State() == ChangeContinence(old(State()), Poop, percent)
    {
      var previousContinence := bowelContinence;
      bowelContinence := ClampContinence(bowelContinence - percent);
      bowelCapacity := CapacityFor(bowelContinence, MaxBowelCapacity);
      if percent >= 0.0 {
        return;
      }
      Warn(previousContinence, bowelContinence, BowelContinenceTable, true);
    }

    /** Body.cs:498-513. */
    method HandlePeeOverflow(pants: Container)
      requires pants.absorbency > 0.0
      modifies this
      ensures State() == BodyModel.HandlePeeOverflow(old(State()), pants)
    {
      log := log + [OverflowMessage(Pee), Debuff(Pee, PeeSeverity(pants.wetness, pants.absorbency))];
    }

    /** Body.cs:515-531. */
    method HandlePoopOverflow(pants: Container)
      requires pants.containment > 0.0
      modifies this
      ensures State() == BodyModel.HandlePoopOverflow(old(State()), pants)
    {
      log := log + [OverflowMessage(Poop), Debuff(Poop, PoopSeverity(pants.messiness, pants.containment))];
    }

    /** Body.cs:431-438. */
    method EndWetting(villager: bool)
      requires Inv(State())
      modifies this
      ensures State() == BodyModel.EndWetting(old(State()), villager)
    {
      tracking := tracking.(isWetting := false);
      log := log + [EndCue(Pee)];
      if isSleeping || villager || pants.wetness <= 0.0 || !tracking.wettingUnderwear {
        return;
      }
      HandlePeeOverflow(pants);
    }

    /** Body.cs:361-367. */
    method EndMessing(villager: bool)
      requires Inv(State())
      modifies this
      ensures State() == BodyModel.EndMessing(old(State()), villager)
    {
      log := log + [EndCue(Poop)];
      if isSleeping || villager || pants.messiness <= 0.0 || !tracking.messingUnderwear {
        return;
      }
      HandlePoopOverflow(pants);
    }

    /** The sleeping branch of Wet (Body.cs:393-420): one event per capacity of fullness,
        each a toilet trip when the wake-up roll falls below continence (or the wetting is
        voluntary) and otherwise an accident poured into the garments. */
    static method NightWetting(underwear: Container, pants: Container, fullness: real, capacity: real,
                               voluntary: bool, continence: real, wake: nat -> real)
      returns (u: Container, p: Container)
      requires ContainerOk(underwear) && ContainerOk(pants) && capacity > 0.0
      ensures (u, p) == PourNight(underwear, pants, NightEvents(fullness, capacity, voluntary, continence, wake))
    {
      var numWettings := Trunc(fullness / capacity);
      var additionalAmount := fullness - numWettings as real * capacity;
      assert additionalAmount == Remainder(fullness, capacity);
      if additionalAmount > 0.0 {
        numWettings := numWettings + 1;
      }
      assert numWettings == WettingCount(fullness, capacity);
      var lastAmount := if additionalAmount > 0.0 then additionalAmount else capacity;
      assert lastAmount == LastAmount(fullness, capacity);
      u, p := PourEvents(underwear, pants, numWettings, capacity, lastAmount, voluntary, continence, wake);
    }

    /** The loop of Body.cs:404-419: each roll that is not a toilet trip pours its amount
        into the garments. */
    static method PourEvents(underwear: Container, pants: Container, numWettings: int, capacity: real,
                             lastAmount: real, voluntary: bool, continence: real, wake: nat -> real)
      returns (u: Container, p: Container)
      requires ContainerOk(underwear) && ContainerOk(pants) && capacity >= 0.0 && lastAmount >= 0.0
      ensures (u, p) == PourNight(underwear, pants, Events(numWettings, capacity, lastAmount, voluntary, continence, wake))
    {
      ghost var es := Events(numWettings, capacity, lastAmount, voluntary, continence, wake);
      u, p := underwear, pants;
      var i := 0;
      while i < numWettings
        invariant 0 <= i <= |es|
        invariant ContainerOk(u) && ContainerOk(p)
        invariant (u, p) == PourNight(underwear, pants, es[..i])
      {
        var lclVoluntary := voluntary || wake(i) < continence;
        assert es[..i + 1][..i] == es[..i];
        if !lclVoluntary {
          var amount := if i != numWettings - 1 then capacity else lastAmount;
          assert es[i] == Accident(amount);
          var (u1, p1, _) := PourPee(u, p, amount);
          u, p := u1, p1;
        } else {
          assert es[i] == Toilet;
        }
        i := i + 1;
      }
      assert es[..i] == es;
    }

    /** Body.cs:389-430. Asleep, the loop runs one event per capacity of fullness; the
        last event deposits LastAmount. */
    method Wet(voluntary: bool, inUnderwear: bool, inp: Inputs)
      requires Inv(State())
      modifies this
      ensures State() == BodyModel.Wet(old(State()), voluntary, inUnderwear, inp)
    {
      if isSleeping {
        underwear, pants := NightWetting(underwear, pants, bladderFullness, bladderCapacity,
                                         voluntary, bladderContinence, inp.wake);
      } else if inUnderwear {
        var (u1, p1, _) := PourPee(underwear, pants, bladderCapacity);
        underwear, pants := u1, p1;
      }
      if bladderFullness > 0.0 {
        return;
      }
      bladderFullness := 0.0;
      EndWetting(inp.villager);
    }

    /** Body.cs:319-334: where a mess goes. */
    method DepositMess(amount: real, roll: real)
      requires Inv(State()) && amount >= 0.0
      modifies this
      ensures State() == MessDeposit(old(State()), amount, roll)
    {
      if isSleeping {
        var voluntarily := roll < bowelContinence;
        tracking := tracking.(messingVoluntarily := voluntarily);
        if voluntarily {
          tracking := tracking.(poopedToiletLastNight := tracking.poopedToiletLastNight + 1);
        } else {
          var (u1, p1, _) := PourPoop(underwear, pants, amount);
          underwear, pants := u1, p1;
        }
      } else if tracking.messingUnderwear {
        var (u1, p1, _) := PourPoop(underwear, pants, amount);
        underwear, pants := u1, p1;
      }
    }

    /** Body.cs:315-339. */
    method Mess(hours: real, inp: Inputs)
      requires Inv(State()) && hours >= 0.0
      modifies this
      ensures State() == BodyModel.Mess(old(State()), hours, inp)
    {
      var roll := inp.wake(0);
      var amount := MessAmount(ext.maxBowels, hours);
      bowelFullness := bowelFullness - amount;
      DepositMess(amount, roll);
      if bowelFullness > 0.0 {
        return;
      }
      bowelFullness := 0.0;
      EndMessing(inp.villager);
    }

    /** Body.cs:369-387. */
    method StartWetting(cfg: Config, voluntary: bool, inUnderwear: bool)
      requires Inv(State())
      modifies this
      ensures State() == BodyModel.StartWetting(old(State()), cfg, voluntary, inUnderwear)
    {
      if !cfg.wetting {
        return;
      }
      if bladderFullness < BladderAttemptThreshold {
        log := log + [AttemptCue(Pee, inUnderwear)];
      } else {
        if !voluntary || bladderFullness < BladderTrainingThreshold {
          ChangeBladderContinence(-ContinenceStep);
        } else {
          ChangeBladderContinence(ContinenceStep);
        }
        log := log + [StartCue(Pee, voluntary, inUnderwear)];
      }
    }

    /** Body.cs:341-359. */
    method StartMessing(cfg: Config, voluntary: bool, inUnderwear: bool)
      requires Inv(State())
      modifies this
      ensures State() == BodyModel.StartMessing(old(State()), cfg, voluntary, inUnderwear)
    {
      if !cfg.messing {
        return;
      }
      if bowelFullness < BowelAttemptThreshold {
        log := log + [AttemptCue(Poop, inUnderwear)];
      } else {
        if !voluntary || bowelFullness > BowelTrainingThreshold {
          ChangeBowelContinence(-ContinenceStep);
        } else {
          ChangeBowelContinence(ContinenceStep);
        }
        log := log + [StartCue(Poop, voluntary, inUnderwear)];
      }
    }

    /** Body.cs:80-87 and 109-116: the urge roll after a need rose from `before` to `after`. */
    method Urge(continence: real, before: real, after: real, max: real, table: Table, urge: real)
      requires max > 0.0
      modifies this
      ensures State() == BodyModel.Urge(old(State()), continence, before, after, max, table, urge)
    {
      var oldFullness := before / max;
      var newFullness := after / max;
      if UrgeProbability(continence, newFullness) > urge {
        Warn(oldFullness, newFullness, table, false);
      }
    }

    /** Body.cs:63-89. */
    method AddBladder(cfg: Config, amount: real, inp: Inputs)
      requires Inv(State())
      modifies this
      ensures State() == BodyModel.AddBladder(old(State()), cfg, amount, inp)
    {
      if !cfg.wetting {
        return;
      }
      var before := bladderFullness;
      bladderFullness := bladderFullness + amount;
      assert State() == FillBladder(old(State()), amount);
      if bladderFullness >= bladderCapacity {
        Wet(false, true, inp);
      } else {
        Urge(bladderContinence, before, bladderFullness, MaxBladderCapacity, WettingTable, inp.urge);
      }
    }

    /** Body.cs:92-118. */
    method AddBowel(cfg: Config, amount: real, inp: Inputs)
      requires Inv(State()) && inp.hours >= 0.0
      modifies this
      ensures State() == BodyModel.AddBowel(old(State()), cfg, amount, inp)
    {
      if !cfg.messing {
        return;
      }
      var before := bowelFullness;
      bowelFullness := bowelFullness + amount;
      assert State() == FillBowels(old(State()), amount);
      if bowelFullness >= bowelCapacity {
        Mess(inp.hours, inp);
      } else {
        Urge(bowelContinence, before, bowelFullness, MaxBowelCapacity, MessingTable, inp.urge);
      }
    }

    /** Body.cs:133-138. */
    method PassExcessFood(cfg: Config, ratio: Conversion, inp: Inputs)
      requires Inv(State()) && inp.hours >= 0.0
      modifies this
      ensures State() == BodyModel.PassExcessFood(old(State()), cfg, ratio, inp)
    {
      if hunger < 0.0 {
        var excess := hunger * -1.0;
        assert excess == PastFull(hunger);
        AddBowel(cfg, Convert(ratio, excess), inp);
        hunger := 0.0;
      }
    }

    /** Body.cs:126-139: the intake half of AddFood; hands back the new fed fraction. */
    method Digest(cfg: Config, amount: real, ratio: Conversion, first: Inputs, second: Inputs) returns (newPercent: real)
      requires Inv(State()) && first.hours >= 0.0 && second.hours >= 0.0
      modifies this
      ensures State() == BodyModel.Digest(old(State()), cfg, amount, ratio, first, second)
      ensures newPercent == Fed(LowerHunger(old(State()), amount).hunger, RequiredCaloriesPerDay)
    {
      hunger := hunger - amount;
      assert State() == LowerHunger(old(State()), amount);
      newPercent := (RequiredCaloriesPerDay - hunger) / RequiredCaloriesPerDay;
      AddBowel(cfg, Convert(ratio, amount), first);
      PassExcessFood(cfg, ratio, second);
    }

    /** Body.cs:143-148. */
    method Starve(newPercent: real)
      modifies this
      ensures State() == BodyModel.Starve(old(State()), newPercent)
    {
      host := host.(player := Exhausted(host.player, newPercent));
      hunger := RequiredCaloriesPerDay;
    }

    /** Body.cs:123-152. */
    method AddFood(cfg: Config, amount: real, ratio: Conversion, first: Inputs, second: Inputs)
      requires Inv(State()) && first.hours >= 0.0 && second.hours >= 0.0
      modifies this
      ensures State() == BodyModel.AddFood(old(State()), cfg, amount, ratio, first, second)
    {
      var oldPercent := (RequiredCaloriesPerDay - hunger) / RequiredCaloriesPerDay;
      assert oldPercent == Fed(old(State()).hunger, RequiredCaloriesPerDay);
      var newPercent := Digest(cfg, amount, ratio, first, second);
      if cfg.noHungerAndThirst {
        return;
      }
      if hunger > RequiredCaloriesPerDay && amount < 0.0 {
        Starve(newPercent);
      }
      Warn(oldPercent, newPercent, HungerTable, false);
    }

    /** Body.cs:164-168. */
    method PassExcessWater(cfg: Config, ratio: Conversion, inp: Inputs)
      requires Inv(State())
      modifies this
      ensures State() == BodyModel.PassExcessWater(old(State()), cfg, ratio, inp)
    {
      if thirst < 0.0 {
        var excess := thirst * -1.0;
        assert excess == PastFull(thirst);
        AddBladder(cfg, Convert(ratio, excess), inp);
        thirst := 0.0;
      }
    }

    /** Body.cs:157-169: the intake half of AddWater; hands back the new watered fraction. */
    method Hydrate(cfg: Config, amount: real, ratio: Conversion, first: Inputs, second: Inputs) returns (newPercent: real)
      requires Inv(State())
      modifies this
      ensures State() == BodyModel.Hydrate(old(State()), cfg, amount, ratio, first, second)
      ensures newPercent == Fed(LowerThirst(old(State()), amount).thirst, RequiredWaterPerDay)
    {
      thirst := thirst - amount;
      assert State() == LowerThirst(old(State()), amount);
      newPercent := (RequiredWaterPerDay - thirst) / RequiredWaterPerDay;
      AddBladder(cfg, Convert(ratio, amount), first);
      PassExcessWater(cfg, ratio, second);
    }

    /** Body.cs:174-180. */
    method Parch(newPercent: real)
      modifies this
      ensures State() == BodyModel.Parch(old(State()), newPercent)
    {
      host := host.(player := Wounded(host.player, newPercent));
      thirst := RequiredWaterPerDay;
    }

    /** Body.cs:154-184. */
    method AddWater(cfg: Config, amount: real, ratio: Conversion, first: Inputs, second: Inputs)
      requires Inv(State())
      modifies this
      ensures State() == BodyModel.AddWater(old(State()), cfg, amount, ratio, first, second)
    {
      var oldPercent := (RequiredWaterPerDay - thirst) / RequiredWaterPerDay;
      assert oldPercent == Fed(old(State()).thirst, RequiredWaterPerDay);
      var newPercent := Hydrate(cfg, amount, ratio, first, second);
      if cfg.noHungerAndThirst {
        return;
      }
      if thirst > RequiredWaterPerDay && amount < 0.0 {
        Parch(newPercent);
      }
      Warn(oldPercent, newPercent, ThirstTable, false);
    }

    /** Body.cs:237-245 (and CleanPants, Body.cs:257-261). */
    method ChangeUnderwear(container: Container, wardrobe: Wardrobe) returns (previous: Container)
      requires Inv(State()) && ContainerOk(container) && WardrobeOk(wardrobe)
      modifies this
      ensures (State(), previous) == BodyModel.ChangeUnderwear(old(State()), container, wardrobe)
    {
      previous := underwear;
      underwear := container;
      pants := Fresh("blue jeans", wardrobe);
      log := log + [ClearDebuff(Pee), ClearDebuff(Poop), ChangeCue];
    }

    /** Body.cs:252-255: a clean garment of the named kind. */
    method ChangeUnderwearTo(kind: string, wardrobe: Wardrobe) returns (previous: Container)
      requires Inv(State()) && WardrobeOk(wardrobe)
      modifies this
      ensures (State(), previous) == BodyModel.ChangeUnderwear(old(State()), Fresh(kind, wardrobe), wardrobe)
    {
      previous := ChangeUnderwear(Fresh(kind, wardrobe), wardrobe);
    }

    /** Body.cs:281-302, the can paid for the thirst drunk (WaterLeftAfterDrink). */
    method DrinkWateringCan(cfg: Config, waterLeft: int, first: Inputs, second: Inputs) returns (left: int)
      requires Valid(State())
      modifies this
      ensures (State(), left) == BodyModel.DrinkWateringCan(old(State()), cfg, waterLeft, first, second)
    {
      if (waterLeft * 100) as real >= thirst {
        var drunk := thirst;
        AddWater(cfg, drunk, Half, first, second);
        left := waterLeft - Trunc(drunk / 100.0);
        log := log + [DrinkCue(false)];
      } else if waterLeft > 0 {
        var all := (waterLeft * 100) as real;
        assert all == CanWater(waterLeft);
        AddWater(cfg, all, Half, first, second);
        left := 0;
        log := log + [DrinkCue(false)];
      } else {
        left := waterLeft;
        log := log + [OutOfWater];
      }
    }

    /** Body.cs:304-308. */
    method DrinkWaterSource(cfg: Config, first: Inputs, second: Inputs)
      requires Valid(State())
      modifies this
      ensures State() == BodyModel.DrinkWaterSource(old(State()), cfg, first, second)
    {
      AddWater(cfg, thirst, Half, first, second);
      log := log + [DrinkCue(true)];
    }

    /** Body.cs:456-471: the bedding check on waking; `roll` is the draw from 1 to 12. */
    method DryBedding(roll: int, timeOfDay: int)
      modifies this
      ensures State() == BodyModel.DryBedding(old(State()), roll, timeOfDay)
    {
      if roll <= 2 && (pants.messiness > 0.0 || pants.wetness > ext.glassOfWater) {
        tracking := tracking.(beddingDryTime := timeOfDay + 1000);
        host := host.(player := host.player.(stamina := host.player.stamina - 20.0));
      } else if roll <= 5 && pants.wetness > 0.0 {
        tracking := tracking.(beddingDryTime := timeOfDay + 600);
        host := host.(player := host.player.(stamina := host.player.stamina - 10.0));
      } else {
        tracking := tracking.(beddingDryTime := 0);
      }
    }

    /** Body.cs:449-452 and 474-477. */
    method WakeUp(wardrobe: Wardrobe)
      requires WardrobeOk(wardrobe)
      modifies this
      ensures State() == BodyModel.WakeUp(old(State()), wardrobe)
    {
      tracking := tracking.(peedToiletLastNight := 0, poopedToiletLastNight := 0);
      isSleeping := false;
      pants := Fresh("blue jeans", wardrobe);
    }

    /** Body.cs:440-480. */
    method HandleMorning(cfg: Config, roll: int, timeOfDay: int, wardrobe: Wardrobe)
      requires Inv(State()) && WardrobeOk(wardrobe) && 1 <= roll <= 12
      modifies this
      ensures State() == BodyModel.HandleMorning(old(State()), cfg, roll, timeOfDay, wardrobe)
    {
      if cfg.easymode {
        host := host.(food := ext.maxFood, water := ext.maxWater);
      }
      if !cfg.wetting && !cfg.messing {
        WakeUp(wardrobe);
      } else {
        if !cfg.easymode {
          DryBedding(roll, timeOfDay);
        }
        log := log + [MorningCue];
        WakeUp(wardrobe);
      }
    }

    /** Body.cs:482-496. */
    method HandleNight(cfg: Config, bedtime: int, wardrobe: Wardrobe, ins: nat -> Inputs)
      requires Inv(State()) && WardrobeOk(wardrobe) && bedtime <= 3000
      requires forall i: nat :: ins(i).hours >= 0.0
      modifies this
      ensures State() == BodyModel.HandleNight(old(State()), cfg, bedtime, wardrobe, ins)
    {
      tracking := tracking.(lastStamina := host.player.stamina);
      pants := Fresh("bed", wardrobe);
      isSleeping := true;
      if bedtime <= 0 {
        return;
      }
      HandleTime(cfg, SleepHours(bedtime), ins);
    }

    /** Body.cs:538-541. */
    method ChargeStamina(cfg: Config, num: real, a: Inputs, b: Inputs, c: Inputs, d: Inputs)
      requires Inv(State()) && a.hours >= 0.0 && b.hours >= 0.0
      modifies this
      ensures State() == BodyModel.ChargeStamina(old(State()), cfg, num, a, b, c, d)
    {
      var food := num / 300.0 * ext.maxFood;
      assert food == Share(num, 300.0, ext.maxFood);
      AddFood(cfg, food, Half, a, b);
      var water := num / 100.0 * ext.maxWater;
      assert water == Share(num, 100.0, ext.maxWater);
      AddWater(cfg, water, Twentieth, c, d);
    }

    /** Body.cs:533-544. */
    method HandleStamina(cfg: Config, a: Inputs, b: Inputs, c: Inputs, d: Inputs)
      requires Inv(State()) && a.hours >= 0.0 && b.hours >= 0.0
      modifies this
      ensures State() == BodyModel.HandleStamina(old(State()), cfg, a, b, c, d)
    {
      var num := (host.player.stamina - tracking.lastStamina) / 4.0;
      assert num == StaminaUsed(host.player.stamina, tracking.lastStamina);
      if num == 0.0 {
        return;
      }
      if num < 0.0 {
        ChargeStamina(cfg, num, a, b, c, d);
      }
      tracking := tracking.(lastStamina := host.player.stamina);
    }

    /** Body.cs:546-557. */
    method HandleStomach(cfg: Config, hours: real, a: Inputs, b: Inputs)
      requires Inv(State()) && a.hours >= 0.0
      modifies this
      ensures State() == BodyModel.HandleStomach(old(State()), cfg, hours, a, b)
    {
      var lostHunger := ext.foodDay * hours;
      var lostHydration := ext.glassOfWater * 2.0 * hours;
      var actualLostHunger := MinReal(ext.stomachFood, lostHunger);
      var actualLostHydration := MinReal(ext.stomachWater, lostHydration);
      assert actualLostHunger == FoodLost(ext, hours) && actualLostHydration == WaterLost(ext, hours);
      AddBowel(cfg, actualLostHunger, a);
      AddBladder(cfg, actualLostHydration, b);
      log := log + [StomachLoss(actualLostHunger, actualLostHydration)];
    }

    /** Body.cs:561-563: stamina, then the day's water and food need for `hours`. */
    method SpendTime(cfg: Config, hours: real, ins: nat -> Inputs)
      requires Inv(State()) && forall i: nat :: ins(i).hours >= 0.0
      modifies this
      ensures State() == BodyModel.SpendTime(old(State()), cfg, hours, ins)
    {
      HandleStamina(cfg, ins(0), ins(1), ins(2), ins(3));
      var water := RequiredWaterPerDay * hours / -24.0;
      assert water == Decay(RequiredWaterPerDay, hours);
      AddWater(cfg, water, Half, ins(4), ins(5));
      var food := RequiredCaloriesPerDay * hours / -24.0;
      assert food == Decay(RequiredCaloriesPerDay, hours);
      AddFood(cfg, food, Half, ins(6), ins(7));
    }

    /** Body.cs:559-570. */
    method HandleTime(cfg: Config, hours: real, ins: nat -> Inputs)
      requires Inv(State()) && hours >= 0.0 && forall i: nat :: ins(i).hours >= 0.0
      modifies this
      ensures State() == BodyModel.HandleTime(old(State()), cfg, hours, ins)
    {
      SpendTime(cfg, hours, ins);
      HandleStomach(cfg, hours, ins(8), ins(9));
      if tracking.isWetting {
        Wet(false, true, ins(10));
      }
      if !tracking.isMessing {
        return;
      }
      Mess(hours, ins(11));
    }
  }
}
