/** The state of one character's body and, for every method of Body.cs, the state it
    leaves behind, as a function of the state before and of what the method reads from
    outside (configuration, random draws, the host game's answers). The class in
    body.dfy runs the same steps in place and is proved to end in these states.

    Presentation (animations, messages, emotes, debuff icons) becomes entries of an
    event log; the host player's stamina and health are carried in `player`. */
module BodyModel {
  import opened Rules
  import opened Garments
  import opened Thresholds

  /** The mod's switches that Body.cs reads (Regression.config). */
  datatype Config = Config(wetting: bool, messing: bool, noHungerAndThirst: bool, easymode: bool)

  datatype Waste = Pee | Poop

  /** Animations.Warn (a passing remark) or Animations.Write (a message that stays). */
  datatype Delivery = Warned | Written

  /** The six threshold/message tables of Body.cs:33-44. */
  datatype Table = WettingTable | MessingTable | BladderContinenceTable | BowelContinenceTable
                 | HungerTable | ThirstTable

  function ThresholdsOf(t: Table): seq<real> {
    match t
    case WettingTable => [0.1, 0.3, 0.5]
    case MessingTable => [0.1, 0.3, 0.5]
    case BladderContinenceTable => [0.6, 0.2, 0.5, 0.8]
    case BowelContinenceTable => [0.6, 0.2, 0.5, 0.8]
    case HungerTable => [0.0, 0.25]
    case ThirstTable => [0.0, 0.25]
  }

  /** What the body asks the presentation layer and the host to do. */
  datatype Event =
    | Message(delivery: Delivery, table: Table, index: nat)  // message `index` of `table`
    | OverflowMessage(waste: Waste)                         // Pee_Overflow / Poop_Overflow
    | Debuff(waste: Waste, magnitude: int)                  // registers, replacing one of its kind
    | ClearDebuff(waste: Waste)                             // RemoveBuff
    | AttemptCue(waste: Waste, inUnderwear: bool)           // nothing to let go of
    | StartCue(waste: Waste, voluntary: bool, inUnderwear: bool)
    | EndCue(waste: Waste)
    | ChangeCue                                             // "Change" line after new underwear
    | DrinkCue(fromSource: bool)
    | OutOfWater
    | MorningCue
    | StomachLoss(food: real, water: real)                  // AddStomach(-food, -water)

  /** The host player's stats that Body.cs reads and changes. */
  datatype Player = Player(stamina: real, maxStamina: real, health: int, maxHealth: int)

  /** Quantities Body.cs reads but does not declare; they are set outside this model. */
  datatype Unseen = Unseen(maxFood: real, maxWater: real, foodDay: real, maxBowels: real,
                           glassOfWater: real, stomachFood: real, stomachWater: real)

  /** What one need update draws from outside: the urge roll, the night's wake-up rolls
      (one per event), whether a villager handled the scene (Animations.HandleVillager),
      and the hours of the Mess it may start. */
  datatype Inputs = Inputs(urge: real, wake: nat -> real, villager: bool, hours: real)

  datatype BodyState = BodyState(
    bladderCapacity: real, bladderContinence: real, bladderFullness: real,
    bowelCapacity: real, bowelContinence: real, bowelFullness: real,
    hunger: real, thirst: real,
    isSleeping: bool,
    pants: Container, underwear: Container,
    isWetting: bool, isMessing: bool, wettingUnderwear: bool, messingUnderwear: bool,
    messingVoluntarily: bool,
    peedToiletLastNight: nat, poopedToiletLastNight: nat,
    lastStamina: real, beddingDryTime: int, food: real, water: real,
    player: Player, log: seq<Event>, ext: Unseen)

  /** Continence within its clamps, capacity recomputed from it, garments sound. */
  predicate Inv(s: BodyState) {
    MinContinence <= s.bladderContinence <= 1.0 &&
    s.bladderCapacity == CapacityFor(s.bladderContinence, MaxBladderCapacity) &&
    MinContinence <= s.bowelContinence <= 1.0 &&
    s.bowelCapacity == CapacityFor(s.bowelContinence, MaxBowelCapacity) &&
    ContainerOk(s.pants) && ContainerOk(s.underwear) &&
    s.ext.maxBowels >= 0.0
  }

  /** Inv, and neither deficit below zero. */
  predicate Valid(s: BodyState) {
    Inv(s) && s.hunger >= 0.0 && s.thirst >= 0.0
  }

  /** What every operation but the night and morning transitions leaves alone; the log only grows. */
  predicate Keeps(s: BodyState, r: BodyState) {
    r.isSleeping == s.isSleeping && r.ext == s.ext && s.log <= r.log
  }

  /** Continence and capacity of both needs unchanged. */
  predicate SameControl(s: BodyState, r: BodyState) {
    r.bladderContinence == s.bladderContinence && r.bladderCapacity == s.bladderCapacity &&
    r.bowelContinence == s.bowelContinence && r.bowelCapacity == s.bowelCapacity
  }

  /** The fields' initial values (Body.cs:49-59); fields Body.cs does not declare start
      false or zero. */
  function Initial(ext: Unseen, player: Player, wardrobe: Wardrobe): (s: BodyState)
    requires WardrobeOk(wardrobe) && ext.maxBowels >= 0.0
    ensures Valid(s) && s.log == [] && !s.isSleeping
    ensures s.bladderCapacity == MaxBladderCapacity && s.bowelCapacity == MaxBowelCapacity
  {
    BodyState(MaxBladderCapacity, 1.0, 0.0, MaxBowelCapacity, 1.0, 0.0, 0.0, 0.0, false,
              Fresh("blue jeans", wardrobe), Fresh("dinosaur undies", wardrobe),
              false, false, false, false, false, 0, 0, 0.0, 0, 0.0, 0.0, player, [], ext)
  }

  // ----- Warn (Body.cs:593-610) -----

  /** At most one message, for the first crossed threshold by index; none while asleep. */
  function Warn(s: BodyState, oldPercent: real, newPercent: real, table: Table, write: bool): (r: BodyState)
  {
    if s.isSleeping then s
    else match FirstCrossing(oldPercent, newPercent, ThresholdsOf(table))
      case None => s
      case Some(i) => s.(log := s.log + [Message(if write then Written else Warned, table, i)])
  }

  // ----- Continence (Body.cs:187-234) -----

  function BaseCapacity(w: Waste): (c: real)
    ensures c > 0.0
  {
    if w == Pee then MaxBladderCapacity else MaxBowelCapacity
  }

  function ContinenceOf(s: BodyState, w: Waste): real {
    if w == Pee then s.bladderContinence else s.bowelContinence
  }

  function CapacityOf(s: BodyState, w: Waste): real {
    if w == Pee then s.bladderCapacity else s.bowelCapacity
  }

  function ContinenceTable(w: Waste): Table {
    if w == Pee then BladderContinenceTable else BowelContinenceTable
  }

  /** ChangeBladderContinence (w = Pee) and ChangeBowelContinence (w = Poop): continence
      loses `percent` within its clamps, the capacity follows, and only a negative
      `percent` may warn. */
  function ChangeContinence(s: BodyState, w: Waste, percent: real): (r: BodyState)
    requires Inv(s)
    ensures Inv(r)
  {
    var previous := ContinenceOf(s, w);
    var c := ClampContinence(previous - percent);
    var s1 := if w == Pee then s.(bladderContinence := c, bladderCapacity := CapacityFor(c, MaxBladderCapacity))
              else s.(bowelContinence := c, bowelCapacity := CapacityFor(c, MaxBowelCapacity));
    if percent >= 0.0 then s1 else Warn(s1, previous, c, ContinenceTable(w), true)
  }

  // ----- Overflow penalties (Body.cs:498-531) -----

  /** HandlePeeOverflow: the overflow line, then a defence debuff of PeeSeverity. */
  function HandlePeeOverflow(s: BodyState, pants: Container): (r: BodyState)
    requires pants.absorbency > 0.0
  {
    s.(log := s.log + [OverflowMessage(Pee), Debuff(Pee, PeeSeverity(pants.wetness, pants.absorbency))])
  }

  /** HandlePoopOverflow: the overflow line, then a speed debuff of PoopSeverity. */
  function HandlePoopOverflow(s: BodyState, pants: Container): (r: BodyState)
    requires pants.containment > 0.0
  {
    s.(log := s.log + [OverflowMessage(Poop), Debuff(Poop, PoopSeverity(pants.messiness, pants.containment))])
  }

  // ----- Wetting (Body.cs:369-438) -----

  /** EndWetting: clears isWetting; awake, unhandled, with wet pants and wetting the
      underwear, the pants' wetness sets a debuff. */
  function EndWetting(s: BodyState, villager: bool): (r: BodyState)
    requires Inv(s)
    ensures Inv(r)
  {
    var s1 := s.(isWetting := false, log := s.log + [EndCue(Pee)]);
    if s1.isSleeping || villager || s1.pants.wetness <= 0.0 || !s1.wettingUnderwear then s1
    else HandlePeeOverflow(s1, s1.pants)
  }

  /** Wet: asleep, the night's events are poured into the garments; awake in underwear,
      one capacity is; then, with the bladder at or below empty, the wetting ends. The
      bladder itself is not drawn down here. */
  function Wet(s: BodyState, voluntary: bool, inUnderwear: bool, inp: Inputs): (r: BodyState)
    requires Inv(s)
    ensures Inv(r)
  {
    FinishWetting(Soak(s, voluntary, inUnderwear, inp.wake), inp.villager)
  }

  /** The tail of Wet (Body.cs:426-429): a bladder at or below empty is set to empty and
      the wetting ends. */
  function FinishWetting(s: BodyState, villager: bool): (r: BodyState)
    requires Inv(s)
    ensures Inv(r)
  {
    if s.bladderFullness > 0.0 then s else EndWetting(s.(bladderFullness := 0.0), villager)
  }

  /** The garment half of Wet (Body.cs:391-425): asleep, the night's events are poured
      into them; awake in underwear, one bladder capacity is. */
  function Soak(s: BodyState, voluntary: bool, inUnderwear: bool, wake: nat -> real): (r: BodyState)
    requires Inv(s)
    ensures Inv(r)
  {
    if s.isSleeping then
      var (u, p) := PourNight(s.underwear, s.pants,
                              NightEvents(s.bladderFullness, s.bladderCapacity, voluntary,
                                          s.bladderContinence, wake));
      s.(underwear := u, pants := p)
    else if inUnderwear then
      var (u, p, _) := PourPee(s.underwear, s.pants, s.bladderCapacity);
      s.(underwear := u, pants := p)
    else s
  }

  /** StartWetting: too little to go on is only an attempt; otherwise continence takes one
      step, +0.01 through ChangeBladderContinence(-0.01) unless the wetting is voluntary
      with the bladder at least at the training threshold. */
  function StartWetting(s: BodyState, cfg: Config, voluntary: bool, inUnderwear: bool): (r: BodyState)
    requires Inv(s)
    ensures Inv(r)
  {
    if !cfg.wetting then s
    else if s.bladderFullness < BladderAttemptThreshold then
      s.(log := s.log + [AttemptCue(Pee, inUnderwear)])
    else
      var s1 := if !voluntary || s.bladderFullness < BladderTrainingThreshold
                then ChangeContinence(s, Pee, -ContinenceStep)
                else ChangeContinence(s, Pee, ContinenceStep);
      s1.(log := s1.log + [StartCue(Pee, voluntary, inUnderwear)])
  }

  // ----- Messing (Body.cs:315-367) -----

  /** EndMessing: as EndWetting with messiness, but isMessing is left as it was. */
  function EndMessing(s: BodyState, villager: bool): (r: BodyState)
    requires Inv(s)
    ensures Inv(r)
  {
    var s1 := s.(log := s.log + [EndCue(Poop)]);
    if s1.isSleeping || villager || s1.pants.messiness <= 0.0 || !s1.messingUnderwear then s1
    else HandlePoopOverflow(s1, s1.pants)
  }

  /** What one Mess takes out of the bowels (Body.cs:317). */
  function MessAmount(maxBowels: real, hours: real): (a: real)
    requires maxBowels >= 0.0 && hours >= 0.0
    ensures a >= 0.0
  {
    maxBowels * hours * 20.0
  }

  /** Where a Mess's `amount` goes: asleep, one roll against continence decides between
      the toilet and the garments; awake, the garments take it when messing the underwear. */
  function MessDeposit(s: BodyState, amount: real, roll: real): (r: BodyState)
    requires Inv(s) && amount >= 0.0
    ensures Inv(r)
    ensures r.bowelFullness == s.bowelFullness
  {
    if s.isSleeping then
      if roll < s.bowelContinence then
        s.(messingVoluntarily := true, poopedToiletLastNight := s.poopedToiletLastNight + 1)
      else
        var (u, p, _) := PourPoop(s.underwear, s.pants, amount);
        s.(messingVoluntarily := false, underwear := u, pants := p)
    else if s.messingUnderwear then
      var (u, p, _) := PourPoop(s.underwear, s.pants, amount);
      s.(underwear := u, pants := p)
    else s
  }

  /** Mess: takes MessAmount out of the bowels and deposits it (MessDeposit, with the
      first wake-up roll); then, with the bowels at or below empty, the mess ends. */
  function Mess(s: BodyState, hours: real, inp: Inputs): (r: BodyState)
    requires Inv(s) && hours >= 0.0
    ensures Inv(r)
  {
    var amount := MessAmount(s.ext.maxBowels, hours);
    FinishMessing(MessDeposit(s.(bowelFullness := s.bowelFullness - amount), amount, inp.wake(0)), inp.villager)
  }

  /** The tail of Mess (Body.cs:335-338): bowels at or below empty are set to empty and
      the mess ends. */
  function FinishMessing(s: BodyState, villager: bool): (r: BodyState)
    requires Inv(s)
    ensures Inv(r)
  {
    if s.bowelFullness > 0.0 then s else EndMessing(s.(bowelFullness := 0.0), villager)
  }

  /** StartMessing: as StartWetting, except that the -0.01 step needs the bowels strictly
      ABOVE the training threshold (Body.cs:352) where the bladder needs them below it. */
  function StartMessing(s: BodyState, cfg: Config, voluntary: bool, inUnderwear: bool): (r: BodyState)
    requires Inv(s)
    ensures Inv(r)
  {
    if !cfg.messing then s
    else if s.bowelFullness < BowelAttemptThreshold then
      s.(log := s.log + [AttemptCue(Poop, inUnderwear)])
    else
      var s1 := if !voluntary || s.bowelFullness > BowelTrainingThreshold
                then ChangeContinence(s, Poop, -ContinenceStep)
                else ChangeContinence(s, Poop, ContinenceStep);
      s1.(log := s1.log + [StartCue(Poop, voluntary, inUnderwear)])
  }

  // ----- Need tracker (Body.cs:63-184) -----

  /** The bladder takes `amount` (Body.cs:73). */
  function FillBladder(s: BodyState, amount: real): BodyState {
    s.(bladderFullness := s.bladderFullness + amount)
  }

  /** The bowels take `amount` (Body.cs:102). */
  function FillBowels(s: BodyState, amount: real): BodyState {
    s.(bowelFullness := s.bowelFullness + amount)
  }

  /** The urge roll of Body.cs:80-87 and 109-116: a need that went from `before` to `after`
      (of `max`) may warn, with probability UrgeProbability at the new fullness, the
      fullness table's first threshold crossed. */
  function Urge(s: BodyState, continence: real, before: real, after: real, max: real, table: Table, urge: real): BodyState
    requires max > 0.0
  {
    var oldFullness := before / max;
    var newFullness := after / max;
    if UrgeProbability(continence, newFullness) > urge then Warn(s, oldFullness, newFullness, table, false)
    else s
  }

  /** AddBladder: off with the Wetting switch; otherwise the bladder takes `amount` and at
      capacity an involuntary wetting in the underwear follows, else the urge roll may warn. */
  function AddBladder(s: BodyState, cfg: Config, amount: real, inp: Inputs): (r: BodyState)
    requires Inv(s)
    ensures Inv(r)
  {
    if !cfg.wetting then s
    else
      var s1 := FillBladder(s, amount);
      if s1.bladderFullness >= s1.bladderCapacity then Wet(s1, false, true, inp)
      else Urge(s1, s1.bladderContinence, s.bladderFullness, s1.bladderFullness, MaxBladderCapacity, WettingTable, inp.urge)
  }

  /** AddBowel: as AddBladder with the Messing switch, the bowels, and Mess. */
  function AddBowel(s: BodyState, cfg: Config, amount: real, inp: Inputs): (r: BodyState)
    requires Inv(s) && inp.hours >= 0.0
    ensures Inv(r)
  {
    if !cfg.messing then s
    else
      var s1 := FillBowels(s, amount);
      if s1.bowelFullness >= s1.bowelCapacity then Mess(s1, inp.hours, inp)
      else Urge(s1, s1.bowelContinence, s.bowelFullness, s1.bowelFullness, MaxBowelCapacity, MessingTable, inp.urge)
  }

  /** Eating `amount`: the hunger deficit falls by it (Body.cs:127). */
  function LowerHunger(s: BodyState, amount: real): BodyState {
    s.(hunger := s.hunger - amount)
  }

  /** Drinking `amount`: the thirst deficit falls by it (Body.cs:158). */
  function LowerThirst(s: BodyState, amount: real): BodyState {
    s.(thirst := s.thirst - amount)
  }

  /** How fed (or watered) a deficit leaves the body, as a fraction of the daily
      requirement: 1 when the deficit is 0, 0 when it is the whole requirement. */
  function Fed(deficit: real, required: real): real
    requires required != 0.0
  {
    (required - deficit) / required
  }

  /** Starving past the requirement (Body.cs:143-148): the stamina changes by `newPercent`
      of its maximum (a loss, `newPercent` being negative) and the deficit is clamped. */
  function Starve(s: BodyState, newPercent: real): BodyState {
    s.(player := Exhausted(s.player, newPercent), hunger := RequiredCaloriesPerDay)
  }

  /** The stamina changed by `percent` of its maximum. */
  function Exhausted(p: Player, percent: real): Player {
    p.(stamina := p.stamina + percent * p.maxStamina)
  }

  /** Dehydrating past the requirement (Body.cs:174-180): the health changes by
      `newPercent` of its maximum, truncated to whole points, and the deficit is clamped. */
  function Parch(s: BodyState, newPercent: real): BodyState {
    s.(player := Wounded(s.player, newPercent), thirst := RequiredWaterPerDay)
  }

  /** The health changed by `percent` of its maximum, truncated to whole points. */
  function Wounded(p: Player, percent: real): Player {
    p.(health := p.health + Trunc(percent * p.maxHealth as real))
  }

  /** Body.cs:135-139: a hunger deficit below zero means food past full; it goes on to the
      bowels at `ratio` and the deficit is cut to 0. */
  function PassExcessFood(s: BodyState, cfg: Config, ratio: Conversion, inp: Inputs): (r: BodyState)
    requires Inv(s) && inp.hours >= 0.0
    ensures Inv(r)
  {
    if s.hunger < 0.0 then AddBowel(s, cfg, Convert(ratio, PastFull(s.hunger)), inp).(hunger := 0.0)
    else s
  }

  /** The intake half of AddFood (Body.cs:126-139): the deficit falls by `amount`, which
      goes on to the bowels at `ratio`, as does any excess past full (PassExcessFood). */
  function Digest(s: BodyState, cfg: Config, amount: real, ratio: Conversion, first: Inputs, second: Inputs): (r: BodyState)
    requires Inv(s) && first.hours >= 0.0 && second.hours >= 0.0
    ensures Inv(r)
  {
    PassExcessFood(AddBowel(LowerHunger(s, amount), cfg, Convert(ratio, amount), first), cfg, ratio, second)
  }

  /** AddFood: Digest; then, unless NoHungerAndThirst, a decay past the daily requirement
      costs stamina in proportion and is clamped, and the hunger table may warn. */
  function AddFood(s: BodyState, cfg: Config, amount: real, ratio: Conversion, first: Inputs, second: Inputs): (r: BodyState)
    requires Inv(s) && first.hours >= 0.0 && second.hours >= 0.0
    ensures Inv(r)
  {
    var oldPercent := Fed(s.hunger, RequiredCaloriesPerDay);
    var newPercent := Fed(LowerHunger(s, amount).hunger, RequiredCaloriesPerDay);
    var s2 := Digest(s, cfg, amount, ratio, first, second);
    if cfg.noHungerAndThirst then s2 else HungerPenalty(s2, amount, oldPercent, newPercent)
  }

  /** Body.cs:143-151: a decay that leaves the deficit past the daily requirement starves,
      and the hunger table may warn of the change from `oldPercent` to `newPercent`. */
  function HungerPenalty(s: BodyState, amount: real, oldPercent: real, newPercent: real): BodyState {
    var s1 := if s.hunger > RequiredCaloriesPerDay && amount < 0.0 then Starve(s, newPercent) else s;
    Warn(s1, oldPercent, newPercent, HungerTable, false)
  }

  /** Body.cs:165-169: a thirst deficit below zero means water past full; it goes on to
      the bladder at `ratio` and the deficit is cut to 0. */
  function PassExcessWater(s: BodyState, cfg: Config, ratio: Conversion, inp: Inputs): (r: BodyState)
    requires Inv(s)
    ensures Inv(r)
  {
    if s.thirst < 0.0 then AddBladder(s, cfg, Convert(ratio, PastFull(s.thirst)), inp).(thirst := 0.0)
    else s
  }

  /** The intake half of AddWater (Body.cs:157-169): as Digest, for thirst and the bladder.
      The bladder takes every share in full, since AddBladder never draws it down. */
  function Hydrate(s: BodyState, cfg: Config, amount: real, ratio: Conversion, first: Inputs, second: Inputs): (r: BodyState)
    requires Inv(s)
    ensures Inv(r)
  {
    var s1 := AddBladder(LowerThirst(s, amount), cfg, Convert(ratio, amount), first);
    PassExcessWater(s1, cfg, ratio, second)
  }

  /** AddWater: Hydrate; then, unless NoHungerAndThirst, a decay past the daily requirement
      costs health (truncated to whole points) and is clamped, and the thirst table may warn. */
  function AddWater(s: BodyState, cfg: Config, amount: real, ratio: Conversion, first: Inputs, second: Inputs): (r: BodyState)
    requires Inv(s)
    ensures Inv(r)
  {
    var oldPercent := Fed(s.thirst, RequiredWaterPerDay);
    var newPercent := Fed(LowerThirst(s, amount).thirst, RequiredWaterPerDay);
    var s2 := Hydrate(s, cfg, amount, ratio, first, second);
    if cfg.noHungerAndThirst then s2 else ThirstPenalty(s2, amount, oldPercent, newPercent)
  }

  /** Body.cs:174-183: a decay that leaves the deficit past the daily requirement costs
      health, and the thirst table may warn of the change from `oldPercent` to `newPercent`. */
  function ThirstPenalty(s: BodyState, amount: real, oldPercent: real, newPercent: real): BodyState {
    var s1 := if s.thirst > RequiredWaterPerDay && amount < 0.0 then Parch(s, newPercent) else s;
    Warn(s1, oldPercent, newPercent, ThirstTable, false)
  }

  // ----- Garments and drinking (Body.cs:237-308) -----

  /** ChangeUnderwear: the new underwear goes on over nothing, clean blue jeans over it,
      both wet and messy debuffs are cleared; the old underwear is handed back. */
  function ChangeUnderwear(s: BodyState, container: Container, wardrobe: Wardrobe): (r: (BodyState, Container))
    requires Inv(s) && ContainerOk(container) && WardrobeOk(wardrobe)
    ensures Inv(r.0) && Keeps(s, r.0)
    ensures r.1 == s.underwear && r.0.underwear == container && r.0.pants == Fresh("blue jeans", wardrobe)
    ensures r.0.log == s.log + [ClearDebuff(Pee), ClearDebuff(Poop), ChangeCue]
    ensures r.0.(underwear := s.underwear, pants := s.pants, log := s.log) == s
  {
    (s.(underwear := container, pants := Fresh("blue jeans", wardrobe),
        log := s.log + [ClearDebuff(Pee), ClearDebuff(Poop), ChangeCue]),
     s.underwear)
  }

  /** DrinkWateringCan: drink the whole thirst if the can holds it, else what it holds, else
      complain. The can pays for the thirst drunk in whole hundreds (see WaterLeftAfterDrink
      for the repair of Body.cs:288). */
  function DrinkWateringCan(s: BodyState, cfg: Config, waterLeft: int, first: Inputs, second: Inputs): (r: (BodyState, int))
    requires Valid(s)
    ensures Inv(r.0)
  {
    if (waterLeft * 100) as real >= s.thirst then
      var s1 := AddWater(s, cfg, s.thirst, Half, first, second);
      (s1.(log := s1.log + [DrinkCue(false)]), waterLeft - Trunc(s.thirst / 100.0))
    else if waterLeft > 0 then
      var s1 := AddWater(s, cfg, CanWater(waterLeft), Half, first, second);
      (s1.(log := s1.log + [DrinkCue(false)]), 0)
    else
      (s.(log := s.log + [OutOfWater]), waterLeft)
  }

  /** DrinkWaterSource: drink away the whole thirst. */
  function DrinkWaterSource(s: BodyState, cfg: Config, first: Inputs, second: Inputs): (r: BodyState)
    requires Valid(s)
    ensures Inv(r)
  {
    var s1 := AddWater(s, cfg, s.thirst, Half, first, second);
    s1.(log := s1.log + [DrinkCue(true)])
  }

  // ----- Day and night (Body.cs:440-570) -----

  /** The stamina a night's bedding costs on waking: 20 on a roll of 1-2 when it is messy
      or wetter than a glass of water, else 10 on a roll up to 5 when it is wet at all. */
  function BeddingPenalty(roll: int, bedding: Container, glassOfWater: real): (p: real)
    ensures p == 20.0 || p == 10.0 || p == 0.0
    ensures p == 20.0 <==> roll <= 2 && (bedding.messiness > 0.0 || bedding.wetness > glassOfWater)
    ensures p == 10.0 <==> !(roll <= 2 && (bedding.messiness > 0.0 || bedding.wetness > glassOfWater)) &&
                           roll <= 5 && bedding.wetness > 0.0
  {
    if roll <= 2 && (bedding.messiness > 0.0 || bedding.wetness > glassOfWater) then 20.0
    else if roll <= 5 && bedding.wetness > 0.0 then 10.0
    else 0.0
  }

  /** Body.cs:453-471: the bedding costs BeddingPenalty in stamina and takes 1000 or 600
      units of time to dry, or none when it cost nothing. */
  function DryBedding(s: BodyState, roll: int, timeOfDay: int): (r: BodyState)
    ensures r == s.(beddingDryTime := r.beddingDryTime, player := r.player)
    ensures r.player == s.player.(stamina := s.player.stamina - BeddingPenalty(roll, s.pants, s.ext.glassOfWater))
    ensures BeddingPenalty(roll, s.pants, s.ext.glassOfWater) == 20.0 ==> r.beddingDryTime == timeOfDay + 1000
    ensures BeddingPenalty(roll, s.pants, s.ext.glassOfWater) == 10.0 ==> r.beddingDryTime == timeOfDay + 600
    ensures BeddingPenalty(roll, s.pants, s.ext.glassOfWater) == 0.0 ==> r.beddingDryTime == 0
  {
    if roll <= 2 && (s.pants.messiness > 0.0 || s.pants.wetness > s.ext.glassOfWater) then
      s.(beddingDryTime := timeOfDay + 1000, player := s.player.(stamina := s.player.stamina - 20.0))
    else if roll <= 5 && s.pants.wetness > 0.0 then
      s.(beddingDryTime := timeOfDay + 600, player := s.player.(stamina := s.player.stamina - 10.0))
    else s.(beddingDryTime := 0)
  }

  /** Body.cs:449-452 and 474-477: the toilet counters reset, the body wakes and puts on
      clean blue jeans. */
  function WakeUp(s: BodyState, wardrobe: Wardrobe): BodyState
    requires WardrobeOk(wardrobe)
  {
    s.(peedToiletLastNight := 0, poopedToiletLastNight := 0, isSleeping := false,
       pants := Fresh("blue jeans", wardrobe))
  }

  /** HandleMorning: Easymode refills food and water; with either switch on and outside
      Easymode the bedding costs stamina; the toilet counters reset, the body wakes and
      puts on clean blue jeans. */
  function HandleMorning(s: BodyState, cfg: Config, roll: int, timeOfDay: int, wardrobe: Wardrobe): (r: BodyState)
    requires Inv(s) && WardrobeOk(wardrobe) && 1 <= roll <= 12
    ensures Inv(r) && r.ext == s.ext && s.log <= r.log
    ensures r.peedToiletLastNight == 0 && r.poopedToiletLastNight == 0 && !r.isSleeping
    ensures r.pants == Fresh("blue jeans", wardrobe) && r.underwear == s.underwear
    ensures r.player.stamina == s.player.stamina -
              (if cfg.easymode || (!cfg.wetting && !cfg.messing) then 0.0
               else BeddingPenalty(roll, s.pants, s.ext.glassOfWater))
  {
    var s1 := if cfg.easymode then s.(food := s.ext.maxFood, water := s.ext.maxWater) else s;
    if !cfg.wetting && !cfg.messing then WakeUp(s1, wardrobe)
    else
      var s2 := if cfg.easymode then s1 else DryBedding(s1, roll, timeOfDay);
      WakeUp(s2.(log := s2.log + [MorningCue]), wardrobe)
  }

  /** A quarter of the stamina gained since `last` (negative when it was spent). */
  function StaminaUsed(stamina: real, last: real): real {
    (stamina - last) / 4.0
  }

  /** `num / divisor * max`: the part of a store that a stamina change is charged as. */
  function Share(num: real, divisor: real, max: real): real
    requires divisor != 0.0
  {
    num / divisor * max
  }

  /** Body.cs:538-541: stamina spent (`num` below zero) is charged to food at 1/300 of
      the maximum per point, at the default ratio, and to water at 1/100 per point, at 0.05. */
  function ChargeStamina(s: BodyState, cfg: Config, num: real, a: Inputs, b: Inputs, c: Inputs, d: Inputs): (r: BodyState)
    requires Inv(s) && a.hours >= 0.0 && b.hours >= 0.0
    ensures Inv(r)
  {
    AddWater(AddFood(s, cfg, Share(num, 300.0, s.ext.maxFood), Half, a, b),
             cfg, Share(num, 100.0, s.ext.maxWater), Twentieth, c, d)
  }

  /** HandleStamina: a quarter of the stamina spent since last time is charged to food and
      water; the stamina seen afterwards becomes the new reference. */
  function HandleStamina(s: BodyState, cfg: Config, a: Inputs, b: Inputs, c: Inputs, d: Inputs): (r: BodyState)
    requires Inv(s) && a.hours >= 0.0 && b.hours >= 0.0
    ensures Inv(r)
  {
    var num := StaminaUsed(s.player.stamina, s.lastStamina);
    if num == 0.0 then s
    else
      var s1 := if num < 0.0 then ChargeStamina(s, cfg, num, a, b, c, d) else s;
      s1.(lastStamina := s1.player.stamina)
  }

  /** What the stomach passes on of its food over `hours`: a day's rate, at most what it holds. */
  function FoodLost(ext: Unseen, hours: real): real {
    MinReal(ext.stomachFood, ext.foodDay * hours)
  }

  /** What the stomach passes on of its water over `hours`: two glasses an hour, at most
      what it holds. */
  function WaterLost(ext: Unseen, hours: real): real {
    MinReal(ext.stomachWater, ext.glassOfWater * 2.0 * hours)
  }

  /** HandleStomach: what the stomach loses over `hours` goes to the bowels and the
      bladder, never more than the stomach holds. */
  function HandleStomach(s: BodyState, cfg: Config, hours: real, a: Inputs, b: Inputs): (r: BodyState)
    requires Inv(s) && a.hours >= 0.0
    ensures Inv(r)
  {
    var s1 := AddBowel(s, cfg, FoodLost(s.ext, hours), a);
    var s2 := AddBladder(s1, cfg, WaterLost(s.ext, hours), b);
    s2.(log := s2.log + [StomachLoss(FoodLost(s.ext, hours), WaterLost(s.ext, hours))])
  }

  /** The first half of HandleTime: stamina, then the day's water and food need for `hours`. */
  function SpendTime(s: BodyState, cfg: Config, hours: real, ins: nat -> Inputs): (r: BodyState)
    requires Inv(s) && forall i: nat :: ins(i).hours >= 0.0
    ensures Inv(r)
  {
    var s1 := HandleStamina(s, cfg, ins(0), ins(1), ins(2), ins(3));
    var s2 := AddWater(s1, cfg, Decay(RequiredWaterPerDay, hours), Half, ins(4), ins(5));
    AddFood(s2, cfg, Decay(RequiredCaloriesPerDay, hours), Half, ins(6), ins(7))
  }

  /** HandleTime: stamina, then the day's water and food need for `hours`, then the
      stomach, then any wetting or mess under way, in that order. */
  function HandleTime(s: BodyState, cfg: Config, hours: real, ins: nat -> Inputs): (r: BodyState)
    requires Inv(s) && hours >= 0.0 && forall i: nat :: ins(i).hours >= 0.0
    ensures Inv(r)
  {
    PassWaste(SpendTime(s, cfg, hours, ins), cfg, hours, ins)
  }

  /** The second half of HandleTime: the stomach, then any wetting or mess under way. */
  function PassWaste(s: BodyState, cfg: Config, hours: real, ins: nat -> Inputs): (r: BodyState)
    requires Inv(s) && hours >= 0.0 && forall i: nat :: ins(i).hours >= 0.0
    ensures Inv(r)
  {
    Accidents(HandleStomach(s, cfg, hours, ins(8), ins(9)), hours, ins(10), ins(11))
  }

  /** Body.cs:565-569: a wetting under way goes on (involuntarily, in the underwear), then a
      mess under way. */
  function Accidents(s: BodyState, hours: real, wetInputs: Inputs, messInputs: Inputs): (r: BodyState)
    requires Inv(s) && hours >= 0.0
    ensures Inv(r)
  {
    var s5 := if s.isWetting then Wet(s, false, true, wetInputs) else s;
    if s5.isMessing then Mess(s5, hours, messInputs) else s5
  }

  /** HandleNight: the bed replaces the pants and the body falls asleep; with a bedtime
      set, the night's hours are run through HandleTime at a third of the waking rate. */
  function HandleNight(s: BodyState, cfg: Config, bedtime: int, wardrobe: Wardrobe, ins: nat -> Inputs): (r: BodyState)
    requires Inv(s) && WardrobeOk(wardrobe) && bedtime <= 3000 && forall i: nat :: ins(i).hours >= 0.0
    ensures Inv(r)
  {
    var s1 := s.(lastStamina := s.player.stamina, pants := Fresh("bed", wardrobe), isSleeping := true);
    if bedtime <= 0 then s1 else HandleTime(s1, cfg, SleepHours(bedtime), ins)
  }
}
