/** Properties of the body model that relate several operations or that need an argument
    beyond the operations' own effects. */
module BodyProps {
  import opened Rules
  import Garments
  import opened Thresholds
  import opened BodyModel
  import opened BodyFacts

  /** A continence change never produces a message: the warning is reached only with a
      negative `percent`, which, subtracted, raises continence, and Warn reports falls only. */
  lemma ContinenceNeverWarns(s: BodyState, w: Waste, percent: real, r: BodyState)
    requires Inv(s) && r == ChangeContinence(s, w, percent)
    ensures r.log == s.log
    ensures percent < 0.0 ==> ContinenceOf(r, w) > ContinenceOf(s, w) || ContinenceOf(s, w) == 1.0
  {
    ChangeContinenceEffect(s, w, percent, r);
    if percent < 0.0 {
      var previous := ContinenceOf(s, w);
      var c := ClampContinence(previous - percent);
      NoCrossingWithoutFall(previous, c, ThresholdsOf(ContinenceTable(w)));
      var s1 := if w == Pee then s.(bladderContinence := c, bladderCapacity := CapacityFor(c, MaxBladderCapacity))
                else s.(bowelContinence := c, bowelCapacity := CapacityFor(c, MaxBowelCapacity));
      WarnMessage(s1, previous, c, ContinenceTable(w), true, r);
    }
  }

  /** The continence table is searched by index, not by value: a fall from 0.9 to 0.1
      crosses all four thresholds, and the one message is the one for 0.6, listed first. */
  lemma FirstCrossingByIndex(s: BodyState, r: BodyState)
    requires !s.isSleeping && r == Warn(s, 0.9, 0.1, BladderContinenceTable, true)
    ensures r.log == s.log + [Message(Written, BladderContinenceTable, 0)]
  {
    FirstCrossingUnique(0.9, 0.1, ThresholdsOf(BladderContinenceTable), 0);
  }

  /** The training tests point opposite ways: above the training threshold a voluntary
      wetting costs continence while a voluntary mess gains it. */
  lemma TrainingAsymmetry(s: BodyState, cfg: Config, inUnderwear: bool, wet: BodyState, mess: BodyState)
    requires Inv(s) && cfg.wetting && cfg.messing
    requires s.bladderFullness > BladderTrainingThreshold && s.bowelFullness > BowelTrainingThreshold
    requires 0.5 <= s.bladderContinence <= 0.9 && 0.5 <= s.bowelContinence <= 0.9
    requires wet == StartWetting(s, cfg, true, inUnderwear) && mess == StartMessing(s, cfg, true, inUnderwear)
    ensures wet.bladderContinence == s.bladderContinence - ContinenceStep
    ensures mess.bowelContinence == s.bowelContinence + ContinenceStep
  {
    StartWettingEffect(s, cfg, true, inUnderwear, wet);
    StartMessingEffect(s, cfg, true, inUnderwear, mess);
  }

  /** Below capacity, the intake step of Digest lowers the deficit by `amount` and moves
      the converted intake into the bowels. */
  lemma DigestIntakeBelow(s: BodyState, cfg: Config, amount: real, ratio: Conversion, inp: Inputs, r: BodyState)
    requires Inv(s) && inp.hours >= 0.0 && cfg.messing
    requires r == AddBowel(LowerHunger(s, amount), cfg, Convert(ratio, amount), inp)
    requires s.bowelFullness + Convert(ratio, amount) < s.bowelCapacity
    ensures Inv(r) && r.bowelFullness == s.bowelFullness + Convert(ratio, amount) && r.hunger == s.hunger - amount
  {
    AddBowelBelow(LowerHunger(s, amount), cfg, Convert(ratio, amount), inp, r);
  }

  /** Below capacity, food past full moves into the bowels in full, at the ratio. */
  lemma PassExcessBelow(s: BodyState, cfg: Config, ratio: Conversion, inp: Inputs, r: BodyState)
    requires Inv(s) && inp.hours >= 0.0 && cfg.messing && r == PassExcessFood(s, cfg, ratio, inp)
    requires s.hunger < 0.0 && s.bowelFullness + Convert(ratio, PastFull(s.hunger)) < s.bowelCapacity
    ensures r.bowelFullness == s.bowelFullness + Convert(ratio, PastFull(s.hunger)) && r.hunger == 0.0
  {
    var s1 := AddBowel(s, cfg, Convert(ratio, PastFull(s.hunger)), inp);
    AddBowelBelow(s, cfg, Convert(ratio, PastFull(s.hunger)), inp, s1);
  }

  /** Digesting forwards the intake and the excess past full to the bowels, converted at
      the ratio as one quantity, as long as neither step reaches capacity and so no mess
      interrupts. */
  lemma DigestForwardsExcess(s: BodyState, cfg: Config, amount: real, ratio: Conversion,
                             first: Inputs, second: Inputs, r: BodyState)
    requires Inv(s) && first.hours >= 0.0 && second.hours >= 0.0 && cfg.messing && amount >= 0.0
    requires s.bowelFullness + Convert(ratio, amount + Excess(s.hunger, amount)) < s.bowelCapacity
    requires r == Digest(s, cfg, amount, ratio, first, second)
    ensures r.bowelFullness == s.bowelFullness + Convert(ratio, amount + Excess(s.hunger, amount))
    ensures r.hunger == MaxReal(s.hunger - amount, 0.0)
  {
    ConvertAdds(ratio, amount, Excess(s.hunger, amount));
    var s1 := AddBowel(LowerHunger(s, amount), cfg, Convert(ratio, amount), first);
    DigestIntakeBelow(s, cfg, amount, ratio, first, s1);
    if s1.hunger < 0.0 {
      assert PastFull(s1.hunger) == Excess(s.hunger, amount);
      PassExcessBelow(s1, cfg, ratio, second, r);
    } else {
      assert Excess(s.hunger, amount) == 0.0;
    }
  }

  /** Asleep, a voluntary Wet is a night of toilet trips: the garments stay as they were. */
  lemma VoluntaryNightKeepsGarments(s: BodyState, inUnderwear: bool, inp: Inputs, r: BodyState)
    requires Inv(s) && s.isSleeping && r == Wet(s, true, inUnderwear, inp)
    ensures r.pants == s.pants && r.underwear == s.underwear
  {
    WetEffect(s, true, inUnderwear, inp, r);
    Garments.PourNightToilets(s.underwear, s.pants,
                     NightEvents(s.bladderFullness, s.bladderCapacity, true, s.bladderContinence, inp.wake));
  }

  /** Asleep, the garments together take in no more than the bladder held. */
  lemma NightWetBounded(s: BodyState, voluntary: bool, inUnderwear: bool, inp: Inputs, r: BodyState)
    requires Inv(s) && s.isSleeping && r == Wet(s, voluntary, inUnderwear, inp)
    ensures r.underwear.wetness + r.pants.wetness
              <= s.underwear.wetness + s.pants.wetness + MaxReal(s.bladderFullness, 0.0)
  {
    WetEffect(s, voluntary, inUnderwear, inp, r);
    NightDepositsAtMostFullness(s.bladderFullness, s.bladderCapacity, voluntary, s.bladderContinence, inp.wake);
  }

  /** A night and the following morning: whatever the night did, the body wakes with the
      toilet counters at zero, in clean jeans, not asleep, with continence as it was. */
  lemma NightThenMorning(s: BodyState, cfg: Config, bedtime: int, wardrobe: Garments.Wardrobe,
                         ins: nat -> Inputs, roll: int, timeOfDay: int, night: BodyState, r: BodyState)
    requires Inv(s) && Garments.WardrobeOk(wardrobe) && bedtime <= 3000 && 1 <= roll <= 12
    requires forall i: nat :: ins(i).hours >= 0.0
    requires night == HandleNight(s, cfg, bedtime, wardrobe, ins)
    requires r == HandleMorning(night, cfg, roll, timeOfDay, wardrobe)
    ensures !r.isSleeping && r.peedToiletLastNight == 0 && r.poopedToiletLastNight == 0
    ensures r.pants == Garments.Fresh("blue jeans", wardrobe) && Inv(r) && s.log <= r.log && r.ext == s.ext
    ensures SameControl(s, r)
  {
    HandleNightEffect(s, cfg, bedtime, wardrobe, ins, night);
  }
}
