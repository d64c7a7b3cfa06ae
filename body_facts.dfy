/** What each operation of the body model does, stated as a lemma beside the function
    that computes it: which fields it changes and how, which it leaves alone, and what it
    asks the presentation layer to show. Each lemma takes the result `r` of its operation
    as a parameter. */
module BodyFacts {
  import opened Rules
  import opened Garments
  import opened Thresholds
  import opened BodyModel

  // ----- Warn and continence -----

  /** Warn changes nothing but the log, which it only extends. */
  lemma WarnFrame(s: BodyState, oldPercent: real, newPercent: real, table: Table, write: bool, r: BodyState)
    requires r == Warn(s, oldPercent, newPercent, table, write)
    ensures r == s.(log := r.log) && s.log <= r.log
  {
  }

  /** The message Warn adds, if any: the one for the first threshold crossed by index,
      and only when the body is awake and one was crossed. */
  lemma WarnMessage(s: BodyState, oldPercent: real, newPercent: real, table: Table, write: bool, r: BodyState)
    requires r == Warn(s, oldPercent, newPercent, table, write)
    ensures |s.log| <= |r.log| <= |s.log| + 1
    ensures |r.log| == |s.log| + 1 <==>
              !s.isSleeping && exists i :: IsFirstCrossing(oldPercent, newPercent, ThresholdsOf(table), i)
    ensures |r.log| == |s.log| + 1 ==>
              var e := r.log[|s.log|];
              e.Message? && e.table == table && e.delivery == (if write then Written else Warned) &&
              IsFirstCrossing(oldPercent, newPercent, ThresholdsOf(table), e.index)
  {
  }

  /** Continence loses `percent` within its clamps, the capacity follows it, the other
      need is untouched, and only a negative `percent` may add a message. */
  lemma ChangeContinenceEffect(s: BodyState, w: Waste, percent: real, r: BodyState)
    requires Inv(s) && r == ChangeContinence(s, w, percent)
    ensures Keeps(s, r)
    ensures ContinenceOf(r, w) == ClampContinence(ContinenceOf(s, w) - percent)
    ensures BaseCapacity(w) * MinCapacityFraction <= CapacityOf(r, w) <= BaseCapacity(w)
    ensures r == s.(bladderContinence := r.bladderContinence, bladderCapacity := r.bladderCapacity,
                    bowelContinence := r.bowelContinence, bowelCapacity := r.bowelCapacity, log := r.log)
    ensures ContinenceOf(r, if w == Pee then Poop else Pee) == ContinenceOf(s, if w == Pee then Poop else Pee)
    ensures percent >= 0.0 ==> r.log == s.log
  {
    if w == Pee {
      BladderContinenceEffect(s, percent, r);
    } else {
      BowelContinenceEffect(s, percent, r);
    }
  }

  /** ChangeContinence for the bladder (ChangeBladderContinence). */
  lemma BladderContinenceEffect(s: BodyState, percent: real, r: BodyState)
    requires Inv(s) && r == ChangeContinence(s, Pee, percent)
    ensures r == s.(bladderContinence := r.bladderContinence, bladderCapacity := r.bladderCapacity, log := r.log)
    ensures r.bladderContinence == ClampContinence(s.bladderContinence - percent)
    ensures s.log <= r.log && (percent >= 0.0 ==> r.log == s.log)
  {
    var c := ClampContinence(s.bladderContinence - percent);
    var s1 := s.(bladderContinence := c, bladderCapacity := CapacityFor(c, MaxBladderCapacity));
    if percent < 0.0 {
      WarnFrame(s1, s.bladderContinence, c, BladderContinenceTable, true, r);
    }
  }

  /** ChangeContinence for the bowels (ChangeBowelContinence). */
  lemma BowelContinenceEffect(s: BodyState, percent: real, r: BodyState)
    requires Inv(s) && r == ChangeContinence(s, Poop, percent)
    ensures r == s.(bowelContinence := r.bowelContinence, bowelCapacity := r.bowelCapacity, log := r.log)
    ensures r.bowelContinence == ClampContinence(s.bowelContinence - percent)
    ensures s.log <= r.log && (percent >= 0.0 ==> r.log == s.log)
  {
    var c := ClampContinence(s.bowelContinence - percent);
    var s1 := s.(bowelContinence := c, bowelCapacity := CapacityFor(c, MaxBowelCapacity));
    if percent < 0.0 {
      WarnFrame(s1, s.bowelContinence, c, BowelContinenceTable, true, r);
    }
  }

  /** StartWetting: an attempt below the attempt threshold; otherwise continence moves
      one step, down for a voluntary wetting at or past the training threshold. */
  lemma StartWettingEffect(s: BodyState, cfg: Config, voluntary: bool, inUnderwear: bool, r: BodyState)
    requires Inv(s) && r == StartWetting(s, cfg, voluntary, inUnderwear)
    ensures Keeps(s, r)
    ensures !cfg.wetting || s.bladderFullness < BladderAttemptThreshold ==>
              r.bladderContinence == s.bladderContinence && r.bladderCapacity == s.bladderCapacity
    ensures cfg.wetting && s.bladderFullness >= BladderAttemptThreshold ==>
              r.bladderContinence == ClampContinence(s.bladderContinence +
                (if !voluntary || s.bladderFullness < BladderTrainingThreshold then ContinenceStep else -ContinenceStep))
    ensures r.bowelContinence == s.bowelContinence && r.bladderFullness == s.bladderFullness
  {
    if cfg.wetting && s.bladderFullness >= BladderAttemptThreshold {
      var percent := if !voluntary || s.bladderFullness < BladderTrainingThreshold then -ContinenceStep else ContinenceStep;
      var s1 := ChangeContinence(s, Pee, percent);
      ChangeContinenceEffect(s, Pee, percent, s1);
    }
  }

  /** StartMessing: as StartWetting, but the step is down only for a voluntary mess at or
      BELOW the training threshold. */
  lemma StartMessingEffect(s: BodyState, cfg: Config, voluntary: bool, inUnderwear: bool, r: BodyState)
    requires Inv(s) && r == StartMessing(s, cfg, voluntary, inUnderwear)
    ensures Keeps(s, r)
    ensures !cfg.messing || s.bowelFullness < BowelAttemptThreshold ==>
              r.bowelContinence == s.bowelContinence && r.bowelCapacity == s.bowelCapacity
    ensures cfg.messing && s.bowelFullness >= BowelAttemptThreshold ==>
              r.bowelContinence == ClampContinence(s.bowelContinence +
                (if !voluntary || s.bowelFullness > BowelTrainingThreshold then ContinenceStep else -ContinenceStep))
    ensures r.bladderContinence == s.bladderContinence && r.bowelFullness == s.bowelFullness
  {
    if cfg.messing && s.bowelFullness >= BowelAttemptThreshold {
      var percent := if !voluntary || s.bowelFullness > BowelTrainingThreshold then -ContinenceStep else ContinenceStep;
      var s1 := ChangeContinence(s, Poop, percent);
      ChangeContinenceEffect(s, Poop, percent, s1);
    }
  }

  // ----- Ending an accident -----

  /** EndWetting clears isWetting, logs its end cue first and changes nothing else. */
  lemma EndWettingFrame(s: BodyState, villager: bool, r: BodyState)
    requires Inv(s) && r == EndWetting(s, villager)
    ensures Keeps(s, r) && !r.isWetting
    ensures r == s.(isWetting := false, log := r.log)
    ensures |r.log| > |s.log| && r.log[|s.log|] == EndCue(Pee)
  {
  }

  /** After its cue EndWetting adds the overflow line and a defence debuff of PeeSeverity
      exactly when the body is awake, no villager handled it, the pants are wet and the
      underwear was being wet; otherwise nothing. */
  lemma EndWettingMessages(s: BodyState, villager: bool, r: BodyState)
    requires Inv(s) && r == EndWetting(s, villager)
    ensures |r.log| == |s.log| + 3 <==>
              !s.isSleeping && !villager && s.pants.wetness > 0.0 && s.wettingUnderwear
    ensures |r.log| != |s.log| + 3 ==> |r.log| == |s.log| + 1
    ensures |r.log| == |s.log| + 3 ==>
              r.log[|s.log| + 1] == OverflowMessage(Pee) &&
              r.log[|s.log| + 2] == Debuff(Pee, PeeSeverity(s.pants.wetness, s.pants.absorbency))
  {
  }

  /** EndMessing logs its end cue first and changes nothing else; isMessing stays set. */
  lemma EndMessingFrame(s: BodyState, villager: bool, r: BodyState)
    requires Inv(s) && r == EndMessing(s, villager)
    ensures Keeps(s, r) && r.isMessing == s.isMessing
    ensures r == s.(log := r.log)
    ensures |r.log| > |s.log| && r.log[|s.log|] == EndCue(Poop)
  {
  }

  /** After its cue EndMessing adds the overflow line and a speed debuff of PoopSeverity
      exactly when the body is awake, no villager handled it, the pants are messy and the
      underwear was being messed; otherwise nothing. */
  lemma EndMessingMessages(s: BodyState, villager: bool, r: BodyState)
    requires Inv(s) && r == EndMessing(s, villager)
    ensures |r.log| == |s.log| + 3 <==>
              !s.isSleeping && !villager && s.pants.messiness > 0.0 && s.messingUnderwear
    ensures |r.log| != |s.log| + 3 ==> |r.log| == |s.log| + 1
    ensures |r.log| == |s.log| + 3 ==>
              r.log[|s.log| + 1] == OverflowMessage(Poop) &&
              r.log[|s.log| + 2] == Debuff(Poop, PoopSeverity(s.pants.messiness, s.pants.containment))
  {
  }

  // ----- Wetting and messing -----

  /** Wet changes only the garments' wetness (never down) and, with an empty bladder, the
      bladder and the wetting state; which garments and how is Soak's doing. */
  lemma WetEffect(s: BodyState, voluntary: bool, inUnderwear: bool, inp: Inputs, r: BodyState)
    requires Inv(s) && r == Wet(s, voluntary, inUnderwear, inp)
    ensures r == s.(underwear := r.underwear, pants := r.pants, bladderFullness := r.bladderFullness,
                    isWetting := r.isWetting, log := r.log) && OnlySoiled(s, r)
    ensures s.log <= r.log && r.bladderFullness == MaxReal(s.bladderFullness, 0.0)
    ensures r.pants.messiness == s.pants.messiness && r.underwear.messiness == s.underwear.messiness
    ensures s.pants.wetness <= r.pants.wetness && s.underwear.wetness <= r.underwear.wetness
    ensures r.underwear == Soak(s, voluntary, inUnderwear, inp.wake).underwear
    ensures r.pants == Soak(s, voluntary, inUnderwear, inp.wake).pants
    ensures s.bladderFullness > 0.0 ==> r.isWetting == s.isWetting && r.log == s.log
    ensures s.bladderFullness <= 0.0 ==> !r.isWetting && |r.log| > |s.log| && r.log[|s.log|] == EndCue(Pee)
  {
    var s1 := Soak(s, voluntary, inUnderwear, inp.wake);
    SoakEffect(s, voluntary, inUnderwear, inp.wake, s1);
    FinishWettingEffect(s1, inp.villager, r);
  }

  /** FinishWetting leaves a bladder above empty and everything else alone; at or below
      empty it empties it and ends the wetting, its cue first in what it logs. */
  lemma FinishWettingEffect(s: BodyState, villager: bool, r: BodyState)
    requires Inv(s) && r == FinishWetting(s, villager)
    ensures r == s.(bladderFullness := r.bladderFullness, isWetting := r.isWetting, log := r.log)
    ensures s.log <= r.log && r.bladderFullness == MaxReal(s.bladderFullness, 0.0)
    ensures s.bladderFullness > 0.0 ==> r == s
    ensures s.bladderFullness <= 0.0 ==> !r.isWetting && |r.log| > |s.log| && r.log[|s.log|] == EndCue(Pee)
  {
    if s.bladderFullness <= 0.0 {
      EndWettingFrame(s.(bladderFullness := 0.0), villager, r);
    }
  }

  /** Soak changes only the garments' wetness, never down; awake and not in underwear it
      changes nothing, awake in underwear it pours one bladder capacity, and asleep it
      pours the night's events. */
  lemma SoakEffect(s: BodyState, voluntary: bool, inUnderwear: bool, wake: nat -> real, r: BodyState)
    requires Inv(s) && r == Soak(s, voluntary, inUnderwear, wake)
    ensures r == s.(underwear := r.underwear, pants := r.pants) && OnlySoiled(s, r)
    ensures r.pants.messiness == s.pants.messiness && r.underwear.messiness == s.underwear.messiness
    ensures s.pants.wetness <= r.pants.wetness && s.underwear.wetness <= r.underwear.wetness
    ensures !s.isSleeping && !inUnderwear ==> r == s
    ensures !s.isSleeping && inUnderwear ==>
              r.underwear == PourPee(s.underwear, s.pants, s.bladderCapacity).0 &&
              r.pants == PourPee(s.underwear, s.pants, s.bladderCapacity).1
    ensures s.isSleeping ==>
              var es := NightEvents(s.bladderFullness, s.bladderCapacity, voluntary, s.bladderContinence, wake);
              (r.underwear, r.pants) == PourNight(s.underwear, s.pants, es)
  {
  }

  /** MessDeposit changes only the garments, whether the mess was voluntary, and the
      toilet count. */
  lemma MessDepositFrame(s: BodyState, amount: real, roll: real, r: BodyState)
    requires Inv(s) && amount >= 0.0 && r == MessDeposit(s, amount, roll)
    ensures r == s.(underwear := r.underwear, pants := r.pants,
                    messingVoluntarily := r.messingVoluntarily, poopedToiletLastNight := r.poopedToiletLastNight)
    ensures OnlySoiled(s, r)
  {
  }

  /** Where a mess goes: asleep, a roll under continence makes it a toilet trip, counted;
      otherwise, and awake when messing the underwear, the garments take it. */
  lemma MessDepositEffect(s: BodyState, amount: real, roll: real, r: BodyState)
    requires Inv(s) && amount >= 0.0 && r == MessDeposit(s, amount, roll)
    ensures r.pants.wetness == s.pants.wetness && r.underwear.wetness == s.underwear.wetness
    ensures s.pants.messiness <= r.pants.messiness && s.underwear.messiness <= r.underwear.messiness
    ensures s.isSleeping && roll < s.bowelContinence ==>
              r == s.(messingVoluntarily := true, poopedToiletLastNight := s.poopedToiletLastNight + 1)
    ensures (s.isSleeping && roll >= s.bowelContinence) || (!s.isSleeping && s.messingUnderwear) ==>
              r.underwear == PourPoop(s.underwear, s.pants, amount).0 &&
              r.pants == PourPoop(s.underwear, s.pants, amount).1 &&
              r.poopedToiletLastNight == s.poopedToiletLastNight
    ensures !s.isSleeping && !s.messingUnderwear ==> r == s
  {
  }

  /** Mess takes MessAmount out of the bowels (to no less than empty), deposits it as
      MessDeposit does with the first wake-up roll, and changes nothing else but the log;
      it logs the end of the mess, first, exactly when it empties the bowels. */
  lemma MessEffect(s: BodyState, hours: real, inp: Inputs, r: BodyState)
    requires Inv(s) && hours >= 0.0 && r == Mess(s, hours, inp)
    ensures r == s.(bowelFullness := r.bowelFullness, underwear := r.underwear, pants := r.pants,
                    messingVoluntarily := r.messingVoluntarily,
                    poopedToiletLastNight := r.poopedToiletLastNight, log := r.log)
    ensures s.log <= r.log && OnlySoiled(s, r)
    ensures r.bowelFullness == MaxReal(s.bowelFullness - MessAmount(s.ext.maxBowels, hours), 0.0)
    ensures var amount := MessAmount(s.ext.maxBowels, hours);
            var d := MessDeposit(s.(bowelFullness := s.bowelFullness - amount), amount, inp.wake(0));
            r.underwear == d.underwear && r.pants == d.pants &&
            r.messingVoluntarily == d.messingVoluntarily && r.poopedToiletLastNight == d.poopedToiletLastNight
    ensures s.bowelFullness - MessAmount(s.ext.maxBowels, hours) > 0.0 ==> r.log == s.log
    ensures s.bowelFullness - MessAmount(s.ext.maxBowels, hours) <= 0.0 ==>
              |r.log| > |s.log| && r.log[|s.log|] == EndCue(Poop)
  {
    var amount := MessAmount(s.ext.maxBowels, hours);
    var s0 := s.(bowelFullness := s.bowelFullness - amount);
    var d0 := MessDeposit(s0, amount, inp.wake(0));
    MessDepositFrame(s0, amount, inp.wake(0), d0);
    FinishMessingEffect(d0, inp.villager, r);
  }

  /** FinishMessing leaves bowels above empty and everything else alone; at or below empty
      it empties them and ends the mess, its cue first in what it logs. */
  lemma FinishMessingEffect(s: BodyState, villager: bool, r: BodyState)
    requires Inv(s) && r == FinishMessing(s, villager)
    ensures r == s.(bowelFullness := r.bowelFullness, log := r.log)
    ensures s.log <= r.log && r.bowelFullness == MaxReal(s.bowelFullness, 0.0)
    ensures s.bowelFullness > 0.0 ==> r == s
    ensures s.bowelFullness <= 0.0 ==> |r.log| > |s.log| && r.log[|s.log|] == EndCue(Poop)
  {
    if s.bowelFullness <= 0.0 {
      EndMessingFrame(s.(bowelFullness := 0.0), villager, r);
    }
  }

  // ----- Filling the bladder and the bowels -----

  /** The same garments are worn, only wetter or messier: wetness and messiness never fall. */
  predicate OnlySoiled(s: BodyState, r: BodyState) {
    r.underwear == s.underwear.(wetness := r.underwear.wetness, messiness := r.underwear.messiness) &&
    r.pants == s.pants.(wetness := r.pants.wetness, messiness := r.pants.messiness) &&
    s.underwear.wetness <= r.underwear.wetness && s.underwear.messiness <= r.underwear.messiness &&
    s.pants.wetness <= r.pants.wetness && s.pants.messiness <= r.pants.messiness
  }

  /** `r` differs from `s` at most in what the bladder and a wetting touch: the bladder's
      fullness, the garments, the wetting state and the log, which only grows. */
  predicate BladderSide(s: BodyState, r: BodyState) {
    r == s.(bladderFullness := r.bladderFullness, underwear := r.underwear, pants := r.pants,
            isWetting := r.isWetting, log := r.log) && s.log <= r.log && OnlySoiled(s, r)
  }

  /** `r` differs from `s` at most in what the bowels and a mess touch: the bowels'
      fullness, the garments, the night's toilet record and the log, which only grows. */
  predicate BowelSide(s: BodyState, r: BodyState) {
    r == s.(bowelFullness := r.bowelFullness, underwear := r.underwear, pants := r.pants,
            messingVoluntarily := r.messingVoluntarily, poopedToiletLastNight := r.poopedToiletLastNight,
            log := r.log) && s.log <= r.log && OnlySoiled(s, r)
  }

  /** `r` differs from `s` at most in what either need and its accidents touch. */
  predicate WasteSide(s: BodyState, r: BodyState) {
    r == s.(bladderFullness := r.bladderFullness, bowelFullness := r.bowelFullness,
            underwear := r.underwear, pants := r.pants, isWetting := r.isWetting,
            messingVoluntarily := r.messingVoluntarily, poopedToiletLastNight := r.poopedToiletLastNight,
            log := r.log) && s.log <= r.log && OnlySoiled(s, r)
  }

  /** The urge roll adds at most one warning and nothing else, and none when the roll is
      at or above the urge probability at the new fullness. */
  lemma UrgeEffect(s: BodyState, continence: real, before: real, after: real, max: real, table: Table,
                   urge: real, r: BodyState)
    requires max > 0.0 && r == Urge(s, continence, before, after, max, table, urge)
    ensures r == s.(log := r.log) && s.log <= r.log && |r.log| <= |s.log| + 1
    ensures UrgeProbability(continence, after / max) <= urge ==> r == s
  {
    if UrgeProbability(continence, after / max) > urge {
      WarnFrame(s, before / max, after / max, table, false, r);
      WarnMessage(s, before / max, after / max, table, false, r);
    }
  }

  /** AddBladder is off with the Wetting switch; on, the bladder rises by `amount` and is
      never drawn down, and only the bladder side changes. */
  lemma AddBladderEffect(s: BodyState, cfg: Config, amount: real, inp: Inputs, r: BodyState)
    requires Inv(s) && r == AddBladder(s, cfg, amount, inp)
    ensures BladderSide(s, r)
    ensures !cfg.wetting ==> r == s
    ensures cfg.wetting ==> r.bladderFullness == s.bladderFullness + amount
  {
    if cfg.wetting {
      if s.bladderFullness + amount >= s.bladderCapacity {
        AddBladderFull(s, cfg, amount, inp, r);
      } else {
        AddBladderBelow(s, cfg, amount, inp, r);
      }
    }
  }

  /** Below capacity the bladder only rises, and at most an urge warning is added: none
      when the roll is at or above the urge probability at the new fullness. */
  lemma AddBladderBelow(s: BodyState, cfg: Config, amount: real, inp: Inputs, r: BodyState)
    requires Inv(s) && r == AddBladder(s, cfg, amount, inp)
    requires cfg.wetting && s.bladderFullness + amount < s.bladderCapacity
    ensures r == s.(bladderFullness := s.bladderFullness + amount, log := r.log)
    ensures s.log <= r.log && |r.log| <= |s.log| + 1
    ensures UrgeProbability(s.bladderContinence, (s.bladderFullness + amount) / MaxBladderCapacity) <= inp.urge ==>
              r.log == s.log
  {
    var s1 := FillBladder(s, amount);
    UrgeEffect(s1, s1.bladderContinence, s.bladderFullness, s1.bladderFullness, MaxBladderCapacity,
               WettingTable, inp.urge, r);
  }

  /** At capacity an involuntary wetting in the underwear follows: the bladder stays where
      it rose to and the garments take it: awake, one bladder capacity, the overflow going
      to the pants; asleep, the night's events. */
  lemma AddBladderFull(s: BodyState, cfg: Config, amount: real, inp: Inputs, r: BodyState)
    requires Inv(s) && r == AddBladder(s, cfg, amount, inp)
    requires cfg.wetting && s.bladderFullness + amount >= s.bladderCapacity
    ensures BladderSide(s, r) && r.bladderFullness == s.bladderFullness + amount
    ensures !s.isSleeping ==>
              r.underwear == PourPee(s.underwear, s.pants, s.bladderCapacity).0 &&
              r.pants == PourPee(s.underwear, s.pants, s.bladderCapacity).1
    ensures s.isSleeping ==>
              var es := NightEvents(s.bladderFullness + amount, s.bladderCapacity, false, s.bladderContinence, inp.wake);
              (r.underwear, r.pants) == PourNight(s.underwear, s.pants, es)
  {
    var s1 := FillBladder(s, amount);
    WetEffect(s1, false, true, inp, r);
    SoakEffect(s1, false, true, inp.wake, Soak(s1, false, true, inp.wake));
  }

  /** AddBowel is off with the Messing switch; on, only the bowel side changes. */
  lemma AddBowelEffect(s: BodyState, cfg: Config, amount: real, inp: Inputs, r: BodyState)
    requires Inv(s) && inp.hours >= 0.0 && r == AddBowel(s, cfg, amount, inp)
    ensures BowelSide(s, r)
    ensures !cfg.messing ==> r == s
  {
    if cfg.messing {
      if s.bowelFullness + amount >= s.bowelCapacity {
        AddBowelFull(s, cfg, amount, inp, r);
      } else {
        AddBowelBelow(s, cfg, amount, inp, r);
      }
    }
  }

  /** Below capacity the bowels only rise, and at most an urge warning is added: none
      when the roll is at or above the urge probability at the new fullness. */
  lemma AddBowelBelow(s: BodyState, cfg: Config, amount: real, inp: Inputs, r: BodyState)
    requires Inv(s) && inp.hours >= 0.0 && r == AddBowel(s, cfg, amount, inp)
    requires cfg.messing && s.bowelFullness + amount < s.bowelCapacity
    ensures r == s.(bowelFullness := s.bowelFullness + amount, log := r.log)
    ensures s.log <= r.log && |r.log| <= |s.log| + 1
    ensures UrgeProbability(s.bowelContinence, (s.bowelFullness + amount) / MaxBowelCapacity) <= inp.urge ==>
              r.log == s.log
  {
    var s1 := FillBowels(s, amount);
    UrgeEffect(s1, s1.bowelContinence, s.bowelFullness, s1.bowelFullness, MaxBowelCapacity,
               MessingTable, inp.urge, r);
  }

  /** At capacity a mess follows: the bowels lose the Mess hours' amount, to no less than
      empty, and the garments or the toilet take it as MessDeposit decides. */
  lemma AddBowelFull(s: BodyState, cfg: Config, amount: real, inp: Inputs, r: BodyState)
    requires Inv(s) && inp.hours >= 0.0 && r == AddBowel(s, cfg, amount, inp)
    requires cfg.messing && s.bowelFullness + amount >= s.bowelCapacity
    ensures BowelSide(s, r)
    ensures r.bowelFullness == MaxReal(s.bowelFullness + amount - MessAmount(s.ext.maxBowels, inp.hours), 0.0)
    ensures var m := MessAmount(s.ext.maxBowels, inp.hours);
            var d := MessDeposit(s.(bowelFullness := s.bowelFullness + amount - m), m, inp.wake(0));
            r.underwear == d.underwear && r.pants == d.pants &&
            r.messingVoluntarily == d.messingVoluntarily && r.poopedToiletLastNight == d.poopedToiletLastNight
  {
    MessEffect(FillBowels(s, amount), inp.hours, inp, r);
  }

  // ----- Eating and drinking -----

  /** Food past full goes on to the bowels at `ratio` and the deficit is cut to 0; nothing
      outside hunger and the bowel side changes, and nothing at all when not past full. */
  lemma PassExcessFoodEffect(s: BodyState, cfg: Config, ratio: Conversion, inp: Inputs, r: BodyState)
    requires Inv(s) && inp.hours >= 0.0 && r == PassExcessFood(s, cfg, ratio, inp)
    ensures BowelSide(s.(hunger := r.hunger), r)
    ensures r.hunger == MaxReal(s.hunger, 0.0)
    ensures s.hunger >= 0.0 ==> r == s
  {
    if s.hunger < 0.0 {
      var s1 := AddBowel(s, cfg, Convert(ratio, PastFull(s.hunger)), inp);
      AddBowelEffect(s, cfg, Convert(ratio, PastFull(s.hunger)), inp, s1);
    }
  }

  /** Digest lowers the hunger deficit by `amount`, to no less than 0, and otherwise
      changes only the bowel side, which with the Messing switch off it leaves alone. */
  lemma DigestEffect(s: BodyState, cfg: Config, amount: real, ratio: Conversion, first: Inputs, second: Inputs,
                     r: BodyState)
    requires Inv(s) && first.hours >= 0.0 && second.hours >= 0.0
    requires r == Digest(s, cfg, amount, ratio, first, second)
    ensures BowelSide(s.(hunger := r.hunger), r)
    ensures r.hunger == MaxReal(s.hunger - amount, 0.0)
    ensures !cfg.messing ==> r == s.(hunger := r.hunger)
  {
    var s0 := LowerHunger(s, amount);
    var s1 := AddBowel(s0, cfg, Convert(ratio, amount), first);
    AddBowelEffect(s0, cfg, Convert(ratio, amount), first, s1);
    PassExcessFoodEffect(s1, cfg, ratio, second, r);
  }

  /** AddFood ends as Digest leaves the body but for the deficit, the stamina and at most
      one hunger warning: the deficit is DeficitAfter the intake, and only a decay that
      starves past the daily requirement costs stamina, in proportion to how far past. */
  lemma AddFoodEffect(s: BodyState, cfg: Config, amount: real, ratio: Conversion, first: Inputs, second: Inputs,
                      r: BodyState)
    requires Inv(s) && first.hours >= 0.0 && second.hours >= 0.0
    requires r == AddFood(s, cfg, amount, ratio, first, second)
    ensures var d := Digest(s, cfg, amount, ratio, first, second);
            r == d.(hunger := r.hunger, player := r.player, log := r.log) && d.log <= r.log
    ensures BowelSide(s.(hunger := r.hunger, player := r.player), r)
    ensures r.hunger == DeficitAfter(s.hunger, amount, RequiredCaloriesPerDay, !cfg.noHungerAndThirst)
    ensures cfg.noHungerAndThirst || amount >= 0.0 || s.hunger - amount <= RequiredCaloriesPerDay ==>
              r.player == s.player
    ensures !cfg.noHungerAndThirst && amount < 0.0 && s.hunger - amount > RequiredCaloriesPerDay ==>
              r.player == Exhausted(s.player, Fed(s.hunger - amount, RequiredCaloriesPerDay))
  {
    var d := Digest(s, cfg, amount, ratio, first, second);
    DigestEffect(s, cfg, amount, ratio, first, second, d);
    if !cfg.noHungerAndThirst {
      HungerPenaltyEffect(d, amount, Fed(s.hunger, RequiredCaloriesPerDay),
                          Fed(LowerHunger(s, amount).hunger, RequiredCaloriesPerDay), r);
    }
  }

  /** The penalty changes only the deficit, the stamina and the log: past the daily
      requirement on a decay, the stamina changes by `newPercent` of its maximum and the
      deficit is clamped to the requirement; otherwise only a warning may be added. */
  lemma HungerPenaltyEffect(s: BodyState, amount: real, oldPercent: real, newPercent: real, r: BodyState)
    requires r == HungerPenalty(s, amount, oldPercent, newPercent)
    ensures r == s.(hunger := r.hunger, player := r.player, log := r.log) && s.log <= r.log
    ensures s.hunger > RequiredCaloriesPerDay && amount < 0.0 ==>
              r.hunger == RequiredCaloriesPerDay && r.player == Exhausted(s.player, newPercent)
    ensures !(s.hunger > RequiredCaloriesPerDay && amount < 0.0) ==> r.hunger == s.hunger && r.player == s.player
  {
    if s.hunger > RequiredCaloriesPerDay && amount < 0.0 {
      WarnFrame(Starve(s, newPercent), oldPercent, newPercent, HungerTable, false, r);
    } else {
      WarnFrame(s, oldPercent, newPercent, HungerTable, false, r);
    }
  }

  /** Water past full goes on to the bladder at `ratio` and the deficit is cut to 0;
      nothing outside thirst and the bladder side changes, and nothing at all when not
      past full. */
  lemma PassExcessWaterEffect(s: BodyState, cfg: Config, ratio: Conversion, inp: Inputs, r: BodyState)
    requires Inv(s) && r == PassExcessWater(s, cfg, ratio, inp)
    ensures BladderSide(s.(thirst := r.thirst), r)
    ensures r.thirst == MaxReal(s.thirst, 0.0)
    ensures s.thirst >= 0.0 ==> r == s
    ensures cfg.wetting && s.thirst < 0.0 ==> r.bladderFullness == s.bladderFullness + Convert(ratio, PastFull(s.thirst))
  {
    if s.thirst < 0.0 {
      var s1 := AddBladder(s, cfg, Convert(ratio, PastFull(s.thirst)), inp);
      AddBladderEffect(s, cfg, Convert(ratio, PastFull(s.thirst)), inp, s1);
    }
  }

  /** Hydrate lowers the thirst deficit by `amount`, to no less than 0, and otherwise
      changes only the bladder side; with the Wetting switch on the bladder takes the
      converted intake and the converted excess past full, in full. */
  lemma HydrateEffect(s: BodyState, cfg: Config, amount: real, ratio: Conversion, first: Inputs, second: Inputs,
                      r: BodyState)
    requires Inv(s) && r == Hydrate(s, cfg, amount, ratio, first, second)
    ensures BladderSide(s.(thirst := r.thirst), r)
    ensures r.thirst == MaxReal(s.thirst - amount, 0.0)
    ensures !cfg.wetting ==> r == s.(thirst := r.thirst)
    ensures cfg.wetting ==>
              r.bladderFullness == s.bladderFullness + Convert(ratio, amount) + Convert(ratio, Excess(s.thirst, amount))
  {
    var s0 := LowerThirst(s, amount);
    var s1 := AddBladder(s0, cfg, Convert(ratio, amount), first);
    AddBladderEffect(s0, cfg, Convert(ratio, amount), first, s1);
    PassExcessWaterEffect(s1, cfg, ratio, second, r);
  }

  /** AddWater ends as Hydrate leaves the body but for the deficit, the health and at most
      one thirst warning: the deficit is DeficitAfter the intake, and only a decay that
      dehydrates past the daily requirement costs health, in proportion to how far past
      and truncated to whole points. */
  lemma AddWaterEffect(s: BodyState, cfg: Config, amount: real, ratio: Conversion, first: Inputs, second: Inputs,
                       r: BodyState)
    requires Inv(s) && r == AddWater(s, cfg, amount, ratio, first, second)
    ensures var h := Hydrate(s, cfg, amount, ratio, first, second);
            r == h.(thirst := r.thirst, player := r.player, log := r.log) && h.log <= r.log
    ensures BladderSide(s.(thirst := r.thirst, player := r.player), r)
    ensures r.thirst == DeficitAfter(s.thirst, amount, RequiredWaterPerDay, !cfg.noHungerAndThirst)
    ensures cfg.noHungerAndThirst || amount >= 0.0 || s.thirst - amount <= RequiredWaterPerDay ==>
              r.player == s.player
    ensures !cfg.noHungerAndThirst && amount < 0.0 && s.thirst - amount > RequiredWaterPerDay ==>
              r.player == Wounded(s.player, Fed(s.thirst - amount, RequiredWaterPerDay))
  {
    var h := Hydrate(s, cfg, amount, ratio, first, second);
    HydrateEffect(s, cfg, amount, ratio, first, second, h);
    if !cfg.noHungerAndThirst {
      ThirstPenaltyEffect(h, amount, Fed(s.thirst, RequiredWaterPerDay),
                          Fed(LowerThirst(s, amount).thirst, RequiredWaterPerDay), r);
    }
  }

  /** The penalty changes only the deficit, the health and the log: past the daily
      requirement on a decay, the health changes by `newPercent` of its maximum, truncated,
      and the deficit is clamped to the requirement; otherwise only a warning may be added. */
  lemma ThirstPenaltyEffect(s: BodyState, amount: real, oldPercent: real, newPercent: real, r: BodyState)
    requires r == ThirstPenalty(s, amount, oldPercent, newPercent)
    ensures r == s.(thirst := r.thirst, player := r.player, log := r.log) && s.log <= r.log
    ensures s.thirst > RequiredWaterPerDay && amount < 0.0 ==>
              r.thirst == RequiredWaterPerDay && r.player == Wounded(s.player, newPercent)
    ensures !(s.thirst > RequiredWaterPerDay && amount < 0.0) ==> r.thirst == s.thirst && r.player == s.player
  {
    if s.thirst > RequiredWaterPerDay && amount < 0.0 {
      WarnFrame(Parch(s, newPercent), oldPercent, newPercent, ThirstTable, false, r);
    } else {
      WarnFrame(s, oldPercent, newPercent, ThirstTable, false, r);
    }
  }

  // ----- Drinking -----

  /** Drinking `amount` of at most the thirst lowers the thirst by exactly that much, never
      hurts, and ends with the drinking cue; only the bladder side changes besides. */
  lemma DrinkAmountEffect(s: BodyState, cfg: Config, amount: real, first: Inputs, second: Inputs,
                          cue: Event, s1: BodyState, r: BodyState)
    requires Valid(s) && 0.0 <= amount <= s.thirst
    requires s1 == AddWater(s, cfg, amount, Half, first, second) && r == s1.(log := s1.log + [cue])
    ensures Valid(r) && r.thirst == s.thirst - amount && BladderSide(s.(thirst := r.thirst), r)
    ensures r.log[|r.log| - 1] == cue
  {
    AddWaterEffect(s, cfg, amount, Half, first, second, s1);
  }

  /** A can holding the whole thirst quenches it and is paid for in whole hundreds;
      a can holding less is emptied into the thirst; an empty can only complains. Only
      thirst and the bladder side change; the deficits stay non-negative. */
  lemma DrinkWateringCanEffect(s: BodyState, cfg: Config, waterLeft: int, first: Inputs, second: Inputs,
                               r: (BodyState, int))
    requires Valid(s) && r == DrinkWateringCan(s, cfg, waterLeft, first, second)
    ensures Valid(r.0) && BladderSide(s.(thirst := r.0.thirst), r.0)
    ensures r.1 == WaterLeftAfterDrink(waterLeft, s.thirst)
    ensures CanWater(waterLeft) >= s.thirst ==> r.0.thirst == 0.0
    ensures CanWater(waterLeft) < s.thirst && waterLeft > 0 ==> r.0.thirst == s.thirst - CanWater(waterLeft)
    ensures CanWater(waterLeft) < s.thirst && waterLeft <= 0 ==> r.0 == s.(log := s.log + [OutOfWater])
    ensures CanWater(waterLeft) >= s.thirst || waterLeft > 0 ==> r.0.log[|r.0.log| - 1] == DrinkCue(false)
  {
    if CanWater(waterLeft) >= s.thirst {
      var s1 := AddWater(s, cfg, s.thirst, Half, first, second);
      DrinkAmountEffect(s, cfg, s.thirst, first, second, DrinkCue(false), s1, r.0);
    } else if waterLeft > 0 {
      var s1 := AddWater(s, cfg, CanWater(waterLeft), Half, first, second);
      DrinkAmountEffect(s, cfg, CanWater(waterLeft), first, second, DrinkCue(false), s1, r.0);
    }
  }

  /** A water source quenches the whole thirst; only the bladder side changes besides. */
  lemma DrinkWaterSourceEffect(s: BodyState, cfg: Config, first: Inputs, second: Inputs, r: BodyState)
    requires Valid(s) && r == DrinkWaterSource(s, cfg, first, second)
    ensures Valid(r) && r.thirst == 0.0 && BladderSide(s.(thirst := 0.0), r)
    ensures r.log[|r.log| - 1] == DrinkCue(true)
  {
    var s1 := AddWater(s, cfg, s.thirst, Half, first, second);
    DrinkAmountEffect(s, cfg, s.thirst, first, second, DrinkCue(true), s1, r);
  }

  // ----- Time -----

  /** Stamina spent is charged as a food intake of `num`/300 of the food store and a water
      intake of `num`/100 of the water store; continence, sleep and the log's past stay. */
  lemma ChargeStaminaEffect(s: BodyState, cfg: Config, num: real, a: Inputs, b: Inputs, c: Inputs, d: Inputs,
                            r: BodyState)
    requires Inv(s) && a.hours >= 0.0 && b.hours >= 0.0 && r == ChargeStamina(s, cfg, num, a, b, c, d)
    ensures Keeps(s, r) && SameControl(s, r) && OnlySoiled(s, r)
    ensures r.hunger == DeficitAfter(s.hunger, Share(num, 300.0, s.ext.maxFood), RequiredCaloriesPerDay,
                                     !cfg.noHungerAndThirst)
    ensures r.thirst == DeficitAfter(s.thirst, Share(num, 100.0, s.ext.maxWater), RequiredWaterPerDay,
                                     !cfg.noHungerAndThirst)
  {
    var f := AddFood(s, cfg, Share(num, 300.0, s.ext.maxFood), Half, a, b);
    AddFoodEffect(s, cfg, Share(num, 300.0, s.ext.maxFood), Half, a, b, f);
    AddWaterEffect(f, cfg, Share(num, 100.0, s.ext.maxWater), Twentieth, c, d, r);
  }

  /** Stamina gained is not charged; stamina spent is, and the deficits stay non-negative;
      after any change the stamina seen becomes the new reference. */
  lemma HandleStaminaEffect(s: BodyState, cfg: Config, a: Inputs, b: Inputs, c: Inputs, d: Inputs, r: BodyState)
    requires Inv(s) && a.hours >= 0.0 && b.hours >= 0.0 && r == HandleStamina(s, cfg, a, b, c, d)
    ensures Keeps(s, r) && SameControl(s, r) && OnlySoiled(s, r)
    ensures s.hunger >= 0.0 ==> r.hunger >= 0.0
    ensures s.thirst >= 0.0 ==> r.thirst >= 0.0
    ensures StaminaUsed(s.player.stamina, s.lastStamina) == 0.0 ==> r == s
    ensures StaminaUsed(s.player.stamina, s.lastStamina) > 0.0 ==> r == s.(lastStamina := s.player.stamina)
    ensures StaminaUsed(s.player.stamina, s.lastStamina) != 0.0 ==> r.lastStamina == r.player.stamina
  {
    var num := StaminaUsed(s.player.stamina, s.lastStamina);
    if num < 0.0 {
      var s1 := ChargeStamina(s, cfg, num, a, b, c, d);
      ChargeStaminaEffect(s, cfg, num, a, b, c, d, s1);
    }
  }

  /** What the stomach loses goes to the bowels and the bladder, never more than it holds
      nor more than its rate for the hours; the deficits and the player are untouched. */
  lemma HandleStomachEffect(s: BodyState, cfg: Config, hours: real, a: Inputs, b: Inputs, r: BodyState)
    requires Inv(s) && a.hours >= 0.0 && r == HandleStomach(s, cfg, hours, a, b)
    ensures WasteSide(s, r) && |r.log| > |s.log|
    ensures r.log[|r.log| - 1] == StomachLoss(FoodLost(s.ext, hours), WaterLost(s.ext, hours))
    ensures FoodLost(s.ext, hours) <= s.ext.stomachFood && FoodLost(s.ext, hours) <= s.ext.foodDay * hours
    ensures WaterLost(s.ext, hours) <= s.ext.stomachWater && WaterLost(s.ext, hours) <= s.ext.glassOfWater * 2.0 * hours
  {
    var s1 := AddBowel(s, cfg, FoodLost(s.ext, hours), a);
    AddBowelEffect(s, cfg, FoodLost(s.ext, hours), a, s1);
    var s2 := AddBladder(s1, cfg, WaterLost(s.ext, hours), b);
    AddBladderEffect(s1, cfg, WaterLost(s.ext, hours), b, s2);
  }

  /** The deficits, sleep, the unseen state, the log's past, continence and the garments
      worn all stay. */
  predicate Untouched(s: BodyState, r: BodyState) {
    Keeps(s, r) && SameControl(s, r) && OnlySoiled(s, r) && r.hunger == s.hunger && r.thirst == s.thirst
  }

  /** HandleStamina, seen from the deficits: nothing changes them when no stamina changed. */
  lemma StaminaDeficits(s: BodyState, cfg: Config, a: Inputs, b: Inputs, c: Inputs, d: Inputs, r: BodyState)
    requires Inv(s) && a.hours >= 0.0 && b.hours >= 0.0 && r == HandleStamina(s, cfg, a, b, c, d)
    ensures Keeps(s, r) && SameControl(s, r) && OnlySoiled(s, r)
    ensures s.player.stamina == s.lastStamina ==> Untouched(s, r)
  {
    HandleStaminaEffect(s, cfg, a, b, c, d, r);
  }

  /** AddWater, seen from the deficits: only thirst moves, to DeficitAfter. */
  lemma WaterDeficit(s: BodyState, cfg: Config, amount: real, a: Inputs, b: Inputs, r: BodyState)
    requires Inv(s) && r == AddWater(s, cfg, amount, Half, a, b)
    ensures Keeps(s, r) && SameControl(s, r) && OnlySoiled(s, r) && r.hunger == s.hunger
    ensures r.thirst == DeficitAfter(s.thirst, amount, RequiredWaterPerDay, !cfg.noHungerAndThirst)
  {
    AddWaterEffect(s, cfg, amount, Half, a, b, r);
  }

  /** AddFood, seen from the deficits: only hunger moves, to DeficitAfter. */
  lemma FoodDeficit(s: BodyState, cfg: Config, amount: real, a: Inputs, b: Inputs, r: BodyState)
    requires Inv(s) && a.hours >= 0.0 && b.hours >= 0.0 && r == AddFood(s, cfg, amount, Half, a, b)
    ensures Keeps(s, r) && SameControl(s, r) && OnlySoiled(s, r) && r.thirst == s.thirst
    ensures r.hunger == DeficitAfter(s.hunger, amount, RequiredCaloriesPerDay, !cfg.noHungerAndThirst)
  {
    AddFoodEffect(s, cfg, amount, Half, a, b, r);
  }

  /** The stomach's loss leaves the deficits alone. */
  lemma StomachDeficits(s: BodyState, cfg: Config, hours: real, a: Inputs, b: Inputs, r: BodyState)
    requires Inv(s) && a.hours >= 0.0 && r == HandleStomach(s, cfg, hours, a, b)
    ensures Untouched(s, r)
  {
    HandleStomachEffect(s, cfg, hours, a, b, r);
  }

  /** A wetting leaves the deficits alone. */
  lemma WetDeficits(s: BodyState, inp: Inputs, r: BodyState)
    requires Inv(s) && r == Wet(s, false, true, inp)
    ensures Untouched(s, r)
  {
    WetEffect(s, false, true, inp, r);
  }

  /** A mess leaves the deficits alone. */
  lemma MessDeficits(s: BodyState, hours: real, inp: Inputs, r: BodyState)
    requires Inv(s) && hours >= 0.0 && r == Mess(s, hours, inp)
    ensures Untouched(s, r)
  {
    MessEffect(s, hours, inp, r);
  }

  /** The first half of an hour's tick leaves the deficits non-negative; with no stamina
      change since the last tick they are exactly the day's decay over `hours` applied to
      the deficits before. */
  lemma SpendTimeEffect(s: BodyState, cfg: Config, hours: real, ins: nat -> Inputs, r: BodyState)
    requires Inv(s) && (forall i: nat :: ins(i).hours >= 0.0) && r == SpendTime(s, cfg, hours, ins)
    ensures Valid(r) && Keeps(s, r) && SameControl(s, r) && OnlySoiled(s, r)
    ensures s.player.stamina == s.lastStamina ==>
              r.thirst == DeficitAfter(s.thirst, Decay(RequiredWaterPerDay, hours), RequiredWaterPerDay,
                                       !cfg.noHungerAndThirst) &&
              r.hunger == DeficitAfter(s.hunger, Decay(RequiredCaloriesPerDay, hours), RequiredCaloriesPerDay,
                                       !cfg.noHungerAndThirst)
  {
    var s1 := HandleStamina(s, cfg, ins(0), ins(1), ins(2), ins(3));
    StaminaDeficits(s, cfg, ins(0), ins(1), ins(2), ins(3), s1);
    var s2 := AddWater(s1, cfg, Decay(RequiredWaterPerDay, hours), Half, ins(4), ins(5));
    WaterDeficit(s1, cfg, Decay(RequiredWaterPerDay, hours), ins(4), ins(5), s2);
    FoodDeficit(s2, cfg, Decay(RequiredCaloriesPerDay, hours), ins(6), ins(7), r);
  }

  /** A whole tick keeps the deficits SpendTime leaves: the stomach, the wetting and the mess
      that follow touch only the waste side. */
  lemma HandleTimeEffect(s: BodyState, cfg: Config, hours: real, ins: nat -> Inputs, r: BodyState)
    requires Inv(s) && hours >= 0.0 && (forall i: nat :: ins(i).hours >= 0.0) && r == HandleTime(s, cfg, hours, ins)
    ensures Valid(r) && Keeps(s, r) && SameControl(s, r) && OnlySoiled(s, r)
    ensures s.player.stamina == s.lastStamina ==>
              r.thirst == DeficitAfter(s.thirst, Decay(RequiredWaterPerDay, hours), RequiredWaterPerDay,
                                       !cfg.noHungerAndThirst) &&
              r.hunger == DeficitAfter(s.hunger, Decay(RequiredCaloriesPerDay, hours), RequiredCaloriesPerDay,
                                       !cfg.noHungerAndThirst)
  {
    var s3 := SpendTime(s, cfg, hours, ins);
    SpendTimeEffect(s, cfg, hours, ins, s3);
    PassWasteEffect(s3, cfg, hours, ins, r);
  }

  /** The stomach, the wetting and the mess that end a tick leave the deficits alone. */
  lemma PassWasteEffect(s: BodyState, cfg: Config, hours: real, ins: nat -> Inputs, r: BodyState)
    requires Inv(s) && hours >= 0.0 && (forall i: nat :: ins(i).hours >= 0.0) && r == PassWaste(s, cfg, hours, ins)
    ensures Untouched(s, r)
  {
    var s4 := HandleStomach(s, cfg, hours, ins(8), ins(9));
    StomachDeficits(s, cfg, hours, ins(8), ins(9), s4);
    AccidentsEffect(s4, hours, ins(10), ins(11), r);
  }

  /** The wetting and the mess under way leave the deficits alone. */
  lemma AccidentsEffect(s: BodyState, hours: real, wetInputs: Inputs, messInputs: Inputs, r: BodyState)
    requires Inv(s) && hours >= 0.0 && r == Accidents(s, hours, wetInputs, messInputs)
    ensures Untouched(s, r)
  {
    var s5 := if s.isWetting then Wet(s, false, true, wetInputs) else s;
    if s.isWetting {
      WetDeficits(s, wetInputs, s5);
    }
    if s5.isMessing {
      MessDeficits(s5, hours, messInputs, r);
    }
  }

  // ----- Morning and night -----

  /** The morning changes only the stores, the bedding's drying time, the player, the
      night's toilet counters, sleep, the pants and the log: Easymode refills the stores
      and skips the bedding check; with a need switched on and outside Easymode, the bedding
      costs stamina and sets its drying time by BeddingPenalty's tier. */
  lemma HandleMorningEffect(s: BodyState, cfg: Config, roll: int, timeOfDay: int, wardrobe: Wardrobe,
                            r: BodyState)
    requires Inv(s) && WardrobeOk(wardrobe) && 1 <= roll <= 12
    requires r == HandleMorning(s, cfg, roll, timeOfDay, wardrobe)
    ensures r == s.(food := r.food, water := r.water, beddingDryTime := r.beddingDryTime, player := r.player,
                    peedToiletLastNight := 0, poopedToiletLastNight := 0, isSleeping := false,
                    pants := Fresh("blue jeans", wardrobe), log := r.log)
    ensures cfg.easymode ==> r.food == s.ext.maxFood && r.water == s.ext.maxWater
    ensures !cfg.easymode ==> r.food == s.food && r.water == s.water
    ensures !cfg.wetting && !cfg.messing ==> r.log == s.log
    ensures cfg.wetting || cfg.messing ==> r.log == s.log + [MorningCue]
    ensures cfg.easymode || (!cfg.wetting && !cfg.messing) ==>
              r.beddingDryTime == s.beddingDryTime && r.player == s.player
    ensures !cfg.easymode && (cfg.wetting || cfg.messing) ==>
              var p := BeddingPenalty(roll, s.pants, s.ext.glassOfWater);
              r.player == s.player.(stamina := s.player.stamina - p) &&
              r.beddingDryTime == (if p == 20.0 then timeOfDay + 1000 else if p == 10.0 then timeOfDay + 600 else 0)
  {
    var s1 := if cfg.easymode then s.(food := s.ext.maxFood, water := s.ext.maxWater) else s;
    if cfg.wetting || cfg.messing {
      var s2 := if cfg.easymode then s1 else DryBedding(s1, roll, timeOfDay);
      assert r == WakeUp(s2.(log := s2.log + [MorningCue]), wardrobe);
      assert s2 == s1.(beddingDryTime := s2.beddingDryTime, player := s2.player);
    } else {
      assert r == WakeUp(s1, wardrobe);
    }
  }

  /** Going to bed puts the body to sleep in the bed; with a bedtime set, the night is a
      tick of SleepHours whose deficits are exactly the day's decay over those hours, and
      which ends in the same bed and underwear, only wetter or messier. */
  lemma HandleNightEffect(s: BodyState, cfg: Config, bedtime: int, wardrobe: Wardrobe, ins: nat -> Inputs,
                          r: BodyState)
    requires Inv(s) && WardrobeOk(wardrobe) && bedtime <= 3000 && (forall i: nat :: ins(i).hours >= 0.0)
    requires r == HandleNight(s, cfg, bedtime, wardrobe, ins)
    ensures r.isSleeping && r.ext == s.ext && s.log <= r.log && SameControl(s, r)
    ensures bedtime <= 0 ==> r == s.(lastStamina := s.player.stamina, pants := Fresh("bed", wardrobe), isSleeping := true)
    ensures bedtime > 0 ==> Valid(r)
    ensures bedtime > 0 ==>
              r.pants == Fresh("bed", wardrobe).(wetness := r.pants.wetness, messiness := r.pants.messiness) &&
              r.underwear == s.underwear.(wetness := r.underwear.wetness, messiness := r.underwear.messiness) &&
              s.underwear.wetness <= r.underwear.wetness && s.underwear.messiness <= r.underwear.messiness
    ensures bedtime > 0 ==>
              r.thirst == DeficitAfter(s.thirst, Decay(RequiredWaterPerDay, SleepHours(bedtime)),
                                       RequiredWaterPerDay, !cfg.noHungerAndThirst) &&
              r.hunger == DeficitAfter(s.hunger, Decay(RequiredCaloriesPerDay, SleepHours(bedtime)),
                                       RequiredCaloriesPerDay, !cfg.noHungerAndThirst)
  {
    var s1 := s.(lastStamina := s.player.stamina, pants := Fresh("bed", wardrobe), isSleeping := true);
    if bedtime > 0 {
      HandleTimeEffect(s1, cfg, SleepHours(bedtime), ins, r);
    }
  }
}
