# Body of the Stardew Valley Regression mod, in Dafny

This project models `Body` from `Regression/PrimevalTitmouse/Body.cs`. `Body` is the per-character physiology of the mod. It tracks four needs:

- hunger and thirst, kept as deficits against a daily requirement of 3500 calories and 14000 mL;
- bladder and bowel fullness, each against a capacity that shrinks as continence is lost.

It moves quantities between the needs. Food and water taken in, or past full, go on to the bowels and the bladder at a conversion ratio, and spent stamina is charged as food and water. A need that reaches capacity triggers an accident: the garments absorb it, underwear first and pants second. At night a whole night of wettings is rolled at once. The body warns the player when a need falls across a threshold, and the toilet-training rules move continence up or down by one step per attempt. Morning and night handling includes the bedding check and the night's batch of time.

The model has four parts:

- **`Rules`** (`rules.dfy`) holds the numeric rules:
  - the constants;
  - the continence and capacity clamps;
  - the urge probability and the overflow-debuff tiers;
  - the night-wetting schedule, as a list of events;
  - the deficit update and the watering-can bookkeeping.
- **`Thresholds`** (`thresholds.dfy`) is the threshold engine behind `Warn`. It contains a specification, `FirstCrossing`, and the loop itself, `Scan`.
- **`Garments`** (`garments.dfy`) holds underwear and pants as values, and the pouring of urine and faeces through them.
- **`BodyModel`** (`body_model.dfy`) describes the whole state as one `BodyState` value. It has one function per method of `Body.cs`, giving the state that method leaves behind.
  - Presentation calls (animations, `Warn`/`Write` messages, emotes, buffs) become entries of an event `log`.
  - The host player's stamina and health live in `player`.
  - Random draws, the villager check, the clock and the bedtime become parameters.

Around the model:

- **`BodyFacts`** (`body_facts.dfy`) states each operation's effect as a lemma. It says what changes, how, what stays, and what is logged.
- **`BodyProps`** (`body_props.dfy`) proves properties that span several operations.
- **`Bodies.Body`** (`body.dfy`) is the class with the fields of `Body.cs`, which its methods update in place. Each method is proved to end in the state the matching `BodyModel` function gives, so every fact about those functions holds of the object.

Quantities are `real`. Single-precision rounding is not modelled. The C# `(int)` cast is modelled as truncation toward zero (`Rules.Trunc`).

## Model

| member | source | states |
|---|---|---|
| Thresholds.FirstCrossing | Regression/PrimevalTitmouse/Body.cs:597-609 | returns index `i` exactly when threshold `i` is crossed downward (old > t ≥ new) and no earlier index is; returns None exactly when no threshold is crossed |
| Thresholds.FirstCrossingUnique | Regression/PrimevalTitmouse/Body.cs:597-609 | a first crossing by index is the one the search reports, so at most one message is chosen |
| Thresholds.NoCrossingWithoutFall | Regression/PrimevalTitmouse/Body.cs:599 | a value that did not fall crosses no threshold |
| Thresholds.Scan | Regression/PrimevalTitmouse/Body.cs:597-609 | the loop stops at the first crossed index, or reports none after checking every index; its result equals FirstCrossing |
| Rules.Trunc | Regression/PrimevalTitmouse/Body.cs:397 | the `(int)` cast rounds toward zero: for x ≥ 0, n ≤ x < n+1; for x < 0, n−1 < x ≤ n |
| Rules.TruncMonotone | Regression/PrimevalTitmouse/Body.cs:501 | the cast preserves order |
| Rules.ClampContinence | Regression/PrimevalTitmouse/Body.cs:194-195 | continence ends in [0.05, 1]; a value already inside is kept; one above is cut to 1 and one below raised to 0.05 |
| Rules.CapacityFor | Regression/PrimevalTitmouse/Body.cs:197-201 | capacity is continence × base, never below 20% of base; it never exceeds base while continence ≤ 1 |
| Rules.UrgeProbability | Regression/PrimevalTitmouse/Body.cs:84 | certain (1) at or below empty; otherwise p × 4 × fullness = continence |
| Rules.UrgeFallsAsFullnessRises | Regression/PrimevalTitmouse/Body.cs:84 | the fuller the need, the smaller the chance of an urge warning |
| Rules.PeeSeverity | Regression/PrimevalTitmouse/Body.cs:501 | the defence debuff is between −10 and −1; −10 exactly when wetness ≥ absorbency; −1 exactly when wetness < 20% of absorbency |
| Rules.PeeSeverityMonotone | Regression/PrimevalTitmouse/Body.cs:501 | wetter pants never give a milder debuff |
| Rules.PoopSeverity | Regression/PrimevalTitmouse/Body.cs:518-519 | the speed debuff is −1, −2 or −3; −1 exactly below half the containment; −3 exactly past the containment |
| Rules.PoopSeverityMonotone | Regression/PrimevalTitmouse/Body.cs:518-519 | messier pants never give a milder debuff |
| Rules.WettingCount | Regression/PrimevalTitmouse/Body.cs:397-402 | for positive fullness, (n−1) capacities < fullness ≤ n capacities; no wettings when empty |
| Rules.Remainder | Regression/PrimevalTitmouse/Body.cs:398 | for non-negative fullness, the leftover over whole capacities is in [0, capacity) |
| Rules.Events | Regression/PrimevalTitmouse/Body.cs:404-419 | one event per wetting; an event is a toilet trip exactly when the night is voluntary or that wake-up roll is below continence; an accident deposits the last amount if it is the last wetting and one capacity otherwise |
| Rules.NightEventsAsWritten | Regression/PrimevalTitmouse/Body.cs:397-419 | the night's events as the code computes them, one per wetting |
| Rules.LastAmount | Regression/PrimevalTitmouse/Body.cs:398-416 | the last wetting of a non-empty bladder deposits a positive amount of at most one capacity |
| Rules.NightEvents | Regression/PrimevalTitmouse/Body.cs:397-419 | one event per wetting; every accident deposits a positive amount of at most one capacity; a voluntary night has only toilet trips |
| Rules.DepositedFull | Regression/PrimevalTitmouse/Body.cs:413-414 | k accidents of one capacity deposit k capacities |
| Rules.DepositedAtMost | Regression/PrimevalTitmouse/Body.cs:404-419 | k events of at most one capacity deposit between 0 and k capacities |
| Rules.DepositedAtMostLast | Regression/PrimevalTitmouse/Body.cs:404-419 | events of at most one capacity whose last accident deposits at most `last` deposit between 0 and (n−1) capacities plus `last` |
| Rules.LastAmountCompletes | Regression/PrimevalTitmouse/Body.cs:397-417 | n−1 capacities plus the last amount make up the whole fullness |
| Rules.NightDepositsAtMostFullness | Regression/PrimevalTitmouse/Body.cs:397-419 | whatever the wake-up rolls, a night deposits between 0 and what the bladder held |
| Rules.FullNightDepositsAtMost | Regression/PrimevalTitmouse/Body.cs:397-419 | for a non-empty bladder, the night's deposits are at most its fullness |
| Rules.NightAccidentsDepositFullness | Regression/PrimevalTitmouse/Body.cs:397-419 | a night without a toilet trip deposits exactly the fullness |
| Rules.ExactMultipleLosesOneCapacity | Regression/PrimevalTitmouse/Body.cs:397-419 | as written, a fullness of exactly k capacities deposits only k−1 of them |
| Rules.ThreeAndAHalfCapacities | Regression/PrimevalTitmouse/Body.cs:397-419 | 350 over a capacity of 100 with no wake-ups is three wettings of 100 and one of 50 |
| Rules.DeficitAfter | Regression/PrimevalTitmouse/Body.cs:127-149 | the deficit after an intake is never negative and is 0 past full; with penalties on, a decay beyond the requirement is clamped to it; otherwise it is deficit − amount |
| Rules.Convert | Regression/PrimevalTitmouse/Body.cs:131 | what reaches the waste side has the intake's sign and at most half its size |
| Rules.ConvertAdds | Regression/PrimevalTitmouse/Body.cs:131-136 | converting the intake and the excess separately forwards as much as converting their sum |
| Rules.PastFull | Regression/PrimevalTitmouse/Body.cs:136 | the excess past full exactly cancels a negative deficit |
| Rules.Excess | Regression/PrimevalTitmouse/Body.cs:133-137 | the excess is never negative and exactly brings a deficit that went below zero back to zero |
| Rules.WaterLeftAfterDrink | Regression/PrimevalTitmouse/Body.cs:285-296 | a can never gains water; a can holding the thirst is drawn down by the thirst in whole hundreds |
| Rules.WaterLeftAsWritten | Regression/PrimevalTitmouse/Body.cs:285-296 | as written, the can never gains water; a can too small for the thirst ends empty if it held water, and is left as it was if it held none |
| Rules.CanNeverDrainsAsWritten | Regression/PrimevalTitmouse/Body.cs:287-288 | as written, a can holding enough is never drawn down |
| Rules.FiveHundredFromForty | Regression/PrimevalTitmouse/Body.cs:287-288 | a thirst of 500 from a can at 40 leaves 40 as written and 35 corrected |
| Rules.SleepHours | Regression/PrimevalTitmouse/Body.cs:490-495 | a night from a bedtime up to 26:00 counts at least 4/3 body-hours, and from any positive bedtime less than 10 |
| Garments.Garment | Regression/PrimevalTitmouse/Body.cs:249 | a garment of the named kind with the given wetness and messiness and the kind's capacities |
| Garments.Fresh | Regression/PrimevalTitmouse/Body.cs:241 | a clean garment of the named kind |
| Garments.AddPee | Regression/PrimevalTitmouse/Body.cs:424 | only wetness changes; the garment keeps what fits and returns the rest, losing nothing; it overflows only when full |
| Garments.AddPoop | Regression/PrimevalTitmouse/Body.cs:333 | as AddPee, for messiness and containment |
| Garments.PourPee | Regression/PrimevalTitmouse/Body.cs:424 | underwear first, its overflow into the pants; the total is kept; neither garment gets drier; the pants are untouched while the underwear has room |
| Garments.PourPoop | Regression/PrimevalTitmouse/Body.cs:328 | as PourPee, for messiness: the total is kept and neither garment gets cleaner |
| Garments.PourNight | Regression/PrimevalTitmouse/Body.cs:404-419 | a night changes only wetness, never lowers it, and adds no more than the accidents deposit |
| Garments.PourNightToilets | Regression/PrimevalTitmouse/Body.cs:407-408 | a night of toilet trips leaves both garments unchanged |
| BodyModel.Initial | Regression/PrimevalTitmouse/Body.cs:49-59 | a new body is valid, awake, at full continence and base capacities, with nothing logged |
| BodyModel.MessAmount | Regression/PrimevalTitmouse/Body.cs:317 | one mess takes a non-negative amount |
| BodyModel.MessDeposit | Regression/PrimevalTitmouse/Body.cs:319-334 | depositing a mess leaves the bowels alone and the body sound |
| BodyModel.ChangeUnderwear | Regression/PrimevalTitmouse/Body.cs:237-245 | returns the old underwear; the new one is worn with clean blue jeans; both debuffs are cleared, then the change cue; nothing else changes |
| BodyModel.BeddingPenalty | Regression/PrimevalTitmouse/Body.cs:456-470 | 20 exactly for a roll ≤ 2 on messy or soaked bedding; 10 exactly for a roll ≤ 5 on wet bedding otherwise; else 0 |
| BodyModel.DryBedding | Regression/PrimevalTitmouse/Body.cs:456-471 | stamina falls by the penalty; the bedding dries 1000 or 600 after now, or at once; nothing else changes |
| BodyModel.HandleMorning | Regression/PrimevalTitmouse/Body.cs:440-480 | wakes the body with the toilet counters at 0 and clean blue jeans, keeping the underwear; bedding costs stamina only outside Easymode with a need switched on |
| BodyFacts.WarnFrame | Regression/PrimevalTitmouse/Body.cs:593-610 | Warn changes nothing but the log, which only grows |
| BodyFacts.WarnMessage | Regression/PrimevalTitmouse/Body.cs:593-610 | adds one message exactly when awake and a threshold is crossed; it is for the first crossed index, delivered as a warning or a written message |
| BodyFacts.ChangeContinenceEffect | Regression/PrimevalTitmouse/Body.cs:187-234 | continence becomes the clamped continence − percent, and capacity follows it within [20%, 100%] of base; the other need and all else stay; no message for percent ≥ 0 |
| BodyFacts.BladderContinenceEffect | Regression/PrimevalTitmouse/Body.cs:187-209 | the same, for the bladder |
| BodyFacts.BowelContinenceEffect | Regression/PrimevalTitmouse/Body.cs:212-234 | the same, for the bowels |
| BodyFacts.StartWettingEffect | Regression/PrimevalTitmouse/Body.cs:369-387 | continence is unchanged with the switch off or below the attempt threshold; otherwise it rises one step for an involuntary wetting or one below the training threshold, and falls one step for a voluntary wetting at or above it |
| BodyFacts.StartMessingEffect | Regression/PrimevalTitmouse/Body.cs:341-359 | the same for the bowels, except that continence rises one step for an involuntary mess or one above the training threshold, and falls one step for a voluntary mess at or below it |
| BodyFacts.EndWettingFrame | Regression/PrimevalTitmouse/Body.cs:431-434 | clears isWetting and logs the end cue first; nothing else changes |
| BodyFacts.EndWettingMessages | Regression/PrimevalTitmouse/Body.cs:434-437 | the overflow line and a PeeSeverity debuff are added exactly when awake, no villager intervenes, the pants are wet and the underwear was being wet |
| BodyFacts.EndMessingFrame | Regression/PrimevalTitmouse/Body.cs:361-364 | logs the end cue first; isMessing is left as it was; nothing else changes |
| BodyFacts.EndMessingMessages | Regression/PrimevalTitmouse/Body.cs:364-366 | the overflow line and a PoopSeverity debuff are added exactly when awake, no villager intervenes, the pants are messy and the underwear was being messed |
| BodyFacts.WetEffect | Regression/PrimevalTitmouse/Body.cs:389-430 | only garment wetness (never down), bladder, wetting state and log change; the bladder is not drawn down except from below empty to empty, which also ends the wetting |
| BodyFacts.FinishWettingEffect | Regression/PrimevalTitmouse/Body.cs:426-429 | a bladder above empty leaves everything as it was; at or below empty it is emptied and the wetting ends |
| BodyFacts.SoakEffect | Regression/PrimevalTitmouse/Body.cs:391-425 | awake and not in underwear: nothing; awake in underwear: one capacity is poured; asleep: the night's events are poured |
| BodyFacts.MessDepositFrame | Regression/PrimevalTitmouse/Body.cs:319-334 | only garments, voluntariness and the night's toilet count change; the same garments are worn, never cleaner or drier |
| BodyFacts.MessDepositEffect | Regression/PrimevalTitmouse/Body.cs:319-334 | asleep, a roll below continence is a counted toilet trip; an accident, or an awake mess in the underwear, goes into the garments; otherwise nothing |
| BodyFacts.MessEffect | Regression/PrimevalTitmouse/Body.cs:315-339 | the bowels lose MessAmount (to no less than empty) and the deposit is MessDeposit's; the end cue is logged exactly when the bowels empty |
| BodyFacts.FinishMessingEffect | Regression/PrimevalTitmouse/Body.cs:335-338 | bowels above empty leave everything as it was; at or below empty they are emptied and the mess ends |
| BodyFacts.UrgeEffect | Regression/PrimevalTitmouse/Body.cs:84-87 | at most one warning and nothing else; none when the roll is at or above the urge probability |
| BodyFacts.AddBladderEffect | Regression/PrimevalTitmouse/Body.cs:63-89 | with Wetting off, nothing changes; on, the bladder rises by exactly the amount, and only the bladder side changes |
| BodyFacts.AddBladderBelow | Regression/PrimevalTitmouse/Body.cs:80-88 | below capacity, only the bladder rises, with at most one urge warning |
| BodyFacts.AddBladderFull | Regression/PrimevalTitmouse/Body.cs:76-78 | at capacity, an involuntary wetting in the underwear: one capacity awake, or the night's events asleep |
| BodyFacts.AddBowelEffect | Regression/PrimevalTitmouse/Body.cs:92-118 | with Messing off, nothing changes; on, only the bowel side changes |
| BodyFacts.AddBowelBelow | Regression/PrimevalTitmouse/Body.cs:109-117 | below capacity, only the bowels rise, with at most one urge warning |
| BodyFacts.AddBowelFull | Regression/PrimevalTitmouse/Body.cs:105-107 | at capacity, the bowels lose one mess's amount (to no less than empty), and the garments, voluntariness and toilet count are those of that mess's deposit |
| BodyFacts.PassExcessFoodEffect | Regression/PrimevalTitmouse/Body.cs:133-138 | hunger ends at max(hunger, 0); only the bowel side changes besides; nothing changes when not past full |
| BodyFacts.DigestEffect | Regression/PrimevalTitmouse/Body.cs:126-138 | hunger ends at max(hunger − amount, 0); only the bowel side changes besides, and not that with Messing off |
| BodyFacts.AddFoodEffect | Regression/PrimevalTitmouse/Body.cs:123-152 | hunger ends at DeficitAfter the intake; stamina changes only when a decay starves past the requirement, and then by the fed fraction of its maximum |
| BodyFacts.HungerPenaltyEffect | Regression/PrimevalTitmouse/Body.cs:140-151 | past the requirement on a decay, stamina is hit and the deficit clamped; otherwise only a warning may be added |
| BodyFacts.PassExcessWaterEffect | Regression/PrimevalTitmouse/Body.cs:164-169 | thirst ends at max(thirst, 0); with Wetting on, the bladder takes exactly the converted excess |
| BodyFacts.HydrateEffect | Regression/PrimevalTitmouse/Body.cs:157-169 | thirst ends at max(thirst − amount, 0); with Wetting on, the bladder takes the converted intake plus the converted excess |
| BodyFacts.AddWaterEffect | Regression/PrimevalTitmouse/Body.cs:154-184 | thirst ends at DeficitAfter the intake; health changes only when a decay dehydrates past the requirement, then by the truncated fraction of its maximum |
| BodyFacts.ThirstPenaltyEffect | Regression/PrimevalTitmouse/Body.cs:171-183 | past the requirement on a decay, health is hit and the deficit clamped; otherwise only a warning may be added |
| BodyFacts.DrinkAmountEffect | Regression/PrimevalTitmouse/Body.cs:286-290 | drinking at most the thirst lowers it by exactly that much, ends with the drinking cue, and changes only the bladder side besides |
| BodyFacts.DrinkWateringCanEffect | Regression/PrimevalTitmouse/Body.cs:281-302 | a can holding the thirst quenches it; a smaller can is emptied into it; an empty can only logs OutOfWater; the water left is WaterLeftAfterDrink |
| BodyFacts.DrinkWaterSourceEffect | Regression/PrimevalTitmouse/Body.cs:304-308 | quenches the whole thirst, then the drinking cue; only the bladder side changes besides |
| BodyFacts.ChargeStaminaEffect | Regression/PrimevalTitmouse/Body.cs:538-541 | spent stamina is charged as an intake of 1/300 of the food store and 1/100 of the water store; continence and sleep stay |
| BodyFacts.HandleStaminaEffect | Regression/PrimevalTitmouse/Body.cs:533-544 | with no stamina change, nothing changes; a gain only moves the reference; the deficits stay non-negative |
| BodyFacts.HandleStomachEffect | Regression/PrimevalTitmouse/Body.cs:546-557 | only the waste side changes; the loss is never more than the stomach holds nor more than its hourly rate; the loss is logged last |
| BodyFacts.StaminaDeficits | Regression/PrimevalTitmouse/Body.cs:533-544 | with no stamina change, the deficits and continence are untouched |
| BodyFacts.WaterDeficit | Regression/PrimevalTitmouse/Body.cs:154-184 | of the deficits, only thirst moves, to DeficitAfter |
| BodyFacts.FoodDeficit | Regression/PrimevalTitmouse/Body.cs:123-152 | of the deficits, only hunger moves, to DeficitAfter |
| BodyFacts.StomachDeficits | Regression/PrimevalTitmouse/Body.cs:546-557 | the stomach's loss leaves the deficits and continence alone |
| BodyFacts.WetDeficits | Regression/PrimevalTitmouse/Body.cs:389-430 | an involuntary wetting leaves the deficits and continence alone |
| BodyFacts.MessDeficits | Regression/PrimevalTitmouse/Body.cs:315-339 | a mess leaves the deficits and continence alone |
| BodyFacts.SpendTimeEffect | Regression/PrimevalTitmouse/Body.cs:561-563 | leaves the deficits non-negative and continence unchanged; without a stamina change they are exactly the day's decay over the hours |
| BodyFacts.HandleTimeEffect | Regression/PrimevalTitmouse/Body.cs:559-570 | a whole tick keeps that: the deficits are those of the decay, and the stomach and accidents afterwards leave them alone |
| BodyFacts.PassWasteEffect | Regression/PrimevalTitmouse/Body.cs:564-569 | the stomach and accidents that end a tick leave the deficits and continence alone |
| BodyFacts.AccidentsEffect | Regression/PrimevalTitmouse/Body.cs:565-569 | a wetting or mess under way leaves the deficits and continence alone |
| BodyFacts.HandleMorningEffect | Regression/PrimevalTitmouse/Body.cs:440-480 | only food, water, bedding, player, counters, sleep, pants and log change; Easymode refills food and water to their maxima and never charges bedding; with a need switched on and not Easymode, wet bedding costs 20 or 10 stamina and sets the dry time 1000 or 600 ahead, else 0; the morning cue is logged exactly when a need is switched on |
| BodyFacts.HandleNightEffect | Regression/PrimevalTitmouse/Body.cs:482-496 | the body sleeps in the bed; with no bedtime, only that changes; otherwise the deficits are the decay over SleepHours, and the night ends in the same bed and underwear, only wetter or messier |
| BodyProps.ContinenceNeverWarns | Regression/PrimevalTitmouse/Body.cs:187-234 | no continence change ever logs a message: a negative percent raises continence, and Warn reports only falls |
| BodyProps.FirstCrossingByIndex | Regression/PrimevalTitmouse/Body.cs:597-609 | a fall from 0.9 to 0.1 crosses all four continence thresholds; the one message is index 0 (0.6) |
| BodyProps.TrainingAsymmetry | Regression/PrimevalTitmouse/Body.cs:341-387 | above both training thresholds, a voluntary wetting costs a continence step (line 381) and a voluntary mess gains one (line 352) |
| BodyProps.DigestIntakeBelow | Regression/PrimevalTitmouse/Body.cs:127-131 | below capacity, the intake lowers hunger by the amount and the bowels take the converted intake |
| BodyProps.PassExcessBelow | Regression/PrimevalTitmouse/Body.cs:134-138 | below capacity, the bowels take the converted excess in full and hunger becomes 0 |
| BodyProps.DigestForwardsExcess | Regression/PrimevalTitmouse/Body.cs:126-138 | below capacity, the bowels take the conversion of the intake plus the excess past full; hunger ends at max(hunger − amount, 0) |
| BodyProps.VoluntaryNightKeepsGarments | Regression/PrimevalTitmouse/Body.cs:404-408 | asleep, a voluntary wetting is all toilet trips and leaves the garments unchanged |
| BodyProps.NightWetBounded | Regression/PrimevalTitmouse/Body.cs:393-420 | asleep, the garments take in no more than the bladder held |
| BodyProps.NightThenMorning | Regression/PrimevalTitmouse/Body.cs:440-496 | after a night and its morning the body is awake in clean jeans, with counters at 0 and continence unchanged |
| Bodies.Body.constructor | Regression/PrimevalTitmouse/Body.cs:49-59 | the fields start as Initial |
| Bodies.Body.Warn | Regression/PrimevalTitmouse/Body.cs:593-610 | ends in BodyModel.Warn's state, by way of Scan |
| Bodies.Body.ChangeBladderContinence | Regression/PrimevalTitmouse/Body.cs:187-209 | ends in ChangeContinence's state for the bladder |
| Bodies.Body.ChangeBowelContinence | Regression/PrimevalTitmouse/Body.cs:212-234 | ends in ChangeContinence's state for the bowels |
| Bodies.Body.HandlePeeOverflow | Regression/PrimevalTitmouse/Body.cs:498-513 | logs the overflow line and a PeeSeverity debuff |
| Bodies.Body.HandlePoopOverflow | Regression/PrimevalTitmouse/Body.cs:515-531 | logs the overflow line and a PoopSeverity debuff |
| Bodies.Body.EndWetting | Regression/PrimevalTitmouse/Body.cs:431-438 | ends in BodyModel.EndWetting's state |
| Bodies.Body.EndMessing | Regression/PrimevalTitmouse/Body.cs:361-367 | ends in BodyModel.EndMessing's state |
| Bodies.Body.NightWetting | Regression/PrimevalTitmouse/Body.cs:393-420 | the garments end as the night's events, NightEvents, poured in order |
| Bodies.Body.PourEvents | Regression/PrimevalTitmouse/Body.cs:404-419 | the loop leaves the garments as PourNight of Events |
| Bodies.Body.Wet | Regression/PrimevalTitmouse/Body.cs:389-430 | ends in BodyModel.Wet's state |
| Bodies.Body.DepositMess | Regression/PrimevalTitmouse/Body.cs:319-334 | ends in MessDeposit's state |
| Bodies.Body.Mess | Regression/PrimevalTitmouse/Body.cs:315-339 | ends in BodyModel.Mess's state |
| Bodies.Body.StartWetting | Regression/PrimevalTitmouse/Body.cs:369-387 | ends in BodyModel.StartWetting's state |
| Bodies.Body.StartMessing | Regression/PrimevalTitmouse/Body.cs:341-359 | ends in BodyModel.StartMessing's state |
| Bodies.Body.Urge | Regression/PrimevalTitmouse/Body.cs:84-87 | ends in BodyModel.Urge's state |
| Bodies.Body.AddBladder | Regression/PrimevalTitmouse/Body.cs:63-89 | ends in BodyModel.AddBladder's state |
| Bodies.Body.AddBowel | Regression/PrimevalTitmouse/Body.cs:92-118 | ends in BodyModel.AddBowel's state |
| Bodies.Body.PassExcessFood | Regression/PrimevalTitmouse/Body.cs:133-138 | ends in BodyModel.PassExcessFood's state |
| Bodies.Body.Digest | Regression/PrimevalTitmouse/Body.cs:126-139 | ends in BodyModel.Digest's state and returns the new fed fraction |
| Bodies.Body.Starve | Regression/PrimevalTitmouse/Body.cs:143-149 | ends in BodyModel.Starve's state |
| Bodies.Body.AddFood | Regression/PrimevalTitmouse/Body.cs:123-152 | ends in BodyModel.AddFood's state |
| Bodies.Body.PassExcessWater | Regression/PrimevalTitmouse/Body.cs:164-169 | ends in BodyModel.PassExcessWater's state |
| Bodies.Body.Hydrate | Regression/PrimevalTitmouse/Body.cs:157-169 | ends in BodyModel.Hydrate's state and returns the new watered fraction |
| Bodies.Body.Parch | Regression/PrimevalTitmouse/Body.cs:174-181 | ends in BodyModel.Parch's state |
| Bodies.Body.AddWater | Regression/PrimevalTitmouse/Body.cs:154-184 | ends in BodyModel.AddWater's state |
| Bodies.Body.ChangeUnderwear | Regression/PrimevalTitmouse/Body.cs:237-245 | ends in BodyModel.ChangeUnderwear's state and returns the old underwear |
| Bodies.Body.ChangeUnderwearTo | Regression/PrimevalTitmouse/Body.cs:252-255 | the same, for a clean garment of the named kind |
| Bodies.Body.DrinkWateringCan | Regression/PrimevalTitmouse/Body.cs:281-302 | ends in BodyModel.DrinkWateringCan's state, with the can's corrected water left |
| Bodies.Body.DrinkWaterSource | Regression/PrimevalTitmouse/Body.cs:304-308 | ends in BodyModel.DrinkWaterSource's state |
| Bodies.Body.DryBedding | Regression/PrimevalTitmouse/Body.cs:456-471 | ends in BodyModel.DryBedding's state |
| Bodies.Body.WakeUp | Regression/PrimevalTitmouse/Body.cs:474-477 | ends in BodyModel.WakeUp's state |
| Bodies.Body.HandleMorning | Regression/PrimevalTitmouse/Body.cs:440-480 | ends in BodyModel.HandleMorning's state |
| Bodies.Body.HandleNight | Regression/PrimevalTitmouse/Body.cs:482-496 | ends in BodyModel.HandleNight's state |
| Bodies.Body.ChargeStamina | Regression/PrimevalTitmouse/Body.cs:538-541 | ends in BodyModel.ChargeStamina's state |
| Bodies.Body.HandleStamina | Regression/PrimevalTitmouse/Body.cs:533-544 | ends in BodyModel.HandleStamina's state |
| Bodies.Body.HandleStomach | Regression/PrimevalTitmouse/Body.cs:546-557 | ends in BodyModel.HandleStomach's state |
| Bodies.Body.SpendTime | Regression/PrimevalTitmouse/Body.cs:561-563 | ends in BodyModel.SpendTime's state |
| Bodies.Body.HandleTime | Regression/PrimevalTitmouse/Body.cs:559-570 | ends in BodyModel.HandleTime's state |

## Left out

- Animations, strings, emotes, the red message, and buff duration, glow and description are reduced to log events (`Event`). Which text is chosen and how it is shown is not modelled.
- `Container.cs` is not part of this model. `Garments.AddPee` and `Garments.AddPoop` are an assumed saturating implementation of its AddPee and AddPoop: keep what fits and return the overflow. Every statement about where a wetting or a mess ends rests on that assumption; in particular, `Garments.PourPee` leaving the pants untouched while the underwear has room holds only if the real container saturates the same way.
  - Garments are values, so two fields cannot alias one container.
  - Looking up a kind's absorbency and containment is a parameter (`Wardrobe`).
- The `Underwear` overload of ChangeUnderwear (Body.cs:247-250) only copies a container out of an inventory item; `Bodies.Body.ChangeUnderwear` takes the container directly.
- IsFishing, InToilet, IsOccupied and RemoveBuff (Body.cs:310-313, 572-591, 614-617) only query or call the host game. They are not modelled; RemoveBuff is the `ClearDebuff` event.
- DecreaseEverything and IncreaseEverything (Body.cs:265-279) are debug commands made of calls that are modelled. They add nothing; the `NoConversion` ratio is kept for them.
- Randomness is taken as parameters: the urge roll, the wake-up rolls, the mess roll, and the morning roll of 1-12 (`Inputs`, `roll`). So are the clock and bedtime, the villager check, and the player's stamina and health.
- Body.cs names the bladder and bowels `bladder` and `bowels` in Wet and Mess (Body.cs:318, 335-337, 426-428), and the sleep flag `sleeping` in some places; the model reads them as `bladderFullness`, `bowelFullness` and `isSleeping`.
- Fields Body.cs reads but does not declare are modelled as inputs (`Unseen`) or as plain state (`Tracking`, `Host`), not as the game objects that hold them: maxBowels, maxFood, maxWater, foodDay, glassOfWater and the stomach.
- AddStomach is called with the stomach's loss and is logged as a `StomachLoss` event. Its effect on the stomach is not modelled.
- Mess reads an `hours` it does not declare (Body.cs:317). The model takes it as a parameter. AddBowel's mess uses `Inputs.hours`.
- HandleTime passes `hours` to Wet and Mess, whose parameters are booleans (Body.cs:566, 569). The model takes the defaults: an involuntary wetting in the underwear, and a Mess over the tick's hours.
- The conversion ratio is limited to the three values Body.cs passes: 0.5, 0.05 and 0.
- Floating-point rounding of `float` and `double` is not modelled; all quantities are reals.
- Bodies.Body.NightWetting: models the repaired night, whose last wetting deposits `Rules.LastAmount` (a whole capacity for an exact multiple), not the remainder Body.cs:416 deposits; `Rules.NightEventsAsWritten` is the code as written.
- Bodies.Body.Wet: models the repaired night through `Bodies.Body.NightWetting` and `BodyModel.Wet`. Everything that reaches Wet through AddBladder inherits it: AddBladder, PassExcessWater, Hydrate, AddWater, DrinkWaterSource, DrinkWateringCan, ChargeStamina, HandleStamina, HandleStomach, SpendTime, HandleTime and HandleNight.
- Bodies.Body.AddBladder: reaches `Bodies.Body.Wet` and inherits its repaired night (see the Bodies.Body.Wet line).
- Bodies.Body.PassExcessWater: reaches `Bodies.Body.Wet` and inherits its repaired night (see the Bodies.Body.Wet line).
- Bodies.Body.Hydrate: reaches `Bodies.Body.Wet` and inherits its repaired night (see the Bodies.Body.Wet line).
- Bodies.Body.AddWater: reaches `Bodies.Body.Wet` and inherits its repaired night (see the Bodies.Body.Wet line).
- Bodies.Body.DrinkWaterSource: reaches `Bodies.Body.Wet` and inherits its repaired night (see the Bodies.Body.Wet line).
- Bodies.Body.ChargeStamina: reaches `Bodies.Body.Wet` and inherits its repaired night (see the Bodies.Body.Wet line).
- Bodies.Body.HandleStamina: reaches `Bodies.Body.Wet` and inherits its repaired night (see the Bodies.Body.Wet line).
- Bodies.Body.HandleStomach: reaches `Bodies.Body.Wet` and inherits its repaired night (see the Bodies.Body.Wet line).
- Bodies.Body.SpendTime: reaches `Bodies.Body.Wet` and inherits its repaired night (see the Bodies.Body.Wet line).
- Bodies.Body.HandleTime: reaches `Bodies.Body.Wet` and inherits its repaired night (see the Bodies.Body.Wet line).
- Bodies.Body.HandleNight: reaches `Bodies.Body.Wet` and inherits its repaired night (see the Bodies.Body.Wet line).
- Bodies.Body.DrinkWateringCan: models the repaired can, whose water left is `Rules.WaterLeftAfterDrink`, not the unchanged amount Body.cs:288 leaves; `Rules.CanNeverDrainsAsWritten` is the code as written.
- BodyModel.Soak: models the repaired night (`Rules.NightEvents`), not the remainder deposit of Body.cs:416.
- BodyModel.DrinkWateringCan: models the repaired can (`Rules.WaterLeftAfterDrink`), not Body.cs:288.
- BodyFacts.SoakEffect: states the repaired night; for a fullness of exactly k capacities the code as written deposits one capacity less.
- BodyFacts.AddBladderFull: states the repaired night when asleep, as `BodyFacts.SoakEffect` does.
- BodyFacts.DrinkWateringCanEffect: states the repaired can; as written, the can's water never goes down.
- The model's functions (Wet, AddFood, HandleTime, and so on) each ensure only that the invariant `Inv` holds afterwards. What they compute is stated in the BodyFacts lemmas beside them, listed above.

## Findings

| source | as written | input that shows it | evidently intended | confidence | as-written member | corrected member |
|---|---|---|---|---|---|---|
| Regression/PrimevalTitmouse/Body.cs:397-419 | when bladder fullness is an exact multiple of capacity, the last of the night's wettings deposits the remainder, which is 0 | fullness 200, capacity 100, no wake-ups: two wettings deposit 100 + 0 | every wetting but a partial last one deposits a whole capacity, so the night deposits the fullness | not executed | Rules.ExactMultipleLosesOneCapacity | Rules.NightAccidentsDepositFullness |
| Regression/PrimevalTitmouse/Body.cs:287-288 | the can's WaterLeft is reduced by `thirst / 100` after `AddWater(thirst)` has set thirst to 0, so the can is never drawn down | WaterLeft 40, thirst 500: WaterLeft stays 40 | the can pays for the water drunk: 40 − 5 = 35 | not executed | Rules.CanNeverDrainsAsWritten | Rules.WaterLeftAfterDrink |

The rest of the model uses the corrected definitions:

- `Rules.NightEvents` deposits `Rules.LastAmount`;
- `BodyModel.DrinkWateringCan` returns `Rules.WaterLeftAfterDrink`.

`Rules.FiveHundredFromForty` shows both definitions on the worked input.

### Where the code and its description differ

The model follows the code in each case:

- **Warn.** It picks the first crossed threshold by index, not the smallest or largest by value. With the continence table 0.6, 0.2, 0.5, 0.8, a fall from 0.9 to 0.1 reports 0.6 (`BodyProps.FirstCrossingByIndex`). With the wetting table 0.1, 0.3, 0.5, a fall from 0.6 to 0.05 reports index 0 (0.1), not 0.5.
- **Continence warnings.** ChangeBladderContinence and ChangeBowelContinence subtract `percent`, and warn only when `percent` is negative, which is when continence rises. Warn reports only falls, so no continence message can ever appear (`BodyProps.ContinenceNeverWarns`).
- **Capacity floor.** The comment at Body.cs:200 says the floor is 25% of base; the constant is 20% (Body.cs:22, 28).
- **Training thresholds.** ChangeBladderContinence and ChangeBowelContinence subtract their argument, so the `-0.01f` branch raises continence and the `0.01f` branch lowers it. StartWetting raises it for an involuntary wetting or one below the training threshold, and lowers it for a voluntary wetting at or above it (Body.cs:381, `<`). StartMessing raises it for an involuntary mess or one above the threshold, and lowers it for a voluntary mess at or below it (Body.cs:352, `>`). The two tests point opposite ways: see `BodyProps.TrainingAsymmetry`.
- **EndMessing** never clears isMessing, unlike EndWetting (`BodyFacts.EndMessingFrame`).
- **Parenthesis.** Body.cs:167 has an unbalanced parenthesis; it is read as `AddBladder(thirst * -1f * conversionRatio)`.
- **Wet and the bladder.** Wet does not draw the bladder down: a wetting only sets it to 0 when it is already at or below 0 (Body.cs:426-428).
