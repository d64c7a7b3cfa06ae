/** The numeric rules of Body.cs: its constants, the continence and capacity clamps,
    the urge probability, the overflow-severity tiers, the night-wetting schedule and
    the hunger/thirst deficit update. Quantities are `real`: no float rounding. */
module Rules {

  // Daily requirements: calories of food and millilitres of water (Body.cs:16-17).
  const RequiredCaloriesPerDay: real := 3500.0
  const RequiredWaterPerDay: real := 14000.0

  // Fractions of a base capacity (Body.cs:22-24, 28-30).
  const MinCapacityFraction: real := 0.20
  const AttemptFraction: real := 0.1
  const TrainingFraction: real := 0.5

  // Bladder: about six voidings a day (Body.cs:21-24).
  const MaxBladderCapacity: real := RequiredWaterPerDay / 6.0
  const MinBladderCapacity: real := MaxBladderCapacity * MinCapacityFraction
  const BladderAttemptThreshold: real := MaxBladderCapacity * AttemptFraction
  const BladderTrainingThreshold: real := MaxBladderCapacity * TrainingFraction

  // Bowel: once a day (Body.cs:27-30).
  const MaxBowelCapacity: real := RequiredCaloriesPerDay / 1.0
  const MinBowelCapacity: real := MaxBowelCapacity * MinCapacityFraction
  const BowelAttemptThreshold: real := MaxBowelCapacity * AttemptFraction
  const BowelTrainingThreshold: real := MaxBowelCapacity * TrainingFraction

  // Continence is kept within [MinContinence, 1] (Body.cs:195, 220); one attempt moves it by a step.
  const MinContinence: real := 0.05
  const ContinenceStep: real := 0.01

  function MinReal(a: real, b: real): real { if a <= b then a else b }
  function MaxReal(a: real, b: real): real { if a >= b then a else b }
  function Min(a: int, b: int): int { if a <= b then a else b }
  function Max(a: int, b: int): int { if a >= b then a else b }

  /** C#'s `(int)` cast of a floating-point value: truncation toward zero. */
  function Trunc(x: real): (n: int)
    ensures 0.0 <= x ==> n as real <= x < n as real + 1.0
    ensures x < 0.0 ==> n as real - 1.0 < x <= n as real
  {
    if x >= 0.0 then x.Floor else -((-x).Floor)
  }

  lemma TruncMonotone(x: real, y: real)
    requires x <= y
    ensures Trunc(x) <= Trunc(y)
  {
  }

  /** `Math.Max(Math.Min(x, 1), 0.05)` (Body.cs:195, 220). */
  function ClampContinence(x: real): (r: real)
    ensures MinContinence <= r <= 1.0
    ensures MinContinence <= x <= 1.0 ==> r == x
    ensures x > 1.0 ==> r == 1.0
    ensures x < MinContinence ==> r == MinContinence
  {
    MaxReal(MinReal(x, 1.0), MinContinence)
  }

  /** Capacity shrinks with continence but never below a fifth of the base (Body.cs:198-201). */
  function CapacityFor(continence: real, base: real): (r: real)
    requires base > 0.0
    ensures base * MinCapacityFraction <= r
    ensures continence <= 1.0 ==> r <= base
    ensures continence >= MinCapacityFraction ==> r == continence * base
    ensures continence <= MinCapacityFraction ==> r == base * MinCapacityFraction
  {
    MaxReal(continence * base, base * MinCapacityFraction)
  }

  /** The chance of an urge warning at a normalised fullness (Body.cs:84, 113):
      certain when empty or below, otherwise continence / (4 * fullness). */
  function UrgeProbability(continence: real, fullness: real): (p: real)
    ensures fullness <= 0.0 ==> p == 1.0
    ensures fullness > 0.0 ==> p * (4.0 * fullness) == continence
  {
    if fullness <= 0.0 then 1.0 else continence / (4.0 * fullness)
  }

  /** The fuller the need, the less likely a warning is: a fuller body is not nagged more often. */
  lemma UrgeFallsAsFullnessRises(continence: real, f1: real, f2: real)
    requires 0.0 <= continence && 0.0 < f1 <= f2
    ensures UrgeProbability(continence, f2) <= UrgeProbability(continence, f1)
  {
    var p1, p2 := UrgeProbability(continence, f1), UrgeProbability(continence, f2);
    assert p1 * (4.0 * f1) == p2 * (4.0 * f2);
    if p2 > p1 {
      assert p2 * (4.0 * f2) >= p2 * (4.0 * f1) > p1 * (4.0 * f1);
    }
  }

  /** Defence debuff of wet pants (Body.cs:501): ten levels of wetness / absorbency. */
  function PeeSeverity(wetness: real, absorbency: real): (r: int)
    requires absorbency > 0.0
    ensures -10 <= r <= -1
    ensures r == -10 <==> wetness >= absorbency
    ensures r == -1 <==> wetness < absorbency * 0.2
  {
    var level := Trunc(wetness / absorbency * 10.0);
    QuotientCompare(wetness, absorbency, 1.0);
    QuotientCompare(wetness, absorbency, 0.2);
    -Max(Min(level, 10), 1)
  }

  lemma PeeSeverityMonotone(w1: real, w2: real, absorbency: real)
    requires absorbency > 0.0 && w1 <= w2
    ensures PeeSeverity(w2, absorbency) <= PeeSeverity(w1, absorbency)
  {
    assert w1 / absorbency * 10.0 <= w2 / absorbency * 10.0;
    TruncMonotone(w1 / absorbency * 10.0, w2 / absorbency * 10.0);
  }

  /** Speed debuff of messy pants (Body.cs:518-519): three tiers of messiness / containment. */
  function PoopSeverity(messiness: real, containment: real): (r: int)
    requires containment > 0.0
    ensures -3 <= r <= -1
    ensures r == -1 <==> messiness < containment * 0.5
    ensures r == -3 <==> messiness > containment
  {
    var ratio := messiness / containment;
    QuotientCompare(messiness, containment, 0.5);
    QuotientCompare(messiness, containment, 1.0);
    if ratio >= 0.5 then (if ratio > 1.0 then -3 else -2) else -1
  }

  lemma PoopSeverityMonotone(m1: real, m2: real, containment: real)
    requires containment > 0.0 && m1 <= m2
    ensures PoopSeverity(m2, containment) <= PoopSeverity(m1, containment)
  {
  }

  // ----- Night wetting (Body.cs:397-419) -----

  /** One roll of the night: the sleeper gets up in time, or wets with this amount. */
  datatype NightEvent = Toilet | Accident(amount: real)

  /** `numWettings` after line 402: the whole capacities in the fullness, plus one for a remainder. */
  function WettingCount(fullness: real, capacity: real): (n: int)
    requires capacity > 0.0
    ensures fullness > 0.0 ==> (n - 1) as real * capacity < fullness <= n as real * capacity
    ensures fullness <= 0.0 ==> n <= 0
  {
    var whole := Trunc(fullness / capacity);
    ScaleBounds(fullness, capacity, whole);
    if fullness - whole as real * capacity > 0.0 then whole + 1 else whole
  }

  /** `additionalAmount` (Body.cs:398): what is left over the whole capacities. */
  function Remainder(fullness: real, capacity: real): (extra: real)
    requires capacity > 0.0
    ensures 0.0 <= fullness ==> 0.0 <= extra < capacity
    ensures fullness < 0.0 ==> extra <= 0.0
  {
    var whole := Trunc(fullness / capacity);
    ScaleBounds(fullness, capacity, whole);
    fullness - whole as real * capacity
  }

  /** Multiplying both sides of a comparison by a positive real keeps it. */
  lemma ScaleCompare(a: real, b: real, c: real)
    requires c > 0.0
    ensures a <= b <==> a * c <= b * c
    ensures a < b <==> a * c < b * c
  {
    if a <= b {
      assert b * c - a * c == (b - a) * c;
    } else {
      assert a * c - b * c == (a - b) * c;
    }
  }

  /** Comparing a quotient with a bound is comparing the dividend with the scaled bound. */
  lemma QuotientCompare(x: real, c: real, k: real)
    requires c > 0.0
    ensures x / c <= k <==> x <= k * c
    ensures x / c < k <==> x < k * c
    ensures k <= x / c <==> k * c <= x
    ensures k < x / c <==> k * c < x
  {
    assert x / c * c == x;
    ScaleCompare(x / c, k, c);
    ScaleCompare(k, x / c, c);
  }

  /** Multiplying the truncation bounds of fullness / capacity back by capacity. */
  lemma ScaleBounds(fullness: real, capacity: real, whole: int)
    requires capacity > 0.0 && whole == Trunc(fullness / capacity)
    ensures 0.0 <= fullness ==> whole as real * capacity <= fullness < (whole + 1) as real * capacity
    ensures fullness < 0.0 ==> (whole - 1) as real * capacity < fullness <= whole as real * capacity
  {
    var q := fullness / capacity;
    QuotientCompare(fullness, capacity, 0.0);
    QuotientCompare(fullness, capacity, whole as real);
    QuotientCompare(fullness, capacity, whole as real + 1.0);
    QuotientCompare(fullness, capacity, whole as real - 1.0);
  }

  /** The `n` rolls of the night (Body.cs:404-419): roll `i` is a toilet trip when the
      wetting is voluntary or `wake(i)` falls below continence, else an accident of one
      capacity, or of `last` for the final roll. */
  function Events(n: int, capacity: real, last: real, voluntary: bool,
                  continence: real, wake: nat -> real): (es: seq<NightEvent>)
    ensures |es| == Max(n, 0)
    ensures forall i :: 0 <= i < |es| ==> (es[i] == Toilet <==> voluntary || wake(i) < continence)
    ensures forall i :: 0 <= i < |es| && es[i].Accident? ==> es[i].amount == (if i == n - 1 then last else capacity)
  {
    seq(Max(n, 0), i requires 0 <= i =>
      if voluntary || wake(i) < continence then Toilet
      else if i != n - 1 then Accident(capacity)
      else Accident(last))
  }

  /** The events of one sleeping Wet exactly as Body.cs:404-419 computes them: the last
      event deposits the remainder, which is 0 when the fullness is a whole multiple. */
  function NightEventsAsWritten(fullness: real, capacity: real, voluntary: bool,
                                continence: real, wake: nat -> real): (es: seq<NightEvent>)
    requires capacity > 0.0
    ensures |es| == Max(WettingCount(fullness, capacity), 0)
  {
    Events(WettingCount(fullness, capacity), capacity, Remainder(fullness, capacity), voluntary, continence, wake)
  }

  /** What the last wetting of the night deposits, with the exact-multiple case repaired:
      a whole capacity when there is no remainder. */
  function LastAmount(fullness: real, capacity: real): (a: real)
    requires capacity > 0.0
    ensures fullness > 0.0 ==> 0.0 < a <= capacity
  {
    var extra := Remainder(fullness, capacity);
    if extra > 0.0 then extra else capacity
  }

  /** The events of one sleeping Wet, with the last deposit corrected by LastAmount. */
  function NightEvents(fullness: real, capacity: real, voluntary: bool,
                       continence: real, wake: nat -> real): (es: seq<NightEvent>)
    requires capacity > 0.0
    ensures |es| == Max(WettingCount(fullness, capacity), 0)
    ensures forall i :: 0 <= i < |es| && es[i].Accident? ==> 0.0 < es[i].amount <= capacity
    ensures voluntary ==> forall i :: 0 <= i < |es| ==> es[i] == Toilet
  {
    Events(WettingCount(fullness, capacity), capacity, LastAmount(fullness, capacity), voluntary, continence, wake)
  }

  /** Total amount the accidents in a list of night events deposit. */
  function Deposited(es: seq<NightEvent>): real {
    if es == [] then 0.0
    else Deposited(es[..|es| - 1]) + (if es[|es| - 1].Accident? then es[|es| - 1].amount else 0.0)
  }

  /** `k` accidents of one capacity deposit k capacities. */
  lemma {:induction false} DepositedFull(es: seq<NightEvent>, capacity: real, k: nat)
    requires k <= |es|
    requires forall i :: 0 <= i < k ==> es[i] == Accident(capacity)
    ensures Deposited(es[..k]) == k as real * capacity
  {
    if k > 0 {
      assert es[..k][..k - 1] == es[..k - 1];
      DepositedFull(es, capacity, k - 1);
    }
  }

  /** `k` events of at most one capacity each deposit at most k capacities. */
  lemma {:induction false} DepositedAtMost(es: seq<NightEvent>, capacity: real, k: nat)
    requires k <= |es| && capacity >= 0.0
    requires forall i :: 0 <= i < k && es[i].Accident? ==> 0.0 <= es[i].amount <= capacity
    ensures 0.0 <= Deposited(es[..k]) <= k as real * capacity
  {
    if k > 0 {
      var last := if es[k - 1].Accident? then es[k - 1].amount else 0.0;
      assert es[..k][..k - 1] == es[..k - 1];
      assert es[..k][k - 1] == es[k - 1];
      assert Deposited(es[..k]) == Deposited(es[..k - 1]) + last;
      DepositedAtMost(es, capacity, k - 1);
      assert (k - 1) as real * capacity + capacity == k as real * capacity;
    }
  }

  /** The night's wettings add up to the fullness: n - 1 capacities and the last amount. */
  lemma LastAmountCompletes(fullness: real, capacity: real)
    requires capacity > 0.0 && fullness > 0.0
    ensures WettingCount(fullness, capacity) >= 1
    ensures (WettingCount(fullness, capacity) - 1) as real * capacity + LastAmount(fullness, capacity) == fullness
  {
    var whole := Trunc(fullness / capacity);
    ScaleBounds(fullness, capacity, whole);
  }

  /** Whatever the rolls, a night deposits no more than the bladder held. */
  lemma NightDepositsAtMostFullness(fullness: real, capacity: real, voluntary: bool,
                                    continence: real, wake: nat -> real)
    requires capacity > 0.0
    ensures 0.0 <= Deposited(NightEvents(fullness, capacity, voluntary, continence, wake))
    ensures Deposited(NightEvents(fullness, capacity, voluntary, continence, wake)) <= MaxReal(fullness, 0.0)
  {
    if fullness > 0.0 {
      FullNightDepositsAtMost(fullness, capacity, voluntary, continence, wake);
    } else {
      assert NightEvents(fullness, capacity, voluntary, continence, wake) == [];
    }
  }

  /** The case of a bladder holding something: n - 1 events of at most a capacity, then
      one of at most LastAmount, which together make the fullness. */
  lemma FullNightDepositsAtMost(fullness: real, capacity: real, voluntary: bool,
                                continence: real, wake: nat -> real)
    requires capacity > 0.0 && fullness > 0.0
    ensures 0.0 <= Deposited(NightEvents(fullness, capacity, voluntary, continence, wake)) <= fullness
  {
    var es := NightEvents(fullness, capacity, voluntary, continence, wake);
    LastAmountCompletes(fullness, capacity);
    DepositedAtMostLast(es, capacity, LastAmount(fullness, capacity));
  }

  /** Events of at most one capacity, the last of at most `last`, deposit at most
      |es| - 1 capacities and `last`. */
  lemma DepositedAtMostLast(es: seq<NightEvent>, capacity: real, last: real)
    requires |es| >= 1 && capacity >= 0.0 && last >= 0.0
    requires forall i :: 0 <= i < |es| && es[i].Accident? ==> 0.0 < es[i].amount <= capacity
    requires es[|es| - 1].Accident? ==> es[|es| - 1].amount <= last
    ensures 0.0 <= Deposited(es) <= (|es| - 1) as real * capacity + last
  {
    var n := |es|;
    DepositedAtMost(es, capacity, n - 1);
    var final := if es[n - 1].Accident? then es[n - 1].amount else 0.0;
    assert Deposited(es) == Deposited(es[..n - 1]) + final;
  }

  /** A night with no toilet trip deposits exactly the fullness, whatever its size. */
  lemma NightAccidentsDepositFullness(fullness: real, capacity: real, continence: real, wake: nat -> real)
    requires capacity > 0.0 && fullness > 0.0
    requires forall i: nat :: wake(i) >= continence
    ensures Deposited(NightEvents(fullness, capacity, false, continence, wake)) == fullness
  {
    var es := NightEvents(fullness, capacity, false, continence, wake);
    var n := WettingCount(fullness, capacity);
    var whole := Trunc(fullness / capacity);
    ScaleBounds(fullness, capacity, whole);
    assert n >= 1;
    DepositedFull(es, capacity, n - 1);
    assert es[..n] == es;
    assert es[..n][..n - 1] == es[..n - 1];
    assert Deposited(es) == (n - 1) as real * capacity + LastAmount(fullness, capacity);
  }

  /** As written, a night whose fullness is k whole capacities deposits only k - 1 of them. */
  lemma ExactMultipleLosesOneCapacity(capacity: real, k: nat, continence: real, wake: nat -> real)
    requires capacity > 0.0 && k >= 1
    requires forall i: nat :: wake(i) >= continence
    ensures Deposited(NightEventsAsWritten(k as real * capacity, capacity, false, continence, wake))
         == (k - 1) as real * capacity
  {
    var fullness := k as real * capacity;
    var es := NightEventsAsWritten(fullness, capacity, false, continence, wake);
    assert fullness / capacity == k as real;
    assert Trunc(fullness / capacity) == k;
    assert Remainder(fullness, capacity) == 0.0;
    assert WettingCount(fullness, capacity) == k;
    DepositedFull(es, capacity, k - 1);
    assert es[..k] == es;
    assert es[..k][..k - 1] == es[..k - 1];
    assert es[k - 1] == Accident(0.0);
  }

  /** The worked night: capacity 100, fullness 350, no wake-ups: three full wettings and 50. */
  lemma ThreeAndAHalfCapacities(wake: nat -> real)
    requires forall i: nat :: wake(i) >= 0.0
    ensures NightEvents(350.0, 100.0, false, 0.0, wake)
         == [Accident(100.0), Accident(100.0), Accident(100.0), Accident(50.0)]
  {
    assert Trunc(350.0 / 100.0) == 3;
    assert Remainder(350.0, 100.0) == 50.0;
    assert WettingCount(350.0, 100.0) == 4;
  }

  // ----- Hunger and thirst (Body.cs:123-184) -----

  /** A hunger or thirst deficit after taking in `amount`: never below 0, and with the
      starvation penalty on, a decay beyond the daily requirement is clamped back to it. */
  function DeficitAfter(deficit: real, amount: real, required: real, penalties: bool): (r: real)
    requires required > 0.0
    ensures r >= 0.0
    ensures deficit - amount < 0.0 ==> r == 0.0
    ensures penalties && amount < 0.0 && deficit - amount > required ==> r == required
    ensures 0.0 <= deficit - amount && !(penalties && amount < 0.0 && deficit - amount > required)
            ==> r == deficit - amount
  {
    var d := MaxReal(deficit - amount, 0.0);
    if penalties && d > required && amount < 0.0 then required else d
  }

  /** The conversion ratios Body.cs passes to AddFood and AddWater: the default 0.5, the
      0.05 of HandleStamina's water charge (Body.cs:541) and the 0 of the debug commands
      (Body.cs:267-276). */
  datatype Conversion = Half | Twentieth | NoConversion

  /** `x * conversionRatio`: what reaches the waste side of an intake `x`; never negative
      for a non-negative intake, never more than half of it. */
  function Convert(c: Conversion, x: real): (r: real)
    ensures x >= 0.0 ==> 0.0 <= r <= x * 0.5
    ensures x <= 0.0 ==> x * 0.5 <= r <= 0.0
  {
    match c
    case Half => x * 0.5
    case Twentieth => x * 0.05
    case NoConversion => 0.0
  }

  /** Converting two intakes separately forwards as much as converting their sum. */
  lemma ConvertAdds(c: Conversion, x: real, y: real)
    ensures Convert(c, x) + Convert(c, y) == Convert(c, x + y)
  {
  }

  /** How far past full a deficit below zero is: the deficit times -1 (Body.cs:135, 165). */
  function PastFull(deficit: real): (e: real)
    ensures deficit + e == 0.0
  {
    deficit * -1.0
  }

  /** The intake that the passing of `hours` amounts to: a 24th of the daily requirement
      per hour, as a negative amount (Body.cs:562-563). */
  function Decay(required: real, hours: real): real {
    required * hours / -24.0
  }

  /** What eating or drinking past full forwards to the waste side before the ratio. */
  function Excess(deficit: real, amount: real): (e: real)
    ensures e >= 0.0
    ensures deficit - amount < 0.0 ==> deficit - amount + e == 0.0
  {
    if deficit - amount < 0.0 then amount - deficit else 0.0
  }

  // ----- Watering can (Body.cs:281-302) -----

  /** The water a can holds: WaterLeft counts hundreds. */
  function CanWater(waterLeft: int): real {
    (waterLeft * 100) as real
  }

  /** The can's WaterLeft after drinking, as Body.cs:285-296 computes it: line 288 divides
      the thirst left AFTER AddWater(thirst), which is 0, so the can is never drawn down. */
  function WaterLeftAsWritten(waterLeft: int, thirst: real, penalties: bool): (r: int)
    requires thirst >= 0.0
    ensures r <= waterLeft
    ensures (waterLeft * 100) as real < thirst ==> r <= 0 && (r == 0 <==> waterLeft >= 0) && (waterLeft <= 0 ==> r == waterLeft)
  {
    if (waterLeft * 100) as real >= thirst then
      waterLeft - Trunc(DeficitAfter(thirst, thirst, RequiredWaterPerDay, penalties) / 100.0)
    else if waterLeft > 0 then 0
    else waterLeft
  }

  /** The can's WaterLeft after drinking, paying for the thirst drunk in whole hundreds. */
  function WaterLeftAfterDrink(waterLeft: int, thirst: real): (r: int)
    requires thirst >= 0.0
    ensures waterLeft >= 0 ==> 0 <= r <= waterLeft
    ensures (waterLeft * 100) as real >= thirst ==>
              ((waterLeft - r) * 100) as real <= thirst < ((waterLeft - r + 1) * 100) as real
  {
    if (waterLeft * 100) as real >= thirst then waterLeft - Trunc(thirst / 100.0)
    else if waterLeft > 0 then 0
    else waterLeft
  }

  /** As written, a can holding enough never loses water, however much is drunk. */
  lemma CanNeverDrainsAsWritten(waterLeft: int, thirst: real, penalties: bool)
    requires thirst >= 0.0 && (waterLeft * 100) as real >= thirst
    ensures WaterLeftAsWritten(waterLeft, thirst, penalties) == waterLeft
  {
  }

  /** The worked case: thirst 500 from a can at 40 leaves 40 as written, 35 when paid for. */
  lemma FiveHundredFromForty(penalties: bool)
    ensures WaterLeftAsWritten(40, 500.0, penalties) == 40
    ensures WaterLeftAfterDrink(40, 500.0) == 35
  {
    assert Trunc(500.0 / 100.0) == 5;
  }

  // ----- Night length (Body.cs:490-495) -----

  /** Body-hours slept: clock time from bedtime to 06:00 the next day, at a third of the rate. */
  function SleepHours(bedtime: int): (h: real)
    ensures bedtime <= 2600 ==> h >= 4.0 / 3.0
    ensures bedtime > 0 ==> h < 10.0
    ensures bedtime <= 3000 ==> h >= 0.0
  {
    (3000 - bedtime) as real / 100.0 / 3.0
  }
}
