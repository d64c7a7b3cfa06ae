/** The worn containers: underwear and pants (or the bed, at night). Container.cs is not
    part of this model: AddPee and AddPoop here are an assumed saturating implementation
    of its AddPee and AddPoop — a deposit fills the container up to its absorbency (urine)
    or containment (faeces) and hands back the overflow, never losing anything. What the
    model says about where a wetting or a mess ends rests on that assumption. A container
    is a value: changing garments replaces it. */
module Garments {
  import opened Rules

  /** How much a garment of some kind holds before it overflows. */
  datatype Capacity = Capacity(absorbency: real, containment: real)

  /** The capacities of a garment by its name (the Container constructor's lookup). */
  type Wardrobe = string -> Capacity

  datatype Container = Container(name: string, wetness: real, messiness: real,
                                 absorbency: real, containment: real)

  ghost predicate WardrobeOk(w: Wardrobe) {
    forall n :: w(n).absorbency > 0.0 && w(n).containment > 0.0
  }

  predicate ContainerOk(c: Container) {
    c.wetness >= 0.0 && c.messiness >= 0.0 && c.absorbency > 0.0 && c.containment > 0.0
  }

  /** `new Container(name, wetness, messiness)`. */
  function Garment(name: string, wetness: real, messiness: real, w: Wardrobe): (c: Container)
    requires WardrobeOk(w) && wetness >= 0.0 && messiness >= 0.0
    ensures ContainerOk(c) && c.name == name && c.wetness == wetness && c.messiness == messiness
  {
    Container(name, wetness, messiness, w(name).absorbency, w(name).containment)
  }

  /** A clean garment of the given kind. */
  function Fresh(name: string, w: Wardrobe): (c: Container)
    requires WardrobeOk(w)
    ensures ContainerOk(c) && c.name == name && c.wetness == 0.0 && c.messiness == 0.0
  {
    Garment(name, 0.0, 0.0, w)
  }

  /** Container.AddPee: absorb what fits, return the overflow. */
  function AddPee(c: Container, amount: real): (r: (Container, real))
    requires ContainerOk(c) && amount >= 0.0
    ensures ContainerOk(r.0) && r.0 == c.(wetness := r.0.wetness)
    ensures 0.0 <= r.1 <= amount
    ensures r.0.wetness + r.1 == c.wetness + amount
    ensures r.1 > 0.0 ==> r.0.wetness >= c.absorbency
  {
    var room := MaxReal(c.absorbency - c.wetness, 0.0);
    var taken := MinReal(amount, room);
    (c.(wetness := c.wetness + taken), amount - taken)
  }

  /** Container.AddPoop: contain what fits, return the overflow. */
  function AddPoop(c: Container, amount: real): (r: (Container, real))
    requires ContainerOk(c) && amount >= 0.0
    ensures ContainerOk(r.0) && r.0 == c.(messiness := r.0.messiness)
    ensures 0.0 <= r.1 <= amount
    ensures r.0.messiness + r.1 == c.messiness + amount
    ensures r.1 > 0.0 ==> r.0.messiness >= c.containment
  {
    var room := MaxReal(c.containment - c.messiness, 0.0);
    var taken := MinReal(amount, room);
    (c.(messiness := c.messiness + taken), amount - taken)
  }

  /** `pants.AddPee(underwear.AddPee(amount))`: the underwear first, its overflow into the
      pants; the pants' own overflow is the third component (Body.cs discards it). */
  function PourPee(underwear: Container, pants: Container, amount: real): (r: (Container, Container, real))
    requires ContainerOk(underwear) && ContainerOk(pants) && amount >= 0.0
    ensures ContainerOk(r.0) && ContainerOk(r.1) && r.2 >= 0.0
    ensures r.0 == underwear.(wetness := r.0.wetness) && r.1 == pants.(wetness := r.1.wetness)
    ensures underwear.wetness <= r.0.wetness && pants.wetness <= r.1.wetness
    ensures r.0.wetness + r.1.wetness + r.2 == underwear.wetness + pants.wetness + amount
    ensures underwear.wetness + amount <= underwear.absorbency ==> r.1 == pants && r.2 == 0.0
  {
    var (u, spill) := AddPee(underwear, amount);
    var (p, lost) := AddPee(pants, spill);
    (u, p, lost)
  }

  /** `pants.AddPoop(underwear.AddPoop(amount))`. */
  function PourPoop(underwear: Container, pants: Container, amount: real): (r: (Container, Container, real))
    requires ContainerOk(underwear) && ContainerOk(pants) && amount >= 0.0
    ensures ContainerOk(r.0) && ContainerOk(r.1) && r.2 >= 0.0
    ensures r.0 == underwear.(messiness := r.0.messiness) && r.1 == pants.(messiness := r.1.messiness)
    ensures underwear.messiness <= r.0.messiness && pants.messiness <= r.1.messiness
    ensures r.0.messiness + r.1.messiness + r.2 == underwear.messiness + pants.messiness + amount
    ensures underwear.messiness + amount <= underwear.containment ==> r.1 == pants && r.2 == 0.0
  {
    var (u, spill) := AddPoop(underwear, amount);
    var (p, lost) := AddPoop(pants, spill);
    (u, p, lost)
  }

  /** One night event applied to the pair: a toilet trip leaves both garments alone. */
  function PourEvent(underwear: Container, pants: Container, e: NightEvent): (r: (Container, Container))
    requires ContainerOk(underwear) && ContainerOk(pants)
    requires e.Accident? ==> e.amount >= 0.0
  {
    match e
    case Toilet => (underwear, pants)
    case Accident(amount) => var (u, p, _) := PourPee(underwear, pants, amount); (u, p)
  }

  /** The night's events applied in order; only wetness ever changes, and it only grows,
      by no more than the accidents deposit. */
  function PourNight(underwear: Container, pants: Container, es: seq<NightEvent>): (r: (Container, Container))
    requires ContainerOk(underwear) && ContainerOk(pants)
    requires forall i :: 0 <= i < |es| && es[i].Accident? ==> es[i].amount >= 0.0
    ensures ContainerOk(r.0) && ContainerOk(r.1)
    ensures r.0 == underwear.(wetness := r.0.wetness) && r.1 == pants.(wetness := r.1.wetness)
    ensures underwear.wetness <= r.0.wetness && pants.wetness <= r.1.wetness
    ensures r.0.wetness + r.1.wetness <= underwear.wetness + pants.wetness + Deposited(es)
  {
    if es == [] then (underwear, pants)
    else
      var (u, p) := PourNight(underwear, pants, es[..|es| - 1]);
      PourEvent(u, p, es[|es| - 1])
  }

  /** A night of toilet trips leaves both garments as they were. */
  lemma {:induction false} PourNightToilets(underwear: Container, pants: Container, es: seq<NightEvent>)
    requires ContainerOk(underwear) && ContainerOk(pants)
    requires forall i :: 0 <= i < |es| ==> es[i] == Toilet
    ensures PourNight(underwear, pants, es) == (underwear, pants)
  {
    if es != [] {
      PourNightToilets(underwear, pants, es[..|es| - 1]);
    }
  }
}
