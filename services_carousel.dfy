/** The services carousel of src/components/ServicesCarousel.tsx: the index of
    the service on show and the direction of the last move. */
module ServicesCarousel {

  datatype Service = Service(id: nat, title: string, subtitle: string)

  /** The four services, in display order. */
  const Services: seq<Service> := [
    Service(1, "Tunatoa Mkopo", "Car Financing Available"),
    Service(2, "Bima ya Gari", "Comprehensive Insurance"),
    Service(3, "Huduma ya Matengenezo", "Maintenance & Service"),
    Service(4, "Usajili wa Gari", "Registration Services")]

  /** `(prev + 1) % services.length`. */
  function NextService(i: nat): (r: nat)
    requires i < |Services|
    ensures r < |Services|
  {
    (i + 1) % |Services|
  }

  /** `(prev - 1 + services.length) % services.length`; the left operand is
      never negative, so the JavaScript remainder agrees with Dafny's. */
  function PrevService(i: nat): (r: nat)
    requires i < |Services|
    ensures r < |Services|
  {
    (i - 1 + |Services|) % |Services|
  }

  /** Next moves one service on and wraps from the last to the first; prev
      moves one back and wraps from the first to the last. */
  lemma StepsWrap(i: nat)
    requires i < |Services|
    ensures NextService(i) == if i == |Services| - 1 then 0 else i + 1
    ensures PrevService(i) == if i == 0 then |Services| - 1 else i - 1
  {
  }

  /** Prev after next, and next after prev, return to the start. */
  lemma StepsInverse(i: nat)
    requires i < |Services|
    ensures PrevService(NextService(i)) == i
    ensures NextService(PrevService(i)) == i
  {
  }

  /** The index after `k` calls to next. */
  function Advance(i: nat, k: nat): (r: nat)
    requires i < |Services|
    ensures r < |Services|
  {
    if k == 0 then i else NextService(Advance(i, k - 1))
  }

  lemma {:induction false} AdvanceIsModular(i: nat, k: nat)
    requires i < |Services|
    ensures Advance(i, k) == (i + k) % |Services|
  {
    if k > 0 {
      AdvanceIsModular(i, k - 1);
    }
  }

  /** As many calls to next as there are services come back to the start. */
  lemma FullCycle(i: nat)
    requires i < |Services|
    ensures Advance(i, |Services|) == i
  {
    AdvanceIsModular(i, |Services|);
  }

  /** The component's state. `direction` is 0 before the first move, then 1 or -1. */
  class Carousel {
    var currentIndex: nat
    var direction: int

    predicate Valid()
      reads this
    {
      currentIndex < |Services| && -1 <= direction <= 1
    }

    constructor()
      ensures currentIndex == 0 && direction == 0 && Valid()
    {
      currentIndex, direction := 0, 0;
    }

    /** `nextService`. */
    method Next()
      requires Valid()
      modifies this
      ensures currentIndex == NextService(old(currentIndex)) && direction == 1 && Valid()
    {
      direction := 1;
      currentIndex := (currentIndex + 1) % |Services|;
    }

    /** `prevService`. */
    method Prev()
      requires Valid()
      modifies this
      ensures currentIndex == PrevService(old(currentIndex)) && direction == -1 && Valid()
    {
      direction := -1;
      currentIndex := (currentIndex - 1 + |Services|) % |Services|;
    }

    /** `goToService(index)` for one of the indicator dots: forward when the
        target lies after the current service, backward otherwise, including
        when it is the current one. */
    method GoTo(index: nat)
      requires Valid() && index < |Services|
      modifies this
      ensures currentIndex == index && Valid()
      ensures direction == 1 <==> index > old(currentIndex)
      ensures direction == -1 <==> index <= old(currentIndex)
    {
      direction := if index > currentIndex then 1 else -1;
      currentIndex := index;
    }
  }
}
