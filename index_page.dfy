/** The home page of src/pages/Index.tsx: the featured listings. */
module IndexPage {
  import opened Wrappers
  import opened Seqs
  import opened MockModel

  function AvailableCars(cars: seq<MockCar>): seq<MockCar> {
    Filter(cars, IsAvailable)
  }

  /** `cars.filter((c) => c.status === 'Available').slice(0, 6)`: the first six
      available cars of the catalogue, or all of them when there are fewer. */
  function FeaturedCars(cars: seq<MockCar>): (r: seq<MockCar>)
    ensures forall c :: c in r ==> c in cars && IsAvailable(c)
    ensures |r| == Min(6, |AvailableCars(cars)|)
    ensures forall i :: 0 <= i < |r| ==> r[i] == AvailableCars(cars)[i]
  {
    var r := Take(AvailableCars(cars), 6);
    assert forall c :: c in r ==> c in AvailableCars(cars);
    r
  }

  /** The selection keeps catalogue order: it is a subsequence of the catalogue. */
  lemma FeaturedIsSubseq(cars: seq<MockCar>)
    ensures IsSubseq(FeaturedCars(cars), cars)
  {
    FilterIsSubseq(cars, IsAvailable);
    TakeIsSubseq(AvailableCars(cars), 6);
    SubseqTransitive(FeaturedCars(cars), AvailableCars(cars), cars);
  }

  /** No car is featured more often than the catalogue holds it. */
  lemma FeaturedNeverDuplicates(cars: seq<MockCar>)
    ensures multiset(FeaturedCars(cars)) <= multiset(cars)
    ensures NoDuplicates(cars) ==> NoDuplicates(FeaturedCars(cars))
  {
    FeaturedIsSubseq(cars);
    SubseqMultiset(FeaturedCars(cars), cars);
    if NoDuplicates(cars) {
      SubseqNoDuplicates(FeaturedCars(cars), cars);
    }
  }
}
